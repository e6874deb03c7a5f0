/**
 * filter/filter_redis.py: RequestRedisFilter, BaseFilter's Redis set
 * filter. Its check-and-set always runs under the RedisLock at
 * REDIS_KEY_LOCK, whatever STRICT_FILTER says.
 */
module RedisFilters {
  import opened Common
  import opened Tasks
  import opened Fingerprints
  import Redis
  import opened RedisSetFilters

  /** RequestRedisFilter */
  class RequestRedisFilter {
    const store: Redis.Store
    const keys: Redis.KeySettings
    const enc: Encoding

    constructor (store: Redis.Store, keys: Redis.KeySettings, enc: Encoding)
      ensures this.store == store && this.keys == keys && this.enc == enc
    {
      this.store := store;
      this.keys := keys;
      this.enc := enc;
    }

    /** is_repeat: SISMEMBER, and SADD when absent, inside the lock (`locked`). */
    method IsRepeat(obj: Task) returns (res: Result<bool>, locked: bool)
      modifies store
      ensures locked <==> Fingerprint(obj, enc).Ok?
      ensures Fingerprint(obj, enc).Err? ==> res == Err(Fingerprint(obj, enc).error) && store.db == old(store.db)
      ensures Fingerprint(obj, enc).Ok? ==>
                res.Ok?
                && (res.value, store.db)
                   == SetJudge(old(store.db), FilterKey(keys, obj), BText(Fingerprint(obj, enc).value))
    {
      var fingerprintMd5 := Fingerprint(obj, enc);
      if fingerprintMd5.Err? {
        return Err(fingerprintMd5.error), false;
      }
      var redisKeyFilter := FilterKey(keys, obj);
      var member := store.SIsMember(redisKeyFilter, BText(fingerprintMd5.value));
      if member {
        return Ok(true), true;
      }
      var _ := store.SAdd(redisKeyFilter, BText(fingerprintMd5.value));
      return Ok(false), true;
    }
  }
}
