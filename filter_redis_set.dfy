/**
 * filter/filter_redis_set.py: RedisSetFilter, a check-and-set on a Redis
 * set (SISMEMBER, then SADD) at the request or the item filter key.
 */
module RedisSetFilters {
  import opened Common
  import opened Tasks
  import opened Fingerprints
  import Redis

  /** The filter key for obj: REDIS_KEY_QUEUE_FILTER_REQUEST for a Request, REDIS_KEY_QUEUE_FILTER_ITEM otherwise. */
  function FilterKey(keys: Redis.KeySettings, obj: Task): Redis.RKey {
    if obj.RequestTask? then keys(Redis.FilterRequest) else keys(Redis.FilterItem)
  }

  /** judge on store state db: whether member m of set k is a repeat, and the state afterwards. */
  function SetJudge(db: Redis.Db, k: Redis.RKey, m: Bytes): (r: (bool, Redis.Db))
    ensures r.0 <==> m in Redis.Members(db, k)
    ensures r.0 ==> r.1 == db
    ensures !r.0 ==> r.1 == Redis.WithSet(db, k, Redis.Members(db, k) + {m})
  {
    if m in Redis.Members(db, k) then (true, db) else (false, Redis.WithSet(db, k, Redis.Members(db, k) + {m}))
  }

  /** What is_repeat answers on store state db at key k, for a fingerprint that may have failed to compute. */
  function RedisAnswer(db: Redis.Db, k: Redis.RKey, fp: Result<string>): (r: Result<bool>)
    ensures fp.Err? ==> r == Err(fp.error)
    ensures fp.Ok? ==> r == Ok(SetJudge(db, k, BText(fp.value)).0)
  {
    var f :- fp;
    Ok(BText(f) in Redis.Members(db, k))
  }

  /**
   * After judge, m is a member of k whatever the answer, every other set is
   * as it was, and judging m again says repeat and changes nothing.
   */
  lemma SetJudgeRecords(db: Redis.Db, k: Redis.RKey, m: Bytes, other: Redis.RKey)
    requires other != k
    ensures m in Redis.Members(SetJudge(db, k, m).1, k)
    ensures Redis.Members(db, k) <= Redis.Members(SetJudge(db, k, m).1, k)
    ensures Redis.Members(SetJudge(db, k, m).1, other) == Redis.Members(db, other)
    ensures SetJudge(SetJudge(db, k, m).1, k, m) == (true, SetJudge(db, k, m).1)
  {
  }

  /** With the shipped key templates, or once they are formatted, requests and items have distinct filter keys. */
  lemma FilterKeysDistinct(redisKey: string, req: Task, item: Task)
    requires req.RequestTask? && item.ItemTask?
    ensures FilterKey(Redis.TemplateKeys, req) != FilterKey(Redis.TemplateKeys, item)
    ensures Redis.Format(FilterKey(Redis.TemplateKeys, req), redisKey)
            != Redis.Format(FilterKey(Redis.TemplateKeys, item), redisKey)
  {
  }

  /** RedisSetFilter */
  class RedisSetFilter {
    const store: Redis.Store
    const keys: Redis.KeySettings
    const enc: Encoding

    constructor (store: Redis.Store, keys: Redis.KeySettings, enc: Encoding)
      ensures this.store == store && this.keys == keys && this.enc == enc
    {
      this.store := store;
      this.keys := keys;
      this.enc := enc;
    }

    /** judge(f, fingerprint): SISMEMBER, and SADD when absent. */
    method Judge(f: Redis.RKey, fingerprint: string) returns (repeat: bool)
      modifies store
      ensures (repeat, store.db) == SetJudge(old(store.db), f, BText(fingerprint))
    {
      var member := store.SIsMember(f, BText(fingerprint));
      if member {
        return true;
      }
      var _ := store.SAdd(f, BText(fingerprint));
      return false;
    }

    /** is_repeat: judge at the key for the object's type; under STRICT_FILTER inside a RedisLock (`locked`). */
    method IsRepeat(obj: Task, strict: bool) returns (res: Result<bool>, locked: bool)
      modifies store
      ensures locked == (strict && Fingerprint(obj, enc).Ok?)
      ensures Fingerprint(obj, enc).Err? ==> res == Err(Fingerprint(obj, enc).error) && store.db == old(store.db)
      ensures Fingerprint(obj, enc).Ok? ==>
                res.Ok?
                && (res.value, store.db)
                   == SetJudge(old(store.db), FilterKey(keys, obj), BText(Fingerprint(obj, enc).value))
    {
      var fingerprint := Fingerprint(obj, enc);
      if fingerprint.Err? {
        return Err(fingerprint.error), false;
      }
      var repeat := Judge(FilterKey(keys, obj), fingerprint.value);
      return Ok(repeat), strict;
    }
  }
}
