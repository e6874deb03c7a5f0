/**
 * filter/filter_redis_bloom.py: RedisBloomFilter, a Bloom filter kept as a
 * Redis bit string. A fingerprint sets, and is tested against, one bit per
 * seed 0 .. BLOOMFILTER_HASH_NUMBER - 1, at the seeded hash masked to
 * BLOOMFILTER_BIT bits.
 */
module BloomFilters {
  import opened Common
  import opened Tasks
  import opened Fingerprints
  import Redis
  import opened RedisSetFilters

  /** BLOOMFILTER_BIT and BLOOMFILTER_HASH_NUMBER as shipped. */
  const BloomFilterBit: nat := 6
  const BloomFilterHashNumber: nat := 30

  /** `1 << n` */
  function Pow2(n: nat): (r: nat)
    ensures r >= 1
  {
    if n == 0 then 1 else 2 * Pow2(n - 1)
  }

  /** The shipped settings give a 64-bit array. */
  lemma ShippedSize()
    ensures Pow2(BloomFilterBit) == 64
  {
  }

  /**
   * hash's accumulator after the characters of s: `ret += seed * ret +
   * ord(c)` for each c, so `ret := (seed + 1) * ret + ord(c)`, never reduced
   * on the way.
   */
  function Accumulate(seed: nat, s: string): nat
    decreases |s|
  {
    if s == [] then 0 else (seed + 1) * Accumulate(seed, s[..|s| - 1]) + s[|s| - 1] as int
  }

  /**
   * hash(seed, s): the accumulator masked with `m - 1`. For m a power of two
   * and a non-negative accumulator that is the remainder modulo m.
   */
  function BloomHash(seed: nat, s: string, m: nat): (h: nat)
    requires m >= 1
    ensures h < m
  {
    Accumulate(seed, s) % m
  }

  /** The bits insert sets for fp: one per seed below n. */
  function OffsetsBelow(fp: string, n: nat, m: nat): (o: set<nat>)
    requires m >= 1
    ensures forall x :: x in o ==> x < m
    ensures |o| <= n
  {
    if n == 0 then {} else OffsetsBelow(fp, n - 1, m) + {BloomHash(n - 1, fp, m)}
  }

  /** Every seed below n contributes its bit. */
  lemma {:induction false} OffsetsCover(fp: string, n: nat, m: nat, seed: nat)
    requires m >= 1 && seed < n
    ensures BloomHash(seed, fp, m) in OffsetsBelow(fp, n, m)
  {
    if seed < n - 1 {
      OffsetsCover(fp, n - 1, m, seed);
    }
  }

  /** exists: a non-empty fingerprint whose bit for every seed below k is set. */
  predicate InBloom(bits: set<nat>, fp: string, k: nat, m: nat)
    requires m >= 1
  {
    fp != "" && forall seed: nat :: seed < k ==> BloomHash(seed, fp, m) in bits
  }

  /** No false negatives: once fp's bits are set, exists(fp) holds for every non-empty fp. */
  lemma NoFalseNegatives(bits: set<nat>, fp: string, k: nat, m: nat)
    requires m >= 1 && fp != ""
    ensures InBloom(bits + OffsetsBelow(fp, k, m), fp, k, m)
  {
    forall seed: nat | seed < k
      ensures BloomHash(seed, fp, m) in bits + OffsetsBelow(fp, k, m)
    {
      OffsetsCover(fp, k, m, seed);
    }
  }

  /**
   * judge on bit set bits: a repeat iff every bit is already set; otherwise
   * all of fp's bits are set (and nothing else), and the answer is new.
   */
  function BloomJudge(bits: set<nat>, fp: string, k: nat, m: nat): (r: (bool, set<nat>))
    requires m >= 1
    ensures r.0 <==> InBloom(bits, fp, k, m)
    ensures fp == "" ==> !r.0
    ensures bits <= r.1 && r.1 <= bits + OffsetsBelow(fp, k, m)
    ensures fp != "" ==> InBloom(r.1, fp, k, m)
  {
    if InBloom(bits, fp, k, m) then (true, bits)
    else
      if fp != "" then NoFalseNegatives(bits, fp, k, m); (false, bits + OffsetsBelow(fp, k, m))
      else (false, bits + OffsetsBelow(fp, k, m))
  }

  /** What is_repeat answers on bit set bits, for a fingerprint that may have failed to compute. */
  function BloomAnswer(bits: set<nat>, fp: Result<string>, k: nat, m: nat): (r: Result<bool>)
    requires m >= 1
    ensures fp.Err? ==> r == Err(fp.error)
    ensures fp.Ok? ==> r == Ok(BloomJudge(bits, fp.value, k, m).0)
  {
    var f :- fp;
    Ok(InBloom(bits, f, k, m))
  }

  /** A fingerprint judged once is a repeat on every later judge, whatever was inserted in between. */
  lemma JudgeThenRepeat(bits: set<nat>, fp: string, k: nat, m: nat, later: set<nat>)
    requires m >= 1 && fp != ""
    ensures BloomJudge(BloomJudge(bits, fp, k, m).1 + later, fp, k, m).0
  {
    var after := BloomJudge(bits, fp, k, m).1;
    assert InBloom(after, fp, k, m);
    assert forall seed: nat :: seed < k ==> BloomHash(seed, fp, m) in after + later;
  }

  /** The store after SETBIT k x 1 for every x in o: the key appears once a bit is set. */
  function SetBits(db: Redis.Db, k: Redis.RKey, o: set<nat>): (r: Redis.Db)
    ensures Redis.Bits(r, k) == Redis.Bits(db, k) + o
    ensures r.strings == db.strings && r.lists == db.lists && r.sets == db.sets
    ensures r.zsets == db.zsets && r.hashes == db.hashes
    ensures forall j :: j != k ==> Redis.Bits(r, j) == Redis.Bits(db, j)
  {
    if o == {} then db else db.(bits := db.bits[k := Redis.Bits(db, k) + o])
  }

  /** One more SETBIT after those of o. */
  lemma SetBitsStep(db: Redis.Db, k: Redis.RKey, o: set<nat>, x: nat)
    ensures var d := SetBits(db, k, o);
            d.(bits := d.bits[k := Redis.Bits(d, k) + {x}]) == SetBits(db, k, o + {x})
  {
    var d := SetBits(db, k, o);
    assert Redis.Bits(d, k) + {x} == Redis.Bits(db, k) + (o + {x});
  }

  /** RedisBloomFilter */
  class RedisBloomFilter {
    const store: Redis.Store
    const keys: Redis.KeySettings
    const enc: Encoding
    /** BLOOMFILTER_BIT */
    const bit: nat
    /** `len(self.seeds)`: the seeds are 0 .. hashNumber - 1. */
    const hashNumber: nat

    /** `self.m` */
    function M(): (m: nat)
      ensures m >= 1
    {
      Pow2(bit)
    }

    constructor (store: Redis.Store, keys: Redis.KeySettings, enc: Encoding, bit: nat, hashNumber: nat)
      ensures this.store == store && this.keys == keys && this.enc == enc
      ensures this.bit == bit && this.hashNumber == hashNumber
    {
      this.store := store;
      this.keys := keys;
      this.enc := enc;
      this.bit := bit;
      this.hashNumber := hashNumber;
    }

    /** hash */
    method Hash(seed: nat, value: string) returns (h: nat)
      ensures h == BloomHash(seed, value, M())
    {
      var ret: nat := 0;
      var i := 0;
      while i < |value|
        invariant 0 <= i <= |value|
        invariant ret == Accumulate(seed, value[..i])
      {
        assert value[..i + 1][..i] == value[..i];
        ret := ret + seed * ret + value[i] as int;
        i := i + 1;
      }
      assert value[..|value|] == value;
      h := ret % M();
    }

    /** exists: GETBIT for every seed, combined with `&`. */
    method Exists(fingerprint: string, redisKeyFilter: Redis.RKey) returns (exist: bool)
      ensures exist <==> InBloom(Redis.Bits(store.db, redisKeyFilter), fingerprint, hashNumber, M())
    {
      if fingerprint == "" {
        return false;
      }
      exist := true;
      var seed := 0;
      while seed < hashNumber
        invariant seed <= hashNumber
        invariant exist <==> forall s: nat :: s < seed ==> BloomHash(s, fingerprint, M()) in Redis.Bits(store.db, redisKeyFilter)
      {
        var offset := Hash(seed, fingerprint);
        var b := store.GetBit(redisKeyFilter, offset);
        exist := exist && b;
        seed := seed + 1;
      }
    }

    /** insert: SETBIT to 1 for every seed. */
    method Insert(fingerprint: string, redisKeyFilter: Redis.RKey)
      modifies store
      ensures store.db == SetBits(old(store.db), redisKeyFilter, OffsetsBelow(fingerprint, hashNumber, M()))
    {
      var seed := 0;
      while seed < hashNumber
        invariant seed <= hashNumber
        invariant store.db == SetBits(old(store.db), redisKeyFilter, OffsetsBelow(fingerprint, seed, M()))
      {
        var offset := Hash(seed, fingerprint);
        SetBitsStep(old(store.db), redisKeyFilter, OffsetsBelow(fingerprint, seed, M()), offset);
        store.SetBit(redisKeyFilter, offset);
        seed := seed + 1;
      }
    }

    /** judge: True when exists holds; otherwise insert, and False. */
    method Judge(f: Redis.RKey, fingerprint: string) returns (repeat: bool)
      modifies store
      ensures repeat == BloomJudge(Redis.Bits(old(store.db), f), fingerprint, hashNumber, M()).0
      ensures repeat ==> store.db == old(store.db)
      ensures !repeat ==> store.db == SetBits(old(store.db), f, OffsetsBelow(fingerprint, hashNumber, M()))
    {
      var e := Exists(fingerprint, f);
      if e {
        return true;
      }
      Insert(fingerprint, f);
      return false;
    }

    /** is_repeat: judge at the key for the object's type; under STRICT_FILTER inside a RedisLock (`locked`). */
    method IsRepeat(obj: Task, strict: bool) returns (res: Result<bool>, locked: bool)
      modifies store
      ensures locked == (strict && Fingerprint(obj, enc).Ok?)
      ensures Fingerprint(obj, enc).Err? ==> res == Err(Fingerprint(obj, enc).error) && store.db == old(store.db)
      ensures Fingerprint(obj, enc).Ok? ==>
                res.Ok?
                && res.value == BloomJudge(Redis.Bits(old(store.db), FilterKey(keys, obj)),
                                           Fingerprint(obj, enc).value, hashNumber, M()).0
                && Redis.Bits(store.db, FilterKey(keys, obj))
                   == BloomJudge(Redis.Bits(old(store.db), FilterKey(keys, obj)),
                                 Fingerprint(obj, enc).value, hashNumber, M()).1
                && store.db.sets == old(store.db.sets) && store.db.lists == old(store.db.lists)
                && store.db == (if res.value then old(store.db)
                                else SetBits(old(store.db), FilterKey(keys, obj), OffsetsBelow(Fingerprint(obj, enc).value, hashNumber, M())))
    {
      var fingerprint := Fingerprint(obj, enc);
      if fingerprint.Err? {
        return Err(fingerprint.error), false;
      }
      var repeat := Judge(FilterKey(keys, obj), fingerprint.value);
      return Ok(repeat), strict;
    }
  }
}
