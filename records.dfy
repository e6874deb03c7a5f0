/**
 * The request counters a spider keeps (`spider_record`, spider/spider.py)
 * and the JSON records the distributed spiders publish to the record hash
 * and fold into the final statistics at the stop key.
 */
module Records {
  import opened Common
  import Redis

  /** all / failed / succeed */
  datatype Counts = Counts(all: int, failed: int, succeed: int)

  const Zero := Counts(0, 0, 0)

  function Plus(a: Counts, b: Counts): Counts {
    Counts(a.all + b.all, a.failed + b.failed, a.succeed + b.succeed)
  }

  /**
   * The JSON field names a record uses: 'all', 'failed', 'succeed'
   * (decorator/decorator_spider_once.py) or 'request_all', 'request_failed',
   * 'request_succeed' (middleware/middleware_record.py,
   * decorator/decorator_spider_record.py).
   */
  datatype Naming = Short | Long

  function AllKey(n: Naming): Key { if n == Short then K("all") else K("request_all") }
  function FailedKey(n: Naming): Key { if n == Short then K("failed") else K("request_failed") }
  function SucceedKey(n: Naming): Key { if n == Short then K("succeed") else K("request_succeed") }

  /** `json.dumps({...counts..., 'stop_time': ...})` */
  function RecordJson(c: Counts, n: Naming, stopTime: string): Bytes {
    BJson(map[AllKey(n) := VInt(c.all), FailedKey(n) := VInt(c.failed), SucceedKey(n) := VInt(c.succeed),
              K("stop_time") := VStr(stopTime)])
  }

  /** `total += v` for an int total: ints and bools add; anything else raises TypeError. */
  function AsInt(v: Val): (r: Result<int>)
    ensures r.Ok? <==> v.VInt? || v.VBool?
    ensures v.VInt? ==> r == Ok(v.i)
  {
    match v
    case VInt(i) => Ok(i)
    case VBool(b) => Ok(if b then 1 else 0)
    case _ => Err(TypeError)
  }

  /** `detail[k]` added to a total: KeyError when k is missing. */
  function Field(d: map<Key, Val>, k: Key): (r: Result<int>)
    ensures k !in d ==> r == Err(KeyError)
  {
    if k in d then AsInt(d[k]) else Err(KeyError)
  }

  /** One loop step's reading of a published record. */
  function ReadRecord(b: Bytes, n: Naming): Result<Counts> {
    var d :- JsonLoads(b);
    var a :- Field(d, AllKey(n));
    var f :- Field(d, FailedKey(n));
    var s :- Field(d, SucceedKey(n));
    Ok(Counts(a, f, s))
  }

  /** A record reads back as the counts it was published with. */
  lemma ReadOfRecordJson(c: Counts, n: Naming, stopTime: string)
    ensures ReadRecord(RecordJson(c, n, stopTime), n) == Ok(c)
  {
    var d := RecordJson(c, n, stopTime).d;
    assert AllKey(n) in d && d[AllKey(n)] == VInt(c.all);
    assert FailedKey(n) in d && d[FailedKey(n)] == VInt(c.failed);
    assert SucceedKey(n) in d && d[SucceedKey(n)] == VInt(c.succeed);
  }

  /** A record published with the short names cannot be read with the long ones, nor the other way round. */
  lemma NamingsDoNotMix(c: Counts, stopTime: string)
    ensures ReadRecord(RecordJson(c, Short, stopTime), Long) == Err(KeyError)
    ensures ReadRecord(RecordJson(c, Long, stopTime), Short) == Err(KeyError)
  {
    assert K("request_all") !in RecordJson(c, Short, stopTime).d;
    assert K("all") !in RecordJson(c, Long, stopTime).d;
  }

  /** The totals of the aggregation loop over the (field, record) pairs of the record hash. */
  function Aggregate(items: seq<(Bytes, Bytes)>, n: Naming): Result<Counts>
    decreases |items|
  {
    if items == [] then Ok(Zero)
    else
      var acc :- Aggregate(items[..|items| - 1], n);
      var c :- ReadRecord(items[|items| - 1].1, n);
      Ok(Plus(acc, c))
  }

  /** The counter-wise sum of cs. */
  function Total(cs: seq<Counts>): Counts
    decreases |cs|
  {
    if cs == [] then Zero else Plus(Total(cs[..|cs| - 1]), cs[|cs| - 1])
  }

  /**
   * When every field of the hash holds a record published with the same
   * names, the aggregate is, counter by counter, the sum over all of them.
   */
  lemma {:induction false} AggregateIsSum(items: seq<(Bytes, Bytes)>, cs: seq<Counts>, ts: seq<string>, n: Naming)
    requires |cs| == |items| == |ts|
    requires forall i :: 0 <= i < |items| ==> items[i].1 == RecordJson(cs[i], n, ts[i])
    ensures Aggregate(items, n) == Ok(Total(cs))
    decreases |items|
  {
    if items != [] {
      var k := |items| - 1;
      AggregateIsSum(items[..k], cs[..k], ts[..k], n);
      ReadOfRecordJson(cs[k], n, ts[k]);
    }
  }

  /** The aggregation loop: the totals, or the first error a record raises. */
  method AggregateRecords(items: seq<(Bytes, Bytes)>, n: Naming) returns (res: Result<Counts>)
    ensures res == Aggregate(items, n)
  {
    var acc := Zero;
    var i := 0;
    while i < |items|
      invariant 0 <= i <= |items|
      invariant Aggregate(items[..i], n) == Ok(acc)
    {
      assert items[..i + 1][..i] == items[..i];
      var c := ReadRecord(items[i].1, n);
      if c.Err? {
        assert Aggregate(items[..i + 1], n) == Err(c.error);
        assert Aggregate(items, n) == Err(c.error) by {
          AggregateErrSticks(items, i + 1, n);
        }
        return Err(c.error);
      }
      acc := Plus(acc, c.value);
      i := i + 1;
    }
    assert items[..|items|] == items;
    return Ok(acc);
  }

  /** An error in a prefix is the error of the whole loop. */
  lemma {:induction false} AggregateErrSticks(items: seq<(Bytes, Bytes)>, i: nat, n: Naming)
    requires i <= |items| && Aggregate(items[..i], n).Err?
    ensures Aggregate(items, n) == Aggregate(items[..i], n)
    decreases |items| - i
  {
    if i < |items| {
      assert items[..i + 1][..i] == items[..i];
      AggregateErrSticks(items, i + 1, n);
    } else {
      assert items[..i] == items;
    }
  }

  /** A spider's `spider_record` dict, updated in place by the record middleware. */
  class SpiderRecord {
    var all: int
    var failed: int
    var succeed: int

    /** spider_record starts at all = failed = succeed = 0. */
    constructor ()
      ensures all == 0 && failed == 0 && succeed == 0
    {
      all, failed, succeed := 0, 0, 0;
    }

    function Value(): Counts
      reads this
    {
      Counts(all, failed, succeed)
    }
  }

  /** The store after HSET of this spider's record into the record hash and HDEL of its heartbeat field. */
  function Published(db: Redis.Db, keys: Redis.KeySettings, uuid: string, c: Counts, n: Naming, stopTime: string): Redis.Db {
    var db1 := Redis.WithHash(db, keys(Redis.Record),
                              Redis.Hash(db, keys(Redis.Record))[BText(uuid) := RecordJson(c, n, stopTime)]);
    Redis.WithHash(db1, keys(Redis.Heartbeat), Redis.Hash(db1, keys(Redis.Heartbeat)) - {BText(uuid)})
  }

  /**
   * With distinct record and heartbeat keys, the record is published and
   * reads back as c, every other published record is kept, and the
   * heartbeat field is gone.
   */
  lemma PublishedRecord(db: Redis.Db, keys: Redis.KeySettings, uuid: string, c: Counts, n: Naming, stopTime: string)
    requires keys(Redis.Record) != keys(Redis.Heartbeat)
    ensures var r := Published(db, keys, uuid, c, n, stopTime);
            Redis.Hash(r, keys(Redis.Record)) == Redis.Hash(db, keys(Redis.Record))[BText(uuid) := RecordJson(c, n, stopTime)]
            && ReadRecord(Redis.Hash(r, keys(Redis.Record))[BText(uuid)], n) == Ok(c)
            && Redis.Hash(r, keys(Redis.Heartbeat)) == Redis.Hash(db, keys(Redis.Heartbeat)) - {BText(uuid)}
  {
    ReadOfRecordJson(c, n, stopTime);
  }

  /** HSET of the record, HDEL of the heartbeat field, then EXISTS of the heartbeat hash: whether this spider was the last. */
  method PublishAndCheck(store: Redis.Store, keys: Redis.KeySettings, uuid: string, c: Counts, n: Naming, stopTime: string)
    returns (isEnd: bool)
    modifies store
    ensures store.db == Published(old(store.db), keys, uuid, c, n, stopTime)
    ensures isEnd <==> !Redis.Exists(store.db, keys(Redis.Heartbeat))
  {
    store.HSet(keys(Redis.Record), BText(uuid), RecordJson(c, n, stopTime));
    store.HDel(keys(Redis.Heartbeat), BText(uuid));
    var alive := store.KeyExists(keys(Redis.Heartbeat));
    isEnd := !alive;
  }

  /**
   * What a publish-and-total step leaves, from store db0: the record is
   * published; if a heartbeat is left, nothing else happens; otherwise
   * `items` lists the record hash, and either reading a record fails with
   * that error or the totals are SET at the stop key.
   */
  ghost predicate Totalled(db0: Redis.Db, db: Redis.Db, keys: Redis.KeySettings, uuid: string, c: Counts,
                           stopTime: string, finalTime: string, res: Result<()>, items: seq<(Bytes, Bytes)>) {
    var db1 := Published(db0, keys, uuid, c, Long, stopTime);
    (Redis.Exists(db1, keys(Redis.Heartbeat)) ==> res == Ok(()) && db == db1)
    && (!Redis.Exists(db1, keys(Redis.Heartbeat)) ==>
          Redis.Enumerates(items, Redis.Hash(db1, keys(Redis.Record)))
          && (Aggregate(items, Long).Err? ==> res == Err(Aggregate(items, Long).error) && db == db1)
          && (Aggregate(items, Long).Ok? ==>
                res == Ok(())
                && db == db1.(strings := db1.strings[keys(Redis.StopKey) := RecordJson(Aggregate(items, Long).value, Long, finalTime)])))
  }

  /** Publishing changes the heartbeat key only by dropping this spider's field. */
  lemma PublishedHeartbeat(db: Redis.Db, keys: Redis.KeySettings, uuid: string, c: Counts, n: Naming, stopTime: string)
    requires keys(Redis.Record) != keys(Redis.Heartbeat)
    ensures var r := Published(db, keys, uuid, c, n, stopTime);
            Redis.Hash(r, keys(Redis.Heartbeat)) == Redis.Hash(db, keys(Redis.Heartbeat)) - {BText(uuid)}
            && r.strings == db.strings && r.lists == db.lists && r.sets == db.sets && r.zsets == db.zsets && r.bits == db.bits
  {
  }

  /** While another spider's heartbeat field is left, the heartbeat key still exists: no totals yet. */
  lemma AnotherSpiderAlive(db: Redis.Db, keys: Redis.KeySettings, uuid: string, c: Counts, n: Naming, stopTime: string, other: Bytes)
    requires keys(Redis.Record) != keys(Redis.Heartbeat)
    requires other in Redis.Hash(db, keys(Redis.Heartbeat)) && other != BText(uuid)
    ensures Redis.Exists(Published(db, keys, uuid, c, n, stopTime), keys(Redis.Heartbeat))
  {
    PublishedHeartbeat(db, keys, uuid, c, n, stopTime);
    assert other in Redis.Hash(Published(db, keys, uuid, c, n, stopTime), keys(Redis.Heartbeat));
  }

  /** When the heartbeat key held a hash with no field but this spider's, publishing removes the key: this spider totals. */
  lemma LastSpiderEnds(db: Redis.Db, keys: Redis.KeySettings, uuid: string, c: Counts, n: Naming, stopTime: string)
    requires keys(Redis.Record) != keys(Redis.Heartbeat)
    requires Redis.Hash(db, keys(Redis.Heartbeat)).Keys <= {BText(uuid)}
    requires keys(Redis.Heartbeat) !in db.strings && Redis.List(db, keys(Redis.Heartbeat)) == []
    requires Redis.Members(db, keys(Redis.Heartbeat)) == {} && Redis.ZSet(db, keys(Redis.Heartbeat)) == map[]
    requires Redis.Bits(db, keys(Redis.Heartbeat)) == {}
    ensures !Redis.Exists(Published(db, keys, uuid, c, n, stopTime), keys(Redis.Heartbeat))
  {
    PublishedHeartbeat(db, keys, uuid, c, n, stopTime);
    assert Redis.Hash(Published(db, keys, uuid, c, n, stopTime), keys(Redis.Heartbeat)) == map[];
  }

  /**
   * Publish this spider's record (long names); when no heartbeat is left,
   * total every published record and SET the totals at the stop key.
   * `items` is the HGETALL reply the totals were taken from, when they were.
   */
  method PublishAndTotal(store: Redis.Store, keys: Redis.KeySettings, uuid: string, c: Counts,
                         stopTime: string, finalTime: string)
    returns (res: Result<()>, items: seq<(Bytes, Bytes)>)
    modifies store
    ensures Totalled(old(store.db), store.db, keys, uuid, c, stopTime, finalTime, res, items)
  {
    items := [];
    var isEnd := PublishAndCheck(store, keys, uuid, c, Long, stopTime);
    if !isEnd {
      return Ok(()), items;
    }
    items := store.HGetAllItems(keys(Redis.Record));
    var total := AggregateRecords(items, Long);
    if total.Err? {
      return Err(total.error), items;
    }
    store.Set(keys(Redis.StopKey), RecordJson(total.value, Long, finalTime));
    return Ok(()), items;
  }
}
