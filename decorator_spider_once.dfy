/**
 * decorator/decorator_spider_once.py: SpiderOnceDecorator. After the
 * decorated function, run_once hands the request totals to every request
 * middleware's request_record and then calls every spider middleware's
 * spider_end, each exception swallowed. A local spider does so with its own
 * counters; a distributed one publishes its record (short names), drops its
 * heartbeat field, and only the spider that finds no heartbeat left totals
 * all records and runs the two hooks.
 */
module SpiderOnceDecorators {
  import opened Common
  import Redis
  import opened Records
  import opened Hooks

  /** The hook calls of one end of crawl: request_record(record) on each request middleware, then spider_end on each spider middleware. */
  function EndCalls(record: Counts, nRequest: nat, nSpider: nat): (evs: seq<Event>)
    ensures |evs| == nRequest + nSpider
  {
    Calls(RequestRecord(record), nRequest) + Calls(SpiderEnd, nSpider)
  }

  /** run_request_record: every request middleware gets the record, whatever the others raise. */
  method RunRequestRecord(record: Counts, nRequest: nat, raises: Raises) returns (trace: seq<Event>)
    ensures trace == Calls(RequestRecord(record), nRequest)
  {
    trace := CallAll(RequestRecord(record), nRequest, raises);
  }

  /** run_spider_end: every spider middleware's spider_end, whatever the others raise. */
  method RunSpiderEnd(nSpider: nat, raises: Raises) returns (trace: seq<Event>)
    ensures trace == Calls(SpiderEnd, nSpider)
  {
    trace := CallAll(SpiderEnd, nSpider, raises);
  }

  /**
   * What a distributed run_once leaves, from store db0: the record is
   * published under short names; if a heartbeat is left, no hook runs;
   * otherwise `items` lists the record hash, and either reading a record
   * fails with that error before any hook runs or the totals go to
   * request_record and spider_end follows.
   */
  ghost predicate OnceDone(db0: Redis.Db, db: Redis.Db, keys: Redis.KeySettings, uuid: string, c: Counts,
                           stopTime: string, nRequest: nat, nSpider: nat,
                           res: Result<()>, trace: seq<Event>, items: seq<(Bytes, Bytes)>) {
    var db1 := Published(db0, keys, uuid, c, Short, stopTime);
    db == db1
    && (Redis.Exists(db1, keys(Redis.Heartbeat)) ==> res == Ok(()) && trace == [])
    && (!Redis.Exists(db1, keys(Redis.Heartbeat)) ==>
          Redis.Enumerates(items, Redis.Hash(db1, keys(Redis.Record)))
          && (Aggregate(items, Short).Err? ==> res == Err(Aggregate(items, Short).error) && trace == [])
          && (Aggregate(items, Short).Ok? ==>
                res == Ok(()) && trace == EndCalls(Aggregate(items, Short).value, nRequest, nSpider)))
  }

  /** run_once; the RedisLock around HDEL and EXISTS is not modelled. */
  method RunOnce(store: Redis.Store, keys: Redis.KeySettings, spiderRecord: SpiderRecord, uuid: string,
                 spiderType: int, stopTime: string, nRequest: nat, nSpider: nat, raises: Raises)
    returns (res: Result<()>, trace: seq<Event>, items: seq<(Bytes, Bytes)>)
    modifies store
    ensures spiderType == 1 ==>
              res == Ok(()) && store.db == old(store.db) && trace == EndCalls(spiderRecord.Value(), nRequest, nSpider)
    ensures spiderType != 1 ==>
              OnceDone(old(store.db), store.db, keys, uuid, spiderRecord.Value(), stopTime, nRequest, nSpider, res, trace, items)
  {
    items := [];
    if spiderType == 1 {
      var t1 := RunRequestRecord(spiderRecord.Value(), nRequest, raises);
      var t2 := RunSpiderEnd(nSpider, raises);
      return Ok(()), t1 + t2, items;
    }
    var isEnd := PublishAndCheck(store, keys, uuid, spiderRecord.Value(), Short, stopTime);
    if !isEnd {
      return Ok(()), [], items;
    }
    items := store.HGetAllItems(keys(Redis.Record));
    var total := AggregateRecords(items, Short);
    if total.Err? {
      return Err(total.error), [], items;
    }
    var t1 := RunRequestRecord(total.value, nRequest, raises);
    var t2 := RunSpiderEnd(nSpider, raises);
    return Ok(()), t1 + t2, items;
  }

  /**
   * `__call__`'s wrapper: `try: func(spider) finally: run_once(spider)`.
   * The trace is the body, then run_once's hook calls; `after` is what
   * run_once gave; func raises bodyExc when `raises(Body)`.
   */
  method Wrapped(store: Redis.Store, keys: Redis.KeySettings, spiderRecord: SpiderRecord, uuid: string,
                 spiderType: int, stopTime: string, nRequest: nat, nSpider: nat, raises: Raises, bodyExc: Exc)
    returns (res: Result<()>, after: Result<()>, trace: seq<Event>, items: seq<(Bytes, Bytes)>)
    modifies store
    ensures res == Finally(if raises(Body) then Err(bodyExc) else Ok(()), after)
    ensures |trace| >= 1 && trace[0] == Body
    ensures spiderType == 1 ==>
              after == Ok(()) && store.db == old(store.db) && trace[1..] == EndCalls(spiderRecord.Value(), nRequest, nSpider)
    ensures spiderType != 1 ==>
              OnceDone(old(store.db), store.db, keys, uuid, spiderRecord.Value(), stopTime, nRequest, nSpider,
                       after, trace[1..], items)
  {
    var body := if raises(Body) then Err(bodyExc) else Ok(());
    var t;
    after, t, items := RunOnce(store, keys, spiderRecord, uuid, spiderType, stopTime, nRequest, nSpider, raises);
    trace := [Body] + t;
    assert trace[1..] == t;
    res := Finally(body, after);
  }

  /**
   * The totals handed to request_record are those of every published
   * record: with records cs under short names, the hook records are all
   * Total(cs), one per request middleware, and spider_end follows on every
   * spider middleware.
   */
  lemma EndCallsCarryTotals(cs: seq<Counts>, items: seq<(Bytes, Bytes)>, ts: seq<string>, nRequest: nat, nSpider: nat)
    requires |cs| == |items| == |ts|
    requires forall i :: 0 <= i < |items| ==> items[i].1 == RecordJson(cs[i], Short, ts[i])
    ensures Aggregate(items, Short) == Ok(Total(cs))
    ensures forall i :: 0 <= i < nRequest ==> EndCalls(Total(cs), nRequest, nSpider)[i] == Call(RequestRecord(Total(cs)), i)
    ensures forall i :: nRequest <= i < nRequest + nSpider ==> EndCalls(Total(cs), nRequest, nSpider)[i] == Call(SpiderEnd, i - nRequest)
  {
    AggregateIsSum(items, cs, ts, Short);
  }
}
