/**
 * decorator/decorator_spider_record.py: SpiderRecordDecorator, which runs
 * the decorated function and then, whatever it did, publishes the spider's
 * `spider_record` (long names) and, on the last spider, the totals.
 */
module SpiderRecordDecorators {
  import opened Common
  import Redis
  import opened Records
  import opened Hooks

  /**
   * SpiderRecordDecorator.record: nothing in local mode (SPIDER_TYPE 1);
   * otherwise a publish-and-total step with the spider's counters.
   */
  method Record(store: Redis.Store, keys: Redis.KeySettings, spiderRecord: SpiderRecord, uuid: string,
                spiderType: int, stopTime: string, finalTime: string)
    returns (res: Result<()>, items: seq<(Bytes, Bytes)>)
    modifies store
    ensures spiderType == 1 ==> res == Ok(()) && store.db == old(store.db)
    ensures spiderType != 1 ==>
              Totalled(old(store.db), store.db, keys, uuid, spiderRecord.Value(), stopTime, finalTime, res, items)
  {
    if spiderType == 1 {
      return Ok(()), [];
    }
    res, items := PublishAndTotal(store, keys, uuid, spiderRecord.Value(), stopTime, finalTime);
  }

  /**
   * `__call__`'s wrapper: `try: func(spider) finally: record(spider)`.
   * Whether func raises is `raises(Body)`, and then it raises bodyExc;
   * `after` is what record gave.
   */
  method Wrapped(store: Redis.Store, keys: Redis.KeySettings, spiderRecord: SpiderRecord, uuid: string,
                 spiderType: int, stopTime: string, finalTime: string, raises: Raises, bodyExc: Exc)
    returns (res: Result<()>, after: Result<()>, items: seq<(Bytes, Bytes)>)
    modifies store
    ensures res == Finally(if raises(Body) then Err(bodyExc) else Ok(()), after)
    ensures spiderType == 1 ==> after == Ok(()) && store.db == old(store.db)
    ensures spiderType != 1 ==>
              Totalled(old(store.db), store.db, keys, uuid, spiderRecord.Value(), stopTime, finalTime, after, items)
  {
    // func runs first; its exception is held while the finally step runs
    var body := if raises(Body) then Err(bodyExc) else Ok(());
    after, items := Record(store, keys, spiderRecord, uuid, spiderType, stopTime, finalTime);
    res := Finally(body, after);
  }
}
