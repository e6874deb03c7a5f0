/**
 * middleware/middleware_record.py: RequestRecordMiddleware, a request and
 * spider middleware at once. Its counters are class attributes, shared by
 * every instance; in distributed mode spider_close publishes them to the
 * record hash, drops this spider's heartbeat field, and the last spider to
 * do so writes the totals of all published records to the stop key.
 */
module RecordMiddlewares {
  import opened Common
  import Requests
  import Redis
  import opened Records

  /** The class attributes request_count_all, request_count_failed, request_count_succeed. */
  class RecordCounters {
    var requestCountAll: int
    var requestCountFailed: int
    var requestCountSucceed: int

    /** All three start at 0 in the class body. */
    constructor ()
      ensures requestCountAll == 0 && requestCountFailed == 0 && requestCountSucceed == 0
    {
      requestCountAll, requestCountFailed, requestCountSucceed := 0, 0, 0;
    }

    function Value(): Counts
      reads this
    {
      Counts(requestCountAll, requestCountFailed, requestCountSucceed)
    }
  }

  /** RequestRecordMiddleware (the class-counter variant) */
  class RequestRecordMiddleware {
    /** The class object, whose attributes every instance increments. */
    const cls: RecordCounters

    constructor (cls: RecordCounters)
      ensures this.cls == cls
    {
      this.cls := cls;
    }

    /** request_in */
    method RequestIn(request: Requests.Request)
      modifies cls
      ensures cls.Value() == Plus(old(cls.Value()), Counts(1, 0, 0))
    {
      cls.requestCountAll := cls.requestCountAll + 1;
    }

    /** request_failed */
    method RequestFailed(request: Requests.Request)
      modifies cls
      ensures cls.Value() == Plus(old(cls.Value()), Counts(0, 1, 0))
    {
      cls.requestCountFailed := cls.requestCountFailed + 1;
    }

    /** request_close: never a replacement request. */
    method RequestClose(request: Requests.Request) returns (replacement: Option<Requests.Request>)
      modifies cls
      ensures cls.Value() == Plus(old(cls.Value()), Counts(0, 0, 1))
      ensures replacement.None?
    {
      cls.requestCountSucceed := cls.requestCountSucceed + 1;
      return None;
    }

    /**
     * spider_close. `spiderType` is settings.SPIDER_TYPE, `uuid` the
     * spider's spider_uuid, and `stopTime`, `finalTime` the two readings of
     * datetime.now(). `items` is the HGETALL reply the totals were taken
     * from, when they were.
     */
    method SpiderClose(store: Redis.Store, keys: Redis.KeySettings, uuid: string, spiderType: int,
                       stopTime: string, finalTime: string)
      returns (res: Result<()>, items: seq<(Bytes, Bytes)>)
      modifies store
      ensures spiderType == 1 ==> res == Ok(()) && store.db == old(store.db)
      ensures spiderType != 1 ==> Totalled(old(store.db), store.db, keys, uuid, cls.Value(), stopTime, finalTime, res, items)
    {
      if spiderType == 1 {
        return Ok(()), [];
      }
      res, items := PublishAndTotal(store, keys, uuid, cls.Value(), stopTime, finalTime);
    }
  }
}
