/**
 * middleware/middleware_request_record.py: RequestRecordMiddleware, which
 * counts requests on the spider's own `spider_record`: one more `all` per
 * request_in, one more `failed` per request_failed, one more `succeed` per
 * request_close.
 */
module RequestRecordMiddlewares {
  import opened Common
  import Requests
  import opened Records

  /** RequestRecordMiddleware (the spider-record variant) */
  class RequestRecordMiddleware {
    constructor ()
    {
    }

    /** request_in */
    method RequestIn(spiderRecord: SpiderRecord, request: Requests.Request)
      modifies spiderRecord
      ensures spiderRecord.Value() == Plus(old(spiderRecord.Value()), Counts(1, 0, 0))
    {
      spiderRecord.all := spiderRecord.all + 1;
    }

    /** request_failed */
    method RequestFailed(spiderRecord: SpiderRecord, request: Requests.Request)
      modifies spiderRecord
      ensures spiderRecord.Value() == Plus(old(spiderRecord.Value()), Counts(0, 1, 0))
    {
      spiderRecord.failed := spiderRecord.failed + 1;
    }

    /** request_close: never a replacement request. */
    method RequestClose(spiderRecord: SpiderRecord, request: Requests.Request) returns (replacement: Option<Requests.Request>)
      modifies spiderRecord
      ensures spiderRecord.Value() == Plus(old(spiderRecord.Value()), Counts(0, 0, 1))
      ensures replacement.None?
    {
      spiderRecord.succeed := spiderRecord.succeed + 1;
      return None;
    }
  }
}
