/**
 * middleware/middleware_request_filter.py: the four request filter
 * middlewares. With REQUEST_FILTER on, request_in asks its filter whether
 * the request is a repeat, which records its fingerprint whatever
 * filter_repeat says; it drops the request only when filter_repeat is also
 * set. The variants differ only in the filter behind them.
 */
module RequestFilterMiddlewares {
  import opened Common
  import Requests
  import opened Tasks
  import opened Fingerprints
  import Redis
  import SetFilters
  import MemoryFilters
  import RedisSetFilters
  import RedisFilters
  import BloomFilters

  /**
   * request_in with REQUEST_FILTER on, given what is_repeat answered and
   * what `request.filter_repeat` gives: an error of either propagates
   * (is_repeat runs first), and the request is dropped iff both hold.
   */
  function Outcome(repeat: Result<bool>, filterRepeat: Result<Val>): (res: Result<()>)
    ensures repeat.Err? ==> res == Err(repeat.error)
    ensures repeat.Ok? && filterRepeat.Err? ==> res == Err(filterRepeat.error)
    ensures repeat.Ok? && filterRepeat.Ok? ==>
              (res == Err(DropRequest) <==> repeat.value && Truthy(filterRepeat.value))
              && (res != Err(DropRequest) ==> res == Ok(()))
  {
    var r :- repeat;
    var f :- filterRepeat;
    if Truthy(f) && r then Err(DropRequest) else Ok(())
  }

  /**
   * The first request with a fingerprint is never dropped; a second
   * request with the same fingerprint, after a first whose request_in
   * returned, is dropped iff its own filter_repeat is set.
   */
  lemma FirstPassesSecondDrops(seen: set<string>, fp: string, first: Val, second: Val)
    requires fp !in seen
    ensures Outcome(SetFilters.SetAnswer(seen, Ok(fp)), Ok(first)) == Ok(())
    ensures Outcome(SetFilters.SetAnswer(SetFilters.CheckAndSet(seen, fp).1, Ok(fp)), Ok(second))
            == (if Truthy(second) then Err(DropRequest) else Ok(()))
  {
  }

  /** RequestMemoryFilterMiddleware */
  class RequestMemoryFilterMiddleware {
    const requestMemoryFilter: MemoryFilters.RequestMemoryFilter

    constructor (enc: Encoding)
      ensures fresh(requestMemoryFilter) && fresh(requestMemoryFilter.memoryFilterRequest)
      ensures fresh(requestMemoryFilter.memoryFilterItem)
      ensures requestMemoryFilter.memoryFilterRequest.elems == {} && requestMemoryFilter.memoryFilterItem.elems == {}
      ensures requestMemoryFilter.enc == enc
    {
      requestMemoryFilter := new MemoryFilters.RequestMemoryFilter(enc);
    }

    /** request_in; `requestFilter` is settings.REQUEST_FILTER, None while no settings define it. */
    method RequestIn(request: Requests.Request, requestFilter: Option<bool>) returns (res: Result<()>)
      requires requestMemoryFilter.memoryFilterRequest != requestMemoryFilter.memoryFilterItem
      modifies requestMemoryFilter.memoryFilterRequest, requestMemoryFilter.memoryFilterItem
      ensures requestMemoryFilter.memoryFilterItem.elems == old(requestMemoryFilter.memoryFilterItem.elems)
      ensures requestFilter != Some(true) ==>
                res == (if requestFilter.None? then Err(AttributeError) else Ok(()))
                && requestMemoryFilter.memoryFilterRequest.elems == old(requestMemoryFilter.memoryFilterRequest.elems)
      ensures requestFilter == Some(true) ==>
                res == Outcome(SetFilters.SetAnswer(old(requestMemoryFilter.memoryFilterRequest.elems),
                                                    Fingerprint(RequestTask(request), requestMemoryFilter.enc)),
                               Requests.GetAttr(request, FilterRepeat))
      ensures requestFilter == Some(true) && Fingerprint(RequestTask(request), requestMemoryFilter.enc).Ok? ==>
                requestMemoryFilter.memoryFilterRequest.elems
                == old(requestMemoryFilter.memoryFilterRequest.elems) + {Fingerprint(RequestTask(request), requestMemoryFilter.enc).value}
    {
      if requestFilter.None? {
        return Err(AttributeError);
      }
      if !requestFilter.value {
        return Ok(());
      }
      var isRepeat, _ := requestMemoryFilter.IsRepeat(RequestTask(request), false);
      res := Outcome(isRepeat, Requests.GetAttr(request, FilterRepeat));
    }
  }

  /** RequestRedisFilterMiddleware */
  class RequestRedisFilterMiddleware {
    const requestRedisFilter: RedisFilters.RequestRedisFilter

    constructor (store: Redis.Store, keys: Redis.KeySettings, enc: Encoding)
      ensures fresh(requestRedisFilter)
      ensures requestRedisFilter.store == store && requestRedisFilter.keys == keys && requestRedisFilter.enc == enc
    {
      requestRedisFilter := new RedisFilters.RequestRedisFilter(store, keys, enc);
    }

    /** request_in; `requestFilter` is settings.REQUEST_FILTER, None while no settings define it. */
    method RequestIn(request: Requests.Request, requestFilter: Option<bool>) returns (res: Result<()>)
      modifies requestRedisFilter.store
      ensures requestFilter != Some(true) ==> res == (if requestFilter.None? then Err(AttributeError) else Ok(())) && requestRedisFilter.store.db == old(requestRedisFilter.store.db)
      ensures requestFilter == Some(true) ==>
                res == Outcome(RedisSetFilters.RedisAnswer(old(requestRedisFilter.store.db),
                                                           requestRedisFilter.keys(Redis.FilterRequest),
                                                           Fingerprint(RequestTask(request), requestRedisFilter.enc)),
                               Requests.GetAttr(request, FilterRepeat))
      ensures requestFilter == Some(true) && Fingerprint(RequestTask(request), requestRedisFilter.enc).Ok? ==>
                requestRedisFilter.store.db
                == RedisSetFilters.SetJudge(old(requestRedisFilter.store.db), requestRedisFilter.keys(Redis.FilterRequest),
                                            BText(Fingerprint(RequestTask(request), requestRedisFilter.enc).value)).1
    {
      if requestFilter.None? {
        return Err(AttributeError);
      }
      if !requestFilter.value {
        return Ok(());
      }
      var isRepeat, _ := requestRedisFilter.IsRepeat(RequestTask(request));
      res := Outcome(isRepeat, Requests.GetAttr(request, FilterRepeat));
    }
  }

  /** RequestRedisBloomFilterMiddleware, over filter/filter_redis_bloom.py's RedisBloomFilter. */
  class RequestRedisBloomFilterMiddleware {
    const requestRedisBloomFilter: BloomFilters.RedisBloomFilter

    constructor (store: Redis.Store, keys: Redis.KeySettings, enc: Encoding, bit: nat, hashNumber: nat)
      ensures fresh(requestRedisBloomFilter)
      ensures requestRedisBloomFilter.store == store && requestRedisBloomFilter.keys == keys
      ensures requestRedisBloomFilter.enc == enc
      ensures requestRedisBloomFilter.bit == bit && requestRedisBloomFilter.hashNumber == hashNumber
    {
      requestRedisBloomFilter := new BloomFilters.RedisBloomFilter(store, keys, enc, bit, hashNumber);
    }

    /** request_in; `requestFilter` is settings.REQUEST_FILTER, None while no settings define it, and `strict` is settings.STRICT_FILTER. */
    method RequestIn(request: Requests.Request, requestFilter: Option<bool>, strict: bool) returns (res: Result<()>)
      modifies requestRedisBloomFilter.store
      ensures requestFilter != Some(true) ==> res == (if requestFilter.None? then Err(AttributeError) else Ok(())) && requestRedisBloomFilter.store.db == old(requestRedisBloomFilter.store.db)
      ensures requestFilter == Some(true) ==>
                res == Outcome(BloomFilters.BloomAnswer(
                                 Redis.Bits(old(requestRedisBloomFilter.store.db), requestRedisBloomFilter.keys(Redis.FilterRequest)),
                                 Fingerprint(RequestTask(request), requestRedisBloomFilter.enc),
                                 requestRedisBloomFilter.hashNumber, requestRedisBloomFilter.M()),
                               Requests.GetAttr(request, FilterRepeat))
      ensures requestFilter == Some(true) && Fingerprint(RequestTask(request), requestRedisBloomFilter.enc).Ok? ==>
                Redis.Bits(requestRedisBloomFilter.store.db, requestRedisBloomFilter.keys(Redis.FilterRequest))
                == BloomFilters.BloomJudge(
                     Redis.Bits(old(requestRedisBloomFilter.store.db), requestRedisBloomFilter.keys(Redis.FilterRequest)),
                     Fingerprint(RequestTask(request), requestRedisBloomFilter.enc).value,
                     requestRedisBloomFilter.hashNumber, requestRedisBloomFilter.M()).1
    {
      if requestFilter.None? {
        return Err(AttributeError);
      }
      if !requestFilter.value {
        return Ok(());
      }
      var isRepeat, _ := requestRedisBloomFilter.IsRepeat(RequestTask(request), strict);
      res := Outcome(isRepeat, Requests.GetAttr(request, FilterRepeat));
    }
  }
}
