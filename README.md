# palp, modelled in Dafny

palp is a crawling framework. A spider seeds a request queue from its `start_requests`. Controller threads take requests off the queue, pass them through request middlewares, send them, and route what the callback yields: child requests go back on the queue and items go to the item queue. Item threads run the item pipelines: filtering, buffering, saving with retries, and closing. A distributed spider coordinates through Redis. Queues, dedup filters, heartbeats, the master role, failed-task replay and run statistics all live in Redis keys.

This project models the sequential decision logic under those threads, against abstract state:

- **The Redis server** is a value (`Redis.Db`) held by a `Redis.Store` object.
  - Each command the code issues is a method of the store, specified by a pure function on the database.
  - Lists are sequences, sets are sets, sorted sets are maps from member to score, and hashes are maps.
- **Python objects whose fields the code updates** are Dafny classes.
  - These cover the queues, filters, middlewares, pipelines, controllers, item buffers and spiders, the checker, the item and meta mappings, and the request object.
  - Their methods have `modifies` clauses and are proved against specification functions.
- **Pure code** is functions and lemmas.
  - This covers the fingerprints, the request attribute rules, module ordering, name checks, child-request inheritance and the master record.
- **Parameters of the model:** calls into code outside the core.
  - This includes the transport (`send`), user middlewares, pipelines, callbacks, `need_stop`, md5, and the clock.
  - Each is supplied as an outcome. A request_error or request_close hook returns nothing, returns a replacement request, or raises; request_in and request_failed return or raise; a callback yields a sequence and may then raise.
  - A hook call is recorded as an event in a trace, so the order of calls can be stated.
- **Serialisation** (`to_json`/`load_from_json`, pickle/zlib) is exact: a payload is kept as the value it encodes, so a decode inverts an encode.

There is one module per source file of the core: for example `sequence_memory.dfy` for sequence/sequence_memory.py and `parser.dfy` for parser.py. Shared definitions live in a few extra modules:

- `common.dfy`: values, exceptions and payloads;
- `redis.dfy`: the store;
- `hooks.dfy`: hook calls;
- `dispatch.dfy`: the request loop that three controllers share;
- `tasks.dfy`: request-or-item tasks;
- `records.dfy`: request counters and published records;
- `dicts.dfy`: an object's `__dict__`.

The properties proved include:

- the ordering of every queue, and the serialisation round trips;
- "no false negatives" for the Redis Bloom filter;
- the check-and-set contract of every filter, and the drop rules of the gates that use them;
- the retry bound of request dispatch, and the short-circuit when a hook returns a replacement request;
- the inheritance rules for child requests;
- for the item buffer: the flush threshold, the save retry bound, clear-always, and pipeline close at most once;
- heartbeat suspicion, takeover and the stop sentinel;
- the token lock, which only its holder releases;
- the sliding window of the circuit breaker;
- module ordering;
- the Request attribute discipline and the Item/Meta mapping laws;
- the name validators.

Where the source is evidently wrong, the model has both versions: the code as written, with a lemma showing the failure, and the corrected code, which the rest of the model uses (see "## Findings").

## Model

| member | source | states |
|---|---|---|
| MemorySequences.TakeFirst | sequence/sequence_memory.py:25-34 | a FIFO get on empty contents yields None and leaves them; otherwise one object fewer remains |
| MemorySequences.TakeLast | sequence/sequence_memory.py:46-49 | a LIFO get on empty contents yields None; otherwise one object fewer remains |
| MemorySequences.FifoOrder | sequence/sequence_memory.py:12-34 | draining a FIFO queue by repeated gets yields the objects exactly in the order they were put |
| MemorySequences.LifoOrder | sequence/sequence_memory.py:46-49 | draining a LIFO queue yields the objects in reverse put order, newest first |
| MemorySequences.FifoSequence.Put | sequence/sequence_memory.py:15-23 | the object is appended after everything already queued |
| MemorySequences.FifoSequence.Get | sequence/sequence_memory.py:25-34 | removes and returns the oldest object, or returns None and changes nothing when empty |
| MemorySequences.FifoSequence.Empty | sequence/sequence_memory.py:36-42 | true exactly when no object remains |
| MemorySequences.LifoSequence.Put | sequence/sequence_memory.py:46-49 | the object is appended on top |
| MemorySequences.LifoSequence.Get | sequence/sequence_memory.py:46-49 | removes and returns the newest object, or None when empty |
| MemorySequences.LifoSequence.Empty | sequence/sequence_memory.py:36-42 | true exactly when no object remains |
| MemorySequences.EntryLessTransitive | sequence/sequence_memory.py:71-81 | the `[level, obj]` list order used by the priority queue is irreflexive and transitive |
| MemorySequences.UnleveledByPriority | sequence/sequence_memory.py:66-71 | requests without a level attribute both get level 100, so their entries compare exactly as `Request.__lt__` compares the requests |
| MemorySequences.InitHasNoLevel | sequence/sequence_memory.py:66-69 | a Request built without a `level` keyword has no level attribute and is queued at level 100 |
| MemorySequences.PrioritySequence.Put | sequence/sequence_memory.py:58-71 | appends the entry `[level, obj]`, level being `obj.level` if set and 100 otherwise |
| MemorySequences.PrioritySequence.Get | sequence/sequence_memory.py:73-83 | on an empty queue returns None; otherwise removes an entry that no other entry precedes and returns its object (`item[-1]`) |
| MemorySequences.PrioritySequence.Empty | sequence/sequence_memory.py:36-42 | true exactly when no entry remains |
| MemorySequences.Reverse | sequence/sequence_memory.py:46-50 | the reversal of a sequence has its length and holds its elements back to front, the order a LifoQueue hands them out |
| MemorySequences.FifoSequence.constructor | sequence/sequence_memory.py:11-13 | a FIFO sequence starts empty |
| MemorySequences.LifoSequence.constructor | sequence/sequence_memory.py:46-50 | a LIFO sequence starts empty |
| MemorySequences.PrioritySequence.constructor | sequence/sequence_memory.py:53-57 | a priority sequence starts empty |
| RequestRedisSequences.Reload | sequence/sequence_redis_request.py:44-45 | a popped entry becomes `Some` of the request load_from_json rebuilds, and load_from_json's error is the get's error |
| RequestRedisSequences.ListRedisSequence.Put | sequence/sequence_redis_request.py:23-33 | RPUSH: the request's JSON is appended at the right of the list and no other key changes |
| RequestRedisSequences.ListRedisSequence.Get | sequence/sequence_redis_request.py:35-72 | on an empty list returns None and changes nothing; otherwise pops the left end (FIFO) or right end (LIFO) and reloads it |
| RequestRedisSequences.ListRedisSequence.Empty | sequence/sequence_redis_request.py:47-55 | true exactly when LLEN is 0 |
| RequestRedisSequences.NewFifoRequestRedisSequence | sequence/sequence_redis_request.py:9-21 | the FIFO queue uses REDIS_KEY_QUEUE_REQUEST and pops on the left |
| RequestRedisSequences.NewLifoRequestRedisSequence | sequence/sequence_redis_request.py:58-72 | the LIFO queue inherits the request key and pops on the right |
| RequestRedisSequences.Score | sequence/sequence_redis_request.py:89 | the ZADD score is `obj.priority`; a request without a numeric priority makes put fail |
| RequestRedisSequences.PriorityRedisSequence.Put | sequence/sequence_redis_request.py:79-89 | ZADD: the JSON becomes a member scored by the priority (replacing an equal member's score); on error nothing changes |
| RequestRedisSequences.PriorityRedisSequence.Get | sequence/sequence_redis_request.py:91-101 | BZPOPMIN: on an empty set returns None; otherwise removes a member of least score and reloads it |
| RequestRedisSequences.PriorityRedisSequence.Empty | sequence/sequence_redis_request.py:103-111 | true exactly when ZCARD is 0 |
| RequestRedisSequences.NewPriorityRequestRedisSequence | sequence/sequence_redis_request.py:74-77 | the priority queue is a sorted set at the inherited request key |
| RequestRedisSequences.ReloadOfPut | sequence/sequence_redis_request.py:33-45 | a request queued and popped again reloads without error, every attribute to_dict kept coming back unchanged and every other parameter taking its default |
| RequestRedisSequences.ZAddTwice | sequence/sequence_redis_request.py:89 | adding a member twice leaves it once, with the later score |
| RequestRedisSequences.DuplicatesCollapse | sequence/sequence_redis_request.py:33-89 | two requests with identical JSON leave a single sorted-set member scored by the later put, the set growing by at most one, while a list queue holds the text twice more than before |
| RequestRedisSequences.ListRedisSequence.constructor | sequence/sequence_redis_request.py:14-21 | a list sequence is bound to the store, the key get_redis_key gives, and the end it pops from |
| RequestRedisSequences.PriorityRedisSequence.constructor | sequence/sequence_redis_request.py:74-89 | a priority sequence is bound to the store and its sorted-set key |
| ItemRedisSequences.NewFifoItemRedisSequence | sequence/sequence_redis_item.py:9-21 | the FIFO item queue is the FIFO request queue at REDIS_KEY_QUEUE_ITEM, popping on the left |
| ItemRedisSequences.NewLifoItemRedisSequence | sequence/sequence_redis_item.py:24 | through the method resolution order, get is LIFORequestRedisSequence's (right pop) and the key FIFOItemRedisSequence's (the item key) |
| ItemRedisSequences.ItemGetAsWritten | sequence/sequence_redis_request.py:35-45 | the inherited get rebuilds a popped item with load_from_json as a Request, which fails for any item without a `url` field |
| ItemRedisSequences.ItemGetCounterexample | sequence/sequence_redis_request.py:45 | the item `{'title': 'x'}` is put and the get raises instead of returning it |
| ItemRedisSequences.ReloadItem | sequence/sequence_redis_item.py:9 | the corrected reload parses JSON text into an item's fields and fails on anything else |
| ItemRedisSequences.ItemRoundTrip | sequence/sequence_redis_item.py:9 | with the corrected reload every item put comes back with the same fields |
| ItemRedisSequences.GetItem | sequence/sequence_redis_request.py:35-72 | the corrected get: None on an empty list, otherwise pop at the queue's end and return the popped item's fields |
| BorrowRedisSequences.Unpickle | sequence/sequence_redis_borrow.py:47 | `pickle.loads(zlib.decompress(...))` succeeds exactly on a compressed pickle |
| BorrowRedisSequences.UnpickleOfPickle | sequence/sequence_redis_borrow.py:35-47 | what put stored loads back as an equal request, and the stored bytes are non-empty |
| BorrowRedisSequences.BorrowRedisSequence.Put | sequence/sequence_redis_borrow.py:25-35 | RPUSH: the compressed pickle is appended at the right and nothing else changes |
| BorrowRedisSequences.BorrowRedisSequence.Get | sequence/sequence_redis_borrow.py:37-47 | LPOP without blocking: None on an empty list; otherwise the leftmost entry is removed and unpickled (an empty entry gives None) |
| BorrowRedisSequences.BorrowRedisSequence.Empty | sequence/sequence_redis_borrow.py:49-57 | true exactly when LLEN is 0 |
| BorrowRedisSequences.BorrowRedisSequence.QSize | sequence/sequence_redis_borrow.py:59-67 | the list length |
| BorrowRedisSequences.BorrowRedisSequence.constructor | sequence/sequence_redis_borrow.py:11-23 | the borrow sequence is bound to the store and REDIS_KEY_QUEUE_REQUEST_BORROW |
| Fingerprints.OrEmpty | filter/filter.py:44-46 | `x or {}`: a truthy value is kept, a falsy one becomes the empty dict |
| Fingerprints.UrlEncode | filter/filter.py:44-46 | `urlencode` of the empty dict is the empty string |
| Fingerprints.FalsyEncodesEmpty | filter/filter.py:44-46 | `urlencode(x or {})` of a falsy x contributes nothing to the string |
| Fingerprints.FilterStr | filter/filter.py:42-52 | an item's string is its to_json text; a request's is one string, method + url followed by the encoded body, raising TypeError when the method is not a string, and succeeding only when method and url are strings |
| Fingerprints.Deterministic | filter/filter.py:34-54 | equal method, url, params, data and json give equal filter strings and so equal fingerprints |
| Fingerprints.GetIgnoresBody | filter/filter.py:43-50 | GET fingerprints depend on method, url and params only, and the string is `"GET" + url + urlencode(params or {})` |
| Fingerprints.PostParamsDataCollide | filter/filter.py:45-50 | the encoded dicts are concatenated with no separator, so a POST whose params move to a falsy data slot keeps its filter string and fingerprint |
| Fingerprints.GetUrlSuffixCollides | filter/filter.py:43-50 | a GET whose url already ends in the encoded params, with falsy params, has the same filter string and fingerprint as the shorter url with those params |
| Fingerprints.OtherMethodUrlOnly | filter/filter.py:47-50 | any other method gives the string method + url, with nothing after it |
| Fingerprints.ItemByJson | filter/filter.py:51-54 | an item's fingerprint is the md5 of its to_json text, so two items with the same text share a fingerprint |
| Fingerprints.MethodNoneRaises | filter/filter.py:50 | a request whose method is still None makes fingerprint raise TypeError |
| BaseFilters.PostPiecesInOrder | filter/filter_base.py:46-51 | a POST filter string is the one string "POST" + url + encoded params + encoded data + encoded json |
| BaseFilters.GetPieces | filter/filter_base.py:44-51 | a GET filter string is "GET" + url + encoded params |
| BaseFilters.OtherPieces | filter/filter_base.py:48-53 | another method gives method + url only; an item gives its to_json text |
| Common.JsonLoads | network/request.py:396 | `json.loads(b.decode())` succeeds exactly on a JSON text and gives back the dict it encodes |
| SetFilters.CheckAndSet | filter/filter_set.py:38-51 | judge answers repeat exactly when the fingerprint is already in the set, and afterwards the set holds it and nothing else new |
| SetFilters.LaterJudgesRepeat | filter/filter_set.py:38-51 | the first judge of a new fingerprint answers False and records it; after any further judges, judging it again answers True and changes nothing |
| SetFilters.JudgeAllKeeps | filter/filter_set.py:38-51 | judging never removes a fingerprint, and every judged fingerprint ends up recorded |
| SetFilters.SetAnswer | filter/filter_set.py:25-36 | is_repeat's answer: the fingerprint's error if it raised, else the check-and-set answer |
| SetFilters.SetFilter.Judge | filter/filter_set.py:38-51 | the answer and the new set are the check-and-set of the fingerprint on the old set |
| SetFilters.SetFilter.IsRepeat | filter/filter_set.py:17-36 | judges on the request set for a request and the item set for an item, under the filter lock iff STRICT_FILTER, leaving the other set alone; a fingerprint error changes nothing |
| MemoryFilters.RequestMemoryFilter.Judge | filter/filter_memory.py:38-51 | check-and-set of the fingerprint, arguments in the (fingerprint, f) order |
| MemoryFilters.RequestMemoryFilter.IsRepeat | filter/filter_memory.py:17-36 | the same choice of set and lock as SetFilter, with the same answer and effect |
| RedisSetFilters.SetJudge | filter/filter_redis_set.py:39-54 | SISMEMBER answers repeat and changes nothing; otherwise SADD adds the member |
| RedisSetFilters.RedisAnswer | filter/filter_redis_set.py:16-37 | is_repeat's answer on a store state, a fingerprint error passing through |
| RedisSetFilters.SetJudgeRecords | filter/filter_redis_set.py:49-54 | after judge the member is in the set whatever the answer, other sets are untouched, and a second judge answers True and changes nothing |
| RedisSetFilters.FilterKeysDistinct | settings.py:55-58 | requests and items are judged on distinct keys, before and after `{redis_key}` formatting |
| RedisSetFilters.RedisSetFilter.Judge | filter/filter_redis_set.py:39-54 | the answer and the new store are SetJudge of the old store |
| RedisSetFilters.RedisSetFilter.IsRepeat | filter/filter_redis_set.py:16-37 | judges at the request or item filter key, under a RedisLock iff STRICT_FILTER; a fingerprint error changes nothing |
| RedisFilters.RequestRedisFilter.IsRepeat | filter/filter_redis.py:17-38 | always under the lock: SISMEMBER answers repeat, otherwise SADD and answer False |
| SetFilters.PySet.constructor | filter/filter_set.py:14-15 | `set()` is empty |
| SetFilters.SetFilter.constructor | filter/filter_set.py:13-15 | the request and item sets start empty and fresh |
| MemoryFilters.RequestMemoryFilter.constructor | filter/filter_memory.py:13-15 | the request and item sets start empty and fresh |
| RedisFilters.RequestRedisFilter.constructor | filter/filter_redis.py:15 | the filter is bound to the store and its keys |
| RedisSetFilters.RedisSetFilter.constructor | filter/filter_redis_set.py:14 | the filter is bound to the store and its keys |
| BloomFilters.Pow2 | filter/filter_redis_bloom.py:18 | `1 << n` is at least 1 |
| BloomFilters.ShippedSize | settings.py:135 | with BLOOMFILTER_BIT = 6 the bit array has 64 positions |
| BloomFilters.BloomHash | filter/filter_redis_bloom.py:72-81 | the hash of the unbounded accumulator `ret := (seed + 1) * ret + ord(c)` masked once at the end, always below m |
| BloomFilters.OffsetsBelow | filter/filter_redis_bloom.py:68-70 | the offsets insert sets: at most one per seed, each below m |
| BloomFilters.OffsetsCover | filter/filter_redis_bloom.py:68-70 | every seed's offset is among those set |
| BloomFilters.NoFalseNegatives | filter/filter_redis_bloom.py:44-70 | once a non-empty fingerprint's bits are set, exists holds for it whatever else is set |
| BloomFilters.BloomJudge | filter/filter_redis_bloom.py:83-96 | repeat exactly when every bit is set (never for the empty fingerprint); only the fingerprint's bits are added, after which it tests present |
| BloomFilters.BloomAnswer | filter/filter_redis_bloom.py:21-42 | is_repeat's answer on a bit set, a fingerprint error passing through |
| BloomFilters.JudgeThenRepeat | filter/filter_redis_bloom.py:83-96 | a fingerprint judged once is a repeat on every later judge, whatever was inserted in between |
| BloomFilters.SetBits | filter/filter_redis_bloom.py:68-70 | SETBIT to 1 on every offset adds exactly those bits to that key and changes no other key or type |
| BloomFilters.SetBitsStep | filter/filter_redis_bloom.py:68-70 | one more SETBIT extends the offsets set so far by one |
| BloomFilters.RedisBloomFilter.Hash | filter/filter_redis_bloom.py:72-81 | the loop computes BloomHash: the invariant ties `ret` to the accumulator of the prefix read |
| BloomFilters.RedisBloomFilter.Exists | filter/filter_redis_bloom.py:44-58 | false for an empty fingerprint, otherwise the `&` of GETBIT over every seed, that is membership of all offsets |
| BloomFilters.RedisBloomFilter.Insert | filter/filter_redis_bloom.py:60-70 | the store after setting the bit of every seed |
| BloomFilters.RedisBloomFilter.Judge | filter/filter_redis_bloom.py:83-96 | True and no change when exists holds; otherwise insert and False |
| BloomFilters.RedisBloomFilter.IsRepeat | filter/filter_redis_bloom.py:21-42 | judges at the request or item filter key, under a RedisLock iff STRICT_FILTER; a repeat leaves the store as it was, a new object sets exactly its offsets at that key and nothing else; a fingerprint error changes nothing |
| BloomFilters.RedisBloomFilter.constructor | filter/filter_redis_bloom.py:13-19 | the filter is bound to the store with BLOOMFILTER_BIT and BLOOMFILTER_HASH_NUMBER |
| BloomFilters.RedisBloomFilter.M | filter/filter_redis_bloom.py:18 | `self.m`, 2 to the power BLOOMFILTER_BIT, is at least 1 |
| RequestFilterMiddlewares.Outcome | middleware/middleware_request_filter.py:22-27 | an error from is_repeat (asked first) or from reading filter_repeat propagates; the request is dropped with DropRequestException exactly when both are truthy |
| RequestFilterMiddlewares.FirstPassesSecondDrops | middleware/middleware_request_filter.py:22-27 | the first request with a fingerprint always passes; a second one with the same fingerprint is dropped exactly when its own filter_repeat is set |
| RequestFilterMiddlewares.RequestMemoryFilterMiddleware.RequestIn | middleware/middleware_request_filter.py:17-27 | with REQUEST_FILTER undefined, reading it raises AttributeError and nothing changes; false, nothing happens; true, the answer is Outcome of the memory filter's answer, the fingerprint being recorded whatever filter_repeat says |
| RequestFilterMiddlewares.RequestRedisFilterMiddleware.RequestIn | middleware/middleware_request_filter.py:43-53 | the same rule, AttributeError included, over the Redis set filter, the store changing as its judge does |
| RequestFilterMiddlewares.RequestRedisBloomFilterMiddleware.RequestIn | middleware/middleware_request_filter.py:56-66 | the same rule, AttributeError included, over the Redis bloom filter, the bits changing as its judge does |
| FilterPipelines.Outcome | pipeline/pipeline_filter.py:24-29 | an is_repeat error propagates; a repeat raises DropItemException and anything else passes |
| FilterPipelines.FirstPassesSecondDrops | pipeline/pipeline_filter.py:24-29 | the first item with a fingerprint passes and a second with the same fingerprint is dropped |
| FilterPipelines.SetFilterPipeline.PipelineIn | pipeline/pipeline_filter.py:16-29 | with FILTER_ITEM off nothing happens; on, the answer is Outcome of the set filter's answer on the item set, which gains the fingerprint |
| FilterPipelines.RedisSetFilterPipeline.PipelineIn | pipeline/pipeline_filter.py:48-61 | the same rule over RedisSetFilter at the item filter key |
| FilterPipelines.RedisBloomFilterPipeline.PipelineIn | pipeline/pipeline_filter.py:64-77 | the same rule over RedisBloomFilter at the item filter key |
| ItemFilterPipelines.ItemMemoryFilterPipeline.PipelineIn | pipeline/pipeline_item_filter.py:16-25 | with ITEM_FILTER undefined, reading it raises AttributeError and nothing changes; false, nothing happens; true, the answer is the drop rule over RequestMemoryFilter's item set, which gains the fingerprint |
| ItemFilterPipelines.ItemRedisFilterPipeline.PipelineIn | pipeline/pipeline_item_filter.py:42-51 | the same rule, AttributeError included, over RequestRedisFilter, which always locks |
| ItemFilterPipelines.ItemRedisBloomFilterPipeline.PipelineIn | pipeline/pipeline_item_filter.py:55-64 | the same rule, AttributeError included, over the Redis bloom filter: a dropped item leaves the store alone, a new one sets its offsets at the item filter key, and a fingerprint error changes nothing |
| RequestFilterMiddlewares.RequestMemoryFilterMiddleware.constructor | middleware/middleware_request_filter.py:19-20 | the middleware owns a fresh memory filter with empty sets |
| RequestFilterMiddlewares.RequestRedisFilterMiddleware.constructor | middleware/middleware_request_filter.py:45-46 | the middleware owns a fresh Redis set filter on the given store |
| RequestFilterMiddlewares.RequestRedisBloomFilterMiddleware.constructor | middleware/middleware_request_filter.py:58-59 | the middleware owns a fresh Redis Bloom filter on the given store and settings |
| FilterPipelines.SetFilterPipeline.constructor | pipeline/pipeline_filter.py:21-22 | the pipeline owns a fresh set filter with empty sets |
| FilterPipelines.RedisSetFilterPipeline.constructor | pipeline/pipeline_filter.py:53-54 | the pipeline owns a fresh Redis set filter on the given store |
| FilterPipelines.RedisBloomFilterPipeline.constructor | pipeline/pipeline_filter.py:69-70 | the pipeline owns a fresh Redis Bloom filter on the given store and settings |
| ItemFilterPipelines.ItemMemoryFilterPipeline.constructor | pipeline/pipeline_item_filter.py:17-18 | the pipeline owns a fresh memory filter with empty sets |
| ItemFilterPipelines.ItemRedisFilterPipeline.constructor | pipeline/pipeline_item_filter.py:43-44 | the pipeline owns a fresh Redis set filter on the given store |
| ItemFilterPipelines.ItemRedisBloomFilterPipeline.constructor | pipeline/pipeline_item_filter.py:56-57 | the pipeline owns a fresh Redis Bloom filter on the given store and settings |
| Records.AsInt | decorator/decorator_spider_once.py:70-72 | adding a field to an int total succeeds exactly for ints and bools; an int adds its own value |
| Records.Field | decorator/decorator_spider_once.py:70-72 | reading a missing field of a record raises KeyError |
| Records.ReadOfRecordJson | decorator/decorator_spider_once.py:43-48 | a record published under either naming reads back, under that naming, as the counts it was published with |
| Records.NamingsDoNotMix | decorator/decorator_spider_record.py:34-39 | a record published with 'all'/'failed'/'succeed' cannot be read with 'request_all'/… and the other way round: KeyError |
| Records.AggregateIsSum | middleware/middleware_record.py:80-85 | when every field of the record hash holds a record of the same naming, the totals are, counter by counter, the sum of all records |
| Records.AggregateRecords | middleware/middleware_record.py:75-85 | the summing loop over HGETALL returns the totals in the order given, or the first error any record raises |
| Records.AggregateErrSticks | middleware/middleware_record.py:80-85 | an error raised by a record stops the loop: the result of the whole loop is that error |
| Records.SpiderRecord.constructor | spider/spider.py:133 | spider_record starts with all, failed and succeed at 0 |
| Records.PublishedRecord | middleware/middleware_record.py:63-71 | after HSET and HDEL, the record hash gains exactly this spider's record, which reads back as its counts; the heartbeat hash loses exactly this spider's field |
| Records.PublishAndCheck | middleware/middleware_record.py:63-74 | the store after the two writes is the published store, and the spider is the last exactly when the heartbeat key no longer exists |
| Records.PublishedHeartbeat | middleware/middleware_record.py:71 | publishing changes the heartbeat key only by dropping this spider's field and leaves every non-hash key alone |
| Records.AnotherSpiderAlive | middleware/middleware_record.py:71-74 | while another spider's heartbeat field remains, the heartbeat key exists and no totals are written |
| Records.LastSpiderEnds | middleware/middleware_record.py:71-74 | when this spider's field was the only one in the heartbeat hash, deleting it removes the key, so this spider writes the totals |
| Records.PublishAndTotal | middleware/middleware_record.py:61-93 | publish this spider's record; when it was the last, the stop key holds the sum of every published record (or the error one of them raised) and nothing else changes |
| RecordMiddlewares.RecordCounters.constructor | middleware/middleware_record.py:28-30 | the three class counters start at 0 |
| RecordMiddlewares.RequestRecordMiddleware.RequestIn | middleware/middleware_record.py:32-37 | request_count_all grows by one and the other two counters are unchanged |
| RecordMiddlewares.RequestRecordMiddleware.RequestFailed | middleware/middleware_record.py:39-44 | request_count_failed grows by one and the other two counters are unchanged |
| RecordMiddlewares.RequestRecordMiddleware.RequestClose | middleware/middleware_record.py:46-53 | request_count_succeed grows by one, the other two are unchanged, and no replacement request is returned |
| RecordMiddlewares.RequestRecordMiddleware.SpiderClose | middleware/middleware_record.py:55-93 | for a local spider nothing is written; otherwise the class counters are published under the long names and totalled when this spider was the last |
| RequestRecordMiddlewares.RequestRecordMiddleware.RequestIn | middleware/middleware_request_record.py:23-28 | spider_record['all'] grows by one, the other two stay |
| RequestRecordMiddlewares.RequestRecordMiddleware.RequestFailed | middleware/middleware_request_record.py:30-35 | spider_record['failed'] grows by one, the other two stay |
| RequestRecordMiddlewares.RequestRecordMiddleware.RequestClose | middleware/middleware_request_record.py:37-44 | spider_record['succeed'] grows by one, the other two stay, and no replacement request is returned |
| RequestCheckMiddlewares.NetlocOf | network/request.py:323 | the netloc of a request is defined exactly when it has a url; for a str url it is the url's netloc, and for any other value it is not a str |
| RequestCheckMiddlewares.RequestIn | middleware/middleware_request_check.py:16-26 | the warning is logged exactly when filter_repeat is truthy, FILTER_REQUEST is off and the request has a url; a request with no url raises AttributeError when the warning or the domain check reads it; with a non-empty domain list the request is dropped exactly when its netloc is not listed; otherwise it passes |
| RequestCheckMiddlewares.WhitelistByHost | middleware/middleware_request_check.py:22-26 | a request for scheme://host/path passes exactly when host is in the domain list, and is dropped otherwise |
| RequestCheckMiddlewares.FilterRepeatOnlyWarns | middleware/middleware_request_check.py:18-19 | for a request with a url, filter_repeat and FILTER_REQUEST change only the warning, never whether it passes; without a url a truthy filter_repeat raises AttributeError |
| RecordMiddlewares.RequestRecordMiddleware.constructor | middleware/middleware_record.py:24-31 | an instance works on the class-level counters |
| SpiderOnceDecorators.EndCalls | decorator/decorator_spider_once.py:75-82 | the end of a crawl makes exactly one hook call per request middleware and one per spider middleware |
| SpiderOnceDecorators.RunRequestRecord | decorator/decorator_spider_once.py:84-96 | every request middleware's request_record gets the record, in order, whatever the earlier ones raise |
| SpiderOnceDecorators.RunSpiderEnd | decorator/decorator_spider_once.py:98-110 | every spider middleware's spider_end is called, in order, whatever the earlier ones raise |
| SpiderOnceDecorators.RunOnce | decorator/decorator_spider_once.py:26-82 | a local spider hands its own counters to request_record and then calls spider_end, with no write to Redis; a distributed spider publishes its record under the short names and, when last, hands the totals of every record to those hooks |
| SpiderOnceDecorators.Wrapped | decorator/decorator_spider_once.py:112-124 | the wrapped function runs first; run_once always follows; the wrapper raises run_once's exception when it raised, else the function's own |
| SpiderOnceDecorators.EndCallsCarryTotals | decorator/decorator_spider_once.py:60-82 | with every record published under the short names, each request middleware receives the sum of all records and spider_end follows on every spider middleware |
| SpiderRecordDecorators.Record | decorator/decorator_spider_record.py:22-64 | nothing is written for a local spider; otherwise the spider's counters are published under the long names and, when it was the last, the stop key receives the totals |
| SpiderRecordDecorators.Wrapped | decorator/decorator_spider_record.py:66-78 | record always runs after the function; the wrapper raises record's exception when it raised, else the function's own |
| SpiderMiddlewareDecorators.Wrapper | decorator/decorator_spider_middleware.py:12-32 | the wrapper's calls and whether it raises are those of the reference trace |
| SpiderMiddlewareDecorators.StartRaiseSkipsRest | decorator/decorator_spider_middleware.py:17-18 | a spider_start that raises escapes before the function runs, and no spider_close is called |
| SpiderMiddlewareDecorators.ClosesAfterStarts | decorator/decorator_spider_middleware.py:17-30 | once every spider_start returns, the function runs and spider_close is called last on every middleware, in order |
| SpiderMiddlewareDecorators.BodyErrorHandled | decorator/decorator_spider_middleware.py:20-30 | the wrapper raises exactly when the function raised and some spider_error raised; spider_error runs only after the function raised; with no raising spider_error the trace is starts, function, errors, closes |
| Requests.RequestsParams | network/request.py:31-48 | `_requests_params` holds exactly the set attributes named in `__REQUEST_ATTRS__` (plus `verify` once set_default has run), each with the attribute's value |
| Requests.GetAttr | network/request.py:325-335 | reading an attribute succeeds exactly when it was set, and gives its value; otherwise AttributeError |
| Requests.SetAttr | network/request.py:337-355 | an assignment fails exactly when the stored value cannot be computed |
| Requests.SetAttrStores | network/request.py:345-352 | a truthy non-str callback without `__name__` raises AttributeError; a function callback is stored as its name, `meta = None` as `{}`, anything else as given; no other attribute changes |
| Requests.SetAttrMirrors | network/request.py:354-355 | an attribute of `__REQUEST_ATTRS__` is mirrored into `_requests_params` with the stored value; any other attribute leaves it alone |
| Requests.SetAttrKeepsWellFormed | network/request.py:337-355 | an assignment keeps callback a str or falsy and meta not None |
| Requests.Init | network/request.py:95-182 | construction fails exactly when url is missing or the callback cannot be stored |
| Requests.InitAttrs | network/request.py:154-182 | `__init__` assigns every named parameter and every extra keyword argument, and nothing else |
| Requests.InitAttribute | network/request.py:95-182 | after construction an attribute is set exactly when it is a parameter or a keyword; a given argument is stored as `__setattr__` stores it, a missing parameter holds its default |
| Requests.InitWellFormed | network/request.py:155-178 | a constructed request keeps callback a str or falsy and meta not None, has every named parameter set, and has no `verify` entry yet |
| Requests.InitIsAssignmentSequence | network/request.py:154-182 | the closed form of construction equals running the `__setattr__` calls of `__init__` one by one, in any order of distinct names |
| Requests.InitOfAttrs | network/request.py:154-182 | a request holding exactly the values `__init__` assigns is the one construction builds |
| Requests.InitKeeps | network/request.py:181-182 | a keyword that `__setattr__` stores unchanged is held as given |
| Requests.Upper | network/request.py:225 | `str.upper` on ASCII: the length is kept and exactly the lower-case letters are shifted |
| Requests.PairsToMap | network/request.py:246-247 | `dict(pairs)` has a key exactly for every pair, and the final pair's value at its key |
| Requests.PairsToMapLastWins | network/request.py:246-247 | in `dict(pairs)` every key maps to the value of its last occurrence |
| Requests.WithUserAgent | network/request.py:258-263 | User-Agent is added when missing or falsy; otherwise a falsy user-agent is added; no other header changes, and a dict with both truthy is unchanged |
| Requests.SetDefault | network/request.py:217-263 | set_default raises exactly when one of the attributes it reads was never set |
| Requests.SetDefaultMethod | network/request.py:224-229 | a truthy method is upper-cased; otherwise the method is POST when data or json is truthy and GET otherwise; `_requests_params` sees the same method |
| Requests.SetDefaultFillsIn | network/request.py:232-249 | meta, command, cookies and headers are no longer None, a tuple of cookie pairs becomes a dict, a missing timeout becomes REQUEST_TIMEOUT or 60, a missing cookie jar a fresh one |
| Requests.SetDefaultKeepsNames | network/request.py:217-263 | set_default adds no attribute and removes none |
| Requests.SetDefaultKeeps | network/request.py:250 | set_default keeps the request well formed, and `_requests_params` gains a `verify` entry that keeps an explicit value |
| Requests.SetDefaultUserAgent | network/request.py:252-263 | without a truthy User-Agent the headers gain one; with one but no truthy user-agent they gain the lower-case key; `_requests_params` sees the same headers |
| Requests.FillStepKeys | network/request.py:232-247 | one defaulting step keeps the attribute names, and it has raised exactly when an earlier step raised or its attribute is unset |
| Requests.FillRaises | network/request.py:232-247 | the defaulting steps raise exactly when one of their eight attributes is unset |
| Requests.FillAll | network/request.py:232-247 | with all eight set, the steps raise nothing and give each attribute its default, changing nothing else |
| Requests.SetDefaultRunFails | network/request.py:217-263 | set_default step by step raises exactly when the closed form says it fails, and then AttributeError |
| Requests.SetDefaultRunAgrees | network/request.py:217-263 | when set_default step by step does not raise, it leaves exactly the closed form's request |
| Requests.Less | network/request.py:357-364 | `<` on two requests is defined exactly when both have an int priority |
| Requests.LessIsPriorityOrder | network/request.py:357-364 | `<` is the order of the priorities: irreflexive, transitive and asymmetric |
| Requests.ToDictEntry | network/request.py:265-302 | to_dict keeps exactly the set attributes that are not `_`-prefixed, are truthy and are not the class-default downloader or parser; the pickled attributes are encoded and the rest copied |
| Requests.LoadFromDict | network/request.py:376-386 | a pickled attribute whose value is not an encoded blob raises ValueError |
| Requests.UnpickledToDict | network/request.py:382-386 | decoding what to_dict encoded gives back the kept attributes with their values |
| Requests.UnpickledKept | network/request.py:382-386 | a kept attribute is decoded to its value, which `__setattr__` stores unchanged |
| Requests.LoadFromDictOk | network/request.py:376-386 | a well-formed request with a truthy url decodes from its to_dict without error |
| Requests.LoadFromDictOfToDict | network/request.py:265-302 | to_dict then load_from_dict rebuilds every kept attribute; every other named parameter returns to its default |
| Requests.LoadFromJson | network/request.py:389-396 | text that is not JSON raises; JSON decodes as load_from_dict of its object |
| Requests.ColonIndex | network/request.py:323 | the position of the first ':' of the url, or its length when there is none |
| Requests.UntilNetlocEnd | network/request.py:323 | the netloc ends at the first '/', '?' or '#' |
| Requests.Domain | network/request.py:316-323 | the domain is defined exactly when the url is set and is a str |
| Requests.NetlocOfUrl | network/request.py:323 | the netloc of `scheme://host` followed by a path, query or fragment is host |
| Requests.RequestObject.constructor | network/request.py:95-182 | a new request object holds what construction builds |
| Requests.RequestObject.Assign | network/request.py:337-355 | an assignment stores the value `__setattr__` computes; when it raises, nothing changes |
| Requests.RequestObject.SetDefaultMethodStep | network/request.py:224-229 | the method step raises AttributeError exactly when an attribute it reads is missing, and stores the default method otherwise |
| Requests.RequestObject.FillAttr | network/request.py:232-247 | one defaulting step: an unset attribute raises AttributeError and changes nothing; otherwise that attribute alone gets its default |
| Requests.RequestObject.FillNones | network/request.py:232-247 | the defaulting steps run in the source's order, meta, downloader, parser, cookie jar, command, headers, cookies, timeout; each that runs replaces None by its default; the first unset attribute raises and stops the rest |
| Requests.RequestObject.SetDefaults | network/request.py:217-263 | set_default, one assignment at a time, leaves the state SetDefaultRun gives, the earlier steps' assignments kept when a later one raises; it raises exactly when the closed form does, always AttributeError, and otherwise reaches the closed form's request |
| Requests.RequestObject.AsDict | network/request.py:278-302 | the loop over `__dict__` builds exactly to_dict's dict |
| Requests.RequestWithVerbForcesMethod | network/request_method.py:4-37 | RequestGet, RequestPost and the rest force their verb as method, whatever method keyword was given; every other keyword reaches Request unchanged |
| MetaMapping.Meta.constructor | network/meta.py:8 | a new Meta has its own empty store |
| MetaMapping.Meta.ToDict | network/meta.py:9-15 | to_dict returns the store itself, not a copy |
| MetaMapping.Meta.SetItem | network/meta.py:28-36 | `meta[k] = v` stores v at k, a new key going last |
| MetaMapping.Meta.GetItem | network/meta.py:38-46 | `meta[k]` is the stored value, or None for a missing key |
| MetaMapping.Meta.DelItem | network/meta.py:48-55 | `del meta[k]` removes k, and a missing key is no error |
| MetaMapping.Meta.Len | network/meta.py:57-63 | `len(meta)` is the number of stored keys |
| MetaMapping.Meta.Iter | network/meta.py:65-71 | iteration yields every stored key once, in insertion order |
| MetaMapping.SetThenGetItem | network/meta.py:28-46 | a stored value reads back, other keys are unaffected, and a missing key reads as None |
| MetaMapping.DelItemEffect | network/meta.py:48-55 | deleting a missing key changes nothing; deleting a key affects only that key |
| Items.ItemBase.constructor | item/item.py:19 | a new item has its own empty store |
| Items.ItemBase.ToDict | item/item.py:20-26 | to_dict returns the store itself, not a copy |
| Items.ItemBase.SetItem | item/item.py:67-75 | `item[k] = v` stores v at k |
| Items.ItemBase.SetAttr | item/item.py:39-47 | `item.k = v` writes the same store as `item[k] = v` |
| Items.ItemBase.GetItem | item/item.py:77-84 | `item[k]` is the stored value, and a missing key raises KeyError |
| Items.ItemBase.GetAttr | item/item.py:49-56 | `item.k`, for a name the class does not define, reads the same store, with the same KeyError |
| Items.ItemBase.DelItem | item/item.py:86-93 | `del item[k]` removes k; a missing key raises KeyError and nothing changes |
| Items.ItemBase.DelAttr | item/item.py:58-65 | `del item.k` behaves as `del item[k]` |
| Items.ItemBase.Len | item/item.py:95-101 | `len(item)` is the number of fields |
| Items.ItemBase.Iter | item/item.py:103-109 | iteration yields every field name once, in insertion order |
| Items.ItemBase.GetState | item/item.py:111-117 | the pickled state is the store itself |
| Items.ItemBase.SetState | item/item.py:119-126 | unpickling updates the store with the state's entries |
| Items.PickleRoundTrip | item/item.py:111-126 | pickling and loading gives a new item, with a store of its own, holding every field of the original in the same order |
| Items.SetThenGetItem | item/item.py:67-84 | a stored value reads back, other keys are unaffected, and a missing key raises KeyError |
| BaseItems.BaseItem.constructor | item/item_base.py:22 | a new item has its own empty store |
| BaseItems.BaseItem.ToDict | item/item_base.py:23-34 | to_dict returns a new dict with the same entries in the same order |
| BaseItems.BaseItem.SetItem | item/item_base.py:97-105 | `item[k] = v` stores v at k |
| BaseItems.BaseItem.SetAttr | item/item_base.py:74-84 | `item.k = v` writes the same store as `item[k] = v` |
| BaseItems.BaseItem.GetItem | item/item_base.py:107-114 | `item[k]` is the stored value, or None for a missing key |
| BaseItems.BaseItem.GetAttr | item/item_base.py:86-95 | `item.k`, for a name the class does not define, reads the same store, also None when missing |
| BaseItems.BaseItem.DelItem | item/item_base.py:116-124 | `del item[k]` removes k, and a missing key is no error |
| BaseItems.BaseItem.Keys | item/item_base.py:47-54 | keys() yields the stored names in insertion order |
| BaseItems.BaseItem.Values | item/item_base.py:56-63 | values() yields the stored values in the order of the keys |
| BaseItems.BaseItem.ItemPairs | item/item_base.py:65-72 | items() yields the stored pairs in insertion order |
| BaseItems.BaseItem.Len | item/item_base.py:126-132 | `len(item)` is the number of fields |
| BaseItems.BaseItem.Iter | item/item_base.py:134-140 | iteration yields the field names in insertion order |
| BaseItems.LenientAccess | item/item_base.py:97-124 | a stored value reads back, other keys are unaffected, a missing key reads as None and deleting it changes nothing |
| StrictItems.FieldNames | item/item_strict.py:25-29 | palp_fields is exactly the names of the class attributes that are Field instances, in class order |
| StrictItems.StrictInit | item/item_strict.py:33-38 | construction raises NotStrictItemFieldException exactly when some argument name is not a field; otherwise every argument is stored in turn |
| StrictItems.StrictInitStores | item/item_strict.py:33-38 | with allowed distinct names, each argument is stored under its name, a declared field that is not passed stays absent, and the item has one field per argument |
| StrictItems.StrictItemClass.New | item/item_strict.py:17-31 | `__new__` resets palp_fields to the class's Field names and returns a new empty item |
| StrictItems.StrictItemClass.Init | item/item_strict.py:33-38 | the loop stores the arguments one by one and raises at the first name outside palp_fields, leaving the earlier ones stored |
| StrictItems.StrictItemClass.Call | item/item_strict.py:17-38 | `cls(**kwargs)` gives a new item holding the arguments, or raises NotStrictItemFieldException exactly when a name is not a field |
| LazyItems.NewLazyItem | item/item_lazy.py:15-17 | a new item holding the arguments, stored one by one |
| LazyItems.LazyItemStores | item/item_lazy.py:15-17 | distinct keyword arguments are stored under their own names, in order, with their values; no arguments give an empty item |
| StrictItems.StrictItemClass.constructor | item/item_strict.py:17-31 | a strict item class starts with its class dict and palp_fields empty |
| Dicts.Put | item/item.py:67-75 | an assignment keeps the store insertion-ordered with each key once |
| Dicts.Without | item/item.py:86-93 | the order with a key taken out holds every other key and only those, still each once |
| Dicts.Remove | item/item.py:86-93 | a deletion keeps the store well formed |
| Dicts.PutAll | item/item.py:119-126 | a sequence of assignments (`dict.update`) keeps the store well formed |
| Dicts.Items | item/item_base.py:65-72 | items() yields one pair per key, in insertion order, each with its value |
| Dicts.PutThenGet | item/item.py:67-84 | after `d[k] = v`, k is stored with v and every other key keeps its value |
| Dicts.LenIsOrderLength | item/item.py:95-109 | `len(d)` equals the number of keys iteration yields |
| Dicts.PutAllFreshOrder | item/item_lazy.py:15-17 | writing pairs with new distinct keys appends those keys in order |
| Dicts.PutAllFreshStore | item/item_lazy.py:15-17 | writing pairs with distinct keys maps each key to its value and keeps every earlier key |
| Dicts.PutAllKeeps | item/item.py:119-126 | a key no pair writes keeps its entry |
| Dicts.ItemsKeys | item/item_base.py:65-72 | the items of a dict have distinct keys in the dict's order |
| Dicts.PutAllItemsOfEmpty | item/item.py:111-126 | replaying a dict's items into an empty dict rebuilds it, order included |
| Dicts.Lookup | item/item.py:77-84 | `d[k]` is the stored value, and a missing key raises KeyError |
| Dicts.Discard | item/item_base.py:116-124 | deleting a missing key only when present leaves the dict unchanged |
| Dicts.RemoveTakesOut | item/item.py:86-93 | deleting takes out exactly that key; every other key keeps its value and its place |
| Dicts.WithoutKeepsOrder | item/item.py:86-93 | after a deletion the other keys keep their relative order |
| Dicts.PutAllSnoc | item/item.py:119-126 | writing one more pair extends the sequence of assignments |
| Dicts.PyDict.Set | item/item.py:67-75 | `d[k] = v` on the dict object stores v at k |
| Dicts.PyDict.Delete | item/item.py:86-93 | `del d[k]` on the dict object removes k |
| Dicts.PyDict.Update | item/item.py:119-126 | `d.update(pairs)` makes one assignment per pair, in order |
| Dicts.PyDict.constructor | item/item.py:19-26 | an instance `__dict__` starts empty |
| Redis.WithList | sequence/sequence_redis_request.py:33 | replacing the list at one key changes that list only; an empty list reads as no list |
| Redis.WithSet | filter/filter_redis.py:36 | replacing the set at one key changes that set only |
| Redis.WithZSet | sequence/sequence_redis_request.py:89 | replacing the sorted set at one key changes that sorted set only |
| Redis.WithHash | tool/client_heart.py:118 | replacing the hash at one key changes that hash only |
| Redis.Delete | spider/spider_distributive.py:176-178 | after DEL the key exists as no type at all, and keys that were absent stay absent |
| Redis.DeleteKeeps | spider/spider_distributive.py:204-209 | DEL of one key leaves the lists, sets, hashes and strings of every other key as they were |
| Redis.DeleteKeepsBits | spider/spider_distributive.py:207-209 | DEL of one key leaves the bits and sorted sets of every other key as they were |
| Redis.MinExists | sequence/sequence_redis_request.py:99 | a non-empty sorted set has a member of least score, so BZPOPMIN has something to return |
| Redis.Store.RPush | sequence/sequence_redis_request.py:33 | RPUSH appends the value at the tail of the list |
| Redis.Store.LPop | sequence/sequence_redis_borrow.py:45 | LPOP (and BLPOP whose timeout runs out) returns None on an empty list and otherwise takes out and returns the head |
| Redis.Store.RPop | sequence/sequence_redis_request.py:70 | BRPOP returns None on an empty list and otherwise takes out and returns the tail |
| Redis.Store.LLen | sequence/sequence_redis_request.py:55 | LLEN is the length of the list |
| Redis.Store.ZAdd | sequence/sequence_redis_request.py:89 | ZADD gives the member the new score, adding it when new |
| Redis.Store.ZPopMin | sequence/sequence_redis_request.py:99 | BZPOPMIN returns None on an empty sorted set and otherwise takes out a member of least score, returned with its score |
| Redis.Store.ZCard | sequence/sequence_redis_request.py:111 | ZCARD is the number of members |
| Redis.Store.SAdd | filter/filter_redis.py:36 | SADD adds the member and reports whether it was new |
| Redis.Store.SMembers | tool/client_heart.py:56 | SMEMBERS is the set at the key |
| Redis.Store.SIsMember | filter/filter_redis.py:33 | SISMEMBER is membership in the set |
| Redis.Store.SRem | tool/client_heart.py:67 | SREM takes the member out of the set |
| Redis.Store.SPop | spider/spider_distributive.py:109 | SPOP returns None on an empty set and otherwise takes out and returns one of its members |
| Redis.Store.HSet | tool/client_heart.py:118 | HSET writes the field of the hash |
| Redis.Store.HDel | tool/client_heart.py:68 | HDEL removes the field of the hash |
| Redis.Store.HGetAll | tool/client_heart.py:59 | HGETALL is the hash at the key |
| Redis.Store.HGetAllItems | middleware/middleware_record.py:80 | `hgetall(k).items()` yields every field of the hash once, with its value |
| Redis.Store.HGet | spider/spider_distributive.py:95 | HGET is the field's value, or None when the field is missing |
| Redis.Store.Get | spider/spider_distributive.py:93 | GET is the string at the key, or None when there is none |
| Redis.Store.Set | tool/client_heart.py:153 | SET writes the string at the key |
| Redis.Store.SetNx | conn/conn_redis.py:143-148 | SET with NX writes only when the key does not exist, and reports whether it wrote |
| Redis.Store.KeyExists | tool/client_heart.py:164 | EXISTS holds exactly when the key holds a value of some type |
| Redis.Store.Del | spider/spider_distributive.py:97 | DEL removes the key and reports whether it existed |
| Redis.Store.GetBit | filter/filter_redis_bloom.py:57 | GETBIT reads the bit at the offset |
| Redis.Store.SetBit | filter/filter_redis_bloom.py:70 | SETBIT sets the bit at the offset to 1 |
| RedisLocks.AcquireDb | conn/conn_redis.py:136-150 | acquiring succeeds exactly when the lock key does not exist, and then the key holds this lock's token; otherwise nothing changes |
| RedisLocks.ReleaseDb | conn/conn_redis.py:152-161 | releasing deletes the key exactly when it holds this lock's token; otherwise nothing changes |
| RedisLocks.Exclusion | conn/conn_redis.py:136-161 | while one lock object holds the key, another's acquire fails and its release does nothing |
| RedisLocks.AcquireThenRelease | conn/conn_redis.py:136-161 | acquiring a free lock and releasing it succeed both times and leave every string as it was, without the lock key |
| RedisLocks.SecondAcquireFails | conn/conn_redis.py:136-161 | of two lock objects, the second fails to acquire a held key until the first releases it |
| RedisLocks.RedisLockNoWait.constructor | conn/conn_redis.py:122-134 | a new lock is not held, and its hold time is the given one, or 60 when none or 0 is given |
| RedisLocks.RedisLockNoWait.Acquire | conn/conn_redis.py:136-150 | acquire performs SET NX with the token, and lock_success records whether it took the key |
| RedisLocks.RedisLockNoWait.Release | conn/conn_redis.py:152-161 | release deletes the key only when it still holds this token, and reports whether it did |
| RedisLocks.RedisLockNoWait.KeyExists | conn/conn_redis.py:163-169 | exists() holds exactly when the lock key exists |
| RedisLocks.RedisLockNoWait.Enter | conn/conn_redis.py:171-174 | entering a `with` block acquires only when auto_lock is set |
| RedisLocks.RedisLockNoWait.Exit | conn/conn_redis.py:176-177 | leaving a `with` block releases only when the lock was taken |
| Redis.Store.constructor | conn/conn_redis.py:26-27 | the modelled Redis server starts with an empty database |
| ClientHearts.HeartTime | tool/client_heart.py:61-64 | a heartbeat's time can be read and subtracted exactly when it is JSON with an int `time` field |
| ClientHearts.ReadMaster | tool/client_heart.py:74 | the master record reads exactly when the master key holds JSON, and is that JSON |
| ClientHearts.MasterDone | tool/client_heart.py:125-142 | true only when the master record reads; a master record that does not read raises its error |
| ClientHearts.Decide | tool/client_heart.py:88-92 | the stop key is set, to the timestamp, exactly when the loop raised nothing, every client was waiting and the master is done; sets and hashes do not change |
| ClientHearts.Heart | tool/client_heart.py:108-115 | the heartbeat holds exactly time, waiting and distribute_done; a non-master always reports distribute_done false |
| ClientHearts.VisitFailedSet | tool/client_heart.py:63-82 | a visit that raises nothing read the time; the failed set gains a late client that was not suspected and loses every other suspected client |
| ClientHearts.VisitHeartbeats | tool/client_heart.py:65-68 | a visit that raises nothing drops a client from the heartbeat hash exactly when it is late and was suspected |
| ClientHearts.FailedSetAfter | tool/client_heart.py:59-86 | after the loop the visited names have left the failed set, except the late ones that were not suspected, which have joined it |
| ClientHearts.SuspectStep | tool/client_heart.py:65-82 | one visited name moves the failed set as the loop's closed form says |
| ClientHearts.HeartbeatsAfter | tool/client_heart.py:59-86 | after the loop exactly the late clients that were suspected are gone from the heartbeat hash |
| ClientHearts.WaitingAfter | tool/client_heart.py:47-85 | after the loop all clients count as waiting exactly when no on-time client reported `waiting: false` |
| ClientHearts.Takeover | tool/client_heart.py:73-79 | a late, not yet suspected client named by the master record makes this spider master, and the record then names this spider |
| ClientHearts.OnlyTakeoverMakesMaster | tool/client_heart.py:73-79 | a visit makes this spider master only in that case |
| ClientHearts.StopIff | tool/client_heart.py:88-92 | a pass ends with Stop exactly when the loop raised nothing, every on-time client was waiting and the master is done; the stop key then holds the timestamp, after the lock's release |
| ClientHearts.BusyIff | tool/client_heart.py:49-53 | a pass finds the lock busy exactly when its key exists, and then changes nothing |
| ClientHearts.PassFailedSet | tool/client_heart.py:49-96 | after a pass that raised nothing every client of the heartbeat hash has left the failed set, except the late ones that were not suspected, which have joined it |
| ClientHearts.PassHeartbeats | tool/client_heart.py:49-96 | after a pass that raised nothing exactly the late clients that were suspected have left the heartbeat hash |
| ClientHearts.FinishKeeps | tool/client_heart.py:88-96 | the end of a pass changes no set and no hash other than the lock's |
| ClientHearts.NoStopWithoutMasterHeartbeat | tool/client_heart.py:136-142 | a master record naming a client without a heartbeat means "not done", so the pass never stops |
| ClientHearts.HeartbeatReadsBack | tool/client_heart.py:64-115 | a written heartbeat always parses; it is late exactly when more than 5 seconds passed (`now - time - 4 > 1`); it reports done only for a master that finished distributing |
| ClientHearts.PassStops | tool/client_heart.py:88-92 | a pass that ends with Stop leaves the stop key in the store |
| ClientHearts.ClientHeart.Beat | tool/client_heart.py:106-122 | one heartbeat writes this spider's uuid field of the heartbeat hash with the heartbeat value |
| ClientHearts.ClientHeart.MasterDistributeThreadIsDone | tool/client_heart.py:125-142 | the method reads the store as MasterDone says |
| ClientHearts.ClientHeart.VisitClient | tool/client_heart.py:60-86 | one client of the loop changes the store, master flag and waiting flag as the reference visit says |
| ClientHearts.ClientHeart.VisitAll | tool/client_heart.py:59-86 | the loop over the heartbeat hash is the reference fold, and the first exception leaves it |
| ClientHearts.ClientHeart.CheckPass | tool/client_heart.py:47-96 | one pass of the loop returns the reference pass's outcome and store, over the order in which the server listed the hash |
| ClientHearts.ClientHeart.Conclude | tool/client_heart.py:88-92 | the stop decision and the lock's release are the reference end of a pass |
| ClientHearts.ClientHeart.CheckClientBeating | tool/client_heart.py:36-96 | with the stop key present no pass runs; a loop that ends early without an exception has set the stop key; an exception comes out of some pass |
| ClientHearts.ClientHeart.Start | tool/client_heart.py:26-34 | an exception from the check makes this spider give up being master; with the stop key present nothing changes |
| ClientHearts.ClientHeart.constructor | tool/client_heart.py:17-24 | a heart is bound to its store, keys, uuid and master flag |
| DistributiveSpiders.RedisKeyOf | spider/spider_distributive.py:30 | redis_key is the given one when non-empty, and the spider's name otherwise |
| DistributiveSpiders.PrefixedTemplates | spider/spider_distributive.py:33-45 | every key setting the constructor formats becomes its template formatted with redis_key, the rest stay raw; distinct settings give distinct keys, none of them the heartbeat check's lock |
| DistributiveSpiders.PrefixOnce | spider/spider_distributive.py:33-45 | formatting the settings a second time, with any redis_key, changes nothing: the first spider's prefix stays |
| DistributiveSpiders.MasterRecord | tool/client_heart.py:74-76 | the corrected master record is JSON naming the master |
| DistributiveSpiders.CompeteDb | spider/spider_distributive.py:68-82 | an existing master key means no competition; otherwise this spider wins exactly when the lock key is free; a loser changes nothing |
| DistributiveSpiders.WinnerWritesRecord | spider/spider_distributive.py:79-82 | the winner leaves its record at the master key and releases the lock |
| DistributiveSpiders.BlankRecordBreaksCheck | spider/spider_distributive.py:82 | with the '' record as written, the master check raises JSONDecodeError, and so does every visit to a late client not yet suspected |
| DistributiveSpiders.RecordReadsMasterHeartbeat | tool/client_heart.py:125-142 | with the JSON record, the master check answers from the master's own heartbeat whether it has finished distributing, and answers no when the master has no heartbeat |
| DistributiveSpiders.StartCheckAsWrittenKeeps | spider/spider_distributive.py:93-97 | as written, start_check never removes either record the spiders write |
| DistributiveSpiders.StartCheckPurgesStale | spider/spider_distributive.py:84-97 | with the JSON record, start_check deletes the master key exactly when the named master's heartbeat is more than five seconds old, keeps it when there is no heartbeat, and changes nothing else |
| DistributiveSpiders.ReplaySkips | spider/spider_distributive.py:115-122 | a failed request is skipped exactly when its callback is neither None nor the name of a spider attribute |
| DistributiveSpiders.ReplayedCallback | spider/spider_distributive.py:115-128 | a replayed request keeps its callback ('parse' for none) and gets a session and cookie jar of its own |
| DistributiveSpiders.ReplayBuilds | spider/spider_distributive.py:124-128 | a replayed request is Request(**member), then given its session and jar |
| DistributiveSpiders.ReplayArgsCallback | spider/spider_distributive.py:116-117 | the constructor arguments keep the member's callback, 'parse' for none |
| DistributiveSpiders.ReplayAllRaises | spider/spider_distributive.py:108-130 | a member that raises ends the replay with that exception |
| DistributiveSpiders.ReplayAllStep | spider/spider_distributive.py:108-130 | one more member extends the replay: its request is put when kept, nothing when skipped |
| DistributiveSpiders.ReplayItemsStep | spider/spider_distributive.py:142-157 | one more item extends the item replay by one step |
| DistributiveSpiders.ReplayOne | spider/spider_distributive.py:147-157 | the loop body after the SPOP raises what the reference step raises, or puts one item and updates the class cache as it does |
| DistributiveSpiders.ReplayItemCache | spider/spider_distributive.py:150-157 | a key already cached reuses its class with no import; a new key is imported once, resolved from its module and init names, and cached; the item is put with the cached class |
| DistributiveSpiders.ImportsOnce | spider/spider_distributive.py:150-155 | each `module.init` key is imported at most once, and the imported keys are exactly the cached ones |
| DistributiveSpiders.CachedKeysCome | spider/spider_distributive.py:150-155 | every cached key is the key of some replayed item |
| DistributiveSpiders.PutsCached | spider/spider_distributive.py:157 | one item is put per replayed item, each built from the class cached for its key |
| DistributiveSpiders.CacheResolves | spider/spider_distributive.py:150-157 | when no two items share a key with different names, every item is put with the class its own names resolve to |
| DistributiveSpiders.CachedResolve | spider/spider_distributive.py:150-155 | without such collisions each item's cached class is the one its own names resolve to |
| DistributiveSpiders.PopKeepsDrained | spider/spider_distributive.py:109-113 | one more SPOP that returned a member keeps the record of what has been popped so far |
| DistributiveSpiders.TeardownAsWrittenKeeps | spider/spider_distributive.py:198-209 | as written, the heartbeat hash and the request filter survive the run, since the call at line 202 raises before their deletion |
| DistributiveSpiders.TeardownClears | spider/spider_distributive.py:198-209 | after the corrected teardown the master, stop and heartbeat keys are gone, and so is each filter whose persistence flag is off |
| DistributiveSpiders.TeardownKeeps | spider/spider_distributive.py:198-209 | the teardown keeps every other key's set members and bits |
| DistributiveSpiders.DropRunKeeps | spider/spider_distributive.py:200-204 | deleting the master, stop and heartbeat keys keeps every other key's members and bits |
| DistributiveSpiders.DropFiltersKeeps | spider/spider_distributive.py:205-209 | deleting the unpersisted filters keeps the persisted filters and every other key |
| DistributiveSpiders.DistributiveSpider.constructor | spider/spider_distributive.py:21-47 | a new spider uses redis_key or its name and the key templates formatted with it; it is not master and its queues are empty |
| DistributiveSpiders.DistributiveSpider.CompetitionForMaster | spider/spider_distributive.py:68-82 | the competition changes the store as CompeteDb says and makes this spider master when it won |
| DistributiveSpiders.DistributiveSpider.StartCheckMaster | spider/spider_distributive.py:84-97 | start_check changes the store as the corrected check says, or raises its error and changes nothing |
| DistributiveSpiders.DistributiveSpider.DistributeFailedTaskRequest | spider/spider_distributive.py:99-130 | without REQUEST_RETRY_FAILED or a failed set nothing happens; otherwise the set is popped until empty and the queue gains exactly the replayed requests, in order, or the first exception escapes |
| DistributiveSpiders.DistributiveSpider.ReplayFailedRequests | spider/spider_distributive.py:108-130 | the loop pops the set until empty and puts the replayed requests, or stops at the first exception |
| DistributiveSpiders.DistributiveSpider.ReplayNextRequest | spider/spider_distributive.py:109-130 | one pass pops a member and shrinks the set, or finds it empty and ends the loop |
| DistributiveSpiders.DistributiveSpider.DistributeFailedTaskItem | spider/spider_distributive.py:132-157 | without ITEM_RETRY_FAILED or a failed set nothing happens; otherwise the set is popped until empty and the item queue gains exactly the replayed items, in order |
| DistributiveSpiders.DistributiveSpider.ReplayFailedItems | spider/spider_distributive.py:140-157 | the loop pops the set until empty and puts the replayed items, or stops at the first exception |
| DistributiveSpiders.DistributiveSpider.ReplayNextItem | spider/spider_distributive.py:142-157 | one pass pops a member and shrinks the set, or finds it empty and ends the loop |
| DistributiveSpiders.DistributiveSpider.MasterTeardown | spider/spider_distributive.py:197-209 | the master's teardown is the corrected teardown |
| DistributiveSpiders.DistributiveSpider.SpiderLogic | spider/spider_distributive.py:159-209 | a master that finishes without an exception, its setup of replaying failed work and seeding start_requests included, leaves the master, stop and heartbeat keys gone, and each unpersisted filter too |
| DistributiveSpiders.DistributiveSpider.DistributeTask | spider/spider_base.py:124-150 | distribute_task as the master calls it: a start_requests that is not a generator raises NotGeneratorFunctionError and queues nothing; otherwise the queue gains exactly the seeding loop's puts and the exception is the loop's |
| SpiderChecks.WindowSuffix | tool/spider_check.py:74-76 | the trimmed cache is the last min(length, failed_limit) statuses |
| SpiderChecks.Limit | tool/spider_check.py:57-58 | failed_limit is at least 1 after the check, and a limit of 1 or more is kept |
| SpiderChecks.CountAllTrue | tool/spider_check.py:79 | the statuses count True as often as their length exactly when all are true |
| SpiderChecks.LimitRaised | tool/spider_check.py:57-58 | a failed_limit below 1 is raised to 1 and any other is kept |
| SpiderChecks.SampleOnlyWhenDue | tool/spider_check.py:62-64 | a status is sampled only when there was no sample yet or more than check_time has passed; otherwise cache, last check time and stop status are kept |
| SpiderChecks.SampleWindow | tool/spider_check.py:63-82 | after a sample the cache holds the most recent statuses, at most failed_limit of them, and the stop status holds exactly when the cache is full and every status in it is true |
| SpiderChecks.ExceptionIsTrue | tool/spider_check.py:67-71 | a need_stop that raises counts as a true status |
| SpiderChecks.SlidingWindow | tool/spider_check.py:72-76 | trimming after each append keeps exactly the last statuses of the whole history |
| SpiderChecks.HistoryWindow | tool/spider_check.py:62-82 | with failed_limit unchanged, the cache always holds the last statuses of the whole history, and the stop status holds exactly when the last failed_limit statuses were all true |
| SpiderChecks.Trace | tool/spider_check.py:101-108 | a run of calls has one state before it and one after each call |
| SpiderChecks.TraceNext | tool/spider_check.py:101-108 | each call goes from its state to the next by one `_need_stop` step |
| SpiderChecks.FirstRelease | tool/spider_check.py:101-108 | check_and_wait returns at the first call that does not report stop |
| SpiderChecks.FirstReleaseIs | tool/spider_check.py:101-108 | the first release is the one index with only stop reports before it and none at it |
| SpiderChecks.TraceRelease | tool/spider_check.py:101-108 | how the wait loop ended is read off the trace: released exactly when some call did not report stop, after that call |
| SpiderChecks.Checker.constructor | tool/spider_check.py:33-39 | the defaults: every 3 seconds, 3 in a row, an empty cache, no last check, not stopped |
| SpiderChecks.Checker.NeedStop | tool/spider_check.py:50-87 | one call moves the checker's state as the reference step says and returns the new stop status |
| SpiderChecks.Checker.CheckAndWait | tool/spider_check.py:89-110 | check_and_wait calls `_need_stop` until the first call that does not report stop, and ends in the state after that call |
| SpiderChecks.Checker.CheckAndStop | tool/spider_check.py:112-133 | the spider controllers are stopped exactly when `_need_stop` reports stop and the checker has not stopped before, so at most once; nothing else about them changes |
| ShortModules.IndexOf | tool/short_module.py:47 | the position of a key in the dict, or the dict's length when it is absent |
| ShortModules.LookupAt | tool/short_module.py:47 | a key is found with the value stored for it |
| ShortModules.LookupAbsent | tool/short_module.py:47 | a key that is not stored is not found |
| ShortModules.SetKeyLookup | tool/short_module.py:77-109 | after `d[k] = v`, k holds v, every other key is as it was, and keys stay distinct |
| ShortModules.DelKeyLookup | tool/short_module.py:78-85 | after `del d[k]`, k is absent, every other key is as it was, and keys stay distinct |
| ShortModules.IntKeysAre | tool/short_module.py:46 | the integer keys are listed each once, exactly those that are stored |
| ShortModules.InsertIncreasing | tool/short_module.py:46 | inserting a new integer into an increasing list keeps it increasing, with that integer added |
| ShortModules.AscendingIncreasing | tool/short_module.py:46 | `sorted()` of distinct integers is increasing and holds the same integers |
| ShortModules.IncreasingUnique | tool/short_module.py:46 | two increasing lists of the same integers are equal |
| ShortModules.ValuesAtPresent | tool/short_module.py:46-47 | looking up present keys gives one value per key, in key order |
| ShortModules.ValuesAtAgree | tool/short_module.py:46-47 | two dicts that agree on the keys list the same values for them |
| ShortModules.HelperOrder | tool/short_module.py:37-49 | sort_module_helper lists exactly the values of the integer keys, in ascending key order; other keys are ignored |
| ShortModules.ResolveEntryEffect | tool/short_module.py:74-85 | an entry raises TypeError exactly when it is lazy (str to int) and no mapping is given; a lazy entry whose name is mapped moves its value to its index; keys stay distinct |
| ShortModules.ResolveFromError | tool/short_module.py:74-98 | resolving a group raises TypeError exactly when no mapping is given and the group has a lazy entry |
| ShortModules.BoundsEnclose | tool/short_module.py:66-71 | an empty dict gives bounds 0 and 0; otherwise both bounds are keys and every key lies between them |
| ShortModules.PlaceLookup | tool/short_module.py:103-104 | placing a list from a start index stores its values at consecutive keys and leaves every other key as it was |
| ShortModules.Range | tool/short_module.py:103-109 | the consecutive indices the placement writes |
| ShortModules.PlacedLookup | tool/short_module.py:100-109 | the 'min' modules go to the keys just below the lowest user key and the 'max' modules to those just above the highest |
| ShortModules.RangesIncreasing | tool/short_module.py:100-109 | the indices below, the user's keys and the indices above form an increasing list |
| ShortModules.UserKeys | tool/short_module.py:66-71 | the user's keys, ascending, lie between the bounds |
| ShortModules.PlacedLookupAll | tool/short_module.py:100-109 | the placement holds for every key |
| ShortModules.PlacedMembers | tool/short_module.py:100-109 | the placed dict's integer keys are the 'min' range, the user's keys and the 'max' range |
| ShortModules.PlacedValues | tool/short_module.py:100-112 | reading the placed dict along those keys gives the 'min' modules, the user's, and the 'max' modules |
| ShortModules.PlacedHelperAt | tool/short_module.py:100-112 | listing a dict placed around bounds that enclose the user's keys gives 'min', user, 'max' modules in order |
| ShortModules.PlacedHelper | tool/short_module.py:100-112 | listing the dict after both placements gives the 'min' modules, the user's modules and the 'max' modules, in that order |
| ShortModules.PlaceGroupsHelper | tool/short_module.py:100-112 | the same for the two resolved groups |
| ShortModules.SortModuleOrder | tool/short_module.py:52-112 | without groups the result is the user's dict listed in key order; with them it is the 'min' group's modules, then the user's, then the 'max' group's, and no user module is overwritten |
| ShortModules.Dict.constructor | tool/short_module.py:52-53 | a dict object holds the given entries |
| ShortModules.Dict.Set | tool/short_module.py:77-109 | `d[k] = v` on the dict object |
| ShortModules.Dict.Del | tool/short_module.py:78-85 | `del d[k]` on the dict object, for a present key |
| ShortModules.SortModuleHelper | tool/short_module.py:37-49 | the loop over the sorted integer keys builds exactly the listing |
| ShortModules.ResolveFromAt | tool/short_module.py:74-85 | resolving a group is one entry after the other, stopping at the first exception |
| ShortModules.KeepsLaterKeys | tool/short_module.py:74-85 | resolving an entry keeps the keys of the later entries, so their `del` never misses |
| ShortModules.ResolveGroup | tool/short_module.py:74-98 | the loop over a deep copy of the group changes it as the reference resolution says and returns the exception raised, if any |
| ShortModules.PlaceGroupsIs | tool/short_module.py:100-109 | the placement of both groups around the bounds |
| ShortModules.PlaceAll | tool/short_module.py:103-109 | the enumerate loop places the list from the start index |
| ShortModules.SortModule | tool/short_module.py:52-112 | sort_module's result and the user dict's new contents are those of the reference definition |
| CreateSpiders.WordPrefix | tool/create_spider.py:49 | the length of the longest prefix of word characters, which is what `re.match(r'[0-9a-zA-Z_]+', s)` matches |
| CreateSpiders.TemplateOf | tool/create_spider.py:20-23 | type 2 chooses the distributive spider template and any other type the plain one |
| CreateSpiders.CheckName | tool/create_spider.py:43-54 | a name passes, with True, exactly when it is a letter followed by letters, digits and underscores; anything else raises NameError |
| CreateSpiders.RefusedNames | tool/create_spider.py:49-54 | an empty name, one starting with a digit or underscore, and one with any other character raise NameError |
| CreateProjects.CheckName | tool/create_project.py:34-45 | the same rule for project names |
| Hooks.Calls | decorator/decorator_spider_middleware.py:17-18 | a hook called on each middleware of the list: one call per middleware, in list order |
| Hooks.UntilRaise | decorator/decorator_spider_middleware.py:17-18 | the calls made before an exception ends a loop are a prefix of all the calls |
| Hooks.UntilRaiseAt | decorator/decorator_spider_middleware.py:17-18 | a loop no call ends makes every call; one ended by call i made calls 0 to i |
| Hooks.CallAll | decorator/decorator_spider_middleware.py:26-30 | with each exception caught and logged, every middleware's hook is called and nothing escapes |
| Hooks.CallUntilRaise | decorator/decorator_spider_middleware.py:17-18 | without a try, the first exception ends the loop and escapes: the loop raises exactly when some call raises |
| Hooks.Finally | decorator/decorator_spider_once.py:115-122 | `try: func() finally: after()` succeeds exactly when neither raised; an exception from the finally step replaces the function's, and otherwise the function's own outcome goes on |
| Dispatch.FailedSteps | controller/controller_spider.py:179-180 | when no request_failed raises, request_failed is called once on every middleware, in order |
| Dispatch.FailedRunFacts | controller/controller_spider.py:179-180 | the request_failed loop calls middlewares 0, 1, … in order; when it reports no exception it called every middleware and none raised, and otherwise it reports the exception of its last call |
| Dispatch.FailedRunAll | controller/controller_spider.py:179-180 | the loop raises nothing exactly when no request_failed raises, and then it called every middleware |
| Dispatch.CallIn | controller/controller_spider.py:153-154 | the request_in loop makes the reference calls and stops at the first exception |
| Dispatch.CallReplies | controller/controller_spider.py:167-175 | the request_error and request_close loops make the reference calls and stop at the first Request returned or the first exception raised, which they report |
| Dispatch.CallFailed | controller/controller_spider.py:179-180 | the request_failed loop makes the reference calls: every middleware up to the first that raises, whose exception it reports |
| Dispatch.Attempt | controller/controller_spider.py:159-181 | one attempt of the send loop either ends processing as the reference says (a response, a replacement, an exception from request_error or request_failed, or an exhausted budget), or goes on to the next attempt, which then exists |
| Dispatch.SendLoop | controller/controller_spider.py:157-181 | the send loop makes the reference sends and hook calls and ends as the reference says, a hook exception included |
| Dispatch.RunRequestsLoop | controller/controller_spider.py:141-192 | run_requests up to the callback makes the reference hook calls and ends as the reference says: an exception from request_in, request_error, request_failed or request_close ends it with that exception |
| Dispatch.ReplyStepsHooks | controller/controller_spider.py:167-175 | a reply loop calls only its own hook |
| Dispatch.ReplyStepsAll | controller/controller_spider.py:184-192 | when no middleware returns a Request or raises, the hook is called on every middleware in order |
| Dispatch.ReplyStepsStop | controller/controller_spider.py:167-190 | when a middleware returns a Request or raises, the loop stops at it: its call is the last, and its reply is the one reported |
| Dispatch.AttemptsSends | controller/controller_spider.py:159-181 | the send loop sends only attempts below REQUEST_RETRY_TIMES, calls neither request_in nor request_close, and completes only with a response |
| Dispatch.AttemptsNoFailed | controller/controller_spider.py:178-181 | unless the run is exhausted or a hook raised, request_failed is not called |
| Dispatch.AttemptsExhausted | controller/controller_spider.py:178-181 | when every attempt failed and no request_failed raised, request_failed runs on all middlewares at the very end, after the last attempt was sent |
| Dispatch.AttemptsExhaustedPrefix | controller/controller_spider.py:178-181 | and request_failed runs nowhere before those last calls |
| Dispatch.AttemptsReplaced | controller/controller_spider.py:167-173 | a replacement from request_error is the reply of the call made last |
| Dispatch.AttemptsHookRaised | controller/controller_spider.py:159-181 | an exception from request_error or request_failed ends the send loop with that exception, raised by the call made last |
| Dispatch.InStepsFacts | controller/controller_spider.py:153-154 | request_in is called on middlewares 0, 1, … in order; all of them when none raises, and the last call made is the one that raised otherwise |
| Dispatch.RetryBound | controller/controller_spider.py:158-159 | at most REQUEST_RETRY_TIMES sends, and none when it is not positive |
| Dispatch.ExhaustedFailsAll | controller/controller_spider.py:178-181 | when every attempt fails and the run ends quietly, no request_failed raised and request_failed ran once on every middleware, last, after the send numbered REQUEST_RETRY_TIMES - 1 |
| Dispatch.ExhaustedNeverCloses | controller/controller_spider.py:178-181 | then request_failed runs nowhere before, and request_close is never called |
| Dispatch.ReplacementEnds | controller/controller_spider.py:171-190 | a replacement ends processing: the call made last is the request_error or request_close that returned it |
| Dispatch.HookRaisedEnds | controller/controller_spider.py:159-192 | a hook exception ends processing: the call made last is the request_error, request_failed or request_close that raised it |
| Dispatch.ErrorRaiseStopsRetries | controller/controller_spider.py:159-171 | an exception from the first request_error after a failed send ends run_requests at once, with retries left unused and no other hook called |
| Dispatch.CompletedShape | controller/controller_spider.py:141-192 | a request that reaches the callback made its request_in calls, sends that completed, and request_close calls none of which returned a Request or raised |
| Dispatch.CompletedClosesAll | controller/controller_spider.py:184-192 | reaching the callback, request_close was called on every middleware, last and in order, and none returned a Request or raised |
| Dispatch.ClosesAfter | controller/controller_spider.py:184-192 | a trace ending with those close calls ends as described |
| Dispatch.CompletedNeverFails | controller/controller_spider.py:178-181 | reaching the callback, request_failed was never called |
| Dispatch.DropFromSend | parser.py:150-157 | a DropRequestException from send propagates at once in parser.py, before any request_error; the controllers count it as a failed attempt, and it ends the run quietly when the budget is one, no request_error stops the loop and no request_failed raises |
| SpiderControllers.MergeMeta | controller/controller_spider.py:124-125 | a falsy parent meta leaves the child alone; a truthy dict updates the child's meta dict, the parent's values winning; a truthy meta that is neither a dict, a sequence of pairs nor a string raises TypeError |
| SpiderControllers.JoinUrl | controller/controller_spider.py:128-129 | an absolute url, or no response, leaves the url alone; a relative one is joined against the response |
| SpiderControllers.InheritJar | controller/controller_spider.py:132-133 | a child with a truthy cookie jar keeps it; otherwise it takes the parent's |
| SpiderControllers.DeeperPriority | controller/controller_spider.py:136-137 | in queue mode 3 the child's priority is the parent's minus 1; in any other mode nothing changes |
| SpiderControllers.InheritSteps | controller/controller_spider.py:114-139 | a successful add_new_request is the four steps in source order |
| SpiderControllers.InheritStepsKeep | controller/controller_spider.py:114-139 | each step changes only its own attribute |
| SpiderControllers.MergeMetaKeeps | controller/controller_spider.py:124-125 | the meta step changes no other attribute |
| SpiderControllers.JoinUrlKeeps | controller/controller_spider.py:128-129 | the url step changes no other attribute |
| SpiderControllers.InheritJarKeeps | controller/controller_spider.py:132-133 | the cookie jar step changes no other attribute |
| SpiderControllers.DeeperPriorityKeeps | controller/controller_spider.py:136-137 | the priority step changes no other attribute |
| SpiderControllers.InheritMeta | controller/controller_spider.py:124-125 | the child's meta is its own updated with a truthy parent meta, the parent winning on shared keys |
| SpiderControllers.InheritCookieJar | controller/controller_spider.py:132-133 | the child keeps a truthy cookie jar of its own and takes the parent's otherwise |
| SpiderControllers.InheritPriority | controller/controller_spider.py:136-137 | in queue mode 3 the child's priority is the parent's minus 1, with no lower bound |
| SpiderControllers.DeeperPriorityMode3 | controller/controller_spider.py:136-137 | the priority step in mode 3 |
| SpiderControllers.InheritPriorityKept | controller/controller_spider.py:136 | in any other mode the priority is left alone |
| SpiderControllers.InheritUrl | controller/controller_spider.py:128-129 | an absolute url is kept; only a relative one is joined, and only when there is a response |
| SpiderControllers.InheritKeepsOthers | controller/controller_spider.py:114-139 | no other attribute of the child changes |
| SpiderControllers.SpiderController.constructor | controller/controller_spider.py:33-46 | a new controller is neither waiting nor stopped and has queued nothing |
| SpiderControllers.SpiderController.AddNewRequest | controller/controller_spider.py:114-139 | the inherited child goes on the request queue; when a step raises, nothing is queued |
| SpiderControllers.SpiderController.ParseChild | controller/controller_spider.py:92-112 | a yielded Request is inherited and queued, an item goes to the item queue, anything else is only logged; an error is the inheritance's |
| SpiderControllers.SpiderController.RouteYields | controller/controller_spider.py:198-200 | the callback's yields go through parse_task in order; every yield before the first failing child passed, and that child's error ends the loop with everything before it queued; when all pass, the generator's own exception, if any, is the result |
| SpiderControllers.SpiderController.RunRequests | controller/controller_spider.py:141-202 | the hooks run as the reference run_requests says; an exception from request_in, request_error, request_failed or request_close propagates and all attempts failing quietly queues nothing; a replacement is queued as a child and the request is dropped; a missing callback does nothing, a plain callback's exception propagates, and a generator's yields are routed, its exception propagating after them |
| SpiderControllers.SpiderController.RunJumpSpider | controller/controller_spider.py:204-240 | after a jump spider that returns, the request is queued again without its jump fields; if it raised, request_failed runs on the middlewares up to the first that raises, that exception is reported, and nothing is queued |
| SpiderControllers.SpiderController.ParseTask | controller/controller_spider.py:92-112 | an item is queued on the item queue, an unknown task is only logged, a request without jump_spider raises AttributeError, one with a truthy jump_spider runs it and fails only with an exception from request_failed, and one with a falsy jump_spider is sent: its result and queue effects are those of run_requests for the shared dispatch's ending (SpiderControllers.SpiderController.RanRequest), or AttributeError under REQUEST_BORROW |
| SpiderControllers.SpiderController.Run | controller/controller_spider.py:66-90 | an empty get sets waiting and a task clears it; a dropped request never ends the loop; another exception, a hook's or a callback's included, ends it under SPIDER_STOP_ON_ERROR and otherwise goes to spider_error, which ends it only when some spider_error raises |
| SpiderControllers.RouteStep | controller/controller_spider.py:198-200 | one more routed yield extends the queued children |
| SpiderControllers.ItemStep | controller/controller_spider.py:198-200 | one more routed yield extends the queued items |
| Parsers.NameCallback | parser.py:116-120 | corrected callback step: a child that has a callback keeps it (it is already a name), one with a falsy callback gets 'parse'; an error exactly when the callback attribute is missing |
| Parsers.ShareSession | parser.py:122-124 | the child ends with its parent's session and cookie jar, whatever it had; an error exactly when the parent lacks either attribute |
| Parsers.DeeperLevel | parser.py:126-131 | off: nothing changes; on: the child's level is the parent's minus 1 when that is positive, and 1 otherwise, so it is always at least 1 |
| Parsers.NamedCallbackRaises | parser.py:117-118 | as written, every child with a truthy callback makes add_new_request raise AttributeError, because the callback is stored as a str, which has no `__name__` |
| Parsers.NamedCallbackCounterexample | parser.py:117-118 | a concrete child with callback 'parse_detail' that makes the as-written add_new_request raise |
| Parsers.LevelNeverSet | parser.py:127 | as written, REQUEST_QUEUE is a table of queue classes, never 3, so a successful add_new_request leaves the child's level as it was |
| Parsers.ParserInheritSteps | parser.py:103-133 | a successful add_new_request is the url join, the callback step, the session step and the level step, in source order |
| Parsers.NameCallbackKeeps | parser.py:116-120 | the callback step changes no other attribute |
| Parsers.NameCallbackAsWrittenKeeps | parser.py:116-120 | the as-written callback step changes no other attribute either |
| Parsers.ShareSessionKeeps | parser.py:122-124 | the session step changes only session and cookie jar |
| Parsers.DeeperLevelKeeps | parser.py:126-131 | the level step changes only level |
| Parsers.ParserInheritStepsKeep | parser.py:103-133 | each step of a successful add_new_request changes only the attributes it assigns |
| Parsers.ParserInheritCallback | parser.py:116-120 | corrected end to end: a child keeps a truthy callback name and a child without one is sent to 'parse' |
| Parsers.ParserInheritShares | parser.py:122-124 | end to end: the child carries the parent's session and cookie jar |
| Parsers.ParserInheritLevel | parser.py:126-131 | corrected end to end: in queue mode 3 the child's level is the parent's minus 1 when the parent's level is above 1, and exactly 1 otherwise |
| Parsers.DeeperLevelOn | parser.py:128-131 | the level step when on: the parent's level is an int, and the child's is the parent's minus 1 when the parent's is above 1, and exactly 1 otherwise |
| Parsers.UnpackedSend | parser.py:152 | as written, the unpacking turns every send that returns into a TypeError and keeps every other outcome |
| Parsers.UnpackedAttemptsFail | parser.py:150-170 | as written, no attempt completes, and a replacement never carries a response |
| Parsers.UnpackedNeverResponds | parser.py:150-194 | as written, no request reaches its callback or request_close with a response |
| Parsers.UnpackedSendCounterexample | parser.py:152 | a send that returns on the one allowed attempt: as written the request is exhausted, while the intended reading completes with that response |
| Parsers.SendReturnsReachesCallback | parser.py:150-157 | intended: when every request_in passes, the first send returns and no request_close replaces it or raises, the request reaches its callback with that response |
| Parsers.ResolveCallback | parser.py:70-72 | the run loop's callback restore succeeds exactly when the request has a callback attribute |
| Parsers.ResolveCallbackKeeps | parser.py:70-72 | restoring the callback leaves the request as it was, since `__setattr__` stores the method by name again |
| Parsers.RouteStep | parser.py:191-192 | one more yield extends the queue with that yield's child |
| Parsers.Parser.constructor | parser.py:20-33 | a parser starts neither waiting nor stopped, with empty request and item queues and the given settings |
| Parsers.Parser.AddNewRequest | parser.py:103-133 | a successful inheritance appends the child to the request queue; a failed one leaves the queue unchanged and returns its error; items, waiting and stop are untouched |
| Parsers.Parser.ParseChild | parser.py:83-101 | a yielded Request is added as a child, an Item goes on the item queue, anything else is only logged; it fails exactly when a child's inheritance fails |
| Parsers.Parser.RouteYields | parser.py:189-192 | the yields are processed in order until the first failing child, every earlier one having passed; the queue gains the children of all processed yields and the item queue their items; when all pass, the generator's own exception, if any, is the result |
| Parsers.Parser.RunRequests | parser.py:135-194 | corrected: the hook trace is the shared dispatch's for this many middlewares and retries, with send's response taken as returned; an exception from request_in, request_error, request_failed or request_close and a DropRequestException from send propagate; a spent retry budget ends quietly; a replacement is added as a child and the request is dropped; otherwise a plain callback's exception propagates and a generator's yields are routed |
| Parsers.Parser.ParseTask | parser.py:83-101 | a queued Request is run: its result and queue effects are those of run_requests for the shared dispatch's ending (Parsers.Parser.RanRequest); an Item goes on the item queue, anything else changes nothing; the queues only grow |
| Parsers.Parser.Run | parser.py:56-81 | every get is processed unless spider_error raises; an empty last get leaves the parser waiting, a real task clears waiting; an exception from a hook or a callback goes to spider_error, so the loop fails only with spider_error's exception, and never when no spider_error hook raises |
| JumpControllers.Normalise | controller/controller_spider_jump.py:29-32 | None becomes the empty list, a single class becomes a one-element list, and a list is kept |
| JumpControllers.MiddlewareCache.constructor | controller/controller_spider_jump.py:17-19 | the class-level cache of middleware instances starts empty |
| JumpControllers.MiddlewareCache.Get | controller/controller_spider_jump.py:38-42 | a class already cached gets its instance back and the cache is unchanged; a new class gets a fresh instance added under it, and nothing else in the cache changes |
| JumpControllers.BuiltShares | controller/controller_spider_jump.py:35-42 | within one controller, two positions holding the same class hold the same instance |
| JumpControllers.SharedAcrossControllers | controller/controller_spider_jump.py:38-42 | a controller built later from the same class gets the very instance an earlier controller got, because the cache only grows |
| JumpControllers.JumpController.constructor | controller/controller_spider_jump.py:21-46 | the middleware list is the normalised argument through the cache, one instance per position, with the shared record middleware appended last; the cache only gains the classes named |
| JumpControllers.JumpController.AddNewRequest | controller/controller_spider_jump.py:76-101 | a successful inheritance (meta, url, cookie jar, priority) appends the child to the queue; a failed one returns its error and leaves the queue |
| JumpControllers.JumpController.AddYielded | controller/controller_spider_jump.py:157-159 | a yielded Request is added as a child and anything else is ignored; it fails exactly when a child's inheritance fails |
| JumpControllers.JumpController.RouteRequests | controller/controller_spider_jump.py:153-161 | the callback's yields in order until the first failing child, every earlier one having passed; only Requests reach the queue, Items are dropped; when all pass, the generator's own exception, if any, is the result |
| JumpControllers.JumpController.RunRequests | controller/controller_spider_jump.py:103-161 | the hook trace is the shared dispatch's for this controller's middleware; an exception from request_in, request_error, request_failed or request_close propagates, a spent retry budget ends quietly, a replacement is added and the request dropped, otherwise a plain callback's exception propagates and a generator's yields are routed |
| JumpControllers.JumpController.Run | controller/controller_spider_jump.py:48-74 | tasks are taken up to the first empty get; it ends early only with an exception other than a dropped request, a hook's or a callback's included; on every exit the jump spider's counters are added to the main spider's and the last request taken is handed to jump_out |
| JumpControllers.Instantiate | controller/controller_spider_jump.py:35-42 | the classes go through the cache one after another: each position gets its class's cached instance and the cache gains only those classes |
| JumpControllers.ChangeRecord | controller/controller_spider_jump.py:163-172 | the main spider's all, failed and succeed counters each grow by the jump spider's |
| JumpControllers.Horizon | controller/controller_spider_jump.py:57-62 | the number of gets the loop takes tasks from: all gets before it are tasks and the one at it, if any, is empty |
| JumpControllers.HorizonReached | controller/controller_spider_jump.py:57-62 | a prefix of tasks followed by an empty get or the end is exactly the horizon |
| JumpControllers.ChangeRecordOrderFree | controller/controller_spider_jump.py:163-172 | folding several jump spiders' records into the main record gives the same totals in either order |
| ItemBuffers.MadePrefix | buffer/buffer_item.py:74-75 | a loop of calls that an exception can end makes a prefix of its calls |
| ItemBuffers.AsResult | buffer/buffer_item.py:58-63 | an escaped exception is an Err holding it, and no exception is Ok |
| ItemBuffers.MadeUpTo | buffer/buffer_item.py:74-75 | a loop none of whose first i calls raises makes them all; when call i raises, the loop stops after it with that exception |
| ItemBuffers.NoErrorIffAllReturn | buffer/buffer_item.py:74-75 | the loop raises nothing exactly when no call raises, and then every call is made |
| ItemBuffers.MadeAfterReturns | buffer/buffer_item.py:74-75 | every call made before the last one returned normally |
| ItemBuffers.Ins | buffer/buffer_item.py:74-75 | pipeline_in's calls: one per pipeline, in PIPELINE order, on the item |
| ItemBuffers.Saves | buffer/buffer_item.py:96-97 | one attempt's pipeline_save calls: one per pipeline, in order, on the batch |
| ItemBuffers.Errors | buffer/buffer_item.py:104-105 | the pipeline_error calls of a failed attempt: one per pipeline, in order |
| ItemBuffers.Faileds | buffer/buffer_item.py:107-109 | the pipeline_failed calls: one per pipeline, in order |
| ItemBuffers.Closes | buffer/buffer_item.py:120-121 | the pipeline_close calls: one per pipeline, in order |
| ItemBuffers.FiltersRunFirst | buffer/buffer_item.py:29-31 | filter pipelines come before user pipelines, so a user pipeline sees an item only after every filter pipeline let it through |
| ItemBuffers.BatchKeepsAll | buffer/buffer_item.py:85-89 | the batch is the whole buffer exactly when buffering is on or at most one item is buffered; with buffering off only the first item is saved |
| ItemBuffers.SaveRoundsStep | buffer/buffer_item.py:94-110 | the retry loop from attempt a is attempt a, followed by the loop from a + 1 when a failed and was not the last |
| ItemBuffers.MadeFrom | buffer/buffer_item.py:74-75 | every call the loop makes is one of its list |
| ItemBuffers.AttemptShape | buffer/buffer_item.py:94-110 | one attempt makes only its own calls on this batch; it calls pipeline_failed exactly when it failed, was the last allowed attempt and there is a pipeline; the loop goes on exactly when it failed and was not the last |
| ItemBuffers.SaveRoundsBounded | buffer/buffer_item.py:94-110 | pipeline_save makes only save, error and failed calls on this batch, and none for an attempt past PIPELINE_RETRY_TIMES |
| ItemBuffers.FailedIffExhausted | buffer/buffer_item.py:101-110 | pipeline_failed runs exactly when there is a pipeline and every allowed attempt failed with an exception other than DropItemException, with no pipeline_error raising |
| ItemBuffers.HasFailedAppend | buffer/buffer_item.py:107-109 | a joined trace holds a pipeline_failed call exactly when one of its parts does |
| ItemBuffers.FailsFromStep | buffer/buffer_item.py:101-110 | the attempts from a on all fail exactly when attempt a fails and the attempts from a + 1 on all fail |
| ItemBuffers.EndsAt | buffer/buffer_item.py:94-100 | after some failed attempts, an attempt whose saves all return, or that raises DropItemException, ends pipeline_save: its calls close the trace, no pipeline_failed runs, and the result is Ok or DropItemException |
| ItemBuffers.Processed | buffer/buffer_item.py:47-49 | a tick reaches pipeline_in exactly when it got a truthy task, i.e. neither None nor an empty item |
| ItemBuffers.AdmittedBy | buffer/buffer_item.py:47-52 | a tick adds at most one item to the buffer: its task, exactly when it is processed and every pipeline_in returns |
| ItemBuffers.PipelineSet.constructor | buffer/buffer_item.py:22-31 | the pipeline list starts with the given names and outcomes and no calls |
| ItemBuffers.PipelineSet.CallUntilRaise | buffer/buffer_item.py:74-75 | the calls recorded are those the loop makes, and the exception that escapes is the first one raised |
| ItemBuffers.PipelineSet.CallAll | buffer/buffer_item.py:104-109 | every call of the list is recorded, in order |
| ItemBuffers.ItemBuffer.constructor | buffer/buffer_item.py:14-20 | a buffer starts empty with the given pipelines, PIPELINE_ITEM_BUFFER and PIPELINE_RETRY_TIMES |
| ItemBuffers.ItemBuffer.BufferSize | buffer/buffer_item.py:123-130 | buffer_size is the number of buffered items |
| ItemBuffers.ItemBuffer.PipelineIn | buffer/buffer_item.py:67-77 | every pipeline's pipeline_in runs until one raises; the item is appended exactly when none raises, and that exception is the result |
| ItemBuffers.ItemBuffer.PipelineSave | buffer/buffer_item.py:79-112 | the calls and the result are the retry loop's over the buffer's batch; the buffer is cleared on every exit and the batch's items are what was handed to the savers |
| ItemBuffers.ItemBuffer.SaveAttempt | buffer/buffer_item.py:95-110 | one pass of the retry loop makes exactly attempt a's calls, with its result and whether the loop goes on |
| ItemBuffers.ItemBuffer.OnFailure | buffer/buffer_item.py:101-110 | the failure branch makes the error calls, the failed calls when the budget is spent, and says whether to retry |
| ItemBuffers.ItemBuffer.Step | buffer/buffer_item.py:41-56 | one pass adds to the accepted items just what the tick admits; a finishing tick leaves an empty buffer with every accepted item flushed; a timed-out get, a None task, changes nothing and returns normally |
| ItemBuffers.ItemBuffer.Report | buffer/buffer_item.py:58-63 | an exception other than DropItemException is reported to every spider middleware's spider_error, which raises exactly when one of them does; DropItemException is only logged |
| ItemBuffers.ItemBuffer.PipelineClose | buffer/buffer_item.py:114-121 | every pipeline's pipeline_close runs until one raises, and that exception escapes |
| ItemBuffers.ItemBuffer.Iterate | buffer/buffer_item.py:41-63 | one pass with its handler: the accepted items grow by what the tick admits; the break comes only on a finishing tick with everything flushed; DropItemException is never reported |
| ItemBuffers.ItemBuffer.Loop | buffer/buffer_item.py:40-63 | the loop consumes ticks until the break, a spider_error that raised, or the last tick; the accepted items are those the consumed ticks admit |
| ItemBuffers.ItemBuffer.Run | buffer/buffer_item.py:33-65 | when the loop ends, every pipeline_close runs last and its first exception escapes, replacing any other; after the break every accepted item was flushed; DropItemException is never reported |
| ItemControllers.ControllerClass.constructor | controller/controller_item.py:13-15 | the class starts with PIPELINE_CLOSED down |
| ItemControllers.LoadedOnce | controller/controller_item.py:17-27 | `__new__` loads the pipeline list only while it is empty, so once loaded later instances keep it: loading twice is loading once |
| ItemControllers.NoCloseJoin | controller/controller_item.py:60-84 | two stretches of a call trace without pipeline_close make one stretch without it |
| ItemControllers.CloseCalls | controller/controller_item.py:143-145 | a trace without pipeline_close calls has none to pick out |
| ItemControllers.CloseCallsAppend | controller/controller_item.py:143-145 | the pipeline_close calls of a joined trace are those of its parts, in order |
| ItemControllers.CloseCallsOfCloses | controller/controller_item.py:143-145 | pipeline_close's own calls are all pipeline_close calls |
| ItemControllers.ItemController.constructor | controller/controller_item.py:29-35 | a controller starts with an empty buffer and the given pipelines, PIPELINE_ITEM_BUFFER and PIPELINE_RETRY_TIMES |
| ItemControllers.ItemController.BufferSize | controller/controller_item.py:149-156 | buffer_size is the number of buffered items |
| ItemControllers.ItemController.PipelineIn | controller/controller_item.py:90-100 | every pipeline's pipeline_in runs until one raises; the item is appended exactly when none raises, and that exception is the result |
| ItemControllers.ItemController.PipelineSave | controller/controller_item.py:102-135 | the calls and result are the retry loop's over the buffer's batch (the first item alone when buffering is off); the buffer is cleared on every exit |
| ItemControllers.ItemController.SaveAttempt | controller/controller_item.py:118-133 | one pass of the retry loop makes exactly attempt a's calls, with its result and whether the loop goes on |
| ItemControllers.ItemController.OnFailure | controller/controller_item.py:124-133 | the failure branch makes the error calls, the failed calls when the budget is spent, and says whether to retry |
| ItemControllers.ItemController.Step | controller/controller_item.py:62-77 | one pass adds to the accepted items just what the tick admits (only None is skipped); a finishing tick leaves an empty buffer with every accepted item flushed; a timed-out get, a None task, changes nothing and returns normally; no pipeline is closed |
| ItemControllers.ItemController.Save | controller/controller_item.py:102-135 | pipeline_save clears the buffer, flushes the batch and closes no pipeline |
| ItemControllers.ItemController.Report | controller/controller_item.py:79-84 | an exception other than DropItemException is reported to every spider middleware's spider_error, which raises exactly when one of them does; DropItemException is only logged |
| ItemControllers.ItemController.Iterate | controller/controller_item.py:62-84 | one pass with its handler: the accepted items grow by what the tick admits, the break comes only on a finishing tick with everything flushed, and no pipeline is closed |
| ItemControllers.ItemController.PipelineCloseOnce | controller/controller_item.py:85-88 | afterwards PIPELINE_CLOSED is up, and pipeline_close ran on every pipeline exactly when it was down before |
| ItemControllers.ItemController.PipelineClose | controller/controller_item.py:137-147 | every pipeline's pipeline_close runs, in order, an exception of one only logged |
| ItemControllers.ItemController.Loop | controller/controller_item.py:61-84 | the loop consumes ticks until the break, a spider_error that raised, or the last tick; the accepted items are those the consumed ticks admit |
| ItemControllers.ItemController.Run | controller/controller_item.py:54-88 | when the loop ends the pipelines are closed once across all controllers of the class: pipeline_close runs on every pipeline exactly when no controller closed them before; after the break every accepted item was flushed |
| Spiders.Worker.constructor | spider/spider.py:296-298 | a controller thread starts with the given liveness and waiting flag and its stop flag down |
| Spiders.FirstBusy | spider/spider.py:236-243 | the first live controller that is not waiting: every one before it is dead or waiting |
| Spiders.RemoveFirst | spider/spider.py:238 | `list.remove(p)` leaves a list without p unchanged |
| Spiders.RemoveFirstAfter | spider/spider.py:238 | `list.remove(p)` takes out exactly the first occurrence of p |
| Spiders.ScanWaitingAnswer | spider/spider.py:228-245 | the waiting scan answers True exactly when every live controller waits, whatever the list it removes from |
| Spiders.DeadStep | spider/spider.py:237-239 | a dead controller met by the scan is removed from the list and the scan goes on |
| Spiders.WaitingStep | spider/spider.py:241-243 | a live waiting controller stays in the list and the scan goes on |
| Spiders.ScanWaitingFrom | spider/spider.py:236-243 | on a list without repeats, the scan keeps what lies behind it, the live controllers before the first busy one, and everything from that one on |
| Spiders.ScanWaitingMeaning | spider/spider.py:228-245 | all_spider_controller_is_waiting answers whether every live controller waits (True for an empty list) and removes exactly the dead controllers met before the first busy one |
| Spiders.ScanWaitingKeepsAlive | spider/spider.py:228-245 | when every live controller waits, the scan leaves exactly the live ones in the list |
| Spiders.ScanAlive | spider/spider.py:219-226 | the scan answers True exactly when no thread of the list is alive |
| Spiders.SetStop | spider/spider.py:204-205 | every controller's stop flag is up afterwards, and nothing else about them changes |
| Spiders.DefaultCallback | spider/spider.py:280-282 | a seed without a callback gets 'parse', the name `__setattr__` stores for self.parse; a seed with one is unchanged; an error exactly when the callback attribute is missing |
| Spiders.SeededPuts | spider/spider.py:274-284 | each request put is its seed as prepared, in order; every seed is put exactly when no exception escapes, and otherwise the loop stops at the first seed that is not a Request (ValueError) or whose preparation raises |
| Spiders.StartStep | spider/spider.py:278-284 | a seed start_distribute puts keeps every attribute except its callback, which becomes the name 'parse' when it was None and stays as it was otherwise; a seed with no callback attribute is the only failure |
| Spiders.SpiderName | spider/spider.py:314-322 | the name is spider_name when it is a non-empty string, and the class name otherwise |
| Spiders.Spider.constructor | spider/spider.py:116-134 | a spider starts not done, with empty controller and distribute lists, an empty queue and all counters 0 |
| Spiders.Spider.AllDistributeThreadIsDone | spider/spider.py:213-226 | the answer is True exactly when no distribute thread is alive, and nothing changes |
| Spiders.Spider.AllSpiderControllerIsWaiting | spider/spider.py:228-245 | the answer and the new controller list are the waiting scan's over a copy of the old list |
| Spiders.Spider.AllSpiderControllerIsDone | spider/spider.py:247-264 | the answer is True exactly when no controller is alive, and then spider_done is set; nothing else changes |
| Spiders.Spider.StopAllSpiderController | spider/spider.py:198-205 | every controller's stop flag is raised; the list and the spider's other state are unchanged |
| Spiders.Spider.StartDistribute | spider/spider.py:266-286 | when start_requests is not a generator nothing is queued and nothing escapes; otherwise the queue gains the seeds with their default callbacks, up to the first one that raises |
| Spiders.Spider.SeedAll | spider/spider.py:276-284 | the queue gains exactly the puts of the seeding loop and the exception is the loop's |
| SpiderBases.WithSessionSets | spider/spider_base.py:146-148 | giving a seed a new session and cookie jar always succeeds, sets both to the new object, and keeps every other attribute |
| SpiderBases.SeedTaskAsWrittenRaises | spider/spider_base.py:143-144 | as written, every Request seed makes distribute_task raise AttributeError, because the callback is already stored as a str, which has no `__name__` |
| SpiderBases.SeedTaskCounterexample | spider/spider_base.py:139-144 | a concrete seed, Request('http://a/') without a callback, on which the as-written distribute_task raises |
| SpiderBases.SeedTask | spider/spider_base.py:139-148 | corrected seed step: it succeeds exactly when the request has a callback attribute, and otherwise fails with AttributeError |
| SpiderBases.SeedTaskSteps | spider/spider_base.py:139-148 | a seed step is the default callback followed by the new session and jar |
| SpiderBases.SeedTaskSession | spider/spider_base.py:146-148 | every seeded request has session object `id` and an empty cookie jar of its own |
| SpiderBases.SeedTaskKeeps | spider/spider_base.py:139-148 | a seeded request has callback 'parse' when it had none and its own otherwise, and every other attribute as yielded |
| SpiderBases.FreshSessions | spider/spider_base.py:135-150 | when seed i gets session object i, no two requests put by the loop share a session |
| SpiderBases.RunClosesAlways | spider/spider_base.py:258-270 | unless the finally block waits on an item buffer that was never started, the trace of run ends with the spider_close loop, whatever happened before it, complete when no spider_close raises |
| SpiderBases.NoBufferSkipsClose | spider/spider_base.py:170-270 | when the finally block waits on an item buffer still None (SPIDER_TYPE 1, or a master whose spider_logic did not build one), `None.is_alive()` raises AttributeError out of run and no spider_close is called |
| SpiderBases.RunStartsFirst | spider/spider_base.py:240-257 | the trace begins with the spider_start loop; the crawl runs exactly when every spider_start returned; spider_error is called only after an exception, and then on every middleware when none of them raises |
| SpiderBases.BaseSpider.constructor | spider/spider_base.py:30-54 | a spider starts with no parsers, not done, not master and an empty queue |
| SpiderBases.BaseSpider.DistributeTask | spider/spider_base.py:124-150 | a start_requests that is not a generator raises NotGeneratorFunctionError and queues nothing; otherwise the queue gains the seeds prepared by the corrected step, up to the first that raises |
| SpiderBases.BaseSpider.SeedAll | spider/spider_base.py:135-150 | the queue gains exactly the puts of the seeding loop and the exception is the loop's |
| SpiderBases.BaseSpider.AllParserIsWaiting | spider/spider_base.py:195-208 | the answer is True exactly when every parser waits, dead or alive |
| SpiderBases.BaseSpider.AllParserIsDone | spider/spider_base.py:210-224 | the answer is True exactly when no parser is alive |
| SpiderBases.BaseSpider.StopAllParser | spider/spider_base.py:182-189 | every parser's stop flag is raised and nothing else about them changes |
| SpiderBases.BaseSpider.WaitParserDonePass | spider/spider_base.py:152-168 | a pass ends the wait exactly when every parser waits or none is alive, stopping them all in the first case; the end sets spider_done, and a pass that does not end it changes nothing |
| SpiderBases.BaseSpider.Run | spider/spider_base.py:234-270 | the middleware trace and the escaping exception are the modelled run's, the item-buffer wait decided by SPIDER_TYPE and the master flag; spider_done is set at the end |

## Left out

- Threads, locks and their timing are not modelled. This covers `Thread.start`, FuncLock/FuncLockShared/FilterLock, RLock, daemon threads, and ClientHeart.start's timers. Each operation is one sequential call, and interleavings of concurrent callers are not modelled.
- The polling sleep loops are modelled as single passes: wait_distribute_thread_done, wait_spider_controller_done, wait_item_controller_done, wait_item_buffer_done, wait_parser_done and the busy-wait loops of stop_all_spider_controller and stop_all_parser. Only one pass of their condition is modelled, and BaseSpider.Run takes the waits as finished.
- Time is an integer parameter, `now`, and `time.sleep` is left out. The sliding window of the checker and the five-second staleness rules read only `now`.
- SpiderChecks: the checker's class attributes (`_status_cache`, `_last_check_time`, `_stop_status`, `_has_stop`) are the fields of one object. Sharing them between subclasses, and the lock around them, are not modelled.
- ShortModules.SortModule: requires the integer keys of cls_dict whenever the framework's groups are given. Python's `min`/`max` over mixed keys raises TypeError, and that case is not modelled.
- ShortModules.SortModule: requires that the three dicts are distinct objects. Aliasing between cls_dict and a group is not modelled.
- ShortModules.SortModule: the framework's groups are a pair, 'min' and 'max'. A palp dict missing either key (a KeyError) is not modelled. An empty palp dict is falsy in the source and is modelled as no groups.
- ShortModules.ResolveEntry: a conditional `[flag, module]` entry is a two-element list. A list of another length, which makes the source raise IndexError, is not modelled.
- ShortModules: integer and string keys are distinct. Python's `True == 1` key equality is not modelled.
- `from_settings` of every class, `import_module`, logging and settings overrides (`spider_settings`, `thread_count` and the like) are left out. The resulting middleware and pipeline lists are parameters. ItemBuffer's order, filter pipelines before user pipelines, is kept as ItemBuffers.FromSettings.
- start_controller, the spiders' `run` entry points of the newer API, and SpiderBase's `__getattr__`/`__setattr__` are left out. The newer API's run is abstract in the source, and the attribute methods are plain dict access.
- The transport is a parameter. `Request.send` (downloader, REQUEST_DELAY sleeps, cookies) returns a supplied outcome. `random_ua` is a supplied user agent, and `response.urljoin` is a supplied join.
- `urlparse` is modelled only as far as the code uses it: the netloc after an optional `scheme://` (Requests.Netloc).
- Fingerprints.Encoding: md5, `urlencode` of a non-empty value and an item's to_json text are parameters. The concatenation around them, the empty dict's empty encoding and `x or {}` are exact. Elsewhere JSON, pickle/dill, zlib and base64 are exact: the payload stands for the value it encodes.
- Deterministic: states equal fingerprints for equal fields, where the model's dicts have no insertion order. In the source, two dicts with the same entries inserted in another order encode differently. Their fingerprints may then differ, and the model does not capture that.
- ItemByJson: assumes equal to_json text rather than equal fields. json.dumps follows insertion order, so items with equal fields can still have different text.
- `Request.to_json` text and `__str__` are not modelled as strings. Only the value they encode is kept.
- RedisLocks: the key's expiry (`ex=block_timeout`) is kept as a number, but it does not expire, because the modelled server has no clock. The blocking RedisLock (conn/conn_redis.py:70-117) is not part of this model.
- ClientHearts.ClientHeart.CheckPass and DistributiveSpiders.DistributiveSpider.CompetitionForMaster: tool/client_heart.py:13 and spider/spider_distributive.py:13 import `RedisLockNoWait` from quickdb, a third-party package whose code is not part of this model, and call it with `conn=redis_conn`. `redis_conn` is quickdb's RedisConn (conn.py:15). Its lock is taken to behave like the RedisLockNoWait of conn/conn_redis.py:121-177, modelled as RedisLocks.RedisLockNoWait: acquire is SET NX with `ex` and this lock's token, release deletes the key only while it still holds that token, and the default hold time is assumed to be 60 seconds. The same holds for ClientHearts.BusyIff and DistributiveSpiders.CompeteDb, which state their rules over that lock. The blocking quickdb RedisLock that the filters and the once decorator take is not modelled either: the model records only whether it is taken, since what it excludes is concurrent callers. quickdb's RedisConn is taken to issue the Redis commands as Redis.Store specifies them.
- ClientHearts.MasterDone: a master record whose name is not a str answers TypeError. redis-py would send an int or float name as its decimal text and refuse only bool, None and containers; palp only ever writes a str name, so those records are outside the model.
- SpiderOnceDecorators.RunOnce: the RedisLock around HDEL and EXISTS is not modelled. Two spiders finishing at once are not considered.
- BloomFilters: the final mask `(m - 1) & ret` is written as `ret % m`. These are equal because m is a power of two and ret is never negative, so only the notation differs.
- filter/filter_bloom.py and its middleware and pipelines (the in-memory pybloom_live ScalableBloomFilter) are not part of this model. Their behaviour lives in a library outside the repository.
- middleware/middleware_request_filter.py and pipeline/pipeline_item_filter.py import `RequestRedisBloomFilter` from filter/filter_redis_bloom.py, which defines only RedisBloomFilter, so the import fails. The Redis Bloom gates are modelled over RedisBloomFilter.
- spider/spider_base.py:22 imports `FIFOSequence` from sequence/sequence_redis_item.py, which defines only FIFOItemRedisSequence and LIFOItemRedisSequence, so the module fails to import. BaseSpider is modelled without its item queue, which none of its modelled operations touch.
- ClientHeart's beating loop and its thread are modelled as one beat (ClientHearts.Beat). The interval between beats is not modelled.
- SQL, database and alerting code, the dead-letter writers, scaffolding file I/O (`create`, templates, `str.title`/`lower` used for class names), and the CLI are left out.
- Settings that palp's own settings.py does not define are taken as given. These are REQUEST_MODE (spider/spider_base.py:44), REQUEST_BORROW (controller/controller_spider.py:149), REDIS_KEY_RECORD (decorator/decorator_spider_once.py:43, decorator/decorator_spider_record.py:34, middleware/middleware_record.py:63), REDIS_KEY_QUEUE_REQUEST_BORROW (sequence/sequence_redis_borrow.py:23), REQUEST_FILTER (middleware/middleware_request_filter.py:23, 36, 49, 62), ITEM_FILTER (pipeline/pipeline_item_filter.py:21, 34, 47, 60) and SPIDER_THREAD_COUNT (spider/spider_base.py:247). settings.py defines FILTER_REQUEST, FILTER_ITEM and REQUEST_THREADS instead; the three names exist only when a spider's constructor arguments set them (spider/spider_base.py:36-41, spider/spider.py:113-118). Each read raises AttributeError unless the project's settings, merged in at spider/spider_base.py:88-91, or those arguments define it. REQUEST_FILTER and ITEM_FILTER are optional flags in the model, and an undefined one raises AttributeError in the gates above. The others are parameters and Redis.KeySettings entries, and the missing-setting error is not modelled for them.
- DistributiveSpiders.DistributiveSpider.SpiderLogic: the master's `ItemBuffer.from_settings()`, the construction of its item buffer and `start()` of that thread (spider/spider_distributive.py:181-183) are not modelled. The buffer's pipelines are modelled on their own as ItemBuffers, and the thread is concurrency.
- Requests.Upper: ASCII letters only. Python's `str.upper` also maps other letters and turns 'ß' into 'SS'. HTTP method names are ASCII, so the model folds only a to z.
- RequestRedisSequences.Score, MemorySequences.LevelOf and Requests.Less: priorities and levels are ints only. Python also accepts floats, which are not modelled.
- The interface-only base classes (sequence, buffer, middleware and pipeline bases, exceptions) are not modelled. Their hooks are the abstract outcomes above.

## Findings

| source | as written | input that shows it | evidently intended | confidence | as-written member | corrected member |
|---|---|---|---|---|---|---|
| sequence/sequence_redis_item.py:9 | the item queues inherit get from the request queue, which rebuilds the popped text with `LoadRequest.load_from_json` | an item `{'title': 'x'}` put on FIFOItemRedisSequence: get raises, since a Request needs a url | get returns the item's fields, `json.loads` of the popped text | not executed | ItemRedisSequences.ItemGetCounterexample | ItemRedisSequences.ItemRoundTrip |
| parser.py:117-118 | `new_request.callback = new_request.callback.__name__`, where `__setattr__` has already stored the callback as its name, a str | a child yielded with callback 'parse_detail': add_new_request raises AttributeError | the name is kept as it is | not executed | Parsers.NamedCallbackCounterexample | Parsers.ParserInheritCallback |
| parser.py:127 | `settings.REQUEST_QUEUE == 3`, where REQUEST_QUEUE is the table of queue classes | any child with REQUEST_QUEUE the shipped table: its level is never set | the queue mode is compared to 3, as in controller/controller_spider.py:136 | not executed | Parsers.LevelNeverSet | Parsers.ParserInheritLevel |
| spider/spider_distributive.py:82 | the winner of the competition writes the master record as `''` | a run where the winner's record is read by tool/client_heart.py:74: json.loads('') raises JSONDecodeError | the record is `{"name": uuid}` JSON, as the takeover in tool/client_heart.py writes it | not executed | DistributiveSpiders.BlankRecordBreaksCheck | DistributiveSpiders.RecordReadsMasterHeartbeat |
| spider/spider_distributive.py:93-97 | start_check uses the raw master record as the heartbeat field name | a record `''` or `{"name": uuid}`: start_check never finds a heartbeat and never purges a stale master | the name inside the JSON record is looked up | not executed | DistributiveSpiders.StartCheckAsWrittenKeeps | DistributiveSpiders.StartCheckPurgesStale |
| spider/spider_distributive.py:202 | the master's teardown calls `ClientHeart.remove_stop_status()`, which ClientHeart does not define | any master run that reaches the end: AttributeError after deleting the master record, so heartbeats and filters survive | the stop flag is deleted and the teardown continues | not executed | DistributiveSpiders.TeardownAsWrittenKeeps | DistributiveSpiders.TeardownClears |
| parser.py:152 | `callback, response = request.send()`, where send returns the one response parser, which is not iterable | any request whose send returns: the unpacking raises TypeError, caught as a failed attempt, so no callback ever runs | `response = request.send()`, the callback being the request's own | not executed | Parsers.UnpackedSendCounterexample | Parsers.SendReturnsReachesCallback |
| spider/spider_base.py:144 | `request.callback = request.callback.__name__` on a callback already stored as a str | a seed `Request('http://a/')`: distribute_task raises AttributeError | the name is kept, then the seed gets its own session and cookie jar | not executed | SpiderBases.SeedTaskCounterexample | SpiderBases.SeedTaskKeeps |
