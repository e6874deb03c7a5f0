/**
 * pipeline/pipeline_item_filter.py: the item filter pipelines of the
 * BasePipeline family, over BaseFilter's filters. Same rule as
 * pipeline/pipeline_filter.py, switched by settings.ITEM_FILTER.
 */
module ItemFilterPipelines {
  import opened Common
  import opened Tasks
  import opened Fingerprints
  import Redis
  import SetFilters
  import MemoryFilters
  import RedisSetFilters
  import RedisFilters
  import BloomFilters
  import FilterPipelines

  /** ItemMemoryFilterPipeline */
  class ItemMemoryFilterPipeline {
    const itemMemoryFilter: MemoryFilters.RequestMemoryFilter

    constructor (enc: Encoding)
      ensures fresh(itemMemoryFilter) && fresh(itemMemoryFilter.memoryFilterRequest)
      ensures fresh(itemMemoryFilter.memoryFilterItem)
      ensures itemMemoryFilter.memoryFilterRequest.elems == {} && itemMemoryFilter.memoryFilterItem.elems == {}
      ensures itemMemoryFilter.enc == enc
    {
      itemMemoryFilter := new MemoryFilters.RequestMemoryFilter(enc);
    }

    /** pipeline_in; `itemFilter` is settings.ITEM_FILTER, None while no settings define it, and `strict` is settings.STRICT_FILTER. */
    method PipelineIn(item: map<Key, Val>, itemFilter: Option<bool>, strict: bool) returns (res: Result<()>)
      requires itemMemoryFilter.memoryFilterRequest != itemMemoryFilter.memoryFilterItem
      modifies itemMemoryFilter.memoryFilterRequest, itemMemoryFilter.memoryFilterItem
      ensures itemMemoryFilter.memoryFilterRequest.elems == old(itemMemoryFilter.memoryFilterRequest.elems)
      ensures itemFilter != Some(true) ==>
                res == (if itemFilter.None? then Err(AttributeError) else Ok(()))
                && itemMemoryFilter.memoryFilterItem.elems == old(itemMemoryFilter.memoryFilterItem.elems)
      ensures itemFilter == Some(true) ==>
                res == FilterPipelines.Outcome(SetFilters.SetAnswer(old(itemMemoryFilter.memoryFilterItem.elems),
                                                                    Fingerprint(ItemTask(item), itemMemoryFilter.enc)))
                && itemMemoryFilter.memoryFilterItem.elems
                   == old(itemMemoryFilter.memoryFilterItem.elems) + {Fingerprint(ItemTask(item), itemMemoryFilter.enc).value}
    {
      if itemFilter.None? {
        return Err(AttributeError);
      }
      if !itemFilter.value {
        return Ok(());
      }
      var isRepeat, _ := itemMemoryFilter.IsRepeat(ItemTask(item), strict);
      res := FilterPipelines.Outcome(isRepeat);
    }
  }

  /** ItemRedisFilterPipeline */
  class ItemRedisFilterPipeline {
    const itemRedisFilter: RedisFilters.RequestRedisFilter

    constructor (store: Redis.Store, keys: Redis.KeySettings, enc: Encoding)
      ensures fresh(itemRedisFilter)
      ensures itemRedisFilter.store == store && itemRedisFilter.keys == keys && itemRedisFilter.enc == enc
    {
      itemRedisFilter := new RedisFilters.RequestRedisFilter(store, keys, enc);
    }

    /** pipeline_in; `itemFilter` is settings.ITEM_FILTER, None while no settings define it. */
    method PipelineIn(item: map<Key, Val>, itemFilter: Option<bool>) returns (res: Result<()>)
      modifies itemRedisFilter.store
      ensures itemFilter != Some(true) ==> res == (if itemFilter.None? then Err(AttributeError) else Ok(())) && itemRedisFilter.store.db == old(itemRedisFilter.store.db)
      ensures itemFilter == Some(true) ==>
                res == FilterPipelines.Outcome(RedisSetFilters.RedisAnswer(
                                                 old(itemRedisFilter.store.db), itemRedisFilter.keys(Redis.FilterItem),
                                                 Fingerprint(ItemTask(item), itemRedisFilter.enc)))
                && itemRedisFilter.store.db
                   == RedisSetFilters.SetJudge(old(itemRedisFilter.store.db), itemRedisFilter.keys(Redis.FilterItem),
                                               BText(Fingerprint(ItemTask(item), itemRedisFilter.enc).value)).1
    {
      if itemFilter.None? {
        return Err(AttributeError);
      }
      if !itemFilter.value {
        return Ok(());
      }
      var isRepeat, _ := itemRedisFilter.IsRepeat(ItemTask(item));
      res := FilterPipelines.Outcome(isRepeat);
    }
  }

  /** ItemRedisBloomFilterPipeline, over filter/filter_redis_bloom.py's RedisBloomFilter. */
  class ItemRedisBloomFilterPipeline {
    const itemRedisBloomFilter: BloomFilters.RedisBloomFilter

    constructor (store: Redis.Store, keys: Redis.KeySettings, enc: Encoding, bit: nat, hashNumber: nat)
      ensures fresh(itemRedisBloomFilter)
      ensures itemRedisBloomFilter.store == store && itemRedisBloomFilter.keys == keys
      ensures itemRedisBloomFilter.enc == enc
      ensures itemRedisBloomFilter.bit == bit && itemRedisBloomFilter.hashNumber == hashNumber
    {
      itemRedisBloomFilter := new BloomFilters.RedisBloomFilter(store, keys, enc, bit, hashNumber);
    }

    /** pipeline_in; `itemFilter` is settings.ITEM_FILTER, None while no settings define it, and `strict` is settings.STRICT_FILTER. */
    method PipelineIn(item: map<Key, Val>, itemFilter: Option<bool>, strict: bool) returns (res: Result<()>)
      modifies itemRedisBloomFilter.store
      ensures itemFilter != Some(true) ==> res == (if itemFilter.None? then Err(AttributeError) else Ok(())) && itemRedisBloomFilter.store.db == old(itemRedisBloomFilter.store.db)
      ensures itemFilter == Some(true) ==>
                res == FilterPipelines.Outcome(BloomFilters.BloomAnswer(
                                                 Redis.Bits(old(itemRedisBloomFilter.store.db), itemRedisBloomFilter.keys(Redis.FilterItem)),
                                                 Fingerprint(ItemTask(item), itemRedisBloomFilter.enc),
                                                 itemRedisBloomFilter.hashNumber, itemRedisBloomFilter.M()))
      ensures itemFilter == Some(true) && Fingerprint(ItemTask(item), itemRedisBloomFilter.enc).Err? ==>
                itemRedisBloomFilter.store.db == old(itemRedisBloomFilter.store.db)
      ensures itemFilter == Some(true) && Fingerprint(ItemTask(item), itemRedisBloomFilter.enc).Ok? ==>
                itemRedisBloomFilter.store.db
                == (if res == Err(DropItem) then old(itemRedisBloomFilter.store.db)
                    else BloomFilters.SetBits(old(itemRedisBloomFilter.store.db), itemRedisBloomFilter.keys(Redis.FilterItem),
                                              BloomFilters.OffsetsBelow(Fingerprint(ItemTask(item), itemRedisBloomFilter.enc).value,
                                                                        itemRedisBloomFilter.hashNumber, itemRedisBloomFilter.M())))
    {
      if itemFilter.None? {
        return Err(AttributeError);
      }
      if !itemFilter.value {
        return Ok(());
      }
      var isRepeat, _ := itemRedisBloomFilter.IsRepeat(ItemTask(item), strict);
      res := FilterPipelines.Outcome(isRepeat);
    }
  }
}
