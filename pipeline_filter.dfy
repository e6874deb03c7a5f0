/**
 * pipeline/pipeline_filter.py: the item filter pipelines of the Pipeline
 * family. With FILTER_ITEM on, pipeline_in asks its filter whether the item
 * is a repeat (recording its fingerprint) and raises DropItemException when
 * it is; with FILTER_ITEM off it does nothing.
 */
module FilterPipelines {
  import opened Common
  import opened Tasks
  import opened Fingerprints
  import Redis
  import SetFilters
  import RedisSetFilters
  import BloomFilters

  /** pipeline_in with the filter on, given what is_repeat answered: a repeat is dropped. */
  function Outcome(repeat: Result<bool>): (res: Result<()>)
    ensures repeat.Err? ==> res == Err(repeat.error)
    ensures repeat.Ok? ==> (res == Err(DropItem) <==> repeat.value) && (!repeat.value ==> res == Ok(()))
  {
    var r :- repeat;
    if r then Err(DropItem) else Ok(())
  }

  /** The first item with a fingerprint passes, and a second one with it is dropped. */
  lemma FirstPassesSecondDrops(seen: set<string>, fp: string)
    requires fp !in seen
    ensures Outcome(SetFilters.SetAnswer(seen, Ok(fp))) == Ok(())
    ensures Outcome(SetFilters.SetAnswer(SetFilters.CheckAndSet(seen, fp).1, Ok(fp))) == Err(DropItem)
  {
  }

  /** SetFilterPipeline */
  class SetFilterPipeline {
    const itemMemoryFilter: SetFilters.SetFilter

    constructor (enc: Encoding)
      ensures fresh(itemMemoryFilter) && fresh(itemMemoryFilter.requestSet) && fresh(itemMemoryFilter.itemSet)
      ensures itemMemoryFilter.requestSet.elems == {} && itemMemoryFilter.itemSet.elems == {}
      ensures itemMemoryFilter.enc == enc
    {
      itemMemoryFilter := new SetFilters.SetFilter(enc);
    }

    /** pipeline_in; `filterItem` is settings.FILTER_ITEM and `strict` settings.STRICT_FILTER. */
    method PipelineIn(item: map<Key, Val>, filterItem: bool, strict: bool) returns (res: Result<()>)
      requires itemMemoryFilter.requestSet != itemMemoryFilter.itemSet
      modifies itemMemoryFilter.requestSet, itemMemoryFilter.itemSet
      ensures itemMemoryFilter.requestSet.elems == old(itemMemoryFilter.requestSet.elems)
      ensures !filterItem ==> res == Ok(()) && itemMemoryFilter.itemSet.elems == old(itemMemoryFilter.itemSet.elems)
      ensures filterItem ==>
                res == Outcome(SetFilters.SetAnswer(old(itemMemoryFilter.itemSet.elems),
                                                    Fingerprint(ItemTask(item), itemMemoryFilter.enc)))
                && itemMemoryFilter.itemSet.elems
                   == old(itemMemoryFilter.itemSet.elems) + {Fingerprint(ItemTask(item), itemMemoryFilter.enc).value}
    {
      if !filterItem {
        return Ok(());
      }
      var isRepeat, _ := itemMemoryFilter.IsRepeat(ItemTask(item), strict);
      res := Outcome(isRepeat);
    }
  }

  /** RedisSetFilterPipeline */
  class RedisSetFilterPipeline {
    const itemRedisFilter: RedisSetFilters.RedisSetFilter

    constructor (store: Redis.Store, keys: Redis.KeySettings, enc: Encoding)
      ensures fresh(itemRedisFilter)
      ensures itemRedisFilter.store == store && itemRedisFilter.keys == keys && itemRedisFilter.enc == enc
    {
      itemRedisFilter := new RedisSetFilters.RedisSetFilter(store, keys, enc);
    }

    /** pipeline_in; `filterItem` is settings.FILTER_ITEM and `strict` settings.STRICT_FILTER. */
    method PipelineIn(item: map<Key, Val>, filterItem: bool, strict: bool) returns (res: Result<()>)
      modifies itemRedisFilter.store
      ensures !filterItem ==> res == Ok(()) && itemRedisFilter.store.db == old(itemRedisFilter.store.db)
      ensures filterItem ==>
                res == Outcome(RedisSetFilters.RedisAnswer(old(itemRedisFilter.store.db), itemRedisFilter.keys(Redis.FilterItem),
                                                           Fingerprint(ItemTask(item), itemRedisFilter.enc)))
                && itemRedisFilter.store.db
                   == RedisSetFilters.SetJudge(old(itemRedisFilter.store.db), itemRedisFilter.keys(Redis.FilterItem),
                                               BText(Fingerprint(ItemTask(item), itemRedisFilter.enc).value)).1
    {
      if !filterItem {
        return Ok(());
      }
      var isRepeat, _ := itemRedisFilter.IsRepeat(ItemTask(item), strict);
      res := Outcome(isRepeat);
    }
  }

  /** RedisBloomFilterPipeline */
  class RedisBloomFilterPipeline {
    const itemRedisBloomFilter: BloomFilters.RedisBloomFilter

    constructor (store: Redis.Store, keys: Redis.KeySettings, enc: Encoding, bit: nat, hashNumber: nat)
      ensures fresh(itemRedisBloomFilter)
      ensures itemRedisBloomFilter.store == store && itemRedisBloomFilter.keys == keys
      ensures itemRedisBloomFilter.enc == enc
      ensures itemRedisBloomFilter.bit == bit && itemRedisBloomFilter.hashNumber == hashNumber
    {
      itemRedisBloomFilter := new BloomFilters.RedisBloomFilter(store, keys, enc, bit, hashNumber);
    }

    /** pipeline_in; `filterItem` is settings.FILTER_ITEM and `strict` settings.STRICT_FILTER. */
    method PipelineIn(item: map<Key, Val>, filterItem: bool, strict: bool) returns (res: Result<()>)
      modifies itemRedisBloomFilter.store
      ensures !filterItem ==> res == Ok(()) && itemRedisBloomFilter.store.db == old(itemRedisBloomFilter.store.db)
      ensures filterItem ==>
                res == Outcome(BloomFilters.BloomAnswer(
                                 Redis.Bits(old(itemRedisBloomFilter.store.db), itemRedisBloomFilter.keys(Redis.FilterItem)),
                                 Fingerprint(ItemTask(item), itemRedisBloomFilter.enc),
                                 itemRedisBloomFilter.hashNumber, itemRedisBloomFilter.M()))
                && Redis.Bits(itemRedisBloomFilter.store.db, itemRedisBloomFilter.keys(Redis.FilterItem))
                   == BloomFilters.BloomJudge(
                        Redis.Bits(old(itemRedisBloomFilter.store.db), itemRedisBloomFilter.keys(Redis.FilterItem)),
                        Fingerprint(ItemTask(item), itemRedisBloomFilter.enc).value,
                        itemRedisBloomFilter.hashNumber, itemRedisBloomFilter.M()).1
    {
      if !filterItem {
        return Ok(());
      }
      var isRepeat, _ := itemRedisBloomFilter.IsRepeat(ItemTask(item), strict);
      res := Outcome(isRepeat);
    }
  }
}
