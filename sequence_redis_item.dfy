/**
 * sequence/sequence_redis_item.py: the item queues in Redis. They reuse
 * the request list queues and change only the key, so items are pushed as
 * their to_json() text and popped through load_from_json.
 */
module ItemRedisSequences {
  import opened Common
  import Requests
  import Redis
  import MemorySequences
  import opened Tasks
  import opened RequestRedisSequences

  /** `FIFOItemRedisSequence()`: FIFORequestRedisSequence with get_redis_key giving the item key. */
  method NewFifoItemRedisSequence(store: Redis.Store, keys: Redis.KeySettings, d: Requests.Defaults)
    returns (q: ListRedisSequence)
    ensures fresh(q) && q.store == store && q.key == keys(Redis.QueueItem) && q.popEnd == Left
    ensures q.defaults == d
  {
    q := new ListRedisSequence(store, keys(Redis.QueueItem), Left, d);
  }

  /**
   * `LIFOItemRedisSequence()`: its bases are LIFORequestRedisSequence, then
   * FIFOItemRedisSequence. get resolves to the first (BRPOP), and
   * get_redis_key, which the first does not define, to the second (the
   * item key).
   */
  method NewLifoItemRedisSequence(store: Redis.Store, keys: Redis.KeySettings, d: Requests.Defaults)
    returns (q: ListRedisSequence)
    ensures fresh(q) && q.store == store && q.key == keys(Redis.QueueItem) && q.popEnd == Right
    ensures q.defaults == d
  {
    q := new ListRedisSequence(store, keys(Redis.QueueItem), Right, d);
  }

  /**
   * As written, get on an item queue rebuilds the popped item with
   * load_from_json, as a Request: an item with no `url` field cannot come
   * back out of the queue at all.
   */
  lemma ItemGetAsWritten(fields: map<Key, Val>, d: Requests.Defaults)
    requires Url !in fields
    ensures Reload(TaskJson(ItemTask(fields), d)).Err?
  {
    var m := Requests.Unpickled(fields);
    assert Url !in m;
  }

  /** The item concretely: `{'title': 'x'}` is put, and get raises instead of returning it. */
  lemma ItemGetCounterexample(d: Requests.Defaults)
    ensures Reload(TaskJson(ItemTask(map[K("title") := VStr("x")]), d)).Err?
  {
    ItemGetAsWritten(map[K("title") := VStr("x")], d);
  }

  /** What get on an item queue evidently should do: json.loads the popped text into the item's fields. */
  function ReloadItem(b: Bytes): (res: Result<Option<map<Key, Val>>>)
    ensures res.Ok? <==> b.BJson?
  {
    var f :- JsonLoads(b);
    Ok(Some(f))
  }

  /** With that get, every item put comes back with the same fields. */
  lemma ItemRoundTrip(fields: map<Key, Val>, d: Requests.Defaults)
    ensures ReloadItem(TaskJson(ItemTask(fields), d)) == Ok(Some(fields))
  {
  }

  /** The corrected get: pop at the queue's end and load the item's fields. */
  method GetItem(q: ListRedisSequence) returns (res: Result<Option<map<Key, Val>>>)
    modifies q.store
    ensures old(q.Contents()) == [] ==> res == Ok(None) && q.store.db == old(q.store.db)
    ensures old(q.Contents()) != [] ==>
              Take(q.popEnd, old(q.Contents())).0.Some?
              && res == ReloadItem(Take(q.popEnd, old(q.Contents())).0.value)
              && q.store.db == Redis.WithList(old(q.store.db), q.key, Take(q.popEnd, old(q.Contents())).1)
  {
    var popped: Option<Bytes>;
    if q.popEnd == Left {
      popped := q.store.LPop(q.key);
    } else {
      popped := q.store.RPop(q.key);
    }
    if popped.None? {
      return Ok(None);
    }
    res := ReloadItem(popped.value);
  }
}
