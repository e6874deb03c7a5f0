/**
 * sequence/sequence_redis_request.py: request queues kept in Redis. The
 * FIFO and LIFO queues are a list (RPUSH, then BLPOP or BRPOP); the
 * priority queue is a sorted set scored by the request's priority (ZADD,
 * BZPOPMIN). Objects travel as their to_json() text and come back through
 * LoadRequest.load_from_json.
 */
module RequestRedisSequences {
  import opened Common
  import Requests
  import Redis
  import MemorySequences
  import opened Tasks

  /** The end a list queue's get pops from: BLPOP (FIFO) or BRPOP (LIFO). */
  datatype End = Left | Right

  /** What a get does to the list contents q. */
  function Take(e: End, q: seq<Bytes>): (Option<Bytes>, seq<Bytes>) {
    if e == Left then MemorySequences.TakeFirst(q) else MemorySequences.TakeLast(q)
  }

  /** A popped entry: `LoadRequest.load_from_json(result[-1].decode())`, whose errors propagate. */
  function Reload(b: Bytes): (res: Result<Option<Requests.Request>>)
    ensures res.Ok? <==> Requests.LoadFromJson(b).Ok?
    ensures res.Ok? ==> res.value == Some(Requests.LoadFromJson(b).value)
  {
    var r :- Requests.LoadFromJson(b);
    Ok(Some(r))
  }

  /**
   * FIFORequestRedisSequence and LIFORequestRedisSequence, and the item
   * queues that inherit from them: a list at `key`, popped at `popEnd`.
   */
  class ListRedisSequence {
    const store: Redis.Store
    const key: Redis.RKey
    const popEnd: End
    /** The class defaults to_json compares the downloader fields with. */
    const defaults: Requests.Defaults

    function Contents(): seq<Bytes>
      reads store
    {
      Redis.List(store.db, key)
    }

    /** `__new__` fixes the key get_redis_key resolves to. */
    constructor (store: Redis.Store, key: Redis.RKey, popEnd: End, defaults: Requests.Defaults)
      ensures this.store == store && this.key == key && this.popEnd == popEnd && this.defaults == defaults
    {
      this.store := store;
      this.key := key;
      this.popEnd := popEnd;
      this.defaults := defaults;
    }

    /** put: RPUSH of the object's JSON. */
    method Put(obj: Task)
      modifies store
      ensures Contents() == old(Contents()) + [TaskJson(obj, defaults)]
      ensures store.db == Redis.WithList(old(store.db), key, Contents())
    {
      store.RPush(key, TaskJson(obj, defaults));
    }

    /** get: pop at popEnd; None once the timeout runs out on an empty list. */
    method Get() returns (res: Result<Option<Requests.Request>>)
      modifies store
      ensures old(Contents()) == [] ==> res == Ok(None) && store.db == old(store.db)
      ensures old(Contents()) != [] ==>
                Take(popEnd, old(Contents())).0.Some?
                && res == Reload(Take(popEnd, old(Contents())).0.value)
                && store.db == Redis.WithList(old(store.db), key, Take(popEnd, old(Contents())).1)
    {
      var popped: Option<Bytes>;
      if popEnd == Left {
        popped := store.LPop(key);
      } else {
        popped := store.RPop(key);
      }
      if popped.None? {
        return Ok(None);
      }
      res := Reload(popped.value);
    }

    /** empty: LLEN == 0. */
    method Empty() returns (b: bool)
      ensures b <==> Contents() == []
    {
      var n := store.LLen(key);
      b := n == 0;
    }
  }

  /** `FIFORequestRedisSequence()`: the request list, popped on the left. */
  method NewFifoRequestRedisSequence(store: Redis.Store, keys: Redis.KeySettings, d: Requests.Defaults)
    returns (q: ListRedisSequence)
    ensures fresh(q) && q.store == store && q.key == keys(Redis.QueueRequest) && q.popEnd == Left
    ensures q.defaults == d
  {
    q := new ListRedisSequence(store, keys(Redis.QueueRequest), Left, d);
  }

  /** `LIFORequestRedisSequence()`: the same key, get overridden to pop on the right. */
  method NewLifoRequestRedisSequence(store: Redis.Store, keys: Redis.KeySettings, d: Requests.Defaults)
    returns (q: ListRedisSequence)
    ensures fresh(q) && q.store == store && q.key == keys(Redis.QueueRequest) && q.popEnd == Right
    ensures q.defaults == d
  {
    q := new ListRedisSequence(store, keys(Redis.QueueRequest), Right, d);
  }

  /** The score put gives a request: `obj.priority`, which must be a number. */
  function Score(r: Requests.Request): (res: Result<int>)
    ensures res.Ok? <==> Priority in r.attrs && r.attrs[Priority].VInt?
    ensures res.Ok? ==> res.value == r.attrs[Priority].i
  {
    var p :- Requests.GetAttr(r, Priority);
    if p.VInt? then Ok(p.i) else Err(TypeError)
  }

  /** PriorityRequestRedisSequence: a sorted set at `key` scored by priority. */
  class PriorityRedisSequence {
    const store: Redis.Store
    const key: Redis.RKey
    const defaults: Requests.Defaults

    function Contents(): map<Bytes, int>
      reads store
    {
      Redis.ZSet(store.db, key)
    }

    constructor (store: Redis.Store, key: Redis.RKey, defaults: Requests.Defaults)
      ensures this.store == store && this.key == key && this.defaults == defaults
    {
      this.store := store;
      this.key := key;
      this.defaults := defaults;
    }

    /** put: ZADD of the request's JSON with its priority as the score. */
    method Put(obj: Requests.Request) returns (err: Option<Exc>)
      modifies store
      ensures err.Some? <==> Score(obj).Err?
      ensures err.Some? ==> store.db == old(store.db)
      ensures err.None? ==> Contents() == old(Contents())[Requests.ToJson(obj, defaults) := Score(obj).value]
      ensures err.None? ==> store.db == Redis.WithZSet(old(store.db), key, Contents())
    {
      var score := Score(obj);
      if score.Err? {
        return Some(score.error);
      }
      store.ZAdd(key, Requests.ToJson(obj, defaults), score.value);
      return None;
    }

    /** get: BZPOPMIN, a member of least score; None once the timeout runs out. */
    method Get() returns (res: Result<Option<Requests.Request>>)
      modifies store
      ensures old(Contents()) == map[] ==> res == Ok(None) && store.db == old(store.db)
      ensures old(Contents()) != map[] ==>
                exists m :: Redis.IsMin(old(Contents()), m) && res == Reload(m)
                            && store.db == Redis.WithZSet(old(store.db), key, old(Contents()) - {m})
    {
      var popped := store.ZPopMin(key);
      if popped.None? {
        return Ok(None);
      }
      res := Reload(popped.value.0);
    }

    /** empty: ZCARD == 0. */
    method Empty() returns (b: bool)
      ensures b <==> Contents() == map[]
    {
      var n := store.ZCard(key);
      b := n == 0;
    }
  }

  /** `PriorityRequestRedisSequence()`: a sorted set at the request key. */
  method NewPriorityRequestRedisSequence(store: Redis.Store, keys: Redis.KeySettings, d: Requests.Defaults)
    returns (q: PriorityRedisSequence)
    ensures fresh(q) && q.store == store && q.key == keys(Redis.QueueRequest) && q.defaults == d
  {
    q := new PriorityRedisSequence(store, keys(Redis.QueueRequest), d);
  }

  /**
   * A request queued in Redis and popped again is rebuilt by
   * load_from_json from its to_json: every attribute to_dict kept comes
   * back, and every other constructor parameter takes its default.
   */
  lemma ReloadOfPut(r: Requests.Request, d: Requests.Defaults, k: Key)
    requires Requests.WellFormed(r)
    requires Url in r.attrs && Truthy(r.attrs[Url])
    ensures Reload(TaskJson(RequestTask(r), d)).Ok?
    ensures Reload(TaskJson(RequestTask(r), d)).value.Some?
    ensures k in Requests.ToDict(r, d) ==>
              Reload(TaskJson(RequestTask(r), d)).value.value.attrs[k] == r.attrs[k]
  {
    Requests.LoadFromDictOfToDict(r, d, k);
  }

  /** Adding a member twice leaves it once, with the later score. */
  lemma ZAddTwice(z: map<Bytes, int>, m: Bytes, pa: int, pb: int)
    ensures z[m := pa][m := pb] == z[m := pb]
  {
  }

  /**
   * The sorted set holds each JSON text once: two requests with identical
   * JSON put on the priority queue leave one member, scored by the later
   * put, where a list queue would hold both.
   */
  lemma DuplicatesCollapse(z: map<Bytes, int>, l: seq<Bytes>, a: Requests.Request, b: Requests.Request,
                           d: Requests.Defaults, pa: int, pb: int)
    requires Requests.ToJson(a, d) == Requests.ToJson(b, d)
    ensures z[Requests.ToJson(a, d) := pa][Requests.ToJson(b, d) := pb]
            == z[Requests.ToJson(a, d) := pb]
    ensures |z[Requests.ToJson(a, d) := pa][Requests.ToJson(b, d) := pb]| <= |z| + 1
    ensures multiset(l + [TaskJson(RequestTask(a), d)] + [TaskJson(RequestTask(b), d)])[TaskJson(RequestTask(a), d)]
            == multiset(l)[TaskJson(RequestTask(a), d)] + 2
  {
    ZAddTwice(z, Requests.ToJson(a, d), pa, pb);
    assert z[Requests.ToJson(a, d) := pb].Keys == z.Keys + {Requests.ToJson(a, d)};
  }
}
