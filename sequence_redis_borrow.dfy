/**
 * sequence/sequence_redis_borrow.py: the borrow queue, a Redis list of
 * compressed pickles. put pushes on the right; get pops on the left without
 * blocking.
 */
module BorrowRedisSequences {
  import opened Common
  import Requests
  import Redis
  import MemorySequences

  /** `zlib.compress(pickle.dumps(obj))` of a request: its whole state. */
  function Pickle(r: Requests.Request): Bytes {
    BPickle(r.attrs, r.verifyDefaulted)
  }

  /** `pickle.loads(zlib.decompress(b))`: only a pickle loads. */
  function Unpickle(b: Bytes): (res: Result<Requests.Request>)
    ensures res.Ok? <==> b.BPickle?
  {
    if b.BPickle? then Ok(Requests.Request(b.attrs, b.verifyDefaulted)) else Err(ValueError)
  }

  /** Whether `if result:` passes for popped bytes: only the empty string is falsy. */
  predicate BytesTruthy(b: Bytes) {
    !(b.BText? && b.s == "")
  }

  /** Loading what put stored gives back an equal request. */
  lemma UnpickleOfPickle(r: Requests.Request)
    ensures Unpickle(Pickle(r)) == Ok(r)
    ensures BytesTruthy(Pickle(r))
  {
  }

  /** FIFORequestBorrowRedisSequence */
  class BorrowRedisSequence {
    const store: Redis.Store
    /** get_redis_key's value. */
    const key: Redis.RKey

    function Contents(): seq<Bytes>
      reads store
    {
      Redis.List(store.db, key)
    }

    constructor (store: Redis.Store, key: Redis.RKey)
      ensures this.store == store && this.key == key
    {
      this.store := store;
      this.key := key;
    }

    /** put: RPUSH of the compressed pickle. */
    method Put(obj: Requests.Request)
      modifies store
      ensures Contents() == old(Contents()) + [Pickle(obj)]
      ensures store.db == Redis.WithList(old(store.db), key, Contents())
    {
      store.RPush(key, Pickle(obj));
    }

    /** get: LPOP, never blocking; None when the list is empty. */
    method Get() returns (res: Result<Option<Requests.Request>>)
      modifies store
      ensures old(Contents()) == [] ==> res == Ok(None) && store.db == old(store.db)
      ensures old(Contents()) != [] ==>
                store.db == Redis.WithList(old(store.db), key, MemorySequences.TakeFirst(old(Contents())).1)
      ensures old(Contents()) != [] && BytesTruthy(old(Contents())[0]) ==>
                (Unpickle(old(Contents())[0]).Ok? <==> res.Ok?)
                && (res.Ok? ==> res.value == Some(Unpickle(old(Contents())[0]).value))
      ensures old(Contents()) != [] && !BytesTruthy(old(Contents())[0]) ==> res == Ok(None)
    {
      var popped := store.LPop(key);
      if popped.None? || !BytesTruthy(popped.value) {
        return Ok(None);
      }
      var r := Unpickle(popped.value);
      if r.Err? {
        return Err(r.error);
      }
      return Ok(Some(r.value));
    }

    /** empty: LLEN == 0. */
    method Empty() returns (b: bool)
      ensures b <==> Contents() == []
    {
      var n := store.LLen(key);
      b := n == 0;
    }

    /** qsize: LLEN. */
    method QSize() returns (n: nat)
      ensures n == |Contents()|
    {
      n := store.LLen(key);
    }
  }
}
