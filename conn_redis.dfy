/**
 * RedisLockNoWait: a lock that never waits. The lock is a Redis string set
 * with NX to a token unique to the lock object; only the holder of that
 * token deletes it. The key's expiry (`ex=block_timeout`) is kept as a
 * number but not modelled, since the model has no clock on the server.
 */
module RedisLocks {
  import opened Common
  import opened Redis

  /** `block_timeout or 60`: no value, or 0, gives the default hold time. */
  const DefaultBlockTimeout: int := 60

  /** The store holds the lock key with this token. */
  predicate HeldBy(db: Db, name: RKey, token: Bytes) {
    name in db.strings && db.strings[name] == token
  }

  /** `set(name, token, nx=True)`: whether it took the lock, and the store afterwards. */
  function AcquireDb(db: Db, name: RKey, token: Bytes): (r: (bool, Db))
    ensures r.0 <==> !Exists(db, name)
    ensures r.0 ==> HeldBy(r.1, name, token)
    ensures !r.0 ==> r.1 == db
  {
    if Exists(db, name) then (false, db) else (true, db.(strings := db.strings[name := token]))
  }

  /** release(): deletes the key only when it still holds this token. */
  function ReleaseDb(db: Db, name: RKey, token: Bytes): (r: (bool, Db))
    ensures r.0 <==> HeldBy(db, name, token)
    ensures r.0 ==> !Exists(r.1, name) && r.1 == Delete(db, name)
    ensures !r.0 ==> r.1 == db
  {
    if HeldBy(db, name, token) then (true, Delete(db, name)) else (false, db)
  }

  /**
   * While one lock object holds the key, another object's acquire fails
   * and its release does nothing: both leave the store as it was, and the
   * holder still holds the key.
   */
  lemma Exclusion(db: Db, name: RKey, holder: Bytes, other: Bytes)
    requires HeldBy(db, name, holder) && other != holder
    ensures AcquireDb(db, name, other) == (false, db)
    ensures ReleaseDb(db, name, other) == (false, db)
  {
  }

  /**
   * Acquiring a free lock and releasing it again succeeds both times; the
   * store ends as DEL of the lock key on the original store, so every
   * string is as it was and the key no longer exists.
   */
  lemma AcquireThenRelease(db: Db, name: RKey, token: Bytes)
    requires !Exists(db, name)
    ensures AcquireDb(db, name, token).0
    ensures var after := ReleaseDb(AcquireDb(db, name, token).1, name, token);
            after.0 && after.1 == Delete(db, name) && after.1.strings == db.strings
  {
    var held := AcquireDb(db, name, token).1;
    assert name !in db.strings;
    assert held.strings - {name} == db.strings;
  }

  /** Two lock objects: the second to acquire a free key fails until the first releases it. */
  lemma SecondAcquireFails(db: Db, name: RKey, first: Bytes, second: Bytes)
    requires !Exists(db, name) && first != second
    ensures var held := AcquireDb(db, name, first);
            held.0 && !AcquireDb(held.1, name, second).0
            && AcquireDb(ReleaseDb(held.1, name, first).1, name, second).0
  {
    var held := AcquireDb(db, name, first);
    Exclusion(held.1, name, first, second);
  }

  class RedisLockNoWait {
    const store: Store
    const lockName: RKey
    const blockTimeout: int
    const autoLock: bool
    /** `uuid.uuid1().hex.encode()`: the caller supplies a token no other lock object has. */
    const token: Bytes
    var lockSuccess: bool

    constructor (store: Store, lockName: RKey, blockTimeout: Option<int>, autoLock: bool, token: Bytes)
      ensures this.store == store && this.lockName == lockName && this.autoLock == autoLock
      ensures this.token == token
      ensures this.blockTimeout == (if blockTimeout.None? || blockTimeout.value == 0 then DefaultBlockTimeout
                                    else blockTimeout.value)
      ensures !lockSuccess
    {
      this.store := store;
      this.lockName := lockName;
      this.blockTimeout := if blockTimeout.None? || blockTimeout.value == 0 then DefaultBlockTimeout
                           else blockTimeout.value;
      this.autoLock := autoLock;
      this.token := token;
      lockSuccess := false;
    }

    /** acquire(): lock_success records whether the key was free. */
    method Acquire() returns (ok: bool)
      modifies this, store
      ensures (ok, store.db) == AcquireDb(old(store.db), lockName, token)
      ensures lockSuccess == ok
    {
      ok := store.SetNx(lockName, token);
      lockSuccess := ok;
    }

    /** release() */
    method Release() returns (ok: bool)
      modifies store
      ensures (ok, store.db) == ReleaseDb(old(store.db), lockName, token)
    {
      var v := store.Get(lockName);
      if v == Some(token) {
        ok := store.Del(lockName);
      } else {
        ok := false;
      }
    }

    /** exists() */
    method KeyExists() returns (b: bool)
      ensures b <==> Exists(store.db, lockName)
    {
      b := store.KeyExists(lockName);
    }

    /** `with lock:` acquires only when auto_lock is set. */
    method Enter()
      modifies this, store
      ensures autoLock ==> (lockSuccess, store.db) == AcquireDb(old(store.db), lockName, token)
      ensures !autoLock ==> lockSuccess == old(lockSuccess) && store.db == old(store.db)
    {
      if autoLock {
        var _ := Acquire();
      }
    }

    /** Leaving the `with` block releases only when the acquire succeeded. */
    method Exit()
      modifies store
      ensures lockSuccess ==> store.db == ReleaseDb(old(store.db), lockName, token).1
      ensures !lockSuccess ==> store.db == old(store.db)
    {
      if lockSuccess {
        var _ := Release();
      }
    }
  }
}
