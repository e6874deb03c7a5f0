/**
 * The Redis server the spiders share, as abstract state: one map per value
 * type, keyed by the formatted key templates of settings.py. Each command
 * the modelled code issues is a method of `Store`, specified by a pure
 * function on `Db`.
 */
module Redis {
  import opened Common

  /** The key templates of settings.py (`'{redis_key}:master'`, `'{redis_key}:request'`, …). */
  datatype KeyKind =
    | MasterKey          // {redis_key}:master
    | LockKey            // {redis_key}:lock
    | StopKey            // {redis_key}:stop
    | QueueRequest       // {redis_key}:request
    | BadRequest         // {redis_key}:requestFailed
    | FilterRequest      // {redis_key}:filter:request
    | QueueItem          // {redis_key}:item
    | BadItem            // {redis_key}:itemFailed
    | FilterItem         // {redis_key}:filter:item
    | Heartbeat          // {redis_key}:heartbeat
    | HeartbeatFailed    // {redis_key}:heartbeat_failed
    | QueueRequestBorrow // REDIS_KEY_QUEUE_REQUEST_BORROW, which settings.py does not define
    | Record             // REDIS_KEY_RECORD, which settings.py does not define

  /**
   * A Redis key: a template formatted with a redis_key, or still the raw
   * template text, or a key with text appended (`REDIS_KEY_LOCK + 'CheckHeart'`).
   */
  datatype RKey = Formatted(redisKey: string, kind: KeyKind) | Template(kind: KeyKind)
                | Suffixed(base: RKey, suffix: string)

  /** What the settings module's REDIS_KEY_* names hold at some moment. */
  type KeySettings = KeyKind -> RKey

  /** settings.py as shipped: every key setting is its raw template. */
  const TemplateKeys: KeySettings := k => Template(k)

  /** `template.format(redis_key=…)`; a key already formatted has no placeholder left. */
  function Format(k: RKey, redisKey: string): RKey {
    match k
    case Template(kind) => Formatted(redisKey, kind)
    case _ => k
  }

  /** The server's data, one map per value type. */
  datatype Db = Db(
    strings: map<RKey, Bytes>,
    lists: map<RKey, seq<Bytes>>,
    sets: map<RKey, set<Bytes>>,
    zsets: map<RKey, map<Bytes, int>>,
    hashes: map<RKey, map<Bytes, Bytes>>,
    bits: map<RKey, set<nat>>)

  const EmptyDb: Db := Db(map[], map[], map[], map[], map[], map[])

  /** LRANGE k 0 -1: a missing key reads as the empty list. */
  function List(db: Db, k: RKey): seq<Bytes> {
    if k in db.lists then db.lists[k] else []
  }

  /** SMEMBERS k */
  function Members(db: Db, k: RKey): set<Bytes> {
    if k in db.sets then db.sets[k] else {}
  }

  /** The sorted set at k, member to score. */
  function ZSet(db: Db, k: RKey): map<Bytes, int> {
    if k in db.zsets then db.zsets[k] else map[]
  }

  /** HGETALL k */
  function Hash(db: Db, k: RKey): map<Bytes, Bytes> {
    if k in db.hashes then db.hashes[k] else map[]
  }

  /** The offsets of the 1 bits of the string at k. */
  function Bits(db: Db, k: RKey): set<nat> {
    if k in db.bits then db.bits[k] else {}
  }

  /**
   * Replace the list at k; Redis deletes a key whose list becomes empty.
   */
  function WithList(db: Db, k: RKey, l: seq<Bytes>): (r: Db)
    ensures List(r, k) == l
    ensures forall j :: j != k ==> List(r, j) == List(db, j)
    ensures r.strings == db.strings && r.sets == db.sets && r.zsets == db.zsets
    ensures r.hashes == db.hashes && r.bits == db.bits
  {
    db.(lists := if l == [] then db.lists - {k} else db.lists[k := l])
  }

  function WithSet(db: Db, k: RKey, s: set<Bytes>): (r: Db)
    ensures Members(r, k) == s
    ensures forall j :: j != k ==> Members(r, j) == Members(db, j)
    ensures r.strings == db.strings && r.lists == db.lists && r.zsets == db.zsets
    ensures r.hashes == db.hashes && r.bits == db.bits
  {
    db.(sets := if s == {} then db.sets - {k} else db.sets[k := s])
  }

  function WithZSet(db: Db, k: RKey, z: map<Bytes, int>): (r: Db)
    ensures ZSet(r, k) == z
    ensures forall j :: j != k ==> ZSet(r, j) == ZSet(db, j)
    ensures r.strings == db.strings && r.lists == db.lists && r.sets == db.sets
    ensures r.hashes == db.hashes && r.bits == db.bits
  {
    db.(zsets := if z == map[] then db.zsets - {k} else db.zsets[k := z])
  }

  function WithHash(db: Db, k: RKey, h: map<Bytes, Bytes>): (r: Db)
    ensures Hash(r, k) == h
    ensures forall j :: j != k ==> Hash(r, j) == Hash(db, j)
    ensures r.strings == db.strings && r.lists == db.lists && r.sets == db.sets
    ensures r.zsets == db.zsets && r.bits == db.bits
  {
    db.(hashes := if h == map[] then db.hashes - {k} else db.hashes[k := h])
  }

  /** EXISTS k: a key exists when it holds a string or a non-empty collection. */
  predicate Exists(db: Db, k: RKey) {
    k in db.strings || |List(db, k)| > 0 || |Members(db, k)| > 0 || |ZSet(db, k)| > 0
    || |Hash(db, k)| > 0 || |Bits(db, k)| > 0
  }

  /** No map holds an entry for k, so k does not exist. */
  predicate Gone(db: Db, k: RKey) {
    k !in db.strings && k !in db.lists && k !in db.sets && k !in db.zsets && k !in db.hashes && k !in db.bits
  }

  /** DEL k */
  function Delete(db: Db, k: RKey): (r: Db)
    ensures !Exists(r, k) && Gone(r, k)
    ensures forall j :: Gone(db, j) ==> Gone(r, j)
  {
    Db(db.strings - {k}, db.lists - {k}, db.sets - {k}, db.zsets - {k}, db.hashes - {k}, db.bits - {k})
  }

  /** DEL k leaves the lists, sets and hashes of every other key as they were. */
  lemma DeleteKeeps(db: Db, k: RKey, j: RKey)
    requires j != k
    ensures List(Delete(db, k), j) == List(db, j) && Members(Delete(db, k), j) == Members(db, j)
    ensures Hash(Delete(db, k), j) == Hash(db, j)
    ensures (j in Delete(db, k).strings) == (j in db.strings)
  {
  }

  /** DEL k leaves the bits and sorted sets of every other key as they were. */
  lemma DeleteKeepsBits(db: Db, k: RKey, j: RKey)
    requires j != k
    ensures Bits(Delete(db, k), j) == Bits(db, j) && ZSet(Delete(db, k), j) == ZSet(db, j)
  {
  }

  /** A member of z whose score no other member undercuts. */
  predicate IsMin(z: map<Bytes, int>, m: Bytes) {
    m in z && forall o :: o in z ==> z[m] <= z[o]
  }

  /** A non-empty sorted set has a member of least score. */
  lemma {:induction false} MinExists(z: map<Bytes, int>)
    requires z != map[]
    ensures exists m :: IsMin(z, m)
    decreases |z|
  {
    var k :| k in z;
    var rest := z - {k};
    assert forall o :: o in z ==> o == k || (o in rest && rest[o] == z[o]);
    if rest == map[] {
      assert IsMin(z, k);
    } else {
      assert |rest| < |z| by {
        assert rest.Keys < z.Keys;
      }
      MinExists(rest);
      var m :| IsMin(rest, m);
      if z[k] <= z[m] {
        assert IsMin(z, k);
      } else {
        assert IsMin(z, m);
      }
    }
  }

  /** Whether items lists the fields of hash h, each once, with their values, in some order. */
  predicate Enumerates(items: seq<(Bytes, Bytes)>, h: map<Bytes, Bytes>) {
    (forall i :: 0 <= i < |items| ==> items[i].0 in h && h[items[i].0] == items[i].1)
    && (forall i, j :: 0 <= i < j < |items| ==> items[i].0 != items[j].0)
    && (forall f :: f in h ==> exists i :: 0 <= i < |items| && items[i].0 == f)
  }

  /** The Redis connection, shared by every object that issues commands. */
  class Store {
    var db: Db

    constructor ()
      ensures db == EmptyDb
    {
      db := EmptyDb;
    }

    /** RPUSH k v */
    method RPush(k: RKey, v: Bytes)
      modifies this
      ensures db == WithList(old(db), k, List(old(db), k) + [v])
    {
      db := WithList(db, k, List(db, k) + [v]);
    }

    /** LPOP k, and BLPOP k with the timeout running out on an empty list. */
    method LPop(k: RKey) returns (v: Option<Bytes>)
      modifies this
      ensures List(old(db), k) == [] ==> v.None? && db == old(db)
      ensures List(old(db), k) != [] ==>
                v == Some(List(old(db), k)[0]) && db == WithList(old(db), k, List(old(db), k)[1..])
    {
      var l := List(db, k);
      if l == [] {
        return None;
      }
      db := WithList(db, k, l[1..]);
      return Some(l[0]);
    }

    /** BRPOP k, with the timeout running out on an empty list. */
    method RPop(k: RKey) returns (v: Option<Bytes>)
      modifies this
      ensures List(old(db), k) == [] ==> v.None? && db == old(db)
      ensures List(old(db), k) != [] ==>
                v == Some(List(old(db), k)[|List(old(db), k)| - 1])
                && db == WithList(old(db), k, List(old(db), k)[..|List(old(db), k)| - 1])
    {
      var l := List(db, k);
      if l == [] {
        return None;
      }
      db := WithList(db, k, l[..|l| - 1]);
      return Some(l[|l| - 1]);
    }

    /** LLEN k */
    method LLen(k: RKey) returns (n: nat)
      ensures n == |List(db, k)|
    {
      n := |List(db, k)|;
    }

    /** ZADD k {m: score}: adds m, or moves it to the new score. */
    method ZAdd(k: RKey, m: Bytes, score: int)
      modifies this
      ensures db == WithZSet(old(db), k, ZSet(old(db), k)[m := score])
    {
      db := WithZSet(db, k, ZSet(db, k)[m := score]);
    }

    /** BZPOPMIN k: a member of least score, with its score; None once the timeout runs out. */
    method ZPopMin(k: RKey) returns (v: Option<(Bytes, int)>)
      modifies this
      ensures ZSet(old(db), k) == map[] ==> v.None? && db == old(db)
      ensures ZSet(old(db), k) != map[] ==>
                v.Some? && IsMin(ZSet(old(db), k), v.value.0) && v.value.1 == ZSet(old(db), k)[v.value.0]
                && db == WithZSet(old(db), k, ZSet(old(db), k) - {v.value.0})
    {
      var z := ZSet(db, k);
      if z == map[] {
        return None;
      }
      MinExists(z);
      var m :| IsMin(z, m);
      db := WithZSet(db, k, z - {m});
      return Some((m, z[m]));
    }

    /** ZCARD k */
    method ZCard(k: RKey) returns (n: nat)
      ensures n == |ZSet(db, k)|
    {
      n := |ZSet(db, k)|;
    }

    /** SADD k m: whether m was new. */
    method SAdd(k: RKey, m: Bytes) returns (added: bool)
      modifies this
      ensures added <==> m !in Members(old(db), k)
      ensures db == WithSet(old(db), k, Members(old(db), k) + {m})
    {
      added := m !in Members(db, k);
      db := WithSet(db, k, Members(db, k) + {m});
    }

    /** SMEMBERS k */
    method SMembers(k: RKey) returns (s: set<Bytes>)
      ensures s == Members(db, k)
    {
      s := Members(db, k);
    }

    /** SISMEMBER k m */
    method SIsMember(k: RKey, m: Bytes) returns (b: bool)
      ensures b <==> m in Members(db, k)
    {
      b := m in Members(db, k);
    }

    /** SREM k m */
    method SRem(k: RKey, m: Bytes)
      modifies this
      ensures db == WithSet(old(db), k, Members(old(db), k) - {m})
    {
      db := WithSet(db, k, Members(db, k) - {m});
    }

    /** SPOP k: takes out some member, None when the set is empty. */
    method SPop(k: RKey) returns (v: Option<Bytes>)
      modifies this
      ensures Members(old(db), k) == {} ==> v.None? && db == old(db)
      ensures Members(old(db), k) != {} ==>
                v.Some? && v.value in Members(old(db), k)
                && db == WithSet(old(db), k, Members(old(db), k) - {v.value})
    {
      var s := Members(db, k);
      if s == {} {
        return None;
      }
      var m :| m in s;
      db := WithSet(db, k, s - {m});
      return Some(m);
    }

    /** HSET k f v */
    method HSet(k: RKey, f: Bytes, v: Bytes)
      modifies this
      ensures db == WithHash(old(db), k, Hash(old(db), k)[f := v])
    {
      db := WithHash(db, k, Hash(db, k)[f := v]);
    }

    /** HDEL k f */
    method HDel(k: RKey, f: Bytes)
      modifies this
      ensures db == WithHash(old(db), k, Hash(old(db), k) - {f})
    {
      db := WithHash(db, k, Hash(db, k) - {f});
    }

    /** HGETALL k */
    method HGetAll(k: RKey) returns (h: map<Bytes, Bytes>)
      ensures h == Hash(db, k)
    {
      h := Hash(db, k);
    }

    /** `hgetall(k).items()`: the reply's field-value pairs, in the order the server sends them. */
    method HGetAllItems(k: RKey) returns (items: seq<(Bytes, Bytes)>)
      ensures Enumerates(items, Hash(db, k))
    {
      var h := Hash(db, k);
      var rest := h.Keys;
      items := [];
      while rest != {}
        invariant rest <= h.Keys
        invariant forall i :: 0 <= i < |items| ==> items[i].0 in h && h[items[i].0] == items[i].1 && items[i].0 !in rest
        invariant forall i, j :: 0 <= i < j < |items| ==> items[i].0 != items[j].0
        invariant forall f :: f in h ==> f in rest || exists i :: 0 <= i < |items| && items[i].0 == f
        decreases |rest|
      {
        var f :| f in rest;
        ghost var before := items;
        items := items + [(f, h[f])];
        forall g | g in h
          ensures g in rest - {f} || exists i :: 0 <= i < |items| && items[i].0 == g
        {
          if g == f {
            assert items[|items| - 1].0 == g;
          } else if g !in rest {
            var i :| 0 <= i < |before| && before[i].0 == g;
            assert items[i] == before[i];
          }
        }
        rest := rest - {f};
      }
    }

    /** HGET k f */
    method HGet(k: RKey, f: Bytes) returns (v: Option<Bytes>)
      ensures f in Hash(db, k) ==> v == Some(Hash(db, k)[f])
      ensures f !in Hash(db, k) ==> v.None?
    {
      var h := Hash(db, k);
      if f in h {
        return Some(h[f]);
      }
      return None;
    }

    /** GET k */
    method Get(k: RKey) returns (v: Option<Bytes>)
      ensures k in db.strings ==> v == Some(db.strings[k])
      ensures k !in db.strings ==> v.None?
    {
      if k in db.strings {
        return Some(db.strings[k]);
      }
      return None;
    }

    /** SET k v */
    method Set(k: RKey, v: Bytes)
      modifies this
      ensures db == old(db).(strings := old(db).strings[k := v])
    {
      db := db.(strings := db.strings[k := v]);
    }

    /** SET k v NX: stores v only when k does not exist, and says whether it did. */
    method SetNx(k: RKey, v: Bytes) returns (ok: bool)
      modifies this
      ensures ok <==> !Exists(old(db), k)
      ensures ok ==> db == old(db).(strings := old(db).strings[k := v])
      ensures !ok ==> db == old(db)
    {
      if Exists(db, k) {
        return false;
      }
      db := db.(strings := db.strings[k := v]);
      return true;
    }

    /** EXISTS k */
    method KeyExists(k: RKey) returns (b: bool)
      ensures b <==> Exists(db, k)
    {
      b := Exists(db, k);
    }

    /** DEL k: whether a key was removed. */
    method Del(k: RKey) returns (removed: bool)
      modifies this
      ensures removed <==> Exists(old(db), k)
      ensures db == Delete(old(db), k)
    {
      removed := Exists(db, k);
      db := Delete(db, k);
    }

    /** GETBIT k offset */
    method GetBit(k: RKey, offset: nat) returns (b: bool)
      ensures b <==> offset in Bits(db, k)
    {
      b := offset in Bits(db, k);
    }

    /** SETBIT k offset 1 */
    method SetBit(k: RKey, offset: nat)
      modifies this
      ensures db == old(db).(bits := old(db).bits[k := Bits(old(db), k) + {offset}])
    {
      db := db.(bits := db.bits[k := Bits(db, k) + {offset}]);
    }
  }
}
