/**
 * DistributiveSpider: the distributed spider's coordination over the
 * shared store. Its constructor formats the key settings with its
 * redis_key; spider_logic checks for a stale master record, competes for
 * the master role, lets the master clear the previous run's state and
 * replay failed requests and items, runs the heartbeat check, and lets the
 * master clear up at the end.
 *
 * The master record: tool/client_heart.py reads it as JSON with a `name`
 * field (and rewrites it in that form on a takeover), while
 * competition_for_master writes '' and start_check reads the raw value as
 * a name. The as-written functions keep the source's forms; the spider's
 * methods use the JSON record `{"name": uuid}` throughout.
 */
module DistributiveSpiders {
  import opened Common
  import opened Redis
  import opened RedisLocks
  import Requests
  import opened ClientHearts
  import SB = SpiderBases
  import Spiders

  // ---------------------------------------------------------------------
  // Key prefixing
  // ---------------------------------------------------------------------

  /** The key settings the constructor formats with redis_key; the failed queues, borrow queue and record are not among them. */
  predicate SpiderPrefixed(kind: KeyKind) {
    match kind
    case QueueItem | MasterKey | StopKey | LockKey | Heartbeat | QueueRequest
       | HeartbeatFailed | FilterRequest | FilterItem => true
    case _ => false
  }

  /** `redis_key or self.name` */
  function RedisKeyOf(redisKey: Option<string>, name: string): (r: string)
    ensures redisKey.Some? && redisKey.value != "" ==> r == redisKey.value
    ensures redisKey.None? || redisKey.value == "" ==> r == name
  {
    if redisKey.None? || redisKey.value == "" then name else redisKey.value
  }

  /** The settings after the constructor's setattr calls. */
  function Prefixed(keys: KeySettings, redisKey: string): KeySettings {
    kind => if SpiderPrefixed(kind) then Format(keys(kind), redisKey) else keys(kind)
  }

  /**
   * From the shipped templates, every prefixed setting becomes its
   * template formatted with redis_key and every other stays the raw
   * template; distinct settings stay distinct keys, and none of them is
   * the heartbeat check's lock.
   */
  lemma PrefixedTemplates(redisKey: string, kind: KeyKind, other: KeyKind)
    ensures Prefixed(TemplateKeys, redisKey)(kind)
            == (if SpiderPrefixed(kind) then Formatted(redisKey, kind) else Template(kind))
    ensures kind != other ==> Prefixed(TemplateKeys, redisKey)(kind) != Prefixed(TemplateKeys, redisKey)(other)
    ensures Prefixed(TemplateKeys, redisKey)(kind) != CheckLock(Prefixed(TemplateKeys, redisKey))
  {
    assert TemplateKeys(kind) == Template(kind) && TemplateKeys(other) == Template(other);
    assert Prefixed(TemplateKeys, redisKey)(other)
           == (if SpiderPrefixed(other) then Formatted(redisKey, other) else Template(other));
  }

  /** A second spider in the same process formats nothing more: the placeholders are gone. */
  lemma PrefixOnce(redisKey: string, again: string, kind: KeyKind)
    ensures Prefixed(Prefixed(TemplateKeys, redisKey), again)(kind) == Prefixed(TemplateKeys, redisKey)(kind)
  {
    PrefixedTemplates(redisKey, kind, kind);
  }

  // ---------------------------------------------------------------------
  // The master record, as written and as the heartbeat check reads it
  // ---------------------------------------------------------------------

  /** What competition_for_master stores as the master record. */
  const BlankRecord: Bytes := BText("")

  /** The record the heartbeat check expects: JSON naming the master. */
  function MasterRecord(uuid: string): (b: Bytes)
    ensures b.BJson? && NameField in b.d && b.d[NameField] == VStr(uuid)
  {
    BJson(map[NameField := VStr(uuid)])
  }

  /**
   * competition_for_master on the store, with the record it writes: an
   * existing master key means no competition; otherwise the no-wait lock
   * decides, the winner writes the record, and leaving `with` releases the
   * lock. Also says whether this spider won.
   */
  function CompeteDb(db: Db, keys: KeySettings, token: Bytes, record: Bytes): (r: (Db, bool))
    ensures Exists(db, keys(MasterKey)) ==> r == (db, false)
    ensures !Exists(db, keys(MasterKey)) ==> (r.1 <==> !Exists(db, keys(LockKey)))
    ensures !r.1 ==> r.0 == db
  {
    if Exists(db, keys(MasterKey)) then (db, false)
    else
      var acquired := AcquireDb(db, keys(LockKey), token);
      if !acquired.0 then (db, false)
      else
        var written := acquired.1.(strings := acquired.1.strings[keys(MasterKey) := record]);
        (ReleaseDb(written, keys(LockKey), token).1, true)
  }

  /** The winner's record is in the store afterwards, and the lock is gone. */
  lemma WinnerWritesRecord(db: Db, keys: KeySettings, token: Bytes, record: Bytes)
    requires keys(MasterKey) != keys(LockKey)
    requires CompeteDb(db, keys, token, record).1
    ensures var after := CompeteDb(db, keys, token, record).0;
            keys(MasterKey) in after.strings && after.strings[keys(MasterKey)] == record
            && !Exists(after, keys(LockKey))
  {
    var acquired := AcquireDb(db, keys(LockKey), token);
    var written := acquired.1.(strings := acquired.1.strings[keys(MasterKey) := record]);
    DeleteKeeps(written, keys(LockKey), keys(MasterKey));
  }

  /**
   * As written, the winner's '' record breaks the heartbeat check: the
   * master check raises JSONDecodeError, and so does every visit to a late
   * client not yet suspected.
   */
  lemma BlankRecordBreaksCheck(db: Db, keys: KeySettings, token: Bytes, uuid: string, failed: set<Bytes>,
                               now: int, c: Check, name: Bytes, value: Bytes)
    requires keys(MasterKey) != keys(LockKey)
    requires CompeteDb(db, keys, token, BlankRecord).1
    requires var after := CompeteDb(db, keys, token, BlankRecord).0;
             c.db.strings == after.strings
    requires LateItem(now, value) && name !in failed
    ensures MasterDone(CompeteDb(db, keys, token, BlankRecord).0, keys) == Err(JsonDecodeError)
    ensures Visit(c, keys, uuid, failed, now, name, value).err == Some(JsonDecodeError)
  {
    WinnerWritesRecord(db, keys, token, BlankRecord);
  }

  /**
   * With the JSON record, the master check reads the master's own
   * heartbeat: as beating() writes it, it answers whether the master has
   * finished distributing; without one, it answers no. The winner of the
   * competition leaves such a record (WinnerWritesRecord).
   */
  lemma RecordReadsMasterHeartbeat(db: Db, keys: KeySettings, uuid: string, t: int, waiting: bool, done: bool)
    requires keys(MasterKey) in db.strings && db.strings[keys(MasterKey)] == MasterRecord(uuid)
    ensures ReadMaster(db, keys) == Ok(map[NameField := VStr(uuid)])
    ensures BText(uuid) in Hash(db, keys(Heartbeat))
            && Hash(db, keys(Heartbeat))[BText(uuid)] == BJson(Heart(t, waiting, true, done))
            ==> MasterDone(db, keys) == Ok(done)
    ensures BText(uuid) !in Hash(db, keys(Heartbeat)) ==> MasterDone(db, keys) == Ok(false)
  {
  }

  /** `if master_name:` then `.decode()` used as the heartbeat field: a JSON record names no client. */
  function RawName(b: Bytes): Option<Bytes> {
    if b.BText? && b.s != "" then Some(b) else None
  }

  /** The name the JSON record holds, if it holds a string one. */
  function RecordName(b: Bytes): Option<Bytes> {
    if b.BJson? && NameField in b.d && b.d[NameField].VStr? then Some(BText(b.d[NameField].s)) else None
  }

  /**
   * start_check, given how the master's name is read off the record: the
   * record goes when the named master has a heartbeat more than five
   * seconds old. A JSON heartbeat without an integer time raises.
   */
  function StartCheckBy(db: Db, keys: KeySettings, now: int, name: Bytes -> Option<Bytes>): Result<Db> {
    var m := keys(MasterKey);
    if m !in db.strings || name(db.strings[m]).None? then Ok(db)
    else
      var field := name(db.strings[m]).value;
      var h := Hash(db, keys(Heartbeat));
      if field !in h || !TruthyBytes(h[field]) then Ok(db)
      else
        match HeartTime(h[field])
        case Err(e) => Err(e)
        case Ok(t) => if now - t > 5 then Ok(Delete(db, m)) else Ok(db)
  }

  /** start_check as written: the raw record is the master's name. */
  function StartCheckAsWritten(db: Db, keys: KeySettings, now: int): Result<Db> {
    StartCheckBy(db, keys, now, RawName)
  }

  /** start_check reading the JSON record's name. */
  function StartCheck(db: Db, keys: KeySettings, now: int): Result<Db> {
    StartCheckBy(db, keys, now, RecordName)
  }

  /** As written, start_check never removes a record that competition_for_master or a takeover wrote. */
  lemma StartCheckAsWrittenKeeps(db: Db, keys: KeySettings, now: int, uuid: string)
    requires keys(MasterKey) in db.strings
    requires db.strings[keys(MasterKey)] == BlankRecord || db.strings[keys(MasterKey)] == MasterRecord(uuid)
    ensures StartCheckAsWritten(db, keys, now) == Ok(db)
  {
  }

  /**
   * start_check with the JSON record deletes it exactly when the named
   * master's heartbeat is more than five seconds old; a master without a
   * heartbeat is kept. Nothing else changes.
   */
  lemma StartCheckPurgesStale(db: Db, keys: KeySettings, now: int, uuid: string, t: int, waiting: bool, done: bool)
    requires keys(MasterKey) in db.strings && db.strings[keys(MasterKey)] == MasterRecord(uuid)
    ensures BText(uuid) !in Hash(db, keys(Heartbeat)) ==> StartCheck(db, keys, now) == Ok(db)
    ensures Hash(db, keys(Heartbeat))[BText(uuid) := BJson(Heart(t, waiting, true, done))] == Hash(db, keys(Heartbeat))
            ==> StartCheck(db, keys, now) == (if now - t > 5 then Ok(Delete(db, keys(MasterKey))) else Ok(db))
  {
    if Hash(db, keys(Heartbeat))[BText(uuid) := BJson(Heart(t, waiting, true, done))] == Hash(db, keys(Heartbeat)) {
      assert BText(uuid) in Hash(db, keys(Heartbeat));
      assert HeartTime(BJson(Heart(t, waiting, true, done))) == Ok(t);
    }
  }

  // ---------------------------------------------------------------------
  // Replaying failed requests and items
  // ---------------------------------------------------------------------

  /**
   * The arguments a member of the failed-request set is replayed with: a
   * None callback becomes 'parse', a string naming a spider attribute is
   * kept, any other callback skips the request (None here).
   */
  function ReplayArgs(member: Bytes, attrs: set<string>): Result<Option<map<Key, Val>>> {
    var d :- JsonLoads(member);
    if Callback !in d then Err(KeyError)
    else
      var cb := d[Callback];
      if cb == VNone then Ok(Some(d[Callback := VStr("parse")]))
      else if cb.VStr? && cb.s in attrs then Ok(Some(d))
      else Ok(None)
  }

  /** One member of the failed-request set, replayed: the request built from its arguments, with its own session. */
  function ReplayRequest(member: Bytes, attrs: set<string>, id: nat): Result<Option<Requests.Request>> {
    var args :- ReplayArgs(member, attrs);
    if args.None? then Ok(None)
    else
      var r0 :- Requests.Init(args.value);
      var r :- SB.WithSession(r0, id);
      Ok(Some(r))
  }

  /** A member is skipped exactly when its callback is neither None nor the name of a spider attribute. */
  lemma ReplaySkips(member: Bytes, attrs: set<string>, id: nat)
    requires member.BJson? && Callback in member.d
    ensures var cb := member.d[Callback];
            ReplayRequest(member, attrs, id) == Ok(None) <==> cb != VNone && !(cb.VStr? && cb.s in attrs)
  {
    var args := ReplayArgs(member, attrs);
    if args.Ok? && args.value.Some? && Requests.Init(args.value.value).Ok? {
      var r0 := Requests.Init(args.value.value).value;
      Requests.SetAttrStores(r0, Session, VObj(id));
      Requests.SetAttrStores(Requests.SetAttr(r0, Session, VObj(id)).value, CookieJar, VJar(id, 0));
    }
  }

  /** A replayed request keeps the callback, 'parse' for none, and has its own session and jar. */
  lemma ReplayedCallback(member: Bytes, attrs: set<string>, id: nat)
    requires member.BJson? && Callback in member.d
    requires ReplayRequest(member, attrs, id).Ok? && ReplayRequest(member, attrs, id).value.Some?
    ensures var r := ReplayRequest(member, attrs, id).value.value;
            var cb := member.d[Callback];
            r.attrs[Callback] == (if cb == VNone then VStr("parse") else cb)
            && r.attrs[Session] == VObj(id) && r.attrs[CookieJar] == VJar(id, 0)
  {
    ReplayBuilds(member, attrs, id);
    ReplayArgsCallback(member, attrs);
    var args := ReplayArgs(member, attrs).value.value;
    var r0 := Requests.Init(args).value;
    Requests.InitAttribute(args, Callback);
    SB.WithSessionSets(r0, id);
    assert r0.attrs[Callback] == args[Callback];
  }

  /** A replayed request is built from its arguments, then given its session. */
  lemma ReplayBuilds(member: Bytes, attrs: set<string>, id: nat)
    requires ReplayRequest(member, attrs, id).Ok? && ReplayRequest(member, attrs, id).value.Some?
    ensures ReplayArgs(member, attrs).Ok? && ReplayArgs(member, attrs).value.Some?
    ensures var args := ReplayArgs(member, attrs).value.value;
            Requests.Init(args).Ok? && SB.WithSession(Requests.Init(args).value, id).Ok?
            && ReplayRequest(member, attrs, id).value.value == SB.WithSession(Requests.Init(args).value, id).value
  {
  }

  /** The arguments keep the member's callback, 'parse' for none. */
  lemma ReplayArgsCallback(member: Bytes, attrs: set<string>)
    requires member.BJson? && Callback in member.d
    requires ReplayArgs(member, attrs).Ok? && ReplayArgs(member, attrs).value.Some?
    ensures var cb := member.d[Callback];
            Callback in ReplayArgs(member, attrs).value.value
            && ReplayArgs(member, attrs).value.value[Callback] == (if cb == VNone then VStr("parse") else cb)
  {
  }

  /** A replay of one member, given the next free object id. */
  type Replayer = (Bytes, nat) -> Result<Option<Requests.Request>>

  /** The spider's replay: ReplayRequest with its attributes. */
  function SpiderReplay(attrs: set<string>): Replayer {
    (m: Bytes, id: nat) => ReplayRequest(m, attrs, id)
  }

  function ReplayAll(ms: seq<Bytes>, replay: Replayer, id: nat): Result<(seq<Requests.Request>, nat)> {
    if ms == [] then Ok(([], id))
    else
      var p :- ReplayAll(ms[..|ms| - 1], replay, id);
      var r :- replay(ms[|ms| - 1], p.1);
      if r.Some? then Ok((p.0 + [r.value], p.1 + 1)) else Ok(p)
  }

  /** A member that raises ends the replay with its exception. */
  lemma ReplayAllRaises(ms: seq<Bytes>, m: Bytes, replay: Replayer, id: nat, put: seq<Requests.Request>, next: nat)
    requires ReplayAll(ms, replay, id) == Ok((put, next))
    requires replay(m, next).Err?
    ensures ReplayAll(ms + [m], replay, id) == Err(replay(m, next).error)
  {
    assert (ms + [m])[..|ms|] == ms;
  }

  /** One more member replayed after the ones before it: put when it is kept, skipped otherwise. */
  lemma ReplayAllStep(ms: seq<Bytes>, m: Bytes, replay: Replayer, id: nat,
                      put: seq<Requests.Request>, next: nat, put': seq<Requests.Request>, next': nat)
    requires ReplayAll(ms, replay, id) == Ok((put, next))
    requires replay(m, next).Ok?
    requires (replay(m, next).value.Some? ==> put' == put + [replay(m, next).value.value] && next' == next + 1)
             && (replay(m, next).value.None? ==> put' == put && next' == next)
    ensures ReplayAll(ms + [m], replay, id) == Ok((put', next'))
  {
    assert (ms + [m])[..|ms|] == ms;
  }

  /** A failed item's class: `item['module'] + '.' + item['init']`, the cache key, and the two names. */
  function ItemClass(member: Bytes): Result<(string, string, string)> {
    var d :- JsonLoads(member);
    if K("module") !in d || K("init") !in d then Err(KeyError)
    else if !d[K("module")].VStr? || !d[K("init")].VStr? then Err(TypeError)
    else Ok((d[K("module")].s + "." + d[K("init")].s, d[K("module")].s, d[K("init")].s))
  }

  /** `cls(**item['data'])`: the fields. */
  function ItemData(member: Bytes): Result<map<Key, Val>> {
    var d :- JsonLoads(member);
    if K("data") !in d then Err(KeyError)
    else if !d[K("data")].VDict? then Err(TypeError)
    else Ok(d[K("data")].m)
  }

  /** An import resolves a module name and a class name to the class, or raises. */
  type Resolver = (string, string) -> Result<Val>

  /** What the item replay puts (class and fields), the class cache, and the keys imported, in order. */
  datatype ItemReplay = ItemReplay(puts: seq<(Val, map<Key, Val>)>, modules: map<string, Val>, imports: seq<string>)

  /** The failed items popped so far, replayed in order with the class cache. */
  function ReplayItems(ms: seq<Bytes>, resolve: Resolver): Result<ItemReplay> {
    if ms == [] then Ok(ItemReplay([], map[], []))
    else
      var p :- ReplayItems(ms[..|ms| - 1], resolve);
      ReplayItem(p, ms[|ms| - 1], resolve)
  }

  /** One failed item after the replay so far: its class from the cache or a new import, then its fields. */
  function ReplayItem(p: ItemReplay, m: Bytes, resolve: Resolver): Result<ItemReplay> {
    var c :- ItemClass(m);
    var key := c.0;
    var cls :- if key in p.modules then Ok(p.modules[key]) else resolve(c.1, c.2);
    var q := if key in p.modules then p else ItemReplay(p.puts, p.modules[key := cls], p.imports + [key]);
    var data :- ItemData(m);
    Ok(q.(puts := q.puts + [(cls, data)]))
  }

  /** One more item replayed after the ones before it. */
  lemma ReplayItemsStep(ms: seq<Bytes>, m: Bytes, resolve: Resolver, p: ItemReplay)
    requires ReplayItems(ms, resolve) == Ok(p)
    ensures ReplayItems(ms + [m], resolve) == ReplayItem(p, m, resolve)
  {
    assert (ms + [m])[..|ms|] == ms;
  }

  /**
   * The body of the replay loop after the SPOP: the class from the cache
   * `cache` (the replay's `modules`) or a new import, then the item to put.
   */
  method ReplayOne(m: Bytes, resolve: Resolver, cache: map<string, Val>, ghost p: ItemReplay)
      returns (err: Option<Exc>, put: (Val, map<Key, Val>), modules: map<string, Val>, ghost p': ItemReplay)
    requires cache == p.modules
    ensures err.Some? ==> ReplayItem(p, m, resolve) == Err(err.value)
    ensures err.None? ==> ReplayItem(p, m, resolve) == Ok(p') && p'.puts == p.puts + [put] && modules == p'.modules
  {
    err, put, modules, p' := None, (VNone, map[]), cache, p;
    var c := ItemClass(m);
    if c.Err? {
      err := Some(c.error);
      return;
    }
    var key := c.value.0;
    var cls;
    if key in modules {
      cls := modules[key];
    } else {
      var resolved := resolve(c.value.1, c.value.2);
      if resolved.Err? {
        err := Some(resolved.error);
        return;
      }
      cls := resolved.value;
      modules := modules[key := cls];
      p' := ItemReplay(p.puts, modules, p.imports + [key]);
    }
    var data := ItemData(m);
    if data.Err? {
      err := Some(data.error);
      return;
    }
    put := (cls, data.value);
    p' := p'.(puts := p.puts + [put]);
  }

  /** The cache key of a failed item whose class names parse, "" otherwise. */
  function ClassKey(m: Bytes): string {
    if ItemClass(m).Ok? then ItemClass(m).value.0 else ""
  }

  /** The module and class names of a failed item whose class names parse. */
  function ClassNames(m: Bytes): (string, string) {
    if ItemClass(m).Ok? then (ItemClass(m).value.1, ItemClass(m).value.2) else ("", "")
  }

  /**
   * A replayed item: its key hits the cache and the cache stays, or it
   * misses and the class its names resolve to is cached and imported; the
   * item is put with the cached class.
   */
  lemma ReplayItemCache(p: ItemReplay, m: Bytes, resolve: Resolver)
    requires ReplayItem(p, m, resolve).Ok?
    ensures var r := ReplayItem(p, m, resolve).value;
            var key := ClassKey(m);
            ItemClass(m).Ok? && ItemData(m).Ok? && key in r.modules
            && r.puts == p.puts + [(r.modules[key], ItemData(m).value)]
            && (key in p.modules ==> r.modules == p.modules && r.imports == p.imports)
            && (key !in p.modules ==> r.modules == p.modules[key := r.modules[key]] && r.imports == p.imports + [key]
                                      && resolve(ClassNames(m).0, ClassNames(m).1) == Ok(r.modules[key]))
  {
  }

  predicate Distinct<T(==)>(s: seq<T>) {
    forall i, j :: 0 <= i < j < |s| ==> s[i] != s[j]
  }

  /** Each cache key is imported once: the imports are distinct and are exactly the cached keys. */
  lemma {:induction false} ImportsOnce(ms: seq<Bytes>, resolve: Resolver)
    requires ReplayItems(ms, resolve).Ok?
    ensures var p := ReplayItems(ms, resolve).value;
            Distinct(p.imports) && forall k :: k in p.modules <==> k in p.imports
  {
    if ms != [] {
      var init := ms[..|ms| - 1];
      ImportsOnce(init, resolve);
      ReplayItemCache(ReplayItems(init, resolve).value, ms[|ms| - 1], resolve);
    }
  }

  /** Every cached key is the key of some item replayed. */
  lemma {:induction false} CachedKeysCome(ms: seq<Bytes>, resolve: Resolver)
    requires ReplayItems(ms, resolve).Ok?
    ensures forall k :: k in ReplayItems(ms, resolve).value.modules ==> exists i :: 0 <= i < |ms| && ClassKey(ms[i]) == k
  {
    if ms != [] {
      var init := ms[..|ms| - 1];
      CachedKeysCome(init, resolve);
      var p := ReplayItems(init, resolve).value;
      var r := ReplayItems(ms, resolve).value;
      ReplayItemCache(p, ms[|ms| - 1], resolve);
      forall k | k in r.modules
        ensures exists i :: 0 <= i < |ms| && ClassKey(ms[i]) == k
      {
        if k in p.modules {
          var i :| 0 <= i < |init| && ClassKey(init[i]) == k;
          assert ms[i] == init[i];
        } else {
          assert ClassKey(ms[|ms| - 1]) == k;
        }
      }
    }
  }

  /** One item put per item replayed, each with the class cached for its key. */
  lemma {:induction false} PutsCached(ms: seq<Bytes>, resolve: Resolver)
    requires ReplayItems(ms, resolve).Ok?
    ensures var p := ReplayItems(ms, resolve).value;
            |p.puts| == |ms|
            && forall i :: 0 <= i < |ms| ==>
                 ItemClass(ms[i]).Ok? && ClassKey(ms[i]) in p.modules && p.puts[i].0 == p.modules[ClassKey(ms[i])]
  {
    if ms != [] {
      var init := ms[..|ms| - 1];
      PutsCached(init, resolve);
      var p := ReplayItems(init, resolve).value;
      var r := ReplayItems(ms, resolve).value;
      ReplayItemCache(p, ms[|ms| - 1], resolve);
      forall i | 0 <= i < |ms|
        ensures ItemClass(ms[i]).Ok? && ClassKey(ms[i]) in r.modules && r.puts[i].0 == r.modules[ClassKey(ms[i])]
      {
        if i < |ms| - 1 {
          assert ms[i] == init[i];
        }
      }
    }
  }

  /** No two items share a cache key with different names (`a.b` + `c` against `a` + `b.c`). */
  predicate NoCollisions(ms: seq<Bytes>) {
    forall i, j :: 0 <= i < |ms| && 0 <= j < |ms| && ClassKey(ms[i]) == ClassKey(ms[j]) ==>
      ClassNames(ms[i]) == ClassNames(ms[j])
  }

  /**
   * Without collisions the cache is invisible: every item is put with the
   * class its own names resolve to.
   */
  lemma {:induction false} CacheResolves(ms: seq<Bytes>, resolve: Resolver)
    requires ReplayItems(ms, resolve).Ok? && NoCollisions(ms)
    ensures |ReplayItems(ms, resolve).value.puts| == |ms|
    ensures forall i :: 0 <= i < |ms| ==>
              resolve(ClassNames(ms[i]).0, ClassNames(ms[i]).1) == Ok(ReplayItems(ms, resolve).value.puts[i].0)
  {
    CachedResolve(ms, resolve);
    PutsCached(ms, resolve);
  }

  lemma {:induction false} CachedResolve(ms: seq<Bytes>, resolve: Resolver)
    requires ReplayItems(ms, resolve).Ok? && NoCollisions(ms)
    ensures var r := ReplayItems(ms, resolve).value;
            forall i :: 0 <= i < |ms| ==>
              ClassKey(ms[i]) in r.modules && resolve(ClassNames(ms[i]).0, ClassNames(ms[i]).1) == Ok(r.modules[ClassKey(ms[i])])
  {
    if ms != [] {
      var init := ms[..|ms| - 1];
      var m := ms[|ms| - 1];
      assert forall i :: 0 <= i < |init| ==> init[i] == ms[i];
      CachedResolve(init, resolve);
      CachedKeysCome(init, resolve);
      var p := ReplayItems(init, resolve).value;
      var r := ReplayItems(ms, resolve).value;
      ReplayItemCache(p, m, resolve);
      if ClassKey(m) in p.modules {
        var j :| 0 <= j < |init| && ClassKey(init[j]) == ClassKey(m);
        assert ClassNames(ms[j]) == ClassNames(m);
      }
      forall i | 0 <= i < |ms|
        ensures ClassKey(ms[i]) in r.modules
                && resolve(ClassNames(ms[i]).0, ClassNames(ms[i]).1) == Ok(r.modules[ClassKey(ms[i])])
      {
        if i < |ms| - 1 {
          assert ms[i] == init[i];
        }
      }
    }
  }

  lemma AppendAssoc<T>(a: seq<T>, b: seq<T>, x: T)
    ensures a + (b + [x]) == (a + b) + [x]
  {
  }

  /** The members of `s`. */
  function Elems<T>(s: seq<T>): set<T> {
    set x | x in s
  }

  /**
   * SPOP until empty, so far: each member popped once, taken from the set
   * as it was, the rest still in it; when `finished`, the set is empty and
   * every member was popped. No other key changes.
   */
  ghost predicate Drained(before: Db, after: Db, k: RKey, popped: seq<Bytes>, finished: bool) {
    Distinct(popped)
    && Elems(popped) !! Members(after, k)
    && Elems(popped) + Members(after, k) == Members(before, k)
    && (finished ==> Members(after, k) == {})
    && (popped == [] ==> after == before)
    && (popped != [] ==> after == WithSet(before, k, Members(after, k)))
  }

  lemma WithSetTwice(db: Db, k: RKey, a: set<Bytes>, b: set<Bytes>)
    ensures WithSet(WithSet(db, k, a), k, b) == WithSet(db, k, b)
  {
    var once := WithSet(db, k, a).sets;
    if b == {} {
      assert once - {k} == db.sets - {k};
    } else {
      assert once[k := b] == db.sets[k := b];
    }
  }

  /** One more SPOP that returned `m`. */
  lemma PopKeepsDrained(before: Db, mid: Db, after: Db, k: RKey, popped: seq<Bytes>, m: Bytes)
    requires Drained(before, mid, k, popped, false)
    requires m in Members(mid, k) && after == WithSet(mid, k, Members(mid, k) - {m})
    ensures Drained(before, after, k, popped + [m], false)
  {
    assert Elems(popped + [m]) == Elems(popped) + {m};
    assert m !in popped;
    if popped != [] {
      WithSetTwice(before, k, Members(mid, k), Members(after, k));
    }
    assert forall i :: 0 <= i < |popped| ==> (popped + [m])[i] == popped[i];
  }

  // ---------------------------------------------------------------------
  // The master's teardown
  // ---------------------------------------------------------------------

  /** The run settings the spider logic reads. */
  datatype Flags = Flags(requestRetryFailed: bool, itemRetryFailed: bool,
                         persistenceRequestFilter: bool, persistenceItemFilter: bool)

  /**
   * The end of spider_logic for the master, as written: the master record
   * goes, then `ClientHeart.remove_stop_status()` raises AttributeError,
   * since ClientHeart has no such method; nothing after it runs.
   */
  function TeardownAsWritten(db: Db, keys: KeySettings): (Db, Exc) {
    (Delete(db, keys(MasterKey)), AttributeError)
  }

  /** As written, the heartbeats and an unpersisted filter outlive the run. */
  lemma TeardownAsWrittenKeeps(db: Db, keys: KeySettings)
    requires keys(FilterRequest) != keys(MasterKey) && keys(Heartbeat) != keys(MasterKey)
    ensures Members(TeardownAsWritten(db, keys).0, keys(FilterRequest)) == Members(db, keys(FilterRequest))
    ensures Hash(TeardownAsWritten(db, keys).0, keys(Heartbeat)) == Hash(db, keys(Heartbeat))
  {
    DeleteKeeps(db, keys(MasterKey), keys(FilterRequest));
    DeleteKeeps(db, keys(MasterKey), keys(Heartbeat));
  }

  /** The teardown with the stop flag deleted, as its comment says. */
  function Teardown(db: Db, keys: KeySettings, flags: Flags): Db {
    DropFilters(DropRun(db, keys), keys, flags)
  }

  /** The master record, the stop flag and both heartbeat keys deleted. */
  function DropRun(db: Db, keys: KeySettings): Db {
    Delete(Delete(Delete(Delete(db, keys(MasterKey)), keys(StopKey)), keys(Heartbeat)), keys(HeartbeatFailed))
  }

  /** Each filter whose persistence flag is down deleted. */
  function DropFilters(db: Db, keys: KeySettings, flags: Flags): Db {
    var db2 := if flags.persistenceRequestFilter then db else Delete(db, keys(FilterRequest));
    if flags.persistenceItemFilter then db2 else Delete(db2, keys(FilterItem))
  }

  /**
   * After the teardown the master record, the stop flag and both heartbeat
   * keys are gone, and so is each filter whose persistence flag is down.
   */
  lemma TeardownClears(db: Db, keys: KeySettings, flags: Flags)
    ensures var r := Teardown(db, keys, flags);
            Gone(r, keys(MasterKey)) && Gone(r, keys(StopKey)) && Gone(r, keys(Heartbeat))
            && Gone(r, keys(HeartbeatFailed))
            && (!flags.persistenceRequestFilter ==> Gone(r, keys(FilterRequest)))
            && (!flags.persistenceItemFilter ==> Gone(r, keys(FilterItem)))
  {
    var d1 := Delete(db, keys(MasterKey));
    var d2 := Delete(d1, keys(StopKey));
    var d3 := Delete(d2, keys(Heartbeat));
    var d4 := Delete(d3, keys(HeartbeatFailed));
    var d5 := if flags.persistenceRequestFilter then d4 else Delete(d4, keys(FilterRequest));
    assert Gone(d4, keys(MasterKey)) && Gone(d4, keys(StopKey)) && Gone(d4, keys(Heartbeat));
    assert Gone(d5, keys(MasterKey)) && Gone(d5, keys(StopKey)) && Gone(d5, keys(Heartbeat))
           && Gone(d5, keys(HeartbeatFailed));
  }

  /** A key the teardown does not delete keeps its set members and its bits. */
  lemma TeardownKeeps(db: Db, keys: KeySettings, flags: Flags, kind: KeyKind)
    requires forall a, b :: a != b ==> keys(a) != keys(b)
    requires kind !in {MasterKey, StopKey, Heartbeat, HeartbeatFailed}
    requires kind == FilterRequest ==> flags.persistenceRequestFilter
    requires kind == FilterItem ==> flags.persistenceItemFilter
    ensures var r := Teardown(db, keys, flags);
            Members(r, keys(kind)) == Members(db, keys(kind)) && Bits(r, keys(kind)) == Bits(db, keys(kind))
  {
    DropRunKeeps(db, keys, keys(kind));
    DropFiltersKeeps(DropRun(db, keys), keys, flags, keys(kind));
  }

  lemma DropRunKeeps(db: Db, keys: KeySettings, k: RKey)
    requires k != keys(MasterKey) && k != keys(StopKey) && k != keys(Heartbeat) && k != keys(HeartbeatFailed)
    ensures Members(DropRun(db, keys), k) == Members(db, k) && Bits(DropRun(db, keys), k) == Bits(db, k)
  {
    var d1 := Delete(db, keys(MasterKey));
    var d2 := Delete(d1, keys(StopKey));
    var d3 := Delete(d2, keys(Heartbeat));
    DeleteKeeps(db, keys(MasterKey), k);
    DeleteKeeps(d1, keys(StopKey), k);
    DeleteKeeps(d2, keys(Heartbeat), k);
    DeleteKeeps(d3, keys(HeartbeatFailed), k);
    DeleteKeepsBits(db, keys(MasterKey), k);
    DeleteKeepsBits(d1, keys(StopKey), k);
    DeleteKeepsBits(d2, keys(Heartbeat), k);
    DeleteKeepsBits(d3, keys(HeartbeatFailed), k);
  }

  lemma DropFiltersKeeps(db: Db, keys: KeySettings, flags: Flags, k: RKey)
    requires k == keys(FilterRequest) ==> flags.persistenceRequestFilter
    requires k == keys(FilterItem) ==> flags.persistenceItemFilter
    ensures Members(DropFilters(db, keys, flags), k) == Members(db, k)
    ensures Bits(DropFilters(db, keys, flags), k) == Bits(db, k)
  {
    var d5 := if flags.persistenceRequestFilter then db else Delete(db, keys(FilterRequest));
    if !flags.persistenceRequestFilter {
      DeleteKeeps(db, keys(FilterRequest), k);
      DeleteKeepsBits(db, keys(FilterRequest), k);
    }
    if !flags.persistenceItemFilter {
      DeleteKeeps(d5, keys(FilterItem), k);
      DeleteKeepsBits(d5, keys(FilterItem), k);
    }
  }

  // ---------------------------------------------------------------------
  // The spider
  // ---------------------------------------------------------------------

  class DistributiveSpider {
    const store: Store
    const name: string
    const uuid: string
    const redisKey: string
    /** The REDIS_KEY_* settings after this spider set them. */
    const keys: KeySettings
    /** The names `hasattr(self, …)` finds. */
    const spiderAttrs: set<string>
    const flags: Flags
    var spiderMaster: bool
    /** The requests put on `_queue` and the items put on `_queue_item`. */
    var queue: seq<Requests.Request>
    var itemQueue: seq<(Val, map<Key, Val>)>
    /** The id the next new session and cookie jar get. */
    var nextObj: nat

    /** __init__, from the shipped key templates. */
    constructor (store: Store, name: string, uuid: string, redisKey: Option<string>, spiderAttrs: set<string>,
                 flags: Flags)
      ensures this.store == store && this.name == name && this.uuid == uuid
      ensures this.redisKey == RedisKeyOf(redisKey, name)
      ensures this.keys == Prefixed(TemplateKeys, RedisKeyOf(redisKey, name))
      ensures this.spiderAttrs == spiderAttrs && this.flags == flags
      ensures !spiderMaster && queue == [] && itemQueue == [] && nextObj == 0
    {
      this.store := store;
      this.name := name;
      this.uuid := uuid;
      this.redisKey := RedisKeyOf(redisKey, name);
      this.keys := Prefixed(TemplateKeys, RedisKeyOf(redisKey, name));
      this.spiderAttrs := spiderAttrs;
      this.flags := flags;
      spiderMaster := false;
      queue := [];
      itemQueue := [];
      nextObj := 0;
    }

    ghost predicate Valid() {
      keys == Prefixed(TemplateKeys, redisKey)
    }

    /** competition_for_master, writing the JSON record. */
    method CompetitionForMaster(token: Bytes)
      modifies this, store
      ensures (store.db, spiderMaster) == (CompeteDb(old(store.db), keys, token, MasterRecord(uuid)).0,
                                           old(spiderMaster) || CompeteDb(old(store.db), keys, token, MasterRecord(uuid)).1)
      ensures queue == old(queue) && itemQueue == old(itemQueue) && nextObj == old(nextObj)
    {
      var present := store.KeyExists(keys(MasterKey));
      if present {
        return;
      }
      var lock := new RedisLockNoWait(store, keys(LockKey), None, true, token);
      lock.Enter();
      if lock.lockSuccess {
        spiderMaster := true;
        store.Set(keys(MasterKey), MasterRecord(uuid));
      }
      lock.Exit();
    }

    /** start_check */
    method StartCheckMaster(now: int) returns (err: Option<Exc>)
      modifies store
      ensures StartCheck(old(store.db), keys, now).Ok? ==> err.None? && store.db == StartCheck(old(store.db), keys, now).value
      ensures StartCheck(old(store.db), keys, now).Err? ==> err == Some(StartCheck(old(store.db), keys, now).error)
                                                            && store.db == old(store.db)
    {
      var record := store.Get(keys(MasterKey));
      if record.None? || RecordName(record.value).None? {
        return None;
      }
      var detail := store.HGet(keys(Heartbeat), RecordName(record.value).value);
      if detail.None? || !TruthyBytes(detail.value) {
        return None;
      }
      var t := HeartTime(detail.value);
      if t.Err? {
        return Some(t.error);
      }
      if now - t.value > 5 {
        var _ := store.Del(keys(MasterKey));
      }
      return None;
    }

    /**
     * distribute_failed_task_request: only with REQUEST_RETRY_FAILED and an
     * existing failed set, pops it until empty and replays each member;
     * also returns the members popped, in order.
     */
    method DistributeFailedTaskRequest() returns (err: Option<Exc>, popped: seq<Bytes>)
      modifies this, store
      ensures !flags.requestRetryFailed || !Exists(old(store.db), keys(BadRequest)) ==>
                err.None? && popped == [] && store.db == old(store.db) && queue == old(queue) && nextObj == old(nextObj)
      ensures flags.requestRetryFailed && Exists(old(store.db), keys(BadRequest)) ==>
                Drained(old(store.db), store.db, keys(BadRequest), popped, err.None?)
      ensures old(queue) <= queue && itemQueue == old(itemQueue) && spiderMaster == old(spiderMaster)
      ensures err.None? ==> ReplayAll(popped, SpiderReplay(spiderAttrs), old(nextObj)) == Ok((queue[|old(queue)|..], nextObj))
      ensures err.Some? ==> ReplayAll(popped, SpiderReplay(spiderAttrs), old(nextObj)) == Err(err.value)
    {
      err, popped := None, [];
      assert queue[|queue|..] == [];
      if !flags.requestRetryFailed {
        return;
      }
      var present := store.KeyExists(keys(BadRequest));
      if !present {
        return;
      }
      err, popped := ReplayFailedRequests(keys(BadRequest), SpiderReplay(spiderAttrs));
    }

    /** distribute_failed_task_request's `while True` loop over the set at `k`, replaying each member by `replay`. */
    method ReplayFailedRequests(k: RKey, replay: Replayer) returns (err: Option<Exc>, popped: seq<Bytes>)
      modifies this, store
      ensures Drained(old(store.db), store.db, k, popped, err.None?)
      ensures old(queue) <= queue && itemQueue == old(itemQueue) && spiderMaster == old(spiderMaster)
      ensures err.None? ==> ReplayAll(popped, replay, old(nextObj)) == Ok((queue[|old(queue)|..], nextObj))
      ensures err.Some? ==> ReplayAll(popped, replay, old(nextObj)) == Err(err.value)
    {
      err, popped := None, [];
      ghost var put: seq<Requests.Request> := [];
      var more := true;
      while more
        invariant Drained(old(store.db), store.db, k, popped, !more)
        invariant queue == old(queue) + put && itemQueue == old(itemQueue) && spiderMaster == old(spiderMaster)
        invariant ReplayAll(popped, replay, old(nextObj)) == Ok((put, nextObj)) && err.None?
        decreases |Members(store.db, k)| + (if more then 1 else 0)
      {
        var m;
        ghost var put';
        m, err, put' := ReplayNextRequest(k, replay, old(store.db), popped, old(queue), put, old(nextObj));
        if m.None? {
          more := false;
        } else {
          popped := popped + [m.value];
          if err.Some? {
            return;
          }
          put := put';
        }
      }
      assert queue[|old(queue)|..] == put;
    }

    /** One pass of that loop: SPOP, then replay the member and put the request unless it was skipped. */
    method ReplayNextRequest(k: RKey, replay: Replayer, ghost before: Db, ghost popped: seq<Bytes>,
                             ghost q0: seq<Requests.Request>, ghost put: seq<Requests.Request>, ghost id0: nat)
      returns (m: Option<Bytes>, err: Option<Exc>, ghost put': seq<Requests.Request>)
      requires Drained(before, store.db, k, popped, false)
      requires queue == q0 + put && ReplayAll(popped, replay, id0) == Ok((put, nextObj))
      modifies this, store
      ensures itemQueue == old(itemQueue) && spiderMaster == old(spiderMaster) && old(queue) <= queue
      ensures m.None? ==> err.None? && Drained(before, store.db, k, popped, true)
                          && queue == old(queue) && nextObj == old(nextObj)
      ensures m.Some? ==> Drained(before, store.db, k, popped + [m.value], false)
                          && |Members(store.db, k)| < |Members(old(store.db), k)|
      ensures m.Some? && err.Some? ==> ReplayAll(popped + [m.value], replay, id0) == Err(err.value)
                                       && queue == old(queue)
      ensures m.Some? && err.None? ==> queue == q0 + put'
                                       && ReplayAll(popped + [m.value], replay, id0) == Ok((put', nextObj))
    {
      ghost var db0 := store.db;
      err, put' := None, put;
      m := store.SPop(k);
      if m.None? {
        return;
      }
      PopKeepsDrained(before, db0, store.db, k, popped, m.value);
      var r := replay(m.value, nextObj);
      if r.Err? {
        ReplayAllRaises(popped, m.value, replay, id0, put, nextObj);
        err := Some(r.error);
        return;
      }
      if r.value.Some? {
        AppendAssoc(q0, put, r.value.value);
        queue := queue + [r.value.value];
        put' := put + [r.value.value];
        nextObj := nextObj + 1;
      }
      ReplayAllStep(popped, m.value, replay, id0, put, old(nextObj), put', nextObj);
    }

    /**
     * distribute_failed_task_item: only with ITEM_RETRY_FAILED and an
     * existing failed set, pops it until empty and puts each item, built
     * from its class, importing each class once per `module.init` key.
     */
    method DistributeFailedTaskItem(resolve: Resolver) returns (err: Option<Exc>, popped: seq<Bytes>)
      modifies this, store
      ensures !flags.itemRetryFailed || !Exists(old(store.db), keys(BadItem)) ==>
                err.None? && popped == [] && store.db == old(store.db) && itemQueue == old(itemQueue)
      ensures flags.itemRetryFailed && Exists(old(store.db), keys(BadItem)) ==>
                Drained(old(store.db), store.db, keys(BadItem), popped, err.None?)
      ensures old(itemQueue) <= itemQueue && queue == old(queue) && nextObj == old(nextObj)
      ensures spiderMaster == old(spiderMaster)
      ensures err.None? ==> ReplayItems(popped, resolve).Ok?
                            && itemQueue[|old(itemQueue)|..] == ReplayItems(popped, resolve).value.puts
      ensures err.Some? ==> ReplayItems(popped, resolve) == Err(err.value)
    {
      err, popped := None, [];
      if !flags.itemRetryFailed {
        return;
      }
      var present := store.KeyExists(keys(BadItem));
      if !present {
        return;
      }
      err, popped := ReplayFailedItems(keys(BadItem), resolve);
    }

    /** distribute_failed_task_item's `while True` loop over the set at `k`, with its class cache. */
    method ReplayFailedItems(k: RKey, resolve: Resolver) returns (err: Option<Exc>, popped: seq<Bytes>)
      modifies this, store
      ensures Drained(old(store.db), store.db, k, popped, err.None?)
      ensures old(itemQueue) <= itemQueue && queue == old(queue) && nextObj == old(nextObj)
      ensures spiderMaster == old(spiderMaster)
      ensures err.None? ==> ReplayItems(popped, resolve).Ok?
                            && itemQueue[|old(itemQueue)|..] == ReplayItems(popped, resolve).value.puts
      ensures err.Some? ==> ReplayItems(popped, resolve) == Err(err.value)
    {
      err, popped := None, [];
      var modules: map<string, Val> := map[];
      ghost var imports: seq<string> := [];
      ghost var put: seq<(Val, map<Key, Val>)> := [];
      var more := true;
      while more
        invariant Drained(old(store.db), store.db, k, popped, !more)
        invariant itemQueue == old(itemQueue) + put && queue == old(queue) && nextObj == old(nextObj)
        invariant spiderMaster == old(spiderMaster)
        invariant ReplayItems(popped, resolve) == Ok(ItemReplay(put, modules, imports)) && err.None?
        decreases |Members(store.db, k)| + (if more then 1 else 0)
      {
        var m;
        ghost var p';
        m, err, modules, p' := ReplayNextItem(k, resolve, modules, old(store.db), popped, old(itemQueue), ItemReplay(put, modules, imports));
        if m.None? {
          more := false;
        } else {
          popped := popped + [m.value];
          if err.Some? {
            return;
          }
          put, imports := p'.puts, p'.imports;
        }
      }
      assert itemQueue[|old(itemQueue)|..] == put;
    }

    /**
     * One pass of that loop: SPOP, then the class from the cache or a new
     * import, then the item put. `p` is the replay so far and `cache` its
     * class cache, the loop's `modules`.
     */
    method ReplayNextItem(k: RKey, resolve: Resolver, cache: map<string, Val>, ghost before: Db,
                          ghost popped: seq<Bytes>, ghost q0: seq<(Val, map<Key, Val>)>, ghost p: ItemReplay)
      returns (m: Option<Bytes>, err: Option<Exc>, modules: map<string, Val>, ghost p': ItemReplay)
      requires Drained(before, store.db, k, popped, false)
      requires itemQueue == q0 + p.puts && ReplayItems(popped, resolve) == Ok(p) && cache == p.modules
      modifies this, store
      ensures queue == old(queue) && nextObj == old(nextObj) && spiderMaster == old(spiderMaster)
      ensures old(itemQueue) <= itemQueue
      ensures m.None? ==> err.None? && Drained(before, store.db, k, popped, true)
                          && itemQueue == old(itemQueue) && modules == p.modules && p' == p
      ensures m.Some? ==> Drained(before, store.db, k, popped + [m.value], false)
                          && |Members(store.db, k)| < |Members(old(store.db), k)|
      ensures m.Some? && err.Some? ==> ReplayItems(popped + [m.value], resolve) == Err(err.value)
      ensures m.Some? && err.None? ==> itemQueue == q0 + p'.puts && modules == p'.modules
                                       && ReplayItems(popped + [m.value], resolve) == Ok(p')
    {
      ghost var db0 := store.db;
      err, modules, p' := None, cache, p;
      m := store.SPop(k);
      if m.None? {
        return;
      }
      PopKeepsDrained(before, db0, store.db, k, popped, m.value);
      ReplayItemsStep(popped, m.value, resolve, p);
      var put;
      err, put, modules, p' := ReplayOne(m.value, resolve, cache, p);
      if err.Some? {
        return;
      }
      AppendAssoc(q0, p.puts, put);
      itemQueue := itemQueue + [put];
    }

    /** The master's teardown at the end of spider_logic. */
    method MasterTeardown()
      modifies store
      ensures store.db == Teardown(old(store.db), keys, flags)
    {
      var _ := store.Del(keys(MasterKey));
      var _ := store.Del(keys(StopKey));
      var _ := store.Del(keys(Heartbeat));
      var _ := store.Del(keys(HeartbeatFailed));
      if !flags.persistenceRequestFilter {
        var _ := store.Del(keys(FilterRequest));
      }
      if !flags.persistenceItemFilter {
        var _ := store.Del(keys(FilterItem));
      }
    }

    /**
     * distribute_task, inherited from BaseSpider: what start_requests
     * yields (None when it is not a generator function) is seeded onto
     * `_queue` as SpiderBases.BaseSpider.SeedAll does it, each request with
     * a fresh session and jar; the first bad seed raises.
     */
    method DistributeTask(seeds: Option<seq<Spiders.Seed>>) returns (err: Option<Exc>)
      modifies this
      ensures seeds.None? ==> err == Some(NotGeneratorFunction) && queue == old(queue) && nextObj == old(nextObj)
      ensures seeds.Some? ==>
                var (puts, raised) := Spiders.Seeded(seeds.value, old(nextObj), SB.SeedTask);
                queue == old(queue) + puts && err == raised && nextObj == old(nextObj) + |puts|
      ensures spiderMaster == old(spiderMaster) && itemQueue == old(itemQueue)
    {
      if seeds.None? {
        return Some(NotGeneratorFunction);
      }
      var (puts, raised) := Spiders.Seeded(seeds.value, nextObj, SB.SeedTask);
      queue := queue + puts;
      nextObj := nextObj + |puts|;
      err := raised;
    }

    /**
     * spider_logic: start_check, the competition, the master's setup (the
     * stop flag and heartbeats of a previous run go, failed work is
     * replayed, start_requests is seeded), the heartbeat check, and the
     * master's teardown. An exception from the setup ends spider_logic
     * there. The item buffer thread the master starts is not part of this
     * model.
     */
    method SpiderLogic(now: int, lockToken: Bytes, passes: seq<PassInput>, resolve: Resolver, seeds: Option<seq<Spiders.Seed>>)
      returns (err: Option<Exc>)
      requires Valid()
      modifies this, store
      ensures err.None? && spiderMaster ==>
                Gone(store.db, keys(MasterKey)) && Gone(store.db, keys(StopKey))
                && Gone(store.db, keys(Heartbeat)) && Gone(store.db, keys(HeartbeatFailed))
                && (!flags.persistenceRequestFilter ==> Gone(store.db, keys(FilterRequest)))
                && (!flags.persistenceItemFilter ==> Gone(store.db, keys(FilterItem)))
    {
      err := StartCheckMaster(now);
      if err.Some? {
        return;
      }
      CompetitionForMaster(lockToken);
      if spiderMaster {
        var _ := store.Del(keys(StopKey));
        var _ := store.Del(keys(Heartbeat));
        var _ := store.Del(keys(HeartbeatFailed));
        var popped;
        err, popped := DistributeFailedTaskRequest();
        if err.Some? {
          return;
        }
        err, popped := DistributeFailedTaskItem(resolve);
        if err.Some? {
          return;
        }
        err := DistributeTask(seeds);
        if err.Some? {
          return;
        }
      }
      PrefixedTemplates(redisKey, StopKey, StopKey);
      var heart := new ClientHeart(store, keys, uuid, spiderMaster);
      var _ := heart.Start(passes);
      spiderMaster := heart.spiderMaster;
      if spiderMaster {
        ghost var before := store.db;
        MasterTeardown();
        TeardownClears(before, keys, flags);
      }
    }
  }
}
