/**
 * ClientHeart: the heartbeat each distributed spider writes, and the check
 * pass that, under a no-wait lock, suspects late clients, drops clients
 * late twice in a row, takes over as master when the master is the one
 * suspected, and sets the stop sentinel once every client is waiting and
 * the master has handed out all its tasks.
 *
 * Heartbeat field names and failed-set members are client uuids, taken as
 * text (`BText`). The clock is the `now` parameter of each pass.
 */
module ClientHearts {
  import opened Common
  import opened Redis
  import opened RedisLocks

  /** Seconds between two heartbeats, and between two check passes. */
  const BeatingTime: int := 4
  const CheckTime: int := BeatingTime - 1

  /** The JSON fields of a heartbeat and of the master record. */
  const TimeField: Key := K("time")
  const WaitingField: Key := K("waiting")
  const DoneField: Key := K("distribute_done")
  const NameField: Key := K("name")

  /** A heartbeat written at t is late at now: more than one second past its next beat. */
  predicate Late(now: int, t: int) {
    now - t - BeatingTime > 1
  }

  /** `REDIS_KEY_LOCK + 'CheckHeart'` */
  function CheckLock(keys: KeySettings): RKey {
    Suffixed(keys(LockKey), "CheckHeart")
  }

  /** `master_detail['name'] == client_name`: a JSON string equal to the decoded field name. */
  predicate Names(v: Val, client: Bytes) {
    client.BText? && v == VStr(client.s)
  }

  /** `if res:` on a reply: only the empty byte string is falsy. */
  predicate TruthyBytes(b: Bytes) {
    !(b.BText? && b.s == "")
  }

  /** `detail = json.loads(...)` then `detail['time']`, which is subtracted from an int. */
  function HeartTime(value: Bytes): (r: Result<int>)
    ensures r.Ok? <==> value.BJson? && TimeField in value.d && value.d[TimeField].VInt?
  {
    match JsonLoads(value)
    case Err(e) => Err(e)
    case Ok(d) =>
      if TimeField !in d then Err(KeyError)
      else if !d[TimeField].VInt? then Err(TypeError)
      else Ok(d[TimeField].i)
  }

  /** `json.loads(redis_conn.get(REDIS_KEY_MASTER).decode())`: a missing key gives None, which has no decode. */
  function ReadMaster(db: Db, keys: KeySettings): (r: Result<map<Key, Val>>)
    ensures r.Ok? <==> keys(MasterKey) in db.strings && db.strings[keys(MasterKey)].BJson?
    ensures r.Ok? ==> r.value == db.strings[keys(MasterKey)].d
  {
    if keys(MasterKey) !in db.strings then Err(AttributeError)
    else JsonLoads(db.strings[keys(MasterKey)])
  }

  /** What a check pass carries from one client to the next. */
  datatype Check = Check(db: Db, master: bool, allWaiting: bool)

  /** The state after visiting a client, and the exception that ended the visit, if any. */
  datatype Visited = Visited(c: Check, err: Option<Exc>)

  /** SADD / SREM / HDEL on a Db. */
  function SetAdd(db: Db, k: RKey, m: Bytes): Db { WithSet(db, k, Members(db, k) + {m}) }
  function SetRem(db: Db, k: RKey, m: Bytes): Db { WithSet(db, k, Members(db, k) - {m}) }
  function HashDel(db: Db, k: RKey, f: Bytes): Db { WithHash(db, k, Hash(db, k) - {f}) }

  /**
   * One client of the heartbeat hash, given `failed`, the failed set read
   * at the start of the pass. An exception leaves the store as the
   * commands before it left it.
   */
  function Visit(c: Check, keys: KeySettings, uuid: string, failed: set<Bytes>, now: int,
                 name: Bytes, value: Bytes): Visited
  {
    var fk := keys(HeartbeatFailed);
    match HeartTime(value)
    case Err(e) => Visited(c, Some(e))
    case Ok(t) =>
      if Late(now, t) then
        if name in failed then
          Visited(c.(db := HashDel(SetRem(c.db, fk, name), keys(Heartbeat), name)), None)
        else
          var c1 := c.(db := SetAdd(c.db, fk, name));
          match ReadMaster(c1.db, keys)
          case Err(e) => Visited(c1, Some(e))
          case Ok(md) =>
            if md == map[] then Visited(c1, None)
            else if NameField !in md then Visited(c1, Some(KeyError))
            else if Names(md[NameField], name) then
              var record := BJson(md[NameField := VStr(uuid)]);
              Visited(Check(c1.db.(strings := c1.db.strings[keys(MasterKey) := record]), true, c.allWaiting), None)
            else Visited(c1, None)
      else
        var db1 := if name in failed then SetRem(c.db, fk, name) else c.db;
        if WaitingField !in value.d then Visited(c.(db := db1), Some(KeyError))
        else Visited(Check(db1, c.master, c.allWaiting && value.d[WaitingField] != VBool(false)), None)
  }

  /** The loop over the heartbeat hash's items from index i on; the first exception ends it. */
  function VisitFrom(c: Check, keys: KeySettings, uuid: string, failed: set<Bytes>, now: int,
                     items: seq<(Bytes, Bytes)>, i: nat): Visited
    requires i <= |items|
    decreases |items| - i
  {
    if i == |items| then Visited(c, None)
    else
      var v := Visit(c, keys, uuid, failed, now, items[i].0, items[i].1);
      if v.err.Some? then v else VisitFrom(v.c, keys, uuid, failed, now, items, i + 1)
  }

  /**
   * master_distribute_thread_is_done: the master's own heartbeat says
   * whether it has handed out every task; a master without a heartbeat
   * has not. palp writes the name as a str; a record naming
   * anything else is outside the model and answers TypeError.
   */
  function MasterDone(db: Db, keys: KeySettings): (r: Result<bool>)
    ensures r.Ok? && r.value ==> ReadMaster(db, keys).Ok?
    ensures ReadMaster(db, keys).Err? ==> r == Err(ReadMaster(db, keys).error)
  {
    match ReadMaster(db, keys)
    case Err(e) => Err(e)
    case Ok(md) =>
      if NameField !in md then Err(KeyError)
      else if !md[NameField].VStr? then Err(TypeError)
      else
        var field := BText(md[NameField].s);
        if field !in Hash(db, keys(Heartbeat)) || !TruthyBytes(Hash(db, keys(Heartbeat))[field]) then Ok(false)
        else
          match JsonLoads(Hash(db, keys(Heartbeat))[field])
          case Err(e) => Err(e)
          case Ok(d) => if DoneField !in d then Err(KeyError) else Ok(Truthy(d[DoneField]))
  }

  /** How a check pass ends: the lock was busy, another pass follows, the stop sentinel was set, or an exception. */
  datatype PassEnd = Busy | Again | Stop | Fail(e: Exc)

  /** Leaving the `with` block: the lock object had taken the lock, so it releases it. */
  function Unlock(db: Db, keys: KeySettings, token: Bytes): Db {
    ReleaseDb(db, CheckLock(keys), token).1
  }

  /**
   * After the loop over the clients: the stop sentinel is set when every
   * client was waiting and the master is done; a loop that raised, or the
   * master check raising, ends the pass with that exception.
   */
  function Decide(v: Visited, keys: KeySettings, stamp: string): (r: (PassEnd, Db))
    ensures r.1.sets == v.c.db.sets && r.1.hashes == v.c.db.hashes
    ensures r.0 == Stop <==> v.err.None? && v.c.allWaiting && MasterDone(v.c.db, keys) == Ok(true)
    ensures r.0 == Stop ==> r.1 == v.c.db.(strings := v.c.db.strings[keys(StopKey) := BText(stamp)])
    ensures r.0 != Stop ==> r.1 == v.c.db
  {
    if v.err.Some? then (Fail(v.err.value), v.c.db)
    else if !v.c.allWaiting then (Again, v.c.db)
    else
      match MasterDone(v.c.db, keys)
      case Err(e) => (Fail(e), v.c.db)
      case Ok(done) =>
        if done then (Stop, v.c.db.(strings := v.c.db.strings[keys(StopKey) := BText(stamp)]))
        else (Again, v.c.db)
  }

  /** The decision, then the lock's release on leaving `with`. */
  function Finish(v: Visited, keys: KeySettings, token: Bytes, stamp: string): (PassEnd, Db) {
    var d := Decide(v, keys, stamp);
    (d.0, Unlock(d.1, keys, token))
  }

  /** The loop over the clients once the lock is taken, with the failed set read just before it. */
  function Visits(held: Db, master: bool, keys: KeySettings, uuid: string, now: int, items: seq<(Bytes, Bytes)>): Visited {
    VisitFrom(Check(held, master, true), keys, uuid, Members(held, keys(HeartbeatFailed)), now, items, 0)
  }

  /**
   * One pass of check_client_beating's loop, over the heartbeat hash's
   * items in the order `items` the server sends them: the pass's end, the
   * store afterwards and spider_master afterwards.
   */
  function Pass(db: Db, master: bool, keys: KeySettings, uuid: string, token: Bytes, now: int, stamp: string,
                items: seq<(Bytes, Bytes)>): (PassEnd, Db, bool)
  {
    var acquired := AcquireDb(db, CheckLock(keys), token);
    if !acquired.0 then (Busy, db, master)
    else
      var v := Visits(acquired.1, master, keys, uuid, now, items);
      var f := Finish(v, keys, token, stamp);
      (f.0, f.1, v.c.master)
  }

  /** The heartbeat payload: a non-master always reports its distribution as not done. */
  function Heart(now: int, waiting: bool, master: bool, distributeDone: bool): (h: map<Key, Val>)
    ensures h.Keys == {TimeField, WaitingField, DoneField}
    ensures h[TimeField] == VInt(now) && h[WaitingField] == VBool(waiting)
    ensures !master ==> h[DoneField] == VBool(false)
    ensures master ==> h[DoneField] == VBool(distributeDone)
  {
    map[TimeField := VInt(now), WaitingField := VBool(waiting), DoneField := VBool(master && distributeDone)]
  }

  // ---------------------------------------------------------------------
  // Properties of one visit and of the whole loop
  // ---------------------------------------------------------------------

  /** The parsed heartbeat time of an item, when the visit got that far. */
  predicate LateItem(now: int, value: Bytes) {
    HeartTime(value).Ok? && Late(now, HeartTime(value).value)
  }

  /** The names of items[i..]. */
  function NamesFrom(items: seq<(Bytes, Bytes)>, i: nat): set<Bytes>
    requires i <= |items|
  {
    set j | i <= j < |items| :: items[j].0
  }

  /** Late names in items[i..] that were not suspected yet: they become suspects. */
  function NewSuspects(items: seq<(Bytes, Bytes)>, i: nat, failed: set<Bytes>, now: int): set<Bytes>
    requires i <= |items|
  {
    set j | i <= j < |items| && LateItem(now, items[j].1) && items[j].0 !in failed :: items[j].0
  }

  /** Late names in items[i..] that were suspected already: they are dropped. */
  function Dead(items: seq<(Bytes, Bytes)>, i: nat, failed: set<Bytes>, now: int): set<Bytes>
    requires i <= |items|
  {
    set j | i <= j < |items| && LateItem(now, items[j].1) && items[j].0 in failed :: items[j].0
  }

  predicate DistinctNames(items: seq<(Bytes, Bytes)>) {
    forall i, j :: 0 <= i < j < |items| ==> items[i].0 != items[j].0
  }

  /**
   * A visit that raises nothing parsed the heartbeat's time; the failed
   * set loses the client's name unless the client is late and was not
   * suspected, in which case it gains it.
   */
  lemma VisitFailedSet(c: Check, keys: KeySettings, uuid: string, failed: set<Bytes>, now: int, name: Bytes, value: Bytes)
    requires Visit(c, keys, uuid, failed, now, name, value).err.None?
    ensures HeartTime(value).Ok?
    ensures Members(Visit(c, keys, uuid, failed, now, name, value).c.db, keys(HeartbeatFailed))
            == (if LateItem(now, value) && name !in failed then Members(c.db, keys(HeartbeatFailed)) + {name}
                else if name in failed then Members(c.db, keys(HeartbeatFailed)) - {name}
                else Members(c.db, keys(HeartbeatFailed)))
  {
  }

  /** A visit that raises nothing drops the client from the heartbeat hash exactly when it is late and was suspected. */
  lemma VisitHeartbeats(c: Check, keys: KeySettings, uuid: string, failed: set<Bytes>, now: int, name: Bytes, value: Bytes)
    requires Visit(c, keys, uuid, failed, now, name, value).err.None?
    ensures Hash(Visit(c, keys, uuid, failed, now, name, value).c.db, keys(Heartbeat))
            == (if LateItem(now, value) && name in failed then Hash(c.db, keys(Heartbeat)) - {name}
                else Hash(c.db, keys(Heartbeat)))
  {
  }

  /**
   * The failed set after the loop: the visited names leave it, except the
   * late ones that were not suspected, which join it.
   */
  lemma {:induction false} FailedSetAfter(c: Check, keys: KeySettings, uuid: string, failed: set<Bytes>, now: int,
                                          items: seq<(Bytes, Bytes)>, i: nat)
    requires i <= |items| && DistinctNames(items)
    requires VisitFrom(c, keys, uuid, failed, now, items, i).err.None?
    requires forall j :: i <= j < |items| ==> (items[j].0 in Members(c.db, keys(HeartbeatFailed)) <==> items[j].0 in failed)
    ensures Members(VisitFrom(c, keys, uuid, failed, now, items, i).c.db, keys(HeartbeatFailed))
            == (Members(c.db, keys(HeartbeatFailed)) - NamesFrom(items, i)) + NewSuspects(items, i, failed, now)
    decreases |items| - i
  {
    var fk := keys(HeartbeatFailed);
    if i < |items| {
      var v := Visit(c, keys, uuid, failed, now, items[i].0, items[i].1);
      VisitFailedSet(c, keys, uuid, failed, now, items[i].0, items[i].1);
      forall j | i + 1 <= j < |items|
        ensures items[j].0 in Members(v.c.db, fk) <==> items[j].0 in failed
      {
        assert items[j].0 != items[i].0;
      }
      FailedSetAfter(v.c, keys, uuid, failed, now, items, i + 1);
      assert NamesFrom(items, i) == NamesFrom(items, i + 1) + {items[i].0};
      assert NewSuspects(items, i, failed, now)
             == NewSuspects(items, i + 1, failed, now)
                + (if LateItem(now, items[i].1) && items[i].0 !in failed then {items[i].0} else {});
      assert items[i].0 !in NewSuspects(items, i + 1, failed, now);
      assert items[i].0 !in NamesFrom(items, i + 1);
      SuspectStep(Members(c.db, fk), Members(v.c.db, fk), Members(VisitFrom(v.c, keys, uuid, failed, now, items, i + 1).c.db, fk),
                  NamesFrom(items, i), NamesFrom(items, i + 1),
                  NewSuspects(items, i, failed, now), NewSuspects(items, i + 1, failed, now),
                  items[i].0, LateItem(now, items[i].1), items[i].0 in failed);
    }
  }

  /** One visited name in the set algebra of FailedSetAfter. */
  lemma SuspectStep<T>(m0: set<T>, m1: set<T>, fin: set<T>, names: set<T>, names1: set<T>,
                       sus: set<T>, sus1: set<T>, x: T, late: bool, suspected: bool)
    requires m1 == if late && !suspected then m0 + {x} else if suspected then m0 - {x} else m0
    requires fin == (m1 - names1) + sus1
    requires names == names1 + {x} && x !in names1
    requires sus == sus1 + (if late && !suspected then {x} else {}) && x !in sus1
    requires suspected <==> x in m0
    ensures fin == (m0 - names) + sus
  {
  }

  /** The heartbeat hash after the loop: exactly the late clients that were suspected are gone. */
  lemma {:induction false} HeartbeatsAfter(c: Check, keys: KeySettings, uuid: string, failed: set<Bytes>, now: int,
                                           items: seq<(Bytes, Bytes)>, i: nat)
    requires i <= |items|
    requires VisitFrom(c, keys, uuid, failed, now, items, i).err.None?
    ensures Hash(VisitFrom(c, keys, uuid, failed, now, items, i).c.db, keys(Heartbeat))
            == Hash(c.db, keys(Heartbeat)) - Dead(items, i, failed, now)
    decreases |items| - i
  {
    if i < |items| {
      var v := Visit(c, keys, uuid, failed, now, items[i].0, items[i].1);
      VisitHeartbeats(c, keys, uuid, failed, now, items[i].0, items[i].1);
      HeartbeatsAfter(v.c, keys, uuid, failed, now, items, i + 1);
      assert Dead(items, i, failed, now)
             == Dead(items, i + 1, failed, now)
                + (if LateItem(now, items[i].1) && items[i].0 in failed then {items[i].0} else {});
    }
  }

  /** Whether a visited client stops the pass from ending everything: it is on time and not waiting. */
  predicate Working(now: int, value: Bytes) {
    HeartTime(value).Ok? && !Late(now, HeartTime(value).value)
    && WaitingField in value.d && value.d[WaitingField] == VBool(false)
  }

  /** After the loop, all clients count as waiting iff no on-time client reported `waiting: false`. */
  lemma {:induction false} WaitingAfter(c: Check, keys: KeySettings, uuid: string, failed: set<Bytes>, now: int,
                                        items: seq<(Bytes, Bytes)>, i: nat)
    requires i <= |items|
    requires VisitFrom(c, keys, uuid, failed, now, items, i).err.None?
    ensures VisitFrom(c, keys, uuid, failed, now, items, i).c.allWaiting
            == (c.allWaiting && forall j :: i <= j < |items| ==> !Working(now, items[j].1))
    decreases |items| - i
  {
    if i < |items| {
      var v := Visit(c, keys, uuid, failed, now, items[i].0, items[i].1);
      assert v.c.allWaiting == (c.allWaiting && !Working(now, items[i].1));
      WaitingAfter(v.c, keys, uuid, failed, now, items, i + 1);
    }
  }

  /**
   * Suspecting the master: a late client not yet suspected whose name the
   * master record holds makes this spider master, and the record now names
   * this spider.
   */
  lemma Takeover(c: Check, keys: KeySettings, uuid: string, failed: set<Bytes>, now: int, name: Bytes, value: Bytes)
    requires LateItem(now, value) && name !in failed
    requires ReadMaster(SetAdd(c.db, keys(HeartbeatFailed), name), keys).Ok?
    requires var md := ReadMaster(SetAdd(c.db, keys(HeartbeatFailed), name), keys).value;
             NameField in md && Names(md[NameField], name)
    ensures var v := Visit(c, keys, uuid, failed, now, name, value);
            var md := ReadMaster(c.db, keys).value;
            v.err.None? && v.c.master
            && v.c.db.strings[keys(MasterKey)] == BJson(md[NameField := VStr(uuid)])
  {
  }

  /** Only a takeover makes a visit turn this spider into the master. */
  lemma OnlyTakeoverMakesMaster(c: Check, keys: KeySettings, uuid: string, failed: set<Bytes>, now: int,
                                name: Bytes, value: Bytes)
    requires !c.master && Visit(c, keys, uuid, failed, now, name, value).c.master
    ensures LateItem(now, value) && name !in failed
    ensures ReadMaster(c.db, keys).Ok? && NameField in ReadMaster(c.db, keys).value
            && Names(ReadMaster(c.db, keys).value[NameField], name)
  {
  }

  /**
   * The stop sentinel is set exactly when the loop raised nothing, found
   * every on-time client waiting and the master done; the sentinel
   * survives the lock's release.
   */
  lemma StopIff(v: Visited, keys: KeySettings, token: Bytes, stamp: string)
    requires keys(StopKey) != CheckLock(keys)
    ensures Finish(v, keys, token, stamp).0 == Stop
            <==> v.err.None? && v.c.allWaiting && MasterDone(v.c.db, keys) == Ok(true)
    ensures Finish(v, keys, token, stamp).0 == Stop ==>
              var db := Finish(v, keys, token, stamp).1;
              keys(StopKey) in db.strings && db.strings[keys(StopKey)] == BText(stamp)
  {
    var d := Decide(v, keys, stamp);
    if d.0 == Stop {
      DeleteKeeps(d.1, CheckLock(keys), keys(StopKey));
    }
  }

  /** A pass finds the lock busy exactly when its key exists, and then changes nothing. */
  lemma BusyIff(db: Db, master: bool, keys: KeySettings, uuid: string, token: Bytes, now: int, stamp: string,
                items: seq<(Bytes, Bytes)>)
    ensures Pass(db, master, keys, uuid, token, now, stamp, items).0 == Busy <==> Exists(db, CheckLock(keys))
    ensures Exists(db, CheckLock(keys)) ==> Pass(db, master, keys, uuid, token, now, stamp, items) == (Busy, db, master)
  {
  }

  /**
   * A whole pass whose loop raised nothing: afterwards every client of the
   * heartbeat hash has left the failed set, except the late ones that were
   * not suspected, which have joined it.
   */
  lemma PassFailedSet(db: Db, master: bool, keys: KeySettings, uuid: string, token: Bytes, now: int, stamp: string,
                      items: seq<(Bytes, Bytes)>)
    requires keys(HeartbeatFailed) != CheckLock(keys)
    requires Enumerates(items, Hash(db, keys(Heartbeat)))
    requires !Exists(db, CheckLock(keys))
    requires Visits(AcquireDb(db, CheckLock(keys), token).1, master, keys, uuid, now, items).err.None?
    ensures var failed := Members(db, keys(HeartbeatFailed));
            Members(Pass(db, master, keys, uuid, token, now, stamp, items).1, keys(HeartbeatFailed))
            == (failed - Hash(db, keys(Heartbeat)).Keys) + NewSuspects(items, 0, failed, now)
  {
    var held := AcquireDb(db, CheckLock(keys), token).1;
    var failed := Members(held, keys(HeartbeatFailed));
    FailedSetAfter(Check(held, master, true), keys, uuid, failed, now, items, 0);
    assert NamesFrom(items, 0) == Hash(db, keys(Heartbeat)).Keys;
    FinishKeeps(Visits(held, master, keys, uuid, now, items), keys, token, stamp, keys(HeartbeatFailed));
  }

  /** A whole pass whose loop raised nothing: exactly the late clients that were suspected have left the heartbeat hash. */
  lemma PassHeartbeats(db: Db, master: bool, keys: KeySettings, uuid: string, token: Bytes, now: int, stamp: string,
                       items: seq<(Bytes, Bytes)>)
    requires keys(Heartbeat) != CheckLock(keys)
    requires !Exists(db, CheckLock(keys))
    requires Visits(AcquireDb(db, CheckLock(keys), token).1, master, keys, uuid, now, items).err.None?
    ensures var failed := Members(db, keys(HeartbeatFailed));
            Hash(Pass(db, master, keys, uuid, token, now, stamp, items).1, keys(Heartbeat))
            == Hash(db, keys(Heartbeat)) - Dead(items, 0, failed, now)
  {
    var held := AcquireDb(db, CheckLock(keys), token).1;
    var failed := Members(held, keys(HeartbeatFailed));
    HeartbeatsAfter(Check(held, master, true), keys, uuid, failed, now, items, 0);
    FinishKeeps(Visits(held, master, keys, uuid, now, items), keys, token, stamp, keys(Heartbeat));
  }

  /** The end of a pass writes strings only, and releases the lock: other sets and hashes stay. */
  lemma FinishKeeps(v: Visited, keys: KeySettings, token: Bytes, stamp: string, k: RKey)
    requires k != CheckLock(keys)
    ensures Members(Finish(v, keys, token, stamp).1, k) == Members(v.c.db, k)
    ensures Hash(Finish(v, keys, token, stamp).1, k) == Hash(v.c.db, k)
  {
    DeleteKeeps(Decide(v, keys, stamp).1, CheckLock(keys), k);
  }

  /** A master record naming a client without a heartbeat never lets the pass stop. */
  lemma NoStopWithoutMasterHeartbeat(db: Db, keys: KeySettings)
    requires ReadMaster(db, keys).Ok? && NameField in ReadMaster(db, keys).value
    requires var n := ReadMaster(db, keys).value[NameField];
             n.VStr? && BText(n.s) !in Hash(db, keys(Heartbeat))
    ensures MasterDone(db, keys) == Ok(false)
  {
  }

  /**
   * A heartbeat as beating() writes it always parses: it is late iff more
   * than five seconds passed, and read as the master's heartbeat it says
   * "done" only for a master that finished distributing.
   */
  lemma HeartbeatReadsBack(now: int, t: int, waiting: bool, master: bool, done: bool)
    ensures HeartTime(BJson(Heart(t, waiting, master, done))) == Ok(t)
    ensures LateItem(now, BJson(Heart(t, waiting, master, done))) <==> now - t > 5
    ensures Working(now, BJson(Heart(t, waiting, master, done))) <==> now - t <= 5 && !waiting
    ensures Truthy(Heart(t, waiting, master, done)[DoneField]) <==> master && done
  {
  }

  /** A pass that ends with Stop leaves the stop key in the store. */
  lemma PassStops(db: Db, master: bool, keys: KeySettings, uuid: string, token: Bytes, now: int, stamp: string,
                  items: seq<(Bytes, Bytes)>)
    requires keys(StopKey) != CheckLock(keys)
    requires Pass(db, master, keys, uuid, token, now, stamp, items).0 == Stop
    ensures Exists(Pass(db, master, keys, uuid, token, now, stamp, items).1, keys(StopKey))
  {
    var held := AcquireDb(db, CheckLock(keys), token).1;
    StopIff(Visits(held, master, keys, uuid, now, items), keys, token, stamp);
  }

  /** The clock reading, the stop-sentinel text and the fresh lock token of one pass. */
  datatype PassInput = PassInput(now: int, stamp: string, token: Bytes)

  /** The spider fields the heart reads and writes: its uuid and spider_master. */
  class ClientHeart {
    const store: Store
    const keys: KeySettings
    const uuid: string
    var spiderMaster: bool

    constructor (store: Store, keys: KeySettings, uuid: string, spiderMaster: bool)
      ensures this.store == store && this.keys == keys && this.uuid == uuid && this.spiderMaster == spiderMaster
    {
      this.store := store;
      this.keys := keys;
      this.uuid := uuid;
      this.spiderMaster := spiderMaster;
    }

    /** One pass of beating(): the heartbeat under this spider's uuid. */
    method Beat(now: int, waiting: bool, distributeDone: bool)
      modifies store
      ensures store.db == WithHash(old(store.db), keys(Heartbeat),
                                   Hash(old(store.db), keys(Heartbeat))[BText(uuid) := BJson(Heart(now, waiting, spiderMaster, distributeDone))])
    {
      var heart := map[TimeField := VInt(now), WaitingField := VBool(waiting)];
      if spiderMaster {
        heart := heart[DoneField := VBool(distributeDone)];
      } else {
        heart := heart[DoneField := VBool(false)];
      }
      store.HSet(keys(Heartbeat), BText(uuid), BJson(heart));
    }

    /** master_distribute_thread_is_done */
    method MasterDistributeThreadIsDone() returns (r: Result<bool>)
      ensures r == MasterDone(store.db, keys)
    {
      var m := store.Get(keys(MasterKey));
      if m.None? {
        return Err(AttributeError);
      }
      var md := JsonLoads(m.value);
      if md.Err? {
        return Err(md.error);
      }
      if NameField !in md.value {
        return Err(KeyError);
      }
      if !md.value[NameField].VStr? {
        return Err(TypeError);
      }
      var res := store.HGet(keys(Heartbeat), BText(md.value[NameField].s));
      if res.None? || !TruthyBytes(res.value) {
        return Ok(false);
      }
      var d := JsonLoads(res.value);
      if d.Err? {
        return Err(d.error);
      }
      if DoneField !in d.value {
        return Err(KeyError);
      }
      return Ok(Truthy(d.value[DoneField]));
    }

    /** One client of the loop over the heartbeat hash. */
    method VisitClient(name: Bytes, value: Bytes, failed: set<Bytes>, now: int, waitingIn: bool)
      returns (waiting: bool, err: Option<Exc>)
      modifies this, store
      ensures Visited(Check(store.db, spiderMaster, waiting), err)
              == Visit(Check(old(store.db), old(spiderMaster), waitingIn), keys, uuid, failed, now, name, value)
    {
      waiting := waitingIn;
      var t := HeartTime(value);
      if t.Err? {
        return waiting, Some(t.error);
      }
      if Late(now, t.value) {
        if name in failed {
          store.SRem(keys(HeartbeatFailed), name);
          store.HDel(keys(Heartbeat), name);
          return waiting, None;
        }
        var _ := store.SAdd(keys(HeartbeatFailed), name);
        var m := store.Get(keys(MasterKey));
        if m.None? {
          return waiting, Some(AttributeError);
        }
        var md := JsonLoads(m.value);
        if md.Err? {
          return waiting, Some(md.error);
        }
        if md.value == map[] {
          return waiting, None;
        }
        if NameField !in md.value {
          return waiting, Some(KeyError);
        }
        if Names(md.value[NameField], name) {
          spiderMaster := true;
          store.Set(keys(MasterKey), BJson(md.value[NameField := VStr(uuid)]));
        }
        return waiting, None;
      }
      if name in failed {
        store.SRem(keys(HeartbeatFailed), name);
      }
      if WaitingField !in value.d {
        return waiting, Some(KeyError);
      }
      if value.d[WaitingField] == VBool(false) {
        waiting := false;
      }
      return waiting, None;
    }

    /** The loop over the heartbeat hash's items; the first exception leaves it. */
    method VisitAll(items: seq<(Bytes, Bytes)>, failed: set<Bytes>, now: int)
      returns (waiting: bool, err: Option<Exc>)
      modifies this, store
      ensures Visited(Check(store.db, spiderMaster, waiting), err)
              == VisitFrom(Check(old(store.db), old(spiderMaster), true), keys, uuid, failed, now, items, 0)
    {
      waiting, err := true, None;
      var i := 0;
      while i < |items| && err.None?
        invariant i <= |items|
        invariant err.None? ==> VisitFrom(Check(store.db, spiderMaster, waiting), keys, uuid, failed, now, items, i)
                                == VisitFrom(Check(old(store.db), old(spiderMaster), true), keys, uuid, failed, now, items, 0)
        invariant err.Some? ==> Visited(Check(store.db, spiderMaster, waiting), err)
                                == VisitFrom(Check(old(store.db), old(spiderMaster), true), keys, uuid, failed, now, items, 0)
      {
        waiting, err := VisitClient(items[i].0, items[i].1, failed, now, waiting);
        i := i + 1;
      }
    }

    /**
     * One pass of check_client_beating's loop, which also returns the
     * order in which the server listed the heartbeat hash.
     */
    method CheckPass(now: int, stamp: string, token: Bytes) returns (end: PassEnd, items: seq<(Bytes, Bytes)>)
      modifies this, store
      ensures end != Busy ==> Enumerates(items, Hash(old(store.db), keys(Heartbeat)))
      ensures (end, store.db, spiderMaster) == Pass(old(store.db), old(spiderMaster), keys, uuid, token, now, stamp, items)
    {
      var lock := new RedisLockNoWait(store, CheckLock(keys), Some(20), true, token);
      lock.Enter();
      if !lock.lockSuccess {
        return Busy, [];
      }
      ghost var held := store.db;
      var failed := store.SMembers(keys(HeartbeatFailed));
      items := store.HGetAllItems(keys(Heartbeat));
      var waiting, err := VisitAll(items, failed, now);
      var v := Visited(Check(store.db, spiderMaster, waiting), err);
      end := Conclude(v, lock, stamp);
    }

    /** The stop decision after the loop, then leaving the `with` block. */
    method Conclude(v: Visited, lock: RedisLockNoWait, stamp: string) returns (end: PassEnd)
      requires lock.lockSuccess && lock.store == store && lock.lockName == CheckLock(keys)
      requires v.c.db == store.db && v.c.master == spiderMaster
      modifies store
      ensures (end, store.db) == Finish(v, keys, lock.token, stamp)
    {
      end := Again;
      if v.err.Some? {
        end := Fail(v.err.value);
      } else if v.c.allWaiting {
        var done := MasterDistributeThreadIsDone();
        if done.Err? {
          end := Fail(done.error);
        } else if done.value {
          store.Set(keys(StopKey), BText(stamp));
          end := Stop;
        }
      }
      lock.Exit();
    }

    /**
     * check_client_beating, over the passes it gets to run: while the stop
     * key is absent, one pass after the other; a busy lock starts the next
     * pass, Stop leaves the loop, an exception escapes.
     */
    method CheckClientBeating(passes: seq<PassInput>) returns (err: Option<Exc>, ran: nat)
      requires keys(StopKey) != CheckLock(keys)
      modifies this, store
      ensures ran <= |passes|
      ensures Exists(old(store.db), keys(StopKey)) ==>
                ran == 0 && err.None? && store.db == old(store.db) && spiderMaster == old(spiderMaster)
      ensures err.None? && ran < |passes| ==> Exists(store.db, keys(StopKey))
      ensures err.Some? ==> ran > 0
    {
      err, ran := None, 0;
      while ran < |passes|
        invariant ran <= |passes|
        invariant ran == 0 ==> store.db == old(store.db) && spiderMaster == old(spiderMaster)
        invariant ran > 0 ==> !Exists(old(store.db), keys(StopKey))
        decreases |passes| - ran
      {
        var stop := store.KeyExists(keys(StopKey));
        if stop {
          return;
        }
        ghost var before := (store.db, spiderMaster);
        var input := passes[ran];
        var end, items := CheckPass(input.now, input.stamp, input.token);
        ran := ran + 1;
        if end.Fail? {
          return Some(end.e), ran;
        }
        if end == Stop {
          PassStops(before.0, before.1, keys, uuid, input.token, input.now, input.stamp, items);
          return;
        }
      }
    }

    /** start(): an exception out of the check makes this spider give up being master. */
    method Start(passes: seq<PassInput>) returns (err: Option<Exc>)
      requires keys(StopKey) != CheckLock(keys)
      modifies this, store
      ensures err.Some? ==> !spiderMaster
      ensures Exists(old(store.db), keys(StopKey)) ==>
                err.None? && store.db == old(store.db) && spiderMaster == old(spiderMaster)
    {
      var ran;
      err, ran := CheckClientBeating(passes);
      if err.Some? {
        spiderMaster := false;
      }
    }
  }
}
