/**
 * spider/spider.py: SpiderBase, the spider thread of the newer API. The
 * model keeps what decides when a crawl is over: the scans over the
 * controller and distribution-thread lists, stopping every controller,
 * seeding the request queue from start_requests, the spider's name and
 * its fresh record.
 */
module Spiders {
  import opened Common
  import Requests
  import opened Records

  /**
   * A controller (or distribution) thread as the spider sees it: whether
   * the thread is alive, and the controller's `waiting` and `stop` flags.
   */
  class Worker {
    var alive: bool
    var waiting: bool
    var stop: bool

    constructor (alive: bool, waiting: bool)
      ensures this.alive == alive && this.waiting == waiting && !stop
    {
      this.alive := alive;
      this.waiting := waiting;
      stop := false;
    }
  }

  predicate Distinct(ws: seq<Worker>) {
    forall i, j :: 0 <= i < j < |ws| ==> ws[i] != ws[j]
  }

  /** No thread of the list is alive. */
  predicate NoneAlive(ws: seq<Worker>)
    reads ws
  {
    forall i :: 0 <= i < |ws| ==> !ws[i].alive
  }

  /** Every live thread of the list is waiting. */
  predicate AllAliveWaiting(ws: seq<Worker>)
    reads ws
  {
    forall i :: 0 <= i < |ws| ==> ws[i].alive ==> ws[i].waiting
  }

  /** The live threads of the list, in order. */
  function AliveOnly(ws: seq<Worker>): seq<Worker>
    reads ws
  {
    if ws == [] then [] else (if ws[0].alive then [ws[0]] else []) + AliveOnly(ws[1..])
  }

  /** The index of the first live thread that is not waiting, or the length of the list. */
  function FirstBusy(ws: seq<Worker>): (k: nat)
    reads ws
    ensures k <= |ws|
    ensures forall i :: 0 <= i < k ==> !ws[i].alive || ws[i].waiting
    ensures k < |ws| ==> ws[k].alive && !ws[k].waiting
  {
    if ws == [] then 0
    else if ws[0].alive && !ws[0].waiting then 0
    else 1 + FirstBusy(ws[1..])
  }

  /** `list.remove(p)`: the first element that is p leaves the list. */
  function RemoveFirst(l: seq<Worker>, p: Worker): (r: seq<Worker>)
    ensures p !in l ==> r == l
  {
    if l == [] then []
    else if l[0] == p then l[1..]
    else [l[0]] + RemoveFirst(l[1..], p)
  }

  /**
   * The scan of all_spider_controller_is_waiting over the threads still to
   * visit (`pending`, from the copy) and the live list: a dead thread is
   * removed from the list and skipped, a busy live one ends the scan with
   * False, and a scan that visits every thread gives True.
   */
  function ScanWaiting(pending: seq<Worker>, list: seq<Worker>): (bool, seq<Worker>)
    reads pending
  {
    if pending == [] then (true, list)
    else if !pending[0].alive then ScanWaiting(pending[1..], RemoveFirst(list, pending[0]))
    else if !pending[0].waiting then (false, list)
    else ScanWaiting(pending[1..], list)
  }

  lemma {:induction false} RemoveFirstAfter(pre: seq<Worker>, p: Worker, post: seq<Worker>)
    requires p !in pre
    ensures RemoveFirst(pre + [p] + post, p) == pre + post
  {
    if pre != [] {
      assert (pre + [p] + post)[1..] == pre[1..] + [p] + post;
      RemoveFirstAfter(pre[1..], p, post);
    }
  }

  /** The scan answers True exactly when every live thread it visits waits, whatever the list. */
  lemma {:induction false} ScanWaitingAnswer(ws: seq<Worker>, list: seq<Worker>)
    ensures ScanWaiting(ws, list).0 <==> AllAliveWaiting(ws)
  {
    if ws != [] {
      if !ws[0].alive {
        ScanWaitingAnswer(ws[1..], RemoveFirst(list, ws[0]));
      } else if ws[0].waiting {
        ScanWaitingAnswer(ws[1..], list);
      }
      assert AllAliveWaiting(ws) <==> (ws[0].alive ==> ws[0].waiting) && AllAliveWaiting(ws[1..]) by {
        assert forall i :: 0 < i < |ws| ==> ws[i] == ws[1..][i - 1];
      }
    }
  }

  /** The scan's result for a list of threads, with `kept` already behind it. */
  ghost predicate ScannedFrom(kept: seq<Worker>, ws: seq<Worker>, list: seq<Worker>)
    reads ws
  {
    ScanWaiting(ws, list).1 == kept + (AliveOnly(ws[..FirstBusy(ws)]) + ws[FirstBusy(ws)..])
  }

  /** A dead first thread is removed from the list and the scan goes on over the rest. */
  lemma DeadStep(kept: seq<Worker>, ws: seq<Worker>, list: seq<Worker>)
    requires ws != [] && !ws[0].alive && ws[0] !in kept && list == kept + ws
    requires ScannedFrom(kept, ws[1..], kept + ws[1..])
    ensures ScannedFrom(kept, ws, list)
  {
    var k := FirstBusy(ws);
    var rest := ws[1..];
    assert list == kept + [ws[0]] + rest by {
      assert ws == [ws[0]] + rest;
    }
    RemoveFirstAfter(kept, ws[0], rest);
    assert ScanWaiting(ws, list) == ScanWaiting(rest, kept + rest);
    assert ws[..k][1..] == rest[..k - 1];
    assert ws[k..] == rest[k - 1..];
    assert AliveOnly(ws[..k]) == AliveOnly(rest[..k - 1]);
  }

  /** A waiting first thread stays in the list and the scan goes on over the rest. */
  lemma WaitingStep(kept: seq<Worker>, ws: seq<Worker>, list: seq<Worker>)
    requires ws != [] && ws[0].alive && ws[0].waiting && list == kept + ws
    requires ScannedFrom(kept + [ws[0]], ws[1..], list)
    ensures ScannedFrom(kept, ws, list)
  {
    var k := FirstBusy(ws);
    var rest := ws[1..];
    assert ScanWaiting(ws, list) == ScanWaiting(rest, list);
    assert ws[..k][1..] == rest[..k - 1];
    assert ws[k..] == rest[k - 1..];
    var tail := AliveOnly(rest[..k - 1]) + rest[k - 1..];
    assert AliveOnly(ws[..k]) == [ws[0]] + AliveOnly(rest[..k - 1]);
    assert (kept + [ws[0]]) + tail == kept + ([ws[0]] + tail);
  }

  /**
   * The scan over a list with `kept` already behind it keeps `kept`, the
   * live threads before the first busy one, and everything from that one on.
   */
  lemma {:induction false} ScanWaitingFrom(kept: seq<Worker>, ws: seq<Worker>, list: seq<Worker>)
    requires Distinct(ws) && (forall w :: w in ws ==> w !in kept) && list == kept + ws
    decreases |ws|
    ensures ScannedFrom(kept, ws, list)
  {
    if ws == [] || (ws[0].alive && !ws[0].waiting) {
      assert ws[..0] == [] && ws[0..] == ws;
    } else {
      var rest := ws[1..];
      assert Distinct(rest) by {
        assert forall i :: 0 <= i < |rest| ==> rest[i] == ws[i + 1];
      }
      assert ws == [ws[0]] + rest;
      if !ws[0].alive {
        ScanWaitingFrom(kept, rest, kept + rest);
        DeadStep(kept, ws, list);
      } else {
        assert list == (kept + [ws[0]]) + rest;
        ScanWaitingFrom(kept + [ws[0]], rest, list);
        WaitingStep(kept, ws, list);
      }
    }
  }

  /**
   * all_spider_controller_is_waiting answers whether every live controller
   * waits (True for an empty list), and on a list without repeats it
   * removes exactly the dead controllers met before the first busy one.
   */
  lemma ScanWaitingMeaning(ws: seq<Worker>)
    requires Distinct(ws)
    ensures ScanWaiting(ws, ws).0 <==> AllAliveWaiting(ws)
    ensures ScanWaiting(ws, ws).1 == AliveOnly(ws[..FirstBusy(ws)]) + ws[FirstBusy(ws)..]
  {
    ScanWaitingAnswer(ws, ws);
    var none: seq<Worker> := [];
    assert ws == none + ws;
    ScanWaitingFrom(none, ws, ws);
  }

  /** When every live controller waits, the scan leaves exactly the live ones. */
  lemma ScanWaitingKeepsAlive(ws: seq<Worker>)
    requires Distinct(ws) && AllAliveWaiting(ws)
    ensures ScanWaiting(ws, ws) == (true, AliveOnly(ws))
  {
    ScanWaitingMeaning(ws);
    var k := FirstBusy(ws);
    assert k == |ws|;
    assert ws[..k] == ws;
    var alive, tail := AliveOnly(ws), ws[k..];
    assert tail == [];
    assert alive + tail == alive;
  }

  /** `for p in list: if p.is_alive(): done = False; break`: whether no thread of the list is alive. */
  method ScanAlive(ws: seq<Worker>) returns (done: bool)
    ensures done <==> NoneAlive(ws)
  {
    done := true;
    var i := 0;
    while i < |ws|
      invariant 0 <= i <= |ws|
      invariant forall j :: 0 <= j < i ==> !ws[j].alive
    {
      if ws[i].alive {
        done := false;
        break;
      }
      i := i + 1;
    }
  }

  /** `for p in list: p.stop = True` */
  method SetStop(ws: seq<Worker>)
    modifies ws
    ensures forall i :: 0 <= i < |ws| ==> ws[i].stop
    ensures forall i :: 0 <= i < |ws| ==> ws[i].alive == old(ws[i].alive) && ws[i].waiting == old(ws[i].waiting)
  {
    var i := 0;
    while i < |ws|
      invariant 0 <= i <= |ws|
      invariant forall j :: 0 <= j < i ==> ws[j].stop
      invariant forall j :: 0 <= j < |ws| ==> ws[j].alive == old(ws[j].alive) && ws[j].waiting == old(ws[j].waiting)
    {
      ws[i].stop := true;
      i := i + 1;
    }
  }

  /** What start_requests yields: a Request, or any other value. */
  datatype Seed = SeedRequest(r: Requests.Request) | SeedOther(v: Val)

  /** `if request.callback is None: request.callback = self.parse`, stored as the name 'parse'. */
  function DefaultCallback(r: Requests.Request): (res: Result<Requests.Request>)
    ensures res.Ok? <==> Callback in r.attrs
    ensures res.Ok? && r.attrs[Callback] != VNone ==> res.value == r
    ensures res.Ok? && r.attrs[Callback] == VNone ==>
              res.value.attrs == r.attrs[Callback := VStr("parse")] && res.value.verifyDefaulted == r.verifyDefaulted
  {
    var cb :- Requests.GetAttr(r, Callback);
    if cb == VNone then Requests.SetAttr(r, Callback, VFunc("parse")) else Ok(r)
  }

  /** What the seeding loop does to one yielded request, given a fresh object id for it. */
  type Prepare = (Requests.Request, nat) -> Result<Requests.Request>

  /**
   * A seeding loop over what start_requests yields, seed i prepared with
   * object id `id + i`: the requests it puts, in order, and the exception
   * that ends it (ValueError for a value that is not a Request).
   */
  function Seeded(seeds: seq<Seed>, id: nat, prepare: Prepare): (seq<Requests.Request>, Option<Exc>) {
    if seeds == [] then ([], None)
    else if seeds[0].SeedOther? then ([], Some(ValueError))
    else match prepare(seeds[0].r, id)
      case Err(e) => ([], Some(e))
      case Ok(r) => ([r] + Seeded(seeds[1..], id + 1, prepare).0, Seeded(seeds[1..], id + 1, prepare).1)
  }

  /**
   * Each put request is its seed as prepared, in order; the loop puts
   * every seed exactly when it ends without an exception, and otherwise
   * stops at the first seed that is no Request (ValueError) or whose
   * preparation raises (that exception).
   */
  lemma {:induction false} SeededPuts(seeds: seq<Seed>, id: nat, prepare: Prepare)
    ensures var (puts, err) := Seeded(seeds, id, prepare);
            |puts| <= |seeds|
            && (forall i :: 0 <= i < |puts| ==> seeds[i].SeedRequest? && prepare(seeds[i].r, id + i) == Ok(puts[i]))
            && (err.None? <==> |puts| == |seeds|)
            && (err.Some? ==>
                  (seeds[|puts|].SeedOther? && err == Some(ValueError))
                  || (seeds[|puts|].SeedRequest? && prepare(seeds[|puts|].r, id + |puts|).Err?
                      && err == Some(prepare(seeds[|puts|].r, id + |puts|).error)))
  {
    if seeds != [] && seeds[0].SeedRequest? && prepare(seeds[0].r, id).Ok? {
      SeededPuts(seeds[1..], id + 1, prepare);
      var (puts, err) := Seeded(seeds, id, prepare);
      var tail := Seeded(seeds[1..], id + 1, prepare).0;
      assert puts == [prepare(seeds[0].r, id).value] + tail;
      forall i | 0 < i < |puts|
        ensures seeds[i].SeedRequest? && prepare(seeds[i].r, id + i) == Ok(puts[i])
      {
        assert puts[i] == tail[i - 1] && seeds[i] == seeds[1..][i - 1];
      }
      if err.Some? {
        assert seeds[|puts|] == seeds[1..][|tail|];
      }
    }
  }

  /**
   * start_distribute's step: a seed keeps every attribute but the callback,
   * which becomes 'parse' when it was None; only a seed without a callback
   * attribute fails.
   */
  function StartStep(r: Requests.Request, id: nat): (res: Result<Requests.Request>)
    ensures res.Ok? <==> Callback in r.attrs
    ensures res.Ok? ==> res.value.verifyDefaulted == r.verifyDefaulted
    ensures res.Ok? ==> res.value.attrs.Keys == r.attrs.Keys
    ensures res.Ok? ==> forall k :: k in r.attrs && k != Callback ==> res.value.attrs[k] == r.attrs[k]
    ensures res.Ok? ==> res.value.attrs[Callback] == (if r.attrs[Callback] == VNone then VStr("parse") else r.attrs[Callback])
  {
    DefaultCallback(r)
  }

  /** The name the spider goes by: spider_name when it is a non-empty string, else the class name. */
  function SpiderName(spiderName: Option<string>, className: string): (n: string)
    ensures spiderName.Some? && spiderName.value != "" ==> n == spiderName.value
    ensures spiderName.None? || spiderName.value == "" ==> n == className
  {
    if spiderName.Some? && spiderName.value != "" then spiderName.value else className
  }

  class Spider {
    /** The class attribute spider_name. */
    const spiderName: Option<string>
    /** `self.__class__.__name__` */
    const className: string
    var spiderDone: bool
    var spiderControllerList: seq<Worker>
    var distributeThreadList: seq<Worker>
    /** The requests start_distribute has put on the request queue, in order. */
    var queue: seq<Requests.Request>
    var spiderRecord: Counts

    constructor (spiderName: Option<string>, className: string)
      ensures this.spiderName == spiderName && this.className == className
      ensures !spiderDone && spiderControllerList == [] && distributeThreadList == [] && queue == []
      ensures spiderRecord == Counts(0, 0, 0)
    {
      this.spiderName := spiderName;
      this.className := className;
      spiderDone := false;
      spiderControllerList := [];
      distributeThreadList := [];
      queue := [];
      spiderRecord := Counts(0, 0, 0);
    }

    /** The `name` property. */
    function Name(): string {
      SpiderName(spiderName, className)
    }

    /** all_distribute_thread_is_done */
    method AllDistributeThreadIsDone() returns (done: bool)
      ensures done <==> NoneAlive(distributeThreadList)
    {
      done := ScanAlive(distributeThreadList);
    }

    /**
     * all_spider_controller_is_waiting: the scan over a copy of the list,
     * removing each dead controller it meets from the list itself.
     */
    method AllSpiderControllerIsWaiting() returns (waiting: bool)
      modifies this
      ensures (waiting, spiderControllerList) == ScanWaiting(old(spiderControllerList), old(spiderControllerList))
      ensures spiderDone == old(spiderDone) && distributeThreadList == old(distributeThreadList)
      ensures queue == old(queue) && spiderRecord == old(spiderRecord)
    {
      var copy := spiderControllerList;
      waiting := true;
      var i := 0;
      while i < |copy|
        invariant 0 <= i <= |copy|
        invariant ScanWaiting(copy[i..], spiderControllerList) == ScanWaiting(copy, copy)
        invariant spiderDone == old(spiderDone) && distributeThreadList == old(distributeThreadList)
        invariant queue == old(queue) && spiderRecord == old(spiderRecord)
      {
        var p := copy[i];
        assert copy[i..][1..] == copy[i + 1..];
        if !p.alive {
          spiderControllerList := RemoveFirst(spiderControllerList, p);   // avoid dead threads keeping the program alive
          i := i + 1;
          continue;
        }
        if !p.waiting {
          waiting := false;
          break;
        }
        i := i + 1;
      }
    }

    /** all_spider_controller_is_done: no controller alive; then spider_done is set. */
    method AllSpiderControllerIsDone() returns (done: bool)
      modifies this
      ensures done <==> NoneAlive(spiderControllerList)
      ensures spiderDone == (old(spiderDone) || done)
      ensures spiderControllerList == old(spiderControllerList) && distributeThreadList == old(distributeThreadList)
      ensures queue == old(queue) && spiderRecord == old(spiderRecord)
    {
      done := ScanAlive(spiderControllerList);
      if done {
        spiderDone := true;
      }
    }

    /** The first loop of stop_all_spider_controller. */
    method StopAllSpiderController()
      modifies spiderControllerList
      ensures forall i :: 0 <= i < |spiderControllerList| ==> spiderControllerList[i].stop
      ensures forall i :: 0 <= i < |spiderControllerList| ==>
                spiderControllerList[i].alive == old(spiderControllerList[i].alive)
                && spiderControllerList[i].waiting == old(spiderControllerList[i].waiting)
    {
      SetStop(spiderControllerList);
    }

    /**
     * start_distribute, given what start_requests yields (None when it is
     * not a generator function, which only logs a warning).
     */
    method StartDistribute(seeds: Option<seq<Seed>>) returns (err: Option<Exc>)
      modifies this
      ensures seeds.None? ==> err.None? && queue == old(queue)
      ensures seeds.Some? ==> (queue, err) == (old(queue) + Seeded(seeds.value, 0, StartStep).0, Seeded(seeds.value, 0, StartStep).1)
      ensures spiderDone == old(spiderDone) && spiderControllerList == old(spiderControllerList)
      ensures distributeThreadList == old(distributeThreadList) && spiderRecord == old(spiderRecord)
    {
      err := None;
      if seeds.None? {
        return;
      }
      var prepare: Prepare := StartStep;
      err := SeedAll(seeds.value, prepare);
    }

    /** The loop over the seeds, each prepared by `prepare` and put on the queue. */
    method SeedAll(s: seq<Seed>, prepare: Prepare) returns (err: Option<Exc>)
      modifies this
      ensures (queue, err) == (old(queue) + Seeded(s, 0, prepare).0, Seeded(s, 0, prepare).1)
      ensures spiderDone == old(spiderDone) && spiderControllerList == old(spiderControllerList)
      ensures distributeThreadList == old(distributeThreadList) && spiderRecord == old(spiderRecord)
    {
      err := None;
      var i := 0;
      while i < |s|
        invariant 0 <= i <= |s|
        invariant old(queue) + Seeded(s, 0, prepare).0 == queue + Seeded(s[i..], i, prepare).0
        invariant Seeded(s, 0, prepare).1 == Seeded(s[i..], i, prepare).1
        invariant err.None?
        invariant spiderDone == old(spiderDone) && spiderControllerList == old(spiderControllerList)
        invariant distributeThreadList == old(distributeThreadList) && spiderRecord == old(spiderRecord)
      {
        assert s[i..][1..] == s[i + 1..];
        if s[i].SeedOther? {
          err := Some(ValueError);
          assert queue + Seeded(s[i..], i, prepare).0 == queue;
          return;
        }
        var r := prepare(s[i].r, i);
        if r.Err? {
          err := Some(r.error);
          assert queue + Seeded(s[i..], i, prepare).0 == queue;
          return;
        }
        queue := queue + [r.value];
        i := i + 1;
      }
      assert queue + Seeded(s[i..], i, prepare).0 == queue;
    }
  }
}
