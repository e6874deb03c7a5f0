/**
 * spider/spider_base.py: BaseSpider, the spider thread of the older API
 * (the base of DistributiveSpider). distribute_task seeds the request
 * queue, two scans over the parser threads decide when the crawl is over,
 * and run calls the spider middlewares around the crawl.
 *
 * distribute_task as written (`request.callback = request.callback.__name__`)
 * cannot seed any request: __setattr__ has already stored every callback
 * as a str, and a str has no `__name__`. The class uses the evidently
 * intended step, which keeps that name.
 */
module SpiderBases {
  import opened Common
  import Requests
  import opened Hooks
  import Parsers
  import opened Spiders

  /** A new session and an empty cookie jar, both object `id`. */
  function WithSession(r: Requests.Request, id: nat): Result<Requests.Request> {
    var r1 :- Requests.SetAttr(r, Session, VObj(id));
    Requests.SetAttr(r1, CookieJar, VJar(id, 0))
  }

  /** The session and jar are set and every other attribute stays. */
  lemma WithSessionSets(r: Requests.Request, id: nat)
    ensures WithSession(r, id).Ok?
    ensures var r2 := WithSession(r, id).value;
            r2.attrs[Session] == VObj(id) && r2.attrs[CookieJar] == VJar(id, 0)
            && forall k :: k in r.attrs && k != Session && k != CookieJar ==> k in r2.attrs && r2.attrs[k] == r.attrs[k]
  {
    Requests.SetAttrStores(r, Session, VObj(id));
    Requests.SetAttrStores(Requests.SetAttr(r, Session, VObj(id)).value, CookieJar, VJar(id, 0));
  }

  /** One seed of distribute_task as written, given object `id` for its session and jar. */
  function SeedTaskAsWritten(r: Requests.Request, id: nat): Result<Requests.Request> {
    var r1 :- DefaultCallback(r);
    var cb :- Requests.GetAttr(r1, Callback);
    var name :- Parsers.NameOf(cb);
    var r2 :- Requests.SetAttr(r1, Callback, name);
    WithSession(r2, id)
  }

  /** As written, every Request seed makes distribute_task raise AttributeError. */
  lemma SeedTaskAsWrittenRaises(r: Requests.Request, id: nat)
    requires Requests.WellFormed(r)
    ensures SeedTaskAsWritten(r, id) == Err(AttributeError)
  {
  }

  /** The same concretely: a seed yielded as Request('http://a/') with no callback. */
  lemma SeedTaskCounterexample()
    ensures SeedTaskAsWritten(Requests.Request(map[Url := VStr("http://a/"), Callback := VNone], false), 0)
            == Err(AttributeError)
  {
    SeedTaskAsWrittenRaises(Requests.Request(map[Url := VStr("http://a/"), Callback := VNone], false), 0);
  }

  /** One seed as evidently intended: the default callback, then its own session and jar. */
  function SeedTask(r: Requests.Request, id: nat): (res: Result<Requests.Request>)
    ensures res.Ok? <==> Callback in r.attrs
    ensures res.Err? ==> res.error == AttributeError
  {
    var r1 :- DefaultCallback(r);
    WithSession(r1, id)
  }

  /** The two steps of a seed that has a callback attribute. */
  lemma SeedTaskSteps(r: Requests.Request, id: nat) returns (r1: Requests.Request)
    requires Callback in r.attrs
    ensures DefaultCallback(r) == Ok(r1) && WithSession(r1, id).Ok? && SeedTask(r, id) == WithSession(r1, id)
  {
    r1 := DefaultCallback(r).value;
    WithSessionSets(r1, id);
  }

  /** Every seeded request has session and jar object `id`. */
  lemma SeedTaskSession()
    ensures forall r: Requests.Request, id: nat :: SeedTask(r, id).Ok? ==>
              var s := SeedTask(r, id).value;
              Session in s.attrs && s.attrs[Session] == VObj(id) && CookieJar in s.attrs && s.attrs[CookieJar] == VJar(id, 0)
  {
    forall r: Requests.Request, id: nat | SeedTask(r, id).Ok?
      ensures var s := SeedTask(r, id).value;
              Session in s.attrs && s.attrs[Session] == VObj(id) && CookieJar in s.attrs && s.attrs[CookieJar] == VJar(id, 0)
    {
      var r1 := SeedTaskSteps(r, id);
      WithSessionSets(r1, id);
    }
  }

  /** A seeded request has callback 'parse' for none and the seed's own otherwise; every other attribute is as yielded. */
  lemma SeedTaskKeeps(r: Requests.Request, id: nat)
    requires Callback in r.attrs
    ensures var s := SeedTask(r, id).value;
            s.attrs[Callback] == (if r.attrs[Callback] == VNone then VStr("parse") else r.attrs[Callback])
            && forall k :: k in r.attrs && k != Callback && k != Session && k != CookieJar ==> k in s.attrs && s.attrs[k] == r.attrs[k]
  {
    var r1 := SeedTaskSteps(r, id);
    WithSessionSets(r1, id);
  }

  /**
   * When the preparation gives the request of seed i session object i, no
   * two requests of the loop share a session.
   */
  lemma FreshSessions(seeds: seq<Seed>, id: nat, prepare: Prepare, i: nat, j: nat)
    requires forall r: Requests.Request, k: nat :: prepare(r, k).Ok? ==>
               Session in prepare(r, k).value.attrs && prepare(r, k).value.attrs[Session] == VObj(k)
    requires i < j < |Seeded(seeds, id, prepare).0|
    ensures var puts := Seeded(seeds, id, prepare).0;
            Session in puts[i].attrs && Session in puts[j].attrs && puts[i].attrs[Session] != puts[j].attrs[Session]
  {
    SeededPuts(seeds, id, prepare);
  }

  /**
   * run: spider_start on every middleware, then (if none raised) the
   * parsers and spider_logic as one step; on an exception, spider_error on
   * every middleware; finally, after the waits, spider_close on every
   * middleware. The first exception of a spider_error or spider_close
   * loop ends that loop and escapes, the later one winning. `waitBuffer`
   * says whether the finally block waits for the item buffer (SPIDER_TYPE 1,
   * or 2 on the master) and `logicStartsBuffer` whether spider_logic
   * assigned `_item_buffer`; waiting while it is still None raises
   * AttributeError from `None.is_alive()`, which escapes before any
   * spider_close.
   */
  function RunTrace(n: nat, raises: Raises, waitBuffer: bool, logicStartsBuffer: bool): (seq<Event>, bool) {
    var startRaised := AnyRaises(Calls(SpiderStart, n), raises);
    var failed := startRaised || raises(Body);
    var errors := if failed then UntilRaise(Calls(SpiderError, n), raises) else [];
    var noBuffer := waitBuffer && (startRaised || !logicStartsBuffer);
    (UntilRaise(Calls(SpiderStart, n), raises) + (if startRaised then [] else [Body]) + errors
       + (if noBuffer then [] else UntilRaise(Calls(SpiderClose, n), raises)),
     noBuffer || (failed && AnyRaises(Calls(SpiderError, n), raises)) || AnyRaises(Calls(SpiderClose, n), raises))
  }

  /** Whether run's finally block reaches the spider_close loop: it does unless it waits on an item buffer never started. */
  predicate ReachesClose(n: nat, raises: Raises, waitBuffer: bool, logicStartsBuffer: bool) {
    !waitBuffer || (logicStartsBuffer && !AnyRaises(Calls(SpiderStart, n), raises))
  }

  /**
   * When the item buffer wait does not fail, spider_close is reached
   * whatever happens before it: the trace ends with the spider_close loop,
   * all of it when no spider_close raises.
   */
  lemma RunClosesAlways(n: nat, raises: Raises, waitBuffer: bool, logicStartsBuffer: bool)
    requires ReachesClose(n, raises, waitBuffer, logicStartsBuffer)
    ensures var t := RunTrace(n, raises, waitBuffer, logicStartsBuffer).0;
            var closes := UntilRaise(Calls(SpiderClose, n), raises);
            |closes| <= |t| && t[|t| - |closes|..] == closes
    ensures !AnyRaises(Calls(SpiderClose, n), raises) ==> UntilRaise(Calls(SpiderClose, n), raises) == Calls(SpiderClose, n)
  {
    var t := RunTrace(n, raises, waitBuffer, logicStartsBuffer).0;
    var closes := UntilRaise(Calls(SpiderClose, n), raises);
    var front := t[..|t| - |closes|];
    assert t == front + closes;
    if !AnyRaises(Calls(SpiderClose, n), raises) {
      UntilRaiseAt(Calls(SpiderClose, n), raises, n);
    }
  }

  /**
   * When the finally block waits on an item buffer that was never started
   * (a local spider, or a master whose spider_logic raised before
   * ItemBuffer was built), run raises and no spider_close is called.
   */
  lemma NoBufferSkipsClose(n: nat, raises: Raises, waitBuffer: bool, logicStartsBuffer: bool)
    requires !ReachesClose(n, raises, waitBuffer, logicStartsBuffer)
    ensures RunTrace(n, raises, waitBuffer, logicStartsBuffer).1
    ensures forall i :: Call(SpiderClose, i) !in RunTrace(n, raises, waitBuffer, logicStartsBuffer).0
  {
    var starts := UntilRaise(Calls(SpiderStart, n), raises);
    var errors := UntilRaise(Calls(SpiderError, n), raises);
    assert forall e :: e in starts ==> e.Call? && e.hook == SpiderStart;
    assert forall e :: e in errors ==> e.Call? && e.hook == SpiderError;
  }

  /**
   * The trace begins with the spider_start loop; the crawl runs only when
   * every spider_start returned, and spider_error is called only after an
   * exception, on every middleware when none of them raises.
   */
  lemma RunStartsFirst(n: nat, raises: Raises, waitBuffer: bool, logicStartsBuffer: bool)
    ensures var t := RunTrace(n, raises, waitBuffer, logicStartsBuffer).0;
            var starts := UntilRaise(Calls(SpiderStart, n), raises);
            |starts| <= |t| && t[..|starts|] == starts
    ensures Body in RunTrace(n, raises, waitBuffer, logicStartsBuffer).0 <==> !AnyRaises(Calls(SpiderStart, n), raises)
    ensures !AnyRaises(Calls(SpiderStart, n), raises) && !raises(Body) ==> forall i :: Call(SpiderError, i) !in RunTrace(n, raises, waitBuffer, logicStartsBuffer).0
    ensures (AnyRaises(Calls(SpiderStart, n), raises) || raises(Body)) && !AnyRaises(Calls(SpiderError, n), raises) ==>
              forall i :: 0 <= i < n ==> Call(SpiderError, i) in RunTrace(n, raises, waitBuffer, logicStartsBuffer).0
  {
    var starts := UntilRaise(Calls(SpiderStart, n), raises);
    var errors := UntilRaise(Calls(SpiderError, n), raises);
    var closes := UntilRaise(Calls(SpiderClose, n), raises);
    assert forall e :: e in starts ==> e.Call? && e.hook == SpiderStart;
    assert forall e :: e in errors ==> e.Call? && e.hook == SpiderError;
    assert forall e :: e in closes ==> e.Call? && e.hook == SpiderClose;
    if !AnyRaises(Calls(SpiderError, n), raises) {
      UntilRaiseAt(Calls(SpiderError, n), raises, n);
    }
  }

  class BaseSpider {
    /** The class attribute spider_name. */
    const spiderName: Option<string>
    /** `self.__class__.__name__` */
    const className: string
    var parserList: seq<Worker>
    var spiderDone: bool
    var spiderMaster: bool
    /** The requests distribute_task has put on `_queue`, in order. */
    var queue: seq<Requests.Request>

    constructor (spiderName: Option<string>, className: string)
      ensures this.spiderName == spiderName && this.className == className
      ensures parserList == [] && !spiderDone && !spiderMaster && queue == []
    {
      this.spiderName := spiderName;
      this.className := className;
      parserList := [];
      spiderDone := false;
      spiderMaster := false;
      queue := [];
    }

    /** The `name` property. */
    function Name(): string {
      SpiderName(spiderName, className)
    }

    /**
     * distribute_task, given what start_requests yields (None when it is
     * not a generator function) and the first fresh object id for the
     * seeds' sessions and jars.
     */
    method DistributeTask(seeds: Option<seq<Seed>>, id: nat) returns (err: Option<Exc>)
      modifies this
      ensures seeds.None? ==> err == Some(NotGeneratorFunction) && queue == old(queue)
      ensures seeds.Some? ==> (queue, err) == (old(queue) + Seeded(seeds.value, id, SeedTask).0, Seeded(seeds.value, id, SeedTask).1)
      ensures parserList == old(parserList) && spiderDone == old(spiderDone) && spiderMaster == old(spiderMaster)
    {
      if seeds.None? {
        return Some(NotGeneratorFunction);
      }
      var prepare: Prepare := SeedTask;
      err := SeedAll(seeds.value, id, prepare);
    }

    /** The loop over the seeds, each prepared by `prepare` and put on the queue. */
    method SeedAll(s: seq<Seed>, id: nat, prepare: Prepare) returns (err: Option<Exc>)
      modifies this
      ensures (queue, err) == (old(queue) + Seeded(s, id, prepare).0, Seeded(s, id, prepare).1)
      ensures parserList == old(parserList) && spiderDone == old(spiderDone) && spiderMaster == old(spiderMaster)
    {
      err := None;
      var i := 0;
      while i < |s|
        invariant 0 <= i <= |s|
        invariant old(queue) + Seeded(s, id, prepare).0 == queue + Seeded(s[i..], id + i, prepare).0
        invariant Seeded(s, id, prepare).1 == Seeded(s[i..], id + i, prepare).1
        invariant err.None?
        invariant parserList == old(parserList) && spiderDone == old(spiderDone) && spiderMaster == old(spiderMaster)
      {
        assert s[i..][1..] == s[i + 1..];
        if s[i].SeedOther? {
          err := Some(ValueError);
          assert queue + Seeded(s[i..], id + i, prepare).0 == queue;
          return;
        }
        var r := prepare(s[i].r, id + i);
        if r.Err? {
          err := Some(r.error);
          assert queue + Seeded(s[i..], id + i, prepare).0 == queue;
          return;
        }
        queue := queue + [r.value];
        i := i + 1;
      }
      assert queue + Seeded(s[i..], id + i, prepare).0 == queue;
    }

    /** all_parser_is_waiting: every parser waits (liveness is not asked). */
    method AllParserIsWaiting() returns (waiting: bool)
      ensures waiting <==> forall i :: 0 <= i < |parserList| ==> parserList[i].waiting
    {
      waiting := true;
      var i := 0;
      while i < |parserList|
        invariant 0 <= i <= |parserList|
        invariant forall j :: 0 <= j < i ==> parserList[j].waiting
      {
        if !parserList[i].waiting {
          waiting := false;
          break;
        }
        i := i + 1;
      }
    }

    /** all_parser_is_done */
    method AllParserIsDone() returns (done: bool)
      ensures done <==> NoneAlive(parserList)
    {
      done := ScanAlive(parserList);
    }

    /** The first loop of stop_all_parser. */
    method StopAllParser()
      modifies parserList
      ensures forall i :: 0 <= i < |parserList| ==> parserList[i].stop
      ensures forall i :: 0 <= i < |parserList| ==>
                parserList[i].alive == old(parserList[i].alive) && parserList[i].waiting == old(parserList[i].waiting)
    {
      SetStop(parserList);
    }

    /**
     * One pass of wait_parser_done's loop. It ends the loop when every
     * parser waits (after stopping them all) or none is alive; the loop's
     * end sets spider_done. A pass that does not end it changes nothing.
     */
    method WaitParserDonePass() returns (ended: bool)
      modifies this, parserList
      ensures ended <==> (forall i :: 0 <= i < |parserList| ==> parserList[i].waiting) || NoneAlive(parserList)
      ensures ended ==> spiderDone
      ensures !ended ==> spiderDone == old(spiderDone)
      ensures (forall i :: 0 <= i < |parserList| ==> parserList[i].waiting) ==>
                forall i :: 0 <= i < |parserList| ==> parserList[i].stop
      ensures parserList == old(parserList) && queue == old(queue) && spiderMaster == old(spiderMaster)
      ensures forall i :: 0 <= i < |parserList| ==>
                parserList[i].alive == old(parserList[i].alive) && parserList[i].waiting == old(parserList[i].waiting)
    {
      var waiting := AllParserIsWaiting();
      if waiting {
        StopAllParser();
        ended := true;
      } else {
        ended := AllParserIsDone();
      }
      if ended {
        spiderDone := true;
      }
    }

    /**
     * run over n spider middlewares, with the waits taken as finished.
     * `spiderType` is settings.SPIDER_TYPE and `logicStartsBuffer` whether
     * the subclass's spider_logic assigned `_item_buffer` (BaseSpider's own
     * spider_logic does nothing, and sets no master flag).
     */
    method Run(n: nat, raises: Raises, spiderType: int, logicStartsBuffer: bool) returns (trace: seq<Event>, raised: bool)
      modifies this
      ensures (trace, raised) == RunTrace(n, raises, spiderType == 1 || (spiderType == 2 && spiderMaster), logicStartsBuffer)
      ensures spiderDone
      ensures parserList == old(parserList) && queue == old(queue) && spiderMaster == old(spiderMaster)
    {
      var starts, startRaised := CallUntilRaise(SpiderStart, n, raises);
      var failed := startRaised;
      var body: seq<Event> := [];
      if !startRaised {
        body := [Body];   // the parsers start; spider_logic runs
        failed := raises(Body);
      }
      var errors: seq<Event> := [];
      raised := false;
      if failed {
        errors, raised := CallUntilRaise(SpiderError, n, raises);
      }
      // finally: wait_parser_done, which ends with spider_done set
      spiderDone := true;
      var bufferStarted := !startRaised && logicStartsBuffer;
      if (spiderType == 1 || (spiderType == 2 && spiderMaster)) && !bufferStarted {
        // wait_item_buffer_done: `self._item_buffer.is_alive()` on None raises AttributeError
        trace := starts + body + errors;
        assert trace == trace + [];
        raised := true;
        return;
      }
      var closes, closeRaised := CallUntilRaise(SpiderClose, n, raises);
      trace := starts + body + errors + closes;
      raised := raised || closeRaised;
    }
  }
}
