/**
 * parser.py: Parser, the older dispatch thread. Its loop is the one in
 * module Dispatch with DropRequestException from send propagating at once.
 * Its `callback, response = request.send()` unpacks the one response
 * parser send returns, which fails on every attempt; the model keeps that
 * reading apart (UnpackedSend) and otherwise takes the callback to run on
 * the response send returned. A child it adds takes the parent's session and cookie jar
 * outright and gets its callback turned into a name.
 */
module Parsers {
  import opened Common
  import Requests
  import opened Dispatch
  import Hooks
  import SC = SpiderControllers

  /** The callback as `new_request.callback.__name__` reads it: only a function object has a name. */
  function NameOf(v: Val): Result<Val> {
    if v.VFunc? then Ok(VStr(v.name)) else Err(AttributeError)
  }

  /** parser.py's callback step as written: a truthy callback is replaced by its `__name__`, a falsy one by 'parse'. */
  function NameCallbackAsWritten(child: Requests.Request): Result<Requests.Request> {
    var cb :- Requests.GetAttr(child, Callback);
    if Truthy(cb) then
      var name :- NameOf(cb);
      Requests.SetAttr(child, Callback, name)
    else Requests.SetAttr(child, Callback, VStr("parse"))
  }

  /** The evidently intended callback step: a callback is already a name and is kept; a falsy one becomes 'parse'. */
  function NameCallback(child: Requests.Request): (res: Result<Requests.Request>)
    ensures res.Ok? <==> Callback in child.attrs
    ensures res.Ok? && Truthy(child.attrs[Callback]) ==> res.value == child
    ensures res.Ok? && !Truthy(child.attrs[Callback]) ==> Requests.Attr(res.value, Callback) == VStr("parse")
  {
    var cb :- Requests.GetAttr(child, Callback);
    if Truthy(cb) then Ok(child) else Requests.SetAttr(child, Callback, VStr("parse"))
  }

  /** `new_request.session = old_request.session; new_request.cookie_jar = old_request.cookie_jar` */
  function ShareSession(child: Requests.Request, parent: Requests.Request): (res: Result<Requests.Request>)
    ensures res.Ok? <==> Session in parent.attrs && CookieJar in parent.attrs
    ensures res.Ok? ==> Requests.Attr(res.value, Session) == parent.attrs[Session]
                        && Requests.Attr(res.value, CookieJar) == parent.attrs[CookieJar]
  {
    var s :- Requests.GetAttr(parent, Session);
    var c1 := Requests.SetAttr(child, Session, s).value;
    var j :- Requests.GetAttr(parent, CookieJar);
    Requests.SetAttr(c1, CookieJar, j)
  }

  /** The level step: `old_request.level - 1` when that is positive, else 1. */
  function DeeperLevel(child: Requests.Request, parent: Requests.Request, on: bool): (res: Result<Requests.Request>)
    ensures res.Ok? && !on ==> res.value == child
    ensures res.Ok? && on ==>
              Requests.Attr(parent, Level).VInt? && Requests.Attr(res.value, Level).VInt? && Requests.Attr(res.value, Level).i >= 1
    ensures res.Ok? && on && Requests.Attr(parent, Level).i > 1 ==>
              Requests.Attr(res.value, Level) == VInt(Requests.Attr(parent, Level).i - 1)
    ensures res.Ok? && on && Requests.Attr(parent, Level).i <= 1 ==> Requests.Attr(res.value, Level) == VInt(1)
  {
    if !on then Ok(child)
    else
      var pl :- Requests.GetAttr(parent, Level);
      if !pl.VInt? then Err(TypeError)
      else Requests.SetAttr(child, Level, VInt(if pl.i - 1 > 0 then pl.i - 1 else 1))
  }

  /**
   * add_new_request's changes as written. `settings.REQUEST_QUEUE` is the
   * table of queue classes, so the level step runs only when that value
   * equals 3.
   */
  function ParserInheritAsWritten(child: Requests.Request, parent: Requests.Request, join: Option<SC.Join>, requestQueue: Val)
    : Result<Requests.Request>
  {
    var c1 :- SC.JoinUrl(child, join);
    var c2 :- NameCallbackAsWritten(c1);
    var c3 :- ShareSession(c2, parent);
    DeeperLevel(c3, parent, requestQueue == VInt(3))
  }

  /** add_new_request's changes as evidently intended: the callback kept, the level step under REQUEST_QUEUE_MODE 3. */
  function ParserInherit(child: Requests.Request, parent: Requests.Request, join: Option<SC.Join>, queueMode: int)
    : Result<Requests.Request>
  {
    var c1 :- SC.JoinUrl(child, join);
    var c2 :- NameCallback(c1);
    var c3 :- ShareSession(c2, parent);
    DeeperLevel(c3, parent, queueMode == 3)
  }

  /**
   * As written, a child that has a callback cannot be added: __setattr__
   * already stored that callback as a str, and a str has no `__name__`.
   */
  lemma NamedCallbackRaises(child: Requests.Request, parent: Requests.Request, join: Option<SC.Join>, requestQueue: Val)
    requires Requests.WellFormed(child) && SC.JoinUrl(child, join).Ok?
    requires Truthy(Requests.Attr(child, Callback))
    ensures ParserInheritAsWritten(child, parent, join, requestQueue) == Err(AttributeError)
  {
    var c1 := SC.JoinUrl(child, join).value;
    SC.JoinUrlKeeps(child, join, Callback);
  }

  /** The same concretely: a child yielded with callback 'parse_detail' makes add_new_request raise. */
  lemma NamedCallbackCounterexample(parent: Requests.Request)
    ensures var child := Requests.Request(map[Url := VStr("http://a/b"), Callback := VStr("parse_detail")], false);
            ParserInheritAsWritten(child, parent, None, VDict(map[])) == Err(AttributeError)
  {
    var child := Requests.Request(map[Url := VStr("http://a/b"), Callback := VStr("parse_detail")], false);
    NamedCallbackRaises(child, parent, None, VDict(map[]));
  }

  /** As written, with REQUEST_QUEUE a table of classes the level step never runs. */
  lemma LevelNeverSet(child: Requests.Request, parent: Requests.Request, join: Option<SC.Join>, requestQueue: Val)
    requires requestQueue.VDict?
    requires ParserInheritAsWritten(child, parent, join, requestQueue).Ok?
    ensures Requests.Attr(ParserInheritAsWritten(child, parent, join, requestQueue).value, Level) == Requests.Attr(child, Level)
  {
    var c1 := SC.JoinUrl(child, join).value;
    SC.JoinUrlKeeps(child, join, Level);
    var c2 := NameCallbackAsWritten(c1).value;
    NameCallbackAsWrittenKeeps(c1, Level);
    var c3 := ShareSession(c2, parent).value;
    ShareSessionKeeps(c2, parent, Level);
  }

  /** The intermediate requests of a successful ParserInherit. */
  lemma ParserInheritSteps(child: Requests.Request, parent: Requests.Request, join: Option<SC.Join>, queueMode: int)
      returns (c1: Requests.Request, c2: Requests.Request, c3: Requests.Request)
    requires ParserInherit(child, parent, join, queueMode).Ok?
    ensures SC.JoinUrl(child, join) == Ok(c1) && NameCallback(c1) == Ok(c2) && ShareSession(c2, parent) == Ok(c3)
    ensures DeeperLevel(c3, parent, queueMode == 3) == ParserInherit(child, parent, join, queueMode)
  {
    c1 := SC.JoinUrl(child, join).value;
    c2 := NameCallback(c1).value;
    c3 := ShareSession(c2, parent).value;
  }

  lemma NameCallbackKeeps(child: Requests.Request, k: Key)
    requires NameCallback(child).Ok? && k != Callback
    ensures Requests.Attr(NameCallback(child).value, k) == Requests.Attr(child, k)
  {
  }

  lemma NameCallbackAsWrittenKeeps(child: Requests.Request, k: Key)
    requires NameCallbackAsWritten(child).Ok? && k != Callback
    ensures Requests.Attr(NameCallbackAsWritten(child).value, k) == Requests.Attr(child, k)
  {
  }

  lemma ShareSessionKeeps(child: Requests.Request, parent: Requests.Request, k: Key)
    requires ShareSession(child, parent).Ok? && k != Session && k != CookieJar
    ensures Requests.Attr(ShareSession(child, parent).value, k) == Requests.Attr(child, k)
  {
  }

  lemma DeeperLevelKeeps(child: Requests.Request, parent: Requests.Request, on: bool, k: Key)
    requires DeeperLevel(child, parent, on).Ok? && k != Level
    ensures Requests.Attr(DeeperLevel(child, parent, on).value, k) == Requests.Attr(child, k)
  {
  }

  /** Each step of a successful ParserInherit changes only its own attributes. */
  lemma ParserInheritStepsKeep(child: Requests.Request, parent: Requests.Request, join: Option<SC.Join>, queueMode: int, k: Key)
      returns (c1: Requests.Request, c2: Requests.Request, c3: Requests.Request)
    requires ParserInherit(child, parent, join, queueMode).Ok?
    ensures SC.JoinUrl(child, join) == Ok(c1) && NameCallback(c1) == Ok(c2) && ShareSession(c2, parent) == Ok(c3)
    ensures DeeperLevel(c3, parent, queueMode == 3) == ParserInherit(child, parent, join, queueMode)
    ensures k != Url ==> Requests.Attr(c1, k) == Requests.Attr(child, k)
    ensures k != Callback ==> Requests.Attr(c2, k) == Requests.Attr(c1, k)
    ensures k != Session && k != CookieJar ==> Requests.Attr(c3, k) == Requests.Attr(c2, k)
    ensures k != Level ==> Requests.Attr(ParserInherit(child, parent, join, queueMode).value, k) == Requests.Attr(c3, k)
  {
    c1, c2, c3 := ParserInheritSteps(child, parent, join, queueMode);
    if k != Url { SC.JoinUrlKeeps(child, join, k); }
    if k != Callback { NameCallbackKeeps(c1, k); }
    if k != Session && k != CookieJar { ShareSessionKeeps(c2, parent, k); }
    if k != Level { DeeperLevelKeeps(c3, parent, queueMode == 3, k); }
  }

  /** Corrected: a child keeps its callback name, and one without a callback is sent to 'parse'. */
  lemma ParserInheritCallback(child: Requests.Request, parent: Requests.Request, join: Option<SC.Join>, queueMode: int)
    requires ParserInherit(child, parent, join, queueMode).Ok?
    ensures var c := ParserInherit(child, parent, join, queueMode).value;
            (Truthy(Requests.Attr(child, Callback)) ==> Requests.Attr(c, Callback) == Requests.Attr(child, Callback))
            && (!Truthy(Requests.Attr(child, Callback)) ==> Requests.Attr(c, Callback) == VStr("parse"))
  {
    var c1, c2, c3 := ParserInheritStepsKeep(child, parent, join, queueMode, Callback);
  }

  /** Whatever session and cookie jar a child had, it ends with its parent's. */
  lemma ParserInheritShares(child: Requests.Request, parent: Requests.Request, join: Option<SC.Join>, queueMode: int)
    requires ParserInherit(child, parent, join, queueMode).Ok?
    ensures Session in parent.attrs && CookieJar in parent.attrs
    ensures var c := ParserInherit(child, parent, join, queueMode).value;
            Requests.Attr(c, Session) == parent.attrs[Session] && Requests.Attr(c, CookieJar) == parent.attrs[CookieJar]
  {
    var c1, c2, c3 := ParserInheritSteps(child, parent, join, queueMode);
    DeeperLevelKeeps(c3, parent, queueMode == 3, Session);
    DeeperLevelKeeps(c3, parent, queueMode == 3, CookieJar);
  }

  /** Corrected: in queue mode 3 the child's level is the parent's minus 1, but never below 1. */
  lemma ParserInheritLevel(child: Requests.Request, parent: Requests.Request, join: Option<SC.Join>, queueMode: int)
    requires ParserInherit(child, parent, join, queueMode).Ok? && queueMode == 3
    ensures Requests.Attr(parent, Level).VInt?
    ensures var l := Requests.Attr(ParserInherit(child, parent, join, queueMode).value, Level);
            l.VInt? && l.i >= 1 && l.i >= Requests.Attr(parent, Level).i - 1
            && (Requests.Attr(parent, Level).i > 1 ==> l.i == Requests.Attr(parent, Level).i - 1)
            && (Requests.Attr(parent, Level).i <= 1 ==> l.i == 1)
  {
    var c1, c2, c3 := ParserInheritSteps(child, parent, join, queueMode);
    DeeperLevelOn(c3, parent);
  }

  lemma DeeperLevelOn(c3: Requests.Request, parent: Requests.Request)
    requires DeeperLevel(c3, parent, true).Ok?
    ensures Requests.Attr(parent, Level).VInt?
    ensures var l := Requests.Attr(DeeperLevel(c3, parent, true).value, Level);
            l.VInt? && l.i >= 1 && l.i >= Requests.Attr(parent, Level).i - 1
            && (Requests.Attr(parent, Level).i > 1 ==> l.i == Requests.Attr(parent, Level).i - 1)
            && (Requests.Attr(parent, Level).i <= 1 ==> l.i == 1)
  {
  }

  /**
   * `callback, response = request.send()` as written: send returns the one
   * response parser, which is not iterable, so every attempt that returns
   * raises TypeError at the unpacking and is counted as a failed attempt.
   */
  function UnpackedSend(o: Outcomes): (u: Outcomes)
    ensures u.onIn == o.onIn && u.onError == o.onError && u.onFailed == o.onFailed && u.onClose == o.onClose
    ensures forall i :: u.send(i).SendRaised? && (o.send(i).SendRaised? ==> u.send(i) == o.send(i))
  {
    Outcomes(o.onIn, (i: nat) => if o.send(i).Returned? then SendRaised(TypeError) else o.send(i), o.onError, o.onFailed, o.onClose)
  }

  /** With the unpacking as written, no attempt ever completes. */
  lemma {:induction false} UnpackedAttemptsFail(i: nat, retry: int, n: nat, o: Outcomes)
    requires i < retry
    ensures !Attempts(i, retry, n, UnpackedSend(o), true).1.Completed?
    ensures Attempts(i, retry, n, UnpackedSend(o), true).1.Replaced? ==> Attempts(i, retry, n, UnpackedSend(o), true).1.response.None?
    decreases retry - i
  {
    var u := UnpackedSend(o);
    assert u.send(i).SendRaised?;
    if !Propagates(true, u.send(i).e) && ReplySteps(u, false, i, 0, n).1.None? && i + 1 < retry {
      UnpackedAttemptsFail(i + 1, retry, n, o);
    }
  }

  /** As written, the callback never sees a response: no request reaches it with one. */
  lemma UnpackedNeverResponds(n: nat, retry: int, o: Outcomes)
    ensures var e := Dispatch.RunRequests(n, retry, UnpackedSend(o), true).1;
            !(e.Completed? && e.response.Some?) && !(e.Replaced? && e.response.Some?)
  {
    if retry > 0 {
      UnpackedAttemptsFail(0, retry, n, o);
    }
  }

  /** A send that returns on the first and only attempt: as written the request is exhausted, not answered. */
  lemma UnpackedSendCounterexample()
    ensures var o := Outcomes((m: nat) => None, (i: nat) => Returned(7), (i: nat, m: nat) => NoReply, (m: nat) => None, (m: nat) => NoReply);
            Dispatch.RunRequests(0, 1, UnpackedSend(o), true).1 == Exhausted
            && Dispatch.RunRequests(0, 1, o, true).1 == Completed(Some(7))
  {
    var o := Outcomes((m: nat) => None, (i: nat) => Returned(7), (i: nat, m: nat) => NoReply, (m: nat) => None, (m: nat) => NoReply);
    assert UnpackedSend(o).send(0) == SendRaised(TypeError);
  }

  /**
   * The intended reading, which Parser.RunRequests follows: a request whose
   * hooks all pass (none returns a Request or raises) and whose first send
   * returns reaches its callback with that response.
   */
  lemma SendReturnsReachesCallback(n: nat, retry: int, o: Outcomes)
    requires InSteps(0, n, o).1.None? && retry > 0 && o.send(0).Returned?
    requires forall m :: 0 <= m < n ==> !Stops(o.onClose(m))
    ensures Dispatch.RunRequests(n, retry, o, true).1 == Completed(Some(o.send(0).response))
  {
    ReplyStepsStop(o, true, 0, 0, n);
  }

  /**
   * The run loop's callback resolution: `task.callback = eval(...)` assigns
   * the spider's method, which __setattr__ stores as its name again, so a
   * request whose callback names a spider attribute is left as it was.
   */
  function ResolveCallback(r: Requests.Request, spiderAttrs: set<string>): (res: Result<Requests.Request>)
    ensures res.Ok? <==> Callback in r.attrs
  {
    var cb :- Requests.GetAttr(r, Callback);
    if Truthy(cb) && cb.VStr? && cb.s in spiderAttrs then Requests.SetAttr(r, Callback, VFunc(cb.s)) else Ok(r)
  }

  lemma ResolveCallbackKeeps(r: Requests.Request, spiderAttrs: set<string>)
    requires Callback in r.attrs
    ensures ResolveCallback(r, spiderAttrs) == Ok(r)
  {
    var cb := r.attrs[Callback];
    if Truthy(cb) && cb.VStr? && cb.s in spiderAttrs {
      assert r.attrs[Callback := VStr(cb.s)] == r.attrs;
    }
  }

  /** The child one yield adds. */
  function ChildOf(y: SC.Yielded, parent: Requests.Request, join: Option<SC.Join>, queueMode: int): seq<Requests.Request> {
    if y.YRequest? && ParserInherit(y.r, parent, join, queueMode).Ok? then [ParserInherit(y.r, parent, join, queueMode).value] else []
  }

  /** The children the first n yields add. */
  function Children(ys: seq<SC.Yielded>, n: nat, parent: Requests.Request, join: Option<SC.Join>, queueMode: int): seq<Requests.Request>
    requires n <= |ys|
  {
    if n == 0 then [] else Children(ys, n - 1, parent, join, queueMode) + ChildOf(ys[n - 1], parent, join, queueMode)
  }

  lemma RouteStep(q0: seq<Requests.Request>, before: seq<Requests.Request>, after: seq<Requests.Request>,
                  ys: seq<SC.Yielded>, done: nat, parent: Requests.Request, join: Option<SC.Join>, queueMode: int)
    requires done < |ys|
    requires before == q0 + Children(ys, done, parent, join, queueMode)
    requires after == before + ChildOf(ys[done], parent, join, queueMode)
    ensures after == q0 + Children(ys, done + 1, parent, join, queueMode)
  {
    ConcatAssoc(q0, Children(ys, done, parent, join, queueMode), ChildOf(ys[done], parent, join, queueMode));
  }

  /** A task whose callback resolution cannot raise, so that run reaches `self.waiting = False`. */
  predicate Settles(task: Option<SC.Yielded>) {
    task.Some? && !(task.value.YRequest? && Callback !in task.value.r.attrs)
  }

  class Parser {
    /** The requests this parser has put on the request queue, in order. */
    var queued: seq<Requests.Request>
    /** The items it has put on the item queue. */
    var itemsQueued: seq<map<Key, Val>>
    var waiting: bool
    var stop: bool
    /** The number of request middlewares, Parser.REQUEST_MIDDLEWARE. */
    const nMiddleware: nat
    /** settings.REQUEST_RETRY_TIMES and settings.REQUEST_QUEUE_MODE. */
    const retryTimes: int
    const queueMode: int
    /** The spider's attribute names. */
    const spiderAttrs: set<string>

    constructor (nMiddleware: nat, retryTimes: int, queueMode: int, spiderAttrs: set<string>)
      ensures !waiting && !stop && queued == [] && itemsQueued == []
      ensures this.nMiddleware == nMiddleware && this.retryTimes == retryTimes && this.queueMode == queueMode
      ensures this.spiderAttrs == spiderAttrs
    {
      queued, itemsQueued := [], [];
      waiting, stop := false, false;
      this.nMiddleware, this.retryTimes, this.queueMode, this.spiderAttrs := nMiddleware, retryTimes, queueMode, spiderAttrs;
    }

    /** add_new_request, corrected: the inherited child goes on the request queue. */
    method AddNewRequest(child: Requests.Request, parent: Requests.Request, join: Option<SC.Join>) returns (res: Result<()>)
      modifies this
      ensures ParserInherit(child, parent, join, queueMode).Ok? ==>
                res == Ok(()) && queued == old(queued) + [ParserInherit(child, parent, join, queueMode).value]
      ensures ParserInherit(child, parent, join, queueMode).Err? ==>
                res == Err(ParserInherit(child, parent, join, queueMode).error) && queued == old(queued)
      ensures itemsQueued == old(itemsQueued) && waiting == old(waiting) && stop == old(stop)
    {
      var c := ParserInherit(child, parent, join, queueMode);
      if c.Err? {
        return Err(c.error);
      }
      queued := queued + [c.value];
      return Ok(());
    }

    /** `parse_task(task, request, response)` for a task the callback yielded. */
    method ParseChild(y: SC.Yielded, parent: Requests.Request, join: Option<SC.Join>) returns (res: Result<()>)
      modifies this
      ensures res.Ok? <==> !(y.YRequest? && ParserInherit(y.r, parent, join, queueMode).Err?)
      ensures res.Err? ==> res == Err(ParserInherit(y.r, parent, join, queueMode).error)
      ensures queued == old(queued) + ChildOf(y, parent, join, queueMode)
      ensures itemsQueued == old(itemsQueued) + SC.ItemOf(y)
      ensures waiting == old(waiting) && stop == old(stop)
    {
      match y {
        case YRequest(r) =>
          res := AddNewRequest(r, parent, join);
        case YItem(f) =>
          itemsQueued := itemsQueued + [f];
          res := Ok(());
        case YOther(_) =>
          res := Ok(());
      }
    }

    /**
     * The callback's yields, each through parse_task: the first error ends
     * the loop; after the last yield the generator raises `after`, when that
     * is not None.
     */
    method RouteYields(ys: seq<SC.Yielded>, after: Option<Exc>, parent: Requests.Request, join: Option<SC.Join>)
      returns (res: Result<()>, done: nat)
      modifies this
      ensures done <= |ys|
      ensures queued == old(queued) + Children(ys, done, parent, join, queueMode)
      ensures itemsQueued == old(itemsQueued) + SC.Items(ys, done)
      ensures forall k :: 0 <= k < done ==> !(ys[k].YRequest? && ParserInherit(ys[k].r, parent, join, queueMode).Err?)
      ensures done < |ys| ==> ys[done].YRequest? && ParserInherit(ys[done].r, parent, join, queueMode).Err?
                              && res == Err(ParserInherit(ys[done].r, parent, join, queueMode).error)
      ensures done == |ys| ==> res == SC.Outcome(after)
      ensures waiting == old(waiting) && stop == old(stop)
    {
      done := 0;
      while done < |ys|
        invariant done <= |ys|
        invariant queued == old(queued) + Children(ys, done, parent, join, queueMode)
        invariant itemsQueued == old(itemsQueued) + SC.Items(ys, done)
        invariant forall k :: 0 <= k < done ==> !(ys[k].YRequest? && ParserInherit(ys[k].r, parent, join, queueMode).Err?)
        invariant waiting == old(waiting) && stop == old(stop)
        decreases |ys| - done
      {
        ghost var before, beforeItems := queued, itemsQueued;
        var err := ParseChild(ys[done], parent, join);
        if err.Err? {
          assert queued == before;
          return err, done;
        }
        RouteStep(old(queued), before, queued, ys, done, parent, join, queueMode);
        SC.ItemStep(old(itemsQueued), beforeItems, itemsQueued, ys, done);
        done := done + 1;
      }
      return SC.Outcome(after), done;
    }

    /**
     * What run_requests leaves once its hook loop has ended with `ending`:
     * the result `res`, and the queues grown from `q0` and `i0`. A hook
     * exception or a DropRequestException from send propagates, a spent
     * retry budget ends quietly, a replacement is added as a child of
     * `parent` and the request dropped; otherwise, with a response, the
     * callback runs and a generator's yields are routed.
     */
    ghost predicate RanRequest(b: SC.Behaviour, parent: Requests.Request, ending: Ending,
                               q0: seq<Requests.Request>, i0: seq<map<Key, Val>>, res: Result<()>)
      reads this
    {
      ((ending.InRaised? || ending.SendPropagated? || ending.HookRaised?) ==> res == Err(ending.e) && queued == q0)
      && (ending.Exhausted? ==> res == Ok(()) && queued == q0)
      && (ending.Replaced? ==>
            (ParserInherit(ending.child, parent, SC.JoinOf(b, ending.response), queueMode).Ok? ==>
               res == Err(DropRequest)
               && queued == q0 + [ParserInherit(ending.child, parent, SC.JoinOf(b, ending.response), queueMode).value])
            && (ParserInherit(ending.child, parent, SC.JoinOf(b, ending.response), queueMode).Err? ==>
                  res == Err(ParserInherit(ending.child, parent, SC.JoinOf(b, ending.response), queueMode).error)))
      && (ending.Completed? && ending.response.None? ==>
            res == Ok(()) && queued == q0 && itemsQueued == i0)
      && (ending.Completed? && ending.response.Some? && !b.callback.Generator? ==>
            res == SC.Outcome(SC.CallbackRaise(b.callback)) && queued == q0 && itemsQueued == i0)
      && (ending.Completed? && ending.response.Some? && b.callback.Generator? ==>
            exists done: nat :: done <= |b.callback.output|
                           && queued == q0 + Children(b.callback.output, done, parent, SC.JoinOf(b, ending.response), queueMode)
                           && itemsQueued == i0 + SC.Items(b.callback.output, done)
                           && (done == |b.callback.output| ==> res == SC.Outcome(b.callback.raises))
                           && (done < |b.callback.output| ==>
                                 b.callback.output[done].YRequest?
                                 && ParserInherit(b.callback.output[done].r, parent, SC.JoinOf(b, ending.response), queueMode).Err?
                                 && res == Err(ParserInherit(b.callback.output[done].r, parent, SC.JoinOf(b, ending.response), queueMode).error)))
    }

    /**
     * run_requests: the hook loop, where DropRequestException from send
     * propagates; then a replacement is added as a child and the request
     * dropped, or the callback send returned runs on the response. An
     * exception from a hook or from the callback propagates.
     */
    method RunRequests(b: SC.Behaviour, parent: Requests.Request) returns (res: Result<()>, trace: seq<Step>, ending: Ending)
      modifies this
      ensures (trace, ending) == Dispatch.RunRequests(nMiddleware, retryTimes, b.o, true)
      ensures RanRequest(b, parent, ending, old(queued), old(itemsQueued), res)
      ensures old(queued) <= queued && old(itemsQueued) <= itemsQueued
      ensures waiting == old(waiting) && stop == old(stop)
    {
      trace, ending := RunRequestsLoop(nMiddleware, retryTimes, b.o, true);
      match ending
      case InRaised(e) =>
        res := Err(e);
      case SendPropagated(e) =>
        res := Err(e);
      case HookRaised(e) =>
        res := Err(e);
      case Exhausted =>
        res := Ok(());
      case Replaced(child, response) =>
        var added := AddNewRequest(child, parent, SC.JoinOf(b, response));
        res := if added.Err? then added else Err(DropRequest);
      case Completed(response) =>
        res := Ok(());
        // `callback is not None` only once send returned a callback
        if response.Some? {
          if b.callback.Generator? {
            var done;
            res, done := RouteYields(b.callback.output, b.callback.raises, parent, SC.JoinOf(b, response));
          } else {
            res := SC.Outcome(SC.CallbackRaise(b.callback));
          }
        }
    }

    /** parse_task for a task taken off the queue. */
    method ParseTask(task: SC.Yielded, b: SC.Behaviour) returns (res: Result<()>)
      modifies this
      ensures task.YItem? ==> res == Ok(()) && itemsQueued == old(itemsQueued) + [task.fields] && queued == old(queued)
      ensures task.YOther? ==> res == Ok(()) && itemsQueued == old(itemsQueued) && queued == old(queued)
      ensures task.YRequest? ==>
                RanRequest(b, task.r, Dispatch.RunRequests(nMiddleware, retryTimes, b.o, true).1, old(queued), old(itemsQueued), res)
      ensures old(queued) <= queued && old(itemsQueued) <= itemsQueued
      ensures waiting == old(waiting) && stop == old(stop)
    {
      match task
      case YItem(f) =>
        itemsQueued := itemsQueued + [f];
        return Ok(());
      case YOther(_) =>
        return Ok(());
      case YRequest(r) =>
        var trace, ending;
        res, trace, ending := RunRequests(b, r);
    }

    /**
     * run, over the tasks its gets return: an empty get sets waiting; a
     * request has its callback resolved first; a task clears waiting and
     * is processed. A dropped request is only logged; any other exception
     * goes to spider_error on every spider middleware, and one raised there
     * ends the loop.
     */
    method Run(gets: seq<Option<SC.Yielded>>, behaviour: nat -> SC.Behaviour, nSpiderMiddleware: nat, raises: Hooks.Raises)
      returns (res: Result<()>, processed: nat)
      modifies this
      ensures processed <= |gets|
      ensures res.Ok? ==> processed == |gets|
      ensures res.Ok? && gets != [] ==> (gets[|gets| - 1].None? ==> waiting) && (Settles(gets[|gets| - 1]) ==> !waiting)
      ensures res.Err? ==> res == Err(Raised("spider_error"))
      ensures !Hooks.AnyRaises(Hooks.Calls(Hooks.SpiderError, nSpiderMiddleware), raises) ==> res.Ok?
      ensures old(queued) <= queued && old(itemsQueued) <= itemsQueued
      ensures stop == old(stop)
    {
      processed := 0;
      while processed < |gets|
        invariant processed <= |gets|
        invariant processed > 0 ==> (gets[processed - 1].None? ==> waiting) && (Settles(gets[processed - 1]) ==> !waiting)
        invariant old(queued) <= queued && old(itemsQueued) <= itemsQueued
        invariant stop == old(stop)
      {
        var task := gets[processed];
        processed := processed + 1;
        if task.None? {
          waiting := true;
          continue;
        }
        var r: Result<()> := Ok(());
        var t := task.value;
        if t.YRequest? {
          var resolved := ResolveCallback(t.r, spiderAttrs);
          if resolved.Err? {
            r := Err(resolved.error);
          } else {
            t := SC.YRequest(resolved.value);
          }
        }
        if r.Ok? {
          waiting := false;
          r := ParseTask(t, behaviour(processed - 1));
        }
        if r.Err? && r.error != DropRequest {
          var _, raised := Hooks.CallUntilRaise(Hooks.SpiderError, nSpiderMiddleware, raises);
          if raised {
            return Err(Raised("spider_error")), processed;
          }
        }
      }
      return Ok(()), processed;
    }
  }
}
