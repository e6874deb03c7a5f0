/**
 * controller/controller_spider.py: SpiderController, the thread that takes
 * tasks off the request queue. A Request is sent through the request
 * middlewares (the loop in module Dispatch) and its callback's yields are
 * routed: Requests become children of the current one, Items go to the item
 * queue, anything else is ignored. A Request carrying a jump spider runs
 * that spider first and is queued again.
 *
 * The queues are whatever Sequence objects the spider passed; the model
 * records what this controller puts on them, in order.
 */
module SpiderControllers {
  import opened Common
  import Requests
  import opened Dispatch
  import Hooks

  /** What a callback yields. */
  datatype Yielded = YRequest(r: Requests.Request) | YItem(fields: map<Key, Val>) | YOther(v: Val)

  /** `response.urljoin`: joins a relative url onto the response's url. */
  type Join = string -> string

  /**
   * The callback to run: a generator function that yields `output` and
   * then raises `raises` (None: it is exhausted), any other function (it
   * returns, or raises `raises`), or none at all.
   */
  datatype Callback = Generator(output: seq<Yielded>, raises: Option<Exc>) | Plain(raises: Option<Exc>) | NoCallback

  /** What the callback raises once it has run (after its last yield, for a generator). */
  function CallbackRaise(c: Callback): Option<Exc> {
    match c
    case Generator(_, e) => e
    case Plain(e) => e
    case NoCallback => None
  }

  /** A call that raised `raised`, or returned when it is None. */
  function Outcome(raised: Option<Exc>): (res: Result<()>)
    ensures res.Ok? <==> raised.None?
    ensures res.Err? ==> res.error == raised.value
  {
    if raised.Some? then Err(raised.value) else Ok(())
  }

  /** The supplied behaviour of everything one task's processing calls. */
  datatype Behaviour = Behaviour(
    o: Outcomes,            // the transport and the request middleware hooks
    callback: Callback,     // the spider's callback, when it is looked up
    jumpRaises: bool,       // whether running the jump spider raises
    join: nat -> Join)      // the urljoin of each response

  predicate StartsWithHttp(s: string) {
    |s| >= 4 && s[..4] == "http"
  }

  /**
   * `d.update(m)` where m is a dict or a sequence of pairs. A non-empty
   * string is a sequence of one-character strings, which raises ValueError;
   * anything else raises TypeError.
   */
  function AsMapping(v: Val): Result<map<Key, Val>> {
    if v.VDict? then Ok(v.m)
    else if v.VPairs? then Ok(Requests.PairsToMap(v.p))
    else if v.VStr? && |v.s| > 0 then Err(ValueError)
    else Err(TypeError)
  }

  /**
   * `if old_request.meta: new_request.meta.update(old_request.meta)`: the
   * child's dict is updated in place, the parent's values winning.
   */
  function MergeMeta(child: Requests.Request, parent: Requests.Request): (res: Result<Requests.Request>)
    ensures res.Ok? && !Truthy(Requests.Attr(parent, Meta)) ==> res.value == child
    ensures res.Ok? && Truthy(Requests.Attr(parent, Meta)) && Requests.Attr(parent, Meta).VDict? ==>
              Requests.Attr(child, Meta).VDict?
              && Requests.Attr(res.value, Meta) == VDict(Requests.Attr(child, Meta).m + Requests.Attr(parent, Meta).m)
    ensures Meta in parent.attrs && Meta in child.attrs && Truthy(parent.attrs[Meta]) && child.attrs[Meta].VDict?
            && !parent.attrs[Meta].VDict? && !parent.attrs[Meta].VPairs? && !parent.attrs[Meta].VStr? ==>
              res == Err(TypeError)
  {
    var pm :- Requests.GetAttr(parent, Meta);
    if !Truthy(pm) then Ok(child)
    else
      var cm :- Requests.GetAttr(child, Meta);
      if !cm.VDict? then Err(AttributeError)
      else
        var update :- AsMapping(pm);
        Ok(Requests.Request(child.attrs[Meta := VDict(cm.m + update)], child.verifyDefaulted))
  }

  /** `if not new_request.url.startswith('http') and response: new_request.url = response.urljoin(new_request.url)` */
  function JoinUrl(child: Requests.Request, join: Option<Join>): (res: Result<Requests.Request>)
    ensures res.Ok? ==> Requests.Attr(child, Url).VStr?
    ensures res.Ok? && (StartsWithHttp(Requests.Attr(child, Url).s) || join.None?) ==>
              Requests.Attr(res.value, Url) == Requests.Attr(child, Url)
    ensures res.Ok? && !StartsWithHttp(Requests.Attr(child, Url).s) && join.Some? ==>
              Requests.Attr(res.value, Url) == VStr(join.value(Requests.Attr(child, Url).s))
  {
    var u :- Requests.GetAttr(child, Url);
    if !u.VStr? then Err(AttributeError)
    else if !StartsWithHttp(u.s) && join.Some? then Requests.SetAttr(child, Url, VStr(join.value(u.s)))
    else Ok(child)
  }

  /** `if not new_request.cookie_jar: new_request.cookie_jar = old_request.cookie_jar` */
  function InheritJar(child: Requests.Request, parent: Requests.Request): (res: Result<Requests.Request>)
    ensures res.Ok? ==> CookieJar in child.attrs
    ensures res.Ok? && Truthy(Requests.Attr(child, CookieJar)) ==>
              Requests.Attr(res.value, CookieJar) == Requests.Attr(child, CookieJar)
    ensures res.Ok? && !Truthy(Requests.Attr(child, CookieJar)) ==>
              CookieJar in parent.attrs && Requests.Attr(res.value, CookieJar) == parent.attrs[CookieJar]
  {
    var jar :- Requests.GetAttr(child, CookieJar);
    if Truthy(jar) then Ok(child)
    else
      var pj :- Requests.GetAttr(parent, CookieJar);
      Requests.SetAttr(child, CookieJar, pj)
  }

  /** `if settings.REQUEST_QUEUE_MODE == 3: new_request.priority = old_request.priority - 1` */
  function DeeperPriority(child: Requests.Request, parent: Requests.Request, queueMode: int): (res: Result<Requests.Request>)
    ensures res.Ok? && queueMode != 3 ==> res.value == child
    ensures res.Ok? && queueMode == 3 ==>
              Requests.Attr(parent, Priority).VInt?
              && Requests.Attr(res.value, Priority) == VInt(Requests.Attr(parent, Priority).i - 1)
  {
    if queueMode != 3 then Ok(child)
    else
      var pp :- Requests.GetAttr(parent, Priority);
      if pp.VInt? then Requests.SetAttr(child, Priority, VInt(pp.i - 1)) else Err(TypeError)
  }

  /** add_new_request's changes to the child, in the source's order; the first error ends them. */
  function Inherit(child: Requests.Request, parent: Requests.Request, join: Option<Join>, queueMode: int): Result<Requests.Request> {
    var c1 :- MergeMeta(child, parent);
    var c2 :- JoinUrl(c1, join);
    var c3 :- InheritJar(c2, parent);
    DeeperPriority(c3, parent, queueMode)
  }

  /** The intermediate requests of a successful Inherit. */
  lemma InheritSteps(child: Requests.Request, parent: Requests.Request, join: Option<Join>, queueMode: int)
      returns (c1: Requests.Request, c2: Requests.Request, c3: Requests.Request)
    requires Inherit(child, parent, join, queueMode).Ok?
    ensures MergeMeta(child, parent) == Ok(c1)
    ensures JoinUrl(c1, join) == Ok(c2)
    ensures InheritJar(c2, parent) == Ok(c3)
    ensures DeeperPriority(c3, parent, queueMode) == Inherit(child, parent, join, queueMode)
  {
    c1 := MergeMeta(child, parent).value;
    c2 := JoinUrl(c1, join).value;
    c3 := InheritJar(c2, parent).value;
  }

  /** Each step changes only its own attribute k. */
  lemma InheritStepsKeep(child: Requests.Request, parent: Requests.Request, join: Option<Join>, queueMode: int, k: Key)
      returns (c1: Requests.Request, c2: Requests.Request, c3: Requests.Request)
    requires Inherit(child, parent, join, queueMode).Ok?
    ensures MergeMeta(child, parent) == Ok(c1) && JoinUrl(c1, join) == Ok(c2) && InheritJar(c2, parent) == Ok(c3)
    ensures DeeperPriority(c3, parent, queueMode) == Inherit(child, parent, join, queueMode)
    ensures k != Meta ==> Requests.Attr(c1, k) == Requests.Attr(child, k)
    ensures k != Url ==> Requests.Attr(c2, k) == Requests.Attr(c1, k)
    ensures k != CookieJar ==> Requests.Attr(c3, k) == Requests.Attr(c2, k)
    ensures k != Priority ==> Requests.Attr(Inherit(child, parent, join, queueMode).value, k) == Requests.Attr(c3, k)
  {
    c1, c2, c3 := InheritSteps(child, parent, join, queueMode);
    if k != Meta { MergeMetaKeeps(child, parent, k); }
    if k != Url { JoinUrlKeeps(c1, join, k); }
    if k != CookieJar { InheritJarKeeps(c2, parent, k); }
    if k != Priority { DeeperPriorityKeeps(c3, parent, queueMode, k); }
  }

  lemma MergeMetaKeeps(child: Requests.Request, parent: Requests.Request, k: Key)
    requires MergeMeta(child, parent).Ok? && k != Meta
    ensures Requests.Attr(MergeMeta(child, parent).value, k) == Requests.Attr(child, k)
  {
  }

  lemma JoinUrlKeeps(child: Requests.Request, join: Option<Join>, k: Key)
    requires JoinUrl(child, join).Ok? && k != Url
    ensures Requests.Attr(JoinUrl(child, join).value, k) == Requests.Attr(child, k)
  {
  }

  lemma InheritJarKeeps(child: Requests.Request, parent: Requests.Request, k: Key)
    requires InheritJar(child, parent).Ok? && k != CookieJar
    ensures Requests.Attr(InheritJar(child, parent).value, k) == Requests.Attr(child, k)
  {
  }

  lemma DeeperPriorityKeeps(child: Requests.Request, parent: Requests.Request, queueMode: int, k: Key)
    requires DeeperPriority(child, parent, queueMode).Ok? && k != Priority
    ensures Requests.Attr(DeeperPriority(child, parent, queueMode).value, k) == Requests.Attr(child, k)
  {
  }

  /** The attributes add_new_request may change. */
  predicate Inherited(k: Key) {
    k == Meta || k == Url || k == CookieJar || k == Priority
  }

  /**
   * The child's meta is its own updated with the parent's (when the
   * parent's is truthy): on a key both have, the parent's value wins.
   */
  lemma InheritMeta(child: Requests.Request, parent: Requests.Request, join: Option<Join>, queueMode: int)
    requires Inherit(child, parent, join, queueMode).Ok?
    requires Requests.Attr(parent, Meta).VDict?
    ensures var c := Inherit(child, parent, join, queueMode).value;
            var pm := Requests.Attr(parent, Meta).m;
            (Truthy(Requests.Attr(parent, Meta)) ==>
               Requests.Attr(child, Meta).VDict? && Requests.Attr(c, Meta) == VDict(Requests.Attr(child, Meta).m + pm))
            && (!Truthy(Requests.Attr(parent, Meta)) ==> Requests.Attr(c, Meta) == Requests.Attr(child, Meta))
  {
    var c1, c2, c3 := InheritStepsKeep(child, parent, join, queueMode, Meta);
  }

  /** The child keeps its own cookie jar when it has a truthy one and takes the parent's otherwise. */
  lemma InheritCookieJar(child: Requests.Request, parent: Requests.Request, join: Option<Join>, queueMode: int)
    requires Inherit(child, parent, join, queueMode).Ok?
    ensures var c := Inherit(child, parent, join, queueMode).value;
            (Truthy(Requests.Attr(child, CookieJar)) ==> Requests.Attr(c, CookieJar) == Requests.Attr(child, CookieJar))
            && (!Truthy(Requests.Attr(child, CookieJar)) ==> Requests.Attr(c, CookieJar) == Requests.Attr(parent, CookieJar))
  {
    var c1, c2, c3 := InheritStepsKeep(child, parent, join, queueMode, CookieJar);
  }

  /** In queue mode 3 the child's priority is the parent's minus 1, with no lower bound. */
  lemma InheritPriority(child: Requests.Request, parent: Requests.Request, join: Option<Join>, queueMode: int)
    requires Inherit(child, parent, join, queueMode).Ok? && queueMode == 3
    ensures Requests.Attr(parent, Priority).VInt?
    ensures Requests.Attr(Inherit(child, parent, join, queueMode).value, Priority) == VInt(Requests.Attr(parent, Priority).i - 1)
  {
    var c1, c2, c3 := InheritSteps(child, parent, join, queueMode);
    DeeperPriorityMode3(c3, parent);
  }

  lemma DeeperPriorityMode3(c3: Requests.Request, parent: Requests.Request)
    requires DeeperPriority(c3, parent, 3).Ok?
    ensures Requests.Attr(parent, Priority).VInt?
    ensures Requests.Attr(DeeperPriority(c3, parent, 3).value, Priority) == VInt(Requests.Attr(parent, Priority).i - 1)
  {
  }

  /** In any other mode the priority is left alone. */
  lemma InheritPriorityKept(child: Requests.Request, parent: Requests.Request, join: Option<Join>, queueMode: int)
    requires Inherit(child, parent, join, queueMode).Ok? && queueMode != 3
    ensures Requests.Attr(Inherit(child, parent, join, queueMode).value, Priority) == Requests.Attr(child, Priority)
  {
    var c1, c2, c3 := InheritStepsKeep(child, parent, join, queueMode, Priority);
  }

  /** An absolute url is kept; only a relative one is joined, and only when there is a response. */
  lemma InheritUrl(child: Requests.Request, parent: Requests.Request, join: Option<Join>, queueMode: int)
    requires Inherit(child, parent, join, queueMode).Ok?
    ensures var c := Inherit(child, parent, join, queueMode).value;
            var u := Requests.Attr(child, Url);
            u.VStr?
            && (StartsWithHttp(u.s) || join.None? ==> Requests.Attr(c, Url) == u)
            && (!StartsWithHttp(u.s) && join.Some? ==> Requests.Attr(c, Url) == VStr(join.value(u.s)))
  {
    var c1, c2, c3 := InheritStepsKeep(child, parent, join, queueMode, Url);
  }

  /** No other attribute of the child changes. */
  lemma InheritKeepsOthers(child: Requests.Request, parent: Requests.Request, join: Option<Join>, queueMode: int, k: Key)
    requires Inherit(child, parent, join, queueMode).Ok?
    requires !Inherited(k)
    ensures Requests.Attr(Inherit(child, parent, join, queueMode).value, k) == Requests.Attr(child, k)
  {
    var c1, c2, c3 := InheritStepsKeep(child, parent, join, queueMode, k);
  }

  /** The urljoin of the response a child is added from; None when there is none yet. */
  function JoinOf(b: Behaviour, response: Option<nat>): Option<Join> {
    if response.Some? then Some(b.join(response.value)) else None
  }

  /** The attribute jump_spider_kwargs and the others that a successful jump clears. */
  function ClearJump(r: Requests.Request): Requests.Request {
    Requests.Request(r.attrs[JumpSpider := VNone][JumpSpiderKwargs := VNone][JumpRequestMiddleware := VNone], r.verifyDefaulted)
  }

  /**
   * What run_jump_spider queues again after a jump that returned: jump
   * fields cleared, priority lowered by 1 in mode 3. Reading an unset jump
   * attribute or priority raises, as does `None - 1`.
   */
  function AfterJump(r: Requests.Request, queueMode: int): Result<Requests.Request> {
    var _ :- Requests.GetAttr(r, JumpSpiderKwargs);
    var _ :- Requests.GetAttr(r, JumpRequestMiddleware);
    var c := ClearJump(r);
    if queueMode != 3 then Ok(c)
    else
      var p :- Requests.GetAttr(c, Priority);
      if p.VInt? then Ok(Requests.Request(c.attrs[Priority := VInt(p.i - 1)], c.verifyDefaulted)) else Err(TypeError)
  }

  class SpiderController {
    /** The requests this controller has put on the request queue, in order. */
    var queued: seq<Requests.Request>
    /** The items it has put on the item queue. */
    var itemsQueued: seq<map<Key, Val>>
    var waiting: bool
    var stop: bool
    /** The number of request middlewares, SpiderController.REQUEST_MIDDLEWARE. */
    const nMiddleware: nat
    /** settings.REQUEST_RETRY_TIMES, settings.REQUEST_QUEUE_MODE, settings.SPIDER_STOP_ON_ERROR. */
    const retryTimes: int
    const queueMode: int
    const stopOnError: bool
    /** settings.REQUEST_BORROW, which settings.py does not define (a spider's settings may). */
    const requestBorrow: bool
    /** The spider's attribute names, for `hasattr(self.spider, request.callback)`. */
    const spiderAttrs: set<string>

    constructor (nMiddleware: nat, retryTimes: int, queueMode: int, stopOnError: bool, requestBorrow: bool, spiderAttrs: set<string>)
      ensures !waiting && !stop && queued == [] && itemsQueued == []
      ensures this.nMiddleware == nMiddleware && this.retryTimes == retryTimes && this.queueMode == queueMode
      ensures this.stopOnError == stopOnError && this.requestBorrow == requestBorrow && this.spiderAttrs == spiderAttrs
    {
      queued, itemsQueued := [], [];
      waiting, stop := false, false;
      this.nMiddleware, this.retryTimes, this.queueMode := nMiddleware, retryTimes, queueMode;
      this.stopOnError, this.requestBorrow, this.spiderAttrs := stopOnError, requestBorrow, spiderAttrs;
    }

    /** add_new_request: the child, inherited from the parent, goes on the request queue. */
    method AddNewRequest(child: Requests.Request, parent: Requests.Request, join: Option<Join>) returns (res: Result<()>)
      modifies this
      ensures Inherit(child, parent, join, queueMode).Ok? ==>
                res == Ok(()) && queued == old(queued) + [Inherit(child, parent, join, queueMode).value]
      ensures Inherit(child, parent, join, queueMode).Err? ==>
                res == Err(Inherit(child, parent, join, queueMode).error) && queued == old(queued)
      ensures itemsQueued == old(itemsQueued) && waiting == old(waiting) && stop == old(stop)
    {
      var c := Inherit(child, parent, join, queueMode);
      if c.Err? {
        return Err(c.error);
      }
      queued := queued + [c.value];
      return Ok(());
    }

    /** `parse_task(task, request, response)` for a task the callback yielded. */
    method ParseChild(y: Yielded, parent: Requests.Request, join: Option<Join>) returns (res: Result<()>)
      modifies this
      ensures res.Ok? <==> !(y.YRequest? && Inherit(y.r, parent, join, queueMode).Err?)
      ensures res.Err? ==> res == Err(Inherit(y.r, parent, join, queueMode).error)
      ensures queued == old(queued) + ChildOf(y, parent, join, queueMode)
      ensures itemsQueued == old(itemsQueued) + ItemOf(y)
      ensures waiting == old(waiting) && stop == old(stop)
    {
      match y {
        case YRequest(r) =>
          res := AddNewRequest(r, parent, join);
        case YItem(f) =>
          itemsQueued := itemsQueued + [f];
          res := Ok(());
        case YOther(_) =>
          // logged as an illegal yield
          res := Ok(());
      }
    }

    /**
     * The callback's yields, each through `parse_task(task, request,
     * response)`: the first error ends the loop; after the last yield the
     * generator raises `after`, when that is not None.
     */
    method RouteYields(ys: seq<Yielded>, after: Option<Exc>, parent: Requests.Request, join: Option<Join>)
      returns (res: Result<()>, done: nat)
      modifies this
      ensures done <= |ys|
      ensures queued == old(queued) + Children(ys, done, parent, join, queueMode)
      ensures itemsQueued == old(itemsQueued) + Items(ys, done)
      ensures forall k :: 0 <= k < done ==> !(ys[k].YRequest? && Inherit(ys[k].r, parent, join, queueMode).Err?)
      ensures done < |ys| ==> ys[done].YRequest? && Inherit(ys[done].r, parent, join, queueMode).Err?
                              && res == Err(Inherit(ys[done].r, parent, join, queueMode).error)
      ensures done == |ys| ==> res == Outcome(after)
      ensures waiting == old(waiting) && stop == old(stop)
    {
      done := 0;
      while done < |ys|
        invariant done <= |ys|
        invariant queued == old(queued) + Children(ys, done, parent, join, queueMode)
        invariant itemsQueued == old(itemsQueued) + Items(ys, done)
        invariant forall k :: 0 <= k < done ==> !(ys[k].YRequest? && Inherit(ys[k].r, parent, join, queueMode).Err?)
        invariant waiting == old(waiting) && stop == old(stop)
        decreases |ys| - done
      {
        ghost var before, beforeItems := queued, itemsQueued;
        var err := ParseChild(ys[done], parent, join);
        if err.Err? {
          assert queued == before;
          return err, done;
        }
        RouteStep(old(queued), before, queued, ys, done, parent, join, queueMode);
        ItemStep(old(itemsQueued), beforeItems, itemsQueued, ys, done);
        done := done + 1;
      }
      return Outcome(after), done;
    }

    /**
     * What run_requests leaves once its hook loop has ended with `ending`:
     * the result `res`, and the queues grown from `q0` and `i0`. A hook
     * exception propagates, a spent retry budget ends quietly, a
     * replacement is queued as a child and the request dropped; otherwise
     * the callback named by the request runs and a generator's yields are
     * routed.
     */
    ghost predicate RanRequest(request: Requests.Request, b: Behaviour, ending: Ending,
                               q0: seq<Requests.Request>, i0: seq<map<Key, Val>>, res: Result<()>)
      reads this
    {
      ((ending.InRaised? || ending.HookRaised?) ==> res == Err(ending.e) && queued == q0)
      && (ending.Exhausted? ==> res == Ok(()) && queued == q0)
      && (ending.Replaced? ==>
            (Inherit(ending.child, request, JoinOf(b, ending.response), queueMode).Ok? ==>
               res == Err(DropRequest)
               && queued == q0 + [Inherit(ending.child, request, JoinOf(b, ending.response), queueMode).value])
            && (Inherit(ending.child, request, JoinOf(b, ending.response), queueMode).Err? ==>
                  res == Err(Inherit(ending.child, request, JoinOf(b, ending.response), queueMode).error)))
      && (ending.Completed? && !HasCallback(request, spiderAttrs) ==>
            res == Ok(()) && queued == q0 && itemsQueued == i0)
      && (ending.Completed? && HasCallback(request, spiderAttrs) && !b.callback.Generator? ==>
            res == Outcome(CallbackRaise(b.callback)) && queued == q0 && itemsQueued == i0)
      && (ending.Completed? && HasCallback(request, spiderAttrs) && b.callback.Generator? ==>
            exists done: nat :: done <= |b.callback.output|
                           && queued == q0 + Children(b.callback.output, done, request, JoinOf(b, ending.response), queueMode)
                           && itemsQueued == i0 + Items(b.callback.output, done)
                           && (done == |b.callback.output| ==> res == Outcome(b.callback.raises))
                           && (done < |b.callback.output| ==>
                                 b.callback.output[done].YRequest?
                                 && Inherit(b.callback.output[done].r, request, JoinOf(b, ending.response), queueMode).Err?
                                 && res == Err(Inherit(b.callback.output[done].r, request, JoinOf(b, ending.response), queueMode).error)))
    }

    /**
     * run_requests for a request taken off the queue: the hook loop, then
     * what RanRequest describes. With REQUEST_BORROW set the missing
     * borrow_request raises first.
     */
    method RunRequests(request: Requests.Request, b: Behaviour) returns (res: Result<()>, trace: seq<Step>, ending: Ending)
      modifies this
      ensures requestBorrow ==> res == Err(AttributeError) && trace == [] && queued == old(queued)
      ensures !requestBorrow ==> (trace, ending) == Dispatch.RunRequests(nMiddleware, retryTimes, b.o, false)
      ensures !requestBorrow ==> RanRequest(request, b, ending, old(queued), old(itemsQueued), res)
      ensures old(queued) <= queued && old(itemsQueued) <= itemsQueued
      ensures waiting == old(waiting) && stop == old(stop)
    {
      if requestBorrow {
        // no spider class defines borrow_request
        return Err(AttributeError), [], Completed(None);
      }
      trace, ending := RunRequestsLoop(nMiddleware, retryTimes, b.o, false);
      match ending
      case InRaised(e) =>
        res := Err(e);
      case SendPropagated(e) =>
        res := Err(e);
      case HookRaised(e) =>
        res := Err(e);
      case Exhausted =>
        res := Ok(());
      case Replaced(child, response) =>
        var added := AddNewRequest(child, request, JoinOf(b, response));
        res := if added.Err? then added else Err(DropRequest);
      case Completed(response) =>
        res := Ok(());
        if HasCallback(request, spiderAttrs) {
          if b.callback.Generator? {
            var done;
            res, done := RouteYields(b.callback.output, b.callback.raises, request, JoinOf(b, response));
          } else {
            res := Outcome(CallbackRaise(b.callback));
          }
        }
    }

    /**
     * run_jump_spider: the jump spider runs; then the request is queued
     * again, or request_failed runs on every middleware without a retry,
     * until one of them raises.
     */
    method RunJumpSpider(request: Requests.Request, b: Behaviour) returns (trace: seq<Step>, raised: Option<Exc>)
      modifies this
      ensures !b.jumpRaises && AfterJump(request, queueMode).Ok? ==>
                trace == [] && raised == None && queued == old(queued) + [AfterJump(request, queueMode).value]
      ensures b.jumpRaises || AfterJump(request, queueMode).Err? ==>
                (trace, raised) == FailedRun(0, nMiddleware, b.o) && queued == old(queued)
      ensures itemsQueued == old(itemsQueued) && waiting == old(waiting) && stop == old(stop)
    {
      var after := AfterJump(request, queueMode);
      if b.jumpRaises || after.Err? {
        trace, raised := CallFailed(nMiddleware, b.o);
        return;
      }
      queued := queued + [after.value];
      trace, raised := [], None;
    }

    /** parse_task for a task taken off the queue (no parent request). */
    method ParseTask(task: Yielded, b: Behaviour) returns (res: Result<()>)
      modifies this
      ensures task.YItem? ==> res == Ok(()) && itemsQueued == old(itemsQueued) + [task.fields] && queued == old(queued)
      ensures task.YOther? ==> res == Ok(()) && itemsQueued == old(itemsQueued) && queued == old(queued)
      ensures task.YRequest? && JumpSpider !in task.r.attrs ==> res == Err(AttributeError) && queued == old(queued)
      ensures task.YRequest? && JumpSpider in task.r.attrs && Truthy(task.r.attrs[JumpSpider]) ==>
                itemsQueued == old(itemsQueued)
                && res == (if b.jumpRaises || AfterJump(task.r, queueMode).Err? then Outcome(FailedRun(0, nMiddleware, b.o).1) else Ok(()))
      ensures task.YRequest? && JumpSpider in task.r.attrs && !Truthy(task.r.attrs[JumpSpider]) ==>
                (requestBorrow ==> res == Err(AttributeError) && queued == old(queued))
                && (!requestBorrow ==>
                      RanRequest(task.r, b, Dispatch.RunRequests(nMiddleware, retryTimes, b.o, false).1, old(queued), old(itemsQueued), res))
      ensures old(queued) <= queued && old(itemsQueued) <= itemsQueued
      ensures waiting == old(waiting) && stop == old(stop)
    {
      match task
      case YItem(f) =>
        itemsQueued := itemsQueued + [f];
        return Ok(());
      case YOther(_) =>
        return Ok(());
      case YRequest(r) =>
        var jump := Requests.GetAttr(r, JumpSpider);
        if jump.Err? {
          return Err(jump.error);
        }
        if Truthy(jump.value) {
          var _, raised := RunJumpSpider(r, b);
          return Outcome(raised);
        }
        var trace, ending;
        res, trace, ending := RunRequests(r, b);
    }

    /**
     * run, over the tasks its gets return until stop is seen: an empty get
     * sets waiting, a task clears it and is processed. A dropped request
     * does not end the loop; another exception ends it when
     * SPIDER_STOP_ON_ERROR is set, and otherwise goes to spider_error on
     * every spider middleware, an exception from which ends it.
     */
    method Run(gets: seq<Option<Yielded>>, behaviour: nat -> Behaviour, nSpiderMiddleware: nat, raises: Hooks.Raises)
      returns (res: Result<()>, processed: nat)
      modifies this
      ensures processed <= |gets|
      ensures res.Ok? ==> processed == |gets|
      ensures res.Ok? && gets != [] ==> waiting == gets[|gets| - 1].None?
      ensures res.Err? ==> res.error != DropRequest
      ensures res.Err? && !stopOnError ==> res == Err(Raised("spider_error"))
      ensures !stopOnError && !Hooks.AnyRaises(Hooks.Calls(Hooks.SpiderError, nSpiderMiddleware), raises) ==>
                res.Ok?
      ensures old(queued) <= queued && old(itemsQueued) <= itemsQueued
      ensures stop == old(stop)
    {
      processed := 0;
      while processed < |gets|
        invariant processed <= |gets|
        invariant processed > 0 ==> waiting == gets[processed - 1].None?
        invariant old(queued) <= queued && old(itemsQueued) <= itemsQueued
        invariant stop == old(stop)
      {
        var task := gets[processed];
        processed := processed + 1;
        if task.None? {
          waiting := true;
          continue;
        }
        waiting := false;
        var r := ParseTask(task.value, behaviour(processed - 1));
        if r.Err? && r.error != DropRequest {
          if stopOnError {
            return r, processed;
          }
          var _, raised := Hooks.CallUntilRaise(Hooks.SpiderError, nSpiderMiddleware, raises);
          if raised {
            return Err(Raised("spider_error")), processed;
          }
        }
      }
      return Ok(()), processed;
    }
  }

  /** Whether `request.callback and isinstance(request.callback, str) and hasattr(self.spider, request.callback)`. */
  predicate HasCallback(r: Requests.Request, spiderAttrs: set<string>) {
    Callback in r.attrs && Truthy(r.attrs[Callback]) && r.attrs[Callback].VStr? && r.attrs[Callback].s in spiderAttrs
  }

  /** The child one yield adds: a Request yielded, inherited from the parent. */
  function ChildOf(y: Yielded, parent: Requests.Request, join: Option<Join>, queueMode: int): seq<Requests.Request> {
    if y.YRequest? && Inherit(y.r, parent, join, queueMode).Ok? then [Inherit(y.r, parent, join, queueMode).value] else []
  }

  /** The children the first n yields add. */
  function Children(ys: seq<Yielded>, n: nat, parent: Requests.Request, join: Option<Join>, queueMode: int): seq<Requests.Request>
    requires n <= |ys|
  {
    if n == 0 then [] else Children(ys, n - 1, parent, join, queueMode) + ChildOf(ys[n - 1], parent, join, queueMode)
  }

  lemma RouteStep(q0: seq<Requests.Request>, before: seq<Requests.Request>, after: seq<Requests.Request>,
                  ys: seq<Yielded>, done: nat, parent: Requests.Request, join: Option<Join>, queueMode: int)
    requires done < |ys|
    requires before == q0 + Children(ys, done, parent, join, queueMode)
    requires after == before + ChildOf(ys[done], parent, join, queueMode)
    ensures after == q0 + Children(ys, done + 1, parent, join, queueMode)
  {
    ConcatAssoc(q0, Children(ys, done, parent, join, queueMode), ChildOf(ys[done], parent, join, queueMode));
  }

  lemma ItemStep(i0: seq<map<Key, Val>>, before: seq<map<Key, Val>>, after: seq<map<Key, Val>>, ys: seq<Yielded>, done: nat)
    requires done < |ys|
    requires before == i0 + Items(ys, done)
    requires after == before + ItemOf(ys[done])
    ensures after == i0 + Items(ys, done + 1)
  {
    ConcatAssoc(i0, Items(ys, done), ItemOf(ys[done]));
  }

  /** The item one yield puts on the item queue. */
  function ItemOf(y: Yielded): seq<map<Key, Val>> {
    if y.YItem? then [y.fields] else []
  }

  /** The items the first n yields put on the item queue. */
  function Items(ys: seq<Yielded>, n: nat): seq<map<Key, Val>>
    requires n <= |ys|
  {
    if n == 0 then [] else Items(ys, n - 1) + ItemOf(ys[n - 1])
  }
}
