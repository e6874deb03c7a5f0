/**
 * controller/controller_spider_jump.py: JumpController, which runs the
 * requests of a jump spider nested inside the main spider. Its request
 * middlewares are the ones the jump request names, instantiated once per
 * class in a dictionary shared by all jump controllers, followed by the
 * shared request record middleware. Children it adds inherit as in the
 * main controller; the jump's counters are added to the main spider's
 * when it finishes.
 */
module JumpControllers {
  import opened Common
  import Requests
  import opened Dispatch
  import Records
  import SC = SpiderControllers

  /** A middleware class, known by its `__name__` and its identity. */
  datatype MwClass = MwClass(name: string, id: nat)

  /** The request_middleware argument: None, a single class, or a list of classes. */
  datatype MwArg = MwNone | MwOne(c: MwClass) | MwList(cs: seq<MwClass>)

  /**
   * An entry of request_middleware: a class left as it was (one named
   * RequestRecordMiddleware), an instance (its class and creation serial),
   * or the shared RequestRecordMiddleware instance.
   */
  datatype Entry = ClassEntry(c: MwClass) | Instance(c: MwClass, serial: nat) | RecordInstance

  /** `None` becomes [], a value that is not a list becomes [m]. */
  function Normalise(arg: MwArg): (cs: seq<MwClass>)
    ensures arg.MwNone? ==> cs == []
    ensures arg.MwOne? ==> cs == [arg.c]
    ensures arg.MwList? ==> cs == arg.cs
  {
    match arg
    case MwNone => []
    case MwOne(c) => [c]
    case MwList(cs) => cs
  }

  predicate IsRecordClass(c: MwClass) {
    c.name == "RequestRecordMiddleware"
  }

  /** JumpController.REQUEST_MIDDLEWARE apart from its 'RequestRecordMiddleware' entry: one instance per class. */
  class MiddlewareCache {
    /** The serial of the instance cached for each class. */
    var instances: map<MwClass, nat>
    /** How many instances have been created. */
    var created: nat

    ghost predicate Valid()
      reads this
    {
      forall c :: c in instances ==> instances[c] < created
    }

    constructor ()
      ensures instances == map[] && created == 0 && Valid()
    {
      instances, created := map[], 0;
    }

    /** The cached instance of c, created on first use. */
    method Get(c: MwClass) returns (serial: nat)
      requires Valid()
      modifies this
      ensures Valid()
      ensures c in instances && serial == instances[c]
      ensures c in old(instances) ==> instances == old(instances) && created == old(created)
      ensures c !in old(instances) ==> instances == old(instances)[c := old(created)] && created == old(created) + 1
    {
      if c in instances {
        return instances[c];
      }
      serial := created;
      instances := instances[c := serial];
      created := created + 1;
    }
  }

  /** The entries __init__ builds from the classes, given the cache they end with. */
  ghost predicate Built(cs: seq<MwClass>, entries: seq<Entry>, instances: map<MwClass, nat>) {
    |entries| == |cs|
    && forall i :: 0 <= i < |cs| ==>
         if IsRecordClass(cs[i]) then entries[i] == ClassEntry(cs[i])
         else cs[i] in instances && entries[i] == Instance(cs[i], instances[cs[i]])
  }

  /** m2 keeps every entry of m1. */
  ghost predicate Extends(m1: map<MwClass, nat>, m2: map<MwClass, nat>) {
    forall c :: c in m1 ==> c in m2 && m2[c] == m1[c]
  }

  /** The classes the cache may gain: those in cs that are not the record middleware. */
  ghost predicate GainsOnly(m1: map<MwClass, nat>, m2: map<MwClass, nat>, cs: seq<MwClass>) {
    forall c :: c in m2 && c !in m1 ==> c in cs && !IsRecordClass(c)
  }

  /** Two positions holding the same class hold the same instance. */
  lemma BuiltShares(cs: seq<MwClass>, entries: seq<Entry>, instances: map<MwClass, nat>, i: nat, j: nat)
    requires Built(cs, entries, instances)
    requires i < |cs| && j < |cs| && cs[i] == cs[j]
    ensures entries[i] == entries[j]
  {
  }

  /**
   * A controller built later from the same class gets an instance of the
   * first: what the cache held stays, so the entry is the one built before.
   */
  lemma SharedAcrossControllers(cs1: seq<MwClass>, e1: seq<Entry>, m1: map<MwClass, nat>,
                                cs2: seq<MwClass>, e2: seq<Entry>, m2: map<MwClass, nat>, i: nat, j: nat)
    requires Built(cs1, e1, m1) && Built(cs2, e2, m2) && Extends(m1, m2)
    requires i < |cs1| && j < |cs2| && cs1[i] == cs2[j]
    ensures e1[i] == e2[j]
  {
  }

  class JumpController {
    /** The requests this controller has put on the request queue, in order. */
    var queued: seq<Requests.Request>
    /** self.request_middleware */
    const requestMiddleware: seq<Entry>
    /** settings.REQUEST_RETRY_TIMES and settings.REQUEST_QUEUE_MODE. */
    const retryTimes: int
    const queueMode: int
    /** The jump spider's attribute names. */
    const spiderAttrs: set<string>

    /**
     * __init__: the argument normalised, each class but the record
     * middleware replaced by its cached instance, and the shared record
     * middleware appended last.
     */
    constructor (cache: MiddlewareCache, arg: MwArg, retryTimes: int, queueMode: int, spiderAttrs: set<string>)
      requires cache.Valid()
      modifies cache
      ensures cache.Valid()
      ensures |requestMiddleware| == |Normalise(arg)| + 1
      ensures requestMiddleware[|requestMiddleware| - 1] == RecordInstance
      ensures Built(Normalise(arg), requestMiddleware[..|Normalise(arg)|], cache.instances)
      ensures Extends(old(cache.instances), cache.instances)
      ensures GainsOnly(old(cache.instances), cache.instances, Normalise(arg))
      ensures queued == [] && this.retryTimes == retryTimes && this.queueMode == queueMode && this.spiderAttrs == spiderAttrs
    {
      var cs := Normalise(arg);
      var entries := Instantiate(cache, cs);
      var all := entries + [RecordInstance];
      assert all[..|cs|] == entries;
      requestMiddleware := all;
      queued := [];
      this.retryTimes, this.queueMode, this.spiderAttrs := retryTimes, queueMode, spiderAttrs;
    }

    /** add_new_request: the same inheritance as the main controller's. */
    method AddNewRequest(child: Requests.Request, parent: Requests.Request, join: Option<SC.Join>) returns (res: Result<()>)
      modifies this
      ensures SC.Inherit(child, parent, join, queueMode).Ok? ==>
                res == Ok(()) && queued == old(queued) + [SC.Inherit(child, parent, join, queueMode).value]
      ensures SC.Inherit(child, parent, join, queueMode).Err? ==>
                res == Err(SC.Inherit(child, parent, join, queueMode).error) && queued == old(queued)
    {
      var c := SC.Inherit(child, parent, join, queueMode);
      if c.Err? {
        return Err(c.error);
      }
      queued := queued + [c.value];
      return Ok(());
    }

    /** `if isinstance(task, Request): self.add_new_request(...)` */
    method AddYielded(y: SC.Yielded, parent: Requests.Request, join: Option<SC.Join>) returns (res: Result<()>)
      modifies this
      ensures res.Ok? <==> !(y.YRequest? && SC.Inherit(y.r, parent, join, queueMode).Err?)
      ensures res.Err? ==> res == Err(SC.Inherit(y.r, parent, join, queueMode).error)
      ensures queued == old(queued) + SC.ChildOf(y, parent, join, queueMode)
    {
      res := Ok(());
      if y.YRequest? {
        res := AddNewRequest(y.r, parent, join);
      }
    }

    /**
     * The callback's yields: each Request is added as a child, anything
     * else (Items included) is dropped; the first error ends the loop, and
     * after the last yield the generator raises `after`, when that is not
     * None.
     */
    method RouteRequests(ys: seq<SC.Yielded>, after: Option<Exc>, parent: Requests.Request, join: Option<SC.Join>)
      returns (res: Result<()>, done: nat)
      modifies this
      ensures done <= |ys|
      ensures queued == old(queued) + SC.Children(ys, done, parent, join, queueMode)
      ensures forall k :: 0 <= k < done ==> !(ys[k].YRequest? && SC.Inherit(ys[k].r, parent, join, queueMode).Err?)
      ensures done < |ys| ==> ys[done].YRequest? && SC.Inherit(ys[done].r, parent, join, queueMode).Err?
                              && res == Err(SC.Inherit(ys[done].r, parent, join, queueMode).error)
      ensures done == |ys| ==> res == SC.Outcome(after)
    {
      done := 0;
      while done < |ys|
        invariant done <= |ys|
        invariant queued == old(queued) + SC.Children(ys, done, parent, join, queueMode)
        invariant forall k :: 0 <= k < done ==> !(ys[k].YRequest? && SC.Inherit(ys[k].r, parent, join, queueMode).Err?)
        decreases |ys| - done
      {
        ghost var before := queued;
        var err := AddYielded(ys[done], parent, join);
        if err.Err? {
          assert queued == before;
          return err, done;
        }
        assert queued == old(queued) + SC.Children(ys, done + 1, parent, join, queueMode);
        done := done + 1;
      }
      return SC.Outcome(after), done;
    }

    /** run_requests over request_middleware, as in the main controller; an exception from a hook or the callback propagates. */
    method RunRequests(request: Requests.Request, b: SC.Behaviour) returns (res: Result<()>, trace: seq<Step>, ending: Ending)
      modifies this
      ensures (trace, ending) == Dispatch.RunRequests(|requestMiddleware|, retryTimes, b.o, false)
      ensures ending.InRaised? || ending.HookRaised? ==> res == Err(ending.e) && queued == old(queued)
      ensures ending.Exhausted? ==> res == Ok(()) && queued == old(queued)
      ensures ending.Replaced? ==>
                (SC.Inherit(ending.child, request, SC.JoinOf(b, ending.response), queueMode).Ok? ==>
                   res == Err(DropRequest)
                   && queued == old(queued) + [SC.Inherit(ending.child, request, SC.JoinOf(b, ending.response), queueMode).value])
                && (SC.Inherit(ending.child, request, SC.JoinOf(b, ending.response), queueMode).Err? ==>
                      res == Err(SC.Inherit(ending.child, request, SC.JoinOf(b, ending.response), queueMode).error))
      ensures ending.Completed? && !SC.HasCallback(request, spiderAttrs) ==>
                res == Ok(()) && queued == old(queued)
      ensures ending.Completed? && SC.HasCallback(request, spiderAttrs) && !b.callback.Generator? ==>
                res == SC.Outcome(SC.CallbackRaise(b.callback)) && queued == old(queued)
      ensures ending.Completed? && SC.HasCallback(request, spiderAttrs) && b.callback.Generator? ==>
                exists done: nat :: done <= |b.callback.output|
                               && queued == old(queued) + SC.Children(b.callback.output, done, request, SC.JoinOf(b, ending.response), queueMode)
                               && (done == |b.callback.output| ==> res == SC.Outcome(b.callback.raises))
                               && (done < |b.callback.output| ==>
                                     b.callback.output[done].YRequest?
                                     && SC.Inherit(b.callback.output[done].r, request, SC.JoinOf(b, ending.response), queueMode).Err?
                                     && res == Err(SC.Inherit(b.callback.output[done].r, request, SC.JoinOf(b, ending.response), queueMode).error))
      ensures old(queued) <= queued
    {
      trace, ending := RunRequestsLoop(|requestMiddleware|, retryTimes, b.o, false);
      match ending
      case InRaised(e) =>
        res := Err(e);
      case SendPropagated(e) =>
        res := Err(e);
      case HookRaised(e) =>
        res := Err(e);
      case Exhausted =>
        res := Ok(());
      case Replaced(child, response) =>
        var added := AddNewRequest(child, request, SC.JoinOf(b, response));
        res := if added.Err? then added else Err(DropRequest);
      case Completed(response) =>
        res := Ok(());
        if SC.HasCallback(request, spiderAttrs) {
          if b.callback.Generator? {
            var done;
            res, done := RouteRequests(b.callback.output, b.callback.raises, request, SC.JoinOf(b, response));
          } else {
            res := SC.Outcome(SC.CallbackRaise(b.callback));
          }
        }
    }

    /**
     * run: takes tasks until the first empty get, skipping anything that is
     * not a Request; a dropped request does not end the loop, any other
     * exception does. Whichever way it ends, change_record adds the jump
     * spider's counters to the main spider's, and the last request taken
     * is handed to jump_out.
     */
    method Run(gets: seq<Option<SC.Yielded>>, behaviour: nat -> SC.Behaviour, main: Records.SpiderRecord, jump: Records.SpiderRecord)
      returns (res: Result<()>, processed: nat, jumpedOut: Option<Requests.Request>)
      modifies this, main
      ensures processed <= Horizon(gets)
      ensures res.Ok? ==> processed == Horizon(gets)
      ensures res.Err? ==> res.error != DropRequest
      ensures jumpedOut == LastRequest(gets, processed)
      ensures main.Value() == Records.Plus(old(main.Value()), old(jump.Value()))
      ensures old(queued) <= queued
    {
      processed, jumpedOut := 0, None;
      res := Ok(());
      while processed < |gets| && gets[processed].Some?
        invariant processed <= Horizon(gets)
        invariant jumpedOut == LastRequest(gets, processed)
        invariant old(queued) <= queued
        invariant main.Value() == old(main.Value()) && jump.Value() == old(jump.Value())
        decreases |gets| - processed
      {
        var task := gets[processed].value;
        processed := processed + 1;
        if task.YRequest? {
          jumpedOut := Some(task.r);
          var r, _, _ := RunRequests(task.r, behaviour(processed - 1));
          if r.Err? && r.error != DropRequest {
            res := r;
            break;
          }
        }
      }
      if res.Ok? {
        HorizonReached(gets, processed);
      }
      ChangeRecord(main, jump);
    }
  }

  /** The classes one after another through the cache (the loop of __init__). */
  method Instantiate(cache: MiddlewareCache, cs: seq<MwClass>) returns (entries: seq<Entry>)
    requires cache.Valid()
    modifies cache
    ensures cache.Valid()
    ensures Built(cs, entries, cache.instances)
    ensures Extends(old(cache.instances), cache.instances)
    ensures GainsOnly(old(cache.instances), cache.instances, cs)
  {
    entries := [];
    var i := 0;
    while i < |cs|
      invariant i <= |cs| && cache.Valid()
      invariant Built(cs[..i], entries, cache.instances)
      invariant Extends(old(cache.instances), cache.instances)
      invariant GainsOnly(old(cache.instances), cache.instances, cs[..i])
    {
      ghost var before := cache.instances;
      if IsRecordClass(cs[i]) {
        entries := entries + [ClassEntry(cs[i])];
      } else {
        var serial := cache.Get(cs[i]);
        entries := entries + [Instance(cs[i], serial)];
      }
      assert cs[..i + 1] == cs[..i] + [cs[i]];
      i := i + 1;
    }
    assert cs[..i] == cs;
  }

  /** change_record: each counter of the jump spider's record is added to the main spider's. */
  method ChangeRecord(main: Records.SpiderRecord, jump: Records.SpiderRecord)
    modifies main
    ensures main.Value() == Records.Plus(old(main.Value()), old(jump.Value()))
  {
    var j := jump.Value();
    main.all := main.all + j.all;
    main.failed := main.failed + j.failed;
    main.succeed := main.succeed + j.succeed;
  }

  /** The number of gets run takes tasks from: up to the first empty one. */
  function Horizon(gets: seq<Option<SC.Yielded>>): (h: nat)
    ensures h <= |gets|
    ensures h < |gets| ==> gets[h].None?
    ensures forall i :: 0 <= i < h ==> gets[i].Some?
  {
    if gets == [] || gets[0].None? then 0 else 1 + Horizon(gets[1..])
  }

  lemma HorizonReached(gets: seq<Option<SC.Yielded>>, k: nat)
    requires k <= Horizon(gets)
    requires !(k < |gets| && gets[k].Some?)
    ensures k == Horizon(gets)
  {
  }

  /** The last Request among the first n tasks. */
  function LastRequest(gets: seq<Option<SC.Yielded>>, n: nat): Option<Requests.Request>
    requires n <= |gets|
  {
    if n == 0 then None
    else if gets[n - 1].Some? && gets[n - 1].value.YRequest? then Some(gets[n - 1].value.r)
    else LastRequest(gets, n - 1)
  }

  /** Adding jump records into the main record in any order gives the same totals. */
  lemma ChangeRecordOrderFree(m: Records.Counts, a: Records.Counts, b: Records.Counts)
    ensures Records.Plus(Records.Plus(m, a), b) == Records.Plus(Records.Plus(m, b), a)
    ensures Records.Plus(Records.Plus(m, a), b) == Records.Plus(m, Records.Plus(a, b))
  {
  }
}
