/**
 * Calls into user middlewares. A hook call is an event; which calls raise
 * is a parameter of the model (`Raises`). The framework calls a hook on
 * every middleware of a list in order, either swallowing each exception or
 * letting the first one end the loop.
 */
module Hooks {
  import opened Common
  import opened Records

  datatype Hook =
    | SpiderStart
    | SpiderError
    | SpiderClose
    | SpiderEnd
    | RequestRecord(record: Counts)

  /** Hook h called on middleware number m, or the wrapped function's body running. */
  datatype Event = Call(hook: Hook, m: nat) | Body

  /** Which calls raise. */
  type Raises = Event -> bool

  /** h called on each of n middlewares, in list order. */
  function Calls(h: Hook, n: nat): (evs: seq<Event>)
    ensures |evs| == n && forall i :: 0 <= i < n ==> evs[i] == Call(h, i)
  {
    seq(n, i requires 0 <= i < n => Call(h, i))
  }

  predicate AnyRaises(evs: seq<Event>, raises: Raises) {
    exists i :: 0 <= i < |evs| && raises(evs[i])
  }

  /** The calls a loop makes when an exception ends it: up to and including the first that raises. */
  function UntilRaise(evs: seq<Event>, raises: Raises): (r: seq<Event>)
    ensures r <= evs
  {
    if evs == [] then []
    else if raises(evs[0]) then [evs[0]]
    else [evs[0]] + UntilRaise(evs[1..], raises)
  }

  /** A loop no call ends makes all of them; one ended at i made i + 1. */
  lemma {:induction false} UntilRaiseAt(evs: seq<Event>, raises: Raises, i: nat)
    requires i <= |evs|
    requires forall j :: 0 <= j < i ==> !raises(evs[j])
    ensures i == |evs| ==> UntilRaise(evs, raises) == evs
    ensures i < |evs| && raises(evs[i]) ==> UntilRaise(evs, raises) == evs[..i + 1]
  {
    if evs != [] && i > 0 {
      UntilRaiseAt(evs[1..], raises, i - 1);
      if i < |evs| {
        assert evs[..i + 1] == [evs[0]] + evs[1..][..i];
      }
    } else if evs != [] && i == 0 && i < |evs| && raises(evs[0]) {
      assert evs[..1] == [evs[0]];
    }
  }

  /** `for m in middlewares: try: m.h(...) except: log`: every call is made and nothing escapes. */
  method CallAll(h: Hook, n: nat, raises: Raises) returns (trace: seq<Event>)
    ensures trace == Calls(h, n)
  {
    trace := [];
    var i := 0;
    while i < n
      invariant i <= n && trace == Calls(h, i)
    {
      // any exception of the call is swallowed
      trace := trace + [Call(h, i)];
      i := i + 1;
    }
  }

  /** `for m in middlewares: m.h(...)`: the first exception ends the loop and escapes. */
  method CallUntilRaise(h: Hook, n: nat, raises: Raises) returns (trace: seq<Event>, raised: bool)
    ensures trace == UntilRaise(Calls(h, n), raises)
    ensures raised <==> AnyRaises(Calls(h, n), raises)
  {
    trace := [];
    var i := 0;
    while i < n
      invariant i <= n && trace == Calls(h, i)
      invariant forall j :: 0 <= j < i ==> !raises(Calls(h, n)[j])
    {
      trace := trace + [Call(h, i)];
      if raises(Call(h, i)) {
        UntilRaiseAt(Calls(h, n), raises, i);
        assert Calls(h, n)[..i + 1] == trace;
        assert raises(Calls(h, n)[i]);
        return trace, true;
      }
      i := i + 1;
    }
    UntilRaiseAt(Calls(h, n), raises, n);
    return trace, false;
  }

  /**
   * `try: func() finally: after()`: an exception from the finally step
   * replaces the function's; otherwise the function's outcome, its own
   * exception included, goes on.
   */
  function Finally(body: Result<()>, after: Result<()>): (r: Result<()>)
    ensures r.Ok? <==> body.Ok? && after.Ok?
    ensures after.Err? ==> r == after
    ensures after.Ok? ==> r == body
  {
    if after.Err? then after else body
  }
}
