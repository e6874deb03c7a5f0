/**
 * decorator/decorator_spider_middleware.py: SpiderMiddlewareDecorator. Its
 * wrapper calls spider_start on every spider middleware, outside any try;
 * runs the function; if the function raises, calls spider_error on every
 * middleware; finally calls spider_close on every middleware, logging and
 * swallowing each exception.
 */
module SpiderMiddlewareDecorators {
  import opened Hooks

  /**
   * The events of one wrapped call over n middlewares, and whether an
   * exception escapes it. A spider_start that raises ends everything at
   * once (no body, no spider_close); the function's own exception is
   * handled by the spider_error loop, and only an exception from a
   * spider_error escapes, after the spider_close loop has run.
   */
  function WrapperTrace(n: nat, raises: Raises): (seq<Event>, bool) {
    var starts := Calls(SpiderStart, n);
    if AnyRaises(starts, raises) then
      (UntilRaise(starts, raises), true)
    else
      var errors := if raises(Body) then UntilRaise(Calls(SpiderError, n), raises) else [];
      (starts + [Body] + errors + Calls(SpiderClose, n), raises(Body) && AnyRaises(Calls(SpiderError, n), raises))
  }

  /** `_wrapper(spider)` */
  method Wrapper(n: nat, raises: Raises) returns (trace: seq<Event>, raised: bool)
    ensures (trace, raised) == WrapperTrace(n, raises)
  {
    var starts, startRaised := CallUntilRaise(SpiderStart, n, raises);
    if startRaised {
      return starts, true;
    }
    UntilRaiseAt(Calls(SpiderStart, n), raises, n);
    var errors: seq<Event> := [];
    raised := false;
    if raises(Body) {
      errors, raised := CallUntilRaise(SpiderError, n, raises);
    }
    var closes := CallAll(SpiderClose, n, raises);
    trace := starts + [Body] + errors + closes;
  }

  /** A spider_start that raises escapes before the body runs, and no spider_close is called. */
  lemma StartRaiseSkipsRest(n: nat, raises: Raises)
    requires AnyRaises(Calls(SpiderStart, n), raises)
    ensures WrapperTrace(n, raises).1
    ensures Body !in WrapperTrace(n, raises).0
    ensures forall i :: Call(SpiderClose, i) !in WrapperTrace(n, raises).0
  {
    var t := UntilRaise(Calls(SpiderStart, n), raises);
    assert t <= Calls(SpiderStart, n);
    assert forall e :: e in t ==> e in Calls(SpiderStart, n);
  }

  /** Once every spider_start returns, the body runs and spider_close is called on every middleware, last, in order. */
  lemma ClosesAfterStarts(n: nat, raises: Raises)
    requires !AnyRaises(Calls(SpiderStart, n), raises)
    ensures var t := WrapperTrace(n, raises).0;
            |t| >= 2 * n + 1 && t[..n] == Calls(SpiderStart, n) && t[n] == Body
            && t[|t| - n..] == Calls(SpiderClose, n)
  {
    var t := WrapperTrace(n, raises).0;
    var errors := if raises(Body) then UntilRaise(Calls(SpiderError, n), raises) else [];
    assert t == Calls(SpiderStart, n) + [Body] + errors + Calls(SpiderClose, n);
    assert t[..n] == Calls(SpiderStart, n);
  }

  /**
   * The function's exception is handled: it escapes only if some
   * spider_error raises, and spider_error is called only when the function
   * raised.
   */
  lemma BodyErrorHandled(n: nat, raises: Raises)
    requires !AnyRaises(Calls(SpiderStart, n), raises)
    ensures WrapperTrace(n, raises).1 <==> raises(Body) && AnyRaises(Calls(SpiderError, n), raises)
    ensures !raises(Body) ==> forall i :: Call(SpiderError, i) !in WrapperTrace(n, raises).0
    ensures raises(Body) && !AnyRaises(Calls(SpiderError, n), raises) ==>
              WrapperTrace(n, raises).0 == Calls(SpiderStart, n) + [Body] + Calls(SpiderError, n) + Calls(SpiderClose, n)
  {
    if !raises(Body) {
      var t := WrapperTrace(n, raises).0;
      assert t == Calls(SpiderStart, n) + [Body] + Calls(SpiderClose, n);
    }
    if raises(Body) && !AnyRaises(Calls(SpiderError, n), raises) {
      UntilRaiseAt(Calls(SpiderError, n), raises, n);
    }
  }
}
