/**
 * The request loop that controller/controller_spider.py,
 * controller/controller_spider_jump.py and parser.py each spell out in
 * their run_requests: request_in on every request middleware; then up to
 * REQUEST_RETRY_TIMES sends, each failure offered to request_error on every
 * middleware; on the last failure request_failed on every middleware; after
 * a send that returns, request_close on every middleware. A Request that
 * request_error or request_close returns replaces the current one and ends
 * its processing; an exception any hook raises ends it too and propagates.
 * What the transport and the hooks do is supplied as `Outcomes`; the hook
 * calls made are the trace.
 */
module Dispatch {
  import opened Common
  import Requests

  /** What request_error or request_close did: returned None, a Request or any other value (only logged), or raised. */
  datatype Reply = NoReply | Replace(child: Requests.Request) | Other(v: Val) | Raise(e: Exc)

  /** Whether a reply ends the hook loop: a Request returned or an exception raised. */
  predicate Stops(r: Reply) {
    r.Replace? || r.Raise?
  }

  /** What `request.send()` did on one attempt: returned a response, or raised. */
  datatype SendResult = Returned(response: nat) | SendRaised(e: Exc)

  /**
   * The supplied behaviour of the transport and of the request middlewares
   * for one request: request_in of middleware m raises onIn(m) (None: it
   * returns); attempt i of send gives send(i); request_error of middleware m
   * on attempt i replies onError(i, m); request_failed of m raises
   * onFailed(m) (None: it returns); request_close of m replies onClose(m).
   */
  datatype Outcomes = Outcomes(
    onIn: nat -> Option<Exc>,
    send: nat -> SendResult,
    onError: (nat, nat) -> Reply,
    onFailed: nat -> Option<Exc>,
    onClose: nat -> Reply)

  /** One call the loop makes. */
  datatype Step =
    | In(m: nat)
    | Send(attempt: nat)
    | Error(attempt: nat, m: nat)
    | Failed(m: nat)
    | Close(m: nat)

  /** How processing of the request ended. */
  datatype Ending =
    | InRaised(e: Exc)                       // a request_in raised; the exception propagates
    | SendPropagated(e: Exc)                 // send raised DropRequestException and it propagates (parser.py)
    | HookRaised(e: Exc)                     // a request_error, request_failed or request_close raised; it propagates
    | Exhausted                              // every attempt failed; request_failed ran; run_requests returns
    | Replaced(child: Requests.Request, response: Option<nat>)  // a hook supplied a replacement; DropRequestException follows
    | Completed(response: Option<nat>)       // request_close ran on all; the callback comes next

  /** request_in on middlewares m, m+1, ... n-1, until one raises. */
  function InSteps(m: nat, n: nat, o: Outcomes): (r: (seq<Step>, Option<Exc>))
    decreases n - m
  {
    if m >= n then ([], None)
    else if o.onIn(m).Some? then ([In(m)], o.onIn(m))
    else var rest := InSteps(m + 1, n, o); ([In(m)] + rest.0, rest.1)
  }

  /** request_failed on middlewares m, m+1, ... n-1, until one raises. */
  function FailedRun(m: nat, n: nat, o: Outcomes): (r: (seq<Step>, Option<Exc>))
    decreases n - m
  {
    if m >= n then ([], None)
    else if o.onFailed(m).Some? then ([Failed(m)], o.onFailed(m))
    else var rest := FailedRun(m + 1, n, o); ([Failed(m)] + rest.0, rest.1)
  }

  /** The hooks offered a reply: request_error on attempt `attempt` (when close is false) or request_close. */
  function ReplyOf(o: Outcomes, close: bool, attempt: nat, m: nat): Reply {
    if close then o.onClose(m) else o.onError(attempt, m)
  }

  function HookStep(close: bool, attempt: nat, m: nat): Step {
    if close then Close(m) else Error(attempt, m)
  }

  /**
   * request_error (or request_close) on middlewares m ... n-1, until one
   * returns a Request or raises: that reply, or None when every one passed.
   */
  function ReplySteps(o: Outcomes, close: bool, attempt: nat, m: nat, n: nat): (r: (seq<Step>, Option<Reply>))
    ensures r.1.Some? ==> Stops(r.1.value)
    decreases n - m
  {
    if m >= n then ([], None)
    else if Stops(ReplyOf(o, close, attempt, m)) then ([HookStep(close, attempt, m)], Some(ReplyOf(o, close, attempt, m)))
    else var rest := ReplySteps(o, close, attempt, m + 1, n); ([HookStep(close, attempt, m)] + rest.0, rest.1)
  }

  /** How a reply that stops the loop ends processing: a replacement, or the exception propagating. */
  function StopEnding(r: Reply, response: Option<nat>): (e: Ending)
    requires Stops(r)
    ensures r.Replace? ==> e == Replaced(r.child, response)
    ensures r.Raise? ==> e == HookRaised(r.e)
  {
    if r.Replace? then Replaced(r.child, response) else HookRaised(r.e)
  }

  /** request_failed on every middleware, none raising. */
  function FailedSteps(n: nat): (s: seq<Step>)
    ensures |s| == n && forall m :: 0 <= m < n ==> s[m] == Failed(m)
  {
    seq(n, m requires 0 <= m < n => Failed(m))
  }

  /** Whether send raising e on an attempt propagates at once instead of counting as a failure. */
  predicate Propagates(dropPropagates: bool, e: Exc) {
    dropPropagates && e == DropRequest
  }

  /** The sends from attempt i on (i failures so far, i < retry). */
  function Attempts(i: nat, retry: int, n: nat, o: Outcomes, dropPropagates: bool): (r: (seq<Step>, Ending))
    requires i < retry
    decreases retry - i
  {
    match o.send(i)
    case Returned(resp) => ([Send(i)], Completed(Some(resp)))
    case SendRaised(e) =>
      if Propagates(dropPropagates, e) then ([Send(i)], SendPropagated(e))
      else
        var errs := ReplySteps(o, false, i, 0, n);
        if errs.1.Some? then ([Send(i)] + errs.0, StopEnding(errs.1.value, None))
        else if i + 1 >= retry then
          var fs := FailedRun(0, n, o);
          ([Send(i)] + errs.0 + fs.0, if fs.1.Some? then HookRaised(fs.1.value) else Exhausted)
        else var rest := Attempts(i + 1, retry, n, o, dropPropagates); ([Send(i)] + errs.0 + rest.0, rest.1)
  }

  /**
   * run_requests up to the callback over n request middlewares. With a
   * retry count of 0 or less the send loop never runs and request_close
   * sees no response.
   */
  function RunRequests(n: nat, retry: int, o: Outcomes, dropPropagates: bool): (r: (seq<Step>, Ending)) {
    var ins := InSteps(0, n, o);
    if ins.1.Some? then (ins.0, InRaised(ins.1.value))
    else
      var sent := if retry > 0 then Attempts(0, retry, n, o, dropPropagates) else ([], Completed(None));
      if sent.1.Completed? then
        var closes := ReplySteps(o, true, 0, 0, n);
        (ins.0 + sent.0 + closes.0, if closes.1.Some? then StopEnding(closes.1.value, sent.1.response) else sent.1)
      else (ins.0 + sent.0, sent.1)
  }

  // ---- the loops, proved against these functions ----

  /** `for middleware in ...: middleware.request_in(spider, request)` */
  method CallIn(n: nat, o: Outcomes) returns (trace: seq<Step>, raised: Option<Exc>)
    ensures (trace, raised) == InSteps(0, n, o)
  {
    trace, raised := [], None;
    var m: nat := 0;
    assert trace + InSteps(0, n, o).0 == InSteps(0, n, o).0;
    while m < n
      invariant m <= n
      invariant InSteps(0, n, o).0 == trace + InSteps(m, n, o).0
      invariant InSteps(0, n, o).1 == InSteps(m, n, o).1
      invariant raised == None
    {
      ConcatAssoc(trace, [In(m)], InSteps(m + 1, n, o).0);
      trace := trace + [In(m)];
      if o.onIn(m).Some? {
        return trace, o.onIn(m);
      }
      m := m + 1;
    }
    assert trace + InSteps(m, n, o).0 == trace;
  }

  /** The request_error (or request_close) loop: the first Request returned, or exception raised, ends it. */
  method CallReplies(n: nat, o: Outcomes, close: bool, attempt: nat) returns (trace: seq<Step>, stop: Option<Reply>)
    ensures (trace, stop) == ReplySteps(o, close, attempt, 0, n)
  {
    trace, stop := [], None;
    var m: nat := 0;
    assert trace + ReplySteps(o, close, attempt, 0, n).0 == ReplySteps(o, close, attempt, 0, n).0;
    while m < n
      invariant m <= n
      invariant ReplySteps(o, close, attempt, 0, n).0 == trace + ReplySteps(o, close, attempt, m, n).0
      invariant ReplySteps(o, close, attempt, 0, n).1 == ReplySteps(o, close, attempt, m, n).1
      invariant stop == None
    {
      var reply := if close then o.onClose(m) else o.onError(attempt, m);
      ConcatAssoc(trace, [HookStep(close, attempt, m)], ReplySteps(o, close, attempt, m + 1, n).0);
      trace := trace + [HookStep(close, attempt, m)];
      if reply.Replace? || reply.Raise? {
        return trace, Some(reply);
      }
      // None passes on; any other value is only logged
      m := m + 1;
    }
    assert trace + ReplySteps(o, close, attempt, m, n).0 == trace;
  }

  /** `for middleware in ...: middleware.request_failed(spider, request)` */
  method CallFailed(n: nat, o: Outcomes) returns (trace: seq<Step>, raised: Option<Exc>)
    ensures (trace, raised) == FailedRun(0, n, o)
  {
    trace, raised := [], None;
    var m: nat := 0;
    assert trace + FailedRun(0, n, o).0 == FailedRun(0, n, o).0;
    while m < n
      invariant m <= n
      invariant FailedRun(0, n, o).0 == trace + FailedRun(m, n, o).0
      invariant FailedRun(0, n, o).1 == FailedRun(m, n, o).1
      invariant raised == None
    {
      ConcatAssoc(trace, [Failed(m)], FailedRun(m + 1, n, o).0);
      trace := trace + [Failed(m)];
      if o.onFailed(m).Some? {
        return trace, o.onFailed(m);
      }
      m := m + 1;
    }
    assert trace + FailedRun(m, n, o).0 == trace;
  }

  /**
   * One pass of the send loop's body, attempt i: the calls it makes, and
   * either how processing ends or None when the loop goes on to attempt i + 1.
   */
  method Attempt(i: nat, retry: int, n: nat, o: Outcomes, dropPropagates: bool)
    returns (steps: seq<Step>, ending: Option<Ending>)
    requires i < retry
    ensures ending.Some? ==> Attempts(i, retry, n, o, dropPropagates) == (steps, ending.value)
    ensures ending.None? ==> i + 1 < retry
                             && Attempts(i, retry, n, o, dropPropagates).0 == steps + Attempts(i + 1, retry, n, o, dropPropagates).0
                             && Attempts(i, retry, n, o, dropPropagates).1 == Attempts(i + 1, retry, n, o, dropPropagates).1
  {
    var result := o.send(i);
    if result.Returned? {
      return [Send(i)], Some(Completed(Some(result.response)));
    }
    if Propagates(dropPropagates, result.e) {
      return [Send(i)], Some(SendPropagated(result.e));
    }
    var errs, stop := CallReplies(n, o, false, i);
    if stop.Some? {
      return [Send(i)] + errs, Some(StopEnding(stop.value, None));
    }
    if i + 1 >= retry {
      var fs, raised := CallFailed(n, o);
      return [Send(i)] + errs + fs, Some(if raised.Some? then HookRaised(raised.value) else Exhausted);
    }
    return [Send(i)] + errs, None;
  }

  /** The send loop, when it runs at all (retry > 0). */
  method SendLoop(retry: int, n: nat, o: Outcomes, dropPropagates: bool) returns (sent: seq<Step>, ending: Ending)
    requires retry > 0
    ensures (sent, ending) == Attempts(0, retry, n, o, dropPropagates)
  {
    sent := [];
    var failedTimes: nat := 0;
    while true
      invariant failedTimes < retry
      invariant Attempts(0, retry, n, o, dropPropagates).0 == sent + Attempts(failedTimes, retry, n, o, dropPropagates).0
      invariant Attempts(0, retry, n, o, dropPropagates).1 == Attempts(failedTimes, retry, n, o, dropPropagates).1
      decreases retry - failedTimes
    {
      var steps, end := Attempt(failedTimes, retry, n, o, dropPropagates);
      ghost var pre := sent;
      sent := sent + steps;
      if end.Some? {
        return sent, end.value;
      }
      ConcatAssoc(pre, steps, Attempts(failedTimes + 1, retry, n, o, dropPropagates).0);
      failedTimes := failedTimes + 1;
    }
  }

  /** run_requests up to the callback: the hook calls made and how it ended. */
  method RunRequestsLoop(n: nat, retry: int, o: Outcomes, dropPropagates: bool) returns (trace: seq<Step>, ending: Ending)
    ensures (trace, ending) == RunRequests(n, retry, o, dropPropagates)
  {
    var ins, raised := CallIn(n, o);
    if raised.Some? {
      return ins, InRaised(raised.value);
    }
    var sent: seq<Step> := [];
    ending := Completed(None);
    if retry > 0 {
      sent, ending := SendLoop(retry, n, o, dropPropagates);
      if !ending.Completed? {
        return ins + sent, ending;
      }
    }
    var closes, stop := CallReplies(n, o, true, 0);
    trace := ins + sent + closes;
    if stop.Some? {
      ending := StopEnding(stop.value, ending.response);
    }
  }

  // ---- what the loop promises ----

  /** Whether step s is a call of the reply hook: request_close, or request_error on attempt a. */
  predicate IsHook(s: Step, close: bool, a: nat) {
    if close then s.Close? else s.Error? && s.attempt == a
  }

  /** A reply loop calls only its own hook. */
  lemma {:induction false} ReplyStepsHooks(o: Outcomes, close: bool, a: nat, m: nat, n: nat)
    ensures forall s :: s in ReplySteps(o, close, a, m, n).0 ==> IsHook(s, close, a)
    decreases n - m
  {
    if m < n && !Stops(ReplyOf(o, close, a, m)) {
      ReplyStepsHooks(o, close, a, m + 1, n);
    }
  }

  /**
   * When no middleware stops the loop, the hook is called on every
   * middleware from m on, in order, and none returned a Request or raised.
   */
  lemma {:induction false} ReplyStepsAll(o: Outcomes, close: bool, a: nat, m: nat, n: nat)
    requires m <= n
    ensures var r := ReplySteps(o, close, a, m, n);
            r.1.None? ==> |r.0| == n - m
                          && forall k :: 0 <= k < |r.0| ==> r.0[k] == HookStep(close, a, m + k) && !Stops(ReplyOf(o, close, a, m + k))
    decreases n - m
  {
    if m < n && !Stops(ReplyOf(o, close, a, m)) {
      ReplyStepsAll(o, close, a, m + 1, n);
      var rest := ReplySteps(o, close, a, m + 1, n);
      var r := ReplySteps(o, close, a, m, n);
      assert r.0 == [HookStep(close, a, m)] + rest.0;
      if r.1.None? {
        forall k | 1 <= k < |r.0|
          ensures r.0[k] == HookStep(close, a, m + k) && !Stops(ReplyOf(o, close, a, m + k))
        {
          assert r.0[k] == rest.0[k - 1];
        }
      }
    }
  }

  /**
   * When a middleware returns a Request or raises, the loop stops at it:
   * the last call is that middleware's, and its reply is the result.
   */
  lemma {:induction false} ReplyStepsStop(o: Outcomes, close: bool, a: nat, m: nat, n: nat)
    ensures var r := ReplySteps(o, close, a, m, n);
            r.1.Some? ==> |r.0| > 0
                          && exists j :: m <= j < n && r.0[|r.0| - 1] == HookStep(close, a, j)
                                         && ReplyOf(o, close, a, j) == r.1.value
    decreases n - m
  {
    if m < n && !Stops(ReplyOf(o, close, a, m)) {
      ReplyStepsStop(o, close, a, m + 1, n);
      var rest := ReplySteps(o, close, a, m + 1, n);
      var r := ReplySteps(o, close, a, m, n);
      assert r.0 == [HookStep(close, a, m)] + rest.0;
      if r.1.Some? {
        var j :| m + 1 <= j < n && rest.0[|rest.0| - 1] == HookStep(close, a, j)
                 && ReplyOf(o, close, a, j) == rest.1.value;
        assert r.0[|r.0| - 1] == rest.0[|rest.0| - 1];
      }
    } else if m < n {
      assert ReplySteps(o, close, a, m, n).0 == [HookStep(close, a, m)];
    }
  }

  /**
   * request_failed is called on middlewares m, m+1, ... in order until one
   * raises; when none raises, on every one from m on.
   */
  lemma {:induction false} FailedRunFacts(m: nat, n: nat, o: Outcomes)
    requires m <= n
    ensures var r := FailedRun(m, n, o);
            (forall k :: 0 <= k < |r.0| ==> r.0[k] == Failed(m + k))
            && (r.1.None? ==> |r.0| == n - m && forall k :: m <= k < n ==> o.onFailed(k).None?)
            && (r.1.Some? ==> 0 < |r.0| <= n - m && r.1 == o.onFailed(m + |r.0| - 1))
    decreases n - m
  {
    if m < n && o.onFailed(m).None? {
      FailedRunFacts(m + 1, n, o);
      var r := FailedRun(m, n, o);
      var rest := FailedRun(m + 1, n, o);
      assert r.0 == [Failed(m)] + rest.0;
      forall k | 1 <= k < |r.0|
        ensures r.0[k] == Failed(m + k)
      {
        assert r.0[k] == rest.0[k - 1];
      }
    }
  }

  /** request_failed runs to the end exactly when no middleware's raises, and then it is called on all of them. */
  lemma FailedRunAll(n: nat, o: Outcomes)
    ensures FailedRun(0, n, o).1.None? <==> forall m :: 0 <= m < n ==> o.onFailed(m).None?
    ensures FailedRun(0, n, o).1.None? ==> FailedRun(0, n, o).0 == FailedSteps(n)
  {
    FailedRunFacts(0, n, o);
    var r := FailedRun(0, n, o);
    if r.1.None? {
      assert r.0 == FailedSteps(n);
    }
  }

  /** The sends from attempt i send only attempts i .. retry-1 and call neither request_in nor request_close. */
  lemma {:induction false} AttemptsSends(i: nat, retry: int, n: nat, o: Outcomes, dp: bool)
    requires i < retry
    ensures var r := Attempts(i, retry, n, o, dp);
            (forall s :: s in r.0 && s.Send? ==> i <= s.attempt < retry)
            && (forall s :: s in r.0 ==> !s.In? && !s.Close?)
            && !r.1.InRaised?
            && (r.1.Completed? ==> r.1.response.Some?)
            && (!dp ==> !r.1.SendPropagated?)
    decreases retry - i
  {
    match o.send(i)
    case Returned(_) =>
    case SendRaised(e) =>
      if !Propagates(dp, e) {
        ReplyStepsHooks(o, false, i, 0, n);
        if ReplySteps(o, false, i, 0, n).1.None? {
          if i + 1 < retry {
            AttemptsSends(i + 1, retry, n, o, dp);
          } else {
            FailedRunFacts(0, n, o);
          }
        }
      }
  }

  /** Unless the last attempt failed with every request_error passing, request_failed is not called. */
  lemma {:induction false} AttemptsNoFailed(i: nat, retry: int, n: nat, o: Outcomes, dp: bool)
    requires i < retry
    ensures var r := Attempts(i, retry, n, o, dp);
            !r.1.Exhausted? && !r.1.HookRaised? ==> forall s :: s in r.0 ==> !s.Failed?
    decreases retry - i
  {
    match o.send(i)
    case Returned(_) =>
    case SendRaised(e) =>
      if !Propagates(dp, e) {
        ReplyStepsHooks(o, false, i, 0, n);
        if ReplySteps(o, false, i, 0, n).1.None? && i + 1 < retry {
          AttemptsNoFailed(i + 1, retry, n, o, dp);
        }
      }
  }

  /**
   * When every attempt failed, request_failed is called on all n
   * middlewares at the very end, none of them raising, and attempt
   * retry-1 was sent.
   */
  lemma {:induction false} AttemptsExhausted(i: nat, retry: int, n: nat, o: Outcomes, dp: bool)
    requires i < retry
    ensures var r := Attempts(i, retry, n, o, dp);
            r.1.Exhausted? ==> |r.0| >= n && r.0[|r.0| - n..] == FailedSteps(n) && Send(retry - 1) in r.0
                               && forall m :: 0 <= m < n ==> o.onFailed(m).None?
    decreases retry - i
  {
    var r := Attempts(i, retry, n, o, dp);
    if o.send(i).SendRaised? && !Propagates(dp, o.send(i).e) {
      var errs := ReplySteps(o, false, i, 0, n);
      if errs.1.None? && i + 1 >= retry {
        FailedRunAll(n, o);
        if FailedRun(0, n, o).1.None? {
          assert r.0 == [Send(i)] + errs.0 + FailedSteps(n);
        }
      } else if errs.1.None? {
        var rest := Attempts(i + 1, retry, n, o, dp);
        AttemptsExhausted(i + 1, retry, n, o, dp);
        assert r.0 == [Send(i)] + errs.0 + rest.0;
        if rest.1.Exhausted? {
          assert r.0[|r.0| - n..] == rest.0[|rest.0| - n..];
        }
      }
    }
  }

  /** ... and request_failed is called only there. */
  lemma {:induction false} AttemptsExhaustedPrefix(i: nat, retry: int, n: nat, o: Outcomes, dp: bool)
    requires i < retry
    ensures var r := Attempts(i, retry, n, o, dp);
            r.1.Exhausted? ==> |r.0| >= n && forall s :: s in r.0[..|r.0| - n] ==> !s.Failed?
    decreases retry - i
  {
    var r := Attempts(i, retry, n, o, dp);
    if o.send(i).SendRaised? && !Propagates(dp, o.send(i).e) {
      var errs := ReplySteps(o, false, i, 0, n);
      ReplyStepsHooks(o, false, i, 0, n);
      if errs.1.None? && i + 1 >= retry {
        FailedRunAll(n, o);
        if FailedRun(0, n, o).1.None? {
          assert r.0 == [Send(i)] + errs.0 + FailedSteps(n);
          assert r.0[..|r.0| - n] == [Send(i)] + errs.0;
        }
      } else if errs.1.None? {
        var rest := Attempts(i + 1, retry, n, o, dp);
        AttemptsExhaustedPrefix(i + 1, retry, n, o, dp);
        assert r.0 == [Send(i)] + errs.0 + rest.0;
        if rest.1.Exhausted? {
          assert r.0[..|r.0| - n] == [Send(i)] + errs.0 + rest.0[..|rest.0| - n];
        }
      }
    }
  }

  /** A replacement from request_error is the reply of the call made last. */
  lemma {:induction false} AttemptsReplaced(i: nat, retry: int, n: nat, o: Outcomes, dp: bool)
    requires i < retry
    ensures var r := Attempts(i, retry, n, o, dp);
            r.1.Replaced? ==> |r.0| > 0 && exists a, m :: r.0[|r.0| - 1] == Error(a, m) && o.onError(a, m) == Replace(r.1.child)
    decreases retry - i
  {
    var r := Attempts(i, retry, n, o, dp);
    match o.send(i)
    case Returned(_) =>
    case SendRaised(e) =>
      if !Propagates(dp, e) {
        var errs := ReplySteps(o, false, i, 0, n);
        ReplyStepsStop(o, false, i, 0, n);
        if errs.1.Some? {
          assert r.0 == [Send(i)] + errs.0;
          var j :| 0 <= j < n && errs.0[|errs.0| - 1] == HookStep(false, i, j) && ReplyOf(o, false, i, j) == errs.1.value;
          assert r.0[|r.0| - 1] == Error(i, j);
        } else if i + 1 < retry {
          var rest := Attempts(i + 1, retry, n, o, dp);
          AttemptsReplaced(i + 1, retry, n, o, dp);
          assert r.0 == [Send(i)] + errs.0 + rest.0;
          if rest.1.Replaced? {
            assert r.0[|r.0| - 1] == rest.0[|rest.0| - 1];
          }
        }
      }
  }

  /** An exception from request_error or request_failed is raised by the call made last. */
  lemma {:induction false} AttemptsHookRaised(i: nat, retry: int, n: nat, o: Outcomes, dp: bool)
    requires i < retry
    ensures var r := Attempts(i, retry, n, o, dp);
            r.1.HookRaised? ==>
              |r.0| > 0
              && ((exists a, m :: r.0[|r.0| - 1] == Error(a, m) && o.onError(a, m) == Raise(r.1.e))
                  || (exists m :: r.0[|r.0| - 1] == Failed(m) && o.onFailed(m) == Some(r.1.e)))
    decreases retry - i
  {
    var r := Attempts(i, retry, n, o, dp);
    match o.send(i)
    case Returned(_) =>
    case SendRaised(e) =>
      if !Propagates(dp, e) {
        var errs := ReplySteps(o, false, i, 0, n);
        ReplyStepsStop(o, false, i, 0, n);
        if errs.1.Some? {
          assert r.0 == [Send(i)] + errs.0;
          var j :| 0 <= j < n && errs.0[|errs.0| - 1] == HookStep(false, i, j) && ReplyOf(o, false, i, j) == errs.1.value;
          assert r.0[|r.0| - 1] == Error(i, j);
        } else if i + 1 >= retry {
          var fs := FailedRun(0, n, o);
          FailedRunFacts(0, n, o);
          if fs.1.Some? {
            assert r.0 == [Send(i)] + errs.0 + fs.0;
            assert r.0[|r.0| - 1] == fs.0[|fs.0| - 1] == Failed(|fs.0| - 1);
          }
        } else {
          var rest := Attempts(i + 1, retry, n, o, dp);
          AttemptsHookRaised(i + 1, retry, n, o, dp);
          assert r.0 == [Send(i)] + errs.0 + rest.0;
          if rest.1.HookRaised? {
            assert r.0[|r.0| - 1] == rest.0[|rest.0| - 1];
          }
        }
      }
  }

  /** request_in is called on middlewares 0, 1, ... in order and is the only hook called before the first send. */
  lemma {:induction false} InStepsFacts(m: nat, n: nat, o: Outcomes)
    requires m <= n
    ensures var r := InSteps(m, n, o);
            (forall k :: 0 <= k < |r.0| ==> r.0[k] == In(m + k))
            && (r.1.None? ==> |r.0| == n - m)
            && (r.1.Some? ==> |r.0| > 0 && r.1 == o.onIn(m + |r.0| - 1))
    decreases n - m
  {
    if m < n && o.onIn(m).None? {
      InStepsFacts(m + 1, n, o);
      var r := InSteps(m, n, o);
      var rest := InSteps(m + 1, n, o);
      assert r.0 == [In(m)] + rest.0;
      forall k | 1 <= k < |r.0|
        ensures r.0[k] == In(m + k)
      {
        assert r.0[k] == rest.0[k - 1];
      }
    }
  }

  /** At most REQUEST_RETRY_TIMES sends: every attempt sent is numbered below retry, and none without a positive retry. */
  lemma RetryBound(n: nat, retry: int, o: Outcomes, dp: bool)
    ensures forall s :: s in RunRequests(n, retry, o, dp).0 && s.Send? ==> s.attempt < retry
    ensures retry <= 0 ==> forall s :: s in RunRequests(n, retry, o, dp).0 ==> !s.Send?
  {
    InStepsFacts(0, n, o);
    ReplyStepsHooks(o, true, 0, 0, n);
    if retry > 0 {
      AttemptsSends(0, retry, n, o, dp);
    }
  }

  /**
   * When every attempt fails, request_failed runs once on every middleware,
   * last, after the send numbered retry - 1, and none of them raised.
   */
  lemma ExhaustedFailsAll(n: nat, retry: int, o: Outcomes, dp: bool)
    requires RunRequests(n, retry, o, dp).1 == Exhausted
    ensures var t := RunRequests(n, retry, o, dp).0;
            retry > 0 && |t| >= n && t[|t| - n..] == FailedSteps(n) && Send(retry - 1) in t
    ensures forall m :: 0 <= m < n ==> o.onFailed(m).None?
  {
    var ins := InSteps(0, n, o);
    var sent := Attempts(0, retry, n, o, dp);
    AttemptsExhausted(0, retry, n, o, dp);
    var t := RunRequests(n, retry, o, dp).0;
    assert t == ins.0 + sent.0;
    assert t[|t| - n..] == sent.0[|sent.0| - n..];
  }

  /**
   * ... request_failed runs nowhere before those last calls, request_close
   * is never called, and the callback does not run (the ending is not
   * Completed).
   */
  lemma ExhaustedNeverCloses(n: nat, retry: int, o: Outcomes, dp: bool)
    requires RunRequests(n, retry, o, dp).1 == Exhausted
    ensures var t := RunRequests(n, retry, o, dp).0;
            |t| >= n && (forall s :: s in t[..|t| - n] ==> !s.Failed?)
            && forall s :: s in t ==> !s.Close?
  {
    var ins := InSteps(0, n, o);
    InStepsFacts(0, n, o);
    var sent := Attempts(0, retry, n, o, dp);
    AttemptsExhaustedPrefix(0, retry, n, o, dp);
    AttemptsSends(0, retry, n, o, dp);
    var t := RunRequests(n, retry, o, dp).0;
    assert t == ins.0 + sent.0;
    assert t[..|t| - n] == ins.0 + sent.0[..|sent.0| - n];
  }

  /**
   * A replacement ends processing: the call made last is the request_error
   * or request_close that returned it, so nothing is sent or called after.
   */
  lemma ReplacementEnds(n: nat, retry: int, o: Outcomes, dp: bool)
    requires RunRequests(n, retry, o, dp).1.Replaced?
    ensures var r := RunRequests(n, retry, o, dp);
            |r.0| > 0
            && ((exists a, m :: r.0[|r.0| - 1] == Error(a, m) && o.onError(a, m) == Replace(r.1.child))
                || (exists m :: r.0[|r.0| - 1] == Close(m) && o.onClose(m) == Replace(r.1.child)))
  {
    var ins := InSteps(0, n, o);
    var sent := if retry > 0 then Attempts(0, retry, n, o, dp) else ([], Completed(None));
    if retry > 0 {
      AttemptsReplaced(0, retry, n, o, dp);
    }
    var r := RunRequests(n, retry, o, dp);
    if sent.1.Completed? {
      var closes := ReplySteps(o, true, 0, 0, n);
      ReplyStepsStop(o, true, 0, 0, n);
      assert r.0 == ins.0 + sent.0 + closes.0;
      assert r.0[|r.0| - 1] == closes.0[|closes.0| - 1];
    } else {
      assert r.0 == ins.0 + sent.0;
      assert r.0[|r.0| - 1] == sent.0[|sent.0| - 1];
    }
  }

  /**
   * An exception from request_error, request_failed or request_close ends
   * processing: the call made last is the one that raised it, so nothing
   * is sent or called after.
   */
  lemma HookRaisedEnds(n: nat, retry: int, o: Outcomes, dp: bool)
    requires RunRequests(n, retry, o, dp).1.HookRaised?
    ensures var r := RunRequests(n, retry, o, dp);
            |r.0| > 0
            && ((exists a, m :: r.0[|r.0| - 1] == Error(a, m) && o.onError(a, m) == Raise(r.1.e))
                || (exists m :: r.0[|r.0| - 1] == Failed(m) && o.onFailed(m) == Some(r.1.e))
                || (exists m :: r.0[|r.0| - 1] == Close(m) && o.onClose(m) == Raise(r.1.e)))
  {
    var ins := InSteps(0, n, o);
    var sent := if retry > 0 then Attempts(0, retry, n, o, dp) else ([], Completed(None));
    if retry > 0 {
      AttemptsHookRaised(0, retry, n, o, dp);
    }
    var r := RunRequests(n, retry, o, dp);
    if sent.1.Completed? {
      var closes := ReplySteps(o, true, 0, 0, n);
      ReplyStepsStop(o, true, 0, 0, n);
      assert r.0 == ins.0 + sent.0 + closes.0;
      assert r.0[|r.0| - 1] == closes.0[|closes.0| - 1];
    } else {
      assert r.0 == ins.0 + sent.0;
      assert r.0[|r.0| - 1] == sent.0[|sent.0| - 1];
    }
  }

  /**
   * request_error raising on the first failure ends processing there, with
   * that exception: no retry, no request_failed, no request_close.
   */
  lemma ErrorRaiseStopsRetries(n: nat, retry: int, o: Outcomes, dp: bool, e: Exc)
    requires InSteps(0, n, o).1.None? && retry > 0 && n > 0
    requires o.send(0).SendRaised? && !Propagates(dp, o.send(0).e) && o.onError(0, 0) == Raise(e)
    ensures RunRequests(n, retry, o, dp) == (InSteps(0, n, o).0 + [Send(0), Error(0, 0)], HookRaised(e))
  {
    assert ReplySteps(o, false, 0, 0, n) == ([Error(0, 0)], Some(Raise(e)));
    assert Attempts(0, retry, n, o, dp) == ([Send(0)] + [Error(0, 0)], HookRaised(e));
    assert [Send(0)] + [Error(0, 0)] == [Send(0), Error(0, 0)];
  }

  /** The shape of a trace that reaches the callback: the sends completed and no close stopped the loop. */
  lemma CompletedShape(n: nat, retry: int, o: Outcomes, dp: bool)
    requires RunRequests(n, retry, o, dp).1.Completed?
    ensures InSteps(0, n, o).1.None?
    ensures var sent := if retry > 0 then Attempts(0, retry, n, o, dp) else ([], Completed(None));
            sent.1.Completed? && ReplySteps(o, true, 0, 0, n).1.None?
            && RunRequests(n, retry, o, dp).0 == InSteps(0, n, o).0 + sent.0 + ReplySteps(o, true, 0, 0, n).0
  {
  }

  /** The trace ends with request_close on every middleware, in order, none returning a Request or raising. */
  ghost predicate ClosesLast(t: seq<Step>, n: nat, o: Outcomes) {
    |t| >= n && t[|t| - n..] == seq(n, k requires 0 <= k => Close(k)) && forall k :: 0 <= k < n ==> !Stops(o.onClose(k))
  }

  /**
   * Reaching the callback: every request_in returned, request_close was
   * called on every middleware, last and in order, and none returned a
   * Request or raised.
   */
  lemma CompletedClosesAll(n: nat, retry: int, o: Outcomes, dp: bool)
    requires RunRequests(n, retry, o, dp).1.Completed?
    ensures ClosesLast(RunRequests(n, retry, o, dp).0, n, o)
  {
    CompletedShape(n, retry, o, dp);
    ReplyStepsAll(o, true, 0, 0, n);
    var sent := if retry > 0 then Attempts(0, retry, n, o, dp) else ([], Completed(None));
    ClosesAfter(InSteps(0, n, o).0 + sent.0, ReplySteps(o, true, 0, 0, n).0, n, o);
  }

  /** A trace that ends with the closes of ReplySteps ends as ClosesLast says. */
  lemma ClosesAfter(pre: seq<Step>, closes: seq<Step>, n: nat, o: Outcomes)
    requires |closes| == n
    requires forall k :: 0 <= k < n ==> closes[k] == HookStep(true, 0, k) && !Stops(ReplyOf(o, true, 0, k))
    ensures ClosesLast(pre + closes, n, o)
  {
    var t := pre + closes;
    assert t[|t| - n..] == closes;
    assert closes == seq(n, k requires 0 <= k => Close(k));
    forall k | 0 <= k < n ensures !Stops(o.onClose(k)) {
      assert !Stops(ReplyOf(o, true, 0, k));
    }
  }

  /** Reaching the callback, request_failed was never called. */
  lemma CompletedNeverFails(n: nat, retry: int, o: Outcomes, dp: bool)
    requires RunRequests(n, retry, o, dp).1.Completed?
    ensures forall s :: s in RunRequests(n, retry, o, dp).0 ==> !s.Failed?
  {
    CompletedShape(n, retry, o, dp);
    InStepsFacts(0, n, o);
    if retry > 0 {
      AttemptsNoFailed(0, retry, n, o, dp);
    }
    ReplyStepsHooks(o, true, 0, 0, n);
  }

  /**
   * DropRequestException from send: parser.py lets it propagate at once,
   * before any request_error; the controllers count it as a failed attempt
   * like any other exception.
   */
  lemma DropFromSend(n: nat, retry: int, o: Outcomes)
    requires InSteps(0, n, o).1.None? && retry > 0 && o.send(0) == SendRaised(DropRequest)
    ensures RunRequests(n, retry, o, true) == (InSteps(0, n, o).0 + [Send(0)], SendPropagated(DropRequest))
    ensures RunRequests(n, retry, o, false).1 != SendPropagated(DropRequest)
    ensures (forall k :: 0 <= k < n ==> !Stops(o.onError(0, k)) && o.onFailed(k).None?) && retry == 1 ==>
              RunRequests(n, retry, o, false).1 == Exhausted
  {
    AttemptsSends(0, retry, n, o, false);
    ReplyStepsStop(o, false, 0, 0, n);
    ReplyStepsStop(o, true, 0, 0, n);
    FailedRunAll(n, o);
  }
}
