/**
 * The spider checker: a circuit breaker sampled before requests. A user
 * predicate `need_stop` is sampled at most once per `check_time`; the
 * last `failed_limit` samples are cached, and the checker reports "stop"
 * once all of them are true. `check_and_wait` blocks while it reports
 * stop, `check_and_stop` stops every spider controller once.
 *
 * The user predicate and the clock are parameters: each sample is given
 * as the time of the call and the predicate's outcome (an exception is
 * `Err`). The checker's class attributes are the fields of one object.
 */
module SpiderChecks {
  import opened Common
  import Spiders

  /** The state `_need_stop` reads and writes. */
  datatype CheckState = CheckState(failedLimit: int, cache: seq<bool>, last: Option<int>, stop: bool)

  /** list.count(b): how many entries equal b. */
  function Count(s: seq<bool>, b: bool): nat {
    multiset(s)[b]
  }

  /** `bool(need_stop())`, where an exception counts as true. */
  function Sample(need: Result<bool>): bool {
    match need
    case Ok(b) => b
    case Err(_) => true
  }

  /**
   * The cache after appending a sample and deleting its oldest entries
   * beyond `limit`.
   */
  function Window(h: seq<bool>, limit: nat): seq<bool> {
    if |h| > 0 && |h| > limit then h[|h| - limit..] else h
  }

  /** The trimmed cache is the last min(|h|, limit) entries of h. */
  lemma WindowSuffix(h: seq<bool>, limit: nat)
    ensures var w := Window(h, limit);
            |w| == (if |h| < limit then |h| else limit) && w == h[|h| - |w|..]
  {
  }

  /** `failed_limit` after `_need_stop` raised it to at least 1. */
  function Limit(failedLimit: int): (l: nat)
    ensures l >= 1 && (failedLimit >= 1 ==> l == failedLimit)
  {
    if failedLimit < 1 then 1 else failedLimit
  }

  /** Whether a call at `now` takes a new sample. */
  predicate Due(st: CheckState, checkTime: int, now: int) {
    st.last.None? || now - st.last.value > checkTime
  }

  /** `_need_stop()` called at time `now`, the predicate giving `need`. */
  function Step(st: CheckState, checkTime: int, now: int, need: Result<bool>): CheckState {
    var limit := Limit(st.failedLimit);
    if Due(st, checkTime, now) then
      var cache := Window(st.cache + [Sample(need)], limit);
      CheckState(limit, cache, Some(now), Count(cache, true) >= limit)
    else
      st.(failedLimit := limit)
  }

  /** True is counted |s| times exactly when every entry is true. */
  lemma {:induction false} CountAllTrue(s: seq<bool>)
    ensures Count(s, true) == |s| <==> forall i :: 0 <= i < |s| ==> s[i]
    decreases |s|
  {
    if s != [] {
      CountAllTrue(s[1..]);
      assert s == [s[0]] + s[1..];
      assert multiset(s) == multiset{s[0]} + multiset(s[1..]);
      assert forall i :: 0 <= i < |s[1..]| ==> s[1..][i] == s[i + 1];
      assert multiset(s[1..])[true] <= |s[1..]|;
    }
  }

  /** A failed_limit below 1 is raised to 1; other limits are kept. */
  lemma LimitRaised(st: CheckState, checkTime: int, now: int, need: Result<bool>)
    ensures var next := Step(st, checkTime, now, need);
            next.failedLimit >= 1
            && (st.failedLimit >= 1 ==> next.failedLimit == st.failedLimit)
            && (st.failedLimit < 1 ==> next.failedLimit == 1)
  {
  }

  /**
   * A sample is taken only when no sample was taken yet or more than
   * check_time has passed since the last one; otherwise the cache, the
   * time of the last sample and the cached status are kept.
   */
  lemma SampleOnlyWhenDue(st: CheckState, checkTime: int, now: int, need: Result<bool>)
    ensures var next := Step(st, checkTime, now, need);
            (next.last == Some(now) && next.cache == Window(st.cache + [Sample(need)], next.failedLimit)
             <== st.last.None? || now - st.last.value > checkTime)
            && (st.last.Some? && now - st.last.value <= checkTime ==>
                next.cache == st.cache && next.last == st.last && next.stop == st.stop)
  {
  }

  /**
   * After a sample the cache holds at most failed_limit entries, the most
   * recent ones, and the status is stop exactly when the cache is full and
   * all of its entries are true.
   */
  lemma SampleWindow(st: CheckState, checkTime: int, now: int, need: Result<bool>)
    requires Due(st, checkTime, now)
    ensures var next := Step(st, checkTime, now, need);
            var h := st.cache + [Sample(need)];
            |next.cache| <= next.failedLimit
            && next.cache == h[|h| - |next.cache|..]
            && |next.cache| == (if |h| < next.failedLimit then |h| else next.failedLimit)
            && (next.stop <==> |next.cache| == next.failedLimit && forall i :: 0 <= i < |next.cache| ==> next.cache[i])
  {
    var next := Step(st, checkTime, now, need);
    WindowSuffix(st.cache + [Sample(need)], next.failedLimit);
    CountAllTrue(next.cache);
  }

  /** An exception from the predicate is a true sample. */
  lemma ExceptionIsTrue(st: CheckState, checkTime: int, now: int, e: Exc)
    ensures Step(st, checkTime, now, Err(e)) == Step(st, checkTime, now, Ok(true))
  {
  }

  /** Trimming before each append keeps exactly the last entries of the whole history. */
  lemma {:induction false} SlidingWindow(h: seq<bool>, s: bool, limit: nat)
    requires limit >= 1
    ensures Window(Window(h, limit) + [s], limit) == Window(h + [s], limit)
  {
    var w := Window(h, limit);
    var a := Window(w + [s], limit);
    var b := Window(h + [s], limit);
    WindowSuffix(h, limit);
    WindowSuffix(w + [s], limit);
    WindowSuffix(h + [s], limit);
    assert |a| == |b|;
    forall i | 0 <= i < |a| ensures a[i] == b[i] {
      if i == |a| - 1 {
        assert a[i] == (w + [s])[|w|] == s;
        assert b[i] == (h + [s])[|h|] == s;
      } else {
        assert a[i] == (w + [s])[|w| + 1 - |a| + i] == w[|w| + 1 - |a| + i];
        assert w[|w| + 1 - |a| + i] == h[|h| - |w| + |w| + 1 - |a| + i];
        assert b[i] == (h + [s])[|h| + 1 - |b| + i] == h[|h| + 1 - |b| + i];
      }
    }
  }

  /**
   * With an unchanged failed_limit, a cache holding the last entries of
   * the samples so far holds the last entries of the samples after one
   * more call, and the status is stop exactly when the last failed_limit
   * samples of the whole history were all true.
   */
  lemma HistoryWindow(st: CheckState, history: seq<bool>, checkTime: int, now: int, need: Result<bool>)
    requires st.failedLimit >= 1 && st.cache == Window(history, st.failedLimit)
    ensures var next := Step(st, checkTime, now, need);
            var h := if Due(st, checkTime, now) then history + [Sample(need)] else history;
            next.cache == Window(h, next.failedLimit)
            && (Due(st, checkTime, now) ==>
                  (next.stop <==> |h| >= next.failedLimit && forall i :: |h| - next.failedLimit <= i < |h| ==> h[i]))
  {
    if Due(st, checkTime, now) {
      SlidingWindow(history, Sample(need), st.failedLimit);
      SampleWindow(st, checkTime, now, need);
    }
  }

  /** The state before a run of `_need_stop` calls and after each of them. */
  function Trace(st: CheckState, checkTime: int, polls: seq<(int, Result<bool>)>): (t: seq<CheckState>)
    ensures |t| == |polls| + 1 && t[0] == st
    decreases |polls|
  {
    if polls == [] then [st]
    else [st] + Trace(Step(st, checkTime, polls[0].0, polls[0].1), checkTime, polls[1..])
  }

  /** Call i of a run goes from state i to state i + 1. */
  lemma {:induction false} TraceNext(st: CheckState, checkTime: int, polls: seq<(int, Result<bool>)>, i: nat)
    requires i < |polls|
    ensures var t := Trace(st, checkTime, polls);
            t[i + 1] == Step(t[i], checkTime, polls[i].0, polls[i].1)
    decreases i
  {
    if i > 0 {
      var next := Step(st, checkTime, polls[0].0, polls[0].1);
      TraceNext(next, checkTime, polls[1..], i - 1);
      var t := Trace(st, checkTime, polls);
      var rest := Trace(next, checkTime, polls[1..]);
      assert t == [st] + rest;
      assert t[i] == rest[i - 1] && t[i + 1] == rest[i] && polls[i] == polls[1..][i - 1];
    }
  }

  /**
   * The number of leading states of a run that report stop:
   * check_and_wait returns after the first call that does not.
   */
  function FirstRelease(t: seq<CheckState>): (k: nat)
    ensures k <= |t|
    ensures forall i :: 0 <= i < k ==> t[i].stop
    ensures k < |t| ==> !t[k].stop
  {
    if t == [] || !t[0].stop then 0 else 1 + FirstRelease(t[1..])
  }

  /** FirstRelease is the one index with only stop reports before it and none at it. */
  lemma FirstReleaseIs(t: seq<CheckState>, k: nat)
    requires k <= |t| && (forall i :: 0 <= i < k ==> t[i].stop) && (k < |t| ==> !t[k].stop)
    ensures FirstRelease(t) == k
  {
  }

  /** How the wait loop ended, read off the trace of its reports. */
  lemma TraceRelease(trace: seq<CheckState>, n: nat, used: nat, released: bool)
    requires |trace| == n + 1 && used <= n
    requires released ==> 1 <= used && !trace[used].stop && forall i :: 1 <= i < used ==> trace[i].stop
    requires !released ==> used == n && forall i :: 1 <= i <= n ==> trace[i].stop
    ensures var k := FirstRelease(trace[1..]);
            released == (k < n) && used == (if released then k + 1 else n)
  {
    assert forall i :: 0 <= i < n ==> trace[1..][i] == trace[i + 1];
    if released {
      FirstReleaseIs(trace[1..], used - 1);
    } else {
      FirstReleaseIs(trace[1..], used);
    }
  }

  class Checker {
    var checkTime: int
    var failedLimit: int
    var statusCache: seq<bool>
    var lastCheckTime: Option<int>
    var stopStatus: bool
    var hasStop: bool

    function State(): CheckState
      reads this
    {
      CheckState(failedLimit, statusCache, lastCheckTime, stopStatus)
    }

    /** The class attributes' defaults: every 3 s, 3 in a row. */
    constructor ()
      ensures checkTime == 3 && failedLimit == 3
      ensures statusCache == [] && lastCheckTime.None? && !stopStatus && !hasStop
    {
      checkTime := 3;
      failedLimit := 3;
      statusCache := [];
      lastCheckTime := None;
      stopStatus := false;
      hasStop := false;
    }

    /** `_need_stop()`: called at time `now`, the user predicate giving `need`. */
    method NeedStop(now: int, need: Result<bool>) returns (stop: bool)
      modifies this
      ensures State() == Step(old(State()), checkTime, now, need)
      ensures checkTime == old(checkTime) && hasStop == old(hasStop)
      ensures stop == stopStatus
    {
      var limit := failedLimit;
      if limit < 1 {
        limit := 1;
      }
      var last, cache, status := lastCheckTime, statusCache, stopStatus;
      if last.None? || now - last.value > checkTime {
        last := Some(now);
        cache := Window(cache + [Sample(need)], limit);
        status := Count(cache, true) >= limit;
      }
      failedLimit, lastCheckTime, statusCache, stopStatus := limit, last, cache, status;
      stop := status;
    }

    /**
     * check_and_wait(): calls `_need_stop` with the successive `polls`
     * (the sleep between them is the time that passes) and returns after
     * the first call that reports false; `released` is false when the
     * polls ran out first.
     */
    method CheckAndWait(polls: seq<(int, Result<bool>)>) returns (released: bool, used: nat)
      modifies this
      ensures var trace := Trace(old(State()), checkTime, polls);
              var k := FirstRelease(trace[1..]);
              released == (k < |polls|) && used == (if released then k + 1 else |polls|)
              && State() == trace[used]
      ensures checkTime == old(checkTime) && hasStop == old(hasStop)
    {
      ghost var trace := Trace(State(), checkTime, polls);
      used := 0;
      released := false;
      while used < |polls| && !released
        invariant used <= |polls|
        invariant checkTime == old(checkTime) && hasStop == old(hasStop)
        invariant forall i :: 1 <= i < used ==> trace[i].stop
        invariant released ==> 1 <= used && !trace[used].stop
        invariant !released ==> forall i :: 1 <= i <= used ==> trace[i].stop
        invariant State() == trace[used]
      {
        TraceNext(old(State()), checkTime, polls, used);
        var stop := NeedStop(polls[used].0, polls[used].1);
        used := used + 1;
        released := !stop;
      }
      TraceRelease(trace, |polls|, used, released);
    }

    /**
     * check_and_stop(spider): when `_need_stop` reports stop and the
     * checker has not stopped before, marks it stopped and sets `stop` on
     * every spider controller; this happens at most once.
     */
    method CheckAndStop(now: int, need: Result<bool>, spider: Spiders.Spider) returns (stopped: bool)
      modifies this, spider.spiderControllerList
      ensures State() == Step(old(State()), checkTime, now, need) && checkTime == old(checkTime)
      ensures stopped <==> stopStatus && !old(hasStop)
      ensures hasStop == (old(hasStop) || stopStatus)
      ensures stopped ==> forall i :: 0 <= i < |spider.spiderControllerList| ==> spider.spiderControllerList[i].stop
      ensures forall i :: 0 <= i < |spider.spiderControllerList| ==>
                spider.spiderControllerList[i].alive == old(spider.spiderControllerList[i].alive)
                && spider.spiderControllerList[i].waiting == old(spider.spiderControllerList[i].waiting)
                && (!stopped ==> spider.spiderControllerList[i].stop == old(spider.spiderControllerList[i].stop))
    {
      var stop := NeedStop(now, need);
      stopped := false;
      if stop && !hasStop {
        hasStop := true;
        Spiders.SetStop(spider.spiderControllerList);
        stopped := true;
      }
    }
  }
}
