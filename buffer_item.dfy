/**
 * buffer/buffer_item.py: ItemBuffer, the thread that takes items off the
 * item queue, runs every pipeline's pipeline_in on them, buffers them and
 * hands the buffer to every pipeline's pipeline_save once it is full,
 * retrying a failed save a bounded number of times.
 *
 * The pipelines are the class attribute PIPELINE, shared by every instance:
 * here a `PipelineSet` object that logs each call made on a pipeline and
 * answers it from a fixed outcome function (a pipeline returns normally or
 * raises). A pipeline is known by its position in the list.
 */
module ItemBuffers {
  import opened Common
  import Hooks

  /** An item, by its fields. */
  type Fields = map<Key, Val>

  /** What pipeline_save hands to the pipelines: item_buffer[0] alone, or the whole buffer list. */
  datatype Batch = Single(item: Fields) | Many(items: seq<Fields>)

  /**
   * A call on pipeline p. `attempt` numbers the save attempts of one
   * pipeline_save from 0; it is what lets a pipeline fail on one attempt and
   * succeed on the next. `e` is the exception the failed attempt raised.
   */
  datatype PCall =
    | In(p: nat, item: Fields)
    | Save(p: nat, batch: Batch, attempt: nat)
    | Error(p: nat, batch: Batch, attempt: nat, e: Exc)
    | Failed(p: nat, batch: Batch)
    | Close(p: nat)

  /** How each pipeline answers each call: it returns, or it raises. */
  type Outcome = PCall -> Result<()>

  /**
   * The spider-loop tick: `spider_done and queue.empty()`, or what
   * `queue.get(timeout=...)` returned (None when it timed out).
   */
  datatype Tick = Finished | Got(task: Option<Fields>)

  // ---------------------------------------------------------------------
  // A loop over the pipelines

  /** The calls `for c in cs: c()` makes when an exception ends the loop: up to and including the first that raises. */
  function Made(cs: seq<PCall>, out: Outcome): (r: seq<PCall>)
  {
    if cs == [] then []
    else if out(cs[0]).Err? then [cs[0]]
    else [cs[0]] + Made(cs[1..], out)
  }

  /** The calls made are a prefix of the list. */
  lemma {:induction false} MadePrefix(cs: seq<PCall>, out: Outcome)
    ensures Made(cs, out) <= cs
  {
    if cs != [] && out(cs[0]).Ok? {
      MadePrefix(cs[1..], out);
    }
  }

  /** The exception that ends that loop, if any. */
  function FirstError(cs: seq<PCall>, out: Outcome): Option<Exc> {
    if cs == [] then None
    else if out(cs[0]).Err? then Some(out(cs[0]).error)
    else FirstError(cs[1..], out)
  }

  /** What the exception, if any, makes of a call: Err(e) or Ok. */
  function AsResult(e: Option<Exc>): (r: Result<()>)
    ensures r.Ok? <==> e.None?
    ensures e.Some? ==> r.error == e.value
  {
    if e.Some? then Err(e.value) else Ok(())
  }

  /** A loop none of whose first i calls raises makes them; if call i raises it ends there with that exception. */
  lemma {:induction false} MadeUpTo(cs: seq<PCall>, out: Outcome, i: nat)
    requires i <= |cs|
    requires forall j :: 0 <= j < i ==> out(cs[j]).Ok?
    ensures i == |cs| ==> Made(cs, out) == cs && FirstError(cs, out) == None
    ensures i < |cs| && out(cs[i]).Err? ==>
              Made(cs, out) == cs[..i + 1] && FirstError(cs, out) == Some(out(cs[i]).error)
  {
    if cs != [] && i > 0 {
      MadeUpTo(cs[1..], out, i - 1);
      if i < |cs| {
        assert cs[..i + 1] == [cs[0]] + cs[1..][..i];
      }
    } else if cs != [] && i == 0 && out(cs[0]).Err? {
      assert cs[..1] == [cs[0]];
    }
  }

  /** The loop raises nothing exactly when no call raises, and then it makes every call. */
  lemma {:induction false} NoErrorIffAllReturn(cs: seq<PCall>, out: Outcome)
    ensures FirstError(cs, out) == None <==> forall j :: 0 <= j < |cs| ==> out(cs[j]).Ok?
    ensures FirstError(cs, out) == None ==> Made(cs, out) == cs
  {
    if cs != [] {
      NoErrorIffAllReturn(cs[1..], out);
      if FirstError(cs, out) == None {
        assert forall j :: 1 <= j < |cs| ==> cs[j] == cs[1..][j - 1];
      } else if out(cs[0]).Ok? {
        var j :| 0 <= j < |cs[1..]| && out(cs[1..][j]).Err?;
        assert cs[j + 1] == cs[1..][j];
      }
    }
  }

  /** Every call the loop makes but the last returned normally. */
  lemma {:induction false} MadeAfterReturns(cs: seq<PCall>, out: Outcome)
    ensures Made(cs, out) <= cs
    ensures forall j :: 0 <= j < |Made(cs, out)| - 1 ==> out(cs[j]).Ok?
  {
    MadePrefix(cs, out);
    if cs != [] && out(cs[0]).Ok? {
      MadeAfterReturns(cs[1..], out);
      assert forall j :: 1 <= j < |Made(cs, out)| ==> cs[j] == cs[1..][j - 1];
    }
  }

  // ---------------------------------------------------------------------
  // The hook calls on each of n pipelines, in list order

  function Ins(item: Fields, n: nat): (cs: seq<PCall>)
    ensures |cs| == n && forall p :: 0 <= p < n ==> cs[p] == In(p, item)
  {
    seq(n, p requires 0 <= p < n => In(p, item))
  }

  function Saves(batch: Batch, n: nat, attempt: nat): (cs: seq<PCall>)
    ensures |cs| == n && forall p :: 0 <= p < n ==> cs[p] == Save(p, batch, attempt)
  {
    seq(n, p requires 0 <= p < n => Save(p, batch, attempt))
  }

  function Errors(batch: Batch, n: nat, attempt: nat, e: Exc): (cs: seq<PCall>)
    ensures |cs| == n && forall p :: 0 <= p < n ==> cs[p] == Error(p, batch, attempt, e)
  {
    seq(n, p requires 0 <= p < n => Error(p, batch, attempt, e))
  }

  function Faileds(batch: Batch, n: nat): (cs: seq<PCall>)
    ensures |cs| == n && forall p :: 0 <= p < n ==> cs[p] == Failed(p, batch)
  {
    seq(n, p requires 0 <= p < n => Failed(p, batch))
  }

  function Closes(n: nat): (cs: seq<PCall>)
    ensures |cs| == n && forall p :: 0 <= p < n ==> cs[p] == Close(p)
  {
    seq(n, p requires 0 <= p < n => Close(p))
  }

  // ---------------------------------------------------------------------
  // from_settings

  /** ItemBuffer.from_settings: the item filter pipeline(s) first, then the user's pipelines. */
  function FromSettings(filterPipelines: seq<string>, userPipelines: seq<string>): seq<string> {
    filterPipelines + userPipelines
  }

  /**
   * As from_settings orders them, a user pipeline's pipeline_in sees an item
   * only once every filter pipeline has let it through: a filter pipeline
   * that raises (DropItemException for a repeat) keeps it from all of them.
   */
  lemma {:induction false} FiltersRunFirst(filterPipelines: seq<string>, userPipelines: seq<string>, item: Fields,
                                           out: Outcome, p: nat)
    requires In(p, item) in Made(Ins(item, |FromSettings(filterPipelines, userPipelines)|), out)
    requires p >= |filterPipelines|
    ensures p < |FromSettings(filterPipelines, userPipelines)|
    ensures forall q :: 0 <= q < |filterPipelines| ==> out(In(q, item)).Ok?
  {
    var cs := Ins(item, |FromSettings(filterPipelines, userPipelines)|);
    var made := Made(cs, out);
    MadePrefix(cs, out);
    var j :| 0 <= j < |made| && made[j] == In(p, item);
    assert made[j] == cs[j];
    assert j == p;
    MadeAfterReturns(cs, out);
    forall q | 0 <= q < |filterPipelines|
      ensures out(In(q, item)).Ok?
    {
      assert cs[q] == In(q, item);
    }
  }

  // ---------------------------------------------------------------------
  // pipeline_save

  /** pipeline_save's batch: item_buffer[0] alone when buffering is off (max size 0) and the buffer is not empty. */
  function BatchOf(buffer: seq<Fields>, maxSize: int): Batch {
    if maxSize == 0 && |buffer| != 0 then Single(buffer[0]) else Many(buffer)
  }

  /** The items a batch hands to the pipelines. */
  function BatchItems(b: Batch): seq<Fields> {
    match b
    case Single(item) => [item]
    case Many(items) => items
  }

  /**
   * The batch holds the whole buffer unless buffering is off and more than
   * one item is buffered: then all but the first are never saved.
   */
  lemma BatchKeepsAll(buffer: seq<Fields>, maxSize: int)
    ensures BatchItems(BatchOf(buffer, maxSize)) == buffer <==> maxSize != 0 || |buffer| <= 1
    ensures maxSize == 0 && |buffer| > 1 ==> BatchItems(BatchOf(buffer, maxSize)) == buffer[..1]
  {
    if maxSize == 0 && |buffer| > 1 {
      assert |BatchItems(BatchOf(buffer, maxSize))| == 1;
    }
  }

  /** Attempt a fails: a save raises an exception other than DropItemException, and no pipeline_error raises. */
  predicate AttemptFails(batch: Batch, n: nat, a: nat, out: Outcome) {
    var e := FirstError(Saves(batch, n, a), out);
    e.Some? && e.value != DropItem && FirstError(Errors(batch, n, a, e.value), out) == None
  }

  /**
   * One attempt, number a, of pipeline_save's retry loop: its calls, its
   * outcome and whether the loop goes on. The attempt calls pipeline_save on
   * every pipeline until one raises; DropItemException goes straight up;
   * any other exception is a failure.
   */
  function Attempt(batch: Batch, n: nat, retries: int, out: Outcome, a: nat): (seq<PCall>, Result<()>, bool) {
    var saves := Saves(batch, n, a);
    var e := FirstError(saves, out);
    if e.None? || e.value == DropItem then (Made(saves, out), AsResult(e), false)
    else
      var f := Failure(batch, n, retries, out, a, e.value);
      (Made(saves, out) + f.0, f.1, f.2)
  }

  /**
   * A failed attempt, number a, with exception e: every pipeline's
   * pipeline_error and, after the last allowed failure, every pipeline's
   * pipeline_failed, after which the loop returns. A hook that raises ends
   * the loop with its exception.
   */
  function Failure(batch: Batch, n: nat, retries: int, out: Outcome, a: nat, e: Exc): (seq<PCall>, Result<()>, bool) {
    var errors := Errors(batch, n, a, e);
    if FirstError(errors, out).Some? then (Made(errors, out), AsResult(FirstError(errors, out)), false)
    else if a + 1 >= retries then
      (Made(errors, out) + Made(Faileds(batch, n), out), AsResult(FirstError(Faileds(batch, n), out)), false)
    else (Made(errors, out), Ok(()), true)
  }

  /** The calls and the outcome of pipeline_save's retry loop once `failed` attempts have failed. */
  function SaveRounds(batch: Batch, n: nat, retries: int, out: Outcome, failed: nat): (seq<PCall>, Result<()>)
    decreases retries - failed
  {
    if failed >= retries then ([], Ok(()))
    else
      var (calls, r, again) := Attempt(batch, n, retries, out, failed);
      if again then
        var rest := SaveRounds(batch, n, retries, out, failed + 1);
        (calls + rest.0, rest.1)
      else (calls, r)
  }

  /** SaveRounds from attempt a is that attempt, then, when it goes on, the rounds from a + 1. */
  lemma SaveRoundsStep(batch: Batch, n: nat, retries: int, out: Outcome, a: nat)
    requires a < retries
    ensures var att := Attempt(batch, n, retries, out, a);
            (att.2 ==> SaveRounds(batch, n, retries, out, a).0 == att.0 + SaveRounds(batch, n, retries, out, a + 1).0
                       && SaveRounds(batch, n, retries, out, a).1 == SaveRounds(batch, n, retries, out, a + 1).1)
            && (!att.2 ==> SaveRounds(batch, n, retries, out, a) == (att.0, att.1))
  {
  }

  /** A call of attempts failed .. retries - 1 of this batch. */
  predicate OfRounds(c: PCall, batch: Batch, n: nat, failed: nat, retries: int) {
    match c
    case Save(p, b, a) => p < n && b == batch && failed <= a < retries
    case Error(p, b, a, _) => p < n && b == batch && failed <= a < retries
    case Failed(p, b) => p < n && b == batch
    case _ => false
  }

  /** Every call made is one of the list. */
  lemma MadeFrom(cs: seq<PCall>, out: Outcome)
    ensures forall c :: c in Made(cs, out) ==> c in cs
  {
    MadePrefix(cs, out);
  }

  /**
   * What one attempt does: only calls of attempt a on this batch; a
   * pipeline_failed call exactly when the attempt failed, it was the last
   * allowed one and there is a pipeline; the loop goes on exactly when it
   * failed and was not the last.
   */
  lemma AttemptShape(batch: Batch, n: nat, retries: int, out: Outcome, a: nat)
    requires a < retries
    ensures forall c :: c in Attempt(batch, n, retries, out, a).0 ==> OfRounds(c, batch, n, a, a + 1)
    ensures HasFailed(Attempt(batch, n, retries, out, a).0)
            <==> AttemptFails(batch, n, a, out) && a + 1 >= retries && n > 0
    ensures Attempt(batch, n, retries, out, a).2 <==> AttemptFails(batch, n, a, out) && a + 1 < retries
  {
    var saves := Saves(batch, n, a);
    var e := FirstError(saves, out);
    MadeFrom(saves, out);
    if e.Some? && e.value != DropItem {
      var errors := Errors(batch, n, a, e.value);
      MadeFrom(errors, out);
      MadeFrom(Faileds(batch, n), out);
      if AttemptFails(batch, n, a, out) && a + 1 >= retries && n > 0 {
        assert Made(Faileds(batch, n), out)[0] == Failed(0, batch);
        assert Failed(0, batch) in Attempt(batch, n, retries, out, a).0;
      }
    }
  }

  /**
   * The retry bound: pipeline_save makes no call but save, error and failed
   * calls on this batch, and none for an attempt past PIPELINE_RETRY_TIMES.
   */
  lemma {:induction false} SaveRoundsBounded(batch: Batch, n: nat, retries: int, out: Outcome, failed: nat)
    ensures forall c :: c in SaveRounds(batch, n, retries, out, failed).0 ==> OfRounds(c, batch, n, failed, retries)
    decreases retries - failed
  {
    if failed < retries {
      AttemptShape(batch, n, retries, out, failed);
      if Attempt(batch, n, retries, out, failed).2 {
        SaveRoundsBounded(batch, n, retries, out, failed + 1);
      }
    }
  }

  /**
   * pipeline_failed runs exactly when there is a pipeline and every allowed
   * attempt failed, each with an exception other than DropItemException and
   * none of them making a pipeline_error raise.
   */
  lemma {:induction false} FailedIffExhausted(batch: Batch, n: nat, retries: int, out: Outcome, failed: nat)
    ensures HasFailed(SaveRounds(batch, n, retries, out, failed).0)
            <==> failed < retries && n > 0 && FailsFrom(batch, n, out, failed, retries)
    decreases retries - failed
  {
    if failed < retries {
      AttemptShape(batch, n, retries, out, failed);
      FailsFromStep(batch, n, out, failed, retries);
      var att := Attempt(batch, n, retries, out, failed);
      if att.2 {
        FailedIffExhausted(batch, n, retries, out, failed + 1);
        var rest := SaveRounds(batch, n, retries, out, failed + 1);
        assert SaveRounds(batch, n, retries, out, failed).0 == att.0 + rest.0;
        HasFailedAppend(att.0, rest.0);
      } else if AttemptFails(batch, n, failed, out) {
        assert FailsFrom(batch, n, out, failed + 1, retries);
      }
    } else {
      assert SaveRounds(batch, n, retries, out, failed).0 == [];
    }
  }

  /** Some call of the trace is a pipeline_failed call. */
  ghost predicate HasFailed(t: seq<PCall>) {
    exists c :: c in t && c.Failed?
  }

  /** Every attempt from `from` to retries - 1 fails. */
  ghost predicate FailsFrom(batch: Batch, n: nat, out: Outcome, from: nat, retries: int) {
    forall a :: from <= a < retries ==> AttemptFails(batch, n, a, out)
  }

  lemma HasFailedAppend(t: seq<PCall>, u: seq<PCall>)
    ensures HasFailed(t + u) <==> HasFailed(t) || HasFailed(u)
  {
    if HasFailed(t + u) {
      var c :| c in t + u && c.Failed?;
      assert c in t || c in u;
    }
    if HasFailed(t) {
      var c :| c in t && c.Failed?;
      assert c in t + u;
    }
    if HasFailed(u) {
      var c :| c in u && c.Failed?;
      assert c in t + u;
    }
  }

  lemma FailsFromStep(batch: Batch, n: nat, out: Outcome, from: nat, retries: int)
    requires from < retries
    ensures FailsFrom(batch, n, out, from, retries)
            <==> AttemptFails(batch, n, from, out) && FailsFrom(batch, n, out, from + 1, retries)
  {
  }

  /**
   * An attempt whose saves all return, or one of which raises
   * DropItemException, ends pipeline_save after the earlier attempts
   * failed: its calls close the trace, no pipeline_failed runs, and the
   * outcome is Ok or DropItemException.
   */
  lemma {:induction false} EndsAt(batch: Batch, n: nat, retries: int, out: Outcome, failed: nat, a: nat)
    requires failed <= a < retries
    requires forall b :: failed <= b < a ==> AttemptFails(batch, n, b, out)
    requires FirstError(Saves(batch, n, a), out) in {None, Some(DropItem)}
    ensures SaveRounds(batch, n, retries, out, failed).1 == AsResult(FirstError(Saves(batch, n, a), out))
    ensures |Made(Saves(batch, n, a), out)| <= |SaveRounds(batch, n, retries, out, failed).0|
    ensures SaveRounds(batch, n, retries, out, failed).0[|SaveRounds(batch, n, retries, out, failed).0| - |Made(Saves(batch, n, a), out)|..]
            == Made(Saves(batch, n, a), out)
    ensures forall c :: c in SaveRounds(batch, n, retries, out, failed).0 ==> !c.Failed?
    decreases a - failed
  {
    AttemptShape(batch, n, retries, out, failed);
    if a > failed {
      assert AttemptFails(batch, n, failed, out);
      EndsAt(batch, n, retries, out, failed + 1, a);
      var rest := SaveRounds(batch, n, retries, out, failed + 1);
      var t := SaveRounds(batch, n, retries, out, failed).0;
      assert t == Attempt(batch, n, retries, out, failed).0 + rest.0;
      assert t[|t| - |rest.0|..] == rest.0;
    }
  }

  // ---------------------------------------------------------------------
  // The run loop's bookkeeping

  /** What reaches pipeline_in from one tick: a task that passes `if not task: continue` (None and empty items do not). */
  function Processed(t: Tick, skipEmpty: bool): (r: Option<Fields>)
    ensures r.Some? <==> t.Got? && t.task.Some? && !(skipEmpty && t.task.value == map[])
    ensures r.Some? ==> r == t.task
  {
    if t.Got? && t.task.Some? && !(skipEmpty && t.task.value == map[]) then t.task else None
  }

  /** The item one tick adds to the buffer: a processed task every pipeline's pipeline_in lets through. */
  function AdmittedBy(t: Tick, n: nat, out: Outcome, skipEmpty: bool): (r: seq<Fields>)
    ensures |r| <= 1
    ensures |r| == 1 <==> Processed(t, skipEmpty).Some? && forall p :: 0 <= p < n ==> out(In(p, t.task.value)).Ok?
    ensures |r| == 1 ==> r[0] == t.task.value
  {
    match Processed(t, skipEmpty)
    case Some(item) =>
      NoErrorIffAllReturn(Ins(item, n), out);
      if FirstError(Ins(item, n), out) == None then [item] else []
    case None => []
  }

  /** The items of the first k ticks that every pipeline's pipeline_in lets through, in order. */
  function Admitted(ticks: seq<Tick>, k: nat, n: nat, out: Outcome, skipEmpty: bool): seq<Fields>
    requires k <= |ticks|
  {
    if k == 0 then [] else Admitted(ticks, k - 1, n, out, skipEmpty) + AdmittedBy(ticks[k - 1], n, out, skipEmpty)
  }

  /** The buffer after run's every step: under the max size, and empty when buffering is off. */
  predicate Bounded(buffer: seq<Fields>, maxSize: int) {
    |buffer| < maxSize || buffer == []
  }

  /** The class attribute PIPELINE: the pipelines, how they answer, and the calls made on them so far. */
  class PipelineSet {
    const names: seq<string>
    const out: Outcome
    var calls: seq<PCall>

    constructor (names: seq<string>, out: Outcome)
      ensures this.names == names && this.out == out && calls == []
    {
      this.names := names;
      this.out := out;
      calls := [];
    }

    function Count(): nat {
      |names|
    }

    /** `for c in cs: c()`, an exception ending the loop and escaping. */
    method CallUntilRaise(cs: seq<PCall>) returns (e: Option<Exc>)
      modifies this
      ensures calls == old(calls) + Made(cs, out)
      ensures e == FirstError(cs, out)
    {
      var i := 0;
      while i < |cs|
        invariant i <= |cs| && calls == old(calls) + cs[..i]
        invariant forall j :: 0 <= j < i ==> out(cs[j]).Ok?
      {
        calls := calls + [cs[i]];
        if out(cs[i]).Err? {
          MadeUpTo(cs, out, i);
          assert cs[..i + 1] == cs[..i] + [cs[i]];
          return Some(out(cs[i]).error);
        }
        i := i + 1;
      }
      MadeUpTo(cs, out, |cs|);
      assert cs[..i] == cs;
      return None;
    }

    /** `for c in cs: try: c() except Exception: log`: every call is made and nothing escapes. */
    method CallAll(cs: seq<PCall>)
      modifies this
      ensures calls == old(calls) + cs
    {
      var i := 0;
      while i < |cs|
        invariant i <= |cs| && calls == old(calls) + cs[..i]
      {
        calls := calls + [cs[i]];
        assert cs[..i + 1] == cs[..i] + [cs[i]];
        i := i + 1;
      }
      assert cs[..i] == cs;
    }
  }

  /** One ItemBuffer thread. */
  class ItemBuffer {
    const pipes: PipelineSet
    const maxSize: int          // PIPELINE_ITEM_BUFFER
    const retryTimes: int       // PIPELINE_RETRY_TIMES
    var buffer: seq<Fields>     // item_buffer
    var reported: seq<Exc>      // the exceptions handed to every spider middleware's spider_error
    ghost var accepted: seq<Fields>   // every item pipeline_in appended, in order
    ghost var flushed: seq<Fields>    // every item a pipeline_save handed over, in order

    /** No item is lost: what was handed over, followed by the buffer, is everything accepted. */
    ghost predicate Valid()
      reads this
    {
      Bounded(buffer, maxSize) && flushed + buffer == accepted
    }

    constructor (pipes: PipelineSet, maxSize: int, retryTimes: int)
      ensures this.pipes == pipes && this.maxSize == maxSize && this.retryTimes == retryTimes
      ensures buffer == [] && reported == [] && accepted == [] && flushed == []
      ensures Valid()
    {
      this.pipes := pipes;
      this.maxSize := maxSize;
      this.retryTimes := retryTimes;
      buffer := [];
      reported := [];
      accepted := [];
      flushed := [];
    }

    /** buffer_size */
    function BufferSize(): (r: nat)
      reads this
      ensures r == |buffer|
    {
      |buffer|
    }

    /** pipeline_in: every pipeline's pipeline_in, then the append; an exception leaves the item out of the buffer. */
    method PipelineIn(item: Fields) returns (res: Result<()>)
      modifies this, pipes
      ensures pipes.calls == old(pipes.calls) + Made(Ins(item, pipes.Count()), pipes.out)
      ensures res == AsResult(FirstError(Ins(item, pipes.Count()), pipes.out))
      ensures buffer == old(buffer) + (if res.Ok? then [item] else [])
      ensures accepted == old(accepted) + (if res.Ok? then [item] else [])
      ensures flushed == old(flushed) && reported == old(reported)
    {
      var e := pipes.CallUntilRaise(Ins(item, pipes.Count()));
      if e.Some? {
        return Err(e.value);
      }
      buffer := buffer + [item];
      accepted := accepted + [item];
      return Ok(());
    }

    /** pipeline_save: the retry loop over the batch; the buffer is cleared whatever happens. */
    method PipelineSave() returns (res: Result<()>)
      modifies this, pipes
      ensures pipes.calls == old(pipes.calls)
                             + SaveRounds(BatchOf(old(buffer), maxSize), pipes.Count(), retryTimes, pipes.out, 0).0
      ensures res == SaveRounds(BatchOf(old(buffer), maxSize), pipes.Count(), retryTimes, pipes.out, 0).1
      ensures buffer == []
      ensures flushed == old(flushed) + BatchItems(BatchOf(old(buffer), maxSize))
      ensures accepted == old(accepted) && reported == old(reported)
    {
      var batch := if maxSize == 0 && |buffer| != 0 then Single(buffer[0]) else Many(buffer);
      ghost var all := SaveRounds(batch, pipes.Count(), retryTimes, pipes.out, 0);
      var failedTimes: nat := 0;
      var again := true;
      res := Ok(());
      while failedTimes < retryTimes && again
        invariant again ==> pipes.calls + SaveRounds(batch, pipes.Count(), retryTimes, pipes.out, failedTimes).0
                            == old(pipes.calls) + all.0
        invariant again ==> SaveRounds(batch, pipes.Count(), retryTimes, pipes.out, failedTimes).1 == all.1 && res == Ok(())
        invariant !again ==> pipes.calls == old(pipes.calls) + all.0 && res == all.1
        invariant unchanged(this)
        decreases retryTimes - failedTimes + (if again then 1 else 0)
      {
        ghost var before := pipes.calls;
        SaveRoundsStep(batch, pipes.Count(), retryTimes, pipes.out, failedTimes);
        res, again := SaveAttempt(batch, failedTimes);
        if again {
          ConcatAssoc(before, Attempt(batch, pipes.Count(), retryTimes, pipes.out, failedTimes).0,
                      SaveRounds(batch, pipes.Count(), retryTimes, pipes.out, failedTimes + 1).0);
          failedTimes := failedTimes + 1;
        }
      }
      buffer := [];   // finally: self.item_buffer.clear()
      flushed := flushed + BatchItems(batch);
    }

    /** One pass of pipeline_save's retry loop, attempt a; `again` says whether the loop goes on. */
    method SaveAttempt(batch: Batch, a: nat) returns (res: Result<()>, again: bool)
      modifies pipes
      ensures pipes.calls == old(pipes.calls) + Attempt(batch, pipes.Count(), retryTimes, pipes.out, a).0
      ensures res == Attempt(batch, pipes.Count(), retryTimes, pipes.out, a).1
      ensures again == Attempt(batch, pipes.Count(), retryTimes, pipes.out, a).2
    {
      var e := pipes.CallUntilRaise(Saves(batch, pipes.Count(), a));
      if e.None? || e.value == DropItem {
        return AsResult(e), false;
      }
      res, again := OnFailure(batch, a, e.value);
    }

    /** The `except Exception` branch of attempt a. */
    method OnFailure(batch: Batch, a: nat, e: Exc) returns (res: Result<()>, again: bool)
      modifies pipes
      ensures pipes.calls == old(pipes.calls) + Failure(batch, pipes.Count(), retryTimes, pipes.out, a, e).0
      ensures res == Failure(batch, pipes.Count(), retryTimes, pipes.out, a, e).1
      ensures again == Failure(batch, pipes.Count(), retryTimes, pipes.out, a, e).2
    {
      var e2 := pipes.CallUntilRaise(Errors(batch, pipes.Count(), a, e));
      if e2.Some? {
        return Err(e2.value), false;
      }
      if a + 1 >= retryTimes {
        var e3 := pipes.CallUntilRaise(Faileds(batch, pipes.Count()));
        return AsResult(e3), false;
      }
      return Ok(()), true;
    }

    /**
     * One pass of run's loop: on `spider_done and queue.empty()` a flush of
     * a non-empty buffer; on a task, pipeline_in and then a save once the
     * buffer is full. A timed-out get is a `Got(None)` tick: every palp
     * sequence's get returns None when it times out.
     */
    method Step(tick: Tick) returns (r: Result<()>)
      requires Valid()
      modifies this, pipes
      ensures Valid()
      ensures accepted == old(accepted) + AdmittedBy(tick, pipes.Count(), pipes.out, true)
      ensures tick.Finished? ==> buffer == [] && flushed == accepted
      ensures reported == old(reported)
      ensures tick.Got? && tick.task.None? ==> r == Ok(()) && buffer == old(buffer) && pipes.calls == old(pipes.calls)
      ensures old(pipes.calls) <= pipes.calls
    {
      match tick {
        case Finished =>
          r := Ok(());
          if buffer != [] {
            r := PipelineSave();
          }
        case Got(task) =>
          r := Ok(());
          if task.Some? && task.value != map[] {
            r := PipelineIn(task.value);
            if r.Ok? && (maxSize == 0 || BufferSize() >= maxSize) {
              r := PipelineSave();
            }
          }
      }
    }

    /** `except Exception as e`: every spider middleware's spider_error; DropItemException is only logged. */
    method Report(r: Result<()>, nSpiderMiddleware: nat, spiderRaises: Hooks.Raises) returns (raised: bool)
      modifies this
      ensures r.Err? && r.error != DropItem ==>
                reported == old(reported) + [r.error]
                && raised == Hooks.AnyRaises(Hooks.Calls(Hooks.SpiderError, nSpiderMiddleware), spiderRaises)
      ensures !(r.Err? && r.error != DropItem) ==> reported == old(reported) && !raised
      ensures buffer == old(buffer) && accepted == old(accepted) && flushed == old(flushed)
    {
      raised := false;
      if r.Err? && r.error != DropItem {
        reported := reported + [r.error];
        var _, spiderErrorRaised := Hooks.CallUntilRaise(Hooks.SpiderError, nSpiderMiddleware, spiderRaises);
        raised := spiderErrorRaised;
      }
    }

    /** pipeline_close: every pipeline's pipeline_close; the first exception ends the loop and escapes. */
    method PipelineClose() returns (e: Option<Exc>)
      modifies pipes
      ensures pipes.calls == old(pipes.calls) + Made(Closes(pipes.Count()), pipes.out)
      ensures e == FirstError(Closes(pipes.Count()), pipes.out)
    {
      e := pipes.CallUntilRaise(Closes(pipes.Count()));
    }

    /** One pass of run's loop and its exception handling; `finished` is the break, `escaped` a spider_error that raised. */
    method Iterate(tick: Tick, nSpiderMiddleware: nat, spiderRaises: Hooks.Raises) returns (finished: bool, escaped: bool)
      requires Valid()
      modifies this, pipes
      ensures Valid()
      ensures accepted == old(accepted) + AdmittedBy(tick, pipes.Count(), pipes.out, true)
      ensures finished ==> tick.Finished? && buffer == [] && flushed == accepted
      ensures escaped ==> Hooks.AnyRaises(Hooks.Calls(Hooks.SpiderError, nSpiderMiddleware), spiderRaises)
      ensures !(finished && escaped)
      ensures old(reported) <= reported && DropItem !in reported[|old(reported)|..]
    {
      var r := Step(tick);
      if r.Ok? && tick.Finished? {
        return true, false;
      }
      escaped := Report(r, nSpiderMiddleware, spiderRaises);
      finished := false;
    }

    /** run's `while True` loop, up to its break, a spider_error that raised, or the last tick. */
    method Loop(ticks: seq<Tick>, nSpiderMiddleware: nat, spiderRaises: Hooks.Raises)
      returns (finished: bool, escaped: bool, consumed: nat)
      requires Valid()
      modifies this, pipes
      ensures Valid()
      ensures consumed <= |ticks|
      ensures accepted == old(accepted) + Admitted(ticks, consumed, pipes.Count(), pipes.out, true)
      ensures !finished && !escaped ==> consumed == |ticks|
      ensures finished ==> consumed > 0 && ticks[consumed - 1].Finished? && buffer == [] && flushed == accepted
      ensures escaped ==> Hooks.AnyRaises(Hooks.Calls(Hooks.SpiderError, nSpiderMiddleware), spiderRaises)
      ensures !(finished && escaped)
      ensures old(reported) <= reported && DropItem !in reported[|old(reported)|..]
    {
      finished, escaped, consumed := false, false, 0;
      while consumed < |ticks| && !finished && !escaped
        invariant consumed <= |ticks|
        invariant Valid()
        invariant accepted == old(accepted) + Admitted(ticks, consumed, pipes.Count(), pipes.out, true)
        invariant old(reported) <= reported && DropItem !in reported[|old(reported)|..]
        invariant finished ==> consumed > 0 && ticks[consumed - 1].Finished? && buffer == [] && flushed == accepted
        invariant escaped ==> Hooks.AnyRaises(Hooks.Calls(Hooks.SpiderError, nSpiderMiddleware), spiderRaises)
        invariant !(finished && escaped)
      {
        finished, escaped := Iterate(ticks[consumed], nSpiderMiddleware, spiderRaises);
        consumed := consumed + 1;
      }
    }

    /**
     * run, over the ticks the loop sees (the loop itself never ends on its
     * own: running out of ticks means it is still going). An exception of an
     * iteration other than DropItemException goes to every spider
     * middleware's spider_error; one of those raising ends the loop. When
     * the loop ends, pipeline_close runs on every pipeline and its first
     * exception escapes, replacing any other.
     */
    method Run(ticks: seq<Tick>, nSpiderMiddleware: nat, spiderRaises: Hooks.Raises)
      returns (stopped: bool, finished: bool, res: Result<()>, consumed: nat)
      requires Valid()
      modifies this, pipes
      ensures Valid()
      ensures consumed <= |ticks|
      ensures accepted == old(accepted) + Admitted(ticks, consumed, pipes.Count(), pipes.out, true)
      ensures !stopped ==> consumed == |ticks| && res == Ok(())
      ensures finished ==> stopped && consumed > 0 && ticks[consumed - 1].Finished?
      ensures finished ==> buffer == [] && flushed == accepted
      ensures stopped && !finished ==> Hooks.AnyRaises(Hooks.Calls(Hooks.SpiderError, nSpiderMiddleware), spiderRaises)
      ensures stopped ==> |Made(Closes(pipes.Count()), pipes.out)| <= |pipes.calls|
      ensures stopped ==> pipes.calls[|pipes.calls| - |Made(Closes(pipes.Count()), pipes.out)|..]
                          == Made(Closes(pipes.Count()), pipes.out)
      ensures stopped ==> res == (if FirstError(Closes(pipes.Count()), pipes.out).Some?
                                  then AsResult(FirstError(Closes(pipes.Count()), pipes.out))
                                  else if finished then Ok(()) else Err(Raised("spider_error")))
      ensures old(reported) <= reported && DropItem !in reported[|old(reported)|..]
    {
      stopped, res := false, Ok(());
      var escaped;
      finished, escaped, consumed := Loop(ticks, nSpiderMiddleware, spiderRaises);
      if finished || escaped {
        // finally: self.pipeline_close()
        stopped := true;
        var e := PipelineClose();
        res := if e.Some? then Err(e.value) else if escaped then Err(Raised("spider_error")) else Ok(());
      }
    }
  }
}
