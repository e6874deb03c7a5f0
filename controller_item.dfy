/**
 * controller/controller_item.py: ItemController, the item thread of a
 * local spider. It buffers and saves items exactly as the ItemBuffer of
 * buffer/buffer_item.py does (pipeline_in, then a save once the buffer is
 * full, retried a bounded number of times, the buffer cleared whatever
 * happens), with three differences: only a None task is skipped (an empty
 * item is processed), pipeline_close swallows each pipeline's exception,
 * and pipeline_close runs only if the class flag PIPELINE_CLOSED is still
 * down, so once for all the instances of the class.
 */
module ItemControllers {
  import opened Common
  import Hooks
  import opened ItemBuffers

  /** ItemController.PIPELINE_CLOSED, the class attribute every instance shares. */
  class ControllerClass {
    var pipelineClosed: bool

    constructor ()
      ensures !pipelineClosed
    {
      pipelineClosed := false;
    }
  }

  /**
   * `__new__`: the class's pipeline list is loaded from the settings only
   * while it is still empty, so the first instance fixes it for all.
   */
  function PipelineOnNew(current: seq<string>, fromSettings: seq<string>): seq<string> {
    if current == [] then fromSettings else current
  }

  /** Once loaded, later instances keep the list: loading twice is loading once. */
  lemma LoadedOnce(current: seq<string>, first: seq<string>, second: seq<string>)
    requires PipelineOnNew(current, first) != []
    ensures PipelineOnNew(PipelineOnNew(current, first), second) == PipelineOnNew(current, first)
  {
  }

  /** No call of cs is a pipeline_close call. */
  predicate NoClose(cs: seq<PCall>) {
    forall c :: c in cs ==> !c.Close?
  }

  /** Two stretches of a trace without pipeline_close make one. */
  lemma NoCloseJoin(c0: seq<PCall>, c1: seq<PCall>, c2: seq<PCall>)
    requires c0 <= c1 <= c2 && NoClose(c1[|c0|..]) && NoClose(c2[|c1|..])
    ensures c0 <= c2 && NoClose(c2[|c0|..])
  {
    assert c2[|c0|..] == c1[|c0|..] + c2[|c1|..];
  }

  /** The pipeline_close calls of a trace, in order. */
  function CloseCalls(cs: seq<PCall>): (r: seq<PCall>)
    ensures NoClose(cs) ==> r == []
  {
    if cs == [] then []
    else CloseCalls(cs[..|cs| - 1]) + (if cs[|cs| - 1].Close? then [cs[|cs| - 1]] else [])
  }

  lemma {:induction false} CloseCallsAppend(a: seq<PCall>, b: seq<PCall>)
    ensures CloseCalls(a + b) == CloseCalls(a) + CloseCalls(b)
    decreases |b|
  {
    if b != [] {
      CloseCallsAppend(a, b[..|b| - 1]);
      assert (a + b)[..|a + b| - 1] == a + b[..|b| - 1];
    } else {
      assert a + b == a;
    }
  }

  lemma {:induction false} CloseCallsOfCloses(n: nat)
    ensures CloseCalls(Closes(n)) == Closes(n)
  {
    if n > 0 {
      CloseCallsOfCloses(n - 1);
      assert Closes(n)[..n - 1] == Closes(n - 1);
    }
  }

  /**
   * The class-wide promise of PIPELINE_CLOSED: the pipelines have been
   * closed, each once and in order, exactly when the flag is up.
   */
  predicate ClosedOnce(cls: ControllerClass, pipes: PipelineSet)
    reads cls, pipes
  {
    CloseCalls(pipes.calls) == if cls.pipelineClosed then Closes(pipes.Count()) else []
  }

  /** One ItemController thread. */
  class ItemController {
    const pipes: PipelineSet
    const cls: ControllerClass
    const maxSize: int          // PIPELINE_ITEM_BUFFER
    const retryTimes: int       // PIPELINE_RETRY_TIMES
    var buffer: seq<Fields>     // item_buffer
    var reported: seq<Exc>      // the exceptions handed to every spider middleware's spider_error
    ghost var accepted: seq<Fields>   // every item pipeline_in appended, in order
    ghost var flushed: seq<Fields>    // every item a pipeline_save handed over, in order

    /** No item is lost: what was handed over, followed by the buffer, is everything accepted. */
    ghost predicate Valid()
      reads this
    {
      Bounded(buffer, maxSize) && flushed + buffer == accepted
    }

    constructor (pipes: PipelineSet, cls: ControllerClass, maxSize: int, retryTimes: int)
      ensures this.pipes == pipes && this.cls == cls && this.maxSize == maxSize && this.retryTimes == retryTimes
      ensures buffer == [] && reported == [] && accepted == [] && flushed == []
      ensures Valid()
    {
      this.pipes := pipes;
      this.cls := cls;
      this.maxSize := maxSize;
      this.retryTimes := retryTimes;
      buffer := [];
      reported := [];
      accepted := [];
      flushed := [];
    }

    /** buffer_size */
    function BufferSize(): (r: nat)
      reads this
      ensures r == |buffer|
    {
      |buffer|
    }

    /** pipeline_in: every pipeline's pipeline_in, then the append; an exception leaves the item out of the buffer. */
    method PipelineIn(item: Fields) returns (res: Result<()>)
      modifies this, pipes
      ensures pipes.calls == old(pipes.calls) + Made(Ins(item, pipes.Count()), pipes.out)
      ensures res == AsResult(FirstError(Ins(item, pipes.Count()), pipes.out))
      ensures buffer == old(buffer) + (if res.Ok? then [item] else [])
      ensures accepted == old(accepted) + (if res.Ok? then [item] else [])
      ensures flushed == old(flushed) && reported == old(reported)
    {
      var e := pipes.CallUntilRaise(Ins(item, pipes.Count()));
      if e.Some? {
        return Err(e.value);
      }
      buffer := buffer + [item];
      accepted := accepted + [item];
      return Ok(());
    }

    /** pipeline_save: the retry loop over the batch; the buffer is cleared whatever happens. */
    method PipelineSave() returns (res: Result<()>)
      modifies this, pipes
      ensures pipes.calls == old(pipes.calls)
                             + SaveRounds(BatchOf(old(buffer), maxSize), pipes.Count(), retryTimes, pipes.out, 0).0
      ensures res == SaveRounds(BatchOf(old(buffer), maxSize), pipes.Count(), retryTimes, pipes.out, 0).1
      ensures buffer == []
      ensures flushed == old(flushed) + BatchItems(BatchOf(old(buffer), maxSize))
      ensures accepted == old(accepted) && reported == old(reported)
    {
      var batch := if maxSize == 0 && |buffer| != 0 then Single(buffer[0]) else Many(buffer);
      ghost var all := SaveRounds(batch, pipes.Count(), retryTimes, pipes.out, 0);
      var failedTimes: nat := 0;
      var again := true;
      res := Ok(());
      while failedTimes < retryTimes && again
        invariant again ==> pipes.calls + SaveRounds(batch, pipes.Count(), retryTimes, pipes.out, failedTimes).0
                            == old(pipes.calls) + all.0
        invariant again ==> SaveRounds(batch, pipes.Count(), retryTimes, pipes.out, failedTimes).1 == all.1 && res == Ok(())
        invariant !again ==> pipes.calls == old(pipes.calls) + all.0 && res == all.1
        invariant unchanged(this)
        decreases retryTimes - failedTimes + (if again then 1 else 0)
      {
        res, again := SaveAttempt(batch, failedTimes);
        if again {
          failedTimes := failedTimes + 1;
        }
      }
      buffer := [];   // finally: self.item_buffer.clear()
      flushed := flushed + BatchItems(batch);
    }

    /** One pass of pipeline_save's retry loop, attempt a; `again` says whether the loop goes on. */
    method SaveAttempt(batch: Batch, a: nat) returns (res: Result<()>, again: bool)
      modifies pipes
      ensures pipes.calls == old(pipes.calls) + Attempt(batch, pipes.Count(), retryTimes, pipes.out, a).0
      ensures res == Attempt(batch, pipes.Count(), retryTimes, pipes.out, a).1
      ensures again == Attempt(batch, pipes.Count(), retryTimes, pipes.out, a).2
    {
      var e := pipes.CallUntilRaise(Saves(batch, pipes.Count(), a));
      if e.None? || e.value == DropItem {
        return AsResult(e), false;
      }
      res, again := OnFailure(batch, a, e.value);
    }

    /** The `except Exception` branch of attempt a. */
    method OnFailure(batch: Batch, a: nat, e: Exc) returns (res: Result<()>, again: bool)
      modifies pipes
      ensures pipes.calls == old(pipes.calls) + Failure(batch, pipes.Count(), retryTimes, pipes.out, a, e).0
      ensures res == Failure(batch, pipes.Count(), retryTimes, pipes.out, a, e).1
      ensures again == Failure(batch, pipes.Count(), retryTimes, pipes.out, a, e).2
    {
      var e2 := pipes.CallUntilRaise(Errors(batch, pipes.Count(), a, e));
      if e2.Some? {
        return Err(e2.value), false;
      }
      if a + 1 >= retryTimes {
        var e3 := pipes.CallUntilRaise(Faileds(batch, pipes.Count()));
        return AsResult(e3), false;
      }
      return Ok(()), true;
    }

    /**
     * One pass of run's loop: on `spider_done and queue.empty()` a flush of
     * a non-empty buffer; on a task, pipeline_in and then a save once the
     * buffer is full. A timed-out get is a `Got(None)` tick: every palp
     * sequence's get returns None when it times out.
     */
    method Step(tick: Tick) returns (r: Result<()>)
      requires Valid()
      modifies this, pipes
      ensures Valid()
      ensures accepted == old(accepted) + AdmittedBy(tick, pipes.Count(), pipes.out, false)
      ensures tick.Finished? ==> buffer == [] && flushed == accepted
      ensures reported == old(reported)
      ensures tick.Got? && tick.task.None? ==> r == Ok(()) && buffer == old(buffer) && pipes.calls == old(pipes.calls)
      ensures old(pipes.calls) <= pipes.calls && NoClose(pipes.calls[|old(pipes.calls)|..])
    {
      match tick {
        case Finished =>
          r := Ok(());
          if buffer != [] {
            r := Save();
          }
        case Got(task) =>
          r := Ok(());
          if task.Some? {   // `if task is None: continue`
            ghost var before := pipes.calls;
            r := PipelineIn(task.value);
            MadeFrom(Ins(task.value, pipes.Count()), pipes.out);
            assert NoClose(pipes.calls[|before|..]);
            if r.Ok? && (maxSize == 0 || BufferSize() >= maxSize) {
              ghost var mid := pipes.calls;
              r := Save();
              NoCloseJoin(before, mid, pipes.calls);
            }
          }
      }
    }

    /** pipeline_save, with the fact that it closes no pipeline. */
    method Save() returns (r: Result<()>)
      modifies this, pipes
      ensures buffer == [] && accepted == old(accepted) && reported == old(reported)
      ensures flushed == old(flushed) + BatchItems(BatchOf(old(buffer), maxSize))
      ensures old(pipes.calls) <= pipes.calls && NoClose(pipes.calls[|old(pipes.calls)|..])
    {
      ghost var batch := BatchOf(buffer, maxSize);
      r := PipelineSave();
      SaveRoundsBounded(batch, pipes.Count(), retryTimes, pipes.out, 0);
      assert pipes.calls[|old(pipes.calls)|..] == SaveRounds(batch, pipes.Count(), retryTimes, pipes.out, 0).0;
    }

    /** `except Exception as e`: every spider middleware's spider_error; DropItemException is only logged. */
    method Report(r: Result<()>, nSpiderMiddleware: nat, spiderRaises: Hooks.Raises) returns (raised: bool)
      modifies this
      ensures r.Err? && r.error != DropItem ==>
                reported == old(reported) + [r.error]
                && raised == Hooks.AnyRaises(Hooks.Calls(Hooks.SpiderError, nSpiderMiddleware), spiderRaises)
      ensures !(r.Err? && r.error != DropItem) ==> reported == old(reported) && !raised
      ensures buffer == old(buffer) && accepted == old(accepted) && flushed == old(flushed)
    {
      raised := false;
      if r.Err? && r.error != DropItem {
        reported := reported + [r.error];
        var _, spiderErrorRaised := Hooks.CallUntilRaise(Hooks.SpiderError, nSpiderMiddleware, spiderRaises);
        raised := spiderErrorRaised;
      }
    }

    /** One pass of run's loop and its exception handling; `finished` is the break, `escaped` a spider_error that raised. */
    method Iterate(tick: Tick, nSpiderMiddleware: nat, spiderRaises: Hooks.Raises) returns (finished: bool, escaped: bool)
      requires Valid()
      modifies this, pipes
      ensures Valid()
      ensures accepted == old(accepted) + AdmittedBy(tick, pipes.Count(), pipes.out, false)
      ensures finished ==> tick.Finished? && buffer == [] && flushed == accepted
      ensures escaped ==> Hooks.AnyRaises(Hooks.Calls(Hooks.SpiderError, nSpiderMiddleware), spiderRaises)
      ensures !(finished && escaped)
      ensures CloseCalls(pipes.calls) == CloseCalls(old(pipes.calls))
      ensures old(reported) <= reported && DropItem !in reported[|old(reported)|..]
    {
      var r := Step(tick);
      CloseCallsAppend(old(pipes.calls), pipes.calls[|old(pipes.calls)|..]);
      assert pipes.calls == old(pipes.calls) + pipes.calls[|old(pipes.calls)|..];
      if r.Ok? && tick.Finished? {
        return true, false;
      }
      escaped := Report(r, nSpiderMiddleware, spiderRaises);
      finished := false;
    }

    /** run's finally: pipeline_close unless PIPELINE_CLOSED is already up, raising the flag first. */
    method PipelineCloseOnce()
      modifies cls, pipes
      ensures cls.pipelineClosed
      ensures CloseCalls(pipes.calls)
              == CloseCalls(old(pipes.calls)) + (if !old(cls.pipelineClosed) then Closes(pipes.Count()) else [])
    {
      if !cls.pipelineClosed {
        cls.pipelineClosed := true;
        ghost var before := pipes.calls;
        PipelineClose();
        CloseCallsAppend(before, Closes(pipes.Count()));
        CloseCallsOfCloses(pipes.Count());
      }
    }

    /** pipeline_close: every pipeline's pipeline_close, an exception of one only logged. */
    method PipelineClose()
      modifies pipes
      ensures pipes.calls == old(pipes.calls) + Closes(pipes.Count())
    {
      pipes.CallAll(Closes(pipes.Count()));
    }

    /** run's `while True` loop, up to its break, a spider_error that raised, or the last tick. */
    method Loop(ticks: seq<Tick>, nSpiderMiddleware: nat, spiderRaises: Hooks.Raises)
      returns (finished: bool, escaped: bool, consumed: nat)
      requires Valid()
      modifies this, pipes
      ensures Valid()
      ensures consumed <= |ticks|
      ensures accepted == old(accepted) + Admitted(ticks, consumed, pipes.Count(), pipes.out, false)
      ensures !finished && !escaped ==> consumed == |ticks|
      ensures finished ==> consumed > 0 && ticks[consumed - 1].Finished? && buffer == [] && flushed == accepted
      ensures escaped ==> Hooks.AnyRaises(Hooks.Calls(Hooks.SpiderError, nSpiderMiddleware), spiderRaises)
      ensures !(finished && escaped)
      ensures CloseCalls(pipes.calls) == CloseCalls(old(pipes.calls))
      ensures old(reported) <= reported && DropItem !in reported[|old(reported)|..]
    {
      finished, escaped, consumed := false, false, 0;
      while consumed < |ticks| && !finished && !escaped
        invariant consumed <= |ticks|
        invariant Valid()
        invariant accepted == old(accepted) + Admitted(ticks, consumed, pipes.Count(), pipes.out, false)
        invariant old(reported) <= reported && DropItem !in reported[|old(reported)|..]
        invariant finished ==> consumed > 0 && ticks[consumed - 1].Finished? && buffer == [] && flushed == accepted
        invariant escaped ==> Hooks.AnyRaises(Hooks.Calls(Hooks.SpiderError, nSpiderMiddleware), spiderRaises)
        invariant !(finished && escaped)
        invariant CloseCalls(pipes.calls) == CloseCalls(old(pipes.calls))
      {
        finished, escaped := Iterate(ticks[consumed], nSpiderMiddleware, spiderRaises);
        consumed := consumed + 1;
      }
    }

    /**
     * run, over the ticks the loop sees, as ItemBuffer.run. When the loop
     * ends, pipeline_close runs on every pipeline, each exception swallowed,
     * but only if no instance has closed them yet.
     */
    method Run(ticks: seq<Tick>, nSpiderMiddleware: nat, spiderRaises: Hooks.Raises)
      returns (stopped: bool, finished: bool, res: Result<()>, consumed: nat)
      requires Valid() && ClosedOnce(cls, pipes)
      modifies this, pipes, cls
      ensures Valid() && ClosedOnce(cls, pipes)
      ensures consumed <= |ticks|
      ensures accepted == old(accepted) + Admitted(ticks, consumed, pipes.Count(), pipes.out, false)
      ensures !stopped ==> consumed == |ticks| && res == Ok(())
      ensures finished ==> stopped && consumed > 0 && ticks[consumed - 1].Finished?
      ensures finished ==> buffer == [] && flushed == accepted
      ensures stopped && !finished ==> Hooks.AnyRaises(Hooks.Calls(Hooks.SpiderError, nSpiderMiddleware), spiderRaises)
      ensures stopped ==> res == (if finished then Ok(()) else Err(Raised("spider_error")))
      ensures cls.pipelineClosed == (old(cls.pipelineClosed) || stopped)
      ensures CloseCalls(pipes.calls)
              == CloseCalls(old(pipes.calls)) + (if stopped && !old(cls.pipelineClosed) then Closes(pipes.Count()) else [])
      ensures old(reported) <= reported && DropItem !in reported[|old(reported)|..]
    {
      stopped, res := false, Ok(());
      var escaped;
      finished, escaped, consumed := Loop(ticks, nSpiderMiddleware, spiderRaises);
      if finished || escaped {
        // finally: close the pipelines unless PIPELINE_CLOSED is already up
        stopped := true;
        PipelineCloseOnce();
        res := if escaped then Err(Raised("spider_error")) else Ok(());
      }
    }
  }
}
