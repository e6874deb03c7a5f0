/**
 * filter/filter_set.py: SetFilter, which keeps the fingerprints it has seen
 * in two in-process sets, one for requests and one for items. judge is a
 * check-and-set: a fingerprint already present is a repeat; otherwise it is
 * added.
 */
module SetFilters {
  import opened Common
  import opened Tasks
  import opened Fingerprints

  /** judge on a set holding s: whether fp is a repeat, and what the set holds afterwards. */
  function CheckAndSet<T>(s: set<T>, fp: T): (r: (bool, set<T>))
    ensures r.0 <==> fp in s
    ensures fp in r.1 && s <= r.1 && r.1 - s <= {fp}
  {
    if fp in s then (true, s) else (false, s + {fp})
  }

  /**
   * The first judge of a fingerprint says new and records it; every later
   * one says repeat and leaves the set as it is.
   */
  lemma {:induction false} LaterJudgesRepeat<T>(s: set<T>, fp: T, others: seq<T>)
    requires fp !in s
    ensures CheckAndSet(s, fp) == (false, s + {fp})
    ensures CheckAndSet(JudgeAll(s + {fp}, others), fp) == (true, JudgeAll(s + {fp}, others))
  {
    JudgeAllKeeps(s + {fp}, others);
  }

  /** The set after judging each of fps in turn. */
  function JudgeAll<T(==)>(s: set<T>, fps: seq<T>): set<T>
    decreases |fps|
  {
    if fps == [] then s else JudgeAll(CheckAndSet(s, fps[0]).1, fps[1..])
  }

  /** Judging only ever adds fingerprints. */
  lemma {:induction false} JudgeAllKeeps<T>(s: set<T>, fps: seq<T>)
    ensures s <= JudgeAll(s, fps)
    ensures forall i :: 0 <= i < |fps| ==> fps[i] in JudgeAll(s, fps)
    decreases |fps|
  {
    if fps != [] {
      var s1 := CheckAndSet(s, fps[0]).1;
      JudgeAllKeeps(s1, fps[1..]);
      forall i | 0 <= i < |fps|
        ensures fps[i] in JudgeAll(s, fps)
      {
        if i > 0 {
          assert fps[i] == fps[1..][i - 1];
        }
      }
    }
  }

  /** What is_repeat answers on a set holding seen, for a fingerprint that may have failed to compute. */
  function SetAnswer(seen: set<string>, fp: Result<string>): (r: Result<bool>)
    ensures fp.Err? ==> r == Err(fp.error)
    ensures fp.Ok? ==> r == Ok(CheckAndSet(seen, fp.value).0)
  {
    var f :- fp;
    Ok(f in seen)
  }

  /** A Python set object: filters hand it to judge, which adds to it in place. */
  class PySet<T(==)> {
    var elems: set<T>

    constructor ()
      ensures elems == {}
    {
      elems := {};
    }
  }

  /** SetFilter */
  class SetFilter {
    const requestSet: PySet<string>
    const itemSet: PySet<string>
    const enc: Encoding

    constructor (enc: Encoding)
      ensures fresh(requestSet) && fresh(itemSet) && requestSet.elems == {} && itemSet.elems == {}
      ensures this.enc == enc
    {
      requestSet := new PySet();
      itemSet := new PySet();
      this.enc := enc;
    }

    /** judge: check-and-set of fp on f. */
    method Judge(f: PySet<string>, fp: string) returns (repeat: bool)
      modifies f
      ensures (repeat, f.elems) == CheckAndSet(old(f.elems), fp)
    {
      if fp in f.elems {
        return true;
      }
      f.elems := f.elems + {fp};
      return false;
    }

    /**
     * is_repeat: judge of the object's fingerprint on the set for its type.
     * With STRICT_FILTER the judge runs under the filter lock (`locked`);
     * the answer is the same either way.
     */
    method IsRepeat(obj: Task, strict: bool) returns (res: Result<bool>, locked: bool)
      requires requestSet != itemSet
      modifies requestSet, itemSet
      ensures locked == (strict && Fingerprint(obj, enc).Ok?)
      ensures Fingerprint(obj, enc).Err? ==>
                res == Err(Fingerprint(obj, enc).error)
                && requestSet.elems == old(requestSet.elems) && itemSet.elems == old(itemSet.elems)
      ensures Fingerprint(obj, enc).Ok? && obj.RequestTask? ==>
                res.Ok? && (res.value, requestSet.elems) == CheckAndSet(old(requestSet.elems), Fingerprint(obj, enc).value)
                && itemSet.elems == old(itemSet.elems)
      ensures Fingerprint(obj, enc).Ok? && obj.ItemTask? ==>
                res.Ok? && (res.value, itemSet.elems) == CheckAndSet(old(itemSet.elems), Fingerprint(obj, enc).value)
                && requestSet.elems == old(requestSet.elems)
    {
      var fp := Fingerprint(obj, enc);
      if fp.Err? {
        return Err(fp.error), false;
      }
      var f := if obj.RequestTask? then requestSet else itemSet;
      var repeat := Judge(f, fp.value);
      return Ok(repeat), strict;
    }
  }
}
