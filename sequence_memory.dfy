/**
 * sequence/sequence_memory.py: the in-process queues. FIFOSequence wraps
 * queue.Queue, LIFOSequence queue.LifoQueue and PrioritySequence
 * queue.PriorityQueue of `[level, obj]` lists. A get whose timeout runs out
 * on an empty queue returns None.
 */
module MemorySequences {
  import opened Common
  import Requests

  /** What a FIFO get does to contents q: the oldest object out, or None when q is empty. */
  function TakeFirst<T>(q: seq<T>): (r: (Option<T>, seq<T>))
    ensures r.0.None? <==> q == []
    ensures r.0.Some? ==> |r.1| == |q| - 1
  {
    if q == [] then (None, q) else (Some(q[0]), q[1..])
  }

  /** What a LIFO get does to contents q: the newest object out, or None when q is empty. */
  function TakeLast<T>(q: seq<T>): (r: (Option<T>, seq<T>))
    ensures r.0.None? <==> q == []
    ensures r.0.Some? ==> |r.1| == |q| - 1
  {
    if q == [] then (None, q) else (Some(q[|q| - 1]), q[..|q| - 1])
  }

  /** The objects FIFO gets return, one after the other, until the queue is empty. */
  function DrainFirst<T>(q: seq<T>): seq<T>
    decreases |q|
  {
    var (x, rest) := TakeFirst(q);
    if x.None? then [] else [x.value] + DrainFirst(rest)
  }

  /** The objects LIFO gets return, one after the other, until the queue is empty. */
  function DrainLast<T>(q: seq<T>): seq<T>
    decreases |q|
  {
    var (x, rest) := TakeLast(q);
    if x.None? then [] else [x.value] + DrainLast(rest)
  }

  function Reverse<T>(s: seq<T>): (r: seq<T>)
    ensures |r| == |s|
    ensures forall i :: 0 <= i < |s| ==> r[i] == s[|s| - 1 - i]
  {
    if s == [] then [] else [s[|s| - 1]] + Reverse(s[..|s| - 1])
  }

  /** FIFO gets hand the objects out in the order they were put. */
  lemma {:induction false} FifoOrder<T>(q: seq<T>)
    ensures DrainFirst(q) == q
    decreases |q|
  {
    if q != [] {
      FifoOrder(q[1..]);
    }
  }

  /** LIFO gets hand the most recently put object out first. */
  lemma {:induction false} LifoOrder<T>(q: seq<T>)
    ensures DrainLast(q) == Reverse(q)
    decreases |q|
  {
    if q != [] {
      LifoOrder(q[..|q| - 1]);
    }
  }

  /** FIFOSequence */
  class FifoSequence<T> {
    var items: seq<T>

    constructor ()
      ensures items == []
    {
      items := [];
    }

    method Put(obj: T)
      modifies this
      ensures items == old(items) + [obj]
    {
      items := items + [obj];
    }

    method Get() returns (obj: Option<T>)
      modifies this
      ensures (obj, items) == TakeFirst(old(items))
    {
      if items == [] {
        return None;
      }
      obj := Some(items[0]);
      items := items[1..];
    }

    method Empty() returns (b: bool)
      ensures b <==> items == []
    {
      b := items == [];
    }
  }

  /** LIFOSequence: FIFOSequence over a LifoQueue. */
  class LifoSequence<T> {
    var items: seq<T>

    constructor ()
      ensures items == []
    {
      items := [];
    }

    method Put(obj: T)
      modifies this
      ensures items == old(items) + [obj]
    {
      items := items + [obj];
    }

    method Get() returns (obj: Option<T>)
      modifies this
      ensures (obj, items) == TakeLast(old(items))
    {
      if items == [] {
        return None;
      }
      obj := Some(items[|items| - 1]);
      items := items[..|items| - 1];
    }

    method Empty() returns (b: bool)
      ensures b <==> items == []
    {
      b := items == [];
    }
  }

  /** The level put gives an object: its `level` attribute if it has one, else 100. */
  function LevelOf(r: Requests.Request): int {
    if Level in r.attrs && r.attrs[Level].VInt? then r.attrs[Level].i else 100
  }

  /**
   * `[la, a] < [lb, b]` as Python compares lists: by level, and on equal
   * levels by `a < b` (Request.__lt__).
   */
  predicate EntryLess(a: (int, Requests.Request), b: (int, Requests.Request)) {
    a.0 < b.0 || (a.0 == b.0 && Requests.Less(a.1, b.1) == Ok(true))
  }

  /** The entry order is a strict order. */
  lemma EntryLessTransitive(a: (int, Requests.Request), b: (int, Requests.Request), c: (int, Requests.Request))
    ensures !EntryLess(a, a)
    ensures EntryLess(a, b) && EntryLess(b, c) ==> EntryLess(a, c)
  {
    Requests.LessIsPriorityOrder(a.1, b.1, c.1);
    Requests.LessIsPriorityOrder(a.1, a.1, a.1);
  }

  /**
   * A request put without a level attribute gets level 100, so the queue
   * orders such requests by their priorities alone.
   */
  lemma UnleveledByPriority(a: Requests.Request, b: Requests.Request)
    requires Level !in a.attrs && Level !in b.attrs
    ensures LevelOf(a) == 100 && LevelOf(b) == 100
    ensures EntryLess((LevelOf(a), a), (LevelOf(b), b)) <==> Requests.Less(a, b) == Ok(true)
  {
  }

  /** Requests.Init never sets `level` unless it was passed as a keyword. */
  lemma InitHasNoLevel(args: map<Key, Val>)
    requires Level !in args
    requires Requests.Init(args).Ok?
    ensures LevelOf(Requests.Init(args).value) == 100
  {
    Requests.InitAttribute(args, Level);
  }

  /** Whether entry i of q is one no other entry of q precedes. */
  predicate Least(q: seq<(int, Requests.Request)>, i: int) {
    0 <= i < |q| && forall j :: 0 <= j < |q| ==> !EntryLess(q[j], q[i])
  }

  /** PrioritySequence */
  class PrioritySequence {
    var entries: seq<(int, Requests.Request)>

    constructor ()
      ensures entries == []
    {
      entries := [];
    }

    /** put stores `[level, obj]`. */
    method Put(obj: Requests.Request)
      modifies this
      ensures entries == old(entries) + [(LevelOf(obj), obj)]
    {
      entries := entries + [(LevelOf(obj), obj)];
    }

    /** get takes out an entry no other entry precedes and unwraps it to the object. */
    method Get() returns (obj: Option<Requests.Request>)
      modifies this
      ensures old(entries) == [] ==> obj.None? && entries == old(entries)
      ensures old(entries) != [] ==>
                exists i :: Least(old(entries), i) && obj == Some(old(entries)[i].1)
                            && entries == old(entries)[..i] + old(entries)[i + 1..]
    {
      if entries == [] {
        return None;
      }
      var best := 0;
      var j := 1;
      while j < |entries|
        invariant entries == old(entries)
        invariant 0 <= best < j <= |entries|
        invariant forall i :: 0 <= i < j ==> !EntryLess(entries[i], entries[best])
      {
        if EntryLess(entries[j], entries[best]) {
          forall i | 0 <= i < j
            ensures !EntryLess(entries[i], entries[j])
          {
            EntryLessTransitive(entries[i], entries[j], entries[best]);
          }
          EntryLessTransitive(entries[j], entries[j], entries[j]);
          best := j;
        }
        j := j + 1;
      }
      assert Least(entries, best);
      ghost var q := entries;
      obj := Some(entries[best].1);
      entries := entries[..best] + entries[best + 1..];
      assert Least(q, best) && obj == Some(q[best].1) && entries == q[..best] + q[best + 1..];
    }

    method Empty() returns (b: bool)
      ensures b <==> entries == []
    {
      b := entries == [];
    }
  }
}
