/**
 * The `__dict__` of a Python object, which network/meta.py and the item
 * classes use as their store: an insertion-ordered dict. `Entries` is its
 * value; `PyDict` is the dict object itself, so that returning "the same
 * dict" and returning a copy can be told apart.
 */
module Dicts {
  import opened Common

  /** Keys in insertion order, and what each maps to. */
  datatype Entries = Entries(order: seq<Key>, store: map<Key, Val>)

  predicate Distinct(s: seq<Key>) {
    forall i, j :: 0 <= i < j < |s| ==> s[i] != s[j]
  }

  /** Every stored key appears once in the order, and only stored keys do. */
  predicate WellFormed(e: Entries) {
    Distinct(e.order) && (forall k :: k in e.store ==> k in e.order) && (forall k :: k in e.order ==> k in e.store)
  }

  const Empty: Entries := Entries([], map[])

  /** `d[k] = v`: a new key goes last, an existing key keeps its place. */
  function Put(e: Entries, k: Key, v: Val): (r: Entries)
    requires WellFormed(e)
    ensures WellFormed(r)
  {
    if k in e.store then Entries(e.order, e.store[k := v])
    else Entries(e.order + [k], e.store[k := v])
  }

  /** The order with k taken out. */
  function Without(s: seq<Key>, k: Key): (r: seq<Key>)
    ensures forall x :: x in r <==> x in s && x != k
    ensures Distinct(s) ==> Distinct(r)
  {
    if s == [] then []
    else if s[0] == k then
      var t := Without(s[1..], k);
      assert Distinct(s) ==> Distinct(s[1..]);
      t
    else
      var t := Without(s[1..], k);
      assert Distinct(s) ==> Distinct(s[1..]) && s[0] !in s[1..];
      assert forall i :: 0 < i < |[s[0]] + t| ==> ([s[0]] + t)[i] == t[i - 1];
      [s[0]] + t
  }

  /** `del d[k]` */
  function Remove(e: Entries, k: Key): (r: Entries)
    requires WellFormed(e)
    ensures WellFormed(r)
  {
    Entries(Without(e.order, k), e.store - {k})
  }

  /** `for key, value in pairs: d[key] = value`, which is also what `dict.update` does. */
  function PutAll(e: Entries, pairs: seq<(Key, Val)>): (r: Entries)
    requires WellFormed(e)
    ensures WellFormed(r)
    decreases |pairs|
  {
    if pairs == [] then e else PutAll(Put(e, pairs[0].0, pairs[0].1), pairs[1..])
  }

  /** The keys of a sequence of pairs. */
  function KeysOf(pairs: seq<(Key, Val)>): (ks: seq<Key>) {
    seq(|pairs|, i requires 0 <= i < |pairs| => pairs[i].0)
  }

  /** No key occurs twice among the pairs (as in a dict's items or a call's keyword arguments). */
  predicate DistinctKeys(pairs: seq<(Key, Val)>) {
    forall i, j :: 0 <= i < j < |pairs| ==> pairs[i].0 != pairs[j].0
  }

  /** `d.items()`, in insertion order. */
  function Items(e: Entries): (items: seq<(Key, Val)>)
    requires WellFormed(e)
    ensures |items| == |e.order|
    ensures forall i :: 0 <= i < |items| ==> items[i] == (e.order[i], e.store[e.order[i]])
  {
    seq(|e.order|, i requires 0 <= i < |e.order| => (e.order[i], e.store[e.order[i]]))
  }

  /** `d[k] = v` then `d[k]` is v, every other key keeps its value, and k is now stored. */
  lemma PutThenGet(e: Entries, k: Key, v: Val, x: Key)
    requires WellFormed(e)
    ensures x in Put(e, k, v).store <==> x == k || x in e.store
    ensures x in Put(e, k, v).store ==> Put(e, k, v).store[x] == if x == k then v else e.store[x]
  {
  }

  /** A distinct sequence of keys has as many elements as its set. */
  lemma {:induction false} DistinctCard(s: seq<Key>)
    requires Distinct(s)
    ensures |set x | x in s| == |s|
  {
    if s != [] {
      var tail := s[1..];
      assert Distinct(tail);
      DistinctCard(tail);
      assert (set x | x in s) == (set x | x in tail) + {s[0]};
      assert s[0] !in (set x | x in tail);
    }
  }

  /** `len(d)` is the number of stored keys, which is the length of the iteration order. */
  lemma LenIsOrderLength(e: Entries)
    requires WellFormed(e)
    ensures |e.store| == |e.order|
  {
    DistinctCard(e.order);
    assert e.store.Keys == set x | x in e.order;
  }

  lemma KeysOfCons(pairs: seq<(Key, Val)>)
    requires pairs != []
    ensures KeysOf(pairs) == [pairs[0].0] + KeysOf(pairs[1..])
  {
    assert forall i :: 0 <= i < |pairs| - 1 ==> pairs[1..][i] == pairs[i + 1];
  }

  /** Writing pairs with distinct keys none of which is stored yet appends their keys in order. */
  lemma {:induction false} PutAllFreshOrder(e: Entries, pairs: seq<(Key, Val)>)
    requires WellFormed(e)
    requires DistinctKeys(pairs)
    requires forall i :: 0 <= i < |pairs| ==> pairs[i].0 !in e.store
    ensures PutAll(e, pairs).order == e.order + KeysOf(pairs)
    decreases |pairs|
  {
    if pairs != [] {
      var k0 := pairs[0].0;
      var e1 := Put(e, k0, pairs[0].1);
      var rest := pairs[1..];
      assert forall i :: 0 <= i < |rest| ==> rest[i] == pairs[i + 1];
      assert e1.order == e.order + [k0] && e1.store.Keys == e.store.Keys + {k0};
      assert forall i :: 0 <= i < |rest| ==> rest[i].0 != k0;
      PutAllFreshOrder(e1, rest);
      assert PutAll(e, pairs).order == PutAll(e1, rest).order;
      KeysOfCons(pairs);
      ConcatAssoc(e.order, [k0], KeysOf(rest));
    }
  }

  /** ... and maps each of their keys to its value. */
  lemma {:induction false} PutAllFreshStore(e: Entries, pairs: seq<(Key, Val)>)
    requires WellFormed(e)
    requires DistinctKeys(pairs)
    ensures forall i :: 0 <= i < |pairs| ==> pairs[i].0 in PutAll(e, pairs).store && PutAll(e, pairs).store[pairs[i].0] == pairs[i].1
    ensures forall k :: k in e.store ==> k in PutAll(e, pairs).store
    decreases |pairs|
  {
    if pairs != [] {
      var e1 := Put(e, pairs[0].0, pairs[0].1);
      var rest := pairs[1..];
      assert forall i :: 0 <= i < |rest| ==> rest[i] == pairs[i + 1];
      PutAllFreshStore(e1, rest);
      PutAllKeeps(e1, rest, pairs[0].0);
    }
  }

  /** A key none of the pairs writes keeps its entry. */
  lemma {:induction false} PutAllKeeps(e: Entries, pairs: seq<(Key, Val)>, k: Key)
    requires WellFormed(e)
    requires k in e.store && forall i :: 0 <= i < |pairs| ==> pairs[i].0 != k
    ensures k in PutAll(e, pairs).store && PutAll(e, pairs).store[k] == e.store[k]
    decreases |pairs|
  {
    if pairs != [] {
      var rest := pairs[1..];
      assert forall i :: 0 <= i < |rest| ==> rest[i] == pairs[i + 1];
      PutAllKeeps(Put(e, pairs[0].0, pairs[0].1), rest, k);
    }
  }

  /** Two well-formed dicts with the same order and the same value for every key are equal. */
  lemma EntriesEqual(r: Entries, e: Entries)
    requires WellFormed(r) && WellFormed(e) && r.order == e.order
    requires forall k :: k in e.store ==> k in r.store && r.store[k] == e.store[k]
    ensures r == e
  {
    assert r.store.Keys == e.store.Keys;
  }

  /** A dict's items have distinct keys, in its order. */
  lemma ItemsKeys(e: Entries)
    requires WellFormed(e)
    ensures DistinctKeys(Items(e)) && KeysOf(Items(e)) == e.order
  {
  }

  /** Replaying a dict's items into an empty dict stores each key's own value. */
  lemma PutAllItemsAt(e: Entries, k: Key)
    requires WellFormed(e) && k in e.store
    ensures k in PutAll(Empty, Items(e)).store && PutAll(Empty, Items(e)).store[k] == e.store[k]
  {
    ItemsKeys(e);
    PutAllFreshStore(Empty, Items(e));
    var i :| 0 <= i < |e.order| && e.order[i] == k;
    assert Items(e)[i].0 == k;
  }

  /** Replaying a dict's own items into an empty dict rebuilds it, order included. */
  lemma PutAllItemsOfEmpty(e: Entries)
    requires WellFormed(e)
    ensures PutAll(Empty, Items(e)) == e
  {
    ItemsKeys(e);
    PutAllFreshOrder(Empty, Items(e));
    forall k | k in e.store
      ensures k in PutAll(Empty, Items(e)).store && PutAll(Empty, Items(e)).store[k] == e.store[k]
    {
      PutAllItemsAt(e, k);
    }
    EntriesEqual(PutAll(Empty, Items(e)), e);
  }

  /** `d.get(k)`: the stored value, or None for a missing key. */
  function Get(e: Entries, k: Key): Val {
    if k in e.store then e.store[k] else VNone
  }

  /** `d[k]`: a missing key raises KeyError. */
  function Lookup(e: Entries, k: Key): (r: Result<Val>)
    ensures r.Ok? <==> k in e.store
    ensures r.Ok? ==> r.value == e.store[k]
    ensures r.Err? ==> r.error == KeyError
  {
    if k in e.store then Ok(e.store[k]) else Err(KeyError)
  }

  /** `if k in d: del d[k]` */
  function Discard(e: Entries, k: Key): (r: Entries)
    requires WellFormed(e)
    ensures WellFormed(r)
    ensures k !in e.store ==> r == e
  {
    if k in e.store then Remove(e, k) else e
  }

  /** Deleting takes out exactly that key; every other key keeps its value and its place. */
  lemma RemoveTakesOut(e: Entries, k: Key, x: Key)
    requires WellFormed(e)
    ensures x in Remove(e, k).store <==> x in e.store && x != k
    ensures x in Remove(e, k).store ==> Remove(e, k).store[x] == e.store[x]
    ensures Remove(e, k).order == Without(e.order, k)
  {
  }

  /** Taking a key out of two joined orders takes it out of each. */
  lemma {:induction false} WithoutAppend(a: seq<Key>, b: seq<Key>, k: Key)
    ensures Without(a + b, k) == Without(a, k) + Without(b, k)
    decreases |a|
  {
    if a == [] {
      assert a + b == b;
    } else {
      WithoutAppend(a[1..], b, k);
      assert (a + b)[0] == a[0] && (a + b)[1..] == a[1..] + b;
    }
  }

  /** A key other than k at place i lands at the number of such keys before i. */
  lemma WithoutAt(s: seq<Key>, k: Key, i: nat)
    requires i < |s| && s[i] != k
    ensures |Without(s[..i], k)| < |Without(s, k)| && Without(s, k)[|Without(s[..i], k)|] == s[i]
  {
    assert s == s[..i] + ([s[i]] + s[i + 1..]);
    WithoutAppend(s[..i], [s[i]] + s[i + 1..], k);
    WithoutAppend([s[i]], s[i + 1..], k);
    assert [s[i]][1..] == [];
  }

  /**
   * The order with a key taken out keeps the other keys in their relative
   * order: the keys at i < j land at places p < q.
   */
  lemma WithoutKeepsOrder(s: seq<Key>, k: Key, i: nat, j: nat)
    requires i < j < |s| && s[i] != k && s[j] != k
    ensures var w := Without(s, k);
            var p := |Without(s[..i], k)|;
            var q := |Without(s[..j], k)|;
            p < q < |w| && w[p] == s[i] && w[q] == s[j]
  {
    WithoutAt(s, k, i);
    WithoutAt(s, k, j);
    assert s[..j] == (s[..i] + [s[i]]) + s[i + 1..j];
    WithoutAppend(s[..i] + [s[i]], s[i + 1..j], k);
    WithoutAppend(s[..i], [s[i]], k);
    assert [s[i]][1..] == [];
  }

  /** Writing one more pair after a sequence of pairs is PutAll of the longer sequence. */
  lemma {:induction false} PutAllSnoc(e: Entries, pairs: seq<(Key, Val)>, p: (Key, Val))
    requires WellFormed(e)
    ensures PutAll(e, pairs + [p]) == Put(PutAll(e, pairs), p.0, p.1)
    decreases |pairs|
  {
    if pairs == [] {
      assert [] + [p] == [p];
    } else {
      assert (pairs + [p])[1..] == pairs[1..] + [p];
      PutAllSnoc(Put(e, pairs[0].0, pairs[0].1), pairs[1..], p);
    }
  }

  /** A Python dict object; references to it alias. */
  class PyDict {
    var entries: Entries

    predicate Valid()
      reads this
    {
      WellFormed(entries)
    }

    constructor ()
      ensures Valid() && entries == Empty
    {
      entries := Empty;
    }

    /** `d[k] = v` */
    method Set(k: Key, v: Val)
      requires Valid()
      modifies this
      ensures Valid() && entries == Put(old(entries), k, v)
    {
      if k in entries.store {
        entries := Entries(entries.order, entries.store[k := v]);
      } else {
        entries := Entries(entries.order + [k], entries.store[k := v]);
      }
    }

    /** `del d[k]` for a key that is present. */
    method Delete(k: Key)
      requires Valid() && k in entries.store
      modifies this
      ensures Valid() && entries == Remove(old(entries), k)
    {
      entries := Remove(entries, k);
    }

    /** `d.update(pairs)`, one assignment per pair. */
    method Update(pairs: seq<(Key, Val)>)
      requires Valid()
      modifies this
      ensures Valid() && entries == PutAll(old(entries), pairs)
    {
      var i := 0;
      while i < |pairs|
        invariant 0 <= i <= |pairs|
        invariant Valid()
        invariant PutAll(entries, pairs[i..]) == PutAll(old(entries), pairs)
      {
        assert pairs[i..][1..] == pairs[i + 1..];
        Set(pairs[i].0, pairs[i].1);
        i := i + 1;
      }
    }
  }
}
