/**
 * item/item_base.py: BaseItem (and its subclass Item), a mutable mapping
 * over the object's own `__dict__` that reads a missing key as None,
 * ignores deleting one, and copies its store in to_dict.
 */
module BaseItems {
  import opened Common
  import opened Dicts

  class BaseItem {
    /** The object's `__dict__`. */
    const dict: PyDict

    predicate Valid()
      reads this, dict
    {
      dict.Valid()
    }

    constructor ()
      ensures Valid() && fresh(dict) && dict.entries == Empty
    {
      dict := new PyDict();
    }

    /** to_dict: a new dict filled entry by entry from the store. */
    method ToDict() returns (d: PyDict)
      requires Valid()
      ensures fresh(d) && d.Valid() && d.entries == dict.entries
    {
      var items := Items(dict.entries);
      d := new PyDict();
      var i := 0;
      while i < |items|
        invariant 0 <= i <= |items|
        invariant fresh(d) && d.Valid()
        invariant d.entries == PutAll(Empty, items[..i])
      {
        PutAllSnoc(Empty, items[..i], items[i]);
        assert items[..i + 1] == items[..i] + [items[i]];
        d.Set(items[i].0, items[i].1);
        i := i + 1;
      }
      assert items[..i] == items;
      PutAllItemsOfEmpty(dict.entries);
    }

    /** `item[k] = v` */
    method SetItem(k: Key, v: Val)
      requires Valid()
      modifies dict
      ensures Valid() && dict.entries == Put(old(dict.entries), k, v)
    {
      dict.Set(k, v);
    }

    /** `item.k = v` (with a warning): the same store as `item[k] = v`. */
    method SetAttr(k: Key, v: Val)
      requires Valid()
      modifies dict
      ensures Valid() && dict.entries == Put(old(dict.entries), k, v)
    {
      dict.Set(k, v);
    }

    /** `item[k]`: `dict.get`, None for a missing key. */
    method GetItem(k: Key) returns (v: Val)
      requires Valid()
      ensures k in dict.entries.store ==> v == dict.entries.store[k]
      ensures k !in dict.entries.store ==> v == VNone
    {
      if k in dict.entries.store {
        return dict.entries.store[k];
      }
      return VNone;
    }

    /** `item.k` (with a warning): reads the same store, also None when missing. */
    method GetAttr(k: Key) returns (v: Val)
      requires Valid()
      ensures v == Get(dict.entries, k)
    {
      v := GetItem(k);
    }

    /** `del item[k]`: a missing key is left alone. */
    method DelItem(k: Key)
      requires Valid()
      modifies dict
      ensures Valid() && dict.entries == Discard(old(dict.entries), k)
    {
      if k in dict.entries.store {
        dict.Delete(k);
      }
    }

    /** `item.keys()`: the stored names, in insertion order. */
    method Keys() returns (ks: seq<Key>)
      requires Valid()
      ensures ks == dict.entries.order
      ensures forall k :: k in ks <==> k in dict.entries.store
    {
      ks := [];
      var i := 0;
      while i < |dict.entries.order|
        invariant 0 <= i <= |dict.entries.order|
        invariant ks == dict.entries.order[..i]
      {
        ks := ks + [dict.entries.order[i]];
        i := i + 1;
      }
      assert dict.entries.order[..i] == dict.entries.order;
    }

    /** `item.values()`: the stored values, in the keys' order. */
    method Values() returns (vs: seq<Val>)
      requires Valid()
      ensures |vs| == |dict.entries.order|
      ensures forall i :: 0 <= i < |vs| ==> vs[i] == dict.entries.store[dict.entries.order[i]]
    {
      vs := [];
      var i := 0;
      while i < |dict.entries.order|
        invariant 0 <= i <= |dict.entries.order|
        invariant |vs| == i
        invariant forall j :: 0 <= j < i ==> vs[j] == dict.entries.store[dict.entries.order[j]]
      {
        vs := vs + [dict.entries.store[dict.entries.order[i]]];
        i := i + 1;
      }
    }

    /** `item.items()`: the stored pairs, in insertion order. */
    method ItemPairs() returns (ps: seq<(Key, Val)>)
      requires Valid()
      ensures ps == Items(dict.entries)
    {
      ps := [];
      var i := 0;
      while i < |dict.entries.order|
        invariant 0 <= i <= |dict.entries.order|
        invariant |ps| == i
        invariant forall j :: 0 <= j < i ==> ps[j] == (dict.entries.order[j], dict.entries.store[dict.entries.order[j]])
      {
        ps := ps + [(dict.entries.order[i], dict.entries.store[dict.entries.order[i]])];
        i := i + 1;
      }
    }

    /** `len(item)`: the number of stored fields. */
    method Len() returns (n: nat)
      requires Valid()
      ensures n == |dict.entries.store| && n == |dict.entries.order|
    {
      LenIsOrderLength(dict.entries);
      n := |dict.entries.store|;
    }

    /** `iter(item)`: the field names, in insertion order. */
    method Iter() returns (ks: seq<Key>)
      requires Valid()
      ensures ks == dict.entries.order
    {
      ks := dict.entries.order;
    }
  }

  /** `item[k] = v` then `item[k]` is v; a missing key reads as None and deleting it is a no-op. */
  lemma LenientAccess(e: Entries, k: Key, v: Val, x: Key)
    requires WellFormed(e)
    ensures Get(Put(e, k, v), k) == v
    ensures x != k ==> Get(Put(e, k, v), x) == Get(e, x)
    ensures x !in e.store ==> Get(e, x) == VNone && Discard(e, x) == e
  {
  }
}
