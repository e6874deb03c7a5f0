/**
 * network/meta.py: Meta, a mutable mapping over the object's own
 * `__dict__`. Reading or deleting a missing key is lenient.
 */
module MetaMapping {
  import opened Common
  import opened Dicts

  class Meta {
    /** The object's `__dict__`. */
    const dict: PyDict

    predicate Valid()
      reads this, dict
    {
      dict.Valid()
    }

    constructor ()
      ensures Valid() && fresh(dict) && dict.entries == Empty
    {
      dict := new PyDict();
    }

    /** to_dict hands out the store itself, so later writes show through it. */
    method ToDict() returns (d: PyDict)
      ensures d == dict
    {
      d := dict;
    }

    /** `meta[k] = v` */
    method SetItem(k: Key, v: Val)
      requires Valid()
      modifies dict
      ensures Valid() && dict.entries == Put(old(dict.entries), k, v)
    {
      dict.Set(k, v);
    }

    /** `meta[k]`: None for a missing key. */
    method GetItem(k: Key) returns (v: Val)
      requires Valid()
      ensures k in dict.entries.store ==> v == dict.entries.store[k]
      ensures k !in dict.entries.store ==> v == VNone
    {
      if k in dict.entries.store {
        return dict.entries.store[k];
      }
      return VNone;
    }

    /** `del meta[k]`: a missing key is left alone. */
    method DelItem(k: Key)
      requires Valid()
      modifies dict
      ensures Valid() && dict.entries == Discard(old(dict.entries), k)
    {
      if k in dict.entries.store {
        dict.Delete(k);
      }
    }

    /** `len(meta)`: the number of stored keys, which is also how many keys iteration yields. */
    method Len() returns (n: nat)
      requires Valid()
      ensures n == |dict.entries.store| && n == |dict.entries.order|
    {
      LenIsOrderLength(dict.entries);
      n := |dict.entries.store|;
    }

    /** `iter(meta)`: exactly the stored keys, each once, in insertion order. */
    method Iter() returns (ks: seq<Key>)
      requires Valid()
      ensures ks == dict.entries.order
      ensures Distinct(ks) && forall k :: k in ks <==> k in dict.entries.store
    {
      ks := dict.entries.order;
    }
  }

  /** `meta[k] = v` then `meta[k]` is v; a missing key reads as None. */
  lemma SetThenGetItem(e: Entries, k: Key, v: Val, x: Key)
    requires WellFormed(e)
    ensures Get(Put(e, k, v), k) == v
    ensures x != k ==> Get(Put(e, k, v), x) == Get(e, x)
    ensures x !in e.store ==> Get(e, x) == VNone
  {
  }

  /** Deleting a missing key changes nothing; deleting a present one takes out just that key. */
  lemma DelItemEffect(e: Entries, k: Key, x: Key)
    requires WellFormed(e)
    ensures k !in e.store ==> Discard(e, k) == e
    ensures Get(Discard(e, k), k) == VNone
    ensures x != k ==> Get(Discard(e, k), x) == Get(e, x)
  {
    if k in e.store {
      RemoveTakesOut(e, k, x);
      RemoveTakesOut(e, k, k);
    }
  }
}
