/**
 * item/item.py: ItemBase (and its subclass Item), a mutable mapping over
 * the object's own `__dict__`. Attribute and subscript access share that
 * one store; reading or deleting a missing key raises KeyError.
 */
module Items {
  import opened Common
  import opened Dicts

  class ItemBase {
    /** The object's `__dict__`. */
    const dict: PyDict

    predicate Valid()
      reads this, dict
    {
      dict.Valid()
    }

    constructor ()
      ensures Valid() && fresh(dict) && dict.entries == Empty
    {
      dict := new PyDict();
    }

    /** to_dict hands out the store itself, not a copy. */
    method ToDict() returns (d: PyDict)
      ensures d == dict
    {
      d := dict;
    }

    /** `item[k] = v` */
    method SetItem(k: Key, v: Val)
      requires Valid()
      modifies dict
      ensures Valid() && dict.entries == Put(old(dict.entries), k, v)
    {
      dict.Set(k, v);
    }

    /** `item.k = v`: the same store as `item[k] = v`. */
    method SetAttr(k: Key, v: Val)
      requires Valid()
      modifies dict
      ensures Valid() && dict.entries == Put(old(dict.entries), k, v)
    {
      dict.Set(k, v);
    }

    /** `item[k]`: KeyError for a missing key. */
    method GetItem(k: Key) returns (v: Result<Val>)
      requires Valid()
      ensures v.Ok? <==> k in dict.entries.store
      ensures v.Ok? ==> v.value == dict.entries.store[k]
      ensures v.Err? ==> v.error == KeyError
    {
      if k in dict.entries.store {
        return Ok(dict.entries.store[k]);
      }
      return Err(KeyError);
    }

    /** `item.k`: reads the same store, with the same KeyError. */
    method GetAttr(k: Key) returns (v: Result<Val>)
      requires Valid()
      ensures v == Lookup(dict.entries, k)
    {
      v := GetItem(k);
    }

    /** `del item[k]`: KeyError for a missing key, and nothing changes. */
    method DelItem(k: Key) returns (err: Option<Exc>)
      requires Valid()
      modifies dict
      ensures Valid()
      ensures k in old(dict.entries.store) ==> err.None? && dict.entries == Remove(old(dict.entries), k)
      ensures k !in old(dict.entries.store) ==> err == Some(KeyError) && dict.entries == old(dict.entries)
    {
      if k !in dict.entries.store {
        return Some(KeyError);
      }
      dict.Delete(k);
      return None;
    }

    /** `del item.k`: the same as `del item[k]`. */
    method DelAttr(k: Key) returns (err: Option<Exc>)
      requires Valid()
      modifies dict
      ensures Valid()
      ensures k in old(dict.entries.store) ==> err.None? && dict.entries == Remove(old(dict.entries), k)
      ensures k !in old(dict.entries.store) ==> err == Some(KeyError) && dict.entries == old(dict.entries)
    {
      err := DelItem(k);
    }

    /** `len(item)`: the number of fields, which is also how many names iteration yields. */
    method Len() returns (n: nat)
      requires Valid()
      ensures n == |dict.entries.store| && n == |dict.entries.order|
    {
      LenIsOrderLength(dict.entries);
      n := |dict.entries.store|;
    }

    /** `iter(item)`: the field names, each once, in insertion order. */
    method Iter() returns (ks: seq<Key>)
      requires Valid()
      ensures ks == dict.entries.order
      ensures Distinct(ks) && forall k :: k in ks <==> k in dict.entries.store
    {
      ks := dict.entries.order;
    }

    /** `__getstate__`: to_dict, the store itself. */
    method GetState() returns (state: PyDict)
      ensures state == dict
    {
      state := ToDict();
    }

    /** `__setstate__(state)`: `self.__dict__.update(state)`. */
    method SetState(state: seq<(Key, Val)>)
      requires Valid()
      modifies dict
      ensures Valid() && dict.entries == PutAll(old(dict.entries), state)
    {
      dict.Update(state);
    }
  }

  /**
   * Pickling an item and loading it: `__getstate__` on the original, a new
   * object, then `__setstate__` with the state's items. The copy has every
   * field of the original, in the same order, in a store of its own.
   */
  method PickleRoundTrip(item: ItemBase) returns (copy: ItemBase)
    requires item.Valid()
    ensures fresh(copy) && fresh(copy.dict) && copy.Valid()
    ensures copy.dict.entries == item.dict.entries
  {
    var state := item.GetState();
    copy := new ItemBase();
    copy.SetState(Items(state.entries));
    PutAllItemsOfEmpty(state.entries);
  }

  /** `item[k] = v` then `item[k]` is v; reading a missing key raises KeyError. */
  lemma SetThenGetItem(e: Entries, k: Key, v: Val, x: Key)
    requires WellFormed(e)
    ensures Lookup(Put(e, k, v), k) == Ok(v)
    ensures x != k ==> Lookup(Put(e, k, v), x) == Lookup(e, x)
    ensures x !in e.store ==> Lookup(e, x) == Err(KeyError)
  {
  }
}
