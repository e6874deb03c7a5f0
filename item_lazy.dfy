/**
 * item/item_lazy.py: LazyItem, an item.py Item whose constructor stores
 * every keyword argument under its own name.
 */
module LazyItems {
  import opened Common
  import opened Dicts
  import Items

  /** `LazyItem(**kwargs)`: `self[key] = value` for each argument in turn. */
  method NewLazyItem(kwargs: seq<(Key, Val)>) returns (item: Items.ItemBase)
    ensures fresh(item) && fresh(item.dict) && item.Valid()
    ensures item.dict.entries == PutAll(Empty, kwargs)
  {
    item := new Items.ItemBase();
    var i := 0;
    while i < |kwargs|
      invariant 0 <= i <= |kwargs|
      invariant fresh(item) && fresh(item.dict) && item.Valid()
      invariant item.dict.entries == PutAll(Empty, kwargs[..i])
    {
      PutAllSnoc(Empty, kwargs[..i], kwargs[i]);
      assert kwargs[..i + 1] == kwargs[..i] + [kwargs[i]];
      item.SetItem(kwargs[i].0, kwargs[i].1);
      i := i + 1;
    }
    assert kwargs[..i] == kwargs;
  }

  /**
   * Keyword arguments (distinct names) end up stored under their own names,
   * in order, with their values; the item has as many fields as arguments,
   * and no arguments give an empty item.
   */
  lemma LazyItemStores(kwargs: seq<(Key, Val)>)
    requires DistinctKeys(kwargs)
    ensures PutAll(Empty, kwargs).order == KeysOf(kwargs)
    ensures forall i :: 0 <= i < |kwargs| ==>
              kwargs[i].0 in PutAll(Empty, kwargs).store && PutAll(Empty, kwargs).store[kwargs[i].0] == kwargs[i].1
    ensures |PutAll(Empty, kwargs).store| == |kwargs|
    ensures kwargs == [] ==> PutAll(Empty, kwargs) == Empty
  {
    PutAllFreshOrder(Empty, kwargs);
    PutAllFreshStore(Empty, kwargs);
    LenIsOrderLength(PutAll(Empty, kwargs));
  }
}
