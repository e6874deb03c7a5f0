/**
 * item/item_strict.py: StrictItemBase, an item.py ItemBase whose
 * constructor accepts only the names declared as Field() class attributes.
 */
module StrictItems {
  import opened Common
  import opened Dicts
  import Items

  /** A class attribute as `__new__` sees it: a Field() instance, or anything else. */
  datatype ClassAttr = FieldAttr | OtherAttr(value: Val)

  /** The names of the Field attributes among the class's own attributes, in order. */
  function FieldNames(classDict: seq<(Key, ClassAttr)>): (names: seq<Key>)
    ensures forall k :: k in names <==> exists i :: 0 <= i < |classDict| && classDict[i].0 == k && classDict[i].1.FieldAttr?
  {
    if classDict == [] then []
    else
      var init := classDict[..|classDict| - 1];
      var last := classDict[|classDict| - 1];
      var names := FieldNames(init);
      assert forall i :: 0 <= i < |init| ==> init[i] == classDict[i];
      if last.1.FieldAttr? then names + [last.0] else names
  }

  /**
   * `__init__` from store e on: each argument in turn is checked against
   * the field names and stored; the first name outside them raises.
   */
  function StrictInit(e: Entries, fields: seq<Key>, kwargs: seq<(Key, Val)>): (r: Result<Entries>)
    requires WellFormed(e)
    ensures r.Err? <==> exists i :: 0 <= i < |kwargs| && kwargs[i].0 !in fields
    ensures r.Err? ==> r.error == NotStrictItemField
    ensures r.Ok? ==> r.value == PutAll(e, kwargs)
    decreases |kwargs|
  {
    if kwargs == [] then Ok(e)
    else if kwargs[0].0 !in fields then Err(NotStrictItemField)
    else
      var rest := kwargs[1..];
      assert forall i :: 0 <= i < |rest| ==> rest[i] == kwargs[i + 1];
      StrictInit(Put(e, kwargs[0].0, kwargs[0].1), fields, rest)
  }

  /**
   * A constructor call with allowed names stores each given value under
   * its name and nothing else: declared fields that are not passed stay
   * absent.
   */
  lemma StrictInitStores(fields: seq<Key>, kwargs: seq<(Key, Val)>, k: Key)
    requires DistinctKeys(kwargs)
    requires StrictInit(Empty, fields, kwargs).Ok?
    ensures forall i :: 0 <= i < |kwargs| ==>
              kwargs[i].0 in StrictInit(Empty, fields, kwargs).value.store
              && StrictInit(Empty, fields, kwargs).value.store[kwargs[i].0] == kwargs[i].1
    ensures k in fields && k !in KeysOf(kwargs) ==> k !in StrictInit(Empty, fields, kwargs).value.store
    ensures |StrictInit(Empty, fields, kwargs).value.store| == |kwargs|
  {
    PutAllFreshOrder(Empty, kwargs);
    PutAllFreshStore(Empty, kwargs);
    var e := PutAll(Empty, kwargs);
    LenIsOrderLength(e);
  }

  /** A subclass of StrictItemBase: its own class attributes and the palp_fields list `__new__` rebuilds. */
  class StrictItemClass {
    const classDict: seq<(Key, ClassAttr)>
    var palpFields: seq<Key>

    constructor (classDict: seq<(Key, ClassAttr)>)
      ensures this.classDict == classDict && palpFields == []
    {
      this.classDict := classDict;
      palpFields := [];
    }

    /** `__new__`: collect the Field attribute names, then make an empty instance. */
    method New() returns (item: Items.ItemBase)
      modifies this
      ensures palpFields == FieldNames(classDict)
      ensures fresh(item) && fresh(item.dict) && item.Valid() && item.dict.entries == Empty
    {
      palpFields := [];
      var i := 0;
      while i < |classDict|
        invariant 0 <= i <= |classDict|
        invariant palpFields == FieldNames(classDict[..i])
      {
        assert classDict[..i + 1][..i] == classDict[..i];
        if classDict[i].1.FieldAttr? {
          palpFields := palpFields + [classDict[i].0];
        }
        i := i + 1;
      }
      assert classDict[..i] == classDict;
      item := new Items.ItemBase();
    }

    /** `__init__`: store the arguments one by one, raising at the first name outside palp_fields. */
    method Init(item: Items.ItemBase, kwargs: seq<(Key, Val)>) returns (err: Option<Exc>)
      requires item.Valid()
      modifies item.dict
      ensures item.Valid()
      ensures err.Some? <==> StrictInit(old(item.dict.entries), palpFields, kwargs).Err?
      ensures err.Some? ==> err.value == NotStrictItemField
      ensures err.None? ==> item.dict.entries == StrictInit(old(item.dict.entries), palpFields, kwargs).value
    {
      var i := 0;
      while i < |kwargs|
        invariant 0 <= i <= |kwargs|
        invariant item.Valid()
        invariant forall j :: 0 <= j < i ==> kwargs[j].0 in palpFields
        invariant item.dict.entries == PutAll(old(item.dict.entries), kwargs[..i])
      {
        if kwargs[i].0 !in palpFields {
          assert StrictInit(old(item.dict.entries), palpFields, kwargs).Err? by {
            assert 0 <= i < |kwargs| && kwargs[i].0 !in palpFields;
          }
          return Some(NotStrictItemField);
        }
        PutAllSnoc(old(item.dict.entries), kwargs[..i], kwargs[i]);
        assert kwargs[..i + 1] == kwargs[..i] + [kwargs[i]];
        item.SetItem(kwargs[i].0, kwargs[i].1);
        i := i + 1;
      }
      assert kwargs[..i] == kwargs;
      return None;
    }

    /** `cls(**kwargs)`: `__new__`, then `__init__`. */
    method Call(kwargs: seq<(Key, Val)>) returns (res: Result<Items.ItemBase>)
      modifies this
      ensures palpFields == FieldNames(classDict)
      ensures res.Err? <==> StrictInit(Empty, palpFields, kwargs).Err?
      ensures res.Err? ==> res.error == NotStrictItemField
      ensures res.Ok? ==> fresh(res.value) && res.value.Valid()
                          && res.value.dict.entries == StrictInit(Empty, palpFields, kwargs).value
    {
      var item := New();
      var err := Init(item, kwargs);
      if err.Some? {
        return Err(err.value);
      }
      return Ok(item);
    }
  }
}
