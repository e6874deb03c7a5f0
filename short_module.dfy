/**
 * Module ordering: `sort_module_helper` lists a settings dict's modules
 * by ascending integer key; `sort_module` first places the framework's
 * own modules before (the 'min' group) and after (the 'max' group) the
 * user's, resolving lazily named entries and entries conditional on a
 * setting, then lists the result.
 *
 * A Python dict is modelled as a table: a sequence of distinct keys with
 * their values, in insertion order, since the order of the resolution
 * loop matters when two entries write the same key.
 */
module ShortModules {
  import opened Common

  /** A dict key: an integer index or a name. */
  datatype DKey = IKey(i: int) | SKey(s: string)

  /**
   * A dict value: a module path, an integer index (a lazily resolved
   * entry) or a `[flag, module]` list (an entry conditional on a setting).
   */
  datatype DVal = Path(path: string) | Index(index: int) | Flagged(flag: string, target: string)

  type Table = seq<(DKey, DVal)>

  predicate Distinct(t: Table) {
    forall i, j :: 0 <= i < j < |t| ==> t[i].0 != t[j].0
  }

  /** Where key k is in the table, |t| when it is absent. */
  function IndexOf(t: Table, k: DKey): (r: nat)
    ensures r <= |t| && (r < |t| ==> t[r].0 == k)
    ensures forall j :: 0 <= j < r ==> t[j].0 != k
  {
    if t == [] then 0 else if t[0].0 == k then 0 else 1 + IndexOf(t[1..], k)
  }

  /** `d.get(k)` */
  function Lookup(t: Table, k: DKey): Option<DVal> {
    var i := IndexOf(t, k);
    if i < |t| then Some(t[i].1) else None
  }

  /** `d[k] = v`: an existing key keeps its place, a new one goes last. */
  function SetKey(t: Table, k: DKey, v: DVal): Table {
    var i := IndexOf(t, k);
    if i < |t| then t[i := (k, v)] else t + [(k, v)]
  }

  /** `del d[k]` on a present key. */
  function DelKey(t: Table, k: DKey): Table {
    var i := IndexOf(t, k);
    if i < |t| then t[..i] + t[i + 1..] else t
  }

  /** A key is found exactly where it is stored. */
  lemma LookupAt(t: Table, j: nat)
    requires Distinct(t) && j < |t|
    ensures Lookup(t, t[j].0) == Some(t[j].1)
  {
    var i := IndexOf(t, t[j].0);
    assert i == j;
  }

  /** A key that is not stored is not found. */
  lemma LookupAbsent(t: Table, k: DKey)
    requires forall j :: 0 <= j < |t| ==> t[j].0 != k
    ensures Lookup(t, k).None?
  {
  }

  /** After `d[k] = v`, k holds v, every other key is as it was, and keys stay distinct. */
  lemma SetKeyLookup(t: Table, k: DKey, v: DVal, other: DKey)
    requires Distinct(t)
    ensures Distinct(SetKey(t, k, v))
    ensures Lookup(SetKey(t, k, v), other) == if other == k then Some(v) else Lookup(t, other)
  {
    var s := SetKey(t, k, v);
    var i := IndexOf(t, k);
    assert forall j :: 0 <= j < |t| ==> s[j].0 == t[j].0;
    if other == k {
      LookupAt(s, i);
    } else {
      var o := IndexOf(t, other);
      if o < |t| {
        LookupAt(t, o);
        LookupAt(s, o);
      } else {
        LookupAbsent(s, other);
      }
    }
  }

  /** After `del d[k]`, k is absent, every other key is as it was, and keys stay distinct. */
  lemma DelKeyLookup(t: Table, k: DKey, other: DKey)
    requires Distinct(t)
    ensures Distinct(DelKey(t, k))
    ensures Lookup(DelKey(t, k), other) == if other == k then None else Lookup(t, other)
  {
    var s := DelKey(t, k);
    var i := IndexOf(t, k);
    if i < |t| {
      assert forall j :: 0 <= j < i ==> s[j] == t[j];
      assert forall j :: i <= j < |s| ==> s[j] == t[j + 1];
      if other == k {
        LookupAbsent(s, other);
      } else {
        var o := IndexOf(t, other);
        if o < |t| {
          LookupAt(t, o);
          LookupAt(s, if o < i then o else o - 1);
        } else {
          LookupAbsent(s, other);
        }
      }
    }
  }

  /** The integer keys, in table order. */
  function IntKeys(t: Table): seq<int> {
    if t == [] then [] else (if t[0].0.IKey? then [t[0].0.i] else []) + IntKeys(t[1..])
  }

  /** An integer is listed exactly when it is a key, and no key is listed twice. */
  lemma {:induction false} IntKeysAre(t: Table)
    requires Distinct(t)
    ensures forall x :: x in IntKeys(t) <==> Lookup(t, IKey(x)).Some?
    ensures NoDuplicates(IntKeys(t))
  {
    if t != [] {
      var rest := t[1..];
      assert Distinct(rest);
      IntKeysAre(rest);
      forall x ensures x in IntKeys(t) <==> Lookup(t, IKey(x)).Some? {
        if t[0].0 == IKey(x) {
          LookupAt(t, 0);
        } else {
          assert Lookup(t, IKey(x)) == Lookup(rest, IKey(x));
        }
      }
      if t[0].0.IKey? {
        var x := t[0].0.i;
        forall j | 0 <= j < |rest| ensures rest[j].0 != IKey(x) {
          assert rest[j] == t[j + 1];
        }
        LookupAbsent(rest, IKey(x));
        assert x !in IntKeys(rest);
      }
    }
  }

  predicate NoDuplicates(s: seq<int>) {
    forall i, j :: 0 <= i < j < |s| ==> s[i] != s[j]
  }

  predicate Increasing(s: seq<int>) {
    forall i, j :: 0 <= i < j < |s| ==> s[i] < s[j]
  }

  /** Insertion into an ascending list. */
  function Insert(x: int, s: seq<int>): seq<int> {
    if s == [] || x <= s[0] then [x] + s else [s[0]] + Insert(x, s[1..])
  }

  /** `sorted(ks)` */
  function Ascending(ks: seq<int>): seq<int> {
    if ks == [] then [] else Insert(ks[0], Ascending(ks[1..]))
  }

  /** Inserting a new integer into an increasing list keeps it increasing, with x added. */
  lemma {:induction false} InsertIncreasing(x: int, s: seq<int>)
    requires Increasing(s) && x !in s
    ensures Increasing(Insert(x, s))
    ensures forall y :: y in Insert(x, s) <==> y == x || y in s
  {
    if s != [] && x > s[0] {
      var tail := s[1..];
      assert Increasing(tail);
      InsertIncreasing(x, tail);
      var r := Insert(x, tail);
      assert forall y :: y in tail ==> s[0] < y;
      assert forall y :: y in r ==> s[0] < y;
      var ins := [s[0]] + r;
      assert Insert(x, s) == ins;
      forall i, j | 0 <= i < j < |ins| ensures ins[i] < ins[j] {
        assert ins[j] == r[j - 1] && ins[j] in r;
        if i > 0 { assert ins[i] == r[i - 1]; }
      }
      assert s == [s[0]] + tail;
    } else {
      assert s != [] ==> s[0] in s && x < s[0];
      assert Insert(x, s) == [x] + s;
    }
  }

  /** sorted() of distinct integers is increasing and holds the same integers. */
  lemma {:induction false} AscendingIncreasing(ks: seq<int>)
    requires NoDuplicates(ks)
    ensures Increasing(Ascending(ks))
    ensures forall y :: y in Ascending(ks) <==> y in ks
  {
    if ks != [] {
      var rest := ks[1..];
      assert forall j :: 0 <= j < |rest| ==> rest[j] == ks[j + 1];
      assert NoDuplicates(rest) && ks[0] !in rest;
      AscendingIncreasing(rest);
      InsertIncreasing(ks[0], Ascending(rest));
      assert ks == [ks[0]] + rest;
    }
  }

  /** Two increasing lists of the same integers are equal. */
  lemma {:induction false} IncreasingUnique(a: seq<int>, b: seq<int>)
    requires Increasing(a) && Increasing(b)
    requires forall x :: x in a <==> x in b
    ensures a == b
    decreases |a| + |b|
  {
    if a != [] || b != [] {
      assert (a != [] ==> a[0] in a && a[0] in b) && (b != [] ==> b[0] in b && b[0] in a);
      assert a[0] in b && b[0] in a;
      assert a[0] == b[0];
      forall y ensures y in a[1..] <==> y in b[1..] {
        if y in a[1..] { assert y in b && y != b[0]; }
        if y in b[1..] { assert y in a && y != a[0]; }
      }
      IncreasingUnique(a[1..], b[1..]);
      assert a == [a[0]] + a[1..] && b == [b[0]] + b[1..];
    }
  }

  /** The values at the given integer keys, in that order (keys all present). */
  function ValuesAt(t: Table, ks: seq<int>): seq<DVal> {
    if ks == [] then []
    else (match Lookup(t, IKey(ks[0])) case Some(v) => [v] case None => []) + ValuesAt(t, ks[1..])
  }

  /** sort_module_helper(d): the modules at the integer keys, by ascending key. */
  function Helper(t: Table): seq<DVal> {
    ValuesAt(t, Ascending(IntKeys(t)))
  }

  lemma {:induction false} ValuesAtAppend(t: Table, a: seq<int>, b: seq<int>)
    ensures ValuesAt(t, a + b) == ValuesAt(t, a) + ValuesAt(t, b)
    decreases |a|
  {
    if a != [] {
      ValuesAtAppend(t, a[1..], b);
      assert (a + b)[0] == a[0] && (a + b)[1..] == a[1..] + b;
    } else {
      assert a + b == b;
    }
  }

  /** Looking up keys present in one table gives their values. */
  lemma {:induction false} ValuesAtPresent(t: Table, ks: seq<int>)
    requires forall x :: x in ks ==> Lookup(t, IKey(x)).Some?
    ensures |ValuesAt(t, ks)| == |ks|
    ensures forall i :: 0 <= i < |ks| ==> Lookup(t, IKey(ks[i])) == Some(ValuesAt(t, ks)[i])
  {
    if ks != [] {
      ValuesAtPresent(t, ks[1..]);
    }
  }

  /** Two tables that agree on the given keys list the same values for them. */
  lemma {:induction false} ValuesAtAgree(t: Table, u: Table, ks: seq<int>)
    requires forall x :: x in ks ==> Lookup(t, IKey(x)) == Lookup(u, IKey(x))
    ensures ValuesAt(t, ks) == ValuesAt(u, ks)
  {
    if ks != [] {
      ValuesAtAgree(t, u, ks[1..]);
    }
  }

  /**
   * sort_module_helper lists exactly the values of the integer keys, in
   * ascending key order: against any increasing list of exactly those
   * keys, entry i is the value at the i-th key. Name keys are ignored.
   */
  lemma HelperOrder(t: Table, ks: seq<int>)
    requires Distinct(t) && Increasing(ks)
    requires forall x :: x in ks <==> Lookup(t, IKey(x)).Some?
    ensures |Helper(t)| == |ks|
    ensures forall i :: 0 <= i < |ks| ==> Lookup(t, IKey(ks[i])) == Some(Helper(t)[i])
  {
    IntKeysAre(t);
    AscendingIncreasing(IntKeys(t));
    var asc := Ascending(IntKeys(t));
    IncreasingUnique(asc, ks);
    ValuesAtPresent(t, ks);
  }

  // ---------------------------------------------------------------- resolution

  /** A name key with an integer index: resolved through cls_mapping. */
  predicate LazyEntry(e: (DKey, DVal)) {
    e.0.SKey? && e.1.Index?
  }

  ghost predicate HasLazy(t: Table) {
    exists j :: 0 <= j < |t| && LazyEntry(t[j])
  }

  /**
   * One entry (k, v) of the copied group, applied to the group `cur`:
   * a lazy entry found in the mapping writes the mapped module at its
   * index and deletes its own key (`module in None` is a TypeError); a
   * `[flag, module]` entry whose flag is a setting keeps the module at its
   * key when the setting is truthy and is deleted otherwise; any other
   * entry is left alone.
   */
  function ResolveEntry(cur: Table, k: DKey, v: DVal, mapping: Option<map<string, string>>,
                        settings: map<string, Val>): Result<Table>
  {
    if k.SKey? && v.Index? then
      if mapping.None? then Err(TypeError)
      else if k.s in mapping.value then Ok(DelKey(SetKey(cur, IKey(v.index), Path(mapping.value[k.s])), k))
      else Ok(cur)
    else if v.Flagged? && v.flag in settings then
      if Truthy(settings[v.flag]) then Ok(SetKey(cur, k, Path(v.target))) else Ok(DelKey(cur, k))
    else Ok(cur)
  }

  /** What one entry does to the group, key by key. */
  lemma ResolveEntryEffect(cur: Table, k: DKey, v: DVal, mapping: Option<map<string, string>>,
                           settings: map<string, Val>, other: DKey)
    requires Distinct(cur)
    ensures var r := ResolveEntry(cur, k, v, mapping, settings);
            (r.Err? <==> k.SKey? && v.Index? && mapping.None?) && (r.Err? ==> r.error == TypeError)
            && (r.Ok? ==> Distinct(r.value))
            && (r.Ok? && k.SKey? && v.Index? && k.s in mapping.value ==>
                  Lookup(r.value, other) == if other == IKey(v.index) then Some(Path(mapping.value[k.s]))
                                            else if other == k then None
                                            else Lookup(cur, other))
            && (v.Flagged? && v.flag in settings ==>
                  Lookup(r.value, other) == if other != k then Lookup(cur, other)
                                            else if Truthy(settings[v.flag]) then Some(Path(v.target))
                                            else None)
            && (!(k.SKey? && v.Index?) && !(v.Flagged? && v.flag in settings) ==> r.value == cur)
            && (r.Ok? && k.SKey? && v.Index? && k.s !in mapping.value ==> r.value == cur)
  {
    if k.SKey? && v.Index? && mapping.Some? && k.s in mapping.value {
      var written := SetKey(cur, IKey(v.index), Path(mapping.value[k.s]));
      SetKeyLookup(cur, IKey(v.index), Path(mapping.value[k.s]), other);
      DelKeyLookup(written, k, other);
    } else if !(k.SKey? && v.Index?) && v.Flagged? && v.flag in settings {
      SetKeyLookup(cur, k, Path(v.target), other);
      DelKeyLookup(cur, k, other);
    }
  }

  /**
   * The loop over a copy of a group's entries: the group reached and the
   * exception that stopped the loop, if any.
   */
  function ResolveFrom(snapshot: Table, cur: Table, mapping: Option<map<string, string>>,
                       settings: map<string, Val>): (Table, Option<Exc>)
    decreases |snapshot|
  {
    if snapshot == [] then (cur, None)
    else
      match ResolveEntry(cur, snapshot[0].0, snapshot[0].1, mapping, settings)
      case Err(e) => (cur, Some(e))
      case Ok(next) => ResolveFrom(snapshot[1..], next, mapping, settings)
  }

  /**
   * Resolving a group fails, with TypeError, exactly when no mapping is
   * given and the group has a lazy entry; the group's keys stay distinct.
   */
  lemma {:induction false} ResolveFromError(snapshot: Table, cur: Table, mapping: Option<map<string, string>>,
                                            settings: map<string, Val>)
    requires Distinct(cur)
    ensures var r := ResolveFrom(snapshot, cur, mapping, settings);
            Distinct(r.0)
            && (r.1.Some? <==> mapping.None? && HasLazy(snapshot))
            && (r.1.Some? ==> r.1.value == TypeError)
    decreases |snapshot|
  {
    if snapshot != [] {
      var e := snapshot[0];
      ResolveEntryEffect(cur, e.0, e.1, mapping, settings, e.0);
      var step := ResolveEntry(cur, e.0, e.1, mapping, settings);
      if step.Ok? {
        ResolveFromError(snapshot[1..], step.value, mapping, settings);
        assert forall j :: 0 <= j < |snapshot[1..]| ==> snapshot[1..][j] == snapshot[j + 1];
        if HasLazy(snapshot) && !LazyEntry(e) {
          var j :| 0 <= j < |snapshot| && LazyEntry(snapshot[j]);
          assert LazyEntry(snapshot[1..][j - 1]);
        }
      } else {
        assert LazyEntry(snapshot[0]);
      }
    }
  }

  // ---------------------------------------------------------------- placement

  predicate AllInt(t: Table) {
    forall j :: 0 <= j < |t| ==> t[j].0.IKey?
  }

  /** `min(keys)` and `max(keys)` of a non-empty dict, 0 and 0 for an empty one. */
  function Bounds(t: Table): (int, int) {
    var ks := Ascending(IntKeys(t));
    if t == [] || ks == [] then (0, 0) else (ks[0], ks[|ks| - 1])
  }

  /**
   * An empty dict gives 0 and 0; otherwise both bounds are keys and every
   * key lies between them.
   */
  lemma BoundsEnclose(t: Table)
    requires Distinct(t) && AllInt(t)
    ensures var (lo, hi) := Bounds(t);
            (t == [] ==> lo == 0 && hi == 0)
            && lo <= hi
            && (t != [] ==> Lookup(t, IKey(lo)).Some? && Lookup(t, IKey(hi)).Some?)
            && forall x :: Lookup(t, IKey(x)).Some? ==> lo <= x <= hi
  {
    IntKeysAre(t);
    AscendingIncreasing(IntKeys(t));
    var ks := Ascending(IntKeys(t));
    if t != [] {
      LookupAt(t, 0);
      assert t[0].0 == IKey(t[0].0.i);
      assert t[0].0.i in ks;
      forall x | x in ks ensures ks[0] <= x <= ks[|ks| - 1] {
        var j :| 0 <= j < |ks| && ks[j] == x;
      }
    }
  }

  /** `for i, m in enumerate(vals): d[start + i] = m` */
  function Place(t: Table, vals: seq<DVal>, start: int): Table
    decreases |vals|
  {
    if vals == [] then t
    else SetKey(Place(t, vals[..|vals| - 1], start), IKey(start + |vals| - 1), vals[|vals| - 1])
  }

  /** After placing, keys start.. hold the values in order; every other key is as it was. */
  lemma {:induction false} PlaceLookup(t: Table, vals: seq<DVal>, start: int, k: DKey)
    requires Distinct(t)
    ensures Distinct(Place(t, vals, start))
    ensures Lookup(Place(t, vals, start), k) ==
              if k.IKey? && start <= k.i < start + |vals| then Some(vals[k.i - start]) else Lookup(t, k)
    decreases |vals|
  {
    if vals != [] {
      var init := vals[..|vals| - 1];
      PlaceLookup(t, init, start, k);
      SetKeyLookup(Place(t, init, start), IKey(start + |vals| - 1), vals[|vals| - 1], k);
    }
  }

  /**
   * sort_module: the listed modules and the dicts as they are left. With
   * the framework's groups, both groups are resolved ('min' first), the
   * 'min' group's modules are placed just below the smallest user key and
   * the 'max' group's just above the largest.
   */
  function SortModuleSpec(cls: Table, palp: Option<(Table, Table)>, mapping: Option<map<string, string>>,
                          settings: map<string, Val>): (Result<seq<DVal>>, Table, Option<(Table, Table)>)
  {
    if palp.None? then (Ok(Helper(cls)), cls, None)
    else
      var (minR, e1) := ResolveFrom(palp.value.0, palp.value.0, mapping, settings);
      if e1.Some? then (Err(e1.value), cls, Some((minR, palp.value.1)))
      else
        var (maxR, e2) := ResolveFrom(palp.value.1, palp.value.1, mapping, settings);
        if e2.Some? then (Err(e2.value), cls, Some((minR, maxR)))
        else
          var placed := PlaceGroups(cls, minR, maxR);
          (Ok(Helper(placed)), placed, Some((minR, maxR)))
  }

  /** The user's dict with the resolved groups' modules placed below and above its keys. */
  function PlaceGroups(cls: Table, minR: Table, maxR: Table): Table {
    var mins := Helper(minR);
    Place(Place(cls, mins, Bounds(cls).0 - |mins|), Helper(maxR), Bounds(cls).1 + 1)
  }

  function Range(a: int, n: nat): (r: seq<int>)
    ensures |r| == n && forall i :: 0 <= i < n ==> r[i] == a + i
  {
    seq(n, i => a + i)
  }

  /** Where the groups' modules land: keys below lo for 'min', above hi for 'max'. */
  lemma PlacedLookup(cls: Table, mins: seq<DVal>, maxs: seq<DVal>, lo: int, hi: int, x: int)
    requires Distinct(cls) && lo <= hi
    ensures var placed := Place(Place(cls, mins, lo - |mins|), maxs, hi + 1);
            Distinct(placed)
            && Lookup(placed, IKey(x)) == if lo - |mins| <= x < lo then Some(mins[x - (lo - |mins|)])
                                          else if hi + 1 <= x < hi + 1 + |maxs| then Some(maxs[x - (hi + 1)])
                                          else Lookup(cls, IKey(x))
  {
    PlaceLookup(cls, mins, lo - |mins|, IKey(x));
    PlaceLookup(Place(cls, mins, lo - |mins|), maxs, hi + 1, IKey(x));
  }

  /** A range below lo, an increasing list within [lo, hi] and a range above hi make an increasing list. */
  lemma RangesIncreasing(a: seq<int>, b: seq<int>, c: seq<int>, lo: int, hi: int)
    requires a == Range(lo - |a|, |a|) && c == Range(hi + 1, |c|) && lo <= hi
    requires Increasing(b) && forall y :: y in b ==> lo <= y <= hi
    ensures Increasing(a + b + c)
  {
    var ks := a + b + c;
    forall i, j | 0 <= i < j < |ks| ensures ks[i] < ks[j] {
      if j < |a| {
        assert ks[i] == a[i] && ks[j] == a[j];
      } else if j < |a| + |b| {
        assert ks[j] == b[j - |a|] && ks[j] in b;
        if i >= |a| { assert ks[i] == b[i - |a|]; } else { assert ks[i] == a[i]; }
      } else {
        assert ks[j] == c[j - |a| - |b|];
        if i >= |a| + |b| {
          assert ks[i] == c[i - |a| - |b|];
        } else if i >= |a| {
          assert ks[i] == b[i - |a|] && ks[i] in b;
        } else {
          assert ks[i] == a[i];
        }
      }
    }
  }

  /** The user's keys, ascending, lie between the bounds. */
  lemma UserKeys(cls: Table)
    requires Distinct(cls) && AllInt(cls)
    ensures var b := Ascending(IntKeys(cls));
            Increasing(b)
            && (forall y :: y in b ==> Bounds(cls).0 <= y <= Bounds(cls).1)
            && (forall x :: x in b <==> Lookup(cls, IKey(x)).Some?)
            && Bounds(cls).0 <= Bounds(cls).1
  {
    BoundsEnclose(cls);
    IntKeysAre(cls);
    AscendingIncreasing(IntKeys(cls));
  }

  /** The closed form of PlacedLookup, for a dict given by its lookups. */
  ghost predicate PlacedAs(placed: Table, cls: Table, mins: seq<DVal>, maxs: seq<DVal>, lo: int, hi: int) {
    forall x :: Lookup(placed, IKey(x)) == if lo - |mins| <= x < lo then Some(mins[x - (lo - |mins|)])
                                           else if hi + 1 <= x < hi + 1 + |maxs| then Some(maxs[x - (hi + 1)])
                                           else Lookup(cls, IKey(x))
  }

  /** PlacedLookup for every key. */
  lemma PlacedLookupAll(cls: Table, mins: seq<DVal>, maxs: seq<DVal>, lo: int, hi: int)
    requires Distinct(cls) && lo <= hi
    ensures PlacedAs(Place(Place(cls, mins, lo - |mins|), maxs, hi + 1), cls, mins, maxs, lo, hi)
  {
    forall x ensures Lookup(Place(Place(cls, mins, lo - |mins|), maxs, hi + 1), IKey(x)) ==
                       if lo - |mins| <= x < lo then Some(mins[x - (lo - |mins|)])
                       else if hi + 1 <= x < hi + 1 + |maxs| then Some(maxs[x - (hi + 1)])
                       else Lookup(cls, IKey(x)) {
      PlacedLookup(cls, mins, maxs, lo, hi, x);
    }
  }

  /** The placed dict's integer keys are the 'min' range, the user's keys and the 'max' range. */
  lemma PlacedMembers(placed: Table, cls: Table, mins: seq<DVal>, maxs: seq<DVal>, lo: int, hi: int,
                      a: seq<int>, b: seq<int>, c: seq<int>)
    requires PlacedAs(placed, cls, mins, maxs, lo, hi) && lo <= hi
    requires a == Range(lo - |mins|, |mins|) && c == Range(hi + 1, |maxs|)
    requires forall x :: x in b <==> Lookup(cls, IKey(x)).Some?
    requires forall y :: y in b ==> lo <= y <= hi
    ensures forall x :: x in a + b + c <==> Lookup(placed, IKey(x)).Some?
  {
    forall x ensures x in a + b + c <==> Lookup(placed, IKey(x)).Some? {
      if lo - |mins| <= x < lo {
        assert a[x - (lo - |mins|)] == x;
      } else if hi + 1 <= x < hi + 1 + |maxs| {
        assert c[x - (hi + 1)] == x;
      } else {
        assert x !in a && x !in c;
      }
    }
  }

  /** Reading the placed dict along the ranges and the user's keys gives the three lists in order. */
  lemma PlacedValues(placed: Table, cls: Table, mins: seq<DVal>, maxs: seq<DVal>, lo: int, hi: int,
                     a: seq<int>, b: seq<int>, c: seq<int>, out: seq<DVal>, users: seq<DVal>)
    requires PlacedAs(placed, cls, mins, maxs, lo, hi) && lo <= hi
    requires a == Range(lo - |mins|, |mins|) && c == Range(hi + 1, |maxs|)
    requires forall y :: y in b ==> lo <= y <= hi
    requires |out| == |a + b + c|
    requires forall i :: 0 <= i < |out| ==> Lookup(placed, IKey((a + b + c)[i])) == Some(out[i])
    requires |users| == |b| && forall j :: 0 <= j < |b| ==> Lookup(cls, IKey(b[j])) == Some(users[j])
    ensures out == mins + users + maxs
  {
    var ks := a + b + c;
    var want := mins + users + maxs;
    forall i | 0 <= i < |out| ensures out[i] == want[i] {
      if i < |a| {
        assert ks[i] == a[i] == lo - |mins| + i;
      } else if i < |a| + |b| {
        assert ks[i] == b[i - |a|] && ks[i] in b;
      } else {
        assert ks[i] == c[i - |a| - |b|] == hi + 1 + (i - |a| - |b|);
      }
    }
  }

  /** PlacedHelper for any dict placed as described around bounds that enclose the user's keys. */
  lemma PlacedHelperAt(placed: Table, cls: Table, mins: seq<DVal>, maxs: seq<DVal>, lo: int, hi: int)
    requires Distinct(cls) && Distinct(placed) && lo <= hi
    requires PlacedAs(placed, cls, mins, maxs, lo, hi)
    requires forall x :: Lookup(cls, IKey(x)).Some? ==> lo <= x <= hi
    ensures Helper(placed) == mins + Helper(cls) + maxs
  {
    var a := Range(lo - |mins|, |mins|);
    var b := Ascending(IntKeys(cls));
    var c := Range(hi + 1, |maxs|);
    IntKeysAre(cls);
    AscendingIncreasing(IntKeys(cls));
    RangesIncreasing(a, b, c, lo, hi);
    PlacedMembers(placed, cls, mins, maxs, lo, hi, a, b, c);
    HelperOrder(placed, a + b + c);
    HelperOrder(cls, b);
    PlacedValues(placed, cls, mins, maxs, lo, hi, a, b, c, Helper(placed), Helper(cls));
  }

  /**
   * Listing the dict after both placements gives the 'min' modules, the
   * user's modules and the 'max' modules, in that order.
   */
  lemma PlacedHelper(cls: Table, mins: seq<DVal>, maxs: seq<DVal>, lo: int, hi: int)
    requires Distinct(cls) && AllInt(cls) && lo == Bounds(cls).0 && hi == Bounds(cls).1
    ensures Helper(Place(Place(cls, mins, lo - |mins|), maxs, hi + 1)) == mins + Helper(cls) + maxs
  {
    BoundsEnclose(cls);
    PlacedLookup(cls, mins, maxs, lo, hi, 0);
    PlacedLookupAll(cls, mins, maxs, lo, hi);
    PlacedHelperAt(Place(Place(cls, mins, lo - |mins|), maxs, hi + 1), cls, mins, maxs, lo, hi);
  }

  /** PlacedHelper for the resolved groups. */
  lemma PlaceGroupsHelper(cls: Table, minR: Table, maxR: Table)
    requires Distinct(cls) && AllInt(cls)
    ensures Helper(PlaceGroups(cls, minR, maxR)) == Helper(minR) + Helper(cls) + Helper(maxR)
  {
    var mins, maxs := Helper(minR), Helper(maxR);
    var lo, hi := Bounds(cls).0, Bounds(cls).1;
    var placed := Place(Place(cls, mins, lo - |mins|), maxs, hi + 1);
    assert PlaceGroups(cls, minR, maxR) == placed;
    PlacedHelper(cls, mins, maxs, lo, hi);
  }

  /**
   * The modules come out as the 'min' group's (in its own order), then
   * the user's, then the 'max' group's: the groups' modules go below and
   * above every user key, so none of the user's is overwritten. Without
   * the groups the result is the user's dict listed as it is.
   */
  lemma SortModuleOrder(cls: Table, palp: Option<(Table, Table)>, mapping: Option<map<string, string>>,
                        settings: map<string, Val>)
    requires Distinct(cls)
    requires palp.Some? ==> AllInt(cls)
    ensures var (r, _, groups) := SortModuleSpec(cls, palp, mapping, settings);
            (palp.None? ==> r == Ok(Helper(cls)))
            && (palp.Some? && r.Ok? ==> r.value == Helper(groups.value.0) + Helper(cls) + Helper(groups.value.1))
  {
    if palp.Some? {
      var minR := ResolveFrom(palp.value.0, palp.value.0, mapping, settings).0;
      var maxR := ResolveFrom(palp.value.1, palp.value.1, mapping, settings).0;
      PlaceGroupsHelper(cls, minR, maxR);
    }
  }

  // ---------------------------------------------------------------- the dicts in place

  /** A settings dict, updated in place by sort_module; its keys are distinct. */
  class Dict {
    var entries: Table

    constructor (t: Table)
      requires Distinct(t)
      ensures entries == t
    {
      entries := t;
    }

    /** `d[k] = v` */
    method Set(k: DKey, v: DVal)
      requires Distinct(entries)
      modifies this
      ensures entries == SetKey(old(entries), k, v) && Distinct(entries)
    {
      SetKeyLookup(entries, k, v, k);
      entries := SetKey(entries, k, v);
    }

    /** `del d[k]`, which needs k to be present. */
    method Del(k: DKey)
      requires Distinct(entries) && Lookup(entries, k).Some?
      modifies this
      ensures entries == DelKey(old(entries), k) && Distinct(entries)
    {
      DelKeyLookup(entries, k, k);
      entries := DelKey(entries, k);
    }
  }

  /** sort_module_helper(d), as its loop over the sorted integer keys. */
  method SortModuleHelper(d: Dict) returns (modules: seq<DVal>)
    requires Distinct(d.entries)
    ensures modules == Helper(d.entries)
  {
    var t := d.entries;
    IntKeysAre(t);
    AscendingIncreasing(IntKeys(t));
    var ks := Ascending(IntKeys(t));
    modules := [];
    var i := 0;
    while i < |ks|
      invariant i <= |ks|
      invariant modules == ValuesAt(t, ks[..i])
    {
      assert ks[i] in ks;
      var v := Lookup(t, IKey(ks[i]));
      ValuesAtAppend(t, ks[..i], [ks[i]]);
      assert ks[..i + 1] == ks[..i] + [ks[i]];
      assert ValuesAt(t, [ks[i]]) == [v.value] by { assert [ks[i]][1..] == []; }
      modules := modules + [v.value];
      i := i + 1;
    }
    assert ks[..i] == ks;
  }

  /** ResolveFrom, one entry at a time. */
  lemma ResolveFromAt(snapshot: Table, i: nat, cur: Table, mapping: Option<map<string, string>>,
                      settings: map<string, Val>)
    requires i < |snapshot|
    ensures ResolveFrom(snapshot[i..], cur, mapping, settings) ==
              match ResolveEntry(cur, snapshot[i].0, snapshot[i].1, mapping, settings)
              case Err(e) => (cur, Some(e))
              case Ok(next) => ResolveFrom(snapshot[i + 1..], next, mapping, settings)
  {
    assert snapshot[i..][0] == snapshot[i] && snapshot[i..][1..] == snapshot[i + 1..];
  }

  /** Resolving entry i leaves the keys of the later entries in the group. */
  lemma KeepsLaterKeys(snapshot: Table, i: nat, cur: Table, mapping: Option<map<string, string>>,
                       settings: map<string, Val>)
    requires Distinct(snapshot) && Distinct(cur) && i < |snapshot|
    requires forall j :: i <= j < |snapshot| ==> Lookup(cur, snapshot[j].0).Some?
    ensures var r := ResolveEntry(cur, snapshot[i].0, snapshot[i].1, mapping, settings);
            r.Ok? ==> forall j :: i < j < |snapshot| ==> Lookup(r.value, snapshot[j].0).Some?
  {
    var r := ResolveEntry(cur, snapshot[i].0, snapshot[i].1, mapping, settings);
    forall j | i < j < |snapshot| && r.Ok? ensures Lookup(r.value, snapshot[j].0).Some? {
      ResolveEntryEffect(cur, snapshot[i].0, snapshot[i].1, mapping, settings, snapshot[j].0);
    }
  }

  /**
   * The resolution loop of one group over a deep copy of its entries:
   * the group is changed as ResolveFrom says and the exception raised, if
   * any, is returned. The `del` of an entry's own key never misses, since
   * the key of every entry not yet visited is still in the group.
   */
  method ResolveGroup(group: Dict, mapping: Option<map<string, string>>, settings: map<string, Val>)
      returns (err: Option<Exc>)
    requires Distinct(group.entries)
    modifies group
    ensures (group.entries, err) == ResolveFrom(old(group.entries), old(group.entries), mapping, settings)
    ensures Distinct(group.entries)
  {
    var snapshot := group.entries;
    var i := 0;
    while i < |snapshot|
      invariant i <= |snapshot| && Distinct(group.entries)
      invariant ResolveFrom(snapshot[i..], group.entries, mapping, settings) == ResolveFrom(snapshot, snapshot, mapping, settings)
      invariant forall j :: i <= j < |snapshot| ==> Lookup(group.entries, snapshot[j].0).Some?
    {
      var (k, v) := snapshot[i];
      ResolveFromAt(snapshot, i, group.entries, mapping, settings);
      KeepsLaterKeys(snapshot, i, group.entries, mapping, settings);
      if k.SKey? && v.Index? {
        if mapping.None? {
          err := Some(TypeError);
          return;
        }
        if k.s in mapping.value {
          SetKeyLookup(group.entries, IKey(v.index), Path(mapping.value[k.s]), k);
          group.Set(IKey(v.index), Path(mapping.value[k.s]));
          group.Del(k);
        }
      } else if v.Flagged? && v.flag in settings {
        if Truthy(settings[v.flag]) {
          group.Set(k, Path(v.target));
        } else {
          group.Del(k);
        }
      }
      i := i + 1;
    }
    err := None;
  }

  /** PlaceGroups, with the bounds and the groups' lists named. */
  lemma PlaceGroupsIs(cls: Table, minR: Table, maxR: Table, lo: int, hi: int)
    requires lo == Bounds(cls).0 && hi == Bounds(cls).1
    ensures PlaceGroups(cls, minR, maxR) == Place(Place(cls, Helper(minR), lo - |Helper(minR)|), Helper(maxR), hi + 1)
  {
  }

  /** `for index, m in enumerate(vals): d[start + index] = m` */
  method PlaceAll(d: Dict, vals: seq<DVal>, start: int)
    requires Distinct(d.entries)
    modifies d
    ensures d.entries == Place(old(d.entries), vals, start) && Distinct(d.entries)
  {
    var i := 0;
    while i < |vals|
      invariant i <= |vals| && Distinct(d.entries)
      invariant d.entries == Place(old(d.entries), vals[..i], start)
    {
      assert vals[..i + 1][..i] == vals[..i];
      d.Set(IKey(start + i), vals[i]);
      i := i + 1;
    }
    assert vals[..i] == vals;
  }

  /**
   * sort_module(cls_dict, palp_cls_dict, cls_mapping): the groups, when
   * given, are resolved in place ('min' first, stopping at the first
   * exception), their modules are placed into cls_dict and cls_dict is
   * listed; the result and every dict's new contents are those of
   * SortModuleSpec.
   */
  method SortModule(cls: Dict, palp: Option<(Dict, Dict)>, mapping: Option<map<string, string>>,
                    settings: map<string, Val>) returns (r: Result<seq<DVal>>)
    requires Distinct(cls.entries)
    requires palp.Some? ==> AllInt(cls.entries)
                            && Distinct(palp.value.0.entries) && Distinct(palp.value.1.entries)
                            && cls != palp.value.0 && cls != palp.value.1 && palp.value.0 != palp.value.1
    modifies {cls} + (if palp.Some? then {palp.value.0, palp.value.1} else {})
    ensures var (sr, st, sg) := SortModuleSpec(old(cls.entries),
                                               if palp.Some? then Some((old(palp.value.0.entries), old(palp.value.1.entries))) else None,
                                               mapping, settings);
            r == sr && cls.entries == st
            && (palp.Some? ==> sg == Some((palp.value.0.entries, palp.value.1.entries)))
  {
    if palp.None? {
      var modules := SortModuleHelper(cls);
      return Ok(modules);
    }
    var (minD, maxD) := palp.value;
    ghost var cls0 := cls.entries;
    var lo, hi := Bounds(cls.entries).0, Bounds(cls.entries).1;
    var e1 := ResolveGroup(minD, mapping, settings);
    if e1.Some? {
      return Err(e1.value);
    }
    var e2 := ResolveGroup(maxD, mapping, settings);
    if e2.Some? {
      return Err(e2.value);
    }
    ghost var minR, maxR := minD.entries, maxD.entries;
    var mins := SortModuleHelper(minD);
    PlaceAll(cls, mins, lo - |mins|);
    ghost var mid := cls.entries;
    assert maxD.entries == maxR;
    var maxs := SortModuleHelper(maxD);
    PlaceAll(cls, maxs, hi + 1);
    assert cls.entries == Place(mid, maxs, hi + 1);
    PlaceGroupsIs(cls0, minR, maxR, lo, hi);
    var modules := SortModuleHelper(cls);
    r := Ok(modules);
  }
}
