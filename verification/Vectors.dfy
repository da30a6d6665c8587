/** Vectors of category values with the options found under them, and how two are merged. */
module Vectors {
  import opened Wrappers
  import opened CategoryTuples

  type OptionName(==, !new)
  type OptionValue(==, !new)

  /** Options, and the depth at which they were found. */
  datatype Options = Options(depth: nat, entries: map<OptionName, OptionValue>)

  datatype Vector = Vector(cats: Cats, options: Options)

  /** The base options, overridden by the second ones; the depth is overridden like any
      other entry. */
  function MergeOptions(base: Options, mod: Options): Options {
    Options(mod.depth, base.entries + mod.entries)
  }

  // ---- Which vector is more significant ----

  datatype Rank = First | Second | Tie

  predicate Truthy(value: Option<string>) {
    value.Some? && value.value != ""
  }

  function Weight(cats: Cats): nat {
    if cats == [] then 0
    else
      var last := |cats| - 1;
      Weight(cats[..last]) + if Truthy(cats[last]) then 1 else 0
  }

  function Rightmost(a: Cats, b: Cats): Rank
    requires |a| == |b|
  {
    if a == [] then Tie
    else
      var last := |a| - 1;
      if Truthy(a[last]) && !Truthy(b[last]) then First
      else if Truthy(b[last]) && !Truthy(a[last]) then Second
      else Rightmost(a[..last], b[..last])
  }

  /** By depth, then by the number of categories, then by the right-most category. */
  function Compare(v: Vector, w: Vector): Rank
    requires |v.cats| == |w.cats|
  {
    if v.options.depth > w.options.depth then First
    else if w.options.depth > v.options.depth then Second
    else if Weight(v.cats) > Weight(w.cats) then First
    else if Weight(w.cats) > Weight(v.cats) then Second
    else Rightmost(v.cats, w.cats)
  }

  function OptionsInOrder(v: Vector, w: Vector): Options
    requires |v.cats| == |w.cats|
  {
    if Compare(v, w).First? then MergeOptions(w.options, v.options) else MergeOptions(v.options, w.options)
  }

  function Merge(v: Vector, w: Vector): Option<Vector>
    requires |v.cats| == |w.cats|
  {
    if Compatible(v.cats, w.cats) then Some(Vector(Join(v.cats, w.cats), OptionsInOrder(v, w))) else None
  }

  method MergeVectors(v: Vector, w: Vector) returns (merged: Option<Vector>)
    requires |v.cats| == |w.cats|
    ensures merged == Merge(v, w)
  {
    var cats: Cats := [];
    for i := 0 to |v.cats|
      invariant Compatible(v.cats[..i], w.cats[..i])
      invariant cats == Join(v.cats[..i], w.cats[..i])
    {
      if v.cats[i] == None {
        cats := cats + [w.cats[i]];
      } else if w.cats[i] == None {
        cats := cats + [v.cats[i]];
      } else if v.cats[i] == w.cats[i] {
        cats := cats + [v.cats[i]];
      } else {
        return None;
      }
    }
    assert v.cats[..|v.cats|] == v.cats && w.cats[..|v.cats|] == w.cats;
    merged := Some(Vector(cats, OptionsInOrder(v, w)));
  }

  // ---- Comparing decides ----

  predicate SameMask(a: Cats, b: Cats) {
    |a| == |b| && forall i :: 0 <= i < |a| ==> Truthy(a[i]) == Truthy(b[i])
  }

  lemma {:induction false} SameMaskSameWeight(a: Cats, b: Cats)
    requires SameMask(a, b)
    ensures Weight(a) == Weight(b)
  {
    if a != [] {
      var last := |a| - 1;
      assert Truthy(a[last]) == Truthy(b[last]);
      assert forall i :: 0 <= i < last ==> a[..last][i] == a[i] && b[..last][i] == b[i];
      SameMaskSameWeight(a[..last], b[..last]);
    }
  }

  lemma {:induction false} RightmostDecides(a: Cats, b: Cats)
    requires |a| == |b|
    ensures Rightmost(a, b).Tie? <==> SameMask(a, b)
    ensures Rightmost(a, b).First? <==> Rightmost(b, a).Second?
  {
    if a != [] {
      var last := |a| - 1;
      RightmostDecides(a[..last], b[..last]);
      assert SameMask(a, b) <==> SameMask(a[..last], b[..last]) && Truthy(a[last]) == Truthy(b[last]) by {
        assert forall i :: 0 <= i < last ==> a[..last][i] == a[i] && b[..last][i] == b[i];
      }
    }
  }

  /** Two vectors are equally significant exactly when they come from the same depth and
      have non-empty values for the same categories; otherwise either order of the two
      puts the same one first. */
  lemma CompareDecides(v: Vector, w: Vector)
    requires |v.cats| == |w.cats|
    ensures Compare(v, w).Tie? <==> v.options.depth == w.options.depth && SameMask(v.cats, w.cats)
    ensures Compare(v, w).First? <==> Compare(w, v).Second?
  {
    RightmostDecides(v.cats, w.cats);
    RightmostDecides(w.cats, v.cats);
    if SameMask(v.cats, w.cats) {
      SameMaskSameWeight(v.cats, w.cats);
    }
  }

  // ---- The more significant vector wins ----

  function Significant(cats: Cats): set<nat> {
    set i: nat | i < |cats| && Truthy(cats[i])
  }

  /** The first vector is from deeper, or from as deep and with more categories, or with as
      many and with the right-most category that only one of them has. */
  ghost predicate Outranks(v: Vector, w: Vector)
    requires |v.cats| == |w.cats|
  {
    var a, b := Significant(v.cats), Significant(w.cats);
    || v.options.depth > w.options.depth
    || (v.options.depth == w.options.depth && |a| > |b|)
    || (v.options.depth == w.options.depth && |a| == |b|
        && exists i :: i in a - b && forall j :: j in b - a ==> j < i)
  }

  lemma SignificantFront(cats: Cats)
    requires cats != []
    ensures var last := |cats| - 1;
      Significant(cats) == Significant(cats[..last]) + (if Truthy(cats[last]) then {last} else {})
      && last !in Significant(cats[..last])
  {
  }

  lemma {:induction false} WeightCounts(cats: Cats)
    ensures Weight(cats) == |Significant(cats)|
  {
    if cats != [] {
      WeightCounts(cats[..|cats| - 1]);
      SignificantFront(cats);
    }
  }

  lemma {:induction false} RightmostIsRightmost(a: Cats, b: Cats)
    requires |a| == |b|
    ensures Rightmost(a, b).First? <==>
      exists i :: i in Significant(a) - Significant(b) && forall j :: j in Significant(b) - Significant(a) ==> j < i
  {
    if a != [] {
      var last := |a| - 1;
      var a', b' := a[..last], b[..last];
      RightmostIsRightmost(a', b');
      SignificantFront(a);
      SignificantFront(b);
      if Truthy(a[last]) == Truthy(b[last]) {
        assert Significant(a') - Significant(b') == Significant(a) - Significant(b);
        assert Significant(b') - Significant(a') == Significant(b) - Significant(a);
      } else if Truthy(a[last]) {
        assert last in Significant(a) - Significant(b);
      } else {
        assert last in Significant(b) - Significant(a);
      }
    }
  }

  /** Of two vectors that are merged, the more significant one overrides the other. */
  lemma MoreSignificantWins(v: Vector, w: Vector)
    requires |v.cats| == |w.cats| && Outranks(v, w)
    ensures OptionsInOrder(v, w) == OptionsInOrder(w, v)
    ensures var merged := OptionsInOrder(v, w);
      && merged.depth == v.options.depth
      && merged.entries.Keys == v.options.entries.Keys + w.options.entries.Keys
      && (forall name :: name in merged.entries ==>
            merged.entries[name] == if name in v.options.entries then v.options.entries[name]
                                    else w.options.entries[name])
  {
    WeightCounts(v.cats);
    WeightCounts(w.cats);
    RightmostIsRightmost(v.cats, w.cats);
    CompareDecides(v, w);
  }

  // ---- When merging commutes ----

  predicate SameValues(a: Options, b: Options) {
    forall k :: k in a.entries && k in b.entries ==> a.entries[k] == b.entries[k]
  }

  /** Merging commutes, options included, exactly when the vectors conflict, or one is more
      significant, or their options agree. */
  lemma MergeCommutesIff(v: Vector, w: Vector)
    requires |v.cats| == |w.cats|
    ensures Merge(v, w) == Merge(w, v) <==>
      || !Compatible(v.cats, w.cats)
      || v.options.depth != w.options.depth
      || !SameMask(v.cats, w.cats)
      || SameValues(v.options, w.options)
  {
    CompareDecides(v, w);
    CompareDecides(w, v);
    if Compatible(v.cats, w.cats) {
      JoinExtends(v.cats, w.cats);
      assert Compatible(w.cats, v.cats);
      var a, b := v.options.entries, w.options.entries;
      if SameValues(v.options, w.options) {
        assert a + b == b + a;
      } else {
        var k :| k in a && k in b && a[k] != b[k];
        assert (a + b)[k] != (b + a)[k];
      }
    }
  }

  predicate NoEmptyValue(cats: Cats) {
    forall i :: 0 <= i < |cats| ==> cats[i] != Some("")
  }

  /** Without empty category values, merging two vectors with different tuples commutes. */
  lemma MergeCommutes(v: Vector, w: Vector)
    requires |v.cats| == |w.cats| && v.cats != w.cats
    requires NoEmptyValue(v.cats) && NoEmptyValue(w.cats)
    ensures Merge(v, w) == Merge(w, v)
  {
    MergeCommutesIff(v, w);
  }

  /** An empty category value is configured, but does not count as significant: of two
      sections under one such value each, the order of merging decides. */
  lemma EmptyValueBreaksCommuting(name: OptionName, x: OptionValue, y: OptionValue)
    requires x != y
    ensures var v := Vector([Some(""), None], Options(2, map[name := x]));
      var w := Vector([None, Some("")], Options(2, map[name := y]));
      v.cats != w.cats && Compatible(v.cats, w.cats) && Merge(v, w) != Merge(w, v)
  {
    var v := Vector([Some(""), None], Options(2, map[name := x]));
    var w := Vector([None, Some("")], Options(2, map[name := y]));
    assert name in v.options.entries && name in w.options.entries;
    MergeCommutesIff(v, w);
  }
}
