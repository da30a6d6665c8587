/** Filtering and regrouping sequences. */
module Sequences {
  /** The members that have the property, in order. */
  function Filter<T>(s: seq<T>, has: T -> bool): seq<T> {
    if s == [] then [] else (if has(s[0]) then [s[0]] else []) + Filter(s[1..], has)
  }

  lemma {:induction false} FilterMembers<T>(s: seq<T>, has: T -> bool)
    ensures forall x :: x in Filter(s, has) <==> x in s && has(x)
  {
    if s != [] {
      FilterMembers(s[1..], has);
      assert s == [s[0]] + s[1..];
    }
  }

  lemma {:induction false} FilterSame<T>(s: seq<T>, has: T -> bool, has': T -> bool)
    requires forall x :: x in s ==> has(x) == has'(x)
    ensures Filter(s, has) == Filter(s, has')
  {
    if s != [] {
      assert s[0] in s && forall x :: x in s[1..] ==> x in s;
      FilterSame(s[1..], has, has');
    }
  }

  /** Filtering by a property drops nothing that has a stronger one. */
  lemma {:induction false} FilterFilter<T>(s: seq<T>, has: T -> bool, more: T -> bool)
    requires forall x :: x in s && more(x) ==> has(x)
    ensures Filter(Filter(s, has), more) == Filter(s, more)
  {
    if s != [] {
      var first := if has(s[0]) then [s[0]] else [];
      assert s[0] in s && forall x :: x in s[1..] ==> x in s;
      FilterFilter(s[1..], has, more);
      FilterConcat(first, Filter(s[1..], has), more);
      assert first != [] ==> first[1..] == [];
    }
  }

  lemma {:induction false} FilterConcat<T>(a: seq<T>, b: seq<T>, has: T -> bool)
    ensures Filter(a + b, has) == Filter(a, has) + Filter(b, has)
  {
    if a == [] {
      assert a + b == b;
    } else {
      FilterConcat(a[1..], b, has);
      assert (a + b)[1..] == a[1..] + b;
      Regroup(if has(a[0]) then [a[0]] else [], Filter(a[1..], has), Filter(b, has));
    }
  }

  function Flatten<T>(parts: seq<seq<T>>): seq<T> {
    if parts == [] then [] else parts[0] + Flatten(parts[1..])
  }

  lemma Regroup<T>(a: seq<T>, b: seq<T>, c: seq<T>)
    ensures a + (b + c) == (a + b) + c
  {
  }

  lemma RestOfRest<T>(s: seq<T>, i: nat)
    requires i < |s|
    ensures s[i..] == [s[i]] + s[i + 1..] && s[i..][1..] == s[i + 1..]
  {
  }
}
