/** Partial tuples of category values: which ones agree, how they combine, and the joins of
    the maximal families that agree. */
module CategoryTuples {
  import opened Wrappers

  /** One value per category, or none where the category is not configured. */
  type Cats = seq<Option<string>>

  predicate Compatible(a: Cats, b: Cats) {
    |a| == |b| && forall i :: 0 <= i < |a| ==> a[i].None? || b[i].None? || a[i] == b[i]
  }

  function Join(a: Cats, b: Cats): Cats
    requires |a| == |b|
  {
    seq(|a|, i requires 0 <= i < |a| => if a[i].None? then b[i] else a[i])
  }

  /** The tuple configures all that the other one does, in the same way. */
  predicate Extends(t: Cats, a: Cats) {
    |t| == |a| && forall i :: 0 <= i < |a| ==> a[i].None? || t[i] == a[i]
  }

  function SetCount(t: Cats): nat {
    if t == [] then 0 else (if t[0].Some? then 1 else 0) + SetCount(t[1..])
  }

  // ---- Maximal joins ----

  /** The tuple extends all it agrees with, and is made of what it extends. */
  ghost predicate IsMaxJoin(s: iset<Cats>, t: Cats) {
    && (forall a :: a in s && Compatible(a, t) ==> Extends(t, a))
    && Supported(s, t)
  }

  ghost predicate Supported(s: iset<Cats>, t: Cats) {
    && (exists a :: a in s && Extends(t, a))
    && (forall i :: 0 <= i < |t| && t[i].Some? ==> exists a :: a in s && Extends(t, a) && a[i] == t[i])
  }

  ghost function MaxJoins(s: iset<Cats>): iset<Cats> {
    iset t | IsMaxJoin(s, t)
  }

  // ---- The same, in terms of families ----

  /** Pairwise compatible members of the set. */
  ghost predicate IsFamily(s: iset<Cats>, family: iset<Cats>) {
    family <= s && forall a, b :: a in family && b in family ==> Compatible(a, b)
  }

  /** A non-empty family to which no member of the set can be added. */
  ghost predicate IsMaximalFamily(s: iset<Cats>, family: iset<Cats>) {
    && IsFamily(s, family)
    && (exists a :: a in family)
    && (forall c :: c in s && (forall a :: a in family ==> Compatible(a, c)) ==> c in family)
  }

  /** The tuple extends the whole family, and has every value from it. */
  ghost predicate IsJoinOf(t: Cats, family: iset<Cats>) {
    && (forall a :: a in family ==> Extends(t, a))
    && (forall i :: 0 <= i < |t| && t[i].Some? ==> exists a :: a in family && |a| == |t| && a[i] == t[i])
  }

  /** The maximal joins of a set are the joins of its maximal families. */
  lemma MaxJoinsAreJoinsOfMaximalFamilies(s: iset<Cats>, t: Cats)
    ensures IsMaxJoin(s, t) <==> exists family :: IsMaximalFamily(s, family) && IsJoinOf(t, family)
  {
    if IsMaxJoin(s, t) {
      MaxJoinHasFamily(s, t);
    }
  }

  lemma MaxJoinHasFamily(s: iset<Cats>, t: Cats)
    requires IsMaxJoin(s, t)
    ensures exists family :: IsMaximalFamily(s, family) && IsJoinOf(t, family)
  {
    var family := iset a | a in s && Extends(t, a);
    var a :| a in s && Extends(t, a);
    assert a in family;
    forall c | c in s && (forall a :: a in family ==> Compatible(a, c))
      ensures c in family
    {
      FamilyAgreesWithJoin(family, t, c);
    }
    assert IsMaximalFamily(s, family) && IsJoinOf(t, family);
  }

  /** What agrees with a whole family agrees with its join. */
  lemma FamilyAgreesWithJoin(family: iset<Cats>, t: Cats, c: Cats)
    requires IsJoinOf(t, family) && (exists a :: a in family)
    requires forall a :: a in family ==> Compatible(a, c)
    ensures Compatible(c, t)
  {
  }

  // ---- Every family is covered ----

  lemma {:induction false} SetCountBounds(t: Cats)
    ensures SetCount(t) <= |t|
    ensures SetCount(t) == |t| <==> forall i :: 0 <= i < |t| ==> t[i].Some?
  {
    if t != [] {
      SetCountBounds(t[1..]);
      assert t == [t[0]] + t[1..];
    }
  }

  /** Adding values grows the count, and grows it strictly unless nothing was added. */
  lemma {:induction false} ExtendingCounts(t: Cats, a: Cats)
    requires Extends(t, a)
    ensures SetCount(a) <= SetCount(t)
    ensures SetCount(a) == SetCount(t) ==> a == t
  {
    if a != [] {
      assert a == [a[0]] + a[1..] && t == [t[0]] + t[1..];
      ExtendingCounts(t[1..], a[1..]);
    }
  }

  lemma JoinExtends(a: Cats, b: Cats)
    requires Compatible(a, b)
    ensures Extends(Join(a, b), a) && Extends(Join(a, b), b)
    ensures Join(a, b) == Join(b, a)
  {
  }

  /** Whatever is made of members of the set is extended by a maximal join. */
  lemma {:induction false} SupportedIsCovered(s: iset<Cats>, t: Cats) returns (m: Cats)
    requires Supported(s, t)
    ensures m in MaxJoins(s) && Extends(m, t)
    decreases |t| - SetCount(t)
  {
    SetCountBounds(t);
    if IsMaxJoin(s, t) {
      m := t;
    } else {
      var a :| a in s && Compatible(a, t) && !Extends(t, a);
      var t' := Join(t, a);
      JoinExtends(t, a);
      ExtendingCounts(t', t);
      SetCountBounds(t');
      assert Supported(s, t') by {
        forall i | 0 <= i < |t'| && t'[i].Some?
          ensures exists b :: b in s && Extends(t', b) && b[i] == t'[i]
        {
          if t[i].Some? {
            var b :| b in s && Extends(t, b) && b[i] == t[i];
            assert Extends(t', b);
          } else {
            assert Extends(t', a) && a[i] == t'[i];
          }
        }
        assert Extends(t', a);
      }
      m := SupportedIsCovered(s, t');
    }
  }

  /** No combination is missed: whatever members agree with each other are extended
      together by some maximal join. */
  lemma FamilyIsCovered(s: iset<Cats>, family: iset<Cats>) returns (m: Cats)
    requires IsFamily(s, family) && exists a :: a in family
    ensures m in MaxJoins(s) && forall a :: a in family ==> Extends(m, a)
  {
    var first :| first in family;
    var t := seq(|first|, i requires 0 <= i < |first| => ValueIn(family, i));
    forall a: Cats | a in family
      ensures Extends(t, a)
    {
      assert Compatible(a, first);
      forall i | 0 <= i < |a| && a[i].Some?
        ensures t[i] == a[i]
      {
        ValueInIsShared(family, a, i);
      }
    }
    forall i | 0 <= i < |t| && t[i].Some?
      ensures exists a :: a in s && Extends(t, a) && a[i] == t[i]
    {
      var a: Cats :| a in family && i < |a| && a[i].Some? && a[i] == ValueIn(family, i);
      assert Extends(t, a);
    }
    assert Extends(t, first);
    m := SupportedIsCovered(s, t);
  }

  /** The value that a family has for a category. */
  ghost function ValueIn(family: iset<Cats>, i: nat): Option<string> {
    if exists a: Cats :: a in family && i < |a| && a[i].Some? then
      var a: Cats :| a in family && i < |a| && a[i].Some?;
      a[i]
    else None
  }

  lemma ValueInIsShared(family: iset<Cats>, a: Cats, i: nat)
    requires forall b, c :: b in family && c in family ==> Compatible(b, c)
    requires a in family && i < |a| && a[i].Some?
    ensures ValueIn(family, i) == a[i]
  {
  }

  /** Distinct maximal joins conflict. */
  lemma MaxJoinsConflict(s: iset<Cats>, t: Cats, u: Cats)
    requires t in MaxJoins(s) && u in MaxJoins(s) && Compatible(t, u)
    ensures t == u
  {
  }
}
