/** What a round of aggregation keeps, and how rounds come to an end. */
module AggregationRounds {
  import opened Wrappers
  import opened CategoryTuples
  import opened Vectors
  import opened Aggregation

  // ---- The members of a round ----

  ghost predicate IsMerged(vs: seq<Vector>, v: Vector) {
    exists p: nat, q: nat :: IsPair(vs, p, q) && v == MergedPair(vs, p, q)
  }

  ghost predicate IsUnmerged(vs: seq<Vector>, v: Vector) {
    exists p: nat :: Alone(vs, p) && v == vs[p]
  }

  lemma MultiplyMembers(vs: seq<Vector>, hash: Hash, v: Vector)
    ensures v in Multiply(vs, hash) <==> IsMerged(vs, v) || IsUnmerged(vs, v)
  {
    SortKeepsMembers(Rows(vs, 0) + Unmerged(vs, 0), hash);
    RowsMembers(vs, 0, v);
    if v in Unmerged(vs, 0) {
      var r := UnmergedIsAlone(vs, 0, v);
    }
    if p: nat :| Alone(vs, p) && v == vs[p] {
      AloneIsUnmerged(vs, 0, p);
    }
  }

  lemma JoinIsSupported(vs: seq<Vector>, p: nat, q: nat)
    requires IsPair(vs, p, q)
    ensures Supported(CatsOf(vs), Join(vs[p].cats, vs[q].cats))
  {
    var a, b := vs[p].cats, vs[q].cats;
    assert a in CatsOf(vs) && b in CatsOf(vs);
    JoinExtends(a, b);
  }

  lemma OwnIsSupported(vs: seq<Vector>, p: nat)
    requires p < |vs|
    ensures Supported(CatsOf(vs), vs[p].cats)
  {
    assert vs[p].cats in CatsOf(vs) && Extends(vs[p].cats, vs[p].cats);
  }

  lemma MultipliedIsSupported(vs: seq<Vector>, hash: Hash, v: Vector)
    requires v in Multiply(vs, hash)
    ensures Supported(CatsOf(vs), v.cats)
  {
    MultiplyMembers(vs, hash, v);
    if p: nat, q: nat :| IsPair(vs, p, q) && v == MergedPair(vs, p, q) {
      JoinIsSupported(vs, p, q);
    } else {
      var p: nat :| Alone(vs, p) && v == vs[p];
      OwnIsSupported(vs, p);
    }
  }

  lemma MultipliedSeparates(vs: seq<Vector>, hash: Hash)
    requires Injective(hash, vs)
    ensures Separates(hash, Multiply(vs, hash)) && Separates(hash, Sort(Multiply(vs, hash), hash))
  {
    SortKeepsMembers(Multiply(vs, hash), hash);
    forall v, w | v in Multiply(vs, hash) && w in Multiply(vs, hash) && hash(v.cats) == hash(w.cats)
      ensures v.cats == w.cats
    {
      MultipliedIsSupported(vs, hash, v);
      MultipliedIsSupported(vs, hash, w);
      assert SameHash(hash, CatsOf(vs), v.cats, w.cats);
    }
  }

  /** A round leaves distinct tuples, each of which comes from the multiplied vectors. */
  lemma RoundSources(vs: seq<Vector>, hash: Hash, x: Vector)
    requires Injective(hash, vs) && x in Round(vs, hash)
    ensures Sourced(x, Multiply(vs, hash))
  {
    var sorted := Sort(Multiply(vs, hash), hash);
    MultipliedSeparates(vs, hash);
    SortKeepsMembers(Multiply(vs, hash), hash);
    DedupSources(sorted, hash, x);
  }

  lemma RoundAbsorbs(vs: seq<Vector>, hash: Hash, v: Vector) returns (w: Vector)
    requires Injective(hash, vs) && v in Multiply(vs, hash)
    ensures w in Round(vs, hash) && Absorbs(w, v)
  {
    MultipliedSeparates(vs, hash);
    SortKeepsMembers(Multiply(vs, hash), hash);
    w := DedupAbsorbs(Sort(Multiply(vs, hash), hash), hash, v);
  }

  lemma RoundDistinct(vs: seq<Vector>, hash: Hash)
    ensures Distinct(Round(vs, hash))
  {
    var sorted := Sort(Multiply(vs, hash), hash);
    SortAscending(Multiply(vs, hash), hash);
    DedupAscends(sorted, hash);
    forall i, j | 0 <= i < j < |Round(vs, hash)|
      ensures Round(vs, hash)[i].cats != Round(vs, hash)[j].cats
    {
      assert hash(Round(vs, hash)[i].cats) < hash(Round(vs, hash)[j].cats);
    }
  }

  /** The tuples of a round: the joins of compatible pairs, and the tuples left alone. */
  ghost predicate InRound(vs: seq<Vector>, t: Cats) {
    || (exists p: nat, q: nat :: IsPair(vs, p, q) && t == Join(vs[p].cats, vs[q].cats))
    || (exists p: nat :: Alone(vs, p) && t == vs[p].cats)
  }

  lemma RoundTuples(vs: seq<Vector>, hash: Hash, t: Cats)
    requires Injective(hash, vs)
    ensures t in CatsOf(Round(vs, hash)) <==> InRound(vs, t)
  {
    if t in CatsOf(Round(vs, hash)) {
      var x :| x in Round(vs, hash) && x.cats == t;
      RoundSources(vs, hash, x);
      var w :| w in Multiply(vs, hash) && w.cats == t;
      MultiplyMembers(vs, hash, w);
    }
    if p: nat, q: nat :| IsPair(vs, p, q) && t == Join(vs[p].cats, vs[q].cats) {
      MultiplyMembers(vs, hash, MergedPair(vs, p, q));
      var w := RoundAbsorbs(vs, hash, MergedPair(vs, p, q));
    }
    if p: nat :| Alone(vs, p) && t == vs[p].cats {
      MultiplyMembers(vs, hash, vs[p]);
      var w := RoundAbsorbs(vs, hash, vs[p]);
    }
  }

  // ---- A round keeps the maximal joins ----

  /** Within a maximal join, a tuple of the list merges with another one, unless it merges
      with nothing. */
  lemma NextWithin(vs: seq<Vector>, t: Cats, p: nat) returns (q: nat)
    requires IsMaxJoin(CatsOf(vs), t) && p < |vs| && Extends(t, vs[p].cats)
    ensures Alone(vs, p) || (IsPair(vs, p, q) && Extends(t, vs[q].cats))
  {
    q := 0;
    if !Alone(vs, p) {
      var r: nat :| r < |vs| && IsPair(vs, p, r);
      q := r;
      if !Extends(t, vs[r].cats) {
        q := OtherWithin(vs, t, p, r);
      }
    }
  }

  lemma OtherWithin(vs: seq<Vector>, t: Cats, p: nat, q: nat) returns (r: nat)
    requires IsMaxJoin(CatsOf(vs), t) && p < |vs| && Extends(t, vs[p].cats)
    requires IsPair(vs, p, q) && !Extends(t, vs[q].cats)
    ensures r < |vs| && r != p && Extends(t, vs[r].cats)
  {
    assert vs[q].cats in CatsOf(vs) && !Compatible(vs[q].cats, t);
    if forall r: nat :: r < |vs| && r != p ==> !Extends(t, vs[r].cats) {
      assert false;
    }
    r :| r < |vs| && r != p && Extends(t, vs[r].cats);
  }

  lemma MaxJoinStays(vs: seq<Vector>, hash: Hash, t: Cats)
    requires Injective(hash, vs) && IsMaxJoin(CatsOf(vs), t)
    ensures IsMaxJoin(CatsOf(Round(vs, hash)), t)
  {
    var next := CatsOf(Round(vs, hash));
    forall x | x in next && Compatible(x, t)
      ensures Extends(t, x)
    {
      RoundTuples(vs, hash, x);
      if p: nat, q: nat :| IsPair(vs, p, q) && x == Join(vs[p].cats, vs[q].cats) {
        JoinExtends(vs[p].cats, vs[q].cats);
        assert Compatible(vs[p].cats, t) && Compatible(vs[q].cats, t);
        assert vs[p].cats in CatsOf(vs) && vs[q].cats in CatsOf(vs);
      } else {
        var p: nat :| Alone(vs, p) && x == vs[p].cats;
        assert vs[p].cats in CatsOf(vs);
      }
    }
    forall a | a in CatsOf(vs) && Extends(t, a)
      ensures exists x :: x in next && Extends(t, x) && Extends(x, a)
    {
      var x := TupleWithin(vs, hash, t, a);
    }
  }

  lemma TupleWithin(vs: seq<Vector>, hash: Hash, t: Cats, a: Cats) returns (x: Cats)
    requires Injective(hash, vs) && IsMaxJoin(CatsOf(vs), t) && a in CatsOf(vs) && Extends(t, a)
    ensures x in CatsOf(Round(vs, hash)) && Extends(t, x) && Extends(x, a)
  {
    var v :| v in vs && v.cats == a;
    var p :| 0 <= p < |vs| && vs[p] == v;
    var q := NextWithin(vs, t, p);
    if Alone(vs, p) {
      x := a;
    } else {
      x := Join(a, vs[q].cats);
      JoinExtends(a, vs[q].cats);
    }
    RoundTuples(vs, hash, x);
  }

  lemma MaxJoinWasThere(vs: seq<Vector>, hash: Hash, t: Cats)
    requires Injective(hash, vs) && IsMaxJoin(CatsOf(Round(vs, hash)), t)
    ensures IsMaxJoin(CatsOf(vs), t)
  {
    var next := CatsOf(Round(vs, hash));
    SupportWasThere(vs, hash, t);
    var x :| x in next && Extends(t, x);
    var c := OriginOf(vs, hash, x, 0);
    assert vs[c].cats in CatsOf(vs);
    forall a | a in CatsOf(vs) && Compatible(a, t)
      ensures Extends(t, a)
    {
      CompatibleIsCovered(vs, hash, t, a, c);
    }
  }

  /** A tuple of the round extends a tuple of the list, which has any one of its values. */
  lemma OriginOf(vs: seq<Vector>, hash: Hash, x: Cats, i: nat) returns (c: nat)
    requires Injective(hash, vs) && x in CatsOf(Round(vs, hash))
    ensures c < |vs| && Extends(x, vs[c].cats)
    ensures i < |x| ==> vs[c].cats[i] == x[i]
  {
    RoundTuples(vs, hash, x);
    if p: nat, q: nat :| IsPair(vs, p, q) && x == Join(vs[p].cats, vs[q].cats) {
      JoinExtends(vs[p].cats, vs[q].cats);
      c := if i < |x| && vs[p].cats[i].None? then q else p;
    } else {
      c :| Alone(vs, c) && x == vs[c].cats;
    }
  }

  lemma CompatibleIsCovered(vs: seq<Vector>, hash: Hash, t: Cats, a: Cats, c: nat)
    requires Injective(hash, vs) && IsMaxJoin(CatsOf(Round(vs, hash)), t)
    requires c < |vs| && Extends(t, vs[c].cats)
    requires a in CatsOf(vs) && Compatible(a, t)
    ensures Extends(t, a)
  {
    var v :| v in vs && v.cats == a;
    var p :| 0 <= p < |vs| && vs[p] == v;
    if p != c {
      var x := Join(a, vs[c].cats);
      assert IsPair(vs, p, c);
      JoinExtends(a, vs[c].cats);
      RoundTuples(vs, hash, x);
      assert Compatible(x, t);
    }
  }

  /** A round keeps the set of maximal joins. */
  lemma RoundKeepsMaxJoins(vs: seq<Vector>, hash: Hash)
    requires Injective(hash, vs)
    ensures MaxJoins(CatsOf(Round(vs, hash))) == MaxJoins(CatsOf(vs))
  {
    forall t
      ensures t in MaxJoins(CatsOf(Round(vs, hash))) <==> t in MaxJoins(CatsOf(vs))
    {
      if t in MaxJoins(CatsOf(vs)) {
        MaxJoinStays(vs, hash, t);
      }
      if t in MaxJoins(CatsOf(Round(vs, hash))) {
        MaxJoinWasThere(vs, hash, t);
      }
    }
  }

  /** Where nothing merges, the tuples are the maximal joins. */
  lemma AllAloneAreMaxJoins(vs: seq<Vector>)
    requires forall p: nat :: p < |vs| ==> Alone(vs, p)
    ensures MaxJoins(CatsOf(vs)) == CatsOf(vs)
  {
    forall t
      ensures t in MaxJoins(CatsOf(vs)) <==> t in CatsOf(vs)
    {
      if t in CatsOf(vs) {
        LonelyIsMaxJoin(vs, t);
      }
      if t in MaxJoins(CatsOf(vs)) {
        var a :| a in CatsOf(vs) && Extends(t, a);
        LonelyIsMaxJoin(vs, a);
        MaxJoinsConflict(CatsOf(vs), t, a);
      }
    }
  }

  lemma LonelyIsMaxJoin(vs: seq<Vector>, t: Cats)
    requires forall p: nat :: p < |vs| ==> Alone(vs, p)
    requires t in CatsOf(vs)
    ensures IsMaxJoin(CatsOf(vs), t)
  {
    var v :| v in vs && v.cats == t;
    var p :| 0 <= p < |vs| && vs[p] == v;
    assert Extends(t, t);
    forall a | a in CatsOf(vs) && Compatible(a, t)
      ensures Extends(t, a)
    {
      var w :| w in vs && w.cats == a;
      var q :| 0 <= q < |vs| && vs[q] == w;
      assert Alone(vs, p) && !IsPair(vs, p, q);
    }
  }

  // ---- A round keeps the options ----

  /** What the vectors of a list hold comes from the input. */
  ghost predicate AllComeFrom(vs: seq<Vector>, input: seq<Vector>) {
    forall v :: v in vs ==> ComesFrom(v, input)
  }

  lemma RoundComesFrom(vs: seq<Vector>, hash: Hash, input: seq<Vector>)
    requires Injective(hash, vs) && AllComeFrom(vs, input)
    ensures AllComeFrom(Round(vs, hash), input)
  {
    forall x | x in Round(vs, hash)
      ensures ComesFrom(x, input)
    {
      RoundSources(vs, hash, x);
      forall v | v in Multiply(vs, hash)
        ensures ComesFrom(v, input)
      {
        MultipliedComesFrom(vs, hash, input, v);
      }
    }
  }

  lemma MultipliedComesFrom(vs: seq<Vector>, hash: Hash, input: seq<Vector>, v: Vector)
    requires AllComeFrom(vs, input) && v in Multiply(vs, hash)
    ensures ComesFrom(v, input)
  {
    MultiplyMembers(vs, hash, v);
    if p: nat, q: nat :| IsPair(vs, p, q) && v == MergedPair(vs, p, q) {
      JoinExtends(vs[p].cats, vs[q].cats);
      if Compare(vs[p], vs[q]).First? {
        MergedComesFrom(vs[q], vs[p], v.cats, v.options, input);
      } else {
        MergedComesFrom(vs[p], vs[q], v.cats, v.options, input);
      }
    }
  }

  /** Within the tuple, some vector of the list has the option. */
  ghost predicate NameWithin(vs: seq<Vector>, t: Cats, name: OptionName) {
    exists v :: v in vs && Extends(t, v.cats) && name in v.options.entries
  }

  /** No maximal join loses an option that some input within it has. */
  ghost predicate NamesKept(vs: seq<Vector>, input: seq<Vector>) {
    forall t, name :: t in MaxJoins(CatsOf(vs)) && NameWithin(input, t, name) ==> NameWithin(vs, t, name)
  }

  lemma RoundKeepsNames(vs: seq<Vector>, hash: Hash, input: seq<Vector>)
    requires Injective(hash, vs) && NamesKept(vs, input)
    ensures NamesKept(Round(vs, hash), input)
  {
    RoundKeepsMaxJoins(vs, hash);
    forall t, name | t in MaxJoins(CatsOf(vs)) && NameWithin(input, t, name)
      ensures NameWithin(Round(vs, hash), t, name)
    {
      assert NameWithin(vs, t, name);
      NameStaysWithin(vs, hash, t, name);
    }
  }

  lemma NameStaysWithin(vs: seq<Vector>, hash: Hash, t: Cats, name: OptionName)
    requires Injective(hash, vs) && IsMaxJoin(CatsOf(vs), t) && NameWithin(vs, t, name)
    ensures NameWithin(Round(vs, hash), t, name)
  {
    var v :| v in vs && Extends(t, v.cats) && name in v.options.entries;
    var p :| 0 <= p < |vs| && vs[p] == v;
    var q := NextWithin(vs, t, p);
    var x := if Alone(vs, p) then v else MergedPair(vs, p, q);
    MultiplyMembers(vs, hash, x);
    var w := RoundAbsorbs(vs, hash, x);
    assert name in x.options.entries.Keys;
  }

  // ---- Rounds come to an end ----

  /** Every vector that still merges with another one has at least so many categories. */
  ghost predicate Floor(vs: seq<Vector>, weight: nat) {
    forall p: nat, q: nat :: IsPair(vs, p, q) ==> SetCount(vs[p].cats) >= weight
  }

  /** With distinct tuples, each round raises the floor. */
  lemma RoundRaisesFloor(vs: seq<Vector>, hash: Hash, weight: nat)
    requires Injective(hash, vs) && Distinct(vs) && Floor(vs, weight)
    ensures Floor(Round(vs, hash), weight + 1)
  {
    var next := Round(vs, hash);
    RoundDistinct(vs, hash);
    forall x: nat, y: nat | IsPair(next, x, y)
      ensures SetCount(next[x].cats) >= weight + 1
    {
      var t, u := next[x].cats, next[y].cats;
      assert next[x] in next && next[y] in next;
      RoundTuples(vs, hash, t);
      RoundTuples(vs, hash, u);
      if p: nat, q: nat :| IsPair(vs, p, q) && t == Join(vs[p].cats, vs[q].cats) {
        JoinIsHeavier(vs, p, q, weight);
      } else {
        var p: nat :| Alone(vs, p) && t == vs[p].cats;
        AloneStaysAlone(vs, p, u);
        assert false;
      }
    }
  }

  lemma JoinIsHeavier(vs: seq<Vector>, p: nat, q: nat, weight: nat)
    requires IsPair(vs, p, q) && Distinct(vs) && Floor(vs, weight)
    ensures SetCount(Join(vs[p].cats, vs[q].cats)) >= weight + 1
  {
    var a, b := vs[p].cats, vs[q].cats;
    assert IsPair(vs, q, p);
    JoinExtends(a, b);
    ExtendingCounts(Join(a, b), a);
    ExtendingCounts(Join(a, b), b);
    assert a != b;
  }

  /** What merges with nothing conflicts with all else in the next round. */
  lemma AloneStaysAlone(vs: seq<Vector>, p: nat, u: Cats)
    requires Alone(vs, p) && InRound(vs, u)
    ensures u == vs[p].cats || !Compatible(vs[p].cats, u)
  {
    if r: nat, q: nat :| IsPair(vs, r, q) && u == Join(vs[r].cats, vs[q].cats) {
      JoinExtends(vs[r].cats, vs[q].cats);
      assert r != p && q != p by {
        assert IsPair(vs, q, r);
      }
      assert !IsPair(vs, p, r);
    } else {
      var r: nat :| Alone(vs, r) && u == vs[r].cats;
      assert !IsPair(vs, p, r);
    }
  }

  /** A pair of distinct tuples leaves room for a value. */
  lemma PairHasRoom(vs: seq<Vector>, categories: nat, weight: nat, p: nat, q: nat)
    requires Uniform(vs, categories) && Distinct(vs) && Floor(vs, weight) && IsPair(vs, p, q)
    ensures weight < categories
  {
    JoinIsHeavier(vs, p, q, weight);
    SetCountBounds(Join(vs[p].cats, vs[q].cats));
  }

  /** What a round's tuples make up, the tuples before it make up. */
  lemma RoundInjective(vs: seq<Vector>, hash: Hash)
    requires Injective(hash, vs)
    ensures Injective(hash, Round(vs, hash))
  {
    forall a, b | SameHash(hash, CatsOf(Round(vs, hash)), a, b)
      ensures a == b
    {
      SupportWasThere(vs, hash, a);
      SupportWasThere(vs, hash, b);
      assert SameHash(hash, CatsOf(vs), a, b);
    }
  }

  lemma SupportWasThere(vs: seq<Vector>, hash: Hash, t: Cats)
    requires Injective(hash, vs) && Supported(CatsOf(Round(vs, hash)), t)
    ensures Supported(CatsOf(vs), t)
  {
    forall i | 0 <= i < |t| && t[i].Some?
      ensures exists a :: a in CatsOf(vs) && Extends(t, a) && a[i] == t[i]
    {
      var x :| x in CatsOf(Round(vs, hash)) && Extends(t, x) && x[i] == t[i];
      var c := OriginOf(vs, hash, x, i);
      assert vs[c].cats in CatsOf(vs);
    }
    var x :| x in CatsOf(Round(vs, hash)) && Extends(t, x);
    var c := OriginOf(vs, hash, x, 0);
    assert vs[c].cats in CatsOf(vs);
  }

  lemma RoundUniform(vs: seq<Vector>, hash: Hash, categories: nat)
    requires Injective(hash, vs) && Uniform(vs, categories)
    ensures Uniform(Round(vs, hash), categories) && Injective(hash, Round(vs, hash))
  {
    var next := Round(vs, hash);
    RoundInjective(vs, hash);
    forall i | 0 <= i < |next|
      ensures |next[i].cats| == categories
    {
      assert next[i] in next;
      RoundTuples(vs, hash, next[i].cats);
    }
  }

  // ---- All rounds ----

  ghost predicate AnyPair(vs: seq<Vector>) {
    exists p: nat, q: nat :: IsPair(vs, p, q)
  }

  lemma NextFloor(vs: seq<Vector>, hash: Hash, categories: nat, done: nat)
    requires Injective(hash, vs) && Uniform(vs, categories)
    requires done > 0 ==> Distinct(vs) && Floor(vs, done - 1)
    ensures Distinct(Round(vs, hash)) && Floor(Round(vs, hash), done)
    ensures AnyPair(vs) ==> done <= categories
  {
    RoundDistinct(vs, hash);
    if done > 0 {
      RoundRaisesFloor(vs, hash, done - 1);
      if p: nat, q: nat :| IsPair(vs, p, q) {
        PairHasRoom(vs, categories, done - 1, p, q);
      }
    }
  }

  /** One round after the other, until one merges nothing. */
  ghost function Rounds(vs: seq<Vector>, hash: Hash, categories: nat, done: nat): seq<Vector>
    requires Injective(hash, vs) && Uniform(vs, categories)
    requires done > 0 ==> Distinct(vs) && Floor(vs, done - 1)
    decreases categories + 2 - done
  {
    NextFloor(vs, hash, categories, done);
    RoundUniform(vs, hash, categories);
    if AnyPair(vs) then Rounds(Round(vs, hash), hash, categories, done + 1) else Round(vs, hash)
  }

  ghost function Aggregated(input: seq<Vector>, hash: Hash, categories: nat): seq<Vector>
    requires Injective(hash, input) && Uniform(input, categories)
  {
    Rounds(input, hash, categories, 0)
  }

  lemma RoundKeepsAll(vs: seq<Vector>, hash: Hash, input: seq<Vector>, categories: nat)
    requires Injective(hash, vs) && Uniform(vs, categories)
    requires AllComeFrom(vs, input) && NamesKept(vs, input)
    ensures Uniform(Round(vs, hash), categories) && Injective(hash, Round(vs, hash))
    ensures MaxJoins(CatsOf(Round(vs, hash))) == MaxJoins(CatsOf(vs))
    ensures AllComeFrom(Round(vs, hash), input) && NamesKept(Round(vs, hash), input)
  {
    RoundUniform(vs, hash, categories);
    RoundKeepsMaxJoins(vs, hash);
    RoundComesFrom(vs, hash, input);
    RoundKeepsNames(vs, hash, input);
  }

  lemma NothingMergesNext(vs: seq<Vector>, hash: Hash)
    requires Injective(hash, vs) && !AnyPair(vs)
    ensures forall p: nat :: p < |Round(vs, hash)| ==> Alone(Round(vs, hash), p)
  {
    var next := Round(vs, hash);
    RoundDistinct(vs, hash);
    forall x: nat, y: nat | x < |next| && y < |next| && x != y
      ensures !IsPair(next, x, y)
    {
      assert next[x] in next && next[y] in next;
      RoundTuples(vs, hash, next[x].cats);
      RoundTuples(vs, hash, next[y].cats);
      var p: nat :| Alone(vs, p) && next[x].cats == vs[p].cats;
      AloneStaysAlone(vs, p, next[y].cats);
    }
  }

  ghost predicate AllAlone(vs: seq<Vector>) {
    forall p: nat :: p < |vs| ==> Alone(vs, p)
  }

  lemma {:induction false} RoundsCombine(vs: seq<Vector>, hash: Hash, categories: nat, done: nat, input: seq<Vector>)
    requires Injective(hash, vs) && Uniform(vs, categories)
    requires done > 0 ==> Distinct(vs) && Floor(vs, done - 1)
    requires AllComeFrom(vs, input) && NamesKept(vs, input)
    ensures var out := Rounds(vs, hash, categories, done);
      && Uniform(out, categories) && AllAlone(out)
      && MaxJoins(CatsOf(out)) == MaxJoins(CatsOf(vs))
      && AllComeFrom(out, input) && NamesKept(out, input)
    decreases categories + 2 - done
  {
    NextFloor(vs, hash, categories, done);
    RoundKeepsAll(vs, hash, input, categories);
    if AnyPair(vs) {
      RoundsCombine(Round(vs, hash), hash, categories, done + 1, input);
    } else {
      NothingMergesNext(vs, hash);
    }
  }

  lemma RoundAscends(vs: seq<Vector>, hash: Hash)
    ensures StrictlyAscending(Round(vs, hash), hash)
  {
    SortAscending(Multiply(vs, hash), hash);
    DedupAscends(Sort(Multiply(vs, hash), hash), hash);
  }

  /** Whatever merges, what is returned is in the order of the hashes. */
  lemma {:induction false} RoundsAscend(vs: seq<Vector>, hash: Hash, categories: nat, done: nat)
    requires Injective(hash, vs) && Uniform(vs, categories)
    requires done > 0 ==> Distinct(vs) && Floor(vs, done - 1)
    ensures StrictlyAscending(Rounds(vs, hash, categories, done), hash)
    decreases categories + 2 - done
  {
    NextFloor(vs, hash, categories, done);
    RoundUniform(vs, hash, categories);
    RoundAscends(vs, hash);
    if AnyPair(vs) {
      RoundsAscend(Round(vs, hash), hash, categories, done + 1);
    }
  }

  /** What aggregation returns: the maximal joins, each once, with the options of exactly
      the inputs that each one extends. */
  lemma AggregatedCombines(input: seq<Vector>, hash: Hash, categories: nat)
    requires Injective(hash, input) && Uniform(input, categories)
    ensures var out := Aggregated(input, hash, categories);
      && CatsOf(out) == MaxJoins(CatsOf(input))
      && Uniform(out, categories)
      && (forall p: nat, q: nat :: p < |out| && q < |out| && p != q ==> !Compatible(out[p].cats, out[q].cats))
      && AllComeFrom(out, input)
      && (forall v, w :: v in input && w in out && Extends(w.cats, v.cats) ==>
            v.options.entries.Keys <= w.options.entries.Keys)
  {
    var out := Aggregated(input, hash, categories);
    RoundsCombine(input, hash, categories, 0, input);
    AllAloneAreMaxJoins(out);
    forall p: nat, q: nat | p < |out| && q < |out| && p != q
      ensures !Compatible(out[p].cats, out[q].cats)
    {
      assert Alone(out, p) && !IsPair(out, p, q);
    }
    forall v, w | v in input && w in out && Extends(w.cats, v.cats)
      ensures v.options.entries.Keys <= w.options.entries.Keys
    {
      NamesReach(out, input, v, w);
    }
  }

  /** Where all tuples conflict, an option within a tuple is an option of its vector. */
  lemma NamesReach(out: seq<Vector>, input: seq<Vector>, v: Vector, w: Vector)
    requires forall p: nat :: p < |out| ==> Alone(out, p)
    requires NamesKept(out, input)
    requires v in input && w in out && Extends(w.cats, v.cats)
    ensures v.options.entries.Keys <= w.options.entries.Keys
  {
    AllAloneAreMaxJoins(out);
    assert w.cats in MaxJoins(CatsOf(out));
    forall name | name in v.options.entries
      ensures name in w.options.entries
    {
      assert NameWithin(input, w.cats, name);
      NameIsOwn(out, w, name);
    }
  }

  lemma NameIsOwn(out: seq<Vector>, w: Vector, name: OptionName)
    requires forall p: nat :: p < |out| ==> Alone(out, p)
    requires w in out && NameWithin(out, w.cats, name)
    ensures name in w.options.entries
  {
    var u :| u in out && Extends(w.cats, u.cats) && name in u.options.entries;
    var p :| 0 <= p < |out| && out[p] == w;
    var q :| 0 <= q < |out| && out[q] == u;
    assert Alone(out, p) && !IsPair(out, p, q);
  }
}
