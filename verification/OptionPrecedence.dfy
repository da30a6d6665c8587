/** Which input gives an option of an aggregated vector its value. */
module OptionPrecedence {
  import opened Wrappers
  import opened CategoryTuples
  import opened Vectors
  import opened Aggregation
  import opened AggregationRounds

  // ---- One round ----

  /** The merged pair has the tuple, and the option. */
  predicate PairHas(vs: seq<Vector>, cats: Cats, aspect: Aspect, p: nat, q: nat) {
    IsPair(vs, p, q) && Has(MergedPair(vs, p, q), cats, aspect)
  }

  /** Of the pairs with this tuple and this option, the one tried last. */
  ghost predicate LastPair(vs: seq<Vector>, cats: Cats, aspect: Aspect, p: nat, q: nat) {
    && PairHas(vs, cats, aspect, p, q)
    && forall a: nat, b: nat :: PairHas(vs, cats, aspect, a, b) ==> !Before(p, q, a, b)
  }

  /** The last of the pairs of vector p with the vectors from q on is the one with r. */
  ghost predicate LastInRow(vs: seq<Vector>, p: nat, q: nat, cats: Cats, aspect: Aspect, last: Option<Vector>, r: nat)
  {
    if last.Some? then
      && q <= r && PairHas(vs, cats, aspect, p, r) && last.value == MergedPair(vs, p, r)
      && forall b: nat :: PairHas(vs, cats, aspect, p, b) ==> b <= r
    else forall b: nat :: q <= b ==> !PairHas(vs, cats, aspect, p, b)
  }

  lemma {:induction false} LastOfRow(vs: seq<Vector>, p: nat, q: nat, cats: Cats, aspect: Aspect) returns (r: nat)
    requires q <= |vs|
    ensures LastInRow(vs, p, q, cats, aspect, LastOf(Row(vs, p, q), cats, aspect), r)
    decreases |vs| - q
  {
    r := q;
    if q < |vs| {
      r := LastOfRow(vs, p, q + 1, cats, aspect);
      LastOfFirst(vs, p, q, cats, aspect);
      if LastOf(Row(vs, p, q + 1), cats, aspect).None? {
        r := q;
        assert forall b: nat :: q <= b && PairHas(vs, cats, aspect, p, b) ==> b == q;
      }
    }
  }

  lemma LastOfFirst(vs: seq<Vector>, p: nat, q: nat, cats: Cats, aspect: Aspect)
    requires q < |vs|
    ensures var last := LastOf(Row(vs, p, q + 1), cats, aspect);
      LastOf(Row(vs, p, q), cats, aspect) ==
      if last.Some? then last
      else if PairHas(vs, cats, aspect, p, q) then Some(MergedPair(vs, p, q))
      else None
  {
    var first := if IsPair(vs, p, q) then [MergedPair(vs, p, q)] else [];
    LastOfConcat(first, Row(vs, p, q + 1), cats, aspect);
    LastOfAtMostOne(first, cats, aspect);
  }

  lemma LastOfAtMostOne(vs: seq<Vector>, cats: Cats, aspect: Aspect)
    requires |vs| <= 1
    ensures LastOf(vs, cats, aspect) == if vs != [] && Has(vs[0], cats, aspect) then Some(vs[0]) else None
  {
  }

  ghost predicate LastInRows(vs: seq<Vector>, from: nat, cats: Cats, aspect: Aspect, last: Option<Vector>, p: nat,
                             q: nat)
  {
    if last.Some? then LastPair(vs, cats, aspect, p, q) && last.value == MergedPair(vs, p, q)
    else forall a: nat, b: nat :: from <= a ==> !PairHas(vs, cats, aspect, a, b)
  }

  lemma {:induction false} LastOfRows(vs: seq<Vector>, from: nat, cats: Cats, aspect: Aspect) returns (p: nat, q: nat)
    requires from <= |vs|
    ensures LastInRows(vs, from, cats, aspect, LastOf(Rows(vs, from), cats, aspect), p, q)
    decreases |vs| - from
  {
    p, q := 0, 0;
    if from < |vs| {
      var row, rest := Row(vs, from, 0), Rows(vs, from + 1);
      LastOfConcat(row, rest, cats, aspect);
      p, q := LastOfRows(vs, from + 1, cats, aspect);
      if LastOf(rest, cats, aspect).None? {
        var r := LastOfRow(vs, from, 0, cats, aspect);
        p, q := from, r;
        LastRowDecides(vs, from, cats, aspect, LastOf(row, cats, aspect), r);
      }
    }
  }

  lemma LastRowDecides(vs: seq<Vector>, from: nat, cats: Cats, aspect: Aspect, last: Option<Vector>, r: nat)
    requires LastInRow(vs, from, 0, cats, aspect, last, r) && LastInRows(vs, from + 1, cats, aspect, None, 0, 0)
    ensures LastInRows(vs, from, cats, aspect, last, from, r)
  {
  }

  lemma RoundShows(vs: seq<Vector>, hash: Hash, x: Vector)
    requires Injective(hash, vs) && x in Round(vs, hash)
    ensures Shows(x, Rows(vs, 0) + Unmerged(vs, 0))
  {
    var multiplied := Multiply(vs, hash);
    MultipliedSeparates(vs, hash);
    SortAscending(multiplied, hash);
    LastOptionWins(Sort(multiplied, hash), hash, x);
    SortShows(x, multiplied, hash);
    SortShows(x, Rows(vs, 0) + Unmerged(vs, 0), hash);
  }

  lemma AloneIsNoJoin(vs: seq<Vector>, r: nat, p: nat, q: nat)
    requires Alone(vs, r) && IsPair(vs, p, q)
    ensures Join(vs[p].cats, vs[q].cats) != vs[r].cats
  {
    JoinExtends(vs[p].cats, vs[q].cats);
    assert !IsPair(vs, r, p) && !IsPair(vs, r, q);
  }

  /** The value of an option after a round, and likewise the depth, is that of the last
      pair to be tried whose join is the tuple and which has the option; or that of the one
      vector with the tuple, if it merges with nothing. */
  lemma RoundOption(vs: seq<Vector>, hash: Hash, x: Vector, aspect: Aspect) returns (p: nat, q: nat)
    requires Injective(hash, vs) && x in Round(vs, hash) && Has(x, x.cats, aspect)
    ensures || (LastPair(vs, x.cats, aspect, p, q) && Agree(x, MergedPair(vs, p, q), aspect))
            || (Alone(vs, p) && Has(vs[p], x.cats, aspect) && Agree(x, vs[p], aspect))
  {
    var rows, rest := Rows(vs, 0), Unmerged(vs, 0);
    RoundShows(vs, hash, x);
    assert ShowsLast(x, rows + rest, aspect);
    LastOfConcat(rows, rest, x.cats, aspect);
    p, q := LastOfRows(vs, 0, x.cats, aspect);
    if LastOf(rest, x.cats, aspect).Some? {
      p := UnmergedIsAlone(vs, 0, LastOf(rest, x.cats, aspect).value);
    }
  }

  /** Where there is such a last pair, it decides. */
  lemma RoundTakesLastPair(vs: seq<Vector>, hash: Hash, x: Vector, aspect: Aspect, p: nat, q: nat)
    requires Injective(hash, vs) && x in Round(vs, hash) && LastPair(vs, x.cats, aspect, p, q)
    ensures Has(x, x.cats, aspect) && Agree(x, MergedPair(vs, p, q), aspect)
  {
    var rows, rest := Rows(vs, 0), Unmerged(vs, 0);
    RoundShows(vs, hash, x);
    assert ShowsLast(x, rows + rest, aspect);
    LastOfConcat(rows, rest, x.cats, aspect);
    var a, b := LastOfRows(vs, 0, x.cats, aspect);
    if LastOf(rest, x.cats, aspect).Some? {
      var r := UnmergedIsAlone(vs, 0, LastOf(rest, x.cats, aspect).value);
      AloneIsNoJoin(vs, r, p, q);
    }
    assert !Before(p, q, a, b) && !Before(a, b, p, q);
  }

  // ---- The last two vectors ----

  predicate Within(vs: seq<Vector>, t: Cats, p: nat) {
    p < |vs| && Extends(t, vs[p].cats)
  }

  /** The last two vectors within the tuple. */
  ghost predicate LastTwo(vs: seq<Vector>, t: Cats, y: nat, z: nat) {
    && y < z && Within(vs, t, y) && Within(vs, t, z)
    && forall r: nat :: y < r && r != z ==> !Within(vs, t, r)
  }

  /** Any two vectors within the tuple make up the whole tuple. */
  ghost predicate Complete(vs: seq<Vector>, t: Cats) {
    forall p: nat, q: nat :: Within(vs, t, p) && Within(vs, t, q) && p != q ==> Join(vs[p].cats, vs[q].cats) == t
  }

  lemma WithinIsPair(vs: seq<Vector>, t: Cats, p: nat, q: nat)
    requires Within(vs, t, p) && Within(vs, t, q) && p != q
    ensures IsPair(vs, p, q) && IsPair(vs, q, p)
  {
  }

  lemma LastTwoAreLastPair(vs: seq<Vector>, t: Cats, y: nat, z: nat, aspect: Aspect)
    requires LastTwo(vs, t, y, z) && Complete(vs, t) && IsPair(vs, z, y)
    requires Has(MergedPair(vs, z, y), t, aspect)
    ensures LastPair(vs, t, aspect, z, y)
  {
    forall a: nat, b: nat | PairHas(vs, t, aspect, a, b)
      ensures !Before(z, y, a, b)
    {
      JoinExtends(vs[a].cats, vs[b].cats);
      assert Within(vs, t, a) && Within(vs, t, b);
    }
  }

  /** Where any two vectors within a tuple make it up, the last two decide: the last one is
      merged with the one before it after all others. */
  lemma LastTwoDecide(vs: seq<Vector>, hash: Hash, x: Vector, y: nat, z: nat, aspect: Aspect)
    requires Injective(hash, vs) && x in Round(vs, hash)
    requires LastTwo(vs, x.cats, y, z) && Complete(vs, x.cats)
    requires Has(Vector(x.cats, OptionsInOrder(vs[z], vs[y])), x.cats, aspect)
    ensures Has(x, x.cats, aspect) && Agree(x, Vector(x.cats, OptionsInOrder(vs[z], vs[y])), aspect)
  {
    WithinIsPair(vs, x.cats, z, y);
    LastTwoAreLastPair(vs, x.cats, y, z, aspect);
    RoundTakesLastPair(vs, hash, x, aspect, z, y);
  }

  // ---- A vector that is finished ----

  /** The vector at p is the only one within its tuple. */
  ghost predicate OnlyWithin(vs: seq<Vector>, p: nat) {
    p < |vs| && forall q: nat :: Within(vs, vs[p].cats, q) ==> q == p
  }

  lemma AgreeOnAll(x: Vector, y: Vector)
    requires x.cats == y.cats
    requires forall aspect :: Has(x, x.cats, aspect) == Has(y, x.cats, aspect)
    requires forall aspect :: Has(x, x.cats, aspect) ==> Agree(x, y, aspect)
    ensures x == y
  {
    assert Has(x, x.cats, None) && Agree(x, y, None);
    forall name
      ensures name in x.options.entries <==> name in y.options.entries
      ensures name in x.options.entries ==> x.options.entries[name] == y.options.entries[name]
    {
      assert Has(x, x.cats, Some(name)) == Has(y, x.cats, Some(name));
      assert Has(x, x.cats, Some(name)) ==> Agree(x, y, Some(name));
    }
    assert x.options.entries == y.options.entries;
  }

  lemma OnlyWithinIsAlone(vs: seq<Vector>, p: nat)
    requires OnlyWithin(vs, p) && vs[p].cats in MaxJoins(CatsOf(vs))
    ensures Alone(vs, p)
  {
    forall q: nat | q < |vs|
      ensures !IsPair(vs, p, q)
    {
      assert vs[q].cats in CatsOf(vs);
      assert IsPair(vs, p, q) ==> Within(vs, vs[p].cats, q);
    }
  }

  /** A vector that is the only one within a maximal join comes through a round as it is. */
  lemma FinishedStays(vs: seq<Vector>, hash: Hash, p: nat) returns (r: nat)
    requires Injective(hash, vs) && OnlyWithin(vs, p) && vs[p].cats in MaxJoins(CatsOf(vs))
    ensures OnlyWithin(Round(vs, hash), r) && Round(vs, hash)[r] == vs[p]
  {
    var x, next := vs[p], Round(vs, hash);
    OnlyWithinIsAlone(vs, p);
    MultiplyMembers(vs, hash, x);
    var w := RoundAbsorbs(vs, hash, x);
    r :| 0 <= r < |next| && next[r] == w;
    FinishedIsShown(vs, hash, p, w);
    RoundDistinct(vs, hash);
    forall q: nat | Within(next, x.cats, q)
      ensures q == r
    {
      assert next[q] in next;
      RoundTuples(vs, hash, next[q].cats);
      OnlyTupleWithin(vs, p, next[q].cats);
    }
  }

  lemma OnlyTupleWithin(vs: seq<Vector>, p: nat, u: Cats)
    requires OnlyWithin(vs, p) && InRound(vs, u) && Extends(vs[p].cats, u)
    ensures u == vs[p].cats
  {
    if a: nat, b: nat :| IsPair(vs, a, b) && u == Join(vs[a].cats, vs[b].cats) {
      JoinExtends(vs[a].cats, vs[b].cats);
      assert Within(vs, vs[p].cats, a) && Within(vs, vs[p].cats, b);
    } else {
      var a: nat :| Alone(vs, a) && u == vs[a].cats;
      assert Within(vs, vs[p].cats, a);
    }
  }

  lemma FinishedIsShown(vs: seq<Vector>, hash: Hash, p: nat, w: Vector)
    requires Injective(hash, vs) && OnlyWithin(vs, p) && Alone(vs, p)
    requires w in Round(vs, hash) && w.cats == vs[p].cats
    ensures w == vs[p]
  {
    var x, list := vs[p], Rows(vs, 0) + Unmerged(vs, 0);
    RoundShows(vs, hash, w);
    AloneIsUnmerged(vs, 0, p);
    assert x in list;
    forall v | v in list && v.cats == x.cats
      ensures v == x
    {
      OnlyOneMultiplied(vs, hash, p, v);
    }
    forall aspect
      ensures Has(w, w.cats, aspect) == Has(x, w.cats, aspect)
      ensures Has(w, w.cats, aspect) ==> Agree(w, x, aspect)
    {
      assert ShowsLast(w, list, aspect);
    }
    AgreeOnAll(w, x);
  }

  lemma OnlyOneMultiplied(vs: seq<Vector>, hash: Hash, p: nat, v: Vector)
    requires OnlyWithin(vs, p) && Alone(vs, p) && v.cats == vs[p].cats
    requires v in Rows(vs, 0) + Unmerged(vs, 0)
    ensures v == vs[p]
  {
    SortKeepsMembers(Rows(vs, 0) + Unmerged(vs, 0), hash);
    MultiplyMembers(vs, hash, v);
    if a: nat, b: nat :| IsPair(vs, a, b) && v == MergedPair(vs, a, b) {
      AloneIsNoJoin(vs, p, a, b);
    } else {
      var a: nat :| Alone(vs, a) && v == vs[a];
      assert Within(vs, vs[p].cats, a);
    }
  }

  lemma {:induction false} FinishedIsReturned(vs: seq<Vector>, hash: Hash, categories: nat, done: nat, p: nat)
    requires Injective(hash, vs) && Uniform(vs, categories)
    requires done > 0 ==> Distinct(vs) && Floor(vs, done - 1)
    requires OnlyWithin(vs, p) && vs[p].cats in MaxJoins(CatsOf(vs))
    ensures vs[p] in Rounds(vs, hash, categories, done)
    decreases categories + 2 - done
  {
    NextFloor(vs, hash, categories, done);
    RoundUniform(vs, hash, categories);
    RoundKeepsMaxJoins(vs, hash);
    var r := FinishedStays(vs, hash, p);
    if AnyPair(vs) {
      FinishedIsReturned(Round(vs, hash), hash, categories, done + 1, r);
    }
  }

  /** A round finishes a maximal join that any two vectors within it make up. */
  lemma RoundFinishes(vs: seq<Vector>, hash: Hash, t: Cats, y: nat, z: nat) returns (r: nat)
    requires Injective(hash, vs) && LastTwo(vs, t, y, z) && Complete(vs, t)
    ensures OnlyWithin(Round(vs, hash), r) && Round(vs, hash)[r].cats == t
  {
    var next := Round(vs, hash);
    WithinIsPair(vs, t, y, z);
    RoundTuples(vs, hash, t);
    var x :| x in next && x.cats == t;
    r :| 0 <= r < |next| && next[r] == x;
    RoundDistinct(vs, hash);
    forall q: nat | Within(next, t, q)
      ensures q == r
    {
      assert next[q] in next;
      RoundTuples(vs, hash, next[q].cats);
      CompleteTuples(vs, t, y, z, next[q].cats);
    }
  }

  lemma CompleteTuples(vs: seq<Vector>, t: Cats, y: nat, z: nat, u: Cats)
    requires LastTwo(vs, t, y, z) && Complete(vs, t) && InRound(vs, u) && Extends(t, u)
    ensures u == t
  {
    if a: nat, b: nat :| IsPair(vs, a, b) && u == Join(vs[a].cats, vs[b].cats) {
      JoinExtends(vs[a].cats, vs[b].cats);
      assert Within(vs, t, a) && Within(vs, t, b);
    } else {
      var a: nat :| Alone(vs, a) && u == vs[a].cats;
      WithinIsPair(vs, t, a, if a == y then z else y);
      assert false;
    }
  }

  // ---- All rounds ----

  /** Where any two vectors within a returned tuple make it up, the next round returns the
      vector as it is. */
  lemma TakenFromRound(vs: seq<Vector>, hash: Hash, categories: nat, done: nat, w: Vector, y: nat, z: nat)
    requires Injective(hash, vs) && Uniform(vs, categories)
    requires done > 0 ==> Distinct(vs) && Floor(vs, done - 1)
    requires w in Rounds(vs, hash, categories, done)
    requires LastTwo(vs, w.cats, y, z) && Complete(vs, w.cats)
    ensures w in Round(vs, hash)
  {
    NextFloor(vs, hash, categories, done);
    RoundUniform(vs, hash, categories);
    WithinIsPair(vs, w.cats, y, z);
    var r := RoundFinishes(vs, hash, w.cats, y, z);
    ReturnedOnce(Round(vs, hash), hash, categories, done + 1, w, r);
  }

  /** There, the last two of them give the returned vector every option and the depth that
      they have between them. */
  lemma LastTwoDecideFinally(vs: seq<Vector>, hash: Hash, categories: nat, done: nat, w: Vector, y: nat, z: nat,
                             aspect: Aspect)
    requires Injective(hash, vs) && Uniform(vs, categories)
    requires done > 0 ==> Distinct(vs) && Floor(vs, done - 1)
    requires w in Rounds(vs, hash, categories, done)
    requires LastTwo(vs, w.cats, y, z) && Complete(vs, w.cats)
    requires Has(Vector(w.cats, OptionsInOrder(vs[z], vs[y])), w.cats, aspect)
    ensures Has(w, w.cats, aspect) && Agree(w, Vector(w.cats, OptionsInOrder(vs[z], vs[y])), aspect)
  {
    TakenFromRound(vs, hash, categories, done, w, y, z);
    LastTwoDecide(vs, hash, w, y, z, aspect);
  }

  /** What is returned under a finished tuple is the finished vector. */
  lemma ReturnedOnce(vs: seq<Vector>, hash: Hash, categories: nat, done: nat, w: Vector, r: nat)
    requires Injective(hash, vs) && Uniform(vs, categories)
    requires done > 0 ==> Distinct(vs) && Floor(vs, done - 1)
    requires w in Rounds(vs, hash, categories, done)
    requires OnlyWithin(vs, r) && vs[r].cats == w.cats
    ensures w == vs[r]
  {
    var out := Rounds(vs, hash, categories, done);
    RoundsReturnMaxJoins(vs, hash, categories, done);
    assert w.cats in CatsOf(out);
    FinishedIsReturned(vs, hash, categories, done, r);
    var i :| 0 <= i < |out| && out[i] == w;
    var j :| 0 <= j < |out| && out[j] == vs[r];
    assert Alone(out, i) && !IsPair(out, i, j);
  }

  lemma RoundsReturnMaxJoins(vs: seq<Vector>, hash: Hash, categories: nat, done: nat)
    requires Injective(hash, vs) && Uniform(vs, categories)
    requires done > 0 ==> Distinct(vs) && Floor(vs, done - 1)
    ensures var out := Rounds(vs, hash, categories, done); AllAlone(out) && CatsOf(out) == MaxJoins(CatsOf(vs))
  {
    RoundsCombine(vs, hash, categories, done, vs);
    AllAloneAreMaxJoins(Rounds(vs, hash, categories, done));
  }
}
