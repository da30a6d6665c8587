/** For any list of inputs: the last list that is not yet combined decides. */
module LastRounds {
  import opened Wrappers
  import opened CategoryTuples
  import opened Vectors
  import opened Machines
  import opened Aggregation
  import opened AggregationRounds
  import opened OptionPrecedence
  import opened InputPrecedence

  ghost function Rounding(hash: Hash): seq<Vector> -> seq<Vector> {
    vs => Round(vs, hash)
  }

  /** The list after so many rounds. */
  ghost function After(vs: seq<Vector>, hash: Hash, rounds: nat): seq<Vector> {
    Iterate(Rounding(hash), vs, rounds)
  }

  /** The last two vectors within a tuple that any two of them make up; or y and z are both
      the only vector within it. */
  ghost predicate LastOnes(vs: seq<Vector>, t: Cats, y: nat, z: nat) {
    || (LastTwo(vs, t, y, z) && Complete(vs, t))
    || (y == z && OnlyWithin(vs, z) && vs[z].cats == t)
  }

  function MergedLast(vs: seq<Vector>, y: nat, z: nat): Options
    requires y < |vs| && z < |vs| && |vs[y].cats| == |vs[z].cats|
  {
    if y == z then vs[z].options else OptionsInOrder(vs[z], vs[y])
  }

  lemma {:induction false} LastWithin(vs: seq<Vector>, t: Cats, n: nat) returns (z: nat)
    requires n <= |vs| && exists r: nat :: r < n && Within(vs, t, r)
    ensures z < n && Within(vs, t, z) && forall r: nat :: z < r < n ==> !Within(vs, t, r)
  {
    if Within(vs, t, n - 1) {
      z := n - 1;
    } else {
      z := LastWithin(vs, t, n - 1);
    }
  }

  lemma SomeWithin(vs: seq<Vector>, t: Cats) returns (p: nat)
    requires t in MaxJoins(CatsOf(vs))
    ensures Within(vs, t, p)
  {
    var a :| a in CatsOf(vs) && Extends(t, a);
    var v :| v in vs && v.cats == a;
    p :| 0 <= p < |vs| && vs[p] == v;
  }

  /** A tuple that any two vectors within it make up has last ones. */
  lemma HasLastOnes(vs: seq<Vector>, t: Cats) returns (y: nat, z: nat)
    requires t in MaxJoins(CatsOf(vs)) && Complete(vs, t)
    ensures LastOnes(vs, t, y, z)
  {
    var p := SomeWithin(vs, t);
    z := LastWithin(vs, t, |vs|);
    y := z;
    if r: nat :| r < z && Within(vs, t, r) {
      y := LastWithin(vs, t, z);
    } else {
      assert forall r: nat :: r < |vs| && r != z && Extends(t, vs[r].cats) ==> Within(vs, t, r);
    }
  }

  /** The vector has of each option, and of the depth, what the last two have between them. */
  ghost predicate Decided(w: Vector, vs: seq<Vector>, y: nat, z: nat) {
    LastOnes(vs, w.cats, y, z) && forall aspect :: DecidedBy(w, Vector(w.cats, MergedLast(vs, y, z)), aspect)
  }

  ghost predicate DecidedBy(w: Vector, merged: Vector, aspect: Aspect) {
    Has(merged, w.cats, aspect) ==> Has(w, w.cats, aspect) && Agree(w, merged, aspect)
  }

  lemma CompleteDecides(vs: seq<Vector>, hash: Hash, categories: nat, done: nat, w: Vector) returns (y: nat, z: nat)
    requires Injective(hash, vs) && Uniform(vs, categories)
    requires done > 0 ==> Distinct(vs) && Floor(vs, done - 1)
    requires w in Rounds(vs, hash, categories, done)
    requires Complete(vs, w.cats)
    ensures Decided(w, vs, y, z)
  {
    RoundsReturnMaxJoins(vs, hash, categories, done);
    assert w.cats in CatsOf(Rounds(vs, hash, categories, done));
    y, z := HasLastOnes(vs, w.cats);
    if y == z {
      ReturnedOnce(vs, hash, categories, done, w, z);
    } else {
      forall aspect
        ensures DecidedBy(w, Vector(w.cats, MergedLast(vs, y, z)), aspect)
      {
        if Has(Vector(w.cats, MergedLast(vs, y, z)), w.cats, aspect) {
          LastTwoDecideFinally(vs, hash, categories, done, w, y, z, aspect);
        }
      }
    }
  }

  /** Where a tuple is not complete yet, there is another round. */
  lemma NotYetComplete(vs: seq<Vector>, hash: Hash, categories: nat, done: nat, t: Cats)
    requires Injective(hash, vs) && Uniform(vs, categories) && !Complete(vs, t)
    requires done > 0 ==> Distinct(vs) && Floor(vs, done - 1)
    ensures done <= categories
    ensures var next := Round(vs, hash);
      && Uniform(next, categories) && Injective(hash, next) && Distinct(next) && Floor(next, done)
      && Rounds(vs, hash, categories, done) == Rounds(next, hash, categories, done + 1)
  {
    var p: nat, q: nat :| Within(vs, t, p) && Within(vs, t, q) && p != q;
    WithinIsPair(vs, t, p, q);
    NextFloor(vs, hash, categories, done);
    RoundUniform(vs, hash, categories);
  }

  /** The vector will be returned for the list, after what was done so far. */
  ghost predicate Returned(vs: seq<Vector>, hash: Hash, categories: nat, done: nat, w: Vector) {
    && Injective(hash, vs) && Uniform(vs, categories)
    && (done > 0 ==> Distinct(vs) && Floor(vs, done - 1))
    && w in Rounds(vs, hash, categories, done)
  }

  /** For every list of inputs and every hash, the last two vectors within the tuple decide,
      after some rounds: once any two of those within it make it up. */
  lemma LastOnesDecide(input: seq<Vector>, hash: Hash, categories: nat, w: Vector)
      returns (rounds: nat, last: seq<Vector>, y: nat, z: nat)
    requires Injective(hash, input) && Uniform(input, categories) && w in Aggregated(input, hash, categories)
    ensures rounds <= categories + 1
    ensures last == After(input, hash, rounds) && Decided(w, last, y, z)
  {
    var inv := (vs: seq<Vector>, done: nat) => Returned(vs, hash, categories, done, w);
    var goal := vs => Complete(vs, w.cats);
    forall vs, done: nat | inv(vs, done) && !goal(vs)
      ensures done <= categories && inv(Rounding(hash)(vs), done + 1)
    {
      NotYetComplete(vs, hash, categories, done, w.cats);
    }
    rounds := IterateReaches(Rounding(hash), inv, goal, categories, input, 0);
    last := After(input, hash, rounds);
    y, z := CompleteDecides(last, hash, categories, rounds, w);
  }

  // ---- The deepest input, in general ----

  /** Nothing is deeper than the given options, and what is as deep includes them. */
  predicate Follows(options: Options, given: Options) {
    options.depth <= given.depth && (options.depth == given.depth ==> Includes(options, given))
  }

  ghost predicate AllFollow(vs: seq<Vector>, t: Cats, given: Options) {
    forall v :: v in vs && Extends(t, v.cats) ==> Follows(v.options, given)
  }

  lemma MultipliedFollows(vs: seq<Vector>, hash: Hash, t: Cats, v: Vector, given: Options)
    requires AllFollow(vs, t, given) && v in Multiply(vs, hash) && Extends(t, v.cats)
    ensures Follows(v.options, given)
  {
    MultiplyMembers(vs, hash, v);
    if p: nat, q: nat :| IsPair(vs, p, q) && v == MergedPair(vs, p, q) {
      JoinExtends(vs[p].cats, vs[q].cats);
    }
  }

  lemma LastOfAll(vs: seq<Vector>, cats: Cats, aspect: Aspect)
    requires LastOf(vs, cats, None).Some? && Has(LastOf(vs, cats, None).value, cats, aspect)
    ensures LastOf(vs, cats, aspect) == LastOf(vs, cats, None)
  {
  }

  lemma ShownFollows(x: Vector, list: seq<Vector>, given: Options)
    requires Shows(x, list)
    requires forall v :: v in list && v.cats == x.cats ==> Follows(v.options, given)
    ensures Follows(x.options, given)
  {
    assert ShowsLast(x, list, None);
    var v := LastOf(list, x.cats, None).value;
    assert Follows(v.options, given);
    if x.options.depth == given.depth {
      forall name | name in given.entries
        ensures name in x.options.entries && x.options.entries[name] == given.entries[name]
      {
        LastOfAll(list, x.cats, Some(name));
        assert ShowsLast(x, list, Some(name));
      }
    }
  }

  lemma RoundFollows(vs: seq<Vector>, hash: Hash, t: Cats, given: Options)
    requires Injective(hash, vs) && AllFollow(vs, t, given)
    ensures AllFollow(Round(vs, hash), t, given)
  {
    var list := Rows(vs, 0) + Unmerged(vs, 0);
    SortKeepsMembers(list, hash);
    forall x | x in Round(vs, hash) && Extends(t, x.cats)
      ensures Follows(x.options, given)
    {
      RoundShows(vs, hash, x);
      forall v | v in list && v.cats == x.cats
        ensures Follows(v.options, given)
      {
        MultipliedFollows(vs, hash, t, v, given);
      }
      ShownFollows(x, list, given);
    }
  }

  lemma AfterFollows(vs: seq<Vector>, hash: Hash, rounds: nat, t: Cats, given: Options)
    requires Injective(hash, vs) && AllFollow(vs, t, given)
    ensures AllFollow(After(vs, hash, rounds), t, given)
  {
    var inv := vs => Injective(hash, vs) && AllFollow(vs, t, given);
    forall vs | inv(vs)
      ensures inv(Rounding(hash)(vs))
    {
      RoundFollows(vs, hash, t, given);
      RoundInjective(vs, hash);
    }
    IterateKeeps(Rounding(hash), inv, vs, rounds);
  }

  /** For every list of inputs and every hash: the options of an input that is deeper than
      all others that a returned vector extends come through exactly if one of the last two
      vectors still has its depth. */
  lemma DeepestWinsIff(input: seq<Vector>, hash: Hash, categories: nat, w: Vector, m: nat)
      returns (rounds: nat, last: seq<Vector>, y: nat, z: nat)
    requires Injective(hash, input) && Uniform(input, categories) && w in Aggregated(input, hash, categories)
    requires Within(input, w.cats, m)
    requires forall r: nat :: Within(input, w.cats, r) && r != m ==> input[r].options.depth < input[m].options.depth
    ensures rounds <= categories + 1 && last == After(input, hash, rounds) && Decided(w, last, y, z)
    ensures var given := input[m].options;
      Includes(w.options, given) <==> last[y].options.depth == given.depth || last[z].options.depth == given.depth
  {
    var given := input[m].options;
    rounds, last, y, z := LastOnesDecide(input, hash, categories, w);
    forall v | v in input && Extends(w.cats, v.cats)
      ensures Follows(v.options, given)
    {
      var r :| 0 <= r < |input| && input[r] == v;
      assert Within(input, w.cats, r);
    }
    AfterFollows(input, hash, rounds, w.cats, given);
    DecidedByDeepest(w, last, y, z, given);
  }

  lemma DecidedByDeepest(w: Vector, last: seq<Vector>, y: nat, z: nat, given: Options)
    requires Decided(w, last, y, z) && AllFollow(last, w.cats, given)
    ensures Includes(w.options, given) <==>
              last[y].options.depth == given.depth || last[z].options.depth == given.depth
  {
    var merged := Vector(w.cats, MergedLast(last, y, z));
    assert last[y] in last && last[z] in last;
    assert DecidedBy(w, merged, None);
    assert Includes(merged.options, given) <==>
             last[y].options.depth == given.depth || last[z].options.depth == given.depth;
    forall name | name in given.entries
      ensures Includes(merged.options, given) ==>
                name in w.options.entries && w.options.entries[name] == given.entries[name]
    {
      assert DecidedBy(w, merged, Some(name));
    }
  }
}
