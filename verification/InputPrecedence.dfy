/** Which input's options come through all rounds of aggregation, where that can be told. */
module InputPrecedence {
  import opened Wrappers
  import opened CategoryTuples
  import opened Vectors
  import opened Aggregation
  import opened AggregationRounds
  import opened OptionPrecedence

  // ---- Two inputs ----

  /** The two are the only inputs within the tuple. */
  ghost predicate OnlyTwo(input: seq<Vector>, t: Cats, y: nat, z: nat) {
    && y < z && Within(input, t, y) && Within(input, t, z)
    && forall r: nat :: Within(input, t, r) ==> r == y || r == z
  }

  lemma TwoAreComplete(input: seq<Vector>, t: Cats, y: nat, z: nat)
    requires OnlyTwo(input, t, y, z) && t in MaxJoins(CatsOf(input))
    ensures Complete(input, t)
  {
    var a, b := input[y].cats, input[z].cats;
    WithinIsPair(input, t, y, z);
    JoinExtends(a, b);
    forall i | 0 <= i < |t|
      ensures Join(a, b)[i] == t[i]
    {
      if t[i].Some? {
        var u :| u in CatsOf(input) && Extends(t, u) && u[i] == t[i];
        var v :| v in input && v.cats == u;
        var r :| 0 <= r < |input| && input[r] == v;
        assert Within(input, t, r);
      }
    }
    assert Join(a, b) == t;
  }

  lemma TwoHoldAll(input: seq<Vector>, w: Vector, y: nat, z: nat, aspect: Aspect)
    requires ComesFrom(w, input) && OnlyTwo(input, w.cats, y, z) && Has(w, w.cats, aspect)
    ensures Has(Vector(w.cats, OptionsInOrder(input[z], input[y])), w.cats, aspect)
  {
    if aspect.Some? {
      var name := aspect.value;
      assert HasEntry(input, w.cats, name, w.options.entries[name]);
      var v :| v in input && Extends(w.cats, v.cats) && name in v.options.entries;
      var r :| 0 <= r < |input| && input[r] == v;
      assert Within(input, w.cats, r);
    }
  }

  lemma RoundOfTwo(input: seq<Vector>, hash: Hash, x: Vector, y: nat, z: nat)
    requires Injective(hash, input) && x in Round(input, hash)
    requires OnlyTwo(input, x.cats, y, z) && Complete(input, x.cats)
    ensures Some(x) == Merge(input[z], input[y])
  {
    var merged := Vector(x.cats, OptionsInOrder(input[z], input[y]));
    WithinIsPair(input, x.cats, y, z);
    RoundComesFrom(input, hash, input);
    forall aspect
      ensures Has(x, x.cats, aspect) == Has(merged, x.cats, aspect)
      ensures Has(x, x.cats, aspect) ==> Agree(x, merged, aspect)
    {
      if Has(x, x.cats, aspect) {
        TwoHoldAll(input, x, y, z, aspect);
      }
      if Has(merged, x.cats, aspect) {
        LastTwoDecide(input, hash, x, y, z, aspect);
      }
    }
    AgreeOnAll(x, merged);
  }

  /** A vector returned for just two of the inputs is the two merged. The more significant
      one overrides the other; of two that are equally significant, the one that comes first
      in the list does. */
  lemma TwoInputsDecide(input: seq<Vector>, hash: Hash, categories: nat, w: Vector, y: nat, z: nat)
    requires Injective(hash, input) && Uniform(input, categories)
    requires w in Aggregated(input, hash, categories) && OnlyTwo(input, w.cats, y, z)
    ensures Some(w) == Merge(input[z], input[y])
    ensures Outranks(input[y], input[z]) || Outranks(input[z], input[y]) ==> Some(w) == Merge(input[y], input[z])
    ensures Compare(input[y], input[z]).Tie? ==> w.options == MergeOptions(input[z].options, input[y].options)
  {
    AggregatedCombines(input, hash, categories);
    assert w.cats in CatsOf(Aggregated(input, hash, categories));
    TwoAreComplete(input, w.cats, y, z);
    WithinIsPair(input, w.cats, y, z);
    TakenFromRound(input, hash, categories, 0, w, y, z);
    RoundOfTwo(input, hash, w, y, z);
    JoinExtends(input[y].cats, input[z].cats);
    TwoRanks(input[y], input[z]);
  }

  lemma TwoRanks(v: Vector, w: Vector)
    requires |v.cats| == |w.cats|
    ensures Outranks(v, w) || Outranks(w, v) ==> OptionsInOrder(w, v) == OptionsInOrder(v, w)
    ensures Compare(v, w).Tie? ==> OptionsInOrder(w, v) == MergeOptions(w.options, v.options)
  {
    if Outranks(v, w) {
      MoreSignificantWins(v, w);
    }
    if Outranks(w, v) {
      MoreSignificantWins(w, v);
    }
    CompareDecides(w, v);
    CompareDecides(v, w);
  }

  // ---- The deepest input ----

  /** The options include the given ones, and are from at least as deep. */
  predicate Includes(options: Options, given: Options) {
    && options.depth >= given.depth
    && forall name :: name in given.entries ==>
         name in options.entries && options.entries[name] == given.entries[name]
  }

  /** With the category go the given options; what lacks the category is from less deep. */
  predicate Carries(v: Vector, i: nat, given: Options) {
    i < |v.cats| && if v.cats[i].Some? then Includes(v.options, given) else v.options.depth < given.depth
  }

  ghost predicate AllCarry(vs: seq<Vector>, t: Cats, i: nat, given: Options) {
    forall v :: v in vs && Extends(t, v.cats) ==> Carries(v, i, given)
  }

  lemma MultipliedCarries(vs: seq<Vector>, hash: Hash, t: Cats, v: Vector, i: nat,
                          given: Options)
    requires AllCarry(vs, t, i, given) && v in Multiply(vs, hash) && Extends(t, v.cats)
    ensures Carries(v, i, given)
  {
    MultiplyMembers(vs, hash, v);
    if p: nat, q: nat :| IsPair(vs, p, q) && v == MergedPair(vs, p, q) {
      JoinExtends(vs[p].cats, vs[q].cats);
    }
  }

  lemma ShownCarries(x: Vector, list: seq<Vector>, i: nat, given: Options)
    requires Shows(x, list)
    requires forall v :: v in list && v.cats == x.cats ==> Carries(v, i, given)
    ensures Carries(x, i, given)
  {
    assert ShowsLast(x, list, None);
    var v := LastOf(list, x.cats, None).value;
    assert Carries(v, i, given);
    if x.cats[i].Some? {
      forall name | name in given.entries
        ensures name in x.options.entries && x.options.entries[name] == given.entries[name]
      {
        assert ShowsLast(x, list, Some(name)) && Has(v, x.cats, Some(name));
        assert Carries(LastOf(list, x.cats, Some(name)).value, i, given);
      }
    }
  }

  lemma RoundCarries(vs: seq<Vector>, hash: Hash, t: Cats, i: nat, given: Options)
    requires Injective(hash, vs) && AllCarry(vs, t, i, given)
    ensures AllCarry(Round(vs, hash), t, i, given)
  {
    var list := Rows(vs, 0) + Unmerged(vs, 0);
    SortKeepsMembers(list, hash);
    forall x | x in Round(vs, hash) && Extends(t, x.cats)
      ensures Carries(x, i, given)
    {
      RoundShows(vs, hash, x);
      forall v | v in list && v.cats == x.cats
        ensures Carries(v, i, given)
      {
        MultipliedCarries(vs, hash, t, v, i, given);
      }
      ShownCarries(x, list, i, given);
    }
  }

  lemma {:induction false} RoundsCarry(vs: seq<Vector>, hash: Hash, categories: nat, done: nat, t: Cats, i: nat,
                                       given: Options)
    requires Injective(hash, vs) && Uniform(vs, categories)
    requires done > 0 ==> Distinct(vs) && Floor(vs, done - 1)
    requires AllCarry(vs, t, i, given)
    ensures AllCarry(Rounds(vs, hash, categories, done), t, i, given)
    decreases categories + 2 - done
  {
    NextFloor(vs, hash, categories, done);
    RoundUniform(vs, hash, categories);
    RoundCarries(vs, hash, t, i, given);
    if AnyPair(vs) {
      RoundsCarry(Round(vs, hash), hash, categories, done + 1, t, i, given);
    }
  }

  /** Where all inputs that set a category have the given options, and are deeper than all
      that do not set it, these options come through, whatever the order and the hashes.
      Only the inputs that the returned vector extends matter. */
  lemma CategoryDecides(input: seq<Vector>, hash: Hash, categories: nat, w: Vector, i: nat, given: Options)
    requires Injective(hash, input) && Uniform(input, categories) && w in Aggregated(input, hash, categories)
    requires i < |w.cats| && w.cats[i].Some?
    requires forall v :: v in input && Extends(w.cats, v.cats) ==>
               if v.cats[i].Some? then Includes(v.options, given) else v.options.depth < given.depth
    ensures Includes(w.options, given)
  {
    RoundsCarry(input, hash, categories, 0, w.cats, i, given);
  }

  /** An input that is deeper than all others that a returned vector extends, and sets a
      category that none of them sets, gives the vector its depth and all its options. */
  lemma DeepestWins(input: seq<Vector>, hash: Hash, categories: nat, w: Vector, m: nat, i: nat)
    requires Injective(hash, input) && Uniform(input, categories) && w in Aggregated(input, hash, categories)
    requires Within(input, w.cats, m) && i < |w.cats| && input[m].cats[i].Some?
    requires forall r: nat :: Within(input, w.cats, r) && r != m ==>
               input[r].options.depth < input[m].options.depth && input[r].cats[i].None?
    ensures w.options.depth == input[m].options.depth
    ensures Includes(w.options, input[m].options)
  {
    forall v | v in input && Extends(w.cats, v.cats)
      ensures v.options.depth <= input[m].options.depth
      ensures if v.cats[i].Some? then v == input[m] else v.options.depth < input[m].options.depth
    {
      var r :| 0 <= r < |input| && input[r] == v;
      assert Within(input, w.cats, r);
    }
    CategoryDecides(input, hash, categories, w, i, input[m].options);
    AggregatedCombines(input, hash, categories);
    assert HasDepth(input, w.cats, w.options.depth);
  }

  // ---- Inputs any two of which make up the tuple ----

  /** Where any two of the inputs that a returned vector extends make up its tuple, the
      deepest of them gives it depth and options exactly if it is one of the last two. */
  lemma DeepestWinsIffLast(input: seq<Vector>, hash: Hash, categories: nat, w: Vector, m: nat, y: nat, z: nat)
    requires Injective(hash, input) && Uniform(input, categories) && w in Aggregated(input, hash, categories)
    requires LastTwo(input, w.cats, y, z) && Complete(input, w.cats) && Within(input, w.cats, m)
    requires forall r: nat :: Within(input, w.cats, r) && r != m ==> input[r].options.depth < input[m].options.depth
    ensures Includes(w.options, input[m].options) <==> m == y || m == z
  {
    LastTwoDecideFinally(input, hash, categories, 0, w, y, z, None);
    if m == y || m == z {
      forall name | name in input[m].options.entries
        ensures name in w.options.entries && w.options.entries[name] == input[m].options.entries[name]
      {
        LastTwoDecideFinally(input, hash, categories, 0, w, y, z, Some(name));
      }
    }
  }
}
