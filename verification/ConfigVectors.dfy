/** The generation of vectors from a nested configuration, as loops and recursive calls. */
module ConfigVectors {
  import opened Wrappers
  import opened Sequences
  import opened CategoryTuples
  import opened Vectors
  import opened Aggregation
  import opened AggregationRounds
  import opened Aggregates
  import opened NestedConfigs
  import opened ConfigPaths
  import opened NestedSearch

  datatype Result = Done(vectors: seq<Vector>) | SyntaxError

  /** The vectors of a section; the options of a section are at one more than the depth of
      the section around it. */
  method Dfs(node: Config, seen: set<nat>, depth: nat, categories: nat, hash: Hash) returns (r: Result)
    requires Fits(hash, node, seen, categories)
    ensures r.SyntaxError? <==> Broken(node, seen, categories)
    ensures r.Done? ==> node.Section? && r.vectors == Search(node, seen, depth, categories, hash)
    ensures r.SyntaxError? <==> HasBrokenPath(node, seen, categories)
    ensures r.Done? ==> CatsOf(r.vectors) == Emits(node, seen, categories)
    ensures r.Done? ==> TellsPaths(node, seen, categories, CatsOf(r.vectors))
    ensures r.Done? ==> FoundUnder(r.vectors, Options(depth + 1, node.options))
    ensures r.Done? ==> FindsAll(r.vectors, Sections(node, seen, depth, categories), depth)
    decreases node, categories + 1
  {
    BrokenIffPath(node, seen, categories);
    if node.NotAMapping? {
      return SyntaxError;
    }
    var options := Options(depth + 1, node.options);
    var vectors: seq<Vector> := [];
    var categoryFound := false;
    SearchStarts(node, seen, depth, categories, hash);
    for i := 0 to categories
      invariant categoryFound <==> AnyVisited(node, seen, i)
      invariant Searched(node, seen, depth, categories, hash, i, vectors)
    {
      SearchedNext(node, seen, depth, categories, hash, i, vectors);
      if Visited(node, seen, i) {
        categoryFound := true;
        var more := DfsChoices(node.categories[i].values, seen, options, categories, i, hash);
        if more.SyntaxError? {
          return SyntaxError;
        }
        vectors := vectors + more.vectors;
      }
    }
    SearchEnds(node, seen, depth, categories, hash, vectors);
    if !categoryFound {
      vectors := [Vector(AllNone(categories), options)];
    }
    SearchFinds(node, seen, depth, categories, hash);
    EmitsTellPaths(node, seen, categories);
    r := Done(vectors);
  }

  // ---- The steps of the loops ----

  /** The categories before i gave these vectors. */
  ghost predicate Searched(node: Config, seen: set<nat>, depth: nat, categories: nat, hash: Hash, i: nat,
                           vectors: seq<Vector>)
    requires node.Section? && Fits(hash, node, seen, categories) && i <= categories
  {
    && BrokenFrom(node, seen, categories, i) == BrokenFrom(node, seen, categories, 0)
    && vectors + SearchFrom(node, seen, depth, categories, hash, i)
       == SearchFrom(node, seen, depth, categories, hash, 0)
  }

  lemma SearchStarts(node: Config, seen: set<nat>, depth: nat, categories: nat, hash: Hash)
    requires node.Section? && Fits(hash, node, seen, categories)
    ensures Searched(node, seen, depth, categories, hash, 0, [])
  {
  }

  lemma SearchedNext(node: Config, seen: set<nat>, depth: nat, categories: nat, hash: Hash, i: nat,
                     vectors: seq<Vector>)
    requires node.Section? && Fits(hash, node, seen, categories) && i < categories
    requires Searched(node, seen, depth, categories, hash, i, vectors)
    ensures !Visited(node, seen, i) ==> Searched(node, seen, depth, categories, hash, i + 1, vectors)
    ensures Visited(node, seen, i) ==>
              var values, options := node.categories[i].values, Options(depth + 1, node.options);
              && FitsChoices(hash, values, seen, categories, i)
              && if BrokenChoices(values, seen, categories, i) then Broken(node, seen, categories)
                 else Searched(node, seen, depth, categories, hash, i + 1,
                               vectors + SearchChoices(values, seen, options, categories, hash, i))
  {
    var rest := SearchFrom(node, seen, depth, categories, hash, i + 1);
    if Visited(node, seen, i) {
      Regroup(vectors, SearchChoices(node.categories[i].values, seen, Options(depth + 1, node.options), categories,
                                     hash, i), rest);
    } else {
      assert [] + rest == rest;
    }
  }

  lemma SearchEnds(node: Config, seen: set<nat>, depth: nat, categories: nat, hash: Hash, vectors: seq<Vector>)
    requires node.Section? && Fits(hash, node, seen, categories)
    requires Searched(node, seen, depth, categories, hash, categories, vectors)
    ensures !Broken(node, seen, categories)
    ensures AnyVisited(node, seen, categories) ==> vectors == Search(node, seen, depth, categories, hash)
  {
    assert vectors + [] == vectors;
  }

  method DfsChoices(values: seq<Choice>, seen: set<nat>, options: Options, categories: nat, i: nat, hash: Hash)
      returns (r: Result)
    requires FitsChoices(hash, values, seen, categories, i) && i < categories && i !in seen
    ensures r.SyntaxError? <==> BrokenChoices(values, seen, categories, i)
    ensures r.Done? ==> r.vectors == SearchChoices(values, seen, options, categories, hash, i)
    decreases values, 0
  {
    var vectors: seq<Vector> := [];
    assert values[0..] == values;
    for j := 0 to |values|
      invariant FitsChoices(hash, values[j..], seen, categories, i)
      invariant ChoicesSearched(values, seen, options, categories, hash, i, j, vectors)
    {
      NextChoice(values, seen, options, categories, hash, i, j, vectors);
      var more := DfsChoice(values[j], seen, options, categories, i, hash);
      if more.SyntaxError? {
        return SyntaxError;
      }
      vectors := vectors + more.vectors;
    }
    assert vectors + [] == vectors;
    r := Done(vectors);
  }

  /** The choices before j gave these vectors. */
  ghost predicate ChoicesSearched(values: seq<Choice>, seen: set<nat>, options: Options, categories: nat, hash: Hash,
                                  i: nat, j: nat, vectors: seq<Vector>)
    requires i < categories && j <= |values| && FitsChoices(hash, values, seen, categories, i)
    requires FitsChoices(hash, values[j..], seen, categories, i)
  {
    && BrokenChoices(values[j..], seen, categories, i) == BrokenChoices(values, seen, categories, i)
    && vectors + SearchChoices(values[j..], seen, options, categories, hash, i)
       == SearchChoices(values, seen, options, categories, hash, i)
  }

  lemma NextChoice(values: seq<Choice>, seen: set<nat>, options: Options, categories: nat, hash: Hash, i: nat, j: nat,
                   vectors: seq<Vector>)
    requires i < categories && j < |values| && FitsChoices(hash, values, seen, categories, i)
    requires FitsChoices(hash, values[j..], seen, categories, i)
    requires ChoicesSearched(values, seen, options, categories, hash, i, j, vectors)
    ensures FitsChoice(hash, values[j], seen, categories, i) && FitsChoices(hash, values[j + 1..], seen, categories, i)
    ensures if BrokenChoice(values[j], seen, categories, i) then BrokenChoices(values, seen, categories, i)
            else ChoicesSearched(values, seen, options, categories, hash, i, j + 1,
                                 vectors + SearchChoice(values[j], seen, options, categories, hash, i))
  {
    RestOfRest(values, j);
    assert values[j] in values[j..] && forall choice :: choice in values[j + 1..] ==> choice in values[j..];
    Regroup(vectors, SearchChoice(values[j], seen, options, categories, hash, i),
            SearchChoices(values[j + 1..], seen, options, categories, hash, i));
  }

  method DfsChoice(choice: Choice, seen: set<nat>, options: Options, categories: nat, i: nat, hash: Hash)
      returns (r: Result)
    requires FitsChoice(hash, choice, seen, categories, i) && i < categories && i !in seen
    ensures r.SyntaxError? <==> BrokenChoice(choice, seen, categories, i)
    ensures r.Done? ==> r.vectors == SearchChoice(choice, seen, options, categories, hash, i)
    decreases choice, 0
  {
    var current := Vector(Single(categories, i, choice.value), options);
    if choice.Plain? {
      return Done([current]);
    }
    var next := Dfs(choice.node, seen + {i}, options.depth, categories, hash);
    if next.SyntaxError? {
      return SyntaxError;
    }
    var deeper, _ := Aggregate(next.vectors, hash, categories);
    AggregatedAvoidSeen(choice.node, seen + {i}, categories, deeper);
    AggregatedFinds(next.vectors, hash, categories, options.depth,
                    Sections(choice.node, seen + {i}, options.depth, categories));
    var merged := MergeEach(current, deeper, seen, categories, i, choice.value);
    r := Done(merged);
  }

  /** Aggregation does not make a vector set a category seen before. */
  lemma AggregatedAvoidSeen(node: Config, seen: set<nat>, categories: nat, deeper: seq<Vector>)
    requires CatsOf(deeper) == MaxJoins(Emits(node, seen, categories))
    ensures forall v :: v in deeper ==> Avoids(v.cats, seen, categories)
  {
    forall v | v in deeper
      ensures Avoids(v.cats, seen, categories)
    {
      assert v.cats in CatsOf(deeper);
      NestedAvoidsSeen(node, seen, categories, v.cats);
    }
  }

  method MergeEach(current: Vector, deeper: seq<Vector>, ghost seen: set<nat>, ghost categories: nat, ghost i: nat,
                   ghost value: Option<string>) returns (merged: seq<Vector>)
    requires i < categories && current.cats == Single(categories, i, value)
    requires Uniform(deeper, categories)
    requires forall v :: v in deeper ==>
               v.options.depth > current.options.depth && Avoids(v.cats, seen + {i}, categories)
    ensures merged == UnderAll(current, deeper)
  {
    merged := [];
    for j := 0 to |deeper|
      invariant merged == UnderAll(current, deeper)[..j]
    {
      EnclosingChoiceMerges(current, deeper[j], categories, i, value, seen);
      var both := MergeVectors(current, deeper[j]);
      merged := merged + [both.value];
    }
  }

  /** The vectors of a whole configuration: their tuples are the maximal joins of all the
      tuples found in it, the options at its top reach all of them, and all they hold comes
      from sections of which they extend the enclosing choices. No section is lost: as long as
      there are vectors in it at all, one of those returned extends its enclosing choices and
      has its option names. There are none just for barren configurations. */
  method GenVectors(config: Config, categories: nat, hash: Hash) returns (r: Result)
    requires Fits(hash, config, {}, categories)
    ensures r.SyntaxError? <==> Broken(config, {}, categories)
    ensures r.Done? ==> r.vectors == Aggregated(Search(config, {}, 0, categories, hash), hash, categories)
    ensures r.SyntaxError? <==> HasBrokenPath(config, {}, categories)
    ensures r.Done? ==> CatsOf(r.vectors) == MaxJoins(Emits(config, {}, categories))
    ensures r.Done? ==> TellsPaths(config, {}, categories, CatsOf(r.vectors))
    ensures r.Done? ==> Distinct(r.vectors) && StrictlyAscending(r.vectors, hash)
    ensures r.Done? ==> forall v :: v in r.vectors ==> config.options.Keys <= v.options.entries.Keys
    ensures r.Done? ==> FindsAll(r.vectors, Sections(config, {}, 0, categories), 0)
    ensures r.Done? ==> (r.vectors == [] <==> Barren(config, {}, categories))
  {
    r := Dfs(config, {}, 0, categories, hash);
    if r.Done? {
      var vectors, _ := Aggregate(r.vectors, hash, categories);
      AggregatedFinds(r.vectors, hash, categories, 0, Sections(config, {}, 0, categories));
      DistinctWhenConflicting(vectors);
      TopReachesAll(r.vectors, vectors, config.options.Keys);
      NoneJustIfBarren(config, categories, vectors);
      JoinsTellPaths(config, {}, categories);
      r := Done(vectors);
    }
  }

  lemma DistinctWhenConflicting(vs: seq<Vector>)
    requires forall p: nat, q: nat :: p < |vs| && q < |vs| && p != q ==> !Compatible(vs[p].cats, vs[q].cats)
    ensures Distinct(vs)
  {
    forall i: nat, j: nat | i < j < |vs|
      ensures vs[i].cats != vs[j].cats
    {
      assert !Compatible(vs[i].cats, vs[j].cats);
    }
  }

  /** Names that all inputs have are names of each combination. */
  lemma TopReachesAll(input: seq<Vector>, out: seq<Vector>, names: set<OptionName>)
    requires CatsOf(out) == MaxJoins(CatsOf(input))
    requires forall v :: v in input ==> names <= v.options.entries.Keys
    requires forall v, w :: v in input && w in out && Extends(w.cats, v.cats) ==>
               v.options.entries.Keys <= w.options.entries.Keys
    ensures forall v :: v in out ==> names <= v.options.entries.Keys
  {
    forall v | v in out
      ensures names <= v.options.entries.Keys
    {
      assert v.cats in CatsOf(out);
      var a :| a in CatsOf(input) && Extends(v.cats, a);
      var w :| w in input && w.cats == a;
    }
  }

  lemma NoneJustIfBarren(config: Config, categories: nat, vectors: seq<Vector>)
    requires CatsOf(vectors) == MaxJoins(Emits(config, {}, categories))
    ensures vectors == [] <==> Barren(config, {}, categories)
  {
    BarrenEmitsNothing(config, {}, categories);
    NoMaxJoins(Emits(config, {}, categories));
    if vectors != [] {
      assert vectors[0].cats in CatsOf(vectors);
    }
  }
}
