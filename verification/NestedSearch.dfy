/** The search through a nested configuration, as functions; where the options of the
    vectors it finds come from. */
module NestedSearch {
  import opened Wrappers
  import opened CategoryTuples
  import opened Vectors
  import opened Aggregation
  import opened AggregationRounds
  import opened NestedConfigs

  // ---- The hash ----

  /** In each section, the hash tells apart whatever can be joined from the tuples found
      there. */
  ghost predicate Fits(hash: Hash, node: Config, seen: set<nat>, categories: nat)
    decreases node
  {
    && TellsApart(hash, Emits(node, seen, categories))
    && forall i: nat :: i < categories && Visited(node, seen, i) ==>
         FitsChoices(hash, node.categories[i].values, seen, categories, i)
  }

  ghost predicate FitsChoices(hash: Hash, values: seq<Choice>, seen: set<nat>, categories: nat, i: nat)
    decreases values, 0
  {
    forall choice :: choice in values ==> FitsChoice(hash, choice, seen, categories, i)
  }

  ghost predicate FitsChoice(hash: Hash, choice: Choice, seen: set<nat>, categories: nat, i: nat)
    decreases choice, 0
  {
    choice.Nested? ==> Fits(hash, choice.node, seen + {i}, categories)
  }

  // ---- The search ----

  /** The vectors of a section; the options of a section are at one more than the depth of
      the section around it. */
  ghost function Search(node: Config, seen: set<nat>, depth: nat, categories: nat, hash: Hash): (vs: seq<Vector>)
    requires Fits(hash, node, seen, categories)
    ensures Uniform(vs, categories) && CatsOf(vs) == Emits(node, seen, categories)
    decreases node, categories + 1, 0
  {
    if node.NotAMapping? then []
    else if !AnyVisited(node, seen, categories) then
      var top := Vector(AllNone(categories), Options(depth + 1, node.options));
      CatsOfOne(top);
      [top]
    else
      SearchFromTuples(node, seen, depth, categories, hash, 0);
      SearchFrom(node, seen, depth, categories, hash, 0)
  }

  ghost function SearchFrom(node: Config, seen: set<nat>, depth: nat, categories: nat, hash: Hash, i: nat):
      (vs: seq<Vector>)
    requires node.Section? && Fits(hash, node, seen, categories) && i <= categories
    ensures Uniform(vs, categories)
    decreases node, categories - i, 0
  {
    if i == categories then []
    else
      var options := Options(depth + 1, node.options);
      (if Visited(node, seen, i) then SearchChoices(node.categories[i].values, seen, options, categories, hash, i)
       else [])
      + SearchFrom(node, seen, depth, categories, hash, i + 1)
  }

  ghost function SearchChoices(values: seq<Choice>, seen: set<nat>, options: Options, categories: nat, hash: Hash,
                               i: nat): (vs: seq<Vector>)
    requires FitsChoices(hash, values, seen, categories, i) && i < categories
    ensures Uniform(vs, categories)
    decreases values, 0
  {
    if values == [] then []
    else
      SearchChoice(values[0], seen, options, categories, hash, i)
      + SearchChoices(values[1..], seen, options, categories, hash, i)
  }

  /** The choice with the options around it; a nested section is aggregated first. */
  ghost function SearchChoice(choice: Choice, seen: set<nat>, options: Options, categories: nat, hash: Hash, i: nat):
      (vs: seq<Vector>)
    requires FitsChoice(hash, choice, seen, categories, i) && i < categories
    ensures Uniform(vs, categories)
    decreases choice, 0
  {
    var current := Vector(Single(categories, i, choice.value), options);
    match choice
    case Plain(_) => [current]
    case Nested(_, node) =>
      var found := Search(node, seen + {i}, options.depth, categories, hash);
      AggregatedCombines(found, hash, categories);
      UnderAll(current, Aggregated(found, hash, categories))
  }

  // ---- The tuples found ----

  lemma CatsOfOne(v: Vector)
    ensures CatsOf([v]) == iset{v.cats}
  {
  }

  lemma CatsOfConcat(a: seq<Vector>, b: seq<Vector>)
    ensures CatsOf(a + b) == CatsOf(a) + CatsOf(b)
  {
  }

  lemma {:induction false} SearchFromTuples(node: Config, seen: set<nat>, depth: nat, categories: nat, hash: Hash,
                                            i: nat)
    requires node.Section? && Fits(hash, node, seen, categories) && i <= categories
    ensures CatsOf(SearchFrom(node, seen, depth, categories, hash, i)) == EmitsFrom(node, seen, categories, i)
    decreases node, categories - i, 1
  {
    if i < categories {
      var rest := SearchFrom(node, seen, depth, categories, hash, i + 1);
      SearchFromTuples(node, seen, depth, categories, hash, i + 1);
      if Visited(node, seen, i) {
        var values, options := node.categories[i].values, Options(depth + 1, node.options);
        SearchChoicesTuples(values, seen, options, categories, hash, i);
        CatsOfConcat(SearchChoices(values, seen, options, categories, hash, i), rest);
      } else {
        assert [] + rest == rest;
      }
    }
  }

  lemma {:induction false} SearchChoicesTuples(values: seq<Choice>, seen: set<nat>, options: Options, categories: nat,
                                               hash: Hash, i: nat)
    requires FitsChoices(hash, values, seen, categories, i) && i < categories
    ensures CatsOf(SearchChoices(values, seen, options, categories, hash, i))
         == EmitsChoices(values, seen, categories, i)
    decreases values, 1
  {
    if values != [] {
      SearchChoiceTuples(values[0], seen, options, categories, hash, i);
      SearchChoicesTuples(values[1..], seen, options, categories, hash, i);
      CatsOfConcat(SearchChoice(values[0], seen, options, categories, hash, i),
                   SearchChoices(values[1..], seen, options, categories, hash, i));
    }
  }

  lemma {:induction false} SearchChoiceTuples(choice: Choice, seen: set<nat>, options: Options, categories: nat,
                                              hash: Hash, i: nat)
    requires FitsChoice(hash, choice, seen, categories, i) && i < categories
    ensures CatsOf(SearchChoice(choice, seen, options, categories, hash, i))
         == EmitsChoice(choice, seen, categories, i)
    decreases choice, 1
  {
    var current := Vector(Single(categories, i, choice.value), options);
    if choice.Plain? {
      CatsOfOne(current);
    } else {
      var found := Search(choice.node, seen + {i}, options.depth, categories, hash);
      AggregatedCombines(found, hash, categories);
      UnderAllTuples(choice, seen, current, Aggregated(found, hash, categories), categories, i);
    }
  }

  function UnderAll(choice: Vector, deeper: seq<Vector>): (vs: seq<Vector>)
    requires Uniform(deeper, |choice.cats|)
    ensures Uniform(vs, |choice.cats|)
  {
    seq(|deeper|, j requires 0 <= j < |deeper| => Under(choice, deeper[j]))
  }

  lemma UnderAllTuples(choice: Choice, seen: set<nat>, current: Vector, deeper: seq<Vector>, categories: nat, i: nat)
    requires choice.Nested? && i < categories && current.cats == Single(categories, i, choice.value)
    requires Uniform(deeper, categories)
    requires CatsOf(deeper) == MaxJoins(Emits(choice.node, seen + {i}, categories))
    ensures CatsOf(UnderAll(current, deeper)) == EmitsChoice(choice, seen, categories, i)
  {
    var merged := UnderAll(current, deeper);
    assert forall j :: 0 <= j < |deeper| ==>
             deeper[j].cats in CatsOf(deeper) && merged[j] == Under(current, deeper[j]);
  }

  // ---- Sections ----

  /** All sections that the search enters and finds vectors in, each under the tuple of the
      choices around it. */
  ghost function Sections(node: Config, seen: set<nat>, depth: nat, categories: nat): seq<Vector>
    decreases node, categories + 1
  {
    if Barren(node, seen, categories) then []
    else
      [Vector(AllNone(categories), Options(depth + 1, node.options))]
      + SectionsFrom(node, seen, depth, categories, 0)
  }

  ghost function SectionsFrom(node: Config, seen: set<nat>, depth: nat, categories: nat, i: nat): seq<Vector>
    requires i <= categories
    decreases node, categories - i
  {
    if i == categories then []
    else
      (if Visited(node, seen, i) then SectionsOfAll(node.categories[i].values, seen, depth + 1, categories, i) else [])
      + SectionsFrom(node, seen, depth, categories, i + 1)
  }

  ghost function SectionsOfAll(values: seq<Choice>, seen: set<nat>, depth: nat, categories: nat, i: nat): seq<Vector>
    requires i < categories
    decreases values, 0
  {
    if values == [] then []
    else
      SectionsOf(values[0], seen, depth, categories, i) + SectionsOfAll(values[1..], seen, depth, categories, i)
  }

  ghost function SectionsOf(choice: Choice, seen: set<nat>, depth: nat, categories: nat, i: nat): seq<Vector>
    requires i < categories
    decreases choice, 0
  {
    match choice
    case Plain(_) => []
    case Nested(value, node) =>
      Inside(Single(categories, i, value), Sections(node, seen + {i}, depth, categories))
  }

  /** The sections, with the choice around them added to their tuples. */
  function Inside(t: Cats, sections: seq<Vector>): seq<Vector> {
    seq(|sections|, j requires 0 <= j < |sections| =>
      if |sections[j].cats| == |t| then sections[j].(cats := Join(t, sections[j].cats)) else sections[j])
  }

  // ---- What the search finds ----

  /** The vectors come from at least the depth of the section with these options, and have
      at least its names. */
  ghost predicate FoundUnder(vs: seq<Vector>, options: Options) {
    forall v :: v in vs ==>
      v.options.depth >= options.depth && options.entries.Keys <= v.options.entries.Keys
  }

  /** The vector extends the choices around the section, and has its option names. */
  predicate Reaches(section: Vector, v: Vector) {
    Extends(v.cats, section.cats) && section.options.entries.Keys <= v.options.entries.Keys
  }

  /** No section is lost. */
  ghost predicate AllReach(sections: seq<Vector>, vs: seq<Vector>) {
    forall s :: s in sections ==> exists v :: v in vs && Reaches(s, v)
  }

  /** The vectors come from below the depth; all they hold comes from the sections, none of
      which is lost. */
  ghost predicate FindsAll(vs: seq<Vector>, sections: seq<Vector>, depth: nat) {
    && (forall v :: v in vs ==> v.options.depth > depth)
    && AllComeFrom(vs, sections)
    && AllReach(sections, vs)
  }

  /** The vectors are found in the section with these options; all they hold comes from it
      or from the inner ones, none of which is lost. */
  ghost predicate Finds(vs: seq<Vector>, categories: nat, options: Options, inner: seq<Vector>) {
    && FoundUnder(vs, options)
    && AllComeFrom(vs, [Vector(AllNone(categories), options)] + inner)
    && AllReach(inner, vs)
  }

  lemma FindsBoth(a: seq<Vector>, b: seq<Vector>, categories: nat, options: Options, few: seq<Vector>,
                  more: seq<Vector>, both: seq<Vector>, inner: seq<Vector>)
    requires Finds(a, categories, options, few) && Finds(b, categories, options, more)
    requires both == a + b && inner == few + more
    ensures Finds(both, categories, options, inner)
  {
  }

  lemma FindsOne(v: Vector, categories: nat, options: Options)
    requires |v.cats| == categories && v.options == options
    ensures Finds([v], categories, options, [])
  {
    var top := Vector(AllNone(categories), options);
    assert top in [top] + [] && Extends(v.cats, top.cats);
  }

  /** All that the vectors of a section hold comes from sections whose enclosing choices they
      extend; and for each section in which there are vectors at all, one of them extends its
      enclosing choices and has its option names. */
  lemma {:induction false} SearchFinds(node: Config, seen: set<nat>, depth: nat, categories: nat, hash: Hash)
    requires Fits(hash, node, seen, categories)
    ensures var vs, sections := Search(node, seen, depth, categories, hash), Sections(node, seen, depth, categories);
      FindsAll(vs, sections, depth) && (node.Section? ==> FoundUnder(vs, Options(depth + 1, node.options)))
    decreases node, categories + 1
  {
    BarrenEmitsNothing(node, seen, categories);
    if Barren(node, seen, categories) {
      NothingFound(Search(node, seen, depth, categories, hash));
    } else {
      SearchFromFinds(node, seen, depth, categories, hash);
      FruitfulFinds(node, seen, depth, categories, hash);
    }
  }

  lemma FruitfulFinds(node: Config, seen: set<nat>, depth: nat, categories: nat, hash: Hash)
    requires Fits(hash, node, seen, categories) && !Barren(node, seen, categories)
    requires Finds(SearchFrom(node, seen, depth, categories, hash, 0), categories, Options(depth + 1, node.options),
                   SectionsFrom(node, seen, depth, categories, 0))
    ensures var vs := Search(node, seen, depth, categories, hash);
      FindsAll(vs, Sections(node, seen, depth, categories), depth) && FoundUnder(vs, Options(depth + 1, node.options))
  {
    var options := Options(depth + 1, node.options);
    BarrenEmitsNothing(node, seen, categories);
    if !AnyVisited(node, seen, categories) {
      FindsOne(Vector(AllNone(categories), options), categories, options);
      NoInnerSections(node, seen, depth, categories, 0);
    }
    TopReaches(Search(node, seen, depth, categories, hash), categories, options);
  }

  lemma NothingFound(vs: seq<Vector>)
    requires CatsOf(vs) == iset{}
    ensures vs == []
  {
    assert vs != [] ==> vs[0].cats in CatsOf(vs);
  }

  lemma TopReaches(vs: seq<Vector>, categories: nat, options: Options)
    requires CatsOf(vs) != iset{} && Uniform(vs, categories) && FoundUnder(vs, options)
    ensures exists v :: v in vs && Reaches(Vector(AllNone(categories), options), v)
  {
    var t :| t in CatsOf(vs);
    var v :| v in vs && v.cats == t;
    assert Reaches(Vector(AllNone(categories), options), v);
  }

  lemma {:induction false} NoInnerSections(node: Config, seen: set<nat>, depth: nat, categories: nat, i: nat)
    requires i <= categories && !AnyVisited(node, seen, categories)
    ensures SectionsFrom(node, seen, depth, categories, i) == []
    decreases categories - i
  {
    if i < categories {
      NoInnerSections(node, seen, depth, categories, i + 1);
    }
  }

  lemma {:induction false} SearchFromFinds(node: Config, seen: set<nat>, depth: nat, categories: nat, hash: Hash)
    requires node.Section? && Fits(hash, node, seen, categories)
    ensures Finds(SearchFrom(node, seen, depth, categories, hash, 0), categories, Options(depth + 1, node.options),
                  SectionsFrom(node, seen, depth, categories, 0))
    decreases node, categories, 1
  {
    NoMoreFinds(node, seen, depth, categories, hash, categories);
    for i := categories downto 0
      invariant Finds(SearchFrom(node, seen, depth, categories, hash, i), categories, Options(depth + 1, node.options),
                      SectionsFrom(node, seen, depth, categories, i))
    {
      CategoryFinds(node, seen, depth, categories, hash, i);
    }
  }

  lemma NoMoreFinds(node: Config, seen: set<nat>, depth: nat, categories: nat, hash: Hash, i: nat)
    requires node.Section? && Fits(hash, node, seen, categories) && i == categories
    ensures Finds(SearchFrom(node, seen, depth, categories, hash, i), categories, Options(depth + 1, node.options),
                  SectionsFrom(node, seen, depth, categories, i))
  {
  }

  lemma {:induction false} CategoryFinds(node: Config, seen: set<nat>, depth: nat, categories: nat, hash: Hash, i: nat)
    requires node.Section? && Fits(hash, node, seen, categories) && i < categories
    requires Finds(SearchFrom(node, seen, depth, categories, hash, i + 1), categories,
                   Options(depth + 1, node.options), SectionsFrom(node, seen, depth, categories, i + 1))
    ensures Finds(SearchFrom(node, seen, depth, categories, hash, i), categories, Options(depth + 1, node.options),
                  SectionsFrom(node, seen, depth, categories, i))
    decreases node, categories, 0
  {
    var options := Options(depth + 1, node.options);
    var here, inner: seq<Vector> := [], [];
    if Visited(node, seen, i) {
      var values := node.categories[i].values;
      here := SearchChoices(values, seen, options, categories, hash, i);
      inner := SectionsOfAll(values, seen, depth + 1, categories, i);
      SearchChoicesFinds(values, seen, options, categories, hash, i);
    }
    FindsBoth(here, SearchFrom(node, seen, depth, categories, hash, i + 1), categories, options, inner,
              SectionsFrom(node, seen, depth, categories, i + 1),
              SearchFrom(node, seen, depth, categories, hash, i), SectionsFrom(node, seen, depth, categories, i));
  }

  lemma {:induction false} SearchChoicesFinds(values: seq<Choice>, seen: set<nat>, options: Options, categories: nat,
                                              hash: Hash, i: nat)
    requires FitsChoices(hash, values, seen, categories, i) && i < categories && i !in seen
    ensures Finds(SearchChoices(values, seen, options, categories, hash, i), categories, options,
                  SectionsOfAll(values, seen, options.depth, categories, i))
    decreases values, 0
  {
    if values != [] {
      SearchChoiceFinds(values[0], seen, options, categories, hash, i);
      SearchChoicesFinds(values[1..], seen, options, categories, hash, i);
      FindsBoth(SearchChoice(values[0], seen, options, categories, hash, i),
                SearchChoices(values[1..], seen, options, categories, hash, i), categories, options,
                SectionsOf(values[0], seen, options.depth, categories, i),
                SectionsOfAll(values[1..], seen, options.depth, categories, i),
                SearchChoices(values, seen, options, categories, hash, i),
                SectionsOfAll(values, seen, options.depth, categories, i));
    }
  }

  lemma {:induction false} SearchChoiceFinds(choice: Choice, seen: set<nat>, options: Options, categories: nat,
                                             hash: Hash, i: nat)
    requires FitsChoice(hash, choice, seen, categories, i) && i < categories && i !in seen
    ensures Finds(SearchChoice(choice, seen, options, categories, hash, i), categories, options,
                  SectionsOf(choice, seen, options.depth, categories, i))
    decreases choice, 0
  {
    var current := Vector(Single(categories, i, choice.value), options);
    if choice.Plain? {
      FindsOne(current, categories, options);
    } else {
      SearchFinds(choice.node, seen + {i}, options.depth, categories, hash);
      NestedFinds(choice, seen, options, categories, hash, i);
    }
  }

  lemma NestedFinds(choice: Choice, seen: set<nat>, options: Options, categories: nat, hash: Hash, i: nat)
    requires FitsChoice(hash, choice, seen, categories, i) && i < categories && choice.Nested?
    requires FindsAll(Search(choice.node, seen + {i}, options.depth, categories, hash),
                      Sections(choice.node, seen + {i}, options.depth, categories), options.depth)
    ensures Finds(SearchChoice(choice, seen, options, categories, hash, i), categories, options,
                  SectionsOf(choice, seen, options.depth, categories, i))
  {
    var current := Vector(Single(categories, i, choice.value), options);
    var found := Search(choice.node, seen + {i}, options.depth, categories, hash);
    var sections := Sections(choice.node, seen + {i}, options.depth, categories);
    AggregatedFinds(found, hash, categories, options.depth, sections);
    UnderAllFinds(choice, seen, current, Aggregated(found, hash, categories), categories, i, sections);
  }

  /** Aggregation brings up no vector, adds nothing from elsewhere, and loses no section. */
  lemma AggregatedFinds(found: seq<Vector>, hash: Hash, categories: nat, depth: nat, sections: seq<Vector>)
    requires Injective(hash, found) && Uniform(found, categories) && FindsAll(found, sections, depth)
    ensures var deeper := Aggregated(found, hash, categories);
      Uniform(deeper, categories) && CatsOf(deeper) == MaxJoins(CatsOf(found)) && FindsAll(deeper, sections, depth)
  {
    AggregatedCombines(found, hash, categories);
    AggregatedReaches(found, hash, categories, sections);
    FindsThrough(Aggregated(found, hash, categories), found, sections, depth);
  }

  lemma FindsThrough(deeper: seq<Vector>, found: seq<Vector>, sections: seq<Vector>, depth: nat)
    requires AllComeFrom(deeper, found) && AllComeFrom(found, sections)
    requires forall v :: v in found ==> v.options.depth > depth
    ensures AllComeFrom(deeper, sections) && forall v :: v in deeper ==> v.options.depth > depth
  {
    forall v | v in deeper
      ensures ComesFrom(v, sections) && v.options.depth > depth
    {
      assert HasDepth(found, v.cats, v.options.depth);
    }
  }

  lemma AggregatedReaches(found: seq<Vector>, hash: Hash, categories: nat, sections: seq<Vector>)
    requires Injective(hash, found) && Uniform(found, categories) && AllReach(sections, found)
    ensures AllReach(sections, Aggregated(found, hash, categories))
  {
    var deeper := Aggregated(found, hash, categories);
    AggregatedCombines(found, hash, categories);
    forall s | s in sections
      ensures exists w :: w in deeper && Reaches(s, w)
    {
      var v :| v in found && Reaches(s, v);
      var p :| 0 <= p < |found| && found[p] == v;
      OwnIsSupported(found, p);
      var m := SupportedIsCovered(CatsOf(found), v.cats);
      assert m in CatsOf(deeper);
      var w :| w in deeper && w.cats == m;
      assert Reaches(s, w);
    }
  }

  lemma UnderAllFinds(choice: Choice, seen: set<nat>, current: Vector, deeper: seq<Vector>, categories: nat, i: nat,
                      sections: seq<Vector>)
    requires choice.Nested? && i < categories && current.cats == Single(categories, i, choice.value)
    requires Uniform(deeper, categories) && FindsAll(deeper, sections, current.options.depth)
    requires CatsOf(deeper) == MaxJoins(Emits(choice.node, seen + {i}, categories))
    ensures Finds(UnderAll(current, deeper), categories, current.options, Inside(current.cats, sections))
  {
    DeeperAgree(choice, seen, current, deeper, categories, i);
    UnderAllFoundUnder(current, deeper);
    UnderAllComeFrom(current, deeper, sections);
    UnderAllReaches(current, deeper, sections);
  }

  lemma DeeperAgree(choice: Choice, seen: set<nat>, current: Vector, deeper: seq<Vector>, categories: nat, i: nat)
    requires choice.Nested? && i < categories && current.cats == Single(categories, i, choice.value)
    requires CatsOf(deeper) == MaxJoins(Emits(choice.node, seen + {i}, categories))
    ensures forall v :: v in deeper ==> Compatible(current.cats, v.cats)
  {
    forall v | v in deeper
      ensures Compatible(current.cats, v.cats)
    {
      assert v.cats in CatsOf(deeper);
      NestedAvoidsSeen(choice.node, seen + {i}, categories, v.cats);
    }
  }

  lemma UnderAllFoundUnder(current: Vector, deeper: seq<Vector>)
    requires Uniform(deeper, |current.cats|)
    requires forall v :: v in deeper ==> v.options.depth > current.options.depth
    ensures FoundUnder(UnderAll(current, deeper), current.options)
  {
  }

  lemma UnderAllComeFrom(current: Vector, deeper: seq<Vector>, sections: seq<Vector>)
    requires Uniform(deeper, |current.cats|) && AllComeFrom(deeper, sections)
    requires forall v :: v in deeper ==> Compatible(current.cats, v.cats)
    ensures AllComeFrom(UnderAll(current, deeper),
                        [Vector(AllNone(|current.cats|), current.options)] + Inside(current.cats, sections))
  {
    var all := [Vector(AllNone(|current.cats|), current.options)] + Inside(current.cats, sections);
    forall v | v in UnderAll(current, deeper)
      ensures ComesFrom(v, all)
    {
      var j :| 0 <= j < |deeper| && v == Under(current, deeper[j]);
      UnderComesFrom(current, deeper[j], sections, all);
    }
  }

  lemma UnderAllReaches(current: Vector, deeper: seq<Vector>, sections: seq<Vector>)
    requires Uniform(deeper, |current.cats|) && AllReach(sections, deeper)
    ensures AllReach(Inside(current.cats, sections), UnderAll(current, deeper))
  {
    var inside, merged := Inside(current.cats, sections), UnderAll(current, deeper);
    forall s | s in inside
      ensures exists v :: v in merged && Reaches(s, v)
    {
      var j :| 0 <= j < |inside| && inside[j] == s;
      assert sections[j] in sections;
      var v :| v in deeper && Reaches(sections[j], v);
      var k :| 0 <= k < |deeper| && deeper[k] == v;
      assert merged[k] in merged && Reaches(s, merged[k]);
    }
  }

  lemma UnderComesFrom(current: Vector, deep: Vector, sections: seq<Vector>, all: seq<Vector>)
    requires |current.cats| == |deep.cats| && ComesFrom(deep, sections) && Compatible(current.cats, deep.cats)
    requires all == [Vector(AllNone(|deep.cats|), current.options)] + Inside(current.cats, sections)
    ensures ComesFrom(Under(current, deep), all)
  {
    var v := Under(current, deep);
    var top := all[0];
    forall s | s in sections && Extends(deep.cats, s.cats)
      ensures exists u :: u in all && Extends(v.cats, u.cats) && u.options == s.options
    {
      var j :| 0 <= j < |sections| && sections[j] == s;
      assert all[j + 1] == s.(cats := Join(current.cats, s.cats));
      assert Extends(v.cats, all[j + 1].cats);
    }
    assert top in all && Extends(v.cats, top.cats);
    forall name | name in v.options.entries
      ensures HasEntry(all, v.cats, name, v.options.entries[name])
    {
      if name in deep.options.entries {
        assert HasEntry(sections, deep.cats, name, v.options.entries[name]);
      }
    }
    assert HasDepth(sections, deep.cats, deep.options.depth);
  }
}
