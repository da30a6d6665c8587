/** Nested configurations, and the vectors found in them. */
module NestedConfigs {
  import opened Wrappers
  import opened CategoryTuples
  import opened Vectors

  /** A section holds options, and for each category what is configured for it. The place
      of a category among all categories stands for its name. */
  datatype Config = NotAMapping | Section(options: map<OptionName, OptionValue>, categories: seq<Found>)
  datatype Found = Absent | Values(values: seq<Choice>)
  datatype Choice = Plain(value: Option<string>) | Nested(value: Option<string>, node: Config)

  function AllNone(categories: nat): Cats {
    seq(categories, _ => None)
  }

  function Single(categories: nat, i: nat, value: Option<string>): Cats
    requires i < categories
  {
    AllNone(categories)[i := value]
  }

  /** The category is configured in the section, and not fixed by an enclosing one. */
  predicate Visited(node: Config, seen: set<nat>, i: nat) {
    node.Section? && i < |node.categories| && node.categories[i].Values? && i !in seen
  }

  predicate AnyVisited(node: Config, seen: set<nat>, categories: nat) {
    exists i: nat :: i < categories && Visited(node, seen, i)
  }

  // ---- The tuples of a configuration ----

  /** The tuples of the vectors found in a section, below the categories seen so far. */
  ghost function Emits(node: Config, seen: set<nat>, categories: nat): iset<Cats>
    decreases node, categories + 1
  {
    if node.NotAMapping? then iset{}
    else if !AnyVisited(node, seen, categories) then iset{AllNone(categories)}
    else EmitsFrom(node, seen, categories, 0)
  }

  ghost function EmitsFrom(node: Config, seen: set<nat>, categories: nat, i: nat): iset<Cats>
    requires i <= categories
    decreases node, categories - i
  {
    if i == categories then iset{}
    else
      (if Visited(node, seen, i) then EmitsChoices(node.categories[i].values, seen, categories, i) else iset{})
      + EmitsFrom(node, seen, categories, i + 1)
  }

  ghost function EmitsChoices(values: seq<Choice>, seen: set<nat>, categories: nat, i: nat): iset<Cats>
    requires i < categories
    decreases values, 0
  {
    if values == [] then iset{}
    else EmitsChoice(values[0], seen, categories, i) + EmitsChoices(values[1..], seen, categories, i)
  }

  /** A nested section contributes the maximal joins of its own tuples, each with the
      enclosing choice added. */
  ghost function EmitsChoice(choice: Choice, seen: set<nat>, categories: nat, i: nat): iset<Cats>
    requires i < categories
    decreases choice, 0
  {
    match choice
    case Plain(value) => iset{Single(categories, i, value)}
    case Nested(value, node) =>
      iset t | t in MaxJoins(Emits(node, seen + {i}, categories)) && |t| == categories
             :: Join(Single(categories, i, value), t)
  }

  /** Somewhere in what is visited, there is a section that is not a mapping. */
  ghost predicate Broken(node: Config, seen: set<nat>, categories: nat)
    decreases node, categories + 1
  {
    node.NotAMapping? || BrokenFrom(node, seen, categories, 0)
  }

  ghost predicate BrokenFrom(node: Config, seen: set<nat>, categories: nat, i: nat)
    requires i <= categories
    decreases node, categories - i
  {
    i < categories &&
    ((Visited(node, seen, i) && BrokenChoices(node.categories[i].values, seen, categories, i))
     || BrokenFrom(node, seen, categories, i + 1))
  }

  ghost predicate BrokenChoices(values: seq<Choice>, seen: set<nat>, categories: nat, i: nat)
    decreases values, 0
  {
    values != [] &&
    (BrokenChoice(values[0], seen, categories, i) || BrokenChoices(values[1..], seen, categories, i))
  }

  ghost predicate BrokenChoice(choice: Choice, seen: set<nat>, categories: nat, i: nat)
    decreases choice, 0
  {
    choice.Nested? && Broken(choice.node, seen + {i}, categories)
  }

  // ---- Enclosing categories ----

  /** The tuple has a place for each category, and sets none of the given ones. */
  ghost predicate Avoids(t: Cats, seen: set<nat>, categories: nat) {
    |t| == categories && forall i: nat :: i < categories && i in seen ==> t[i].None?
  }

  /** No tuple of a section sets a category that was seen before. */
  lemma {:induction false} EmitsAvoidSeen(node: Config, seen: set<nat>, categories: nat, t: Cats)
    requires t in Emits(node, seen, categories)
    ensures Avoids(t, seen, categories)
    decreases node, categories + 1
  {
    if AnyVisited(node, seen, categories) {
      EmitsFromAvoidSeen(node, seen, categories, 0, t);
    }
  }

  lemma {:induction false} EmitsFromAvoidSeen(node: Config, seen: set<nat>, categories: nat, i: nat, t: Cats)
    requires i <= categories && t in EmitsFrom(node, seen, categories, i)
    ensures Avoids(t, seen, categories)
    decreases node, categories - i
  {
    if Visited(node, seen, i) && t in EmitsChoices(node.categories[i].values, seen, categories, i) {
      EmitsChoicesAvoidSeen(node.categories[i].values, seen, categories, i, t);
    } else {
      EmitsFromAvoidSeen(node, seen, categories, i + 1, t);
    }
  }

  lemma {:induction false} EmitsChoicesAvoidSeen(values: seq<Choice>, seen: set<nat>, categories: nat, i: nat, t: Cats)
    requires i < categories && i !in seen && t in EmitsChoices(values, seen, categories, i)
    ensures Avoids(t, seen, categories)
    decreases values, 0
  {
    if t in EmitsChoice(values[0], seen, categories, i) {
      EmitsChoiceAvoidsSeen(values[0], seen, categories, i, t);
    } else {
      EmitsChoicesAvoidSeen(values[1..], seen, categories, i, t);
    }
  }

  lemma {:induction false} EmitsChoiceAvoidsSeen(choice: Choice, seen: set<nat>, categories: nat, i: nat, t: Cats)
    requires i < categories && i !in seen && t in EmitsChoice(choice, seen, categories, i)
    ensures Avoids(t, seen, categories)
    decreases choice, 0
  {
    if choice.Nested? {
      var u :| u in MaxJoins(Emits(choice.node, seen + {i}, categories)) && |u| == categories
               && t == Join(Single(categories, i, choice.value), u);
      NestedAvoidsSeen(choice.node, seen + {i}, categories, u);
    }
  }

  /** Nor does any join of the tuples of a section. */
  lemma {:induction false} NestedAvoidsSeen(node: Config, seen: set<nat>, categories: nat, u: Cats)
    requires u in MaxJoins(Emits(node, seen, categories))
    ensures Avoids(u, seen, categories)
    decreases node, categories + 2
  {
    var a :| a in Emits(node, seen, categories) && Extends(u, a);
    EmitsAvoidSeen(node, seen, categories, a);
    forall i: nat | i < categories && i in seen
      ensures u[i].None?
    {
      if u[i].Some? {
        var b :| b in Emits(node, seen, categories) && Extends(u, b) && b[i] == u[i];
        EmitsAvoidSeen(node, seen, categories, b);
      }
    }
  }

  /** The deeper vector, with the enclosing choice added to its tuple and its options. */
  function Under(choice: Vector, deep: Vector): Vector
    requires |choice.cats| == |deep.cats|
  {
    Vector(Join(choice.cats, deep.cats), MergeOptions(choice.options, deep.options))
  }

  /** The vectors of a nested section agree with the choice that encloses it: merging them
      always works, keeps the choice, and lets the nested options override. */
  lemma EnclosingChoiceMerges(choice: Vector, deep: Vector, categories: nat, i: nat, value: Option<string>,
                              seen: set<nat>)
    requires i < categories && choice.cats == Single(categories, i, value)
    requires Avoids(deep.cats, seen + {i}, categories)
    requires choice.options.depth < deep.options.depth
    ensures Merge(choice, deep) == Some(Under(choice, deep))
    ensures Extends(Join(choice.cats, deep.cats), choice.cats) && Extends(Join(choice.cats, deep.cats), deep.cats)
  {
  }

  // ---- Configurations without vectors ----

  /** Some category is visited in the section, and all its choices, and those of any other
      visited category, are nested over sections of the same kind. */
  ghost predicate Barren(node: Config, seen: set<nat>, categories: nat)
    decreases node
  {
    node.NotAMapping?
    || (AnyVisited(node, seen, categories)
        && forall i: nat :: i < categories && Visited(node, seen, i) ==>
             BarrenChoices(node.categories[i].values, seen, categories, i))
  }

  ghost predicate BarrenChoices(values: seq<Choice>, seen: set<nat>, categories: nat, i: nat)
    decreases values, 0
  {
    forall choice :: choice in values ==> BarrenChoice(choice, seen, categories, i)
  }

  ghost predicate BarrenChoice(choice: Choice, seen: set<nat>, categories: nat, i: nat)
    decreases choice, 0
  {
    choice.Nested? && Barren(choice.node, seen + {i}, categories)
  }

  /** Just such sections have no vectors. */
  lemma {:induction false} BarrenEmitsNothing(node: Config, seen: set<nat>, categories: nat)
    ensures Emits(node, seen, categories) == iset{} <==> Barren(node, seen, categories)
    decreases node, categories + 1
  {
    if AnyVisited(node, seen, categories) {
      BarrenFromEmitsNothing(node, seen, categories, 0);
    } else if node.Section? {
      assert AllNone(categories) in Emits(node, seen, categories);
    }
  }

  lemma {:induction false} BarrenFromEmitsNothing(node: Config, seen: set<nat>, categories: nat, i: nat)
    requires i <= categories
    ensures EmitsFrom(node, seen, categories, i) == iset{} <==>
              forall k: nat :: i <= k < categories && Visited(node, seen, k) ==>
                BarrenChoices(node.categories[k].values, seen, categories, k)
    decreases node, categories - i
  {
    if i < categories {
      BarrenFromEmitsNothing(node, seen, categories, i + 1);
      if Visited(node, seen, i) {
        BarrenChoicesEmitNothing(node.categories[i].values, seen, categories, i);
      }
    }
  }

  lemma {:induction false} BarrenChoicesEmitNothing(values: seq<Choice>, seen: set<nat>, categories: nat, i: nat)
    requires i < categories
    ensures EmitsChoices(values, seen, categories, i) == iset{} <==> BarrenChoices(values, seen, categories, i)
    decreases values, 0
  {
    if values != [] {
      BarrenChoiceEmitsNothing(values[0], seen, categories, i);
      BarrenChoicesEmitNothing(values[1..], seen, categories, i);
      assert values == [values[0]] + values[1..];
    }
  }

  lemma {:induction false} BarrenChoiceEmitsNothing(choice: Choice, seen: set<nat>, categories: nat, i: nat)
    requires i < categories
    ensures EmitsChoice(choice, seen, categories, i) == iset{} <==> BarrenChoice(choice, seen, categories, i)
    decreases choice, 0
  {
    match choice
    case Plain(value) => assert Single(categories, i, value) in EmitsChoice(choice, seen, categories, i);
    case Nested(value, node) =>
      BarrenEmitsNothing(node, seen + {i}, categories);
      var joins := MaxJoins(Emits(node, seen + {i}, categories));
      NoMaxJoins(Emits(node, seen + {i}, categories));
      if t :| t in joins {
        NestedAvoidsSeen(node, seen + {i}, categories, t);
        assert Join(Single(categories, i, value), t) in EmitsChoice(choice, seen, categories, i);
      }
  }

  lemma NoMaxJoins(s: iset<Cats>)
    ensures MaxJoins(s) == iset{} <==> s == iset{}
  {
    if a :| a in s {
      assert Extends(a, a) && Supported(s, a);
      var m := SupportedIsCovered(s, a);
    }
  }

  /** The least such configuration: a category without values. */
  lemma EmptyListHasNoVectors(options: map<OptionName, OptionValue>, categories: nat)
    requires categories > 0
    ensures var config := Section(options, [Values([])]);
      Barren(config, {}, categories) && !Broken(config, {}, categories) && Emits(config, {}, categories) == iset{}
  {
    var config := Section(options, [Values([])]);
    assert Visited(config, {}, 0);
    BarrenEmitsNothing(config, {}, categories);
    NoValuesNotBroken(config, categories, 0);
  }

  lemma NoValuesNotBroken(node: Config, categories: nat, i: nat)
    requires node.Section? && node.categories == [Values([])] && i <= categories
    ensures !BrokenFrom(node, {}, categories, i)
    decreases categories - i
  {
  }
}
