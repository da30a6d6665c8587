/** Two configurations in which the more significant option is lost. */
module PrecedenceExamples {
  import opened Wrappers
  import opened CategoryTuples
  import opened Vectors
  import opened Aggregation
  import opened AggregationRounds
  import opened OptionPrecedence
  import opened InputPrecedence
  import opened NestedConfigs
  import opened NestedSearch

  /** Some vectors, all of which agree with the tuple that they make up, become one. */
  lemma BecomeOne(input: seq<Vector>, hash: Hash, categories: nat, t: Cats) returns (w: Vector)
    requires Injective(hash, input) && Uniform(input, categories)
    requires t in MaxJoins(CatsOf(input)) && forall v :: v in input ==> Extends(t, v.cats)
    ensures Aggregated(input, hash, categories) == [w] && w.cats == t && ComesFrom(w, input)
  {
    var out := Aggregated(input, hash, categories);
    AggregatedCombines(input, hash, categories);
    forall u | u in CatsOf(out)
      ensures u == t
    {
      AgreeingMaxJoin(input, t, u);
    }
    assert t in CatsOf(out);
    w := out[0];
    OnlyOneTuple(out, t);
  }

  lemma OnlyOneTuple(out: seq<Vector>, t: Cats)
    requires CatsOf(out) == iset{t}
    requires forall p: nat, q: nat :: p < |out| && q < |out| && p != q ==> !Compatible(out[p].cats, out[q].cats)
    ensures |out| == 1 && out[0].cats == t
  {
    assert forall v :: v in out ==> v.cats in CatsOf(out);
    assert t in CatsOf(out);
    assert !IsPair(out, 0, 1);
  }

  lemma MadeUp(vs: seq<Vector>, t: Cats)
    requires vs != [] && forall v :: v in vs ==> Extends(t, v.cats)
    requires forall i :: 0 <= i < |t| ==> exists v :: v in vs && i < |v.cats| && v.cats[i] == t[i]
    ensures t in MaxJoins(CatsOf(vs))
  {
    assert vs[0] in vs && vs[0].cats in CatsOf(vs);
    forall i | 0 <= i < |t|
      ensures exists a :: a in CatsOf(vs) && Extends(t, a) && a[i] == t[i]
    {
      var v :| v in vs && i < |v.cats| && v.cats[i] == t[i];
      assert v.cats in CatsOf(vs);
    }
  }

  lemma AgreeingMaxJoin(input: seq<Vector>, t: Cats, u: Cats)
    requires t in MaxJoins(CatsOf(input)) && u in MaxJoins(CatsOf(input))
    requires forall v :: v in input ==> Extends(t, v.cats)
    ensures u == t
  {
    forall i | 0 <= i < |u| && u[i].Some?
      ensures i < |t| && t[i] == u[i]
    {
      var a :| a in CatsOf(input) && Extends(u, a) && a[i] == u[i];
    }
    var a :| a in CatsOf(input) && Extends(u, a);
    MaxJoinsConflict(CatsOf(input), t, u);
  }

  lemma AggregatedOne(v: Vector, hash: Hash, categories: nat)
    requires |v.cats| == categories
    ensures Injective(hash, [v]) && Aggregated([v], hash, categories) == [v]
  {
    OnlyOneSupported(v);
    AllAloneAreMaxJoins([v]);
    assert v in [v] && v.cats in CatsOf([v]);
    var w := BecomeOne([v], hash, categories, v.cats);
    assert [v][0] == v;
    FinishedIsReturned([v], hash, categories, 0, 0);
  }

  lemma OnlyOneSupported(v: Vector)
    ensures forall t: Cats :: Supported(CatsOf([v]), t) ==> t == v.cats
  {
    forall t: Cats | Supported(CatsOf([v]), t)
      ensures t == v.cats
    {
      var a :| a in CatsOf([v]) && Extends(t, a);
      assert forall i :: 0 <= i < |t| && t[i].Some? ==> v.cats[i] == t[i];
    }
  }

  // ---- Searching small sections ----

  /** A section without categories. */
  function Leaf(entries: map<OptionName, OptionValue>): Config {
    Section(entries, [])
  }

  lemma LeafSearch(entries: map<OptionName, OptionValue>, value: Option<string>, seen: set<nat>, options: Options,
                   categories: nat, i: nat, hash: Hash)
    requires i < categories && FitsChoice(hash, Nested(value, Leaf(entries)), seen, categories, i)
    requires options.entries == map[]
    ensures SearchChoice(Nested(value, Leaf(entries)), seen, options, categories, hash, i)
         == [Vector(Single(categories, i, value), Options(options.depth + 1, entries))]
  {
    var v := Vector(AllNone(categories), Options(options.depth + 1, entries));
    AggregatedOne(v, hash, categories);
    assert Search(Leaf(entries), seen + {i}, options.depth, categories, hash) == [v];
    var current := Vector(Single(categories, i, value), options);
    assert Under(current, v) == Vector(current.cats, v.options);
  }

  lemma LeafChoice(entries: map<OptionName, OptionValue>, value: Option<string>, options: Options, categories: nat,
                   i: nat, hash: Hash)
    requires i < categories && FitsChoices(hash, [Nested(value, Leaf(entries))], {}, categories, i)
    requires options.entries == map[]
    ensures SearchChoices([Nested(value, Leaf(entries))], {}, options, categories, hash, i)
         == [Vector(Single(categories, i, value), Options(options.depth + 1, entries))]
  {
    OneChoice([Nested(value, Leaf(entries))], {}, options, categories, hash, i);
    LeafSearch(entries, value, {}, options, categories, i, hash);
  }

  lemma SearchStep(node: Config, categories: nat, hash: Hash, i: nat, values: seq<Choice>)
    requires node.Section? && Fits(hash, node, {}, categories)
    requires i < categories && i < |node.categories| && node.categories[i] == Values(values)
    ensures FitsChoices(hash, values, {}, categories, i)
    ensures Search(node, {}, 0, categories, hash) == SearchFrom(node, {}, 0, categories, hash, 0)
    ensures SearchFrom(node, {}, 0, categories, hash, i) ==
            SearchChoices(values, {}, Options(1, node.options), categories, hash, i)
            + SearchFrom(node, {}, 0, categories, hash, i + 1)
    ensures SearchFrom(node, {}, 0, categories, hash, categories) == []
  {
    assert Visited(node, {}, i);
  }

  lemma OneChoice(values: seq<Choice>, seen: set<nat>, options: Options, categories: nat, hash: Hash, i: nat)
    requires FitsChoices(hash, values, seen, categories, i) && i < categories && |values| == 1
    ensures SearchChoices(values, seen, options, categories, hash, i)
         == SearchChoice(values[0], seen, options, categories, hash, i)
  {
    assert SearchChoices(values[1..], seen, options, categories, hash, i) == [];
  }

  // ---- The deepest option is lost, whatever the hashes ----

  function Middle(name: OptionName, deep: OptionValue): Config {
    Section(map[], [Absent, Values([Nested(Some("b"), Leaf(map[name := deep]))])])
  }

  /** For the first category, a section with a section for the second one, and the same
      choice without; for the second category, the same choice again. */
  function DeepConfig(name: OptionName, top: OptionValue, deep: OptionValue): Config {
    Section(map[name := top],
            [Values([Nested(Some("a"), Middle(name, deep)), Plain(Some("a"))]), Values([Plain(Some("b"))])])
  }

  lemma MiddleSearch(name: OptionName, deep: OptionValue, hash: Hash)
    requires Fits(hash, Middle(name, deep), {} + {0}, 2)
    ensures Search(Middle(name, deep), {} + {0}, 1, 2, hash)
         == [Vector([None, Some("b")], Options(3, map[name := deep]))]
  {
    var node, seen := Middle(name, deep), {} + {0};
    var values := node.categories[1].values;
    assert Visited(node, seen, 1) && !Visited(node, seen, 0);
    OneChoice(values, seen, Options(2, map[]), 2, hash, 1);
    LeafSearch(map[name := deep], Some("b"), seen, Options(2, map[]), 2, 1, hash);
    assert Single(2, 1, Some("b")) == [None, Some("b")];
    assert SearchFrom(node, seen, 1, 2, hash, 2) == [];
    assert SearchFrom(node, seen, 1, 2, hash, 1) == SearchChoices(values, seen, Options(2, map[]), 2, hash, 1);
  }

  lemma DeepChoice(name: OptionName, deep: OptionValue, options: Options, hash: Hash)
    requires FitsChoice(hash, Nested(Some("a"), Middle(name, deep)), {}, 2, 0)
    requires options.depth == 1 && options.entries.Keys == {name}
    ensures SearchChoice(Nested(Some("a"), Middle(name, deep)), {}, options, 2, hash, 0)
         == [Vector([Some("a"), Some("b")], Options(3, map[name := deep]))]
  {
    MiddleSearch(name, deep, hash);
    var found := Vector([None, Some("b")], Options(3, map[name := deep]));
    AggregatedOne(found, hash, 2);
    var a := Vector([Some("a"), None], options);
    assert Single(2, 0, Some("a")) == a.cats;
    assert options.entries + map[name := deep] == map[name := deep];
    assert Under(a, found) == Vector([Some("a"), Some("b")], Options(3, map[name := deep]));
  }

  lemma DeepChoices(name: OptionName, deep: OptionValue, options: Options, hash: Hash)
    requires FitsChoices(hash, [Nested(Some("a"), Middle(name, deep)), Plain(Some("a"))], {}, 2, 0)
    requires options.depth == 1 && options.entries.Keys == {name}
    ensures SearchChoices([Nested(Some("a"), Middle(name, deep)), Plain(Some("a"))], {}, options, 2, hash, 0)
         == [Vector([Some("a"), Some("b")], Options(3, map[name := deep])),
             Vector([Some("a"), None], options)]
  {
    var nested, plain := Nested(Some("a"), Middle(name, deep)), Plain(Some("a"));
    assert nested in [nested, plain] && [nested, plain][1..] == [plain];
    DeepChoice(name, deep, options, hash);
    OneChoice([plain], {}, options, 2, hash, 0);
    assert Single(2, 0, Some("a")) == [Some("a"), None];
  }

  lemma SearchOfTwo(node: Config, first: seq<Choice>, second: seq<Choice>, hash: Hash)
    requires node.Section? && node.categories == [Values(first), Values(second)]
    requires Fits(hash, node, {}, 2)
    ensures FitsChoices(hash, first, {}, 2, 0) && FitsChoices(hash, second, {}, 2, 1)
    ensures var options := Options(1, node.options);
      Search(node, {}, 0, 2, hash) ==
      SearchChoices(first, {}, options, 2, hash, 0) + SearchChoices(second, {}, options, 2, hash, 1)
  {
    SearchStep(node, 2, hash, 0, first);
    SearchStep(node, 2, hash, 1, second);
  }

  lemma DeepSearch(name: OptionName, top: OptionValue, deep: OptionValue, hash: Hash)
    requires Fits(hash, DeepConfig(name, top, deep), {}, 2)
    ensures Search(DeepConfig(name, top, deep), {}, 0, 2, hash)
         == [Vector([Some("a"), Some("b")], Options(3, map[name := deep])),
             Vector([Some("a"), None], Options(1, map[name := top])),
             Vector([None, Some("b")], Options(1, map[name := top]))]
  {
    var options := Options(1, map[name := top]);
    SearchOfTwo(DeepConfig(name, top, deep), [Nested(Some("a"), Middle(name, deep)), Plain(Some("a"))],
                [Plain(Some("b"))], hash);
    DeepChoices(name, deep, options, hash);
    OneChoice([Plain(Some("b"))], {}, options, 2, hash, 1);
    assert Single(2, 1, Some("b")) == [None, Some("b")];
  }

  lemma DeepRanks(a: Vector, b: Vector, top: map<OptionName, OptionValue>)
    requires a == Vector([Some("a"), None], Options(1, top)) && b == Vector([None, Some("b")], Options(1, top))
    ensures OptionsInOrder(b, a) == Options(1, top)
  {
    assert top + top == top;
  }

  lemma DeepJoins(c: Vector, a: Vector, b: Vector)
    requires c.cats == [Some("a"), Some("b")] && a.cats == [Some("a"), None] && b.cats == [None, Some("b")]
    ensures var found := [c, a, b];
      && (forall v :: v in found ==> Extends(c.cats, v.cats))
      && IsMaxJoin(CatsOf(found), c.cats)
      && LastTwo(found, c.cats, 1, 2) && Complete(found, c.cats)
  {
    var found := [c, a, b];
    assert found[0] == c && found[1] == a && found[2] == b;
    MadeUp(found, c.cats);
    assert Join(c.cats, a.cats) == Join(c.cats, b.cats) == Join(a.cats, b.cats) == c.cats;
    assert Join(a.cats, c.cats) == Join(b.cats, c.cats) == Join(b.cats, a.cats) == c.cats;
  }

  lemma DeepAggregated(c: Vector, a: Vector, b: Vector, name: OptionName, top: OptionValue, hash: Hash)
    requires Injective(hash, [c, a, b])
    requires c.cats == [Some("a"), Some("b")] && c.options.entries.Keys == {name}
    requires a == Vector([Some("a"), None], Options(1, map[name := top]))
    requires b == Vector([None, Some("b")], Options(1, map[name := top]))
    ensures Aggregated([c, a, b], hash, 2) == [Vector(c.cats, Options(1, map[name := top]))]
  {
    var found := [c, a, b];
    DeepJoins(c, a, b);
    var w := BecomeOne(found, hash, 2, c.cats);
    DeepRanks(a, b, map[name := top]);
    LastTwoGive(found, hash, 2, w, 1, 2, name, Options(1, map[name := top]));
  }

  /** The last two inputs give the vector a single option. */
  lemma LastTwoGive(input: seq<Vector>, hash: Hash, categories: nat, w: Vector, y: nat, z: nat, name: OptionName,
                    options: Options)
    requires Injective(hash, input) && Uniform(input, categories) && w in Aggregated(input, hash, categories)
    requires LastTwo(input, w.cats, y, z) && Complete(input, w.cats)
    requires OptionsInOrder(input[z], input[y]) == options && options.entries.Keys == {name}
    requires ComesFrom(w, input) && forall v :: v in input ==> v.options.entries.Keys <= {name}
    ensures w.options == options
  {
    LastTwoDecideFinally(input, hash, categories, 0, w, y, z, None);
    LastTwoDecideFinally(input, hash, categories, 0, w, y, z, Some(name));
    OneName(input, w, name);
    assert name in options.entries && options.entries == map[name := options.entries[name]];
  }

  /** The three sections agree on one tuple. The option found deepest, and so the most
      significant one, is overridden by that of the top: the last pair to be tried is that of
      the two vectors from the top. */
  lemma DeepestOptionIsLost(name: OptionName, top: OptionValue, deep: OptionValue, hash: Hash)
    requires Fits(hash, DeepConfig(name, top, deep), {}, 2)
    ensures var found := Search(DeepConfig(name, top, deep), {}, 0, 2, hash);
      && Vector([Some("a"), Some("b")], Options(3, map[name := deep])) in found
      && Aggregated(found, hash, 2) == [Vector([Some("a"), Some("b")], Options(1, map[name := top]))]
  {
    DeepSearch(name, top, deep, hash);
    var found := Search(DeepConfig(name, top, deep), {}, 0, 2, hash);
    DeepAggregated(found[0], found[1], found[2], name, top, hash);
    assert found[0] in found;
  }

  // ---- The more significant option is lost, for some hashes ----

  /** Three categories with a section each; the first and the second one set the option. */
  function WideConfig(name: OptionName, x: OptionValue, y: OptionValue): Config {
    Section(map[],
            [Values([Nested(Some("a"), Leaf(map[name := x]))]),
             Values([Nested(Some("b"), Leaf(map[name := y]))]),
             Values([Nested(Some("c"), Leaf(map[]))])])
  }

  // The tuples of the three sections, and of two of them.
  const A: Cats := [Some("a"), None, None]
  const B: Cats := [None, Some("b"), None]
  const C: Cats := [None, None, Some("c")]
  const AB: Cats := [Some("a"), Some("b"), None]
  const AC: Cats := [Some("a"), None, Some("c")]
  const BC: Cats := [None, Some("b"), Some("c")]
  const ABC: Cats := [Some("a"), Some("b"), Some("c")]

  function Wide(name: OptionName, x: OptionValue, y: OptionValue): seq<Vector> {
    [Vector(A, Options(2, map[name := x])), Vector(B, Options(2, map[name := y])), Vector(C, Options(2, map[]))]
  }

  /** One more section, in front of those found already. */
  lemma LeafStep(node: Config, hash: Hash, i: nat, value: Option<string>, entries: map<OptionName, OptionValue>,
                 rest: seq<Vector>)
    requires node.Section? && node.options == map[] && Fits(hash, node, {}, 3)
    requires i < 3 && i < |node.categories| && node.categories[i] == Values([Nested(value, Leaf(entries))])
    requires SearchFrom(node, {}, 0, 3, hash, i + 1) == rest
    ensures SearchFrom(node, {}, 0, 3, hash, i) == [Vector(Single(3, i, value), Options(2, entries))] + rest
  {
    SearchStep(node, 3, hash, i, [Nested(value, Leaf(entries))]);
    LeafChoice(entries, value, Options(1, map[]), 3, i, hash);
  }

  lemma ThirdLeaf(node: Config, hash: Hash, z: map<OptionName, OptionValue>)
    requires node.Section? && node.options == map[] && Fits(hash, node, {}, 3) && |node.categories| == 3
    requires node.categories[2] == Values([Nested(Some("c"), Leaf(z))])
    ensures SearchFrom(node, {}, 0, 3, hash, 2) == [Vector(C, Options(2, z))]
  {
    LeafStep(node, hash, 2, Some("c"), z, []);
    assert Single(3, 2, Some("c")) == C;
  }

  lemma LastTwoLeaves(node: Config, hash: Hash, y: map<OptionName, OptionValue>, z: map<OptionName, OptionValue>)
    requires node.Section? && node.options == map[] && Fits(hash, node, {}, 3) && |node.categories| == 3
    requires node.categories[1] == Values([Nested(Some("b"), Leaf(y))])
    requires node.categories[2] == Values([Nested(Some("c"), Leaf(z))])
    ensures SearchFrom(node, {}, 0, 3, hash, 1) == [Vector(B, Options(2, y)), Vector(C, Options(2, z))]
  {
    ThirdLeaf(node, hash, z);
    LeafStep(node, hash, 1, Some("b"), y, [Vector(C, Options(2, z))]);
    assert Single(3, 1, Some("b")) == B;
  }

  lemma ThreeLeaves(node: Config, hash: Hash, x: map<OptionName, OptionValue>, y: map<OptionName, OptionValue>,
                    z: map<OptionName, OptionValue>)
    requires node.Section? && node.options == map[] && Fits(hash, node, {}, 3) && |node.categories| == 3
    requires node.categories[0] == Values([Nested(Some("a"), Leaf(x))])
    requires node.categories[1] == Values([Nested(Some("b"), Leaf(y))])
    requires node.categories[2] == Values([Nested(Some("c"), Leaf(z))])
    ensures SearchFrom(node, {}, 0, 3, hash, 0) ==
            [Vector(A, Options(2, x)), Vector(B, Options(2, y)), Vector(C, Options(2, z))]
  {
    LastTwoLeaves(node, hash, y, z);
    LeafStep(node, hash, 0, Some("a"), x, [Vector(B, Options(2, y)), Vector(C, Options(2, z))]);
    assert Single(3, 0, Some("a")) == A;
  }

  lemma WideSearch(name: OptionName, x: OptionValue, y: OptionValue, hash: Hash)
    requires Fits(hash, WideConfig(name, x, y), {}, 3)
    ensures Search(WideConfig(name, x, y), {}, 0, 3, hash) == Wide(name, x, y)
  {
    assert Visited(WideConfig(name, x, y), {}, 0);
    ThreeLeaves(WideConfig(name, x, y), hash, map[name := x], map[name := y], map[]);
  }

  lemma WideJoins()
    ensures Join(A, B) == Join(B, A) == AB && Join(A, C) == Join(C, A) == AC && Join(B, C) == Join(C, B) == BC
    ensures Join(AB, AC) == Join(AC, AB) == Join(AB, BC) == Join(BC, AB) == Join(AC, BC) == Join(BC, AC) == ABC
  {
  }

  lemma WideRanks(u: Options, v: Options)
    requires u.depth == v.depth
    ensures OptionsInOrder(Vector(B, v), Vector(A, u)) == MergeOptions(u, v)
    ensures OptionsInOrder(Vector(C, v), Vector(A, u)) == MergeOptions(u, v)
    ensures OptionsInOrder(Vector(C, v), Vector(B, u)) == MergeOptions(u, v)
    ensures OptionsInOrder(Vector(AC, v), Vector(AB, u)) == OptionsInOrder(Vector(AB, u), Vector(AC, v))
         == MergeOptions(u, v)
    ensures OptionsInOrder(Vector(BC, v), Vector(AB, u)) == OptionsInOrder(Vector(AB, u), Vector(BC, v))
         == MergeOptions(u, v)
    ensures OptionsInOrder(Vector(BC, v), Vector(AC, u)) == OptionsInOrder(Vector(AC, u), Vector(BC, v))
         == MergeOptions(u, v)
  {
    WeightOfThree(A);
    WeightOfThree(B);
    WeightOfThree(C);
    WeightOfThree(AB);
    WeightOfThree(AC);
    WeightOfThree(BC);
  }

  lemma WeightOfThree(t: Cats)
    requires |t| == 3
    ensures Weight(t) ==
      (if Truthy(t[0]) then 1 else 0) + (if Truthy(t[1]) then 1 else 0) + (if Truthy(t[2]) then 1 else 0)
  {
    var t2 := t[..2];
    var t1 := t2[..1];
    assert t2[1] == t[1] && t1[0] == t[0] && t1[..0] == [];
    assert Weight(t2) == Weight(t1) + if Truthy(t[1]) then 1 else 0;
  }

  /** After one round there are the three pairs, with the options of the more significant
      one of each. */
  lemma WideRound(name: OptionName, x: OptionValue, y: OptionValue, hash: Hash)
    requires Injective(hash, Wide(name, x, y))
    ensures forall v :: v in Round(Wide(name, x, y), hash) <==>
              || v == Vector(AB, Options(2, map[name := y]))
              || v == Vector(AC, Options(2, map[name := x]))
              || v == Vector(BC, Options(2, map[name := y]))
  {
    var wide := Wide(name, x, y);
    var next := Round(wide, hash);
    forall v | v in next
      ensures WideTuple(v.cats)
      ensures v == Vector(v.cats, Options(2, map[name := if v.cats == AC then x else y]))
    {
      RoundTuples(wide, hash, v.cats);
      WideTuples(name, x, y, v.cats);
      WideOptions(name, x, y, hash, v);
    }
    forall t | WideTuple(t)
      ensures t in CatsOf(next)
    {
      WideTuples(name, x, y, t);
      RoundTuples(wide, hash, t);
    }
    assert AB in CatsOf(next) && AC in CatsOf(next) && BC in CatsOf(next);
  }

  predicate WideTuple(t: Cats) {
    t == AB || t == AC || t == BC
  }

  lemma WideTuples(name: OptionName, x: OptionValue, y: OptionValue, t: Cats)
    ensures InRound(Wide(name, x, y), t) <==> WideTuple(t)
  {
    var wide := Wide(name, x, y);
    WideJoins();
    assert IsPair(wide, 0, 1) && IsPair(wide, 0, 2) && IsPair(wide, 1, 2) && IsPair(wide, 2, 0);
    assert !Alone(wide, 0) && !Alone(wide, 1) && !Alone(wide, 2);
  }

  lemma WideOptions(name: OptionName, x: OptionValue, y: OptionValue, hash: Hash, v: Vector)
    requires Injective(hash, Wide(name, x, y)) && v in Round(Wide(name, x, y), hash)
    requires WideTuple(v.cats)
    ensures v.options == Options(2, map[name := if v.cats == AC then x else y])
  {
    var p, q := if v.cats == BC then 1 else 0, if v.cats == AB then 1 else 2;
    WideTwo(name, x, y, p, q, v.cats);
    RoundOfTwo(Wide(name, x, y), hash, v, p, q);
    WideMerged(name, x, y);
  }

  lemma WideTwo(name: OptionName, x: OptionValue, y: OptionValue, p: nat, q: nat, t: Cats)
    requires (p == 0 && q == 1 && t == AB) || (p == 0 && q == 2 && t == AC) || (p == 1 && q == 2 && t == BC)
    ensures OnlyTwo(Wide(name, x, y), t, p, q) && Complete(Wide(name, x, y), t)
  {
    WideJoins();
    assert C[2] != AB[2] && B[1] != AC[1] && A[0] != BC[0];
  }

  lemma WideMerged(name: OptionName, x: OptionValue, y: OptionValue)
    ensures var wide := Wide(name, x, y);
      && OptionsInOrder(wide[1], wide[0]) == Options(2, map[name := y])
      && OptionsInOrder(wide[2], wide[0]) == Options(2, map[name := x])
      && OptionsInOrder(wide[2], wide[1]) == Options(2, map[name := y])
  {
    var a, b, c := Options(2, map[name := x]), Options(2, map[name := y]), Options(2, map[]);
    WideRanks(a, b);
    WideRanks(a, c);
    WideRanks(b, c);
    assert a.entries + b.entries == b.entries;
  }

  /** Of three vectors within a tuple, the two with the greater hashes are the last two. */
  lemma LastTwoOfThree(next: seq<Vector>, hash: Hash, t: Cats, first: Vector, u: Vector, v: Vector)
      returns (y: nat, z: nat)
    requires StrictlyAscending(next, hash)
    requires forall w :: w in next <==> w == first || w == u || w == v
    requires hash(first.cats) < hash(u.cats) && hash(first.cats) < hash(v.cats) && u != v
    requires Extends(t, u.cats) && Extends(t, v.cats)
    ensures LastTwo(next, t, y, z)
    ensures (next[y] == u && next[z] == v) || (next[y] == v && next[z] == u)
  {
    assert u in next && v in next;
    var i :| 0 <= i < |next| && next[i] == u;
    var j :| 0 <= j < |next| && next[j] == v;
    y, z := if i < j then i else j, if i < j then j else i;
    forall r: nat
      ensures Within(next, t, r) ==> r <= y || r == z
    {
      assert r < |next| ==> next[r] in next;
    }
  }

  /** Of three vectors, any two of which make up the tuple, the one with the least hash has
      no say. */
  lemma LeastHashLoses(next: seq<Vector>, hash: Hash, categories: nat, done: nat, w: Vector, first: Vector, u: Vector,
                       v: Vector, aspect: Aspect)
    requires Injective(hash, next) && Uniform(next, categories) && done > 0 && Floor(next, done - 1)
    requires StrictlyAscending(next, hash) && Distinct(next)
    requires forall n :: n in next <==> n == first || n == u || n == v
    requires hash(first.cats) < hash(u.cats) && hash(first.cats) < hash(v.cats) && u != v
    requires w in Rounds(next, hash, categories, done) && Complete(next, w.cats)
    requires Extends(w.cats, u.cats) && Extends(w.cats, v.cats)
    requires OptionsInOrder(u, v) == OptionsInOrder(v, u)
    requires Has(Vector(w.cats, OptionsInOrder(u, v)), w.cats, aspect)
    ensures Has(w, w.cats, aspect) && Agree(w, Vector(w.cats, OptionsInOrder(u, v)), aspect)
  {
    var y, z := LastTwoOfThree(next, hash, w.cats, first, u, v);
    LastTwoDecideFinally(next, hash, categories, done, w, y, z, aspect);
  }

  lemma WideComplete(next: seq<Vector>)
    requires Distinct(next) && forall v :: v in next ==> WideTuple(v.cats)
    ensures Complete(next, ABC)
  {
    WideJoins();
    forall p: nat, q: nat | Within(next, ABC, p) && Within(next, ABC, q) && p != q
      ensures Join(next[p].cats, next[q].cats) == ABC
    {
      assert next[p] in next && next[q] in next && next[p].cats != next[q].cats;
    }
  }

  lemma SecondRound(vs: seq<Vector>, hash: Hash, categories: nat)
    requires Injective(hash, vs) && Uniform(vs, categories) && IsPair(vs, 0, 1)
    ensures var next := Round(vs, hash);
      && Uniform(next, categories) && Injective(hash, next) && Distinct(next) && Floor(next, 0)
      && StrictlyAscending(next, hash)
      && Aggregated(vs, hash, categories) == Rounds(next, hash, categories, 1)
  {
    NextFloor(vs, hash, categories, 0);
    RoundUniform(vs, hash, categories);
    RoundAscends(vs, hash);
  }

  lemma WideOrder(u: Vector, v: Vector)
    requires (u.cats == AB && v.cats == AC) || (u.cats == AB && v.cats == BC) || (u.cats == AC && v.cats == BC)
    requires u.options.depth == v.options.depth
    ensures OptionsInOrder(u, v) == OptionsInOrder(v, u) == MergeOptions(u.options, v.options)
    ensures Extends(ABC, u.cats) && Extends(ABC, v.cats) && u != v
  {
    WideRanks(u.options, v.options);
    assert AB[2] != AC[2] && AB[0] != BC[0] && AC[0] != BC[0];
  }

  lemma WideAggregated(vs: seq<Vector>, hash: Hash, w: Vector, first: Vector, u: Vector, v: Vector, aspect: Aspect)
    requires Injective(hash, vs) && Uniform(vs, 3) && IsPair(vs, 0, 1)
    requires w in Aggregated(vs, hash, 3) && Complete(Round(vs, hash), w.cats)
    requires forall n :: n in Round(vs, hash) <==> n == first || n == u || n == v
    requires hash(first.cats) < hash(u.cats) && hash(first.cats) < hash(v.cats) && u != v
    requires Extends(w.cats, u.cats) && Extends(w.cats, v.cats)
    requires OptionsInOrder(u, v) == OptionsInOrder(v, u) == MergeOptions(u.options, v.options)
    requires Has(v, v.cats, aspect)
    ensures Has(w, w.cats, aspect) && Agree(w, v, aspect)
  {
    SecondRound(vs, hash, 3);
    LeastHashLoses(Round(vs, hash), hash, 3, 1, w, first, u, v, aspect);
  }

  lemma WideCompletes(name: OptionName, x: OptionValue, y: OptionValue, hash: Hash)
    requires Injective(hash, Wide(name, x, y))
    ensures Complete(Round(Wide(name, x, y), hash), ABC)
  {
    WideRound(name, x, y, hash);
    RoundDistinct(Wide(name, x, y), hash);
    WideComplete(Round(Wide(name, x, y), hash));
  }

  lemma WideStarts(name: OptionName, x: OptionValue, y: OptionValue)
    ensures Uniform(Wide(name, x, y), 3) && IsPair(Wide(name, x, y), 0, 1)
  {
  }

  lemma WideHashesDiffer(name: OptionName, x: OptionValue, y: OptionValue, hash: Hash)
    requires Injective(hash, Wide(name, x, y))
    ensures hash(AB) != hash(AC) && hash(AB) != hash(BC) && hash(AC) != hash(BC)
  {
    WideJoins();
    JoinIsSupported(Wide(name, x, y), 0, 1);
    JoinIsSupported(Wide(name, x, y), 0, 2);
    JoinIsSupported(Wide(name, x, y), 1, 2);
    var tuples := CatsOf(Wide(name, x, y));
    assert !SameHash(hash, tuples, AB, AC) && !SameHash(hash, tuples, AB, BC) && !SameHash(hash, tuples, AC, BC) by {
      assert AB[2] != AC[2] && AB[0] != BC[0] && AC[0] != BC[0];
    }
    assert AB[2] != AC[2] && AB[0] != BC[0] && AC[0] != BC[0];
  }

  lemma WideValue(name: OptionName, x: OptionValue, y: OptionValue, hash: Hash, w: Vector, aspect: Aspect)
    requires Injective(hash, Wide(name, x, y)) && w in Aggregated(Wide(name, x, y), hash, 3) && w.cats == ABC
    requires aspect.Some? ==> aspect.value == name
    ensures var value := if hash(BC) < hash(AB) && hash(BC) < hash(AC) then x else y;
      Has(w, w.cats, aspect) && Agree(w, Vector(w.cats, Options(2, map[name := value])), aspect)
  {
    var ab, ac := Vector(AB, Options(2, map[name := y])), Vector(AC, Options(2, map[name := x]));
    var bc := Vector(BC, Options(2, map[name := y]));
    WideCompletes(name, x, y, hash);
    WideStarts(name, x, y);
    WideRound(name, x, y, hash);
    WideHashesDiffer(name, x, y, hash);
    if hash(BC) < hash(AB) && hash(BC) < hash(AC) {
      WideOrder(ab, ac);
      WideAggregated(Wide(name, x, y), hash, w, bc, ab, ac, aspect);
    } else if hash(AC) < hash(AB) {
      WideOrder(ab, bc);
      WideAggregated(Wide(name, x, y), hash, w, ac, ab, bc, aspect);
    } else {
      WideOrder(ac, bc);
      WideAggregated(Wide(name, x, y), hash, w, ab, ac, bc, aspect);
    }
  }

  lemma WideDecided(name: OptionName, x: OptionValue, y: OptionValue, hash: Hash)
    requires Injective(hash, Wide(name, x, y))
    ensures Aggregated(Wide(name, x, y), hash, 3) == [Vector(ABC, Options(2, map[name :=
              if hash(BC) < hash(AB) && hash(BC) < hash(AC) then x else y]))]
  {
    var wide := Wide(name, x, y);
    WideMakeUp(wide);
    var w := BecomeOne(wide, hash, 3, ABC);
    WideValue(name, x, y, hash, w, None);
    WideValue(name, x, y, hash, w, Some(name));
    OneName(wide, w, name);
  }

  lemma SecondOutranksFirst(v: Vector, w: Vector)
    requires v.cats == A && w.cats == B && v.options.depth == w.options.depth
    ensures Outranks(w, v)
  {
    assert Significant(A) == {0} && Significant(B) == {1};
    assert 1 in Significant(B) - Significant(A);
  }

  /** The second section is more significant than the first one, but has its option in the
      result just if the pair of the second and the third is not the one with the least
      hash. */
  lemma HashDecides(name: OptionName, x: OptionValue, y: OptionValue, hash: Hash)
    requires Fits(hash, WideConfig(name, x, y), {}, 3)
    ensures var found := Search(WideConfig(name, x, y), {}, 0, 3, hash);
      && found == Wide(name, x, y) && Outranks(found[1], found[0])
      && Aggregated(found, hash, 3) == [Vector(ABC, Options(2, map[name :=
           if hash(BC) < hash(AB) && hash(BC) < hash(AC) then x else y]))]
  {
    WideSearch(name, x, y, hash);
    SecondOutranksFirst(Wide(name, x, y)[0], Wide(name, x, y)[1]);
    WideDecided(name, x, y, hash);
  }

  lemma WideMakeUp(wide: seq<Vector>)
    requires |wide| == 3 && wide[0].cats == A && wide[1].cats == B && wide[2].cats == C
    ensures ABC in MaxJoins(CatsOf(wide)) && forall v :: v in wide ==> Extends(ABC, v.cats)
  {
    assert A[0] == ABC[0] && B[1] == ABC[1] && C[2] == ABC[2];
    assert forall i :: 0 <= i < 3 ==> wide[i].cats[i] == ABC[i];
    MadeUp(wide, ABC);
  }

  lemma OneName(input: seq<Vector>, w: Vector, name: OptionName)
    requires ComesFrom(w, input) && forall v :: v in input ==> v.options.entries.Keys <= {name}
    requires name in w.options.entries
    ensures w.options.entries == map[name := w.options.entries[name]]
  {
    forall other | other in w.options.entries
      ensures other == name
    {
      assert HasEntry(input, w.cats, other, w.options.entries[other]);
    }
  }
}
