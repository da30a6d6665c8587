/** The paths through a configuration, and what they say about its tuples. */
module ConfigPaths {
  import opened Wrappers
  import opened CategoryTuples
  import opened NestedConfigs

  /** One of the choices that a section has for a category. */
  datatype Turn = Turn(category: nat, choice: Choice)

  ghost predicate CanTurn(node: Config, seen: set<nat>, categories: nat, turn: Turn) {
    turn.category < categories && Visited(node, seen, turn.category)
    && turn.choice in node.categories[turn.category].values
  }

  /** The path takes one turn after the other, each for a category not fixed before. It ends
      in a plain value, or in a section that has no category left to visit. */
  ghost predicate IsFullPath(node: Config, seen: set<nat>, categories: nat, path: seq<Turn>)
    decreases |path|
  {
    if path == [] then node.Section? && !AnyVisited(node, seen, categories)
    else
      CanTurn(node, seen, categories, path[0]) &&
      match path[0].choice
      case Plain(_) => |path| == 1
      case Nested(_, inner) => IsFullPath(inner, seen + {path[0].category}, categories, path[1..])
  }

  /** The path ends where there should be a section and is none. */
  ghost predicate IsBrokenPath(node: Config, seen: set<nat>, categories: nat, path: seq<Turn>)
    decreases |path|
  {
    if path == [] then node.NotAMapping?
    else
      CanTurn(node, seen, categories, path[0]) && path[0].choice.Nested?
      && IsBrokenPath(path[0].choice.node, seen + {path[0].category}, categories, path[1..])
  }

  /** The values chosen along the path. */
  function TupleOf(path: seq<Turn>, categories: nat): (t: Cats)
    ensures |t| == categories
  {
    if path == [] then AllNone(categories)
    else
      var t := TupleOf(path[1..], categories);
      if path[0].category < categories then t[path[0].category := path[0].choice.value] else t
  }

  // ---- Full paths are found ----

  lemma {:induction false} PathIsFound(node: Config, seen: set<nat>, categories: nat, path: seq<Turn>)
      returns (t: Cats)
    requires IsFullPath(node, seen, categories, path)
    ensures t in Emits(node, seen, categories) && Extends(t, TupleOf(path, categories))
    decreases |path|
  {
    if path == [] {
      t := AllNone(categories);
    } else {
      var turn := path[0];
      if turn.choice.Plain? {
        t := Single(categories, turn.category, turn.choice.value);
        assert path[1..] == [];
      } else {
        var a := PathIsFound(turn.choice.node, seen + {turn.category}, categories, path[1..]);
        EmitsAvoidSeen(turn.choice.node, seen + {turn.category}, categories, a);
        t := NestedIsFound(turn.choice, seen, categories, turn.category, a);
        ExtendsAfterTurn(t, a, TupleOf(path[1..], categories), turn.category, turn.choice.value);
      }
      ChoiceIsEmitted(node, seen, categories, turn, t);
    }
  }

  lemma ExtendsAfterTurn(t: Cats, a: Cats, b: Cats, i: nat, value: Option<string>)
    requires i < |a| && Extends(a, b) && Extends(t, a[i := value])
    ensures Extends(t, b[i := value])
  {
  }

  /** What is found in a nested section comes out with the enclosing choice. */
  lemma NestedIsFound(choice: Choice, seen: set<nat>, categories: nat, i: nat, a: Cats) returns (t: Cats)
    requires choice.Nested? && i < categories && a in Emits(choice.node, seen + {i}, categories)
    requires Avoids(a, seen + {i}, categories)
    ensures t in EmitsChoice(choice, seen, categories, i) && Extends(t, a[i := choice.value])
  {
    var s := Emits(choice.node, seen + {i}, categories);
    var m := MemberIsCovered(s, a);
    NestedAvoidsSeen(choice.node, seen + {i}, categories, m);
    t := Join(Single(categories, i, choice.value), m);
  }

  lemma MemberIsCovered(s: iset<Cats>, a: Cats) returns (m: Cats)
    requires a in s
    ensures m in MaxJoins(s) && Extends(m, a)
  {
    assert Extends(a, a) && Supported(s, a);
    m := SupportedIsCovered(s, a);
  }

  lemma ChoiceIsEmitted(node: Config, seen: set<nat>, categories: nat, turn: Turn, t: Cats)
    requires CanTurn(node, seen, categories, turn) && t in EmitsChoice(turn.choice, seen, categories, turn.category)
    ensures t in Emits(node, seen, categories)
  {
    var i := turn.category;
    assert AnyVisited(node, seen, categories);
    EmittedAmongChoices(node.categories[i].values, seen, categories, i, turn.choice, t);
    EmittedHere(node, seen, categories, i, t);
    EmittedFromStart(node, seen, categories, i, t);
  }

  lemma {:induction false} EmittedAmongChoices(values: seq<Choice>, seen: set<nat>, categories: nat, i: nat,
                                               choice: Choice, t: Cats)
    requires i < categories && choice in values && t in EmitsChoice(choice, seen, categories, i)
    ensures t in EmitsChoices(values, seen, categories, i)
  {
    if choice != values[0] {
      assert values == [values[0]] + values[1..];
      EmittedAmongChoices(values[1..], seen, categories, i, choice, t);
    }
  }

  lemma EmittedHere(node: Config, seen: set<nat>, categories: nat, i: nat, t: Cats)
    requires i < categories && Visited(node, seen, i)
    requires t in EmitsChoices(node.categories[i].values, seen, categories, i)
    ensures t in EmitsFrom(node, seen, categories, i)
  {
  }

  lemma EmittedLater(node: Config, seen: set<nat>, categories: nat, i: nat, t: Cats)
    requires i < categories && t in EmitsFrom(node, seen, categories, i + 1)
    ensures t in EmitsFrom(node, seen, categories, i)
  {
  }

  lemma EmittedFromStart(node: Config, seen: set<nat>, categories: nat, i: nat, t: Cats)
    requires i <= categories && t in EmitsFrom(node, seen, categories, i)
    ensures t in EmitsFrom(node, seen, categories, 0)
  {
    for k := i downto 0
      invariant t in EmitsFrom(node, seen, categories, k)
    {
      EmittedLater(node, seen, categories, k, t);
    }
  }

  // ---- What is found is on full paths ----

  /** A tuple of a section comes from one of its choices. */
  lemma EmittedByChoice(node: Config, seen: set<nat>, categories: nat, t: Cats) returns (turn: Turn)
    requires AnyVisited(node, seen, categories) && t in Emits(node, seen, categories)
    ensures CanTurn(node, seen, categories, turn) && t in EmitsChoice(turn.choice, seen, categories, turn.category)
  {
    turn := EmittedFrom(node, seen, categories, 0, t);
  }

  lemma GivenIsEmitted(node: Config, seen: set<nat>, categories: nat, turn: Turn, t: Cats)
    requires CanTurn(node, seen, categories, turn)
    ensures GivenBy(node, seen, categories, turn, t) <==>
              t in EmitsChoice(turn.choice, seen, categories, turn.category)
  {
    if turn.choice.Nested? {
      var i, value, inner := turn.category, turn.choice.value, turn.choice.node;
      forall m: Cats | m in MaxJoins(Emits(inner, seen + {i}, categories))
        ensures |m| == categories && m[i].None? && Join(Single(categories, i, value), m) == m[i := value]
      {
        NestedAvoidsSeen(inner, seen + {i}, categories, m);
      }
    }
  }

  /** Exactly what the choices of a section give is found in it. */
  lemma EmitsMeans(node: Config, seen: set<nat>, categories: nat, t: Cats)
    requires AnyVisited(node, seen, categories)
    ensures t in Emits(node, seen, categories) <==> exists turn :: GivenBy(node, seen, categories, turn, t)
  {
    if t in Emits(node, seen, categories) {
      var turn := EmittedByChoice(node, seen, categories, t);
      GivenIsEmitted(node, seen, categories, turn, t);
    }
    if turn :| GivenBy(node, seen, categories, turn, t) {
      GivenIsEmitted(node, seen, categories, turn, t);
      ChoiceIsEmitted(node, seen, categories, turn, t);
    }
  }

  /** A plain value gives a tuple with just this value; a nested section gives the maximal
      joins of what is found in it, each with the value. */
  ghost predicate GivenBy(node: Config, seen: set<nat>, categories: nat, turn: Turn, t: Cats) {
    CanTurn(node, seen, categories, turn) &&
    match turn.choice
    case Plain(value) => t == AllNone(categories)[turn.category := value]
    case Nested(value, inner) =>
      exists m: Cats :: m in MaxJoins(Emits(inner, seen + {turn.category}, categories))
                        && turn.category < |m| && m[turn.category].None? && t == m[turn.category := value]
  }

  lemma {:induction false} EmittedFrom(node: Config, seen: set<nat>, categories: nat, i: nat, t: Cats)
      returns (turn: Turn)
    requires i <= categories && t in EmitsFrom(node, seen, categories, i)
    ensures CanTurn(node, seen, categories, turn) && t in EmitsChoice(turn.choice, seen, categories, turn.category)
    decreases categories - i
  {
    if Visited(node, seen, i) && t in EmitsChoices(node.categories[i].values, seen, categories, i) {
      var choice := EmittedAmong(node.categories[i].values, seen, categories, i, t);
      turn := Turn(i, choice);
    } else {
      turn := EmittedFrom(node, seen, categories, i + 1, t);
    }
  }

  lemma {:induction false} EmittedAmong(values: seq<Choice>, seen: set<nat>, categories: nat, i: nat, t: Cats)
      returns (choice: Choice)
    requires i < categories && t in EmitsChoices(values, seen, categories, i)
    ensures choice in values && t in EmitsChoice(choice, seen, categories, i)
  {
    if t in EmitsChoice(values[0], seen, categories, i) {
      choice := values[0];
    } else {
      choice := EmittedAmong(values[1..], seen, categories, i, t);
    }
  }

  /** A tuple found extends that of a full path, on which any one of its values stands. */
  lemma {:induction false} FoundIsOnPath(node: Config, seen: set<nat>, categories: nat, t: Cats, i: nat)
      returns (path: seq<Turn>)
    requires t in Emits(node, seen, categories)
    ensures IsFullPath(node, seen, categories, path) && Extends(t, TupleOf(path, categories))
    ensures i < |t| && t[i].Some? ==> TupleOf(path, categories)[i] == t[i]
    decreases node
  {
    path := [];
    if AnyVisited(node, seen, categories) {
      var turn := EmittedByChoice(node, seen, categories, t);
      path := [turn];
      if turn.choice.Nested? {
        var a := FoundInNested(turn.choice, seen, categories, turn.category, t, i);
        var rest := FoundIsOnPath(turn.choice.node, seen + {turn.category}, categories, a, i);
        path := [turn] + rest;
        assert path[1..] == rest;
        ExtendsAfterTurn(t, a, TupleOf(rest, categories), turn.category, turn.choice.value);
      }
    }
  }

  lemma FoundInNested(choice: Choice, seen: set<nat>, categories: nat, c: nat, t: Cats, i: nat) returns (a: Cats)
    requires choice.Nested? && c < categories && t in EmitsChoice(choice, seen, categories, c)
    ensures a in Emits(choice.node, seen + {c}, categories) && |a| == categories
    ensures Extends(t, a[c := choice.value])
    ensures i < |t| && t[i].Some? ==> if i == c then t[i] == choice.value else a[i] == t[i]
  {
    var inner := Emits(choice.node, seen + {c}, categories);
    var m :| m in MaxJoins(inner) && |m| == categories && t == Join(Single(categories, c, choice.value), m);
    NestedAvoidsSeen(choice.node, seen + {c}, categories, m);
    a := PartOfJoin(inner, m, i);
    EmitsAvoidSeen(choice.node, seen + {c}, categories, a);
  }

  lemma PartOfJoin(s: iset<Cats>, m: Cats, i: nat) returns (a: Cats)
    requires m in MaxJoins(s)
    ensures a in s && Extends(m, a) && (i < |m| && m[i].Some? ==> a[i] == m[i])
  {
    if i < |m| && m[i].Some? {
      a :| a in s && Extends(m, a) && a[i] == m[i];
    } else {
      a :| a in s && Extends(m, a);
    }
  }

  // ---- Broken paths ----

  lemma {:induction false} BrokenPathBreaks(node: Config, seen: set<nat>, categories: nat, path: seq<Turn>)
    requires IsBrokenPath(node, seen, categories, path)
    ensures Broken(node, seen, categories)
    decreases |path|
  {
    if path != [] {
      var turn := path[0];
      BrokenPathBreaks(turn.choice.node, seen + {turn.category}, categories, path[1..]);
      BrokenAmong(node.categories[turn.category].values, seen, categories, turn.category, turn.choice);
      BrokenFromCategory(node, seen, categories, 0, turn.category);
    }
  }

  lemma {:induction false} BrokenAmong(values: seq<Choice>, seen: set<nat>, categories: nat, i: nat, choice: Choice)
    requires choice in values && BrokenChoice(choice, seen, categories, i)
    ensures BrokenChoices(values, seen, categories, i)
  {
    if choice != values[0] {
      assert values == [values[0]] + values[1..];
      BrokenAmong(values[1..], seen, categories, i, choice);
    }
  }

  lemma {:induction false} BrokenFromCategory(node: Config, seen: set<nat>, categories: nat, from: nat, i: nat)
    requires from <= i < categories && Visited(node, seen, i)
    requires BrokenChoices(node.categories[i].values, seen, categories, i)
    ensures BrokenFrom(node, seen, categories, from)
    decreases i - from
  {
    if from < i {
      BrokenFromCategory(node, seen, categories, from + 1, i);
    }
  }

  lemma {:induction false} BrokenHasPath(node: Config, seen: set<nat>, categories: nat) returns (path: seq<Turn>)
    requires Broken(node, seen, categories)
    ensures IsBrokenPath(node, seen, categories, path)
    decreases node
  {
    path := [];
    if node.Section? {
      var turn := BrokenTurn(node, seen, categories, 0);
      var rest := BrokenHasPath(turn.choice.node, seen + {turn.category}, categories);
      path := [turn] + rest;
      assert path[1..] == rest;
    }
  }

  lemma {:induction false} BrokenTurn(node: Config, seen: set<nat>, categories: nat, i: nat) returns (turn: Turn)
    requires i <= categories && BrokenFrom(node, seen, categories, i)
    ensures CanTurn(node, seen, categories, turn) && BrokenChoice(turn.choice, seen, categories, turn.category)
    decreases categories - i
  {
    if Visited(node, seen, i) && BrokenChoices(node.categories[i].values, seen, categories, i) {
      var choice := BrokenOne(node.categories[i].values, seen, categories, i);
      turn := Turn(i, choice);
    } else {
      turn := BrokenTurn(node, seen, categories, i + 1);
    }
  }

  lemma {:induction false} BrokenOne(values: seq<Choice>, seen: set<nat>, categories: nat, i: nat)
      returns (choice: Choice)
    requires BrokenChoices(values, seen, categories, i)
    ensures choice in values && BrokenChoice(choice, seen, categories, i)
  {
    if BrokenChoice(values[0], seen, categories, i) {
      choice := values[0];
    } else {
      choice := BrokenOne(values[1..], seen, categories, i);
    }
  }

  ghost predicate HasBrokenPath(node: Config, seen: set<nat>, categories: nat) {
    exists path :: IsBrokenPath(node, seen, categories, path)
  }

  /** Something is no section that should be one exactly if a path leads there. */
  lemma BrokenIffPath(node: Config, seen: set<nat>, categories: nat)
    ensures Broken(node, seen, categories) <==> HasBrokenPath(node, seen, categories)
  {
    if Broken(node, seen, categories) {
      var path := BrokenHasPath(node, seen, categories);
      assert IsBrokenPath(node, seen, categories, path);
    } else {
      forall path
        ensures !IsBrokenPath(node, seen, categories, path)
      {
        if IsBrokenPath(node, seen, categories, path) {
          BrokenPathBreaks(node, seen, categories, path);
        }
      }
    }
  }

  // ---- Lists of tuples ----

  /** Some tuple extends that of the path. */
  ghost predicate Covers(tuples: iset<Cats>, path: seq<Turn>, categories: nat) {
    exists t :: t in tuples && Extends(t, TupleOf(path, categories))
  }

  /** On some full path whose tuple it extends, the tuple has the value for the category. */
  ghost predicate StandsOnPath(node: Config, seen: set<nat>, categories: nat, t: Cats, i: nat) {
    exists path :: IsFullPath(node, seen, categories, path) && Extends(t, TupleOf(path, categories))
                   && (i < |t| && t[i].Some? ==> TupleOf(path, categories)[i] == t[i])
  }

  /** Every full path is in some tuple, and every value of a tuple is on such a path. */
  ghost predicate TellsPaths(node: Config, seen: set<nat>, categories: nat, tuples: iset<Cats>) {
    && (forall path :: IsFullPath(node, seen, categories, path) ==> Covers(tuples, path, categories))
    && (forall t, i: nat :: t in tuples ==> StandsOnPath(node, seen, categories, t, i))
  }

  lemma EmitsTellPaths(node: Config, seen: set<nat>, categories: nat)
    ensures TellsPaths(node, seen, categories, Emits(node, seen, categories))
  {
    var tuples := Emits(node, seen, categories);
    forall path | IsFullPath(node, seen, categories, path)
      ensures Covers(tuples, path, categories)
    {
      var t := PathIsFound(node, seen, categories, path);
    }
    forall t, i: nat | t in tuples
      ensures StandsOnPath(node, seen, categories, t, i)
    {
      var path := FoundIsOnPath(node, seen, categories, t, i);
      assert IsFullPath(node, seen, categories, path);
    }
  }

  lemma JoinsTellPaths(node: Config, seen: set<nat>, categories: nat)
    ensures TellsPaths(node, seen, categories, MaxJoins(Emits(node, seen, categories)))
  {
    var tuples := Emits(node, seen, categories);
    EmitsTellPaths(node, seen, categories);
    forall path | IsFullPath(node, seen, categories, path)
      ensures Covers(MaxJoins(tuples), path, categories)
    {
      var t :| t in tuples && Extends(t, TupleOf(path, categories));
      var m := MemberIsCovered(tuples, t);
      assert Extends(m, TupleOf(path, categories));
    }
    forall m, i: nat | m in MaxJoins(tuples)
      ensures StandsOnPath(node, seen, categories, m, i)
    {
      var a := PartOfJoin(tuples, m, i);
      assert StandsOnPath(node, seen, categories, a, i);
    }
  }
}
