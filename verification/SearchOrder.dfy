/** The order of the vectors found in a section: that of its categories and choices. */
module SearchOrder {
  import opened Wrappers
  import opened Sequences
  import opened CategoryTuples
  import opened Vectors
  import opened Aggregation
  import opened AggregationRounds
  import opened NestedConfigs
  import opened NestedSearch

  /** A plain value gives one vector with the options of the section. A nested section gives
      the aggregation of what is found in it, each vector with the value, and with the options
      of the section where it has none of its own. */
  ghost predicate IsPiece(choice: Choice, seen: set<nat>, options: Options, categories: nat, hash: Hash, i: nat,
                          piece: seq<Vector>)
    requires FitsChoice(hash, choice, seen, categories, i) && i < categories
  {
    match choice
    case Plain(value) => piece == [Vector(AllNone(categories)[i := value], options)]
    case Nested(value, inner) =>
      var deeper := Aggregated(Search(inner, seen + {i}, options.depth, categories, hash), hash, categories);
      && |piece| == |deeper|
      && forall j :: 0 <= j < |deeper| ==>
           && |deeper[j].cats| == categories
           && piece[j].cats == deeper[j].cats[i := value]
           && piece[j].options == Options(deeper[j].options.depth, options.entries + deeper[j].options.entries)
  }

  /** One piece for each choice, in order. */
  ghost predicate IsRow(values: seq<Choice>, seen: set<nat>, options: Options, categories: nat, hash: Hash, i: nat,
                        row: seq<Vector>)
    requires FitsChoices(hash, values, seen, categories, i) && i < categories
  {
    exists pieces :: HasPieces(values, seen, options, categories, hash, i, pieces) && row == Flatten(pieces)
  }

  ghost predicate HasPieces(values: seq<Choice>, seen: set<nat>, options: Options, categories: nat, hash: Hash, i: nat,
                            pieces: seq<seq<Vector>>)
    requires FitsChoices(hash, values, seen, categories, i) && i < categories
  {
    && |pieces| == |values|
    && forall j :: 0 <= j < |values| ==> IsPiece(values[j], seen, options, categories, hash, i, pieces[j])
  }

  ghost predicate IsRowFor(node: Config, seen: set<nat>, depth: nat, categories: nat, hash: Hash, i: nat,
                           row: seq<Vector>)
    requires node.Section? && Fits(hash, node, seen, categories) && i < categories
  {
    if Visited(node, seen, i) then
      IsRow(node.categories[i].values, seen, Options(depth + 1, node.options), categories, hash, i, row)
    else row == []
  }

  /** What is found for one category after the other. */
  ghost predicate HasRows(node: Config, seen: set<nat>, depth: nat, categories: nat, hash: Hash, from: nat,
                          rows: seq<seq<Vector>>)
    requires node.Section? && Fits(hash, node, seen, categories) && from <= categories
  {
    && |rows| == categories - from
    && forall j :: 0 <= j < |rows| ==> IsRowFor(node, seen, depth, categories, hash, from + j, rows[j])
  }

  /** The vectors of a section come in the order of its categories, and for each category in
      that of its choices. If no category is visited there is one vector, without values. */
  lemma SearchKeepsOrder(node: Config, seen: set<nat>, depth: nat, categories: nat, hash: Hash)
      returns (rows: seq<seq<Vector>>)
    requires node.Section? && Fits(hash, node, seen, categories)
    ensures var vs := Search(node, seen, depth, categories, hash);
      if AnyVisited(node, seen, categories) then
        HasRows(node, seen, depth, categories, hash, 0, rows) && vs == Flatten(rows)
      else vs == [Vector(AllNone(categories), Options(depth + 1, node.options))]
  {
    rows := [];
    for from := categories downto 0
      invariant HasRows(node, seen, depth, categories, hash, from, rows)
      invariant SearchFrom(node, seen, depth, categories, hash, from) == Flatten(rows)
    {
      rows := NextRow(node, seen, depth, categories, hash, from, rows);
    }
  }

  lemma NextRow(node: Config, seen: set<nat>, depth: nat, categories: nat, hash: Hash, from: nat,
                more: seq<seq<Vector>>) returns (rows: seq<seq<Vector>>)
    requires node.Section? && Fits(hash, node, seen, categories) && from < categories
    requires HasRows(node, seen, depth, categories, hash, from + 1, more)
    requires SearchFrom(node, seen, depth, categories, hash, from + 1) == Flatten(more)
    ensures HasRows(node, seen, depth, categories, hash, from, rows)
    ensures SearchFrom(node, seen, depth, categories, hash, from) == Flatten(rows)
  {
    var row := FirstRow(node, seen, depth, categories, hash, from);
    rows := [row] + more;
    RowsGrow(node, seen, depth, categories, hash, from, row, more);
    assert rows[1..] == more;
  }

  lemma RowsGrow(node: Config, seen: set<nat>, depth: nat, categories: nat, hash: Hash, from: nat, row: seq<Vector>,
                 more: seq<seq<Vector>>)
    requires node.Section? && Fits(hash, node, seen, categories) && from < categories
    requires IsRowFor(node, seen, depth, categories, hash, from, row)
    requires HasRows(node, seen, depth, categories, hash, from + 1, more)
    ensures HasRows(node, seen, depth, categories, hash, from, [row] + more)
  {
  }

  lemma FirstRow(node: Config, seen: set<nat>, depth: nat, categories: nat, hash: Hash, i: nat)
      returns (row: seq<Vector>)
    requires node.Section? && Fits(hash, node, seen, categories) && i < categories
    ensures IsRowFor(node, seen, depth, categories, hash, i, row)
    ensures SearchFrom(node, seen, depth, categories, hash, i)
         == row + SearchFrom(node, seen, depth, categories, hash, i + 1)
  {
    row := [];
    if Visited(node, seen, i) {
      var values, options := node.categories[i].values, Options(depth + 1, node.options);
      row := SearchChoices(values, seen, options, categories, hash, i);
      var pieces := PiecesInOrder(values, seen, options, categories, hash, i);
      assert IsRow(values, seen, options, categories, hash, i, row);
    }
  }

  lemma {:induction false} PiecesInOrder(values: seq<Choice>, seen: set<nat>, options: Options, categories: nat,
                                         hash: Hash, i: nat) returns (pieces: seq<seq<Vector>>)
    requires FitsChoices(hash, values, seen, categories, i) && i < categories && i !in seen
    ensures HasPieces(values, seen, options, categories, hash, i, pieces)
    ensures SearchChoices(values, seen, options, categories, hash, i) == Flatten(pieces)
    decreases |values|
  {
    pieces := [];
    if values != [] {
      var piece := SearchChoice(values[0], seen, options, categories, hash, i);
      ChoiceIsPiece(values[0], seen, options, categories, hash, i);
      var more := PiecesInOrder(values[1..], seen, options, categories, hash, i);
      pieces := [piece] + more;
      assert pieces[1..] == more;
    }
  }

  lemma ChoiceIsPiece(choice: Choice, seen: set<nat>, options: Options, categories: nat, hash: Hash, i: nat)
    requires FitsChoice(hash, choice, seen, categories, i) && i < categories
    ensures IsPiece(choice, seen, options, categories, hash, i,
                    SearchChoice(choice, seen, options, categories, hash, i))
  {
    if choice.Nested? {
      var found := Search(choice.node, seen + {i}, options.depth, categories, hash);
      var deeper := Aggregated(found, hash, categories);
      AggregatedCombines(found, hash, categories);
      forall j | 0 <= j < |deeper|
        ensures |deeper[j].cats| == categories
        ensures Join(Single(categories, i, choice.value), deeper[j].cats) == deeper[j].cats[i := choice.value]
      {
        assert deeper[j].cats in CatsOf(deeper);
        NestedAvoidsSeen(choice.node, seen + {i}, categories, deeper[j].cats);
      }
    }
  }
}
