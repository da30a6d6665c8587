/** The aggregation of vectors, as loops over lists. */
module Aggregates {
  import opened Wrappers
  import opened Sequences
  import opened CategoryTuples
  import opened Vectors
  import opened Aggregation
  import opened AggregationRounds

  /** Vector m took part in a merge, among the pairs tried before (p, q). */
  ghost predicate Touched(vs: seq<Vector>, p: nat, q: nat, m: nat) {
    exists a: nat, b: nat :: Before(a, b, p, q) && IsPair(vs, a, b) && (m == a || m == b)
  }

  lemma UntouchedIsAlone(vs: seq<Vector>, m: nat)
    requires m < |vs|
    ensures Touched(vs, |vs|, 0, m) <==> !Alone(vs, m)
  {
    if a: nat, b: nat :| Before(a, b, |vs|, 0) && IsPair(vs, a, b) && (m == a || m == b) {
      assert IsPair(vs, m, if m == a then b else a);
    }
    if q: nat :| q < |vs| && IsPair(vs, m, q) {
      assert Before(m, q, |vs|, 0);
    }
  }

  /** The marks after the pairs of vector p with the vectors before q. */
  function MarkRow(vs: seq<Vector>, p: nat, q: nat, marks: seq<bool>): (marks': seq<bool>)
    requires |marks| == |vs| && p < |vs| && q <= |vs|
    ensures |marks'| == |vs|
  {
    if q == 0 then marks
    else
      var before := MarkRow(vs, p, q - 1, marks);
      if IsPair(vs, p, q - 1) then before[p := true][q - 1 := true] else before
  }

  /** The marks after all pairs of the vectors before p. */
  function MarkRows(vs: seq<Vector>, p: nat): (marks: seq<bool>)
    requires p <= |vs|
    ensures |marks| == |vs|
  {
    if p == 0 then seq(|vs|, _ => false) else MarkRow(vs, p - 1, |vs|, MarkRows(vs, p - 1))
  }

  lemma {:induction false} MarkRowMarks(vs: seq<Vector>, p: nat, q: nat, marks: seq<bool>, m: nat)
    requires |marks| == |vs| && p < |vs| && q <= |vs| && m < |vs|
    requires marks[m] == Touched(vs, p, 0, m)
    ensures MarkRow(vs, p, q, marks)[m] == Touched(vs, p, q, m)
  {
    if q > 0 {
      MarkRowMarks(vs, p, q - 1, marks, m);
    }
  }

  /** The marks tell who took part in a merge. */
  lemma {:induction false} MarkRowsMarks(vs: seq<Vector>, p: nat, m: nat)
    requires p <= |vs| && m < |vs|
    ensures MarkRows(vs, p)[m] == Touched(vs, p, 0, m)
  {
    if p > 0 {
      MarkRowsMarks(vs, p - 1, m);
      MarkRowMarks(vs, p - 1, |vs|, MarkRows(vs, p - 1), m);
    }
  }

  lemma MarksMeanMerged(vs: seq<Vector>, m: nat)
    requires m < |vs|
    ensures MarkRows(vs, |vs|)[m] <==> !Alone(vs, m)
  {
    MarkRowsMarks(vs, |vs|, m);
    UntouchedIsAlone(vs, m);
  }

  method TryPair(vs: seq<Vector>, p: nat, q: nat, ghost categories: nat) returns (merged: Option<Vector>)
    requires Uniform(vs, categories) && p < |vs| && q < |vs|
    ensures merged == if IsPair(vs, p, q) then Some(MergedPair(vs, p, q)) else None
  {
    if p == q {
      return None;
    }
    merged := MergeVectors(vs[p], vs[q]);
  }

  /** Try to merge vector p with all others, and mark those for which it works. */
  method MergeWithAll(vs: seq<Vector>, p: nat, marks: seq<bool>, ghost categories: nat)
      returns (row: seq<Vector>, marks': seq<bool>)
    requires Uniform(vs, categories) && p < |vs| && |marks| == |vs|
    ensures row == Row(vs, p, 0)
    ensures marks' == MarkRow(vs, p, |vs|, marks)
  {
    row, marks' := [], marks;
    for q := 0 to |vs|
      invariant row + Row(vs, p, q) == Row(vs, p, 0)
      invariant marks' == MarkRow(vs, p, q, marks)
    {
      RowNext(vs, p, q, row);
      var merged := TryPair(vs, p, q, categories);
      if merged.Some? {
        marks' := marks'[p := true][q := true];
        row := row + [merged.value];
      }
    }
  }

  method MergeAll(vs: seq<Vector>, ghost categories: nat) returns (merged: seq<Vector>, marks: seq<bool>)
    requires Uniform(vs, categories)
    ensures merged == Rows(vs, 0)
    ensures marks == MarkRows(vs, |vs|)
  {
    merged, marks := [], seq(|vs|, _ => false);
    for p := 0 to |vs|
      invariant merged + Rows(vs, p) == Rows(vs, 0)
      invariant marks == MarkRows(vs, p)
    {
      var row;
      row, marks := MergeWithAll(vs, p, marks, categories);
      Regroup(merged, row, Rows(vs, p + 1));
      merged := merged + row;
    }
  }

  lemma RowNext(vs: seq<Vector>, p: nat, q: nat, row: seq<Vector>)
    requires q < |vs|
    ensures row + Row(vs, p, q) == (if IsPair(vs, p, q) then row + [MergedPair(vs, p, q)] else row) + Row(vs, p, q + 1)
  {
    if IsPair(vs, p, q) {
      Regroup(row, [MergedPair(vs, p, q)], Row(vs, p, q + 1));
    }
  }

  method CartesianMultiplication(vs: seq<Vector>, hash: Hash, ghost categories: nat)
      returns (anyMerged: bool, multiplied: seq<Vector>)
    requires Uniform(vs, categories)
    ensures anyMerged <==> AnyPair(vs)
    ensures multiplied == Multiply(vs, hash)
  {
    var merged, marks := MergeAll(vs, categories);
    var unmerged := Unmarked(vs, marks);
    anyMerged := merged != [];
    multiplied := Sort(merged + unmerged, hash);
    AnyMergedMeansPair(vs);
  }

  lemma AnyMergedMeansPair(vs: seq<Vector>)
    ensures Rows(vs, 0) != [] <==> AnyPair(vs)
  {
    if Rows(vs, 0) != [] {
      RowsMembers(vs, 0, Rows(vs, 0)[0]);
    }
    if p: nat, q: nat :| IsPair(vs, p, q) {
      RowsMembers(vs, 0, MergedPair(vs, p, q));
    }
  }

  method Unmarked(vs: seq<Vector>, marks: seq<bool>) returns (unmerged: seq<Vector>)
    requires marks == MarkRows(vs, |vs|)
    ensures unmerged == Unmerged(vs, 0)
  {
    unmerged := [];
    for p := 0 to |vs|
      invariant unmerged + Unmerged(vs, p) == Unmerged(vs, 0)
    {
      MarksMeanMerged(vs, p);
      if !marks[p] {
        unmerged := unmerged + [vs[p]];
      }
    }
  }

  /** Of an empty list nothing is left; the original takes the first vector without
      looking whether there is one. */
  method DedupVectors(vs: seq<Vector>, hash: Hash) returns (out: seq<Vector>)
    ensures out == Dedup(vs, hash)
  {
    out := [];
    if vs == [] {
      return;
    }
    var last := vs[0];
    assert [last] + vs[1..] == vs;
    for i := 1 to |vs|
      invariant out + Dedup([last] + vs[i..], hash) == Dedup(vs, hash)
    {
      var lead := vs[i];
      DedupNext(vs, hash, last, i, out);
      if hash(last.cats) == hash(lead.cats) {
        last := last.(options := MergeOptions(last.options, lead.options));
      } else {
        out := out + [last];
        last := lead;
      }
    }
    assert [last] + vs[|vs|..] == [last];
    out := out + [last];
  }

  lemma DedupNext(vs: seq<Vector>, hash: Hash, last: Vector, i: nat, out: seq<Vector>)
    requires i < |vs|
    ensures var folded := last.(options := MergeOptions(last.options, vs[i].options));
      out + Dedup([last] + vs[i..], hash) ==
      if hash(last.cats) == hash(vs[i].cats) then out + Dedup([folded] + vs[i + 1..], hash)
      else (out + [last]) + Dedup([vs[i]] + vs[i + 1..], hash)
  {
    var all := [last] + vs[i..];
    RestOfRest(vs, i);
    assert all[1] == vs[i] && all[2..] == vs[i + 1..] && all[1..] == [vs[i]] + vs[i + 1..];
    Regroup(out, [last], Dedup(all[1..], hash));
  }

  /** All tuples in which the inputs agree, combined as far as they agree, in the order of
      their hashes; with exactly the options of the inputs that each combination extends. */
  method Aggregate(input: seq<Vector>, hash: Hash, ghost categories: nat)
      returns (out: seq<Vector>, ghost rounds: nat)
    requires Uniform(input, categories) && Injective(hash, input)
    ensures out == Aggregated(input, hash, categories)
    ensures CatsOf(out) == MaxJoins(CatsOf(input))
    ensures StrictlyAscending(out, hash)
    ensures Uniform(out, categories)
    ensures forall p: nat, q: nat :: p < |out| && q < |out| && p != q ==> !Compatible(out[p].cats, out[q].cats)
    ensures AllComeFrom(out, input)
    ensures forall v, w :: v in input && w in out && Extends(w.cats, v.cats) ==>
              v.options.entries.Keys <= w.options.entries.Keys
    ensures rounds <= categories + 2
  {
    out := input;
    rounds := 0;
    var wasChanged := true;
    while wasChanged
      invariant Uniform(out, categories) && Injective(hash, out)
      invariant rounds > 0 ==> Distinct(out) && Floor(out, rounds - 1)
      invariant rounds <= if wasChanged then categories + 1 else categories + 2
      invariant Aggregated(input, hash, categories)
             == if wasChanged then Rounds(out, hash, categories, rounds) else out
      decreases wasChanged, categories + 2 - rounds
    {
      NextFloor(out, hash, categories, rounds);
      RoundUniform(out, hash, categories);
      var multiplied;
      wasChanged, multiplied := CartesianMultiplication(out, hash, categories);
      out := DedupVectors(Sort(multiplied, hash), hash);
      rounds := rounds + 1;
    }
    AggregatedCombines(input, hash, categories);
    RoundsAscend(input, hash, categories, 0);
  }
}
