/** One round of aggregation: merge all compatible pairs, keep what merged with nothing,
    and fold vectors with equal tuples into one. */
module Aggregation {
  import opened Wrappers
  import opened Sequences
  import opened CategoryTuples
  import opened Vectors

  type Hash = Cats -> int

  /** All vectors have a place for each of the categories. */
  predicate Uniform(vs: seq<Vector>, categories: nat) {
    forall i :: 0 <= i < |vs| ==> |vs[i].cats| == categories
  }

  ghost function CatsOf(vs: seq<Vector>): iset<Cats> {
    iset v | v in vs :: v.cats
  }

  /** The hash tells apart whatever tuples can be joined from the given ones. */
  ghost predicate TellsApart(hash: Hash, tuples: iset<Cats>) {
    forall a, b :: SameHash(hash, tuples, a, b) ==> a == b
  }

  ghost predicate SameHash(hash: Hash, tuples: iset<Cats>, a: Cats, b: Cats) {
    Supported(tuples, a) && Supported(tuples, b) && hash(a) == hash(b)
  }

  ghost predicate Injective(hash: Hash, vs: seq<Vector>) {
    TellsApart(hash, CatsOf(vs))
  }

  /** The hash tells apart the tuples in the list itself. */
  ghost predicate Separates(hash: Hash, vs: seq<Vector>) {
    forall v, w :: v in vs && w in vs && hash(v.cats) == hash(w.cats) ==> v.cats == w.cats
  }

  // ---- The merged pairs ----

  predicate IsPair(vs: seq<Vector>, p: nat, q: nat) {
    p < |vs| && q < |vs| && p != q && Compatible(vs[p].cats, vs[q].cats)
  }

  predicate Alone(vs: seq<Vector>, p: nat) {
    p < |vs| && forall q: nat :: q < |vs| ==> !IsPair(vs, p, q)
  }

  function MergedPair(vs: seq<Vector>, p: nat, q: nat): Vector
    requires IsPair(vs, p, q)
  {
    Merge(vs[p], vs[q]).value
  }

  predicate Before(a: nat, b: nat, p: nat, q: nat) {
    a < p || (a == p && b < q)
  }

  /** The pairs of vector p with the vectors from q on. */
  function Row(vs: seq<Vector>, p: nat, q: nat): seq<Vector>
    requires q <= |vs|
    decreases |vs| - q
  {
    if q == |vs| then []
    else (if IsPair(vs, p, q) then [MergedPair(vs, p, q)] else []) + Row(vs, p, q + 1)
  }

  /** The pairs of the vectors from p on, with all the others. */
  function Rows(vs: seq<Vector>, p: nat): seq<Vector>
    requires p <= |vs|
    decreases |vs| - p
  {
    if p == |vs| then [] else Row(vs, p, 0) + Rows(vs, p + 1)
  }

  /** The vectors from p on that merge with nothing. */
  function Unmerged(vs: seq<Vector>, p: nat): seq<Vector>
    requires p <= |vs|
    decreases |vs| - p
  {
    if p == |vs| then [] else (if Alone(vs, p) then [vs[p]] else []) + Unmerged(vs, p + 1)
  }

  // ---- Sorting and folding ----

  /** The stable insertion of a vector that was in front of the sorted ones. */
  function Insert(v: Vector, sorted: seq<Vector>, hash: Hash): seq<Vector> {
    if sorted == [] || hash(v.cats) <= hash(sorted[0].cats) then [v] + sorted
    else [sorted[0]] + Insert(v, sorted[1..], hash)
  }

  /** The stable sort by the hash of the tuples. */
  function Sort(vs: seq<Vector>, hash: Hash): seq<Vector> {
    if vs == [] then [] else Insert(vs[0], Sort(vs[1..], hash), hash)
  }

  /** Neighbours with the same hash become one, the later ones overriding the earlier. */
  function Dedup(vs: seq<Vector>, hash: Hash): seq<Vector>
    decreases |vs|
  {
    if |vs| <= 1 then vs
    else if hash(vs[0].cats) == hash(vs[1].cats) then
      Dedup([vs[0].(options := MergeOptions(vs[0].options, vs[1].options))] + vs[2..], hash)
    else [vs[0]] + Dedup(vs[1..], hash)
  }

  function Multiply(vs: seq<Vector>, hash: Hash): seq<Vector> {
    Sort(Rows(vs, 0) + Unmerged(vs, 0), hash)
  }

  function Round(vs: seq<Vector>, hash: Hash): seq<Vector> {
    Dedup(Sort(Multiply(vs, hash), hash), hash)
  }

  // ---- Members ----

  lemma {:induction false} RowMembers(vs: seq<Vector>, p: nat, q: nat, v: Vector)
    requires q <= |vs|
    ensures v in Row(vs, p, q) <==> exists r: nat :: q <= r && IsPair(vs, p, r) && v == MergedPair(vs, p, r)
    decreases |vs| - q
  {
    if q < |vs| {
      RowMembers(vs, p, q + 1, v);
      assert v in Row(vs, p, q) <==> (IsPair(vs, p, q) && v == MergedPair(vs, p, q)) || v in Row(vs, p, q + 1);
      if r: nat :| q <= r && IsPair(vs, p, r) && v == MergedPair(vs, p, r) {
        assert r == q || q + 1 <= r;
      }
    }
  }

  lemma {:induction false} RowsMembers(vs: seq<Vector>, p: nat, v: Vector)
    requires p <= |vs|
    ensures v in Rows(vs, p) <==> exists r: nat, q: nat :: p <= r && IsPair(vs, r, q) && v == MergedPair(vs, r, q)
    decreases |vs| - p
  {
    if p < |vs| {
      RowMembers(vs, p, 0, v);
      RowsMembers(vs, p + 1, v);
      if r: nat, q: nat :| p <= r && IsPair(vs, r, q) && v == MergedPair(vs, r, q) {
        assert r == p || p + 1 <= r;
      }
    }
  }

  lemma {:induction false} UnmergedIsAlone(vs: seq<Vector>, p: nat, v: Vector) returns (r: nat)
    requires p <= |vs| && v in Unmerged(vs, p)
    ensures Alone(vs, r) && v == vs[r]
    decreases |vs| - p
  {
    if Alone(vs, p) && v == vs[p] {
      r := p;
    } else {
      r := UnmergedIsAlone(vs, p + 1, v);
    }
  }

  lemma {:induction false} AloneIsUnmerged(vs: seq<Vector>, p: nat, r: nat)
    requires p <= r && Alone(vs, r)
    ensures vs[r] in Unmerged(vs, p)
    decreases r - p
  {
    if p < r {
      AloneIsUnmerged(vs, p + 1, r);
    }
  }

  lemma {:induction false} InsertMembers(v: Vector, sorted: seq<Vector>, hash: Hash)
    ensures multiset(Insert(v, sorted, hash)) == multiset{v} + multiset(sorted)
  {
    if sorted != [] && hash(v.cats) > hash(sorted[0].cats) {
      InsertMembers(v, sorted[1..], hash);
      assert sorted == [sorted[0]] + sorted[1..];
    }
  }

  lemma {:induction false} SortMembers(vs: seq<Vector>, hash: Hash)
    ensures multiset(Sort(vs, hash)) == multiset(vs)
  {
    if vs != [] {
      SortMembers(vs[1..], hash);
      InsertMembers(vs[0], Sort(vs[1..], hash), hash);
      assert vs == [vs[0]] + vs[1..];
    }
  }

  lemma SortKeepsMembers(vs: seq<Vector>, hash: Hash)
    ensures forall v :: v in Sort(vs, hash) <==> v in vs
  {
    SortMembers(vs, hash);
    assert forall v :: v in Sort(vs, hash) <==> v in multiset(Sort(vs, hash));
    assert forall v :: v in vs <==> v in multiset(vs);
  }

  ghost predicate Ascending(vs: seq<Vector>, hash: Hash) {
    forall i, j :: 0 <= i < j < |vs| ==> hash(vs[i].cats) <= hash(vs[j].cats)
  }

  lemma {:induction false} InsertAscending(v: Vector, sorted: seq<Vector>, hash: Hash)
    requires Ascending(sorted, hash)
    ensures Ascending(Insert(v, sorted, hash), hash)
  {
    if sorted != [] && hash(v.cats) > hash(sorted[0].cats) {
      var rest := Insert(v, sorted[1..], hash);
      InsertAscending(v, sorted[1..], hash);
      InsertMembers(v, sorted[1..], hash);
      forall i | 0 <= i < |rest|
        ensures hash(sorted[0].cats) <= hash(rest[i].cats)
      {
        assert rest[i] in multiset(rest) && (rest[i] == v || rest[i] in sorted[1..]);
      }
      ConsAscending(sorted[0], rest, hash);
    } else {
      ConsAscending(v, sorted, hash);
    }
  }

  lemma ConsAscending(v: Vector, vs: seq<Vector>, hash: Hash)
    requires Ascending(vs, hash) && forall i :: 0 <= i < |vs| ==> hash(v.cats) <= hash(vs[i].cats)
    ensures Ascending([v] + vs, hash)
  {
  }

  lemma {:induction false} SortAscending(vs: seq<Vector>, hash: Hash)
    ensures Ascending(Sort(vs, hash), hash)
  {
    if vs != [] {
      SortAscending(vs[1..], hash);
      InsertAscending(vs[0], Sort(vs[1..], hash), hash);
    }
  }

  // ---- Folding keeps tuples and options ----

  predicate Distinct(vs: seq<Vector>) {
    forall i, j :: 0 <= i < j < |vs| ==> vs[i].cats != vs[j].cats
  }

  /** The tuple of the vector, or one it extends, comes with this entry in the list. */
  ghost predicate HasEntry(vs: seq<Vector>, cats: Cats, name: OptionName, value: OptionValue) {
    exists v :: v in vs && Extends(cats, v.cats) && name in v.options.entries && v.options.entries[name] == value
  }

  ghost predicate HasDepth(vs: seq<Vector>, cats: Cats, depth: nat) {
    exists v :: v in vs && Extends(cats, v.cats) && v.options.depth == depth
  }

  /** What a vector holds comes from vectors of the list that it extends. */
  ghost predicate ComesFrom(v: Vector, vs: seq<Vector>) {
    && HasDepth(vs, v.cats, v.options.depth)
    && forall name :: name in v.options.entries ==> HasEntry(vs, v.cats, name, v.options.entries[name])
  }

  /** The vector has the same tuple as the other one, and at least its option names. */
  predicate Absorbs(w: Vector, v: Vector) {
    w.cats == v.cats && v.options.entries.Keys <= w.options.entries.Keys
  }

  /** Merging brings together what the two vectors hold, and nothing else. */
  lemma MergedComesFrom(v: Vector, w: Vector, cats: Cats, options: Options, vs: seq<Vector>)
    requires ComesFrom(v, vs) && ComesFrom(w, vs)
    requires Extends(cats, v.cats) && Extends(cats, w.cats)
    requires options == MergeOptions(v.options, w.options)
    ensures ComesFrom(Vector(cats, options), vs)
    ensures options.entries.Keys == v.options.entries.Keys + w.options.entries.Keys
  {
  }

  /** Comes from the list, under a tuple of the list. */
  ghost predicate Sourced(v: Vector, vs: seq<Vector>) {
    ComesFrom(v, vs) && exists w :: w in vs && w.cats == v.cats
  }

  function FoldFirst(vs: seq<Vector>): Vector
    requires |vs| > 1
  {
    vs[0].(options := MergeOptions(vs[0].options, vs[1].options))
  }

  lemma StillSeparates(vs: seq<Vector>, hash: Hash)
    requires Separates(hash, vs) && |vs| > 1
    ensures hash(vs[0].cats) == hash(vs[1].cats) ==>
              vs[0].cats == vs[1].cats && Separates(hash, [FoldFirst(vs)] + vs[2..])
    ensures Separates(hash, vs[1..])
  {
    assert vs[0] in vs && vs[1] in vs;
    assert forall v :: v in vs[2..] ==> v in vs;
  }

  /** What folding leaves comes from the list. */
  lemma {:induction false} DedupSources(vs: seq<Vector>, hash: Hash, x: Vector)
    requires Separates(hash, vs) && x in Dedup(vs, hash)
    ensures Sourced(x, vs)
    decreases |vs|
  {
    if |vs| > 1 {
      StillSeparates(vs, hash);
      if hash(vs[0].cats) == hash(vs[1].cats) {
        DedupSources([FoldFirst(vs)] + vs[2..], hash, x);
      } else if x != vs[0] {
        DedupSources(vs[1..], hash, x);
      }
    }
  }

  /** What is folded away is absorbed by what is left. */
  lemma {:induction false} DedupAbsorbs(vs: seq<Vector>, hash: Hash, v: Vector) returns (w: Vector)
    requires Separates(hash, vs) && v in vs
    ensures w in Dedup(vs, hash) && Absorbs(w, v)
    decreases |vs|
  {
    if |vs| <= 1 {
      w := v;
    } else if hash(vs[0].cats) == hash(vs[1].cats) {
      var less := [FoldFirst(vs)] + vs[2..];
      var u := if v == vs[0] || v == vs[1] then FoldFirst(vs) else v;
      StillSeparates(vs, hash);
      assert u in less by {
        assert vs == [vs[0], vs[1]] + vs[2..];
      }
      w := DedupAbsorbs(less, hash, u);
    } else if v == vs[0] {
      w := v;
    } else {
      w := DedupAbsorbs(vs[1..], hash, v);
    }
  }

  ghost predicate StrictlyAscending(vs: seq<Vector>, hash: Hash) {
    forall i, j :: 0 <= i < j < |vs| ==> hash(vs[i].cats) < hash(vs[j].cats)
  }

  lemma {:induction false} DedupAscends(vs: seq<Vector>, hash: Hash)
    requires Ascending(vs, hash)
    ensures var out := Dedup(vs, hash);
      StrictlyAscending(out, hash) && (vs != [] ==> out != [] && out[0].cats == vs[0].cats)
    decreases |vs|
  {
    if |vs| > 1 {
      if hash(vs[0].cats) == hash(vs[1].cats) {
        FoldedAscends(vs, hash);
        DedupAscends([FoldFirst(vs)] + vs[2..], hash);
      } else {
        var rest := Dedup(vs[1..], hash);
        DedupAscends(vs[1..], hash);
        assert rest[0].cats == vs[1].cats;
        assert forall j :: 0 <= j < |rest| ==> hash(vs[0].cats) < hash(rest[j].cats);
      }
    }
  }

  // ---- Which options survive folding ----

  /** The vectors with one tuple, in order. */
  function OfTuple(vs: seq<Vector>, cats: Cats): seq<Vector> {
    Filter(vs, (v: Vector) => v.cats == cats)
  }

  lemma {:induction false} InsertIsStable(v: Vector, sorted: seq<Vector>, hash: Hash, cats: Cats)
    ensures OfTuple(Insert(v, sorted, hash), cats) == OfTuple([v] + sorted, cats)
  {
    assert ([v] + sorted)[1..] == sorted;
    if sorted != [] && hash(v.cats) > hash(sorted[0].cats) {
      var rest := Insert(v, sorted[1..], hash);
      InsertIsStable(v, sorted[1..], hash, cats);
      assert ([v] + sorted[1..])[1..] == sorted[1..] && ([sorted[0]] + rest)[1..] == rest;
      assert OfTuple([v] + sorted, cats) == (if v.cats == cats then [v] else []) + OfTuple(sorted, cats);
    }
  }

  /** Sorting keeps the vectors with one tuple in their order. */
  lemma {:induction false} SortIsStable(vs: seq<Vector>, hash: Hash, cats: Cats)
    ensures OfTuple(Sort(vs, hash), cats) == OfTuple(vs, cats)
  {
    if vs != [] {
      SortIsStable(vs[1..], hash, cats);
      InsertIsStable(vs[0], Sort(vs[1..], hash), hash, cats);
      var sorted := Sort(vs[1..], hash);
      assert ([vs[0]] + sorted)[1..] == sorted;
    }
  }

  // The depth counts as an option that every vector has: it is named None here.
  type Aspect = Option<OptionName>

  predicate Has(v: Vector, cats: Cats, aspect: Aspect) {
    v.cats == cats && (aspect.Some? ==> aspect.value in v.options.entries)
  }

  /** The vectors have the same option, or the same depth. */
  predicate Agree(v: Vector, w: Vector, aspect: Aspect)
    requires Has(v, v.cats, aspect) && Has(w, w.cats, aspect)
  {
    match aspect
    case None => v.options.depth == w.options.depth
    case Some(name) => v.options.entries[name] == w.options.entries[name]
  }

  /** The last vector with the tuple to have the option. */
  function LastOf(vs: seq<Vector>, cats: Cats, aspect: Aspect): (last: Option<Vector>)
    ensures last.Some? ==> last.value in vs && Has(last.value, cats, aspect)
    ensures last.None? ==> forall v :: v in vs ==> !Has(v, cats, aspect)
  {
    if vs == [] then None
    else
      var last := LastOf(vs[1..], cats, aspect);
      if last.Some? then last else if Has(vs[0], cats, aspect) then Some(vs[0]) else None
  }

  /** The vector has of each option, and of the depth, what comes last in the list. */
  ghost predicate Shows(x: Vector, vs: seq<Vector>) {
    forall aspect :: ShowsLast(x, vs, aspect)
  }

  ghost predicate ShowsLast(x: Vector, vs: seq<Vector>, aspect: Aspect) {
    var last := LastOf(vs, x.cats, aspect);
    if Has(x, x.cats, aspect) then last.Some? && Agree(x, last.value, aspect) else last.None?
  }

  lemma {:induction false} LastOfConcat(a: seq<Vector>, b: seq<Vector>, cats: Cats, aspect: Aspect)
    ensures LastOf(a + b, cats, aspect) ==
      if LastOf(b, cats, aspect).Some? then LastOf(b, cats, aspect) else LastOf(a, cats, aspect)
  {
    if a == [] {
      assert a + b == b;
    } else {
      LastOfConcat(a[1..], b, cats, aspect);
      assert (a + b)[1..] == a[1..] + b;
    }
  }

  lemma {:induction false} LastOfTuple(vs: seq<Vector>, cats: Cats, aspect: Aspect)
    ensures LastOf(OfTuple(vs, cats), cats, aspect) == LastOf(vs, cats, aspect)
  {
    if vs != [] {
      var rest := OfTuple(vs[1..], cats);
      LastOfTuple(vs[1..], cats, aspect);
      assert ([vs[0]] + rest)[1..] == rest && [] + rest == rest;
    }
  }

  lemma SortShows(x: Vector, vs: seq<Vector>, hash: Hash)
    requires Shows(x, Sort(vs, hash))
    ensures Shows(x, vs)
  {
    forall aspect
      ensures ShowsLast(x, vs, aspect)
    {
      assert ShowsLast(x, Sort(vs, hash), aspect);
      SortIsStable(vs, hash, x.cats);
      LastOfTuple(vs, x.cats, aspect);
      LastOfTuple(Sort(vs, hash), x.cats, aspect);
    }
  }

  /** In sorted vectors, the last of those with the same tuple to have an option decides its
      value; the last one at all decides the depth. */
  lemma {:induction false} LastOptionWins(vs: seq<Vector>, hash: Hash, x: Vector)
    requires Separates(hash, vs) && Ascending(vs, hash) && x in Dedup(vs, hash)
    ensures Shows(x, vs)
    decreases |vs|
  {
    if |vs| <= 1 {
      ShowsItself(x);
      assert vs == [x];
    } else if hash(vs[0].cats) == hash(vs[1].cats) {
      StillSeparates(vs, hash);
      FoldedAscends(vs, hash);
      LastOptionWins([FoldFirst(vs)] + vs[2..], hash, x);
      ShowsBeforeFolding(x, vs);
    } else if x == vs[0] {
      FirstShows(vs, hash);
    } else {
      DedupIsAbove(vs, hash, x);
      StillSeparates(vs, hash);
      LastOptionWins(vs[1..], hash, x);
      ShowsInRest(x, vs);
    }
  }

  lemma FoldedAscends(vs: seq<Vector>, hash: Hash)
    requires Ascending(vs, hash) && |vs| > 1
    ensures Ascending([FoldFirst(vs)] + vs[2..], hash)
  {
  }

  lemma FirstShows(vs: seq<Vector>, hash: Hash)
    requires Ascending(vs, hash) && |vs| > 1 && hash(vs[0].cats) != hash(vs[1].cats)
    ensures Shows(vs[0], vs)
  {
    FirstIsAlone(vs, hash);
    ShowsItself(vs[0]);
    ShowsFirst(vs[0], vs[1..]);
    assert vs == [vs[0]] + vs[1..];
  }

  lemma FirstIsAlone(vs: seq<Vector>, hash: Hash)
    requires Ascending(vs, hash) && |vs| > 1 && hash(vs[0].cats) != hash(vs[1].cats)
    ensures forall v :: v in vs[1..] ==> v.cats != vs[0].cats
  {
    assert forall j :: 0 < j < |vs| ==> hash(vs[0].cats) < hash(vs[j].cats);
  }

  lemma ShowsItself(x: Vector)
    ensures Shows(x, [x])
  {
    forall aspect
      ensures ShowsLast(x, [x], aspect)
    {
      assert LastOf([x][1..], x.cats, aspect) == None;
    }
  }

  lemma ShowsFirst(x: Vector, rest: seq<Vector>)
    requires Shows(x, [x]) && forall v :: v in rest ==> v.cats != x.cats
    ensures Shows(x, [x] + rest)
  {
    forall aspect
      ensures ShowsLast(x, [x] + rest, aspect)
    {
      assert ShowsLast(x, [x], aspect);
      LastOfConcat([x], rest, x.cats, aspect);
    }
  }

  lemma ShowsInRest(x: Vector, vs: seq<Vector>)
    requires vs != [] && vs[0].cats != x.cats && Shows(x, vs[1..])
    ensures Shows(x, vs)
  {
    forall aspect
      ensures ShowsLast(x, vs, aspect)
    {
      assert ShowsLast(x, vs[1..], aspect);
    }
  }

  lemma ShowsBeforeFolding(x: Vector, vs: seq<Vector>)
    requires |vs| > 1 && vs[0].cats == vs[1].cats && Shows(x, [FoldFirst(vs)] + vs[2..])
    ensures Shows(x, vs)
  {
    forall aspect
      ensures ShowsLast(x, vs, aspect)
    {
      var less := [FoldFirst(vs)] + vs[2..];
      assert ShowsLast(x, less, aspect);
      assert less[1..] == vs[2..] && vs[1..][1..] == vs[2..];
    }
  }

  lemma DedupIsAbove(vs: seq<Vector>, hash: Hash, x: Vector)
    requires Ascending(vs, hash) && |vs| > 1 && hash(vs[0].cats) != hash(vs[1].cats)
    requires x in Dedup(vs, hash) && x != vs[0]
    ensures x in Dedup(vs[1..], hash) && x.cats != vs[0].cats
  {
    DedupAscends(vs, hash);
    var i :| 0 <= i < |Dedup(vs, hash)| && Dedup(vs, hash)[i] == x;
    assert Dedup(vs, hash)[0] == vs[0] && hash(vs[0].cats) < hash(Dedup(vs, hash)[i].cats);
  }

  // ---- The tuples that the hash has to tell apart ----

  /** The joins of any of the first so many tuples. */
  function Joins(vs: seq<Vector>, categories: nat, n: nat): (joins: set<Cats>)
    requires Uniform(vs, categories) && n <= |vs|
    ensures forall t :: t in joins ==> |t| == categories
  {
    if n == 0 then {seq(categories, _ => None)}
    else
      var fewer := Joins(vs, categories, n - 1);
      fewer + set t | t in fewer :: Join(t, vs[n - 1].cats)
  }

  /** Whatever can be joined from the tuples of a list is one of finitely many. */
  lemma JoinsAreFinite(vs: seq<Vector>, categories: nat, t: Cats)
    requires Uniform(vs, categories) && Supported(CatsOf(vs), t)
    ensures t in Joins(vs, categories, |vs|)
  {
    var u := JoinOfParts(vs, categories, t, |vs|);
    forall i | 0 <= i < |t|
      ensures u[i] == t[i]
    {
      if t[i].Some? {
        var a :| a in CatsOf(vs) && Extends(t, a) && a[i] == t[i];
        var v :| v in vs && v.cats == a;
        var k :| 0 <= k < |vs| && vs[k] == v;
        assert Extends(u, vs[k].cats);
      }
    }
    assert u == t;
  }

  lemma {:induction false} JoinOfParts(vs: seq<Vector>, categories: nat, t: Cats, n: nat) returns (u: Cats)
    requires Uniform(vs, categories) && |t| == categories && n <= |vs|
    ensures u in Joins(vs, categories, n) && Extends(t, u)
    ensures forall k :: 0 <= k < n && Extends(t, vs[k].cats) ==> Extends(u, vs[k].cats)
  {
    if n == 0 {
      u := seq(categories, _ => None);
    } else {
      u := JoinOfParts(vs, categories, t, n - 1);
      if Extends(t, vs[n - 1].cats) {
        u := Join(u, vs[n - 1].cats);
      }
    }
  }
}
