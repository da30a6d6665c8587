/** Directed graphs, given by the children of each node, and their paths. */
module Graphs {

  type Graph<N(==)> = map<N, set<N>>

  function Children<N>(g: Graph<N>, n: N): set<N> {
    if n in g then g[n] else {}
  }

  ghost predicate IsPath<N>(g: Graph<N>, path: seq<N>) {
    path != [] && forall i :: 0 <= i < |path| - 1 ==> path[i + 1] in Children(g, path[i])
  }

  ghost predicate PathBetween<N>(g: Graph<N>, path: seq<N>, a: N, b: N) {
    IsPath(g, path) && path[0] == a && path[|path| - 1] == b
  }

  /** There is a path of zero or more links. */
  ghost predicate Reaches<N(!new)>(g: Graph<N>, a: N, b: N) {
    exists path :: PathBetween(g, path, a, b)
  }

  /** There is a path of one or more links. */
  ghost predicate Leads<N(!new)>(g: Graph<N>, a: N, b: N) {
    exists path :: PathBetween(g, path, a, b) && |path| >= 2
  }

  ghost predicate Acyclic<N(!new)>(g: Graph<N>) {
    forall n :: !Leads(g, n, n)
  }

  lemma PathsJoin<N>(g: Graph<N>, p: seq<N>, q: seq<N>, a: N, b: N, c: N)
    requires PathBetween(g, p, a, b) && PathBetween(g, q, b, c)
    ensures PathBetween(g, p + q[1..], a, c)
  {
  }

  lemma LeadsFirst<N(!new)>(g: Graph<N>, a: N, b: N)
    ensures Leads(g, a, b) <==> exists n :: n in Children(g, a) && Reaches(g, n, b)
  {
    if path :| PathBetween(g, path, a, b) && |path| >= 2 {
      assert PathBetween(g, path[1..], path[1], b);
    }
    if n :| n in Children(g, a) && Reaches(g, n, b) {
      var q :| PathBetween(g, q, n, b);
      assert PathBetween(g, [a, n], a, n);
      PathsJoin(g, [a, n], q, a, n, b);
      assert |[a, n] + q[1..]| >= 2;
    }
  }

  lemma ReachesOrLeads<N(!new)>(g: Graph<N>, a: N, b: N)
    ensures Reaches(g, a, b) <==> a == b || Leads(g, a, b)
  {
    if a == b {
      assert PathBetween(g, [a], a, b);
    }
  }

  lemma ReachesTransitive<N(!new)>(g: Graph<N>, a: N, b: N, c: N)
    requires Reaches(g, a, b) && Reaches(g, b, c)
    ensures Reaches(g, a, c)
  {
    var p :| PathBetween(g, p, a, b);
    var q :| PathBetween(g, q, b, c);
    PathsJoin(g, p, q, a, b, c);
  }

  lemma PathPart<N>(g: Graph<N>, path: seq<N>, i: nat, j: nat)
    requires IsPath(g, path) && i <= j < |path|
    ensures PathBetween(g, path[i..j + 1], path[i], path[j])
  {
  }

  lemma PathGrows<N>(g: Graph<N>, path: seq<N>, n: N)
    requires IsPath(g, path) && n in Children(g, path[|path| - 1])
    ensures IsPath(g, path + [n])
  {
  }

  // ---- Long paths repeat ----

  lemma {:induction false} Pigeonhole<N>(path: seq<N>, nodes: set<N>) returns (i: nat, j: nat)
    requires |path| > |nodes| && forall k :: 0 <= k < |path| ==> path[k] in nodes
    ensures i < j < |path| && path[i] == path[j]
    decreases |path|
  {
    var last := |path| - 1;
    if k: nat :| k < last && path[k] == path[last] {
      i, j := k, last;
    } else {
      var fewer := nodes - {path[last]};
      assert path[last] in nodes && |fewer| == |nodes| - 1;
      i, j := Pigeonhole(path[..last], fewer);
    }
  }

  /** Each node of the set has a child in the set. */
  ghost predicate Stuck<N>(g: Graph<N>, nodes: set<N>) {
    forall s :: s in nodes ==> !(Children(g, s) !! nodes)
  }

  lemma StuckNodeHasChild<N>(g: Graph<N>, nodes: set<N>, s: N) returns (n: N)
    requires Stuck(g, nodes) && s in nodes
    ensures n in Children(g, s) && n in nodes
  {
    n :| n in Children(g, s) && n in nodes;
  }

  /** A set of nodes each of which has a child in the set holds a cycle. */
  lemma StuckSetHasCycle<N(!new)>(g: Graph<N>, stuck: set<N>) returns (n: N)
    requires stuck != {} && Stuck(g, stuck)
    ensures n in stuck && Leads(g, n, n)
  {
    var start :| start in stuck;
    var path := WalkWithin(g, stuck, start, |stuck|);
    var i, j := Pigeonhole(path, stuck);
    n := path[i];
    PathPart(g, path, i, j);
  }

  lemma {:induction false} WalkWithin<N>(g: Graph<N>, stuck: set<N>, start: N, steps: nat) returns (path: seq<N>)
    requires Stuck(g, stuck) && start in stuck
    ensures |path| == steps + 1 && IsPath(g, path) && path[0] == start
    ensures forall k :: 0 <= k < |path| ==> path[k] in stuck
  {
    path := [start];
    if steps > 0 {
      path := WalkWithin(g, stuck, start, steps - 1);
      var n := StuckNodeHasChild(g, stuck, path[steps - 1]);
      PathGrows(g, path, n);
      path := path + [n];
    }
  }

  /** The nodes of a cycle each have a child among them. */
  lemma CycleIsStuck<N(!new)>(g: Graph<N>, n: N) returns (stuck: set<N>)
    requires Leads(g, n, n)
    ensures n in stuck && Stuck(g, stuck)
  {
    var path :| PathBetween(g, path, n, n) && |path| >= 2;
    stuck := set k | 0 <= k < |path| :: path[k];
    forall s | s in stuck
      ensures !(Children(g, s) !! stuck)
    {
      var k :| 0 <= k < |path| && path[k] == s;
      var next := if k == |path| - 1 then 1 else k + 1;
      assert path[next] in Children(g, s) && path[next] in stuck;
    }
    assert path[0] in stuck;
  }
}
