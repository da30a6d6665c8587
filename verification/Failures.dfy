/** What a test result does to the queue with dependencies. */
module Failures {
  import opened Wrappers
  import opened QueueTypes
  import opened Dependencies
  import opened DependencyInvariants
  import Bisection

  /** The queue once the plain queue has taken a result, before dependants go down. */
  ghost function Reported(q: Queue, key: Option<Key>, passed: bool): Queue
    requires q.main.sections != []
  {
    q.(main := Bisection.OnReport(q.main, key, passed).0)
  }

  /** The ids of everything left, queued or waiting, that requires the culprit. */
  ghost function DependantsOnCulprit(q: Queue, culprit: Change): set<Id> {
    Dependants(culprit.id, Queued(q) + Changes(q.waiting))
  }

  /** A result does what it does to the plain queue, and then takes down the dependants
      of the culprit, if there is one. */
  lemma ReportFactors(q: Queue, key: Option<Key>, passed: bool)
    requires Bisection.Shape(q.main)
    ensures var (q', v) := OnReport(q, key, passed);
      var v0 := Bisection.OnReport(q.main, key, passed).1;
      var q0 := Reported(q, key, passed);
      && v.passed == v0.passed && v.cause == v0.cause
      && (v0.cause.None? ==> q' == q0 && v.failed == [])
      && (v0.cause.Some? ==>
            var (q1, gone) := Prune(q0, DependantsOnCulprit(q0, v0.cause.value));
            q' == q1 && v.failed == [v0.cause.value] + gone)
  {
    Bisection.ReportKeepsShape(q.main, key, passed);
    var v0 := Bisection.OnReport(q.main, key, passed).1;
    var q0 := Reported(q, key, passed);
    if v0.cause.Some? {
      assert v0.failed[1..] == [];
      var (q1, gone) := Prune(q0, DependantsOnCulprit(q0, v0.cause.value));
      assert PruneAll(q1, []) == (q1, []);
      assert gone + [] == gone;
      assert PruneAll(q0, v0.failed) == (q1, gone);
    }
    if passed && Bisection.Matches(q.main, key) && |q.main.sections| > 2 {
      var main1 := Bisection.Queue(q.main.sections[1..], key);
      assert Bisection.OnFailure(main1, key).0.key == None;
    }
  }

  lemma PruneOne(q: Queue, ids: set<Id>)
    requires |q.main.sections| == 1
    ensures var (q', gone) := Prune(q, ids);
      && q'.main == Bisection.Queue([Without(Queued(q), ids)], q.main.key)
      && Queued(q') == Without(Queued(q), ids)
      && q'.waiting == WaitingWithout(q.waiting, ids)
      && Changes(q'.waiting) == Without(Changes(q.waiting), ids)
      && gone == Only(Queued(q), ids) + Only(Changes(q.waiting), ids)
  {
    var (q', gone) := Prune(q, ids);
    var section := q.main.sections[0];
    WaitingWithoutMembers(q.waiting, ids);
    assert q.main.sections == [section] && q.main.sections[1..] == [];
    assert Bisection.Flat(q.main.sections) == section + [] == section;
    assert q'.main.sections == [Without(section, ids)] && q'.main.sections[1..] == [];
    assert Bisection.Flat(q'.main.sections) == Without(section, ids) + [];
    assert SectionsOnly(q.main.sections, ids) == Only(section, ids) + [];
  }

  /** The failures of a culprit are the culprit, then what is queued and then what is
      waiting, in order, of all that requires it through a chain of changes that are
      left. All else stays in order, the waiting changes with what they missed before; and
      nothing that stays requires anything that failed. */
  lemma CulpritTakesDependants(q: Queue, key: Option<Key>, passed: bool)
    requires Bisection.Shape(q.main)
    requires Bisection.OnReport(q.main, key, passed).1.cause.Some?
    ensures var (q', v) := OnReport(q, key, passed);
      var q0 := Reported(q, key, passed);
      var culprit := Bisection.OnReport(q.main, key, passed).1.cause.value;
      var left := Queued(q0) + Changes(q0.waiting);
      var ids := DependantsOnCulprit(q0, culprit);
      && v.failed == [culprit] + (Only(Queued(q0), ids) + Only(Changes(q0.waiting), ids))
      && q'.main == Bisection.Queue([Without(Queued(q0), ids)], None)
      && Queued(q') == Without(Queued(q0), ids)
      && q'.waiting == WaitingWithout(q.waiting, ids)
      && (forall w :: w in q'.waiting <==>
            w in q.waiting && !exists path :: Chain(path, culprit.id, w.change.id, left))
      && Changes(q'.waiting) == Without(Changes(q0.waiting), ids)
      && (forall d :: d in ids <==> exists path :: Chain(path, culprit.id, d, left))
      && NoneRequires(Queued(q') + Changes(q'.waiting), Ids(v.failed))
  {
    var q0 := Reported(q, key, passed);
    var culprit := Bisection.OnReport(q.main, key, passed).1.cause.value;
    Bisection.ReportKeepsShape(q.main, key, passed);
    ReportFactors(q, key, passed);
    CulpritChains(q0, culprit);
    PruneOne(q0, DependantsOnCulprit(q0, culprit));
    WaitingWithoutMembers(q.waiting, DependantsOnCulprit(q0, culprit));
    RestRequiresNoneGone(Queued(q0), Changes(q0.waiting), culprit);
  }

  lemma CulpritChains(q: Queue, culprit: Change)
    ensures forall d :: d in DependantsOnCulprit(q, culprit) <==>
              exists path :: Chain(path, culprit.id, d, Queued(q) + Changes(q.waiting))
  {
    forall d
      ensures d in DependantsOnCulprit(q, culprit) <==>
        exists path :: Chain(path, culprit.id, d, Queued(q) + Changes(q.waiting))
    {
      DependantsAreChainEnds(culprit.id, d, Queued(q) + Changes(q.waiting));
    }
  }

  lemma RestRequiresNoneGone(queued: seq<Change>, waiting: seq<Change>, culprit: Change)
    ensures var ids := Dependants(culprit.id, queued + waiting);
      NoneRequires(Without(queued, ids) + Without(waiting, ids),
                   Ids([culprit] + (Only(queued, ids) + Only(waiting, ids))))
  {
    var ids := Dependants(culprit.id, queued + waiting);
    DependantsClosed(culprit.id, queued + waiting);
    WithoutMembers(queued, ids);
    WithoutMembers(waiting, ids);
    var gone := Only(queued, ids) + Only(waiting, ids);
    IdsOfConcat([culprit], gone);
    assert Ids(gone) <= ids;
    forall c | c in Without(queued, ids) + Without(waiting, ids)
      ensures !Requires(c, Ids([culprit] + gone))
    {
      assert c in queued + waiting && c.id !in ids;
    }
  }

  lemma SupplyAfterReport(main: Bisection.Queue, key: Option<Key>, ok: bool, passed: set<Id>)
    requires main.sections != [] && Supplied(Bisection.Flat(main.sections), passed)
    ensures var (main', v) := Bisection.OnReport(main, key, ok);
      var flat := Bisection.Flat(main'.sections);
      && Ids(Bisection.Flat(main.sections)) == Ids(v.passed) + Ids(v.failed) + Ids(flat)
      && Supplied(flat, passed + Ids(v.passed) + Ids(v.failed))
  {
    var (main', v) := Bisection.OnReport(main, key, ok);
    Bisection.ReportConserves(main, key, ok);
    SuppliedThirds(v.passed, v.failed, Bisection.Flat(main'.sections), passed);
  }

  lemma SuppliedThirds(a: seq<Change>, b: seq<Change>, c: seq<Change>, have: set<Id>)
    ensures Ids(a + b + c) == Ids(a) + Ids(b) + Ids(c)
    ensures Supplied(a + b + c, have) ==> Supplied(c, have + Ids(a) + Ids(b))
  {
    IdsOfConcat(a + b, c);
    IdsOfConcat(a, b);
    SuppliedConcat(a + b, c, have);
    assert have + (Ids(a) + Ids(b)) == have + Ids(a) + Ids(b);
  }

  /** A result keeps the queue sound, with what it releases as passed added to what
      passed before. */
  lemma ReportKeepsSound(q: Queue, key: Option<Key>, ok: bool, passed: set<Id>)
    requires Sound(q, passed)
    ensures var (q', v) := OnReport(q, key, ok); Sound(q', passed + Ids(v.passed))
  {
    var v0 := Bisection.OnReport(q.main, key, ok).1;
    var q0 := Reported(q, key, ok);
    var have := passed + Ids(v0.passed);
    PlainReportKeepsSupply(q, key, ok, passed);
    Bisection.ReportKeepsShape(q.main, key, ok);
    ReportFactors(q, key, ok);
    if v0.cause.Some? {
      var culprit := v0.cause.value;
      assert Ids(v0.failed) == {culprit.id} by { assert culprit in v0.failed; }
      PruneKeepsSound(q0, culprit, have);
    } else {
      assert have + Ids(v0.failed) == have;
    }
  }

  /** What the plain result alone keeps: everything, as long as what failed counts as
      still there. */
  lemma PlainReportKeepsSupply(q: Queue, key: Option<Key>, ok: bool, passed: set<Id>)
    requires Sound(q, passed)
    ensures var v0 := Bisection.OnReport(q.main, key, ok).1;
      var q0 := Reported(q, key, ok);
      var have := passed + Ids(v0.passed) + Ids(v0.failed);
      && NotStuck(q0)
      && Supplied(Queued(q0), have)
      && WaitingSupplied(q0.waiting, have + Ids(Queued(q0)))
      && (v0.cause.Some? ==> q0.main.key.None?)
  {
    var v0 := Bisection.OnReport(q.main, key, ok).1;
    var q0 := Reported(q, key, ok);
    SupplyAfterReport(q.main, key, ok, passed);
    Bisection.ReportKeepsShape(q.main, key, ok);
    assert passed + Ids(Queued(q)) == passed + Ids(v0.passed) + Ids(v0.failed) + Ids(Queued(q0));
  }

  lemma PruneKeepsSound(q: Queue, culprit: Change, have: set<Id>)
    requires |q.main.sections| == 1 && q.main.key.None?
    requires Ordered(Changes(q.waiting)) && NotStuck(q)
    requires Supplied(Queued(q), have + {culprit.id})
    requires WaitingSupplied(q.waiting, have + {culprit.id} + Ids(Queued(q)))
    ensures Sound(Prune(q, DependantsOnCulprit(q, culprit)).0, have)
  {
    var queued, waiting := Queued(q), Changes(q.waiting);
    var ids := DependantsOnCulprit(q, culprit);
    PruneOne(q, ids);
    DependantsClosed(culprit.id, queued + waiting);
    ClosedParts(ids, culprit.id, queued, waiting);
    OrderedParts(waiting, ids);
    SuppliedWithout(queued, culprit.id, ids, have + {culprit.id}, have);
    NotStuckWithout(q, Prune(q, ids).0, ids);
    WaitingAfterPrune(q, culprit.id, ids, have);
  }

  lemma ClosedParts(ids: set<Id>, root: Id, a: seq<Change>, b: seq<Change>)
    requires Closed(ids, root, a + b)
    ensures Closed(ids, root, a) && Closed(ids, root, b)
  {
    assert forall c :: c in a || c in b ==> c in a + b;
  }

  lemma NotStuckWithout(q: Queue, q': Queue, ids: set<Id>)
    requires NotStuck(q) && q'.waiting == WaitingWithout(q.waiting, ids) && Queued(q') == Without(Queued(q), ids)
    ensures NotStuck(q')
  {
    WaitingWithoutMembers(q.waiting, ids);
    KeptIds(Queued(q), ids);
  }

  lemma KeptIds(changes: seq<Change>, ids: set<Id>)
    ensures Ids(Without(changes, ids)) == Ids(changes) - ids
  {
    WithoutMembers(changes, ids);
  }

  lemma WaitingAfterPrune(q: Queue, root: Id, ids: set<Id>, have: set<Id>)
    requires Closed(ids, root, Changes(q.waiting))
    requires WaitingSupplied(q.waiting, have + {root} + Ids(Queued(q)))
    ensures WaitingSupplied(WaitingWithout(q.waiting, ids), have + Ids(Without(Queued(q), ids)))
  {
    KeptIds(Queued(q), ids);
    WaitingWithoutMembers(q.waiting, ids);
    forall w | w in WaitingWithout(q.waiting, ids)
      ensures w.change.requirements - w.missing <= have + Ids(Without(Queued(q), ids))
    {
      var i :| 0 <= i < |q.waiting| && q.waiting[i] == w;
      assert Changes(q.waiting)[i] == w.change;
      assert !Requires(w.change, ids + {root});
    }
  }

  /** A result releases what it removes, and removes nothing else. */
  lemma ReportConserves(q: Queue, key: Option<Key>, passed: bool)
    requires Bisection.Shape(q.main)
    ensures var (q', v) := OnReport(q, key, passed);
      multiset(v.passed) + multiset(v.failed) + multiset(Queued(q')) + multiset(Changes(q'.waiting))
      == multiset(Queued(q)) + multiset(Changes(q.waiting))
  {
    var v0 := Bisection.OnReport(q.main, key, passed).1;
    var q0 := Reported(q, key, passed);
    PlainReportConserves(q, key, passed);
    ReportFactors(q, key, passed);
    if v0.cause.Some? {
      var ids := DependantsOnCulprit(q0, v0.cause.value);
      CulpritTakesDependants(q, key, passed);
      WithoutMembers(Queued(q0), ids);
      WithoutMembers(Changes(q0.waiting), ids);
    }
  }

  lemma PlainReportConserves(q: Queue, key: Option<Key>, passed: bool)
    requires Bisection.Shape(q.main)
    ensures var v0 := Bisection.OnReport(q.main, key, passed).1;
      && multiset(Queued(q))
         == multiset(v0.passed) + multiset(v0.failed) + multiset(Queued(Reported(q, key, passed)))
      && v0.failed == if v0.cause.Some? then [v0.cause.value] else []
  {
    var v0 := Bisection.OnReport(q.main, key, passed).1;
    Bisection.ReportConserves(q.main, key, passed);
    Bisection.ReportKeepsShape(q.main, key, passed);
    assert v0.passed + v0.failed + Queued(Reported(q, key, passed)) == Queued(q);
  }
}
