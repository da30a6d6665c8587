/** Emptying the plain queue by testing, when a test fails exactly if its list holds a bad
    change. */
module Draining {
  import opened Wrappers
  import opened Sequences
  import opened QueueTypes
  import opened Bisection

  /** The number of tests answered, the culprits named and the changes passed. */
  datatype Log = Log(tests: nat, culprits: seq<Change>, passed: seq<Change>)

  /** One round: ask for a test and answer it. */
  ghost function Round(q: Queue, key: Key, bad: set<Change>): (Queue, Verdict)
    requires q.sections != []
  {
    var (q', answer) := NextTest(q, key);
    OnReport(q', answer.0, !HasBad(answer.1, bad))
  }

  /** A queue between two tests: nothing to look for, or in the middle of a search that
      was justified. */
  ghost predicate Resting(q: Queue, bad: set<Change>) {
    Shape(q) && q.key.None? && Justified(q, bad) && (Seeking(q) || |q.sections| == 1)
  }

  ghost function Drain(q: Queue, key: Key, bad: set<Change>): Log
    requires Resting(q, bad)
    decreases |Flat(q.sections)|, |q.sections[0]|
  {
    if q.sections[0] == [] then Log(0, [], [])
    else
      RoundRests(q, key, bad);
      RoundProgresses(q, key, bad);
      var (q', v) := Round(q, key, bad);
      var rest := Drain(q', key, bad);
      Log(rest.tests + 1, v.failed + rest.culprits, v.passed + rest.passed)
  }

  /** The queue in which the test of a round is answered. */
  ghost function Asked(q: Queue, key: Key): Queue
    requires q.sections != []
  {
    NextTest(q, key).0
  }

  lemma AskedMatches(q: Queue, key: Key, bad: set<Change>)
    requires Resting(q, bad) && q.sections[0] != []
    ensures var q1 := Asked(q, key);
      && Shape(q1) && Justified(q1, bad) && q1.key == Some(key) && Matches(q1, Some(key))
      && Flat(q1.sections) == Flat(q.sections) && q1.sections[0] == q.sections[0]
      && (if Seeking(q) then q1.sections == q.sections else |q1.sections| == 2 && q1.sections[0] == Flat(q.sections))
      && Round(q, key, bad) == OnReport(q1, Some(key), !HasBad(q.sections[0], bad))
  {
    NextTestKeepsShape(q, key);
    if !Seeking(q) {
      assert q.sections[1..] == [];
      assert Flat(q.sections) == q.sections[0] + [];
    }
  }

  lemma RoundRests(q: Queue, key: Key, bad: set<Change>)
    requires Resting(q, bad) && q.sections[0] != []
    ensures Resting(Round(q, key, bad).0, bad)
  {
    var q1 := Asked(q, key);
    AskedMatches(q, key, bad);
    HonestReportIsSound(q1, Some(key), !HasBad(q.sections[0], bad), bad);
    SuccessKeepsShape(q1, Some(key));
    FailureKeepsShape(q1, Some(key));
  }

  /** A round shortens the queue, or splits its first section. */
  lemma RoundProgresses(q: Queue, key: Key, bad: set<Change>)
    requires Resting(q, bad) && q.sections[0] != []
    ensures var (q', v) := Round(q, key, bad);
      && v.passed + v.failed + Flat(q'.sections) == Flat(q.sections)
      && q'.sections != []
      && (|v.passed + v.failed| > 0 || |q'.sections[0]| < |q.sections[0]|)
  {
    var q1 := Asked(q, key);
    AskedMatches(q, key, bad);
    ReportConserves(q1, Some(key), !HasBad(q.sections[0], bad));
    SuccessKeepsShape(q1, Some(key));
    FailureKeepsShape(q1, Some(key));
    assert [] + [] + Flat(Round(q, key, bad).0.sections) == Flat(Round(q, key, bad).0.sections);
  }

  ghost function Keep(changes: seq<Change>, bad: set<Change>): seq<Change> {
    Filter(changes, (c: Change) => c in bad)
  }

  ghost function Drop(changes: seq<Change>, bad: set<Change>): seq<Change> {
    Filter(changes, (c: Change) => c !in bad)
  }

  lemma KeepConcat(a: seq<Change>, b: seq<Change>, bad: set<Change>)
    ensures Keep(a + b, bad) == Keep(a, bad) + Keep(b, bad)
    ensures Drop(a + b, bad) == Drop(a, bad) + Drop(b, bad)
  {
    FilterConcat(a, b, (c: Change) => c in bad);
    FilterConcat(a, b, (c: Change) => c !in bad);
  }

  lemma SortedApart(good: seq<Change>, culprits: seq<Change>, rest: seq<Change>, bad: set<Change>)
    requires !HasBad(good, bad)
    requires culprits == [] || (|culprits| == 1 && culprits[0] in bad)
    ensures Keep(good + culprits + rest, bad) == culprits + Keep(rest, bad)
    ensures Drop(good + culprits + rest, bad) == good + Drop(rest, bad)
  {
    KeepNone(good, bad);
    KeepConcat(good + culprits, rest, bad);
    KeepConcat(good, culprits, bad);
    if culprits != [] {
      assert culprits[1..] == [] && Keep(culprits[1..], bad) == [] && Drop(culprits[1..], bad) == [];
    }
    assert Keep(culprits, bad) == culprits && Drop(culprits, bad) == [];
    assert [] + culprits == culprits && good + [] == good;
  }

  lemma {:induction false} KeepNone(changes: seq<Change>, bad: set<Change>)
    requires !HasBad(changes, bad)
    ensures Keep(changes, bad) == [] && Drop(changes, bad) == changes
  {
    if changes != [] {
      assert changes[0] in changes;
      assert !HasBad(changes[1..], bad);
      KeepNone(changes[1..], bad);
    }
  }

  lemma KeepSome(changes: seq<Change>, bad: set<Change>)
    requires HasBad(changes, bad)
    ensures |Keep(changes, bad)| >= 1
  {
    FilterMembers(changes, (c: Change) => c in bad);
  }

  /** What a round releases: good changes that passed, and at most one bad culprit. */
  lemma RoundReleases(q: Queue, key: Key, bad: set<Change>)
    requires Resting(q, bad) && q.sections[0] != []
    ensures var (q', v) := Round(q, key, bad);
      var flat, flat' := Flat(q.sections), Flat(q'.sections);
      && Keep(flat, bad) == v.failed + Keep(flat', bad)
      && Drop(flat, bad) == v.passed + Drop(flat', bad)
      && |v.failed| == (if v.cause.Some? then 1 else 0)
      && |flat'| <= |flat|
  {
    var q1 := Asked(q, key);
    var (q', v) := Round(q, key, bad);
    AskedMatches(q, key, bad);
    HonestReportIsSound(q1, Some(key), !HasBad(q.sections[0], bad), bad);
    ReportKeepsShape(q1, Some(key), !HasBad(q.sections[0], bad));
    RoundProgresses(q, key, bad);
    SortedApart(v.passed, v.failed, Flat(q'.sections), bad);
  }

  /** Draining names exactly the bad changes as culprits and passes exactly the good ones,
      both in the order in which they were queued. */
  lemma {:induction false} DrainSorts(q: Queue, key: Key, bad: set<Change>)
    requires Resting(q, bad)
    ensures Drain(q, key, bad).culprits == Keep(Flat(q.sections), bad)
    ensures Drain(q, key, bad).passed == Drop(Flat(q.sections), bad)
    decreases |Flat(q.sections)|, |q.sections[0]|
  {
    if q.sections[0] == [] {
      assert q.sections[1..] == [];
    } else {
      RoundRests(q, key, bad);
      RoundProgresses(q, key, bad);
      RoundReleases(q, key, bad);
      DrainSorts(Round(q, key, bad).0, key, bad);
    }
  }

  /** A bound on the tests, given that no list is longer than 2^log. */
  ghost function Budget(q: Queue, bad: set<Change>, log: nat): int {
    var b := |Keep(Flat(q.sections), bad)|;
    if Seeking(q) then TestsLeft(q) + (b - 1) * (1 + log) + 1 else b * (1 + log) + 1
  }

  lemma RoundSpends(q: Queue, key: Key, bad: set<Change>, log: nat)
    requires Resting(q, bad) && q.sections[0] != [] && CeilLog2(|Flat(q.sections)|) <= log
    ensures var q' := Round(q, key, bad).0;
      && q'.sections != []
      && ((q'.sections == [[]] && Budget(q, bad, log) >= 1) || Budget(q', bad, log) < Budget(q, bad, log))
  {
    var q1 := Asked(q, key);
    var ok := !HasBad(q.sections[0], bad);
    var (q', v) := Round(q, key, bad);
    var b, b' := |Keep(Flat(q.sections), bad)|, |Keep(Flat(q'.sections), bad)|;
    AskedMatches(q, key, bad);
    RoundReleases(q, key, bad);
    assert b == b' + if v.cause.Some? then 1 else 0;
    Distribute(b, log);
    if Seeking(q) {
      ReportAdvancesSearch(q1, Some(key), ok);
      ReportKeepsShape(q1, Some(key), ok);
    } else {
      SuccessKeepsShape(q1, Some(key));
      FailureKeepsShape(q1, Some(key));
      if !ok {
        KeepSome(q.sections[0], bad);
      }
    }
  }

  lemma Distribute(b: int, log: nat)
    ensures b * (1 + log) == (b - 1) * (1 + log) + (1 + log)
  {
  }

  lemma {:induction false} DrainWithinBudget(q: Queue, key: Key, bad: set<Change>, log: nat)
    requires Resting(q, bad) && CeilLog2(|Flat(q.sections)|) <= log
    ensures Drain(q, key, bad).tests <= if q.sections == [[]] then 0 else Budget(q, bad, log)
    decreases |Flat(q.sections)|, |q.sections[0]|
  {
    if q.sections[0] != [] {
      RoundRests(q, key, bad);
      RoundProgresses(q, key, bad);
      RoundReleases(q, key, bad);
      RoundSpends(q, key, bad, log);
      var q' := Round(q, key, bad).0;
      CeilLog2Monotone(|Flat(q'.sections)|, |Flat(q.sections)|);
      DrainWithinBudget(q', key, bad, log);
    }
  }

  /** Draining n queued changes of which b are bad takes at most b * (1 + ceil(log2 n)) + 1
      tests. */
  lemma DrainIsCheap(changes: seq<Change>, key: Key, bad: set<Change>)
    ensures var q := Queue([changes], None);
      && Resting(q, bad)
      && Drain(q, key, bad).tests <= |Keep(changes, bad)| * (1 + CeilLog2(|changes|)) + 1
      && Drain(q, key, bad).culprits == Keep(changes, bad)
      && Drain(q, key, bad).passed == Drop(changes, bad)
  {
    var q := Queue([changes], None);
    FlatOne(changes);
    DrainSorts(q, key, bad);
    DrainWithinBudget(q, key, bad, CeilLog2(|changes|));
  }

  lemma FlatOne(changes: seq<Change>)
    ensures Flat([changes]) == changes
  {
    assert [changes][1..] == [] && changes + [] == changes;
  }

  // ---- Order ----

  /** What a run of the plain queue releases, in the order in which it does. */
  ghost function Released(q: Queue, steps: seq<Step>): seq<Change>
    decreases |steps|
  {
    if steps == [] || q.sections == [] then []
    else
      var (q', released) := PlainStep(q, steps[0]);
      released + Released(q', steps[1..])
  }

  ghost function PlainStep(q: Queue, step: Step): (Queue, seq<Change>)
    requires q.sections != []
  {
    match step
    case Submit(change) => (Add(q, change), [])
    case Ask(freshKey) => (NextTest(q, freshKey).0, [])
    case Report(key, ok) =>
      var (q', v) := OnReport(q, key, ok);
      (q', v.passed + v.failed)
  }

  ghost function PlainRun(q: Queue, steps: seq<Step>): Queue
    decreases |steps|
  {
    if steps == [] || q.sections == [] then q else PlainRun(PlainStep(q, steps[0]).0, steps[1..])
  }

  ghost function Submitted(steps: seq<Step>): seq<Change> {
    if steps == [] then []
    else (if steps[0].Submit? then [steps[0].change] else []) + Submitted(steps[1..])
  }

  lemma PlainStepConserves(q: Queue, step: Step)
    requires Shape(q)
    ensures var (q', released) := PlainStep(q, step);
      && Shape(q')
      && released + Flat(q'.sections) == Flat(q.sections) + if step.Submit? then [step.change] else []
  {
    match step
    case Submit(change) => AddKeepsShape(q, change);
    case Ask(freshKey) => NextTestKeepsShape(q, freshKey);
    case Report(key, ok) =>
      ReportKeepsShape(q, key, ok);
      ReportConserves(q, key, ok);
  }

  /** In the plain queue, all that was released so far, followed by all that is still
      queued, is the sequence of additions. */
  lemma {:induction false} FirstInFirstOut(q: Queue, steps: seq<Step>)
    requires Shape(q)
    ensures Released(q, steps) + Flat(PlainRun(q, steps).sections) == Flat(q.sections) + Submitted(steps)
    decreases |steps|
  {
    if steps == [] {
      assert [] + Flat(q.sections) == Flat(q.sections) + [];
    } else {
      var (q', released) := PlainStep(q, steps[0]);
      PlainStepConserves(q, steps[0]);
      FirstInFirstOut(q', steps[1..]);
      var now := if steps[0].Submit? then [steps[0].change] else [];
      StillInOrder(released, Released(q', steps[1..]), Flat(PlainRun(q, steps).sections),
                   Flat(q.sections), Flat(q'.sections), now, Submitted(steps[1..]));
    }
  }

  lemma StillInOrder(released: seq<Change>, more: seq<Change>, left: seq<Change>, before: seq<Change>,
                     after: seq<Change>, now: seq<Change>, later: seq<Change>)
    requires released + after == before + now
    requires more + left == after + later
    ensures (released + more) + left == before + (now + later)
  {
    assert (released + more) + left == released + (more + left);
    assert released + (after + later) == (released + after) + later;
    assert (before + now) + later == before + (now + later);
  }
}
