/** Whole runs of the combined queue: any interleaving of additions, requests for a test
    and reports, from the empty queue on. */
module QueueRuns {
  import opened Wrappers
  import opened QueueTypes
  import opened Streams
  import opened DependencyInvariants
  import opened Machines
  import Additions
  import Bisection
  import Dependencies
  import Failures

  /** A queue together with what happened to it so far: the changes submitted, rejected,
      released as passed and released as failed, the test events, and the list handed
      out under each key. */
  datatype World = World(
    queue: Queue,
    submitted: seq<Change>,
    rejected: seq<Change>,
    passed: seq<Change>,
    failed: seq<Change>,
    events: seq<Event>,
    handed: map<Key, seq<Change>>)

  const START := World(EMPTY, [], [], [], [], [], map[])

  ghost function Advance(w: World, step: Step): World {
    if Main(w).sections == [] then w  // a queue never runs out of sections
    else match step
    case Submit(change) =>
      var (deps, entered, rejected) := Dependencies.Add(w.queue.deps, change);
      w.(queue := w.queue.(deps := deps), submitted := w.submitted + [change], rejected := w.rejected + rejected)
    case Ask(freshKey) =>
      var (main, (key, list)) := Bisection.NextTest(w.queue.deps.main, freshKey);
      w.(queue := w.queue.(deps := w.queue.deps.(main := main)),
         handed := if key.Some? then w.handed[key.value := list] else w.handed)
    case Report(key, ok) =>
      var (queue, v) := Streams.OnReport(w.queue, key, ok);
      w.(queue := queue, passed := w.passed + v.passed, failed := w.failed + v.failed,
         events := Recorded(w.events, v))
  }

  ghost function Recorded(events: seq<Event>, v: Verdict): seq<Event> {
    var events' := if v.passed != [] then events + [Passed(v.passed)] else events;
    if v.failed != [] then events' + [Culprit(v.failed[0])] else events'
  }

  /** New keys are really new. */
  ghost predicate CanHappen(w: World, step: Step) {
    step.Ask? ==> step.freshKey !in w.handed
  }

  /** A report about a handed-out list says it failed exactly when the list holds a bad
      change. */
  ghost predicate Honest(w: World, step: Step, bad: set<Change>) {
    step.Report? && step.key.Some? && step.key.value in w.handed ==>
      step.passed == !HasBad(w.handed[step.key.value], bad)
  }

  ghost function Main(w: World): Bisection.Queue {
    w.queue.deps.main
  }

  ghost function Queued(w: World): seq<Change> {
    Dependencies.Queued(w.queue.deps)
  }

  ghost function Waits(w: World): seq<Change> {
    Dependencies.Changes(w.queue.deps.waiting)
  }

  // ---- The invariant of all runs ----

  ghost predicate Good(w: World) {
    && Sound(w.queue.deps, Ids(w.passed))
    && Chronicled(w.queue.streams, w.events)
    && Conserved(w)
    && KeyHeld(w)
  }

  /** Every submitted change is in exactly one place, as often as it was submitted. */
  ghost predicate Conserved(w: World) {
    multiset(w.submitted) ==
      multiset(Queued(w)) + multiset(Waits(w)) + multiset(w.passed) + multiset(w.failed) + multiset(w.rejected)
  }

  /** The list handed out under the running key is still the first section. */
  ghost predicate KeyHeld(w: World) {
    Main(w).key.Some? && Main(w).sections != [] ==>
      Main(w).key.value in w.handed && w.handed[Main(w).key.value] == Main(w).sections[0]
  }

  lemma AdvanceIsGood(w: World, step: Step)
    requires Good(w)
    ensures Good(Advance(w, step))
  {
    match step
    case Submit(change) => SubmitIsGood(w, change);
    case Ask(freshKey) => AskIsGood(w, freshKey);
    case Report(key, ok) => ReportIsGood(w, key, ok);
  }

  lemma AskIsGood(w: World, freshKey: Key)
    requires Good(w)
    ensures Good(Advance(w, Ask(freshKey)))
  {
    var w' := Advance(w, Ask(freshKey));
    var (main, answer) := Bisection.NextTest(Main(w), freshKey);
    Bisection.NextTestKeepsShape(Main(w), freshKey);
    assert Queued(w') == Queued(w) && Waits(w') == Waits(w);
    assert Chronicled(w'.queue.streams, w'.events);
    assert Conserved(w');
    assert KeyHeld(w');
    assert Sound(w'.queue.deps, Ids(w'.passed));
  }

  lemma SubmitIsGood(w: World, change: Change)
    requires Good(w)
    ensures Good(Advance(w, Submit(change)))
  {
    Additions.AddKeepsSound(w.queue.deps, change, Ids(w.passed));
    Additions.AddKeepsHead(w.queue.deps, change);
    SubmitConserves(w, change);
  }

  lemma SubmitConserves(w: World, change: Change)
    requires Bisection.Shape(Main(w)) && Conserved(w)
    ensures Conserved(Advance(w, Submit(change)))
  {
    var w' := Advance(w, Submit(change));
    var (deps, entered, rejected) := Dependencies.Add(w.queue.deps, change);
    Additions.AddConserves(w.queue.deps, change);
    assert multiset(w'.submitted) == multiset(w.submitted) + multiset{change};
    assert multiset(w'.rejected) == multiset(w.rejected) + multiset(rejected);
    assert multiset(Queued(w')) == multiset(Queued(w)) + multiset(entered);
    Rebalance(multiset(Queued(w)), multiset(Waits(w)), multiset(w.passed), multiset(w.failed), multiset(w.rejected),
              multiset{change}, multiset(entered), multiset(Waits(w')), multiset(rejected));
  }

  lemma Rebalance(queued: multiset<Change>, waits: multiset<Change>, passed: multiset<Change>, failed: multiset<Change>,
                  rejected: multiset<Change>, change: multiset<Change>, entered: multiset<Change>,
                  waits': multiset<Change>, rejected': multiset<Change>)
    requires entered + waits' + rejected' == waits + change
    ensures queued + waits + passed + failed + rejected + change
         == (queued + entered) + waits' + passed + failed + (rejected + rejected')
  {
    forall x
      ensures entered[x] + waits'[x] + rejected'[x] == waits[x] + change[x]
    {
      assert (entered + waits' + rejected')[x] == (waits + change)[x];
    }
  }

  lemma ReportIsGood(w: World, key: Option<Key>, ok: bool)
    requires Good(w)
    ensures Good(Advance(w, Report(key, ok)))
  {
    var v := Dependencies.OnReport(w.queue.deps, key, ok).1;
    ReportOutcome(w, key, ok);
    Failures.ReportKeepsSound(w.queue.deps, key, ok, Ids(w.passed));
    IdsOfConcat(w.passed, v.passed);
    ReportChronicled(w, key, ok);
    ReportConserves(w, key, ok);
    ReportKeepsKey(w, key, ok);
  }

  lemma ReportConserves(w: World, key: Option<Key>, ok: bool)
    requires Good(w)
    ensures Conserved(Advance(w, Report(key, ok)))
  {
    var v := Dependencies.OnReport(w.queue.deps, key, ok).1;
    ReportOutcome(w, key, ok);
    Failures.ReportConserves(w.queue.deps, key, ok);
    assert multiset(w.passed + v.passed) == multiset(w.passed) + multiset(v.passed);
    assert multiset(w.failed + v.failed) == multiset(w.failed) + multiset(v.failed);
  }

  lemma ReportKeepsKey(w: World, key: Option<Key>, ok: bool)
    requires Good(w)
    ensures KeyHeld(Advance(w, Report(key, ok)))
  {
    ReportOutcome(w, key, ok);
    Bisection.ReportKeepsShape(Main(w), key, ok);
  }

  /** What a report does, in terms of the layers below. */
  lemma ReportOutcome(w: World, key: Option<Key>, ok: bool)
    requires Bisection.Shape(Main(w))
    ensures var w' := Advance(w, Report(key, ok));
      var v := Streams.OnReport(w.queue, key, ok).1;
      var (deps, dv) := Dependencies.OnReport(w.queue.deps, key, ok);
      var (main, bv) := Bisection.OnReport(Main(w), key, ok);
      var (streams, cause) := Blame(Recovered(w.queue.streams, v.passed), bv.cause);
      && w' == w.(queue := Queue(deps, streams), passed := w.passed + v.passed,
                  failed := w.failed + v.failed, events := Recorded(w.events, v))
      && v == dv.(cause := cause)
      && v.passed == bv.passed
      && (bv.cause.Some? ==>
            v.failed != [] && v.failed[0] == bv.cause.value && |deps.main.sections| == 1 && deps.main.key.None?)
      && (bv.cause.None? ==> v.failed == [] && deps.main == main)
  {
    Failures.ReportFactors(w.queue.deps, key, ok);
    Bisection.ReportKeepsShape(Main(w), key, ok);
    ReportBlames(w.queue, key, ok);
  }

  /** The change blamed for a culprit is the first culprit of its stream since a change
      of the stream last passed. */
  lemma ReportChronicled(w: World, key: Option<Key>, ok: bool)
    requires Bisection.Shape(Main(w)) && Chronicled(w.queue.streams, w.events)
    ensures var w' := Advance(w, Report(key, ok));
      var v := Streams.OnReport(w.queue, key, ok).1;
      && Chronicled(w'.queue.streams, w'.events)
      && (v.failed != [] <==> v.cause.Some?)
      && (v.failed != [] ==> Blamed(w'.events, v.failed[0], v.cause.value))
  {
    ReportOutcome(w, key, ok);
    var v := Streams.OnReport(w.queue, key, ok).1;
    var events := if v.passed != [] then w.events + [Passed(v.passed)] else w.events;
    var streams := Recovered(w.queue.streams, v.passed);
    PassingChronicled(w.queue.streams, w.events, v.passed);
    if v.failed != [] {
      BlameChronicled(streams, events, v.failed[0]);
    }
  }

  lemma PassingChronicled(streams: map<StreamId, Change>, events: seq<Event>, passed: seq<Change>)
    requires Chronicled(streams, events)
    ensures Chronicled(Recovered(streams, passed), if passed != [] then events + [Passed(passed)] else events)
  {
    if passed != [] {
      RecoveryChronicled(streams, events, passed);
    } else {
      assert StreamsOf(passed) == {} && Recovered(streams, passed) == streams;
    }
  }

  // ---- Runs ----

  /** The steps of a run from the empty queue. */
  ghost predicate IsRun(steps: seq<Step>) {
    Possible(Advance, CanHappen, START, steps)
  }

  ghost function Reached(steps: seq<Step>): World {
    Run(Advance, START, steps)
  }

  /** What can happen continues the run. */
  lemma RunContinues(steps: seq<Step>, step: Step)
    requires IsRun(steps) && CanHappen(Reached(steps), step)
    ensures IsRun(steps + [step]) && Reached(steps + [step]) == Advance(Reached(steps), step)
  {
    RunGoesOn(Advance, CanHappen, START, steps, step);
  }

  lemma EveryRunIsGood(steps: seq<Step>)
    requires IsRun(steps)
    ensures Good(Reached(steps))
  {
    forall w, step | Good(w) && CanHappen(w, step)
      ensures Good(Advance(w, step))
    {
      AdvanceIsGood(w, step);
    }
    RunKeeps(Advance, CanHappen, Good, START, steps);
  }
}
