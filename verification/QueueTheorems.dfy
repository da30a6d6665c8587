/** What holds over every run of the combined queue. */
module QueueTheorems {
  import opened Wrappers
  import opened QueueTypes
  import opened Streams
  import opened DependencyInvariants
  import opened Machines
  import opened QueueRuns
  import Additions
  import Bisection
  import Dependencies

  /** After every run, only the last section may be empty, a running test has a section
      behind it for what is added meanwhile, and holds exactly the list it was given. */
  lemma ShapeIsKept(steps: seq<Step>)
    requires IsRun(steps)
    ensures var w := Reached(steps);
      var sections, key := Main(w).sections, Main(w).key;
      && sections != []
      && (forall i :: 0 <= i < |sections| - 1 ==> sections[i] != [])
      && (key.Some? ==> |sections| >= 2 && key.value in w.handed && w.handed[key.value] == sections[0] != [])
  {
    EveryRunIsGood(steps);
  }

  /** After every run, a test that is asked for takes everything that is queued, unless a
      test is running or a culprit is being sought; of the list known to be failing it takes
      the smaller half. */
  lemma TestTakesAll(steps: seq<Step>, freshKey: Key)
    requires IsRun(steps) && Main(Reached(steps)).key.None?
    ensures Main(Reached(steps)).sections != []
    ensures var w := Reached(steps);
      var list := Bisection.NextTest(Main(w), freshKey).1.1;
      if Bisection.Seeking(Main(w)) then
        var suspects := Bisection.Suspects(Main(w));
        list == suspects[..|suspects| / 2]
      else Main(w).sections == [Queued(w)] && list == Queued(w)
  {
    EveryRunIsGood(steps);
    var sections := Main(Reached(steps)).sections;
    if |sections| == 1 {
      assert sections == [sections[0]] && sections[1..] == [] && sections[0] + [] == sections[0];
      assert Bisection.Flat(sections) == sections[0];
    }
  }

  /** After every run, each waiting change waits for something: requirements of its own
      that are not queued. All its other requirements are queued or have passed their test.
      A requirement that passed before the change was added is waited for all the same,
      until it is submitted again. */
  lemma WaitingIsJustified(steps: seq<Step>)
    requires IsRun(steps)
    ensures var w := Reached(steps);
      forall x :: x in w.queue.deps.waiting ==>
        && x.missing != {} && x.missing <= x.change.requirements && x.missing !! Ids(Queued(w))
        && forall r :: r in x.change.requirements - x.missing ==> r in Ids(Queued(w)) || r in Ids(w.passed)
  {
    EveryRunIsGood(steps);
  }

  /** After every run, the requirements in the side queue form no cycle. */
  lemma SideQueueIsAcyclic(steps: seq<Step>, id: Id)
    requires IsRun(steps)
    ensures !exists path :: Dependencies.Chain(path, id, id, Waits(Reached(steps)))
  {
    EveryRunIsGood(steps);
    OrderedIsAcyclic(Waits(Reached(steps)), id);
  }

  /** After every run, each requirement of a queued change is in front of it in the queue
      or has passed its test. */
  lemma RequirementsComeFirst(steps: seq<Step>, i: nat, r: Id)
    requires IsRun(steps)
    requires i < |Queued(Reached(steps))| && r in Queued(Reached(steps))[i].requirements
    ensures r in Ids(Queued(Reached(steps))[..i]) || r in Ids(Reached(steps).passed)
  {
    EveryRunIsGood(steps);
    SuppliedMeans(Queued(Reached(steps)), Ids(Reached(steps).passed));
  }

  /** After every run, every submitted change is in exactly one place: queued, waiting,
      passed, failed or rejected. */
  lemma NothingIsLost(steps: seq<Step>)
    requires IsRun(steps)
    ensures var w := Reached(steps);
      multiset(w.submitted) ==
        multiset(Queued(w)) + multiset(Waits(w)) + multiset(w.passed) + multiset(w.failed) + multiset(w.rejected)
  {
    EveryRunIsGood(steps);
  }

  /** After every run, a report that names a culprit blames it on the first culprit of
      its stream since a change of that stream last passed. */
  lemma BlameIsRight(steps: seq<Step>, key: Option<Key>, ok: bool)
    requires IsRun(steps)
    ensures Main(Reached(steps)).sections != []
    ensures var w := Reached(steps);
      var v := Streams.OnReport(w.queue, key, ok).1;
      && (v.failed != [] <==> v.cause.Some?)
      && (v.failed != [] ==> Blamed(Advance(w, Report(key, ok)).events, v.failed[0], v.cause.value))
  {
    EveryRunIsGood(steps);
    ReportChronicled(Reached(steps), key, ok);
  }

  // ---- Keys ----

  /** A report that does not answer the running test changes nothing. */
  lemma StaleReportIsIgnored(w: World, key: Option<Key>, ok: bool)
    requires Good(w) && !Bisection.Matches(Main(w), key)
    ensures Advance(w, Report(key, ok)) == w
    ensures Streams.OnReport(w.queue, key, ok).1 == NOTHING
  {
    ReportOutcome(w, key, ok);
    Bisection.ReportKeepsShape(Main(w), key, ok);
    assert StreamsOf([]) == {};
    assert Recovered(w.queue.streams, []) == w.queue.streams;
  }

  /** Asking again while a test runs hands out the same list under the same key. */
  lemma AskingAgainRepeats(w: World, freshKey: Key)
    requires Good(w) && Main(w).key.Some?
    ensures Advance(w, Ask(freshKey)) == w
    ensures Bisection.NextTest(Main(w), freshKey).1 == (Main(w).key, w.handed[Main(w).key.value])
  {
    var key := Main(w).key.value;
    assert w.handed[key := w.handed[key]] == w.handed;
  }

  /** The test that runs under the key, with the list that was handed out for it. */
  ghost predicate Running(w: World, key: Key, list: seq<Change>) {
    && Good(w)
    && Main(w).key == Some(key)
    && Main(w).sections[0] == list
    && key in w.handed && w.handed[key] == list
  }

  lemma OtherStepsKeepRunning(w: World, key: Key, list: seq<Change>, step: Step)
    requires Running(w, key, list) && (step.Report? ==> step.key != Some(key))
    ensures Running(Advance(w, step), key, list)
  {
    AdvanceIsGood(w, step);
    match step
    case Submit(change) => Additions.AddKeepsHead(w.queue.deps, change);
    case Ask(freshKey) => AskingAgainRepeats(w, freshKey);
    case Report(k, ok) => StaleReportIsIgnored(w, k, ok);
  }

  /** Everything that can happen, except a report about the key. */
  ghost function Besides(key: Key): (World, Step) -> bool {
    (w, step) => CanHappen(w, step) && (step.Report? ==> step.key != Some(key))
  }

  /** Until it is answered, a running test keeps its key, and the first section stays the
      list that was handed out, whatever is added meanwhile. */
  lemma RunningTestIsHeld(w: World, steps: seq<Step>, key: Key, list: seq<Change>)
    requires Running(w, key, list)
    requires Possible(Advance, Besides(key), w, steps)
    ensures Running(Run(Advance, w, steps), key, list)
  {
    var inv := w => Running(w, key, list);
    forall w, step | inv(w) && Besides(key)(w, step)
      ensures inv(Advance(w, step))
    {
      OtherStepsKeepRunning(w, key, list, step);
    }
    RunKeeps(Advance, Besides(key), inv, w, steps);
  }

  /** The key was used, and does not name a running test. */
  ghost predicate Dead(w: World, key: Key) {
    Good(w) && key in w.handed && Main(w).key != Some(key)
  }

  lemma DeadKeyStaysDead(w: World, key: Key, step: Step)
    requires Dead(w, key) && CanHappen(w, step)
    ensures Dead(Advance(w, step), key)
  {
    AdvanceIsGood(w, step);
    match step
    case Submit(change) => Additions.AddKeepsHead(w.queue.deps, change);
    case Ask(freshKey) =>
    case Report(k, ok) => ReportGivesNoKey(w, k, ok);
  }

  /** A report ends the running test or changes nothing; it hands nothing out. */
  lemma ReportGivesNoKey(w: World, key: Option<Key>, ok: bool)
    requires Good(w)
    ensures var w' := Advance(w, Report(key, ok));
      (Main(w').key == Main(w).key || Main(w').key.None?) && w'.handed == w.handed
  {
    ReportOutcome(w, key, ok);
    Bisection.ReportKeepsShape(Main(w), key, ok);
  }

  lemma DeadForever(w: World, key: Key, steps: seq<Step>)
    requires Dead(w, key) && Possible(Advance, CanHappen, w, steps)
    ensures Dead(Run(Advance, w, steps), key)
  {
    var inv := w => Dead(w, key);
    forall w, step | inv(w) && CanHappen(w, step)
      ensures inv(Advance(w, step))
    {
      DeadKeyStaysDead(w, key, step);
    }
    RunKeeps(Advance, CanHappen, inv, w, steps);
  }

  lemma AnswerKillsKey(w: World, key: Key, ok: bool)
    requires Good(w) && Main(w).key == Some(key)
    ensures Dead(Advance(w, Report(Some(key), ok)), key)
  {
    AdvanceIsGood(w, Report(Some(key), ok));
    ReportOutcome(w, Some(key), ok);
    Bisection.ReportKeepsShape(Main(w), Some(key), ok);
  }

  /** Once answered, a key is dead: a repeated result changes nothing, at any later time. */
  lemma AnswerCountsOnce(w: World, key: Key, ok: bool, steps: seq<Step>, again: bool)
    requires Good(w) && Main(w).key == Some(key)
    requires Possible(Advance, CanHappen, Advance(w, Report(Some(key), ok)), steps)
    ensures var w' := Run(Advance, Advance(w, Report(Some(key), ok)), steps);
      Advance(w', Report(Some(key), again)) == w'
  {
    var w1 := Advance(w, Report(Some(key), ok));
    AnswerKillsKey(w, key, ok);
    DeadForever(w1, key, steps);
    StaleReportIsIgnored(Run(Advance, w1, steps), Some(key), again);
  }

  // ---- Soundness of the search ----

  /** No bad change passed, no good change was named a culprit, and the list a search
      narrows down holds a bad change. */
  ghost predicate Truthful(w: World, bad: set<Change>) {
    && Bisection.Justified(Main(w), bad)
    && !HasBad(w.passed, bad)
    && (forall i :: 0 <= i < |w.events| && w.events[i].Culprit? ==> w.events[i].change in bad)
  }

  lemma AdvanceIsTruthful(w: World, step: Step, bad: set<Change>)
    requires Good(w) && Truthful(w, bad) && Honest(w, step, bad)
    ensures Truthful(Advance(w, step), bad)
  {
    match step
    case Submit(change) => Additions.AddKeepsHead(w.queue.deps, change);
    case Ask(freshKey) => Bisection.NextTestKeepsShape(Main(w), freshKey);
    case Report(key, ok) => ReportIsTruthful(w, key, ok, bad);
  }

  lemma ReportIsTruthful(w: World, key: Option<Key>, ok: bool, bad: set<Change>)
    requires Good(w) && Truthful(w, bad) && Honest(w, Report(key, ok), bad)
    ensures Truthful(Advance(w, Report(key, ok)), bad)
  {
    var v := Streams.OnReport(w.queue, key, ok).1;
    Bisection.HonestReportIsSound(Main(w), key, ok, bad);
    ReportOutcome(w, key, ok);
    RecordedTruthfully(w.events, v, bad);
    assert !HasBad(w.passed + v.passed, bad);
  }

  lemma RecordedTruthfully(events: seq<Event>, v: Verdict, bad: set<Change>)
    requires forall i :: 0 <= i < |events| && events[i].Culprit? ==> events[i].change in bad
    requires v.failed != [] ==> v.failed[0] in bad
    ensures var events' := Recorded(events, v);
      forall i :: 0 <= i < |events'| && events'[i].Culprit? ==> events'[i].change in bad
  {
  }

  /** Everything that can happen when reports are honest. */
  ghost function Honestly(bad: set<Change>): (World, Step) -> bool {
    (w, step) => CanHappen(w, step) && Honest(w, step, bad)
  }

  /** When tests fail exactly for lists with a bad change, no run passes a bad change or
      names a good change as culprit, although some lists are failed untested. */
  lemma SearchIsSound(steps: seq<Step>, bad: set<Change>)
    requires Possible(Advance, Honestly(bad), START, steps)
    ensures Truthful(Reached(steps), bad)
  {
    var inv := w => Good(w) && Truthful(w, bad);
    forall w, step | inv(w) && Honestly(bad)(w, step)
      ensures inv(Advance(w, step))
    {
      AdvanceIsGood(w, step);
      AdvanceIsTruthful(w, step, bad);
    }
    RunKeeps(Advance, Honestly(bad), inv, START, steps);
  }

  // ---- Length of the search ----

  /** What a step does for a search: a report that answers the running test either names
      a culprit or narrows the search down. */
  ghost function Answer(w: World, step: Step): Mark {
    if !step.Report? || !Bisection.Matches(Main(w), step.key) || Main(w).sections == [] then Idle
    else if Streams.OnReport(w.queue, step.key, step.passed).1.failed != [] then Done
    else Closer
  }

  ghost predicate Searching(w: World) {
    Good(w) && Bisection.Seeking(Main(w))
  }

  ghost function TestsLeft(w: World): nat {
    Bisection.TestsLeft(Main(w))
  }

  lemma StepNarrowsSearch(w: World, step: Step)
    requires Searching(w) && !Answer(w, step).Done?
    ensures var w' := Advance(w, step);
      Searching(w') && TestsLeft(w') <= TestsLeft(w) - if Answer(w, step).Closer? then 1 else 0
  {
    AdvanceIsGood(w, step);
    match step
    case Submit(change) => Additions.AddKeepsHead(w.queue.deps, change);
    case Ask(freshKey) => Bisection.NextTestKeepsShape(Main(w), freshKey);
    case Report(key, ok) =>
      if Bisection.Matches(Main(w), key) {
        Bisection.ReportAdvancesSearch(Main(w), key, ok);
        ReportOutcome(w, key, ok);
      } else {
        StaleReportIsIgnored(w, key, ok);
      }
  }

  lemma SearchEnds(w: World, steps: seq<Step>)
    requires Searching(w) && Possible(Advance, CanHappen, w, steps)
    requires Efforts(Marks(Advance, Answer, w, steps)) >= TestsLeft(w)
    ensures DoneWithin(Marks(Advance, Answer, w, steps), TestsLeft(w))
  {
    forall w, step | Searching(w) && CanHappen(w, step) && !Answer(w, step).Done?
      ensures Searching(Advance(w, step))
      ensures TestsLeft(Advance(w, step)) <= TestsLeft(w) - if Answer(w, step).Closer? then 1 else 0
    {
      StepNarrowsSearch(w, step);
    }
    EffortsReachGoal(Advance, CanHappen, Searching, Answer, TestsLeft, w, steps);
  }

  /** Once a list of n changes that was handed out fails, the culprit is named at once, if
      it is the whole list, or by one of the next ceil(log2 n) answered tests, whatever
      their results and whatever else happens to the queue meanwhile. */
  lemma SearchIsLogarithmic(w: World, key: Key, list: seq<Change>, steps: seq<Step>)
    requires Running(w, key, list)
    requires Possible(Advance, CanHappen, Advance(w, Report(Some(key), false)), steps)
    ensures var fails := Report(Some(key), false);
      var marks := Marks(Advance, Answer, Advance(w, fails), steps);
      var bound := Bisection.CeilLog2(|list|);
      if |list| == 1 then Answer(w, fails).Done?
      else Efforts(marks) >= bound ==> DoneWithin(marks, bound)
  {
    var fails := Report(Some(key), false);
    Bisection.FailureKeepsShape(Main(w), Some(key));
    ReportOutcome(w, Some(key), false);
    AdvanceIsGood(w, fails);
    if |list| != 1 && Efforts(Marks(Advance, Answer, Advance(w, fails), steps)) >= Bisection.CeilLog2(|list|) {
      SearchEnds(Advance(w, fails), steps);
    }
  }
}
