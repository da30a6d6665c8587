/** The combined queue as an object: streams over dependencies over the plain queue. */
module JenkinsQueues {
  import opened Wrappers
  import opened QueueTypes
  import opened ChangeQueues
  import opened QueueRuns
  import opened QueueTheorems
  import Bisection
  import Dependencies
  import Streams

  class JenkinsChangeQueue {
    const deps: ChangeQueueWithDeps
    var streamMap: map<StreamId, Change>
    // The run so far, and what happened in it.
    ghost var steps: seq<Step>
    ghost var history: World

    ghost function View(): Streams.Queue
      reads this, deps, deps.base
    {
      Streams.Queue(deps.View(), streamMap)
    }

    /** The calls so far are a run from the empty queue, which ends in the present state;
        so the state has the invariant of all runs. */
    ghost predicate Valid()
      reads this, deps, deps.base
    {
      IsRun(steps) && history == Reached(steps) && history.queue == View() && Good(history)
    }

    constructor ()
      ensures Valid() && steps == []
      ensures fresh(deps) && fresh(deps.base)
    {
      deps := new ChangeQueueWithDeps();
      streamMap := map[];
      steps := [];
      history := START;
      new;
    }

    /** What a call does goes on record as one more step of the run. */
    ghost method Record(step: Step)
      requires IsRun(steps) && history == Reached(steps) && CanHappen(history, step)
      modifies this`steps, this`history
      ensures steps == old(steps) + [step] && history == Advance(old(history), step)
      ensures IsRun(steps) && history == Reached(steps) && Good(history)
    {
      RunContinues(steps, step);
      EveryRunIsGood(steps + [step]);
      steps := steps + [step];
      history := Advance(history, step);
    }

    method Add(change: Change) returns (added: seq<Change>, rejected: seq<Change>)
      requires Valid()
      modifies this, deps, deps.base
      ensures Valid() && steps == old(steps) + [Submit(change)]
      ensures history == Advance(old(history), Submit(change))
      ensures (View().deps, added, rejected) == Dependencies.Add(old(View()).deps, change)
    {
      added, rejected := deps.Add(change);
      Record(Submit(change));
    }

    method GetNextTest(freshKey: Key) returns (key: Option<Key>, changes: seq<Change>)
      requires Valid() && freshKey !in history.handed
      modifies this, deps.base
      ensures Valid() && steps == old(steps) + [Ask(freshKey)]
      ensures history == Advance(old(history), Ask(freshKey))
      ensures key.Some? ==> key.value in history.handed && changes == history.handed[key.value]
      ensures key.None? ==> changes == [] && View() == old(View())
    {
      Bisection.NextTestKeepsShape(Main(history), freshKey);
      key, changes := deps.base.GetNextTest(freshKey);
      Record(Ask(freshKey));
    }

    /** The first cause of the failing stream of a culprit is the one to blame; a culprit
        of a stream that was not failing becomes its first cause. */
    method GetCauseFromStream(culprit: Option<Change>) returns (cause: Option<Change>)
      modifies this`streamMap
      ensures (streamMap, cause) == Streams.Blame(old(streamMap), culprit)
    {
      if culprit == None || culprit.value.stream == None {
        return culprit;
      }
      var s := culprit.value.stream.value;
      if s !in streamMap {
        streamMap := streamMap[s := culprit.value];
      }
      cause := Some(streamMap[s]);
    }

    method OnTestFailure(key: Option<Key>) returns (v: Verdict)
      requires Valid()
      modifies this, deps, deps.base
      ensures Valid() && steps == old(steps) + [Report(key, false)]
      ensures history == Advance(old(history), Report(key, false))
      ensures v == Streams.OnReport(old(View()), key, false).1
    {
      v := deps.OnTestFailure(key);
      var cause := GetCauseFromStream(v.cause);
      v := v.(cause := cause);
      Record(Report(key, false));
    }

    /** The culprit found by failing untested is the one of the queue with dependencies:
        its stream is looked up only after the streams that passed were cleared. */
    method OnTestSuccess(key: Option<Key>) returns (v: Verdict)
      requires Valid()
      modifies this, deps, deps.base
      ensures Valid() && steps == old(steps) + [Report(key, true)]
      ensures history == Advance(old(history), Report(key, true))
      ensures v == Streams.OnReport(old(View()), key, true).1
    {
      v := deps.OnTestSuccess(key);
      ClearStreams(v.passed);
      var cause := GetCauseFromStream(v.cause);
      v := v.(cause := cause);
      Record(Report(key, true));
    }

    method ClearStreams(passed: seq<Change>)
      modifies this`streamMap
      ensures streamMap == Streams.Recovered(old(streamMap), passed)
    {
      for i := 0 to |passed|
        invariant streamMap == Streams.Recovered(old(streamMap), passed[..i])
      {
        var s := passed[i].stream;
        if s != None {
          streamMap := streamMap - {s.value};
        }
        assert passed[..i + 1] == passed[..i] + [passed[i]];
      }
      assert passed[..|passed|] == passed;
    }
  }

  /** Fill a new queue: every change is queued, waiting or rejected, and each requirement of
      a queued change is in front of it. */
  method Submitting(changes: seq<Change>) returns (q: JenkinsChangeQueue)
    ensures fresh(q) && fresh(q.deps) && fresh(q.deps.base) && q.Valid()
    ensures Filled(q.history, changes)
  {
    q := new JenkinsChangeQueue();
    for n := 0 to |changes|
      invariant fresh(q) && fresh(q.deps) && fresh(q.deps.base) && q.Valid()
      invariant Untested(q.history, changes[..n])
    {
      SubmissionIsUntested(q.history, changes, n);
      var _, _ := q.Add(changes[n]);
    }
    assert changes[..|changes|] == changes;
    UntestedRunFills(q.steps, changes);
  }

  ghost predicate Untested(w: World, submitted: seq<Change>) {
    w.submitted == submitted && w.passed == [] && w.failed == []
  }

  ghost predicate Filled(w: World, submitted: seq<Change>) {
    && multiset(submitted) == multiset(Queued(w)) + multiset(Waits(w)) + multiset(w.rejected)
    && forall i, r :: 0 <= i < |Queued(w)| && r in Queued(w)[i].requirements ==> r in Ids(Queued(w)[..i])
  }

  lemma SubmissionIsUntested(w: World, changes: seq<Change>, n: nat)
    requires Good(w) && n < |changes| && Untested(w, changes[..n])
    ensures Untested(Advance(w, Submit(changes[n])), changes[..n + 1])
  {
    assert changes[..n + 1] == changes[..n] + [changes[n]];
  }

  /** As long as nothing was tested, nothing leaves the queue but by rejection. */
  lemma UntestedRunFills(steps: seq<Step>, changes: seq<Change>)
    requires IsRun(steps) && Untested(Reached(steps), changes)
    ensures Filled(Reached(steps), changes)
  {
    var w := Reached(steps);
    NothingIsLost(steps);
    forall i, r | 0 <= i < |Queued(w)| && r in Queued(w)[i].requirements
      ensures r in Ids(Queued(w)[..i])
    {
      RequirementsComeFirst(steps, i, r);
    }
  }
}
