/** The queue with streams on top of dependencies: a failure in a stream that is already
    failing is blamed on the change that made the stream fail. */
module Streams {
  import opened Wrappers
  import opened QueueTypes
  import Dependencies

  datatype Queue = Queue(deps: Dependencies.Queue, streams: map<StreamId, Change>)

  const EMPTY := Queue(Dependencies.EMPTY, map[])

  ghost function StreamsOf(changes: seq<Change>): set<StreamId> {
    set c | c in changes && c.stream.Some? :: c.stream.value
  }

  /** The change to blame for a culprit, and the streams once the culprit is known. */
  function Blame(streams: map<StreamId, Change>, culprit: Option<Change>): (map<StreamId, Change>, Option<Change>) {
    if culprit.None? || culprit.value.stream.None? then (streams, culprit)
    else
      var s := culprit.value.stream.value;
      if s in streams then (streams, Some(streams[s]))
      else (streams[s := culprit.value], culprit)
  }

  /** The streams of the changes that passed are no longer failing. */
  ghost function Recovered(streams: map<StreamId, Change>, passed: seq<Change>): map<StreamId, Change> {
    streams - StreamsOf(passed)
  }

  ghost function OnFailure(q: Queue, key: Option<Key>): (Queue, Verdict)
    requires q.deps.main.sections != []
  {
    var (deps, v) := Dependencies.OnFailure(q.deps, key);
    var (streams, cause) := Blame(q.streams, v.cause);
    (Queue(deps, streams), v.(cause := cause))
  }

  ghost function OnSuccess(q: Queue, key: Option<Key>): (Queue, Verdict)
    requires q.deps.main.sections != []
  {
    var (deps, v) := Dependencies.OnSuccess(q.deps, key);
    var (streams, cause) := Blame(Recovered(q.streams, v.passed), v.cause);
    (Queue(deps, streams), v.(cause := cause))
  }

  ghost function OnReport(q: Queue, key: Option<Key>, passed: bool): (Queue, Verdict)
    requires q.deps.main.sections != []
  {
    if passed then OnSuccess(q, key) else OnFailure(q, key)
  }

  /** Both results forget the streams that recovered before they blame a change. */
  lemma ReportBlames(q: Queue, key: Option<Key>, passed: bool)
    requires q.deps.main.sections != []
    requires !passed ==> Dependencies.OnFailure(q.deps, key).1.passed == []
    ensures var (deps, v) := Dependencies.OnReport(q.deps, key, passed);
      var (streams, cause) := Blame(Recovered(q.streams, v.passed), v.cause);
      OnReport(q, key, passed) == (Queue(deps, streams), v.(cause := cause))
  {
    if !passed {
      assert StreamsOf([]) == {};
      assert Recovered(q.streams, []) == q.streams;
    }
  }

  // ---- The history of a stream ----

  /** What happened in tests: changes passed together, or a culprit was found. */
  datatype Event = Passed(changes: seq<Change>) | Culprit(change: Change)

  ghost predicate Clears(e: Event, s: StreamId) {
    e.Passed? && s in StreamsOf(e.changes)
  }

  ghost predicate Breaks(e: Event, s: StreamId) {
    e.Culprit? && e.change.stream == Some(s)
  }

  /** Event i is the first culprit of the stream since a change of it last passed. */
  ghost predicate StartsFailing(events: seq<Event>, s: StreamId, i: nat) {
    && i < |events|
    && Breaks(events[i], s)
    && !ClearedBetween(events, s, i, |events|)
    && (forall j: nat :: j < i && Breaks(events[j], s) ==> ClearedBetween(events, s, j, i))
  }

  ghost predicate ClearedBetween(events: seq<Event>, s: StreamId, i: nat, j: nat)
    requires j <= |events|
  {
    exists k :: i < k < j && Clears(events[k], s)
  }

  /** The stream is failing, and this change made it fail. */
  ghost predicate FailsSince(events: seq<Event>, s: StreamId, change: Change) {
    exists i: nat :: StartsFailing(events, s, i) && events[i].change == change
  }

  /** The change rightly blamed for a culprit, as of the events up to the culprit. */
  ghost predicate Blamed(events: seq<Event>, culprit: Change, cause: Change) {
    match culprit.stream
    case None => cause == culprit
    case Some(s) => FailsSince(events, s, cause)
  }

  /** The map of failing streams says of each stream exactly how it started failing. */
  ghost predicate Chronicled(streams: map<StreamId, Change>, events: seq<Event>) {
    && (forall s :: s in streams ==> FailsSince(events, s, streams[s]))
    && (forall s, change :: FailsSince(events, s, change) ==> s in streams)
  }

  /** A stream fails since one event at most. */
  lemma StartIsUnique(events: seq<Event>, s: StreamId, i: nat, j: nat)
    requires StartsFailing(events, s, i) && StartsFailing(events, s, j)
    ensures i == j
  {
  }

  lemma ClearedEarlier(events: seq<Event>, e: Event, s: StreamId, i: nat, j: nat)
    requires j <= |events|
    ensures ClearedBetween(events + [e], s, i, j) == ClearedBetween(events, s, i, j)
    ensures i < |events| ==>
      ClearedBetween(events + [e], s, i, |events| + 1) == (ClearedBetween(events, s, i, |events|) || Clears(e, s))
  {
    var more := events + [e];
    assert more[|events|] == e;
    assert forall k :: 0 <= k < |events| ==> more[k] == events[k];
  }

  lemma StartSurvives(events: seq<Event>, e: Event, s: StreamId, i: nat)
    requires i < |events|
    ensures StartsFailing(events + [e], s, i) <==> StartsFailing(events, s, i) && !Clears(e, s)
  {
    var more := events + [e];
    ClearedEarlier(events, e, s, i, |events|);
    forall j: nat | j < i
      ensures Breaks(more[j], s) == Breaks(events[j], s)
      ensures ClearedBetween(more, s, j, i) == ClearedBetween(events, s, j, i)
    {
      ClearedEarlier(events, e, s, j, i);
    }
  }

  /** An event of the log starts a failing exactly when it breaks a stream that was not
      failing before it. */
  lemma StartIsFresh(events: seq<Event>, e: Event, s: StreamId)
    ensures StartsFailing(events + [e], s, |events|) <==>
              Breaks(e, s) && !exists change :: FailsSince(events, s, change)
  {
    var more, n := events + [e], |events|;
    assert more[n] == e;
    assert !ClearedBetween(more, s, n, n + 1);
    if StartsFailing(more, s, n) {
      forall i: nat | i < n && Breaks(events[i], s)
        ensures !StartsFailing(events, s, i)
      {
        assert Breaks(more[i], s);
        ClearedEarlier(events, e, s, i, n);
      }
    } else if Breaks(e, s) {
      var j: nat :| j < n && Breaks(more[j], s) && !ClearedBetween(more, s, j, n);
      ClearedEarlier(events, e, s, j, n);
      var i := EarliestStart(events, s, j);
      assert FailsSince(events, s, events[i].change);
    }
  }

  /** A culprit of a stream that did not pass since has a first such culprit. */
  lemma {:induction false} EarliestStart(events: seq<Event>, s: StreamId, j: nat) returns (i: nat)
    requires j < |events| && Breaks(events[j], s) && !ClearedBetween(events, s, j, |events|)
    ensures StartsFailing(events, s, i)
    decreases j
  {
    if StartsFailing(events, s, j) {
      i := j;
    } else {
      var k: nat :| k < j && Breaks(events[k], s) && !ClearedBetween(events, s, k, j);
      i := EarliestStart(events, s, k);
    }
  }

  lemma FailsSinceAfter(events: seq<Event>, e: Event, s: StreamId, change: Change)
    ensures FailsSince(events + [e], s, change) <==>
              || (FailsSince(events, s, change) && !Clears(e, s))
              || (Breaks(e, s) && e.change == change && !exists c :: FailsSince(events, s, c))
  {
    var more := events + [e];
    StartIsFresh(events, e, s);
    assert more[|events|] == e;
    forall i: nat | i < |events|
      ensures StartsFailing(more, s, i) <==> StartsFailing(events, s, i) && !Clears(e, s)
      ensures more[i] == events[i]
    {
      StartSurvives(events, e, s, i);
    }
    if i: nat :| StartsFailing(events, s, i) && events[i].change == change && !Clears(e, s) {
      assert StartsFailing(more, s, i);
    }
  }

  /** Forgetting the streams of what passed keeps the chronicle. */
  lemma RecoveryChronicled(streams: map<StreamId, Change>, events: seq<Event>, passed: seq<Change>)
    requires Chronicled(streams, events)
    ensures Chronicled(Recovered(streams, passed), events + [Passed(passed)])
  {
    forall s, change
      ensures FailsSince(events + [Passed(passed)], s, change) <==>
                FailsSince(events, s, change) && s !in StreamsOf(passed)
    {
      FailsSinceAfter(events, Passed(passed), s, change);
    }
  }

  /** Blaming a culprit keeps the chronicle, and blames the first culprit of its stream
      since a change of it last passed. */
  lemma BlameChronicled(streams: map<StreamId, Change>, events: seq<Event>, culprit: Change)
    requires Chronicled(streams, events)
    ensures var (streams', cause) := Blame(streams, Some(culprit));
      var events' := events + [Culprit(culprit)];
      && Chronicled(streams', events')
      && cause.Some? && Blamed(events', culprit, cause.value)
  {
    var events' := events + [Culprit(culprit)];
    forall s, change
      ensures FailsSince(events', s, change) <==> FailsSince(events, s, change) || BrokenBy(streams, s, culprit, change)
    {
      FailsSinceAfter(events, Culprit(culprit), s, change);
    }
    if culprit.stream.Some? && culprit.stream.value !in streams {
      assert BrokenBy(streams, culprit.stream.value, culprit, culprit);
    }
  }

  ghost predicate BrokenBy(streams: map<StreamId, Change>, s: StreamId, culprit: Change, change: Change) {
    culprit.stream == Some(s) && change == culprit && s !in streams
  }
}
