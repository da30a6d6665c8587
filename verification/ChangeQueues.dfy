/** The queues as objects. A queue holds the queue class it extends as an object, so that
    the inherited fields and methods are those of that object. */
module ChangeQueues {
  import opened Wrappers
  import opened Sequences
  import opened QueueTypes
  import Bisection
  import opened Dependencies
  import opened DependantSearch
  import opened QueueLoops
  import Streams

  /** The plain queue. */
  class ChangeQueue {
    var state: seq<seq<Change>>
    var testKey: Option<Key>

    ghost function View(): Bisection.Queue
      reads this
    {
      Bisection.Queue(state, testKey)
    }

    constructor ()
      ensures View() == Bisection.EMPTY
    {
      state := [[]];
      testKey := None;
    }

    /** A queue with the sections given, or a new one, and with the key of a running test. It
        is an error to give a key for fewer than two sections. */
    static method FromState(initial: Option<seq<seq<Change>>>, key: Option<Key>) returns (r: Option<ChangeQueue>)
      ensures var sections := if initial.Some? then initial.value else [[]];
        && (r.None? <==> key.Some? && |sections| < 2)
        && (r.Some? ==> fresh(r.value) && r.value.View() == Bisection.Queue(sections, key))
    {
      var queue := new ChangeQueue();
      if initial.Some? {
        queue.state := initial.value;
      }
      if key.Some? && |queue.state| < 2 {
        return None;
      }
      queue.testKey := key;
      r := Some(queue);
    }

    method Add(change: Change)
      requires state != []
      modifies this
      ensures View() == Bisection.Add(old(View()), change)
    {
      var last := |state| - 1;
      state := state[last := state[last] + [change]];
    }

    /** The fresh key stands for the identifier that would be drawn at random. */
    method GetNextTest(freshKey: Key) returns (key: Option<Key>, changes: seq<Change>)
      requires state != []
      modifies this
      ensures (View(), (key, changes)) == Bisection.NextTest(old(View()), freshKey)
    {
      changes := state[0];
      if changes != [] {
        if |state| <= 1 {
          state := state + [[]];
        }
        if testKey == None {
          testKey := Some(freshKey);
        }
      }
      key := testKey;
    }

    predicate TestKeyMatch(key: Option<Key>)
      reads this
      ensures TestKeyMatch(key) == Bisection.Matches(View(), key)
    {
      key != None && key == testKey
    }

    method OnTestSuccess(key: Option<Key>) returns (v: Verdict)
      requires state != []
      modifies this
      ensures (View(), v) == Bisection.OnSuccess(old(View()), key)
    {
      if !TestKeyMatch(key) {
        return NOTHING;
      }
      var passed := state[0];
      state := state[1..];
      v := NOTHING;
      if |state| > 1 {
        v := OnTestFailure(key);
      }
      testKey := None;
      v := v.(passed := passed);
    }

    method OnTestFailure(key: Option<Key>) returns (v: Verdict)
      requires state != []
      modifies this
      ensures (View(), v) == Bisection.OnFailure(old(View()), key)
    {
      if !TestKeyMatch(key) {
        return NOTHING;
      }
      testKey := None;
      var failed := state[0];
      state := state[1..];
      if |failed| == 1 {
        state := [Bisection.Flat(state)];
        return Verdict([], failed, Some(failed[0]));
      }
      state := [failed[..|failed| / 2], failed[|failed| / 2..]] + state;
      return NOTHING;
    }
  }

  /** The queue with dependencies. */
  class ChangeQueueWithDeps {
    const base: ChangeQueue
    var awaitingDeps: seq<Waiting>

    ghost function View(): Queue
      reads this, base
    {
      Queue(base.View(), awaitingDeps)
    }

    constructor ()
      ensures fresh(base) && View() == Dependencies.EMPTY
    {
      base := new ChangeQueue();
      awaitingDeps := [];
    }

    method Add(change: Change) returns (added: seq<Change>, rejected: seq<Change>)
      requires base.state != []
      modifies this, base
      ensures (View(), added, rejected) == Dependencies.Add(old(View()), change)
    {
      ghost var before := View();
      var ids := FindDependantsOn(change.id, [change] + Changes(awaitingDeps));
      var missing := Missing(Bisection.Queue(base.state, base.testKey), change);
      var dependants := RemoveAwaitingDepsByIds(ids);
      dependants := [Waiting(change, missing)] + dependants;
      if change.id in ids {
        return [], Changes(dependants);
      }
      added, rejected := [], [];
      var addedIds: set<Id> := {};
      ghost var rest := View();
      for i := 0 to |dependants|
        invariant base.state != []
        invariant addedIds == Ids(added)
        invariant Admit(View(), dependants[i..], added) == Admit(rest, dependants, [])
      {
        var w := dependants[i];
        assert dependants[i..][1..] == dependants[i + 1..];
        var missing := w.missing - addedIds;
        if missing != {} {
          awaitingDeps := awaitingDeps + [Waiting(w.change, missing)];
        } else {
          base.Add(w.change);
          added := added + [w.change];
          addedIds := addedIds + {w.change.id};
          IdsOfConcat(added[..|added| - 1], [w.change]);
          assert added[..|added| - 1] + [w.change] == added && w.change in [w.change];
        }
      }
    }

    method RemoveAwaitingDepsByIds(ids: set<Id>) returns (removed: seq<Waiting>)
      modifies this`awaitingDeps
      ensures awaitingDeps == WaitingWithout(old(awaitingDeps), ids)
      ensures removed == WaitingOnly(old(awaitingDeps), ids)
    {
      var kept: seq<Waiting> := [];
      removed := [];
      for i := 0 to |awaitingDeps|
        invariant awaitingDeps == old(awaitingDeps)
        invariant kept + WaitingWithout(awaitingDeps[i..], ids) == WaitingWithout(awaitingDeps, ids)
        invariant removed + WaitingOnly(awaitingDeps[i..], ids) == WaitingOnly(awaitingDeps, ids)
      {
        var w := awaitingDeps[i];
        assert awaitingDeps[i..][1..] == awaitingDeps[i + 1..];
        if w.change.id in ids {
          removed := removed + [w];
        } else {
          kept := kept + [w];
        }
      }
      awaitingDeps := kept;
    }

    method OnTestSuccess(key: Option<Key>) returns (v: Verdict)
      requires base.state != []
      modifies this, base
      ensures (View(), v) == Dependencies.OnSuccess(old(View()), key)
    {
      if !base.TestKeyMatch(key) {
        return NOTHING;
      }
      var passed := base.state[0];
      base.state := base.state[1..];
      v := NOTHING;
      if |base.state| > 1 {
        v := OnTestFailure(key);
      }
      base.testKey := None;
      v := v.(passed := passed);
    }

    method OnTestFailure(key: Option<Key>) returns (v: Verdict)
      requires base.state != []
      modifies this, base
      ensures (View(), v) == Dependencies.OnFailure(old(View()), key)
    {
      v := base.OnTestFailure(key);
      ghost var reported := View();
      var failed := v.failed;
      var gone: seq<Change> := [];
      PruneStarts(reported, failed);
      for i := 0 to |failed|
        invariant Pruned(reported, failed, gone, i, View())
      {
        ghost var now := View();
        PruneNext(reported, failed, gone, i, now);
        var ids := FindDependantsOn(failed[i].id, Bisection.Flat(base.state) + Changes(awaitingDeps));
        var queued := RemoveDepsByIds(ids);
        var waiting := RemoveAwaitingDepsByIds(ids);
        assert (View(), queued + Changes(waiting)) == Prune(now, ids);
        gone := gone + (queued + Changes(waiting));
      }
      PruneEnds(reported, failed, gone, View());
      v := v.(failed := failed + gone);
    }

    method RemoveDepsByIds(ids: set<Id>) returns (removed: seq<Change>)
      modifies base`state
      ensures base.state == SectionsWithout(old(base.state), ids)
      ensures removed == SectionsOnly(old(base.state), ids)
    {
      removed := [];
      for i := 0 to |base.state|
        invariant |base.state| == |old(base.state)|
        invariant forall j :: 0 <= j < i ==> base.state[j] == Without(old(base.state[j]), ids)
        invariant base.state[i..] == old(base.state)[i..]
        invariant removed + SectionsOnly(base.state[i..], ids) == SectionsOnly(old(base.state), ids)
      {
        ghost var rest := base.state[i + 1..];
        RestOfRest(base.state, i);
        var kept, gone := Partition(base.state[i], ids);
        Regroup(removed, gone, SectionsOnly(rest, ids));
        base.state := base.state[i := kept];
        assert base.state[i + 1..] == rest;
        removed := removed + gone;
      }
    }
  }

  method Partition(changes: seq<Change>, ids: set<Id>) returns (kept: seq<Change>, gone: seq<Change>)
    ensures kept == Without(changes, ids) && gone == Only(changes, ids)
  {
    kept, gone := [], [];
    for i := 0 to |changes|
      invariant kept + Without(changes[i..], ids) == Without(changes, ids)
      invariant gone + Only(changes[i..], ids) == Only(changes, ids)
    {
      PartitionNext(changes, i, ids, kept, gone);
      if changes[i].id in ids {
        gone := gone + [changes[i]];
      } else {
        kept := kept + [changes[i]];
      }
    }
  }
}
