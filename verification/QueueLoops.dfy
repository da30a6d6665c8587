/** The steps of the loops over the queue with dependencies. */
module QueueLoops {
  import opened Wrappers
  import opened Sequences
  import opened QueueTypes
  import opened Dependencies

  /** The first failed changes have been pruned with these results. */
  ghost predicate Pruned(q: Queue, failed: seq<Change>, gone: seq<Change>, i: nat, now: Queue) {
    i <= |failed| && var (q', more) := PruneAll(now, failed[i..]); (q', gone + more) == PruneAll(q, failed)
  }

  lemma PruneStarts(q: Queue, failed: seq<Change>)
    ensures Pruned(q, failed, [], 0, q)
  {
    assert failed[0..] == failed && [] + PruneAll(q, failed).1 == PruneAll(q, failed).1;
  }

  lemma PruneNext(q: Queue, failed: seq<Change>, gone: seq<Change>, i: nat, now: Queue)
    requires Pruned(q, failed, gone, i, now) && i < |failed|
    ensures var (q', more) := Prune(now, Dependants(failed[i].id, Queued(now) + Changes(now.waiting)));
      Pruned(q, failed, gone + more, i + 1, q')
  {
    var (q', more) := Prune(now, Dependants(failed[i].id, Queued(now) + Changes(now.waiting)));
    RestOfRest(failed, i);
    Regroup(gone, more, PruneAll(q', failed[i + 1..]).1);
  }

  lemma PruneEnds(q: Queue, failed: seq<Change>, gone: seq<Change>, now: Queue)
    requires Pruned(q, failed, gone, |failed|, now)
    ensures (now, gone) == PruneAll(q, failed)
  {
    assert failed[|failed|..] == [] && gone + [] == gone;
  }

  lemma PartitionNext(changes: seq<Change>, i: nat, ids: set<Id>, kept: seq<Change>, gone: seq<Change>)
    requires i < |changes|
    ensures var c, rest := changes[i], changes[i + 1..];
      && kept + Without(changes[i..], ids) == (if c.id in ids then kept else kept + [c]) + Without(rest, ids)
      && gone + Only(changes[i..], ids) == (if c.id in ids then gone + [c] else gone) + Only(rest, ids)
  {
    RestOfRest(changes, i);
    Regroup(kept, [changes[i]], Without(changes[i + 1..], ids));
    Regroup(gone, [changes[i]], Only(changes[i + 1..], ids));
  }
}
