/** The queue with dependencies: a change whose requirements are not queued waits in
    a side queue, and goes down with the changes it requires. */
module Dependencies {
  import opened Wrappers
  import opened Sequences
  import opened QueueTypes
  import Bisection

  /** A change in the side queue, with the requirements it still waits for. */
  datatype Waiting = Waiting(change: Change, missing: set<Id>)

  datatype Queue = Queue(main: Bisection.Queue, waiting: seq<Waiting>)

  const EMPTY := Queue(Bisection.EMPTY, [])

  function Queued(q: Queue): seq<Change> {
    Bisection.Flat(q.main.sections)
  }

  function Changes(waiting: seq<Waiting>): seq<Change> {
    seq(|waiting|, i requires 0 <= i < |waiting| => waiting[i].change)
  }

  // ---- Dependants ----

  predicate Requires(change: Change, ids: set<Id>) {
    !(change.requirements !! ids)
  }

  /** Whatever requires the root, or an id in the set, has its own id in the set. */
  ghost predicate Closed(ids: set<Id>, root: Id, changes: seq<Change>) {
    forall c :: c in changes && Requires(c, ids + {root}) ==> c.id in ids
  }

  /** The ids of the changes that require the root, directly or through other changes:
      the least closed set. */
  ghost function Dependants(root: Id, changes: seq<Change>): set<Id> {
    set d | d in Ids(changes) && forall ids: set<Id> :: Closed(ids, root, changes) ==> d in ids
  }

  lemma DependantsClosed(root: Id, changes: seq<Change>)
    ensures Closed(Dependants(root, changes), root, changes)
  {
  }

  lemma DependantsLeast(ids: set<Id>, root: Id, changes: seq<Change>)
    requires Closed(ids, root, changes)
    ensures Dependants(root, changes) <= ids
  {
  }

  /** A chain of changes: the first requires the root, each next one requires the one
      before it, and the last one has the given id. */
  ghost predicate Chain(path: seq<Change>, root: Id, end: Id, changes: seq<Change>) {
    && path != []
    && (forall i :: 0 <= i < |path| ==> path[i] in changes)
    && root in path[0].requirements
    && (forall i :: 1 <= i < |path| ==> path[i - 1].id in path[i].requirements)
    && path[|path| - 1].id == end
  }

  ghost predicate ChainLeads(root: Id, end: Id, changes: seq<Change>) {
    exists path :: Chain(path, root, end, changes)
  }

  /** The least closed set is the set of ends of chains. */
  lemma DependantsAreChainEnds(root: Id, end: Id, changes: seq<Change>)
    ensures end in Dependants(root, changes) <==> exists path :: Chain(path, root, end, changes)
  {
    if path :| Chain(path, root, end, changes) {
      ChainEndDepends(path, root, end, changes);
    }
    var ends := set d | d in Ids(changes) && exists path :: Chain(path, root, d, changes);
    forall c | c in changes && Requires(c, ends + {root})
      ensures c.id in ends
    {
      if root in c.requirements {
        assert Chain([c], root, c.id, changes);
      } else {
        var d :| d in c.requirements && d in ends;
        var path :| Chain(path, root, d, changes);
        assert Chain(path + [c], root, c.id, changes);
      }
    }
    DependantsLeast(ends, root, changes);
  }

  lemma {:induction false} ChainEndDepends(path: seq<Change>, root: Id, end: Id, changes: seq<Change>)
    requires Chain(path, root, end, changes)
    ensures end in Dependants(root, changes)
  {
    DependantsClosed(root, changes);
    var last := |path| - 1;
    assert path[last] in changes;
    if last > 0 {
      var d := path[last - 1].id;
      ChainEndDepends(path[..last], root, d, changes);
      assert d in path[last].requirements;
    }
  }

  // ---- Removal by id ----

  ghost function Without(changes: seq<Change>, ids: set<Id>): seq<Change> {
    Filter(changes, (c: Change) => c.id !in ids)
  }

  ghost function Only(changes: seq<Change>, ids: set<Id>): seq<Change> {
    Filter(changes, (c: Change) => c.id in ids)
  }

  ghost function WaitingWithout(waiting: seq<Waiting>, ids: set<Id>): seq<Waiting> {
    Filter(waiting, (w: Waiting) => w.change.id !in ids)
  }

  ghost function WaitingOnly(waiting: seq<Waiting>, ids: set<Id>): seq<Waiting> {
    Filter(waiting, (w: Waiting) => w.change.id in ids)
  }

  // ---- The operations ----

  function Missing(main: Bisection.Queue, change: Change): set<Id> {
    change.requirements - Ids(Bisection.Flat(main.sections))
  }

  /** A change with nothing missing enters the main queue, any other one waits. */
  ghost function AdmitOne(q: Queue, w: Waiting, entered: seq<Change>): (Queue, seq<Change>)
    requires q.main.sections != []
  {
    var missing := w.missing - Ids(entered);
    if missing == {} then (q.(main := Bisection.Add(q.main, w.change)), entered + [w.change])
    else (q.(waiting := q.waiting + [Waiting(w.change, missing)]), entered)
  }

  /** Take changes one by one; what enters is no longer missing for those that follow. */
  ghost function Admit(q: Queue, candidates: seq<Waiting>, entered: seq<Change>): (Queue, seq<Change>)
    requires q.main.sections != []
    decreases |candidates|
  {
    if candidates == [] then (q, entered)
    else
      var (q', entered') := AdmitOne(q, candidates[0], entered);
      Admit(q', candidates[1..], entered')
  }

  /** The ids of what requires the change, among the waiting changes and itself. */
  ghost function DependantsOnNew(q: Queue, change: Change): set<Id> {
    Dependants(change.id, [change] + Changes(q.waiting))
  }

  /** The queue after an addition, the changes that entered the main queue, and the
      changes rejected for requiring themselves. */
  ghost function Add(q: Queue, change: Change): (Queue, seq<Change>, seq<Change>)
    requires q.main.sections != []
  {
    var ids := DependantsOnNew(q, change);
    var rest := q.(waiting := WaitingWithout(q.waiting, ids));
    var candidates := [Waiting(change, Missing(q.main, change))] + WaitingOnly(q.waiting, ids);
    if change.id in ids then (rest, [], Changes(candidates))
    else
      var (q', entered) := Admit(rest, candidates, []);
      (q', entered, [])
  }

  ghost function Prune(q: Queue, ids: set<Id>): (Queue, seq<Change>) {
    (Queue(q.main.(sections := SectionsWithout(q.main.sections, ids)), WaitingWithout(q.waiting, ids)),
     SectionsOnly(q.main.sections, ids) + Changes(WaitingOnly(q.waiting, ids)))
  }

  ghost function SectionsWithout(sections: seq<seq<Change>>, ids: set<Id>): seq<seq<Change>> {
    seq(|sections|, i requires 0 <= i < |sections| => Without(sections[i], ids))
  }

  ghost function SectionsOnly(sections: seq<seq<Change>>, ids: set<Id>): seq<Change> {
    if sections == [] then [] else Only(sections[0], ids) + SectionsOnly(sections[1..], ids)
  }

  /** The dependants of every failed change go down with it. */
  ghost function PruneAll(q: Queue, failed: seq<Change>): (Queue, seq<Change>)
    decreases |failed|
  {
    if failed == [] then (q, [])
    else
      var (q1, gone) := Prune(q, Dependants(failed[0].id, Queued(q) + Changes(q.waiting)));
      var (q2, more) := PruneAll(q1, failed[1..]);
      (q2, gone + more)
  }

  ghost function OnFailure(q: Queue, key: Option<Key>): (Queue, Verdict)
    requires q.main.sections != []
  {
    var (main, v) := Bisection.OnFailure(q.main, key);
    var (q', gone) := PruneAll(q.(main := main), v.failed);
    (q', v.(failed := v.failed + gone))
  }

  ghost function OnSuccess(q: Queue, key: Option<Key>): (Queue, Verdict)
    requires q.main.sections != []
  {
    var head, rest := q.main.sections[0], q.main.sections[1..];
    if !Bisection.Matches(q.main, key) then (q, NOTHING)
    else if |rest| > 1 then
      var (q', v) := OnFailure(q.(main := Bisection.Queue(rest, key)), key);
      (q'.(main := q'.main.(key := None)), Verdict(head, v.failed, v.cause))
    else (q.(main := Bisection.Queue(rest, None)), Verdict(head, [], None))
  }

  ghost function OnReport(q: Queue, key: Option<Key>, passed: bool): (Queue, Verdict)
    requires q.main.sections != []
  {
    if passed then OnSuccess(q, key) else OnFailure(q, key)
  }
}
