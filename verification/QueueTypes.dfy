/** The vocabulary shared by the layers of the change queue. */
module QueueTypes {
  import opened Wrappers

  // Identifiers, stream names and test keys are only ever compared for equality.
  type Id(==, !new)
  type StreamId(==, !new)
  type Key(==, !new)

  datatype Change = Change(id: Id, requirements: set<Id>, stream: Option<StreamId>)

  /** What a test result releases from the queue: the changes that passed, the
      changes that failed, and the change to blame. A result that is ignored, and
      a failure that only splits the queue, release nothing. */
  datatype Verdict = Verdict(passed: seq<Change>, failed: seq<Change>, cause: Option<Change>)

  const NOTHING := Verdict([], [], None)

  /** The actions that drive a queue. A test is asked for together with the key it
      will get if a new key is needed; a report carries the key it answers. */
  datatype Step =
    | Submit(change: Change)
    | Ask(freshKey: Key)
    | Report(key: Option<Key>, passed: bool)

  function Ids(changes: seq<Change>): set<Id> {
    set c | c in changes :: c.id
  }

  lemma IdsOfConcat(a: seq<Change>, b: seq<Change>)
    ensures Ids(a + b) == Ids(a) + Ids(b)
  {
  }

  ghost predicate HasBad(changes: seq<Change>, bad: set<Change>) {
    exists c :: c in changes && c in bad
  }
}
