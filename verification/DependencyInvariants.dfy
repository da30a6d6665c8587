/** The invariants of the queue with dependencies, and what they need to know about
    sequences of changes. */
module DependencyInvariants {
  import opened Wrappers
  import opened QueueTypes
  import opened Dependencies
  import Bisection

  // ---- Invariants ----

  /** No change requires itself or a change behind it. */
  ghost predicate Ordered(changes: seq<Change>) {
    changes == [] || (!Requires(changes[0], Ids(changes)) && Ordered(changes[1..]))
  }

  ghost predicate NoneRequires(changes: seq<Change>, ids: set<Id>) {
    forall c :: c in changes ==> !Requires(c, ids)
  }

  /** Every waiting change waits for something it requires and that is not queued. */
  ghost predicate NotStuck(q: Queue) {
    forall w :: w in q.waiting ==>
      w.missing != {} && w.missing <= w.change.requirements && w.missing !! Ids(Queued(q))
  }

  /** Each change finds its requirements in the given set or in front of it. */
  ghost predicate Supplied(changes: seq<Change>, have: set<Id>) {
    changes == [] || (changes[0].requirements <= have && Supplied(changes[1..], have + {changes[0].id}))
  }

  /** What a waiting change does not wait for is in the given set. */
  ghost predicate WaitingSupplied(waiting: seq<Waiting>, have: set<Id>) {
    forall w :: w in waiting ==> w.change.requirements - w.missing <= have
  }

  /** The invariant, given the ids of the changes that passed their test so far. */
  ghost predicate Sound(q: Queue, passed: set<Id>) {
    && Bisection.Shape(q.main)
    && Ordered(Changes(q.waiting))
    && NotStuck(q)
    && Supplied(Queued(q), passed)
    && WaitingSupplied(q.waiting, passed + Ids(Queued(q)))
  }

  // ---- Sequences of changes ----

  lemma {:induction false} OrderedConcat(a: seq<Change>, b: seq<Change>)
    ensures Ordered(a + b) <==> Ordered(a) && Ordered(b) && NoneRequires(a, Ids(b))
  {
    if a == [] {
      assert a + b == b;
    } else {
      OrderedConcat(a[1..], b);
      assert (a + b)[1..] == a[1..] + b;
      IdsOfConcat(a, b);
      assert a == [a[0]] + a[1..];
      assert NoneRequires(a, Ids(b)) <==> !Requires(a[0], Ids(b)) && NoneRequires(a[1..], Ids(b));
    }
  }

  lemma {:induction false} SuppliedConcat(a: seq<Change>, b: seq<Change>, have: set<Id>)
    ensures Supplied(a + b, have) <==> Supplied(a, have) && Supplied(b, have + Ids(a))
  {
    if a == [] {
      assert a + b == b && have + Ids(a) == have;
    } else {
      SuppliedConcat(a[1..], b, have + {a[0].id});
      assert (a + b)[1..] == a[1..] + b;
      assert a == [a[0]] + a[1..];
      IdsOfConcat([a[0]], a[1..]);
      assert Ids([a[0]]) == {a[0].id} by { assert a[0] in [a[0]]; }
      assert have + {a[0].id} + Ids(a[1..]) == have + Ids(a);
    }
  }

  lemma {:induction false} SuppliedMore(changes: seq<Change>, have: set<Id>, more: set<Id>)
    requires Supplied(changes, have) && have <= more
    ensures Supplied(changes, more)
  {
    if changes != [] {
      SuppliedMore(changes[1..], have + {changes[0].id}, more + {changes[0].id});
    }
  }

  lemma {:induction false} SuppliedMeans(changes: seq<Change>, have: set<Id>)
    ensures Supplied(changes, have) <==>
            forall i :: 0 <= i < |changes| ==> changes[i].requirements <= have + Ids(changes[..i])
  {
    if changes != [] {
      var last := |changes| - 1;
      var front := changes[..last];
      SuppliedMeans(front, have);
      SuppliedConcat(front, [changes[last]], have);
      assert front + [changes[last]] == changes;
      assert forall i :: 0 <= i < last ==> front[..i] == changes[..i];
    }
  }

  /** In an ordered sequence nothing depends on itself. */
  lemma OrderedIsAcyclic(changes: seq<Change>, id: Id)
    requires Ordered(changes)
    ensures id !in Dependants(id, changes)
    ensures !exists path :: Chain(path, id, id, changes)
  {
    if id in Ids(changes) {
      var i := LastWithId(changes, id);
      var front, back := changes[..i], changes[i..];
      var behind := back[1..];
      assert changes == front + back;
      OrderedConcat(front, back);
      assert back == [changes[i]] + behind;
      IdsOfConcat([changes[i]], behind);
      assert changes[i] in [changes[i]];
      forall c | c in changes && Requires(c, Ids(behind) + {id})
        ensures c.id in Ids(behind)
      {
        assert Ids(behind) + {id} <= Ids(back);
        assert c in front || c in back;
        assert c !in front;
      }
      DependantsLeast(Ids(behind), id, changes);
    }
    DependantsAreChainEnds(id, id, changes);
  }

  lemma {:induction false} LastWithId(changes: seq<Change>, id: Id) returns (i: nat)
    requires id in Ids(changes)
    ensures i < |changes| && changes[i].id == id && id !in Ids(changes[i..][1..])
  {
    var last := |changes| - 1;
    if changes[last].id == id {
      i := last;
    } else {
      var front := changes[..last];
      assert changes == front + [changes[last]];
      IdsOfConcat(front, [changes[last]]);
      i := LastWithId(front, id);
      assert changes[i..][1..] == front[i..][1..] + [changes[last]];
      IdsOfConcat(front[i..][1..], [changes[last]]);
    }
  }

  // ---- Removal ----

  lemma {:induction false} WithoutMembers(changes: seq<Change>, ids: set<Id>)
    ensures forall c :: c in Without(changes, ids) <==> c in changes && c.id !in ids
    ensures forall c :: c in Only(changes, ids) <==> c in changes && c.id in ids
    ensures multiset(Without(changes, ids)) + multiset(Only(changes, ids)) == multiset(changes)
  {
    if changes != [] {
      WithoutMembers(changes[1..], ids);
      assert changes == [changes[0]] + changes[1..];
    }
  }

  lemma ChangesConcat(a: seq<Waiting>, b: seq<Waiting>)
    ensures Changes(a + b) == Changes(a) + Changes(b)
  {
  }

  lemma {:induction false} WaitingWithoutMembers(waiting: seq<Waiting>, ids: set<Id>)
    ensures forall w :: w in WaitingWithout(waiting, ids) <==> w in waiting && w.change.id !in ids
    ensures forall w :: w in WaitingOnly(waiting, ids) <==> w in waiting && w.change.id in ids
    ensures Changes(WaitingWithout(waiting, ids)) == Without(Changes(waiting), ids)
    ensures Changes(WaitingOnly(waiting, ids)) == Only(Changes(waiting), ids)
  {
    if waiting != [] {
      var w, rest := waiting[0], waiting[1..];
      WaitingWithoutMembers(rest, ids);
      assert waiting == [w] + rest;
      assert Changes(waiting) == [w.change] + Changes(rest);
      ChangesConcat([w], WaitingWithout(rest, ids));
      ChangesConcat([w], WaitingOnly(rest, ids));
      assert Changes([w]) == [w.change];
      if w.change.id in ids {
        assert WaitingWithout(waiting, ids) == WaitingWithout(rest, ids);
        assert WaitingOnly(waiting, ids) == [w] + WaitingOnly(rest, ids);
      } else {
        assert WaitingWithout(waiting, ids) == [w] + WaitingWithout(rest, ids);
        assert WaitingOnly(waiting, ids) == WaitingOnly(rest, ids);
      }
    }
  }

  lemma {:induction false} OrderedParts(changes: seq<Change>, ids: set<Id>)
    requires Ordered(changes)
    ensures Ordered(Without(changes, ids)) && Ordered(Only(changes, ids))
  {
    if changes != [] {
      OrderedParts(changes[1..], ids);
      WithoutMembers(changes, ids);
      assert Without(changes, ids) == [changes[0]] + Without(changes[1..], ids)
          || Without(changes, ids) == Without(changes[1..], ids);
      assert Only(changes, ids) == [changes[0]] + Only(changes[1..], ids)
          || Only(changes, ids) == Only(changes[1..], ids);
    }
  }

  /** Taking out the root and all its dependants leaves the rest supplied. */
  lemma {:induction false} SuppliedWithout(changes: seq<Change>, root: Id, ids: set<Id>, have: set<Id>, left: set<Id>)
    requires Supplied(changes, have) && Closed(ids, root, changes)
    requires have <= left + ids + {root}
    ensures Supplied(Without(changes, ids), left)
  {
    if changes != [] {
      var c := changes[0];
      assert c in changes;
      if c.id in ids {
        assert Without(changes, ids) == Without(changes[1..], ids);
        SuppliedWithout(changes[1..], root, ids, have + {c.id}, left);
      } else {
        assert Without(changes, ids) == [c] + Without(changes[1..], ids);
        SuppliedWithout(changes[1..], root, ids, have + {c.id}, left + {c.id});
      }
    }
  }
}
