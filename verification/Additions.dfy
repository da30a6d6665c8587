/** What an addition to the queue with dependencies guarantees. */
module Additions {
  import opened Wrappers
  import opened Sequences
  import opened QueueTypes
  import opened Dependencies
  import opened DependencyInvariants
  import Bisection

  /** What one round of admissions needs. */
  ghost predicate Admissible(q: Queue, candidates: seq<Waiting>, entered: seq<Change>, passed: set<Id>) {
    && Sound(q, passed)
    && Ordered(Changes(q.waiting) + Changes(candidates))
    && Ids(entered) <= Ids(Queued(q))
    && WaitingSupplied(candidates, passed + Ids(Queued(q)))
    && (forall w :: w in candidates ==>
          w.missing <= w.change.requirements && w.missing * Ids(Queued(q)) <= Ids(entered))
  }

  lemma {:induction false} AdmitKeepsSound(q: Queue, candidates: seq<Waiting>, entered: seq<Change>, passed: set<Id>)
    requires Admissible(q, candidates, entered, passed)
    ensures Sound(Admit(q, candidates, entered).0, passed)
    decreases |candidates|
  {
    if candidates != [] {
      var w := candidates[0];
      var (q', entered') := AdmitOne(q, w, entered);
      if w.missing - Ids(entered) == {} {
        AdmitEnters(q, candidates, entered, passed);
      } else {
        AdmitWaits(q, candidates, entered, passed);
      }
      AdmitKeepsSound(q', candidates[1..], entered', passed);
    }
  }

  lemma AdmitWaits(q: Queue, candidates: seq<Waiting>, entered: seq<Change>, passed: set<Id>)
    requires candidates != [] && Admissible(q, candidates, entered, passed)
    requires candidates[0].missing - Ids(entered) != {}
    ensures Admissible(AdmitOne(q, candidates[0], entered).0, candidates[1..], entered, passed)
  {
    var w, rest := candidates[0], candidates[1..];
    var q' := AdmitOne(q, w, entered).0;
    assert w in candidates;
    assert Changes(q'.waiting) == Changes(q.waiting) + [w.change];
    assert Changes(q'.waiting) + Changes(rest) == Changes(q.waiting) + Changes(candidates);
    OrderedConcat(Changes(q'.waiting), Changes(rest));
  }

  lemma AdmitEnters(q: Queue, candidates: seq<Waiting>, entered: seq<Change>, passed: set<Id>)
    requires candidates != [] && Admissible(q, candidates, entered, passed)
    requires candidates[0].missing - Ids(entered) == {}
    ensures var (q', entered') := AdmitOne(q, candidates[0], entered);
      Admissible(q', candidates[1..], entered', passed)
  {
    var w, rest := candidates[0], candidates[1..];
    var c := w.change;
    var (q', entered') := AdmitOne(q, w, entered);
    NobodyWaitsFor(q, candidates);
    Bisection.AddKeepsShape(q.main, c);
    EnteringIds(Queued(q), c);
    EnteringIds(entered, c);
    SuppliedConcat(Queued(q), [c], passed);
    RequirementsMet(q, candidates, entered, passed);
  }

  lemma RequirementsMet(q: Queue, candidates: seq<Waiting>, entered: seq<Change>, passed: set<Id>)
    requires candidates != [] && Admissible(q, candidates, entered, passed)
    requires candidates[0].missing - Ids(entered) == {}
    ensures candidates[0].change.requirements <= passed + Ids(Queued(q))
  {
    var w := candidates[0];
    assert w in candidates;
    assert forall r :: r in w.missing ==> r in w.missing - Ids(entered) || r in Ids(entered);
  }

  lemma EnteringIds(changes: seq<Change>, c: Change)
    ensures Ids(changes + [c]) == Ids(changes) + {c.id}
  {
  }

  /** What already waits does not wait for the next candidate. */
  lemma NobodyWaitsFor(q: Queue, candidates: seq<Waiting>)
    requires candidates != [] && NotStuck(q) && Ordered(Changes(q.waiting) + Changes(candidates))
    ensures forall x :: x in q.waiting ==> candidates[0].change.id !in x.missing
    ensures Ordered(Changes(q.waiting) + Changes(candidates[1..]))
  {
    var c, rest := candidates[0].change, candidates[1..];
    assert Changes(candidates) == [c] + Changes(rest);
    OrderedConcat(Changes(q.waiting), Changes(candidates));
    OrderedConcat([c], Changes(rest));
    OrderedConcat(Changes(q.waiting), Changes(rest));
    IdsOfConcat([c], Changes(rest));
    assert c in [c];
    forall x | x in q.waiting
      ensures c.id !in x.missing
    {
      ChangeOfWaiting(q.waiting, x);
    }
  }

  lemma ChangeOfWaiting(waiting: seq<Waiting>, w: Waiting)
    requires w in waiting
    ensures w.change in Changes(waiting)
  {
    var i :| 0 <= i < |waiting| && waiting[i] == w;
    assert Changes(waiting)[i] == w.change;
  }

  /** Some changes entered the main queue or went on waiting; no other one moved. */
  ghost predicate Conserved(q: Queue, entered: seq<Change>, q': Queue, entered': seq<Change>, more: multiset<Change>)
  {
    && Bisection.Shape(q'.main)
    && q.waiting <= q'.waiting
    && entered <= entered'
    && Queued(q') == Queued(q) + entered'[|entered|..]
    && multiset(entered') + multiset(Changes(q'.waiting))
       == multiset(entered) + multiset(Changes(q.waiting)) + more
  }

  lemma ConservedTwice(q: Queue, e: seq<Change>, q1: Queue, e1: seq<Change>, q2: Queue, e2: seq<Change>,
                       first: multiset<Change>, more: multiset<Change>)
    requires Conserved(q, e, q1, e1, first) && Conserved(q1, e1, q2, e2, more)
    ensures Conserved(q, e, q2, e2, first + more)
  {
    assert e2[|e|..] == e1[|e|..] + e2[|e1|..];
  }

  lemma AdmitOneConserves(q: Queue, w: Waiting, entered: seq<Change>)
    requires Bisection.Shape(q.main)
    ensures var (q', entered') := AdmitOne(q, w, entered); Conserved(q, entered, q', entered', multiset{w.change})
  {
    Bisection.AddKeepsShape(q.main, w.change);
    ChangesConcat(q.waiting, [Waiting(w.change, w.missing - Ids(entered))]);
  }

  /** Admission drops nobody and duplicates nobody. */
  lemma {:induction false} AdmitConserves(q: Queue, candidates: seq<Waiting>, entered: seq<Change>)
    requires Bisection.Shape(q.main)
    ensures var (q', entered') := Admit(q, candidates, entered);
      Conserved(q, entered, q', entered', multiset(Changes(candidates)))
    decreases |candidates|
  {
    if candidates != [] {
      var (q1, entered1) := AdmitOne(q, candidates[0], entered);
      AdmitOneConserves(q, candidates[0], entered);
      AdmitConserves(q1, candidates[1..], entered1);
      var (q', entered') := Admit(q1, candidates[1..], entered1);
      ConservedTwice(q, entered, q1, entered1, q', entered', multiset{candidates[0].change},
                     multiset(Changes(candidates[1..])));
      assert Changes(candidates) == [candidates[0].change] + Changes(candidates[1..]);
    }
  }

  /** A candidate enters when all it misses enters, and otherwise goes on waiting for
      exactly what did not. */
  ghost predicate Settled(w: Waiting, q: Queue, entered: seq<Change>) {
    if w.missing <= Ids(entered) then w.change in entered
    else Waiting(w.change, w.missing - Ids(entered)) in q.waiting
  }

  lemma {:induction false} AdmitSettles(q: Queue, candidates: seq<Waiting>, entered: seq<Change>)
    requires Bisection.Shape(q.main) && Ordered(Changes(candidates))
    requires forall w :: w in candidates ==> w.missing <= w.change.requirements
    ensures var (q', entered') := Admit(q, candidates, entered);
      && Ids(entered') <= Ids(entered) + Ids(Changes(candidates))
      && (forall w :: w in candidates ==> Settled(w, q', entered'))
    decreases |candidates|
  {
    if candidates != [] {
      var w, rest := candidates[0], candidates[1..];
      var (q1, entered1) := AdmitOne(q, w, entered);
      var (q', entered') := Admit(q, candidates, entered);
      assert Changes(candidates) == [w.change] + Changes(rest);
      IdsOfConcat([w.change], Changes(rest));
      assert w.change in [w.change];
      EnteringIds(entered, w.change);
      AdmitOneConserves(q, w, entered);
      AdmitConserves(q1, rest, entered1);
      AdmitSettles(q1, rest, entered1);
      FirstSettles(q, candidates, entered);
    }
  }

  lemma FirstSettles(q: Queue, candidates: seq<Waiting>, entered: seq<Change>)
    requires Bisection.Shape(q.main) && candidates != []
    requires !Requires(candidates[0].change, Ids(Changes(candidates[1..])))
    requires candidates[0].missing <= candidates[0].change.requirements
    requires var (q1, entered1) := AdmitOne(q, candidates[0], entered);
      Ids(Admit(q, candidates, entered).1) <= Ids(entered1) + Ids(Changes(candidates[1..]))
    ensures var (q', entered') := Admit(q, candidates, entered); Settled(candidates[0], q', entered')
  {
    var w := candidates[0];
    var (q1, entered1) := AdmitOne(q, w, entered);
    var (q', entered') := Admit(q, candidates, entered);
    AdmitConserves(q1, candidates[1..], entered1);
    IdsOfPrefix(entered1, entered');
    var missing := w.missing - Ids(entered);
    if missing == {} {
      EnteringIds(entered, w.change);
      assert w.change == entered1[|entered|] == entered'[|entered|];
    } else {
      assert q1.waiting[|q.waiting|] == Waiting(w.change, missing) == q'.waiting[|q.waiting|];
      assert w.missing - Ids(entered') == missing;
    }
  }

  lemma IdsOfPrefix(a: seq<Change>, b: seq<Change>)
    requires a <= b
    ensures Ids(a) <= Ids(b)
  {
  }

  // ---- The whole addition ----

  ghost function Candidates(q: Queue, change: Change): seq<Waiting> {
    [Waiting(change, Missing(q.main, change))] + WaitingOnly(q.waiting, DependantsOnNew(q, change))
  }

  ghost function Bystanders(q: Queue, change: Change): Queue {
    q.(waiting := WaitingWithout(q.waiting, DependantsOnNew(q, change)))
  }

  lemma WhoWaits(q: Queue, change: Change)
    ensures var ids, all := DependantsOnNew(q, change), Changes(q.waiting);
      && Changes(Bystanders(q, change).waiting) == Without(all, ids)
      && Changes(Candidates(q, change)) == [change] + Only(all, ids)
  {
    var ids := DependantsOnNew(q, change);
    var w := Waiting(change, Missing(q.main, change));
    WaitingWithoutMembers(q.waiting, ids);
    ChangesConcat([w], WaitingOnly(q.waiting, ids));
    assert Changes([w]) == [change];
  }

  /** Pulling out the dependants of an acyclic change and putting them back behind it
      keeps a sequence ordered. */
  lemma RequeueingKeepsOrder(all: seq<Change>, change: Change, ids: set<Id>)
    requires Ordered(all) && change.id !in ids
    requires Closed(ids, change.id, [change] + all)
    ensures var stay, move := Without(all, ids), [change] + Only(all, ids);
      Ordered(move) && NoneRequires(stay, Ids(move)) && Ordered(stay + move)
  {
    var stay, pulled := Without(all, ids), Only(all, ids);
    MovedIds(all, change, ids);
    OrderedParts(all, ids);
    assert !Requires(change, Ids([change] + pulled)) by { assert change in [change] + all; }
    OrderedConcat([change], pulled);
    BystandersRequireNoneMoved(all, change, ids);
    OrderedConcat(stay, [change] + pulled);
  }

  lemma MovedIds(all: seq<Change>, change: Change, ids: set<Id>)
    ensures Ids([change] + Only(all, ids)) <= ids + {change.id}
    ensures Ids(Only(all, ids)) <= Ids([change] + Only(all, ids))
  {
    WithoutMembers(all, ids);
  }

  lemma BystandersRequireNoneMoved(all: seq<Change>, change: Change, ids: set<Id>)
    requires Closed(ids, change.id, [change] + all)
    ensures NoneRequires(Without(all, ids), Ids([change] + Only(all, ids)))
  {
    WithoutMembers(all, ids);
    MovedIds(all, change, ids);
    forall c | c in Without(all, ids)
      ensures !Requires(c, Ids([change] + Only(all, ids)))
    {
      assert c in [change] + all;
    }
  }

  lemma AddAdmissible(q: Queue, change: Change, passed: set<Id>)
    requires Sound(q, passed) && change.id !in DependantsOnNew(q, change)
    ensures Admissible(Bystanders(q, change), Candidates(q, change), [], passed)
    ensures Ordered(Changes(Candidates(q, change)))
    ensures NoneRequires(Changes(Bystanders(q, change).waiting), Ids(Changes(Candidates(q, change))))
  {
    var ids, all := DependantsOnNew(q, change), Changes(q.waiting);
    DependantsClosed(change.id, [change] + all);
    RequeueingKeepsOrder(all, change, ids);
    WhoWaits(q, change);
    OrderedParts(all, ids);
    CandidatesSupplied(q, change, passed);
  }

  lemma CandidatesSupplied(q: Queue, change: Change, passed: set<Id>)
    requires Sound(q, passed)
    ensures var have := passed + Ids(Queued(q));
      && WaitingSupplied(Candidates(q, change), have)
      && WaitingSupplied(Bystanders(q, change).waiting, have)
      && NotStuck(Bystanders(q, change))
      && forall w :: w in Candidates(q, change) ==>
           w.missing <= w.change.requirements && w.missing !! Ids(Queued(q))
  {
    WaitingWithoutMembers(q.waiting, DependantsOnNew(q, change));
  }

  lemma AddKeepsSound(q: Queue, change: Change, passed: set<Id>)
    requires Sound(q, passed)
    ensures Sound(Add(q, change).0, passed)
  {
    var ids := DependantsOnNew(q, change);
    if change.id in ids {
      WaitingWithoutMembers(q.waiting, ids);
      OrderedParts(Changes(q.waiting), ids);
    } else {
      AddAdmissible(q, change, passed);
      AdmitKeepsSound(Bystanders(q, change), Candidates(q, change), [], passed);
    }
  }

  /** An addition is a rejection exactly when the change requires itself through a chain
      of waiting changes. It then rejects the change and, in order, all that waits on it, and
      leaves the main queue and the other waiting changes alone; otherwise it rejects
      nothing. */
  lemma AddRejectsCycles(q: Queue, change: Change)
    requires q.main.sections != []
    ensures var (q', entered, rejected) := Add(q, change);
      var all := [change] + Changes(q.waiting);
      && (rejected != [] <==> exists path :: Chain(path, change.id, change.id, all))
      && (rejected != [] ==>
            && entered == [] && q'.main == q.main
            && rejected == [change] + Filter(Changes(q.waiting), (c: Change) => ChainLeads(change.id, c.id, all))
            && q'.waiting == Filter(q.waiting, (w: Waiting) => !ChainLeads(change.id, w.change.id, all))
            && (forall c :: c in rejected <==>
                  c in all && exists path :: Chain(path, change.id, c.id, all))
            && (forall w :: w in q'.waiting <==>
                  w in q.waiting && !exists path :: Chain(path, change.id, w.change.id, all)))
  {
    var all := [change] + Changes(q.waiting);
    var ids := DependantsOnNew(q, change);
    forall d
      ensures d in ids <==> ChainLeads(change.id, d, all)
    {
      DependantsAreChainEnds(change.id, d, all);
    }
    DependantsByChains(q, change);
    WhoWaits(q, change);
    WaitingWithoutMembers(q.waiting, ids);
    WithoutMembers(Changes(q.waiting), ids);
    var (q', entered, rejected) := Add(q, change);
    assert change.id in ids ==> rejected == [change] + Only(Changes(q.waiting), ids);
  }

  /** Who waits on a change, and who does not, in terms of chains. */
  lemma DependantsByChains(q: Queue, change: Change)
    ensures var all, ids := [change] + Changes(q.waiting), DependantsOnNew(q, change);
      && Only(Changes(q.waiting), ids) ==
         Filter(Changes(q.waiting), (c: Change) => ChainLeads(change.id, c.id, all))
      && WaitingOnly(q.waiting, ids) ==
         Filter(q.waiting, (w: Waiting) => ChainLeads(change.id, w.change.id, all))
      && WaitingWithout(q.waiting, ids) ==
         Filter(q.waiting, (w: Waiting) => !ChainLeads(change.id, w.change.id, all))
  {
    var all, ids := [change] + Changes(q.waiting), DependantsOnNew(q, change);
    forall d
      ensures d in ids <==> ChainLeads(change.id, d, all)
    {
      DependantsAreChainEnds(change.id, d, all);
    }
    FilterSame(Changes(q.waiting), (c: Change) => c.id in ids, (c: Change) => ChainLeads(change.id, c.id, all));
    FilterSame(q.waiting, (w: Waiting) => w.change.id in ids,
               (w: Waiting) => ChainLeads(change.id, w.change.id, all));
    FilterSame(q.waiting, (w: Waiting) => w.change.id !in ids,
               (w: Waiting) => !ChainLeads(change.id, w.change.id, all));
  }

  // ---- The order of an addition ----

  ghost function Entering(entered: seq<Change>): Waiting -> bool {
    (w: Waiting) => w.missing <= Ids(entered)
  }

  ghost function Staying(entered: seq<Change>): Waiting -> bool {
    (w: Waiting) => !(w.missing <= Ids(entered))
  }

  /** Those that do not enter, in order, with what they go on missing. */
  ghost function Lacking(candidates: seq<Waiting>, entered: seq<Change>): seq<Waiting> {
    var staying := Filter(candidates, Staying(entered));
    seq(|staying|, i requires 0 <= i < |staying| =>
      Waiting(staying[i].change, staying[i].missing - Ids(entered)))
  }

  lemma LackingFirst(candidates: seq<Waiting>, entered: seq<Change>)
    requires candidates != []
    ensures var w, rest := candidates[0], candidates[1..];
      Lacking(candidates, entered) ==
      (if Staying(entered)(w) then [Waiting(w.change, w.missing - Ids(entered))] else []) + Lacking(rest, entered)
  {
  }

  lemma EnteringFirst(candidates: seq<Waiting>, entered: seq<Change>)
    requires candidates != []
    ensures var w, rest := candidates[0], candidates[1..];
      Changes(Filter(candidates, Entering(entered))) ==
      (if Entering(entered)(w) then [w.change] else []) + Changes(Filter(rest, Entering(entered)))
  {
    var w, more := candidates[0], Filter(candidates[1..], Entering(entered));
    ChangesConcat([w], more);
    assert Changes([w]) == [w.change];
  }

  /** What entered is, in order, what misses only what entered; the rest waits in order. */
  ghost predicate InOrder(q: Queue, candidates: seq<Waiting>, entered: seq<Change>, q': Queue, entered': seq<Change>)
  {
    && entered' == entered + Changes(Filter(candidates, Entering(entered')))
    && q'.waiting == q.waiting + Lacking(candidates, entered')
  }

  lemma InOrderStep(q: Queue, candidates: seq<Waiting>, entered: seq<Change>, q': Queue, entered': seq<Change>)
    requires q.main.sections != [] && candidates != []
    requires var (q1, entered1) := AdmitOne(q, candidates[0], entered);
      InOrder(q1, candidates[1..], entered1, q', entered')
    requires candidates[0].missing - Ids(entered') == candidates[0].missing - Ids(entered)
    ensures InOrder(q, candidates, entered, q', entered')
  {
    var w, rest := candidates[0], candidates[1..];
    var missing := w.missing - Ids(entered);
    LackingFirst(candidates, entered');
    EnteringFirst(candidates, entered');
    assert missing == {} ==> forall r :: r in w.missing ==> r in Ids(entered') || r in w.missing - Ids(entered');
    assert missing != {} ==> exists r :: r in w.missing - Ids(entered');
    if missing == {} {
      Regroup(entered, [w.change], Changes(Filter(rest, Entering(entered'))));
    } else {
      Regroup(q.waiting, [Waiting(w.change, missing)], Lacking(rest, entered'));
    }
  }

  lemma {:induction false} AdmitInOrder(q: Queue, candidates: seq<Waiting>, entered: seq<Change>)
    requires Bisection.Shape(q.main) && Ordered(Changes(candidates))
    requires forall w :: w in candidates ==> w.missing <= w.change.requirements
    ensures var (q', entered') := Admit(q, candidates, entered); InOrder(q, candidates, entered, q', entered')
    decreases |candidates|
  {
    var (q', entered') := Admit(q, candidates, entered);
    if candidates == [] {
      assert Filter(candidates, Entering(entered')) == [] && Filter(candidates, Staying(entered')) == [];
      assert Lacking(candidates, entered') == [] && q.waiting + [] == q.waiting;
    } else {
      var (q1, entered1) := AdmitOne(q, candidates[0], entered);
      assert Changes(candidates) == [candidates[0].change] + Changes(candidates[1..]);
      AdmitOneConserves(q, candidates[0], entered);
      AdmitInOrder(q1, candidates[1..], entered1);
      FirstIsDecided(q, candidates, entered);
      InOrderStep(q, candidates, entered, q', entered');
    }
  }

  /** What enters later makes no difference to the first candidate. */
  lemma FirstIsDecided(q: Queue, candidates: seq<Waiting>, entered: seq<Change>)
    requires Bisection.Shape(q.main) && Ordered(Changes(candidates)) && candidates != []
    requires forall w :: w in candidates ==> w.missing <= w.change.requirements
    ensures var entered', w := Admit(q, candidates, entered).1, candidates[0];
      w.missing - Ids(entered') == w.missing - Ids(entered)
  {
    var w, rest := candidates[0], candidates[1..];
    var (q1, entered1) := AdmitOne(q, w, entered);
    assert Changes(candidates) == [w.change] + Changes(rest);
    IdsOfConcat([w.change], Changes(rest));
    assert w.change in [w.change];
    EnteringIds(entered, w.change);
    AdmitOneConserves(q, w, entered);
    AdmitConserves(q1, rest, entered1);
    AdmitSettles(q, candidates, entered);
    AdmitConserves(q, candidates, entered);
    IdsOfPrefix(entered, Admit(q, candidates, entered).1);
  }

  /** An addition that is not rejected lets in, in order, the new change and the waiting
      ones that miss only what enters. Of the others, those that do not wait on the new
      change stay as they are, and the rest waits behind them, with the new change first. */
  lemma AddInOrder(q: Queue, change: Change, passed: set<Id>)
    requires Sound(q, passed)
    ensures var (q', entered, rejected) := Add(q, change);
      var all, first := [change] + Changes(q.waiting), Waiting(change, Missing(q.main, change));
      rejected == [] ==>
        && Queued(q') == Queued(q) + entered
        && entered == Changes(Filter([first] + q.waiting, Entering(entered)))
        && q'.waiting ==
           Filter(q.waiting, (w: Waiting) => !ChainLeads(change.id, w.change.id, all))
           + Lacking([first] + Filter(q.waiting, (w: Waiting) => ChainLeads(change.id, w.change.id, all)), entered)
  {
    var ids := DependantsOnNew(q, change);
    if change.id !in ids {
      var rest, candidates := Bystanders(q, change), Candidates(q, change);
      var (q', entered) := Admit(rest, candidates, []);
      AddAdmissible(q, change, passed);
      AdmitConserves(rest, candidates, []);
      AdmitSettles(rest, candidates, []);
      AdmitInOrder(rest, candidates, []);
      DependantsByChains(q, change);
      BystandersDoNotEnter(q, change, passed, entered);
      assert [] + Changes(Filter(candidates, Entering(entered))) == entered;
    }
  }

  lemma BystandersDoNotEnter(q: Queue, change: Change, passed: set<Id>, entered: seq<Change>)
    requires Sound(q, passed) && change.id !in DependantsOnNew(q, change)
    requires Ids(entered) <= Ids(Changes(Candidates(q, change)))
    ensures Filter(Candidates(q, change), Entering(entered)) ==
            Filter([Waiting(change, Missing(q.main, change))] + q.waiting, Entering(entered))
  {
    var ids, first := DependantsOnNew(q, change), Waiting(change, Missing(q.main, change));
    AddAdmissible(q, change, passed);
    WaitingWithoutMembers(q.waiting, ids);
    forall w | w in q.waiting && w.change.id !in ids
      ensures !Entering(entered)(w)
    {
      ChangeOfWaiting(Bystanders(q, change).waiting, w);
      assert w.missing !! Ids(entered);
    }
    FilterFilter(q.waiting, (w: Waiting) => w.change.id in ids, Entering(entered));
    FilterConcat([first], WaitingOnly(q.waiting, ids), Entering(entered));
    FilterConcat([first], q.waiting, Entering(entered));
  }

  // ---- Who enters ----

  /** An addition that is not rejected appends to the queue, in order, the changes it
      lets in; the new change and every waiting change enter exactly when all they miss
      enters, and otherwise go on waiting for exactly what did not. */
  lemma AddSettlesEveryone(q: Queue, change: Change, passed: set<Id>)
    requires Sound(q, passed)
    ensures var (q', entered, rejected) := Add(q, change);
      rejected == [] ==>
        && Queued(q') == Queued(q) + entered
        && Settled(Waiting(change, Missing(q.main, change)), q', entered)
        && (forall w :: w in q.waiting ==> Settled(w, q', entered))
  {
    var ids := DependantsOnNew(q, change);
    var (q', entered, rejected) := Add(q, change);
    if rejected == [] {
      var rest, candidates := Bystanders(q, change), Candidates(q, change);
      AddAdmissible(q, change, passed);
      AdmitConserves(rest, candidates, []);
      AdmitSettles(rest, candidates, []);
      WaitingWithoutMembers(q.waiting, ids);
      assert candidates[0] in candidates;
      forall w | w in q.waiting
        ensures Settled(w, q', entered)
      {
        if w.change.id in ids {
          assert w in candidates;
        } else {
          BystanderSettles(rest, candidates, w, q', entered);
        }
      }
    }
  }

  /** Who requires nothing that moves waits for the same as before. */
  lemma BystanderSettles(rest: Queue, candidates: seq<Waiting>, w: Waiting, q': Queue, entered: seq<Change>)
    requires w in rest.waiting && rest.waiting <= q'.waiting && NotStuck(rest)
    requires NoneRequires(Changes(rest.waiting), Ids(Changes(candidates)))
    requires Ids(entered) <= Ids(Changes(candidates))
    ensures Settled(w, q', entered)
  {
    ChangeOfWaiting(rest.waiting, w);
    assert w.missing !! Ids(entered);
    assert w.missing - Ids(entered) == w.missing && w == Waiting(w.change, w.missing);
  }

  /** A change enters the main queue at once exactly when all it requires is queued at
      that moment; a requirement that has passed its test and left the queue is missing.
      When the change itself does not enter, nothing else does. */
  lemma AddEntersIffRequirementsQueued(q: Queue, change: Change, passed: set<Id>)
    requires Sound(q, passed)
    ensures var (q', entered, rejected) := Add(q, change);
      rejected == [] ==>
        if change.requirements <= Ids(Queued(q)) then entered != [] && entered[0] == change
        else entered == [] && q'.main == q.main
  {
    var w := Waiting(change, Missing(q.main, change));
    var rest, candidates := Bystanders(q, change), Candidates(q, change);
    assert w.missing - Ids([]) == w.missing;
    if change.id !in DependantsOnNew(q, change) {
      var (q1, entered1) := AdmitOne(rest, w, []);
      assert candidates[1..] == WaitingOnly(q.waiting, DependantsOnNew(q, change));
      assert forall r :: r in change.requirements ==> r in w.missing || r in Ids(Queued(q));
      if w.missing == {} {
        AdmitConserves(q1, candidates[1..], entered1);
      } else {
        assert !(change.requirements <= Ids(Queued(q)));
        CandidatesSupplied(q, change, passed);
        WaitingWithoutMembers(q.waiting, DependantsOnNew(q, change));
        NobodyEnters(rest, candidates);
      }
    }
  }

  lemma {:induction false} NobodyEnters(q: Queue, candidates: seq<Waiting>)
    requires Bisection.Shape(q.main) && forall w :: w in candidates ==> w.missing != {}
    ensures var (q', entered) := Admit(q, candidates, []); entered == [] && q'.main == q.main
    decreases |candidates|
  {
    if candidates != [] {
      assert candidates[0].missing - Ids([]) == candidates[0].missing;
      NobodyEnters(AdmitOne(q, candidates[0], []).0, candidates[1..]);
    }
  }

  lemma AddConserves(q: Queue, change: Change)
    requires Bisection.Shape(q.main)
    ensures var (q', entered, rejected) := Add(q, change);
      && Queued(q') == Queued(q) + entered
      && multiset(entered) + multiset(Changes(q'.waiting)) + multiset(rejected)
         == multiset(Changes(q.waiting)) + multiset{change}
  {
    var ids := DependantsOnNew(q, change);
    WhoWaits(q, change);
    WithoutMembers(Changes(q.waiting), ids);
    if change.id !in ids {
      AdmitConserves(Bystanders(q, change), Candidates(q, change), []);
    } else {
      assert Queued(q) + [] == Queued(q);
    }
  }

  /** An addition leaves a running search, and a running test, as they are, and what it adds
      joins the last section. */
  lemma AddKeepsHead(q: Queue, change: Change)
    requires Bisection.Shape(q.main)
    ensures var main' := Add(q, change).0.main; SameHead(q.main, main')
  {
    AdmitKeepsHead(Bystanders(q, change), Candidates(q, change), []);
  }

  ghost predicate SameHead(main: Bisection.Queue, main': Bisection.Queue) {
    && Bisection.SameFront(main, main')
    && (Bisection.Seeking(main) ==> Bisection.Suspects(main') == Bisection.Suspects(main))
    && (main.key.Some? && main.sections != [] ==> main'.sections != [] && main'.sections[0] == main.sections[0])
  }

  lemma {:induction false} AdmitKeepsHead(q: Queue, candidates: seq<Waiting>, entered: seq<Change>)
    requires Bisection.Shape(q.main)
    ensures SameHead(q.main, Admit(q, candidates, entered).0.main)
    decreases |candidates|
  {
    if candidates != [] {
      var (q', entered') := AdmitOne(q, candidates[0], entered);
      Bisection.AddKeepsShape(q.main, candidates[0].change);
      AdmitKeepsHead(q', candidates[1..], entered');
    }
  }
}
