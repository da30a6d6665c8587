/** The plain queue: a sequence of sections, the first of which is the next list to
    test, and the key of the test that is running. A failing section is halved
    until the change to blame stands alone. */
module Bisection {
  import opened Wrappers
  import opened QueueTypes

  datatype Queue = Queue(sections: seq<seq<Change>>, key: Option<Key>)

  const EMPTY := Queue([[]], None)

  function Flat(sections: seq<seq<Change>>): seq<Change> {
    if sections == [] then [] else sections[0] + Flat(sections[1..])
  }

  predicate Matches(q: Queue, key: Option<Key>) {
    key.Some? && key == q.key
  }

  // ---- The four operations ----

  function Add(q: Queue, change: Change): Queue
    requires q.sections != []
  {
    var last := |q.sections| - 1;
    q.(sections := q.sections[last := q.sections[last] + [change]])
  }

  function NextTest(q: Queue, freshKey: Key): (Queue, (Option<Key>, seq<Change>))
    requires q.sections != []
  {
    var list := q.sections[0];
    var q' := if list == [] then q else
                Queue(if |q.sections| <= 1 then q.sections + [[]] else q.sections,
                      if q.key.None? then Some(freshKey) else q.key);
    (q', (q'.key, list))
  }

  function OnFailure(q: Queue, key: Option<Key>): (Queue, Verdict)
    requires q.sections != []
  {
    var head, rest := q.sections[0], q.sections[1..];
    if !Matches(q, key) then (q, NOTHING)
    else if |head| == 1 then (Queue([Flat(rest)], None), Verdict([], head, Some(head[0])))
    else (Queue([head[..|head| / 2], head[|head| / 2..]] + rest, None), NOTHING)
  }

  function OnSuccess(q: Queue, key: Option<Key>): (Queue, Verdict)
    requires q.sections != []
  {
    var head, rest := q.sections[0], q.sections[1..];
    if !Matches(q, key) then (q, NOTHING)
    else if |rest| > 1 then
      // What is left of a failed list after its first part passed fails untested.
      var (q', v) := OnFailure(Queue(rest, key), key);
      (q', Verdict(head, v.failed, v.cause))
    else (Queue(rest, None), Verdict(head, [], None))
  }

  function OnReport(q: Queue, key: Option<Key>, passed: bool): (Queue, Verdict)
    requires q.sections != []
  {
    if passed then OnSuccess(q, key) else OnFailure(q, key)
  }

  // ---- Shape ----

  /** Only the last section may be empty, a second section is there exactly while a test is
      running or a culprit is being sought, to collect new changes, and while a culprit is
      being sought the first section is the smaller half of the list known to be failing. */
  ghost predicate Shape(q: Queue) {
    && Filled(q.sections)
    && (|q.sections| >= 2 <==> q.key.Some? || Seeking(q))
    && (Seeking(q) ==> |q.sections[0]| == |Suspects(q)| / 2)
  }

  ghost predicate Filled(sections: seq<seq<Change>>) {
    && sections != []
    && forall i :: 0 <= i < |sections| - 1 ==> sections[i] != []
  }

  predicate Seeking(q: Queue) {
    |q.sections| >= 3
  }

  /** The list known to be failing. */
  function Suspects(q: Queue): seq<Change>
    requires Seeking(q)
  {
    q.sections[0] + q.sections[1]
  }

  lemma AddKeepsShape(q: Queue, change: Change)
    requires Shape(q)
    ensures Shape(Add(q, change))
    ensures Flat(Add(q, change).sections) == Flat(q.sections) + [change]
    ensures SameFront(q, Add(q, change))
    ensures Seeking(q) ==> Suspects(Add(q, change)) == Suspects(q)
    ensures q.key.Some? ==> Add(q, change).sections[0] == q.sections[0]
  {
    FlatAppend(q.sections, change);
  }

  /** The queues have the same key and as many sections, and differ in the last one only. */
  ghost predicate SameFront(q: Queue, q': Queue) {
    && q'.key == q.key
    && |q'.sections| == |q.sections|
    && forall i :: 0 <= i < |q.sections| - 1 ==> q'.sections[i] == q.sections[i]
  }

  lemma {:induction false} FlatAppend(sections: seq<seq<Change>>, change: Change)
    requires sections != []
    ensures Flat(sections[|sections| - 1 := sections[|sections| - 1] + [change]]) == Flat(sections) + [change]
  {
    var last := |sections| - 1;
    if last > 0 {
      FlatAppend(sections[1..], change);
      assert sections[last := sections[last] + [change]][1..]
          == sections[1..][last - 1 := sections[1..][last - 1] + [change]];
    }
  }

  lemma {:induction false} FlatConcat(a: seq<seq<Change>>, b: seq<seq<Change>>)
    ensures Flat(a + b) == Flat(a) + Flat(b)
  {
    if a == [] {
      assert a + b == b;
    } else {
      FlatConcat(a[1..], b);
      assert (a + b)[1..] == a[1..] + b && (a + b)[0] == a[0];
      assert a[0] + (Flat(a[1..]) + Flat(b)) == (a[0] + Flat(a[1..])) + Flat(b);
    }
  }

  lemma NextTestKeepsShape(q: Queue, freshKey: Key)
    requires Shape(q)
    ensures var (q', answer) := NextTest(q, freshKey);
      && Shape(q') && Flat(q'.sections) == Flat(q.sections)
      && Seeking(q') == Seeking(q) && (Seeking(q) ==> Suspects(q') == Suspects(q))
      && answer.1 == q'.sections[0] == q.sections[0]
      && (answer.0.None? <==> answer.1 == [])
      && answer.0 == q'.key && (answer.0.Some? ==> answer.0 == if q.key.Some? then q.key else Some(freshKey))
      && (q'.sections == q.sections || (|q.sections| == 1 && q'.sections == q.sections + [[]]))
  {
    var (q', answer) := NextTest(q, freshKey);
    FlatConcat(q.sections, [[]]);
    assert Flat([[]]) == [];
    assert Flat(q.sections) + [] == Flat(q.sections);
  }

  lemma HalvesJoin(head: seq<Change>, rest: seq<seq<Change>>)
    ensures Flat([head[..|head| / 2], head[|head| / 2..]] + rest) == head + Flat(rest)
  {
  }

  /** A report loses and reorders nothing: what it releases, followed by what stays,
      is what was there. */
  lemma ReportConserves(q: Queue, key: Option<Key>, passed: bool)
    requires q.sections != []
    ensures var (q', v) := OnReport(q, key, passed);
      v.passed + v.failed + Flat(q'.sections) == Flat(q.sections)
  {
    if passed {
      SuccessConserves(q, key);
    } else {
      FailureConserves(q, key);
    }
  }

  lemma SuccessConserves(q: Queue, key: Option<Key>)
    requires q.sections != []
    ensures var (q', v) := OnSuccess(q, key);
      v.passed + v.failed + Flat(q'.sections) == Flat(q.sections)
  {
    var head, rest := q.sections[0], q.sections[1..];
    var (q', v) := OnSuccess(q, key);
    var flat := Flat(q'.sections);
    if Matches(q, key) && |rest| > 1 {
      FailureConserves(Queue(rest, key), key);
    }
    assert v.passed + v.failed + flat == v.passed + (v.failed + flat);
  }

  lemma FailureConserves(q: Queue, key: Option<Key>)
    requires q.sections != []
    ensures var (q', v) := OnFailure(q, key);
      && v.passed == [] && v.failed + Flat(q'.sections) == Flat(q.sections)
      && v.passed + v.failed + Flat(q'.sections) == Flat(q.sections)
  {
    var head, rest := q.sections[0], q.sections[1..];
    var (q', v) := OnFailure(q, key);
    if Matches(q, key) {
      HalvesJoin(head, rest);
      assert Flat([Flat(rest)]) == Flat(rest);
    } else {
      assert [] + Flat(q.sections) == Flat(q.sections);
    }
    assert v.passed + v.failed == v.failed;
  }

  /** A failure that counts either removes the one change it is about and ends the
      search, or starts a search in the list that failed. */
  lemma FailureKeepsShape(q: Queue, key: Option<Key>)
    requires Filled(q.sections) && |q.sections| >= 2 && Matches(q, key)
    ensures var (q', v) := OnFailure(q, key);
      var head := q.sections[0];
      && Shape(q') && q'.key.None?
      && v.passed == []
      && (if |head| == 1 then |q'.sections| == 1 && v.failed == head && v.cause == Some(head[0])
          else v == NOTHING && Seeking(q') && Suspects(q') == head && q'.sections[2..] == q.sections[1..])
  {
  }

  /** A success that counts releases the list that passed; during a search, what is left
      of the suspects then fails untested. */
  lemma SuccessKeepsShape(q: Queue, key: Option<Key>)
    requires Shape(q) && Matches(q, key)
    ensures var (q', v) := OnSuccess(q, key);
      && Shape(q') && q'.key.None?
      && v.passed == q.sections[0]
      && (if !Seeking(q) then |q'.sections| == 1 && v.failed == [] && v.cause.None?
          else if |q.sections[1]| == 1 then
            |q'.sections| == 1 && v.failed == q.sections[1] && v.cause == Some(q.sections[1][0])
          else v.failed == [] && v.cause.None? && Seeking(q') && Suspects(q') == q.sections[1]
               && q'.sections[2..] == q.sections[2..])
  {
  }

  lemma ReportKeepsShape(q: Queue, key: Option<Key>, passed: bool)
    requires Shape(q)
    ensures var (q', v) := OnReport(q, key, passed);
      && Shape(q')
      && (Matches(q, key) ==> q'.key.None?)
      && (v.cause.Some? ==> Matches(q, key) && |q'.sections| == 1 && v.failed == [v.cause.value])
      && (v.cause.None? ==> v.failed == [])
      && (Matches(q, key) ==> v.passed == if passed then q.sections[0] else [])
      && (!Matches(q, key) ==> q' == q && v == NOTHING)
  {
    if Matches(q, key) {
      FailureKeepsShape(q, key);
      SuccessKeepsShape(q, key);
    }
  }

  // ---- The cost of a search ----

  function CeilLog2(n: nat): nat {
    if n <= 1 then 0 else 1 + CeilLog2((n + 1) / 2)
  }

  function Pow2(k: nat): nat {
    if k == 0 then 1 else 2 * Pow2(k - 1)
  }

  /** CeilLog2(n) is the least k with n <= 2^k. */
  lemma {:induction false} CeilLog2IsLeast(n: nat, k: nat)
    ensures CeilLog2(n) <= k <==> n <= Pow2(k)
  {
    if n <= 1 {
      PowPositive(k);
    } else if k > 0 {
      CeilLog2IsLeast((n + 1) / 2, k - 1);
    }
  }

  lemma PowPositive(k: nat)
    ensures Pow2(k) >= 1
  {
  }

  lemma {:induction false} CeilLog2Monotone(m: nat, n: nat)
    requires m <= n
    ensures CeilLog2(m) <= CeilLog2(n)
  {
    if n > 1 {
      CeilLog2Monotone((m + 1) / 2, (n + 1) / 2);
    }
  }

  /** How many more test results it takes, at most, to name the culprit. */
  function TestsLeft(q: Queue): nat {
    if Seeking(q) then CeilLog2(|Suspects(q)|) else 0
  }

  /** During a search, every answered test, whichever way it went, either names the
      culprit or brings it one test closer. */
  lemma ReportAdvancesSearch(q: Queue, key: Option<Key>, passed: bool)
    requires Shape(q) && Matches(q, key) && Seeking(q)
    ensures TestsLeft(q) >= 1
    ensures var (q', v) := OnReport(q, key, passed);
      v.cause.None? ==> Seeking(q') && TestsLeft(q') < TestsLeft(q)
  {
    var n := |Suspects(q)|;
    assert |q.sections[0]| == n / 2 && |q.sections[1]| == (n + 1) / 2;
    SuccessKeepsShape(q, key);
    FailureKeepsShape(q, key);
    CeilLog2Monotone(n / 2, (n + 1) / 2);
  }

  // ---- The soundness of a search ----

  /** The list a search narrows down holds a bad change. */
  ghost predicate Justified(q: Queue, bad: set<Change>) {
    Seeking(q) ==> HasBad(Suspects(q), bad)
  }

  /** If a test fails exactly when its list holds a bad change, the changes released as
      passed are good, the change to blame is bad, and the search stays justified. */
  lemma HonestReportIsSound(q: Queue, key: Option<Key>, passed: bool, bad: set<Change>)
    requires Shape(q) && Justified(q, bad)
    requires Matches(q, key) ==> passed == !HasBad(q.sections[0], bad)
    ensures var (q', v) := OnReport(q, key, passed);
      && Justified(q', bad)
      && !HasBad(v.passed, bad)
      && (v.cause.Some? ==> v.cause.value in bad)
  {
  }
}
