/** State machines, their runs, and how to reason about all runs at once. */
module Machines {

  ghost function Run<S, A>(next: (S, A) -> S, s: S, actions: seq<A>): S
    decreases |actions|
  {
    if actions == [] then s else Run(next, next(s, actions[0]), actions[1..])
  }

  /** Each action can happen in the state in which it happens. */
  ghost predicate Possible<S, A>(next: (S, A) -> S, can: (S, A) -> bool, s: S, actions: seq<A>)
    decreases |actions|
  {
    actions == [] || (can(s, actions[0]) && Possible(next, can, next(s, actions[0]), actions[1..]))
  }

  /** A run goes on by any action that can happen in the state it reached. */
  lemma {:induction false} RunGoesOn<S, A>(next: (S, A) -> S, can: (S, A) -> bool, s: S, actions: seq<A>, last: A)
    ensures Run(next, s, actions + [last]) == next(Run(next, s, actions), last)
    ensures Possible(next, can, s, actions + [last]) <==>
              Possible(next, can, s, actions) && can(Run(next, s, actions), last)
    decreases |actions|
  {
    if actions == [] {
      assert Run(next, next(s, last), []) == next(s, last);
      assert ([] + [last])[1..] == [];
    } else {
      RunGoesOn(next, can, next(s, actions[0]), actions[1..], last);
      assert (actions + [last])[1..] == actions[1..] + [last];
    }
  }

  /** What every possible action keeps, every possible run keeps. */
  lemma {:induction false} RunKeeps<S(!new), A(!new)>(next: (S, A) -> S, can: (S, A) -> bool, inv: S -> bool,
                                                      s: S, actions: seq<A>)
    requires inv(s) && Possible(next, can, s, actions)
    requires forall s, a :: inv(s) && can(s, a) ==> inv(next(s, a))
    ensures inv(Run(next, s, actions))
    decreases |actions|
  {
    if actions != [] {
      RunKeeps(next, can, inv, next(s, actions[0]), actions[1..]);
    }
  }

  /** What counts towards a goal: an action that does not matter, one that gets closer,
      or one that reaches it. */
  datatype Mark = Idle | Closer | Done

  ghost function Marks<S, A>(next: (S, A) -> S, mark: (S, A) -> Mark, s: S, actions: seq<A>): seq<Mark>
    decreases |actions|
  {
    if actions == [] then [] else [mark(s, actions[0])] + Marks(next, mark, next(s, actions[0]), actions[1..])
  }

  ghost function Efforts(marks: seq<Mark>): nat {
    if marks == [] then 0 else (if marks[0].Idle? then 0 else 1) + Efforts(marks[1..])
  }

  /** One of the first so many efforts reaches the goal. */
  ghost predicate DoneWithin(marks: seq<Mark>, efforts: nat)
    decreases |marks|
  {
    marks != [] &&
    match marks[0]
    case Idle => DoneWithin(marks[1..], efforts)
    case Closer => efforts > 0 && DoneWithin(marks[1..], efforts - 1)
    case Done => efforts > 0
  }

  lemma {:induction false} DoneWithinMore(marks: seq<Mark>, few: nat, many: nat)
    requires few <= many && DoneWithin(marks, few)
    ensures DoneWithin(marks, many)
  {
    match marks[0]
    case Idle => DoneWithinMore(marks[1..], few, many);
    case Closer => DoneWithinMore(marks[1..], few - 1, many - 1);
    case Done =>
  }

  /** If there is always some distance left, and every effort that does not reach the goal
      lowers it, as many efforts as the distance reach the goal. */
  lemma {:induction false} EffortsReachGoal<S(!new), A(!new)>(
      next: (S, A) -> S, can: (S, A) -> bool, inv: S -> bool, mark: (S, A) -> Mark, distance: S -> nat,
      s: S, actions: seq<A>)
    requires inv(s) && Possible(next, can, s, actions)
    requires forall s :: inv(s) ==> distance(s) > 0
    requires forall s, a :: inv(s) && can(s, a) && !mark(s, a).Done? ==>
               inv(next(s, a)) && distance(next(s, a)) <= distance(s) - (if mark(s, a).Closer? then 1 else 0)
    requires Efforts(Marks(next, mark, s, actions)) >= distance(s)
    ensures DoneWithin(Marks(next, mark, s, actions), distance(s))
    decreases |actions|
  {
    var s', rest := next(s, actions[0]), actions[1..];
    var marks' := Marks(next, mark, s', rest);
    assert Marks(next, mark, s, actions)[1..] == marks';
    if !mark(s, actions[0]).Done? {
      var spent := if mark(s, actions[0]).Closer? then 1 else 0;
      EffortsReachGoal(next, can, inv, mark, distance, s', rest);
      DoneWithinMore(marks', distance(s'), distance(s) - spent);
    }
  }

  // ---- One step over and over ----

  ghost function Iterate<S>(next: S -> S, s: S, steps: nat): S
    decreases steps
  {
    if steps == 0 then s else Iterate(next, next(s), steps - 1)
  }

  lemma {:induction false} IterateKeeps<S(!new)>(next: S -> S, inv: S -> bool, s: S, steps: nat)
    requires inv(s) && forall s :: inv(s) ==> inv(next(s))
    ensures inv(Iterate(next, s, steps))
    decreases steps
  {
    if steps > 0 {
      IterateKeeps(next, inv, next(s), steps - 1);
    }
  }

  /** If what is kept leaves only so many steps until the goal, the goal is reached. */
  lemma {:induction false} IterateReaches<S(!new)>(next: S -> S, inv: (S, nat) -> bool, goal: S -> bool, bound: nat,
                                                   s: S, done: nat) returns (steps: nat)
    requires inv(s, done) && done <= bound + 1
    requires forall s, n: nat :: inv(s, n) && !goal(s) ==> n <= bound && inv(next(s), n + 1)
    ensures done + steps <= bound + 1
    ensures goal(Iterate(next, s, steps)) && inv(Iterate(next, s, steps), done + steps)
    decreases bound + 1 - done
  {
    steps := 0;
    if !goal(s) {
      steps := IterateReaches(next, inv, goal, bound, next(s), done + 1);
      steps := steps + 1;
    }
  }
}
