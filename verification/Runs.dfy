/**
 Runs of a transition relation: a run is a list of states, each one step after
 the one before.  What every step keeps holds throughout, and what every step
 decreases bounds the length.
 */
module Runs {

  ghost predicate Linked<S(!new)>(next: (S, S) -> bool, run: seq<S>, i: nat)
    requires i + 1 < |run|
  {
    next(run[i], run[i + 1])
  }

  ghost predicate Path<S(!new)>(next: (S, S) -> bool, run: seq<S>) {
    run != [] && forall i: nat :: i + 1 < |run| ==> Linked(next, run, i)
  }

  ghost predicate Keeps<S(!new)>(next: (S, S) -> bool, good: S -> bool) {
    forall s, t :: good(s) && next(s, t) ==> good(t)
  }

  /** What holds at one point of a run and is kept by every step holds from there on. */
  lemma {:induction false} Lasts<S(!new)>(next: (S, S) -> bool, good: S -> bool, run: seq<S>, i: nat, j: nat)
    requires Path(next, run) && i <= j < |run|
    requires good(run[i]) && Keeps(next, good)
    ensures good(run[j])
  {
    if i < j {
      Lasts(next, good, run, i, j - 1);
      assert Linked(next, run, j - 1);
    }
  }

  /** A measure that every step decreases bounds the length of a run. */
  lemma {:induction false} Shrinks<S(!new)>(next: (S, S) -> bool, good: S -> bool, measure: S -> nat, run: seq<S>, i: nat)
    requires Path(next, run) && i < |run|
    requires good(run[0]) && Keeps(next, good)
    requires forall s, t :: good(s) && next(s, t) ==> measure(t) < measure(s)
    ensures i + measure(run[i]) <= measure(run[0])
  {
    if i > 0 {
      Shrinks(next, good, measure, run, i - 1);
      Lasts(next, good, run, 0, i - 1);
      assert Linked(next, run, i - 1);
    }
  }
}
