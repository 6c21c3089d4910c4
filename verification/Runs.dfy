/** Runs of a state machine: sequences of states in which every two neighbours are related by a step. */
module Runs {

  ghost predicate IsRun<S(!new)>(run: seq<S>, step: (S, S) -> bool) {
    forall i, j :: 0 <= i && i + 1 == j < |run| ==> step(run[i], run[j])
  }

  /** A relation that every state has to itself and that one more step extends holds from any state
      of a run to every later one. */
  lemma {:induction false} Along<S(!new)>(run: seq<S>, step: (S, S) -> bool, kept: (S, S) -> bool, i: nat, j: nat)
    requires IsRun(run, step) && i <= j < |run|
    requires kept(run[i], run[i])
    requires forall a, b, c :: kept(a, b) && step(b, c) ==> kept(a, c)
    ensures kept(run[i], run[j])
    decreases j
  {
    if i < j {
      Along(run, step, kept, i, j - 1);
      assert step(run[j - 1], run[j]);
    }
  }

  lemma RunExtends<S(!new)>(run: seq<S>, step: (S, S) -> bool, next: S)
    requires run != [] && IsRun(run, step) && step(run[|run| - 1], next)
    ensures IsRun(run + [next], step)
  {
  }
}
