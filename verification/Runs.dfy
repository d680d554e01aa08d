/** Runs of a step relation, and the two ways to reason about them: one step more, and what every step keeps. */
module Runs {

  /** The steps taken and the states gone through, one more of these. */
  datatype Run<S, T> = Run(steps: seq<T>, states: seq<S>)

  /** The run starts at `first`, each step relates the states around it, and the run ends at `last`. */
  ghost predicate Connects<S, T>(run: Run<S, T>, next: (S, T, S) -> bool, first: S, last: S) {
    && |run.states| == |run.steps| + 1
    && run.states[0] == first && run.states[|run.steps|] == last
    && forall i {:trigger run.steps[i]} :: 0 <= i < |run.steps| ==> next(run.states[i], run.steps[i], run.states[i + 1])
  }

  /** Every step keeps it. */
  ghost predicate Inductive<S(!new), T(!new)>(inv: S -> bool, next: (S, T, S) -> bool) {
    forall s, step, t :: inv(s) && next(s, step, t) ==> inv(t)
  }

  lemma NoSteps<S, T>(next: (S, T, S) -> bool, first: S)
    ensures Connects(Run([], [first]), next, first, first)
  {
  }

  lemma OneStepMore<S, T>(run: Run<S, T>, next: (S, T, S) -> bool, first: S, last: S, step: T, s: S)
    returns (longer: Run<S, T>)
    requires Connects(run, next, first, last) && next(last, step, s)
    ensures Connects(longer, next, first, s) && longer.steps == run.steps + [step]
  {
    longer := Run(run.steps + [step], run.states + [s]);
    forall i | 0 <= i < |longer.steps|
      ensures next(longer.states[i], longer.steps[i], longer.states[i + 1])
    {
      if i < |run.steps| {
        assert longer.steps[i] == run.steps[i];
      }
    }
  }

  lemma {:induction false} KeptUpTo<S(!new), T(!new)>(
      run: Run<S, T>, next: (S, T, S) -> bool, first: S, last: S, inv: S -> bool, n: nat)
    requires Connects(run, next, first, last) && n <= |run.steps| && inv(first)
    requires Inductive(inv, next)
    ensures inv(run.states[n])
  {
    if n != 0 {
      KeptUpTo(run, next, first, last, inv, n - 1);
      var step := run.steps[n - 1];
      assert next(run.states[n - 1], step, run.states[n]);
    }
  }

  /** What holds at first and is kept by every step holds at last. */
  lemma Kept<S(!new), T(!new)>(run: Run<S, T>, next: (S, T, S) -> bool, first: S, last: S, inv: S -> bool)
    requires Connects(run, next, first, last) && inv(first)
    requires Inductive(inv, next)
    ensures inv(last)
  {
    KeptUpTo(run, next, first, last, inv, |run.steps|);
  }
}
