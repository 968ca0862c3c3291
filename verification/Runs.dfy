/** Induction over the states of a run. */
module Runs {

  ghost predicate IsRun<W(!new)>(trace: seq<W>, follows: (W, W) -> bool) {
    trace != [] && forall i | 0 <= i < |trace| - 1 :: follows(trace[i], trace[i + 1])
  }

  /** What holds in a state of a run and is kept by every step holds in every later state. */
  lemma {:induction false} KeptByRun<W(!new)>(trace: seq<W>, follows: (W, W) -> bool, inv: W -> bool, i: nat, j: nat)
    requires IsRun(trace, follows) && i <= j < |trace| && inv(trace[i])
    requires forall a: W, b: W | inv(a) && follows(a, b) :: inv(b)
    ensures inv(trace[j])
    decreases j - i
  {
    if i < j {
      KeptByRun(trace, follows, inv, i, j - 1);
      assert follows(trace[j - 1], trace[j - 1 + 1]);
    }
  }
}
