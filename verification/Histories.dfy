/** Reasoning about what has held since when, along any run. */
module Histories {
  /** What does not hold at the start and holds later was set in between, and has held ever since. */
  lemma {:induction false} HeldSinceSet(holds: seq<bool>, sets: seq<bool>, n: nat) returns (i: nat)
    requires |holds| == |sets| + 1 && !holds[0] && n <= |sets| && holds[n]
    requires forall i :: 0 <= i < |sets| && holds[i + 1] ==> holds[i] || sets[i]
    ensures i < n && sets[i] && forall k :: i < k <= n ==> holds[k]
  {
    if holds[n - 1] { i := HeldSinceSet(holds, sets, n - 1); } else { i := n - 1; }
  }
}
