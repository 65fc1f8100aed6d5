/**
 * Running totals of a well driven with its default per-cycle volumes: after
 * `n` cycles the total is `n` times the per-cycle volume.
 */
module Accounting {

  /** One more cycle adds one more per-cycle volume to the total. */
  lemma TotalAfterNextCycle(n: nat, v: real)
    ensures (n + 1) as real * v == n as real * v + v
  {
  }
}
