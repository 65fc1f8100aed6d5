/**
 * The due rule both `Well` classes share: a well is due for its next cycle at
 * time `t` when the number of whole periods elapsed since its start time
 * `tic` is at least the number of cycles it has completed.
 */
module Schedule {

  /** Python's `int()` on a float: truncation toward zero. */
  function Trunc(x: real): (r: int)
    ensures 0.0 <= x ==> r as real <= x < r as real + 1.0
    ensures x < 0.0 ==> r as real - 1.0 < x <= r as real
  {
    if x >= 0.0 then x.Floor else -((-x).Floor)
  }

  /** `math.floor((t - tic) / period_s)`. */
  function PeriodsElapsed(t: real, tic: int, periodS: real): int
    requires periodS != 0.0
  {
    ((t - tic as real) / periodS).Floor
  }

  /** The body of `queryStatus`. */
  predicate IsDue(t: real, tic: int, periodS: real, iteration: nat)
    requires periodS != 0.0
  {
    PeriodsElapsed(t, tic, periodS) >= iteration
  }

  /** Floor-free form of the rule: with a positive period, cycle number
      `iteration` (counting from 0) becomes due exactly at
      `tic + iteration * periodS`; a negative period turns the rule around,
      so that the well is due only up to that instant. */
  lemma DueIffBoundaryReached(t: real, tic: int, periodS: real, iteration: nat)
    requires periodS != 0.0
    ensures periodS > 0.0 ==> (IsDue(t, tic, periodS, iteration) <==> t >= tic as real + iteration as real * periodS)
    ensures periodS < 0.0 ==> (IsDue(t, tic, periodS, iteration) <==> t <= tic as real + iteration as real * periodS)
  {
    var x := (t - tic as real) / periodS;
    var n := iteration as real;
    assert x * periodS == t - tic as real;
    assert x.Floor >= iteration <==> x >= n;
    if periodS > 0.0 {
      if x >= n {
        assert x * periodS >= n * periodS;
      } else {
        assert x * periodS < n * periodS;
      }
    } else {
      if x >= n {
        assert x * periodS <= n * periodS;
      } else {
        assert x * periodS > n * periodS;
      }
    }
  }

  /** No well is ever due before its start time. */
  lemma NeverDueBeforeStart(t: real, tic: int, periodS: real, iteration: nat)
    requires periodS > 0.0
    requires t < tic as real
    ensures !IsDue(t, tic, periodS, iteration)
  {
    DueIffBoundaryReached(t, tic, periodS, iteration);
  }

  /** A fresh well (no cycle completed) is already due at its start time,
      whatever the sign of its period. */
  lemma FreshWellDueAtStart(tic: int, periodS: real)
    requires periodS != 0.0
    ensures IsDue(tic as real, tic, periodS, 0)
  {
    DueIffBoundaryReached(tic as real, tic, periodS, 0);
  }

  /** Once due, a well stays due as time goes on (until it completes a cycle). */
  lemma DueIsMonotoneInTime(t1: real, t2: real, tic: int, periodS: real, iteration: nat)
    requires periodS > 0.0
    requires t1 <= t2
    ensures IsDue(t1, tic, periodS, iteration) ==> IsDue(t2, tic, periodS, iteration)
  {
    DueIffBoundaryReached(t1, tic, periodS, iteration);
    DueIffBoundaryReached(t2, tic, periodS, iteration);
  }

  /** Completing a cycle never makes a well more due. */
  lemma DueIsAntitoneInIteration(t: real, tic: int, periodS: real, i: nat, j: nat)
    requires periodS != 0.0
    requires i <= j
    ensures IsDue(t, tic, periodS, j) ==> IsDue(t, tic, periodS, i)
  {
  }

  /** Missed periods are caught up, one cycle per check: at a fixed time `t`
      with `m` whole periods elapsed, a well that has completed `i` cycles is
      due exactly while `i <= m`, so repeated checks at `t` allow cycles
      `i, i + 1, ..., m` and then stop. */
  lemma CatchUpOneCyclePerCheck(t: real, tic: int, periodS: real, iteration: nat)
    requires periodS > 0.0
    requires IsDue(t, tic, periodS, iteration)
    ensures IsDue(t, tic, periodS, iteration + 1) <==>
              t >= tic as real + (iteration + 1) as real * periodS
    ensures !IsDue(t, tic, periodS, iteration + 1) ==> PeriodsElapsed(t, tic, periodS) == iteration
  {
    DueIffBoundaryReached(t, tic, periodS, iteration + 1);
  }

  /** A 30-second well started at `t0`: cycle 0 fires at `t0`, cycle 1 not
      before `t0 + 30`, cycle 2 not before `t0 + 60`. */
  lemma ThirtySecondSchedule(t0: int)
    ensures IsDue(t0 as real, t0, 30.0, 0)
    ensures !IsDue(t0 as real + 29.0, t0, 30.0, 1) && IsDue(t0 as real + 30.0, t0, 30.0, 1)
    ensures !IsDue(t0 as real + 59.0, t0, 30.0, 2) && IsDue(t0 as real + 60.0, t0, 30.0, 2)
  {
    DueIffBoundaryReached(t0 as real, t0, 30.0, 0);
    DueIffBoundaryReached(t0 as real + 29.0, t0, 30.0, 1);
    DueIffBoundaryReached(t0 as real + 30.0, t0, 30.0, 1);
    DueIffBoundaryReached(t0 as real + 59.0, t0, 30.0, 2);
    DueIffBoundaryReached(t0 as real + 60.0, t0, 30.0, 2);
  }

  /** The positions below `n` whose flag is set, in increasing order: the
      wells of a sweep that are due, given whether each one is. */
  function DueIndices(due: seq<bool>, n: nat): (r: seq<nat>)
    requires n <= |due|
    ensures forall k :: 0 <= k < |r| ==> r[k] < n
  {
    if n == 0 then [] else DueIndices(due, n - 1) + (if due[n - 1] then [n - 1] else [])
  }

  /** A position is listed exactly when it is below `n` and its flag is set,
      and the positions are listed in increasing order. */
  lemma {:induction false} DueIndicesMembers(due: seq<bool>, n: nat)
    requires n <= |due|
    ensures forall j :: j in DueIndices(due, n) <==> 0 <= j < n && due[j]
    ensures forall k, l :: 0 <= k < l < |DueIndices(due, n)| ==> DueIndices(due, n)[k] < DueIndices(due, n)[l]
  {
    if n > 0 {
      DueIndicesMembers(due, n - 1);
    }
  }
}
