/**
 * The PIN attempt counter (hsm-core/src/pin.rs) as the set of tick-log bytes
 * that have left the erased state. Module Pin relates it to the sector bytes.
 */
module Attempts {
  import opened AbRecords
  import opened Bytes

  const BACKOFF_CAP_MS: nat := 30_000

  /** The length of the run of used bytes that starts at `n`, plus `n`. */
  function CountFrom(marks: set<nat>, n: nat): nat
    decreases SECTOR_LEN - n
  {
    if n < SECTOR_LEN && n in marks then CountFrom(marks, n + 1) else n
  }

  /** `count`: the used bytes before the first erased one. */
  function Count(marks: set<nat>): nat {
    CountFrom(marks, 0)
  }

  /** `tick` once the counter has been read: a half-finished program still uses the byte. */
  function Ticked(marks: set<nat>, o: Outcome): set<nat> {
    if Count(marks) < SECTOR_LEN && Touches(o) then marks + {Count(marks)} else marks
  }

  /** `reset`: an interrupted erase can only return used bytes to the erased state. */
  function Cleared(marks: set<nat>, o: Outcome): set<nat> {
    if Finishes(o) then {}
    else match o.left
      case Untouched => marks
      case Blanked => {}
      case Mangled(keep) => marks * keep
  }

  /** `backoff_ms`: min(250 ms * 2^failed, 30 s). */
  function BackoffMs(failed: nat): nat {
    if failed >= 7 then BACKOFF_CAP_MS
    else if failed == 6 then 16_000
    else if failed == 5 then 8_000
    else if failed == 4 then 4_000
    else if failed == 3 then 2_000
    else if failed == 2 then 1_000
    else if failed == 1 then 500
    else 250
  }

  /** The table is the capped exponential the documentation promises. */
  lemma {:induction false} BackoffIsCappedExponential(failed: nat)
    ensures BackoffMs(failed) == if 250 * Pow2(failed) < 30_000 then 250 * Pow2(failed) else 30_000
  {
    if failed > 0 {
      BackoffIsCappedExponential(failed - 1);
    }
  }

  lemma BackoffMonotone(m: nat, n: nat)
    requires m <= n
    ensures BackoffMs(m) <= BackoffMs(n) <= BACKOFF_CAP_MS
  {
  }

  /** The count names the first byte that is not used. */
  lemma {:induction false} CountIsFirstGap(marks: set<nat>, n: nat, bound: nat)
    requires n <= bound <= SECTOR_LEN
    requires forall i :: n <= i < bound ==> i in marks
    requires bound == SECTOR_LEN || bound !in marks
    ensures CountFrom(marks, n) == bound
    decreases bound - n
  {
    if n < bound {
      CountIsFirstGap(marks, n + 1, bound);
    }
  }

  lemma {:induction false} CountBelow(marks: set<nat>, n: nat)
    requires n <= SECTOR_LEN
    ensures n <= CountFrom(marks, n) <= SECTOR_LEN
    ensures forall i :: n <= i < CountFrom(marks, n) ==> i in marks
    ensures CountFrom(marks, n) < SECTOR_LEN ==> CountFrom(marks, n) !in marks
    decreases SECTOR_LEN - n
  {
    if n < SECTOR_LEN && n in marks {
      CountBelow(marks, n + 1);
    }
  }

  lemma {:induction false} CountMonotone(marks: set<nat>, more: set<nat>, n: nat)
    requires marks <= more && n <= SECTOR_LEN
    ensures CountFrom(marks, n) <= CountFrom(more, n)
    decreases SECTOR_LEN - n
  {
    if n < SECTOR_LEN && n in marks {
      CountMonotone(marks, more, n + 1);
    } else {
      CountBelow(more, n);
    }
  }

  lemma {:induction false} CountReaches(marks: set<nat>, n: nat, m: nat)
    requires n <= m <= SECTOR_LEN
    requires forall i :: n <= i < m ==> i in marks
    ensures m <= CountFrom(marks, n)
    decreases m - n
  {
    if n < m {
      CountReaches(marks, n + 1, m);
    } else {
      CountBelow(marks, n);
    }
  }

  /**
   * Whatever happens to a tick, the count never falls, and a tick that touched
   * the sector raises it, unless all 4096 bytes are used.
   */
  lemma TickCounts(marks: set<nat>, o: Outcome)
    ensures Count(marks) <= Count(Ticked(marks, o)) <= SECTOR_LEN
    ensures Touches(o) && Count(marks) < SECTOR_LEN ==> Count(marks) + 1 <= Count(Ticked(marks, o))
  {
    CountBelow(marks, 0);
    CountBelow(Ticked(marks, o), 0);
    CountMonotone(marks, Ticked(marks, o), 0);
    if Touches(o) && Count(marks) < SECTOR_LEN {
      CountReaches(Ticked(marks, o), 0, Count(marks) + 1);
    }
  }

  /** Clearing never adds an attempt, and a completed erase leaves none. */
  lemma ClearLowers(marks: set<nat>, o: Outcome)
    ensures Count(Cleared(marks, o)) <= Count(marks)
    ensures Finishes(o) ==> Count(Cleared(marks, o)) == 0
  {
    CountMonotone(Cleared(marks, o), marks, 0);
  }
}
