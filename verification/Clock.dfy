/**
 * The wall clock (hsm-core/src/clock.rs): a host-supplied epoch over the
 * monotonic timer, bounded by an anchor that the first accepted value of a
 * boot fixes for good.
 */
module Clock {
  import opened Options

  /** A 64-bit microsecond count. */
  type Micros = u: int | 0 <= u < 0x1_0000_0000_0000_0000

  /** A signed 64-bit count of seconds. */
  type Seconds = s: int | -0x8000_0000_0000_0000 <= s < 0x8000_0000_0000_0000

  const MAX_DRIFT_SECS: int := 900
  const MIN_PLAUSIBLE_UNIX: int := 1_700_000_000
  const MAX_PLAUSIBLE_UNIX: int := MIN_PLAUSIBLE_UNIX + 100 * 365 * 24 * 3600
  const I64_MAX: int := 0x7FFF_FFFF_FFFF_FFFF
  const I64_MIN: int := -0x8000_0000_0000_0000

  datatype Wall = Wall(
    epochUnix: Option<Seconds>, epochMonoUs: Micros,
    anchorUnix: Option<Seconds>, anchorMonoUs: Micros)

  function NewWall(): Wall {
    Wall(None, 0, None, 0)
  }

  function Abs(x: int): nat {
    if x < 0 then -x else x
  }

  /** Whole seconds from `since` to `now`, 0 when the timer reads earlier. */
  function ElapsedSecs(now: Micros, since: Micros): nat {
    if now >= since then (now - since) / 1_000_000 else 0
  }

  function SaturatingAdd(a: Seconds, b: nat): Seconds {
    if a + b > I64_MAX then I64_MAX else a + b
  }

  /** `|a - b| > MAX_DRIFT_SECS`, a subtraction that overflows being too far. */
  predicate TooFar(a: Seconds, b: Seconds) {
    a - b > I64_MAX || a - b < I64_MIN || Abs(a - b) > MAX_DRIFT_SECS
  }

  function TrustedNow(w: Wall, now: Micros): Option<Seconds> {
    if w.anchorUnix.None? then None
    else Some(SaturatingAdd(w.anchorUnix.value, ElapsedSecs(now, w.anchorMonoUs)))
  }

  /** The sum is left unbounded here; `WindowHolds` shows that it never leaves i64. */
  function NowUnix(w: Wall, now: Micros): Option<int> {
    if w.epochUnix.None? then None
    else Some(w.epochUnix.value + ElapsedSecs(now, w.epochMonoUs))
  }

  predicate Acceptable(w: Wall, now: Micros, unix: Seconds) {
    match TrustedNow(w, now)
    case None => MIN_PLAUSIBLE_UNIX <= unix <= MAX_PLAUSIBLE_UNIX
    case Some(expected) => !TooFar(unix, expected)
  }

  /** `Clock::set`: the new clock, or None when the value is rejected. */
  function SetWall(w: Wall, now: Micros, unix: Seconds): Option<Wall> {
    if !Acceptable(w, now, unix) then None
    else
      var anchored := if w.anchorUnix.None? then w.(anchorUnix := Some(unix), anchorMonoUs := now) else w;
      Some(anchored.(epochUnix := Some(unix), epochMonoUs := now))
  }

  /** The object form of the clock, with its fields updated in place. */
  class WallClock {
    var epochUnix: Option<Seconds>
    var epochMonoUs: Micros
    var anchorUnix: Option<Seconds>
    var anchorMonoUs: Micros

    function View(): Wall
      reads this
    {
      Wall(epochUnix, epochMonoUs, anchorUnix, anchorMonoUs)
    }

    constructor ()
      ensures View() == NewWall()
    {
      epochUnix, epochMonoUs, anchorUnix, anchorMonoUs := None, 0, None, 0;
    }

    /** Returns whether a time had been set before, or None when rejected. */
    method Set(now: Micros, unix: Seconds) returns (previous: Option<bool>)
      modifies this
      ensures previous == if SetWall(old(View()), now, unix).None? then None else Some(old(epochUnix).Some?)
      ensures View() == match SetWall(old(View()), now, unix)
                        case None => old(View())
                        case Some(next) => next
    {
      if anchorUnix.None? {
        if !(MIN_PLAUSIBLE_UNIX <= unix <= MAX_PLAUSIBLE_UNIX) {
          return None;
        }
      } else {
        var expected := SaturatingAdd(anchorUnix.value, ElapsedSecs(now, anchorMonoUs));
        if TooFar(unix, expected) {
          return None;
        }
      }
      var had := epochUnix.Some?;
      if anchorUnix.None? {
        anchorUnix := Some(unix);
        anchorMonoUs := now;
      }
      epochUnix := Some(unix);
      epochMonoUs := now;
      previous := Some(had);
    }
  }

  // -------------------------------------------------------------- clock window

  /** One `setTime` value, delivered at a monotonic reading. */
  datatype Attempt = Attempt(now: Micros, unix: Seconds)

  /** The clock after any sequence of accepted and rejected values. */
  function RunSets(w: Wall, attempts: seq<Attempt>): Wall {
    if attempts == [] then w
    else
      var before := RunSets(w, attempts[..|attempts| - 1]);
      var last := attempts[|attempts| - 1];
      match SetWall(before, last.now, last.unix)
      case None => before
      case Some(next) => next
  }

  ghost predicate Monotone(attempts: seq<Attempt>) {
    forall i, j :: 0 <= i < j < |attempts| ==> attempts[i].now <= attempts[j].now
  }

  /** What every clock reached in a boot satisfies, with all readings at most `now`. */
  ghost predicate InWindow(w: Wall, now: Micros) {
    && (w.epochUnix.Some? <==> w.anchorUnix.Some?)
    && (w.anchorUnix.Some? ==>
          && MIN_PLAUSIBLE_UNIX <= w.anchorUnix.value <= MAX_PLAUSIBLE_UNIX
          && w.anchorMonoUs <= w.epochMonoUs <= now
          && Abs(w.epochUnix.value - w.anchorUnix.value - ElapsedSecs(w.epochMonoUs, w.anchorMonoUs)) <= MAX_DRIFT_SECS)
  }

  lemma SetKeepsWindow(w: Wall, now: Micros, unix: Seconds)
    requires InWindow(w, now)
    ensures SetWall(w, now, unix).Some? ==>
              && InWindow(SetWall(w, now, unix).value, now)
              && (w.anchorUnix.Some? ==>
                    && SetWall(w, now, unix).value.anchorUnix == w.anchorUnix
                    && SetWall(w, now, unix).value.anchorMonoUs == w.anchorMonoUs)
  {
  }

  /**
   * Which values are accepted, in numbers: the first of a boot from November 2023
   * to 100 years later, any other within 900 s of the anchor plus the whole
   * seconds since; an accepted value is what the clock then reads.
   */
  lemma AcceptsIff(w: Wall, now: Micros, unix: Seconds)
    requires InWindow(w, now)
    ensures SetWall(w, now, unix).Some? <==>
            if w.anchorUnix.None? then 1_700_000_000 <= unix <= 4_853_600_000
            else -900 <= unix - (w.anchorUnix.value + (now - w.anchorMonoUs) / 1_000_000) <= 900
    ensures SetWall(w, now, unix).Some? ==> NowUnix(SetWall(w, now, unix).value, now) == Some(unix)
  {
  }

  /** Two floor divisions can lose at most one second against a single one. */
  lemma SplitElapsed(a: Micros, b: Micros, c: Micros)
    requires a <= b <= c
    ensures ElapsedSecs(c, a) - 1 <= ElapsedSecs(b, a) + ElapsedSecs(c, b) <= ElapsedSecs(c, a)
  {
  }

  /**
   * The window at any later reading: the host can move the clock at most 900
   * seconds ahead of trusted time and 901 behind, and `now_unix` fits in i64.
   */
  lemma WindowHolds(w: Wall, now: Micros)
    requires InWindow(w, now) && w.anchorUnix.Some?
    ensures TrustedNow(w, now) == Some(w.anchorUnix.value + ElapsedSecs(now, w.anchorMonoUs))
    ensures -901 <= NowUnix(w, now).value - TrustedNow(w, now).value <= 900
    ensures 1_699_999_000 <= NowUnix(w, now).value <= I64_MAX
  {
    SplitElapsed(w.anchorMonoUs, w.epochMonoUs, now);
  }

  /** After any sequence of accepted and rejected values the clock is in its window. */
  lemma {:induction false} RunStaysInWindow(attempts: seq<Attempt>, now: Micros)
    requires Monotone(attempts)
    requires attempts != [] ==> attempts[|attempts| - 1].now <= now
    ensures InWindow(RunSets(NewWall(), attempts), now)
  {
    if attempts != [] {
      var before := attempts[..|attempts| - 1];
      var last := attempts[|attempts| - 1];
      RunStaysInWindow(before, last.now);
      SetKeepsWindow(RunSets(NewWall(), before), last.now, last.unix);
    }
  }

  /** Once a value has been accepted, no later sequence of values moves the anchor. */
  lemma {:induction false} AnchorNeverMoves(w: Wall, attempts: seq<Attempt>)
    requires w.anchorUnix.Some?
    ensures RunSets(w, attempts).anchorUnix == w.anchorUnix
    ensures RunSets(w, attempts).anchorMonoUs == w.anchorMonoUs
  {
    if attempts != [] {
      AnchorNeverMoves(w, attempts[..|attempts| - 1]);
    }
  }

  /** The 901 is reached: two truncated readings make the clock lag by one more second. */
  lemma WindowIsTight()
    ensures var w := RunSets(NewWall(), [Attempt(500_000, 1_700_000_000), Attempt(1_600_000, 1_699_999_101)]);
            && NowUnix(w, 2_500_000) == Some(1_699_999_101)
            && TrustedNow(w, 2_500_000) == Some(1_700_000_002)
  {
    var first := Attempt(500_000, 1_700_000_000);
    var second := Attempt(1_600_000, 1_699_999_101);
    assert [first, second][..1] == [first];
    assert RunSets(NewWall(), [first]) == Wall(Some(1_700_000_000), 500_000, Some(1_700_000_000), 500_000) by {
      assert [first][..0] == [];
    }
  }
}
