/**
 * Trusted time across boots (`hsm_set_time` and the floor part of
 * `load_from_flash` in hsm-core/src/dispatch.rs): the wall clock, the floor in
 * RAM and its A/B record in flash, as a step machine over boots, elapsed time,
 * power cuts and `setTime` requests.
 */
module TrustedTime {
  import opened Options
  import opened AbRecords
  import opened Clock

  const FLOOR_STEP_SECS: int := 3600
  const MAX_VALIDITY_SECS: int := 86_400

  datatype TimeState = TimeState(
    pair: Pair<Seconds>,      // the TIME_FLOOR records
    wall: Wall,
    floor: Option<Seconds>,
    unavailable: bool,
    physical: bool,           // physical recovery latched at boot
    nowUs: Micros,
    on: bool)

  datatype Plan =
    | RefuseUnavailable
    | RefuseRequest
    | Adopt(wall: Wall, floor: Option<Seconds>, persist: bool)

  /** The decision of `hsm_set_time` before it touches flash. */
  function PlanSetTime(t: TimeState, unix: Seconds): Plan {
    if t.unavailable then RefuseUnavailable
    else
      var first := t.wall.epochUnix.None?;
      if first && !t.physical && t.floor.Some? && TooFar(unix, t.floor.value) then RefuseRequest
      else match SetWall(t.wall, t.nowUs, unix)
        case None => RefuseRequest
        case Some(next) =>
          var trusted := TrustedNow(next, t.nowUs);
          var floor :=
            if first && (t.floor.None? || t.physical) then Some(unix)
            else if t.floor.Some? && trusted.Some? && trusted.value - t.floor.value >= FLOOR_STEP_SECS then trusted
            else t.floor;
          Adopt(next, floor, floor != t.floor)
  }

  /** The floor part of `load_from_flash`; an unreadable or corrupt record fails closed. */
  function LoadFloor(t: TimeState, readable: bool): TimeState {
    if !readable then t.(floor := None, unavailable := true)
    else match LatestFailClosed(t.pair)
      case Ok(f) => t.(floor := f, unavailable := false)
      case Err(_) => t.(floor := None, unavailable := true)
  }

  /** Loading the floor touches nothing else. */
  lemma LoadFloorKeepsTime(t: TimeState, readable: bool)
    ensures LoadFloor(t, readable).nowUs == t.nowUs && LoadFloor(t, readable).on == t.on
    ensures LoadFloor(t, readable).pair == t.pair
    ensures LoadFloor(t, readable).physical == t.physical && LoadFloor(t, readable).wall == t.wall
  {
  }

  function Later(now: Micros, us: nat): Micros {
    if now + us < 0x1_0000_0000_0000_0000 then now + us else 0xFFFF_FFFF_FFFF_FFFF
  }

  datatype TimeEvent =
    | TBoot(startUs: Micros, physical: bool, readable: bool)
    | TElapse(us: nat)
    | TSet(unix: Seconds, read: Outcome, write: Outcome)
    | TCut
    | TIdle

  function StartBoot(t: TimeState, startUs: Micros, physical: bool, readable: bool): TimeState {
    LoadFloor(t.(wall := NewWall(), physical := physical, nowUs := startUs, on := true), readable)
  }

  /** `setTime` with the outcomes of reading the two floor copies and of the write. */
  function SetTime(t: TimeState, unix: Seconds, read: Outcome, write: Outcome): TimeState {
    match PlanSetTime(t, unix)
    case RefuseUnavailable => t
    case RefuseRequest => t
    case Adopt(wall, floor, persist) =>
      if !persist then t.(wall := wall, floor := floor)
      else if !read.Done? then t.(on := KeepsPower(read))
      else
        var written := t.(pair := WritePair(t.pair, floor.value, write), on := KeepsPower(write));
        if write.Done? then written.(wall := wall, floor := floor) else written
  }

  function TimeStep(t: TimeState, e: TimeEvent): TimeState {
    match e
    case TBoot(startUs, physical, readable) => StartBoot(t, startUs, physical, readable)
    case TElapse(us) => if t.on then t.(nowUs := Later(t.nowUs, us)) else t
    case TSet(unix, read, write) => if t.on then SetTime(t, unix, read, write) else t
    case TCut => t.(on := false)
    case TIdle => t
  }

  /**
   * A run with its history: when and with which floor the current boot started,
   * how many floor records it wrote, and the drift allowance of earlier boots.
   */
  datatype Timeline = Timeline(
    t: TimeState, booted: bool, startUs: Micros, bootFloor: Option<Seconds>, writes: nat, earlier: nat)

  function BootSecs(l: Timeline): nat {
    ElapsedSecs(l.t.nowUs, l.startUs)
  }

  /** 900 seconds plus the elapsed seconds, summed over the boots so far. */
  function Allowance(l: Timeline): nat {
    if l.booted then l.earlier + 900 + BootSecs(l) else 0
  }

  predicate WritesFloor(t: TimeState, e: TimeEvent) {
    && e.TSet? && t.on
    && PlanSetTime(t, e.unix).Adopt? && PlanSetTime(t, e.unix).persist
    && e.read.Done? && Finishes(e.write)
  }

  function Track(l: Timeline, e: TimeEvent): Timeline {
    var next := TimeStep(l.t, e);
    if e.TBoot? then
      Timeline(next, true, e.startUs, Latest(l.t.pair), 0, Allowance(l))
    else
      l.(t := next, writes := l.writes + if WritesFloor(l.t, e) then 1 else 0)
  }

  function TrackRun(l: Timeline, events: seq<TimeEvent>): Timeline {
    if events == [] then l
    else Track(TrackRun(l, events[..|events| - 1]), events[|events| - 1])
  }

  // ---------------------------------------------------------------- invariants

  /** RAM and flash agree on the floor, and the clock stays in its window. */
  ghost predicate Coherent(t: TimeState, limit: nat) {
    && WellNumbered(t.pair, limit)
    && (t.on ==>
          && InWindow(t.wall, t.nowUs)
          && (!t.unavailable ==> t.floor == Latest(t.pair))
          && (t.unavailable ==> t.wall.epochUnix.None?))
  }

  lemma StepKeepsCoherent(t: TimeState, e: TimeEvent, limit: nat)
    requires Coherent(t, limit) && limit < SEQUENCE_SPACE - 1
    ensures Coherent(TimeStep(t, e), limit + 1)
  {
    match e {
      case TBoot(_, _, _) =>
      case TElapse(_) =>
      case TCut =>
      case TIdle =>
      case TSet(unix, read, write) =>
        if t.on {
          SetKeepsWindow(t.wall, t.nowUs, unix);
          var plan := PlanSetTime(t, unix);
          if plan.Adopt? && plan.persist {
            WriteIsAtomic(t.pair, plan.floor.value, write, limit);
          }
        }
    }
  }

  /** What one boot without physical recovery may do to a floor that existed when it started. */
  ghost predicate BootBounded(l: Timeline) {
    && (l.t.on ==> !l.t.physical)
    && (l.booted && l.bootFloor.Some? ==>
          && l.startUs <= l.t.nowUs
          && FloorBounded(l, l.bootFloor.value)
          && (l.t.on ==> AnchorBounded(l, l.bootFloor.value)))
  }

  ghost predicate FloorBounded(l: Timeline, start: Seconds) {
    && Latest(l.t.pair).Some?
    && (l.writes == 0 ==> Latest(l.t.pair).value == start)
    && FLOOR_STEP_SECS * l.writes <= Latest(l.t.pair).value - start <= 900 + BootSecs(l)
  }

  ghost predicate AnchorBounded(l: Timeline, start: Seconds) {
    match l.t.wall.anchorUnix
    case None => l.writes == 0
    case Some(anchor) => anchor <= start + MAX_DRIFT_SECS && l.startUs <= l.t.wall.anchorMonoUs
  }

  ghost predicate NoPhysicalRecovery(events: seq<TimeEvent>) {
    forall i :: 0 <= i < |events| && events[i].TBoot? ==> !events[i].physical
  }

  /** Trusted time never runs ahead of the boot's floor by more than 900 s and the elapsed time. */
  lemma TrustedTimeBounded(l: Timeline)
    requires InWindow(l.t.wall, l.t.nowUs)
    requires l.bootFloor.Some? && l.t.wall.anchorUnix.Some?
    requires AnchorBounded(l, l.bootFloor.value)
    ensures TrustedNow(l.t.wall, l.t.nowUs).Some?
    ensures TrustedNow(l.t.wall, l.t.nowUs).value <= l.bootFloor.value + 900 + BootSecs(l)
  {
    WindowHolds(l.t.wall, l.t.nowUs);
    SplitElapsed(l.startUs, l.t.wall.anchorMonoUs, l.t.nowUs);
  }

  lemma SetKeepsBoot(l: Timeline, e: TimeEvent, limit: nat)
    requires Coherent(l.t, limit) && BootBounded(l)
    requires limit < SEQUENCE_SPACE - 1
    requires e.TSet? && l.t.on && l.booted && l.bootFloor.Some?
    ensures BootBounded(Track(l, e))
  {
    var plan := PlanSetTime(l.t, e.unix);
    if plan.Adopt? {
      SetKeepsWindow(l.t.wall, l.t.nowUs, e.unix);
      TrustedTimeBounded(l.(t := l.t.(wall := plan.wall)));
      if plan.persist {
        WriteIsAtomic(l.t.pair, plan.floor.value, e.write, limit);
      }
    }
  }

  lemma TrackKeepsBoot(l: Timeline, e: TimeEvent, limit: nat)
    requires Coherent(l.t, limit) && BootBounded(l)
    requires limit < SEQUENCE_SPACE - 1
    requires e.TBoot? ==> !e.physical
    ensures BootBounded(Track(l, e))
  {
    if e.TSet? && l.t.on && l.booted && l.bootFloor.Some? {
      SetKeepsBoot(l, e, limit);
    }
  }

  /** One step without physical recovery never lowers the persisted floor. */
  lemma FloorNeverFalls(t: TimeState, e: TimeEvent, limit: nat)
    requires Coherent(t, limit) && limit < SEQUENCE_SPACE - 1
    requires t.on ==> !t.physical
    requires Latest(t.pair).Some?
    ensures Latest(TimeStep(t, e).pair).Some?
    ensures Latest(t.pair).value <= Latest(TimeStep(t, e).pair).value
  {
    if e.TSet? && t.on {
      var plan := PlanSetTime(t, e.unix);
      if plan.Adopt? && plan.persist {
        WriteIsAtomic(t.pair, plan.floor.value, e.write, limit);
      }
    }
  }

  // --------------------------------------------------------------- whole runs

  /** A timeline that has not been powered yet, over a flash that holds a floor. */
  ghost predicate Unpowered(l: Timeline, limit: nat) {
    !l.booted && !l.t.on && WellNumbered(l.t.pair, limit)
  }

  lemma {:induction false} RunKeepsBounds(l: Timeline, events: seq<TimeEvent>, limit: nat)
    requires Unpowered(l, limit) && limit + |events| < SEQUENCE_SPACE
    requires NoPhysicalRecovery(events)
    ensures var end := TrackRun(l, events);
            Coherent(end.t, limit + |events|) && BootBounded(end)
  {
    if events != [] {
      var before := events[..|events| - 1];
      var e := events[|events| - 1];
      RunKeepsBounds(l, before, limit);
      StepKeepsCoherent(TrackRun(l, before).t, e, limit + |before|);
      TrackKeepsBoot(TrackRun(l, before), e, limit + |before|);
    }
  }

  /** The floor is at least `base` and within the allowance of the boots since it was `base`. */
  ghost predicate WithinAllowance(l: Timeline, base: Seconds) {
    && Latest(l.t.pair).Some?
    && base <= Latest(l.t.pair).value <= base + Allowance(l)
    && (l.booted ==> l.bootFloor.Some? && l.bootFloor.value <= base + l.earlier)
  }

  lemma TrackKeepsAllowance(l: Timeline, e: TimeEvent, limit: nat, base: Seconds)
    requires Coherent(l.t, limit) && limit < SEQUENCE_SPACE - 1
    requires BootBounded(l) && BootBounded(Track(l, e))
    requires WithinAllowance(l, base)
    requires !l.booted ==> !l.t.on
    ensures WithinAllowance(Track(l, e), base)
    ensures !Track(l, e).booted ==> !Track(l, e).t.on
  {
    FloorNeverFalls(l.t, e, limit);
  }

  /**
   * Time cannot be ratcheted across boots. Over every run without physical
   * recovery, whatever is cut or fails, the persisted floor never falls and
   * stays within the summed allowance of the boots; the current boot wrote it
   * at most (900 + elapsed) / 3600 times.
   */
  lemma {:induction false} TimeCannotBeRatcheted(l: Timeline, events: seq<TimeEvent>, limit: nat)
    requires Unpowered(l, limit) && limit + |events| < SEQUENCE_SPACE
    requires NoPhysicalRecovery(events)
    requires Latest(l.t.pair).Some?
    ensures var end := TrackRun(l, events);
            && WithinAllowance(end, Latest(l.t.pair).value)
            && (end.booted ==> FLOOR_STEP_SECS * end.writes <= 900 + BootSecs(end))
            && (!end.booted ==> !end.t.on)
  {
    RunKeepsBounds(l, events, limit);
    if events != [] {
      var before := events[..|events| - 1];
      RunKeepsBounds(l, before, limit);
      TimeCannotBeRatcheted(l, before, limit);
      TrackKeepsAllowance(TrackRun(l, before), events[|events| - 1], limit + |before|, Latest(l.t.pair).value);
    }
  }

  /**
   * Certificates inherit the bound: a certificate of at most 24 hours, issued
   * anywhere in such a run, expires no later than the floor this boot started
   * with plus 1800 seconds, the elapsed time and the validity.
   */
  lemma ExpiryBounded(l: Timeline, events: seq<TimeEvent>, limit: nat, validitySecs: nat)
    requires Unpowered(l, limit) && limit + |events| < SEQUENCE_SPACE
    requires NoPhysicalRecovery(events)
    requires validitySecs <= MAX_VALIDITY_SECS
    ensures var end := TrackRun(l, events);
            end.t.on && end.booted && end.bootFloor.Some? && NowUnix(end.t.wall, end.t.nowUs).Some? ==>
              NowUnix(end.t.wall, end.t.nowUs).value + validitySecs
              <= end.bootFloor.value + 1800 + BootSecs(end) + MAX_VALIDITY_SECS
  {
    RunKeepsBounds(l, events, limit);
    var end := TrackRun(l, events);
    if end.t.on && end.booted && end.bootFloor.Some? && NowUnix(end.t.wall, end.t.nowUs).Some? {
      TrustedTimeBounded(end);
      WindowHolds(end.t.wall, end.t.nowUs);
    }
  }

  // -------------------------------------------------------------------- progress

  /** The floor in RAM is the stored one unless it is known to be unavailable, and the clock is in its window. */
  ghost predicate FloorAgrees(t: TimeState, limit: nat) {
    && WellNumbered(t.pair, limit)
    && (t.on ==> InWindow(t.wall, t.nowUs) && (!t.unavailable ==> t.floor == Latest(t.pair)))
  }

  lemma LoadAgrees(t: TimeState, readable: bool, limit: nat)
    requires WellNumbered(t.pair, limit) && (t.on ==> InWindow(t.wall, t.nowUs))
    ensures FloorAgrees(LoadFloor(t, readable), limit)
  {
  }

  lemma SetTimeAgrees(t: TimeState, unix: Seconds, read: Outcome, write: Outcome, limit: nat)
    requires FloorAgrees(t, limit) && t.on && limit < SEQUENCE_SPACE - 1
    ensures FloorAgrees(SetTime(t, unix, read, write), limit + 1)
  {
    hide WritePair;
    SetKeepsWindow(t.wall, t.nowUs, unix);
    var plan := PlanSetTime(t, unix);
    if plan.Adopt? && plan.persist {
      WriteIsAtomic(t.pair, plan.floor.value, write, limit);
    }
  }

  /** Whether a value passes: the floor can be read, and bounds the first value unless recovery is physical. */
  predicate Passes(t: TimeState, unix: Seconds) {
    && !t.unavailable
    && SetWall(t.wall, t.nowUs, unix).Some?
    && (t.wall.epochUnix.None? && !t.physical && t.floor.Some? ==> -900 <= unix - t.floor.value <= 900)
  }

  /** The floor that is then due: the first one, a physically recovered one, or trusted time an hour past the old one. */
  ghost predicate FloorIsDue(t: TimeState, unix: Seconds, after: TimeState) {
    var trusted := TrustedNow(after.wall, after.nowUs);
    if t.wall.epochUnix.None? && (t.floor.None? || t.physical) then Latest(after.pair) == Some(unix)
    else if t.floor.Some? && trusted.Some? && trusted.value - t.floor.value >= 3600 then Latest(after.pair) == trusted
    else after.pair == t.pair
  }

  /**
   * Time makes progress: without faults a value that passes is what the clock
   * reads afterwards, and the persisted floor advances whenever it is due; a
   * value that does not pass changes nothing.
   */
  lemma SetTimeIsExact(t: TimeState, unix: Seconds, limit: nat)
    requires FloorAgrees(t, limit) && t.on && limit < SEQUENCE_SPACE - 1
    ensures var after := SetTime(t, unix, Done, Done);
            if !Passes(t, unix) then after == t
            else NowUnix(after.wall, after.nowUs) == Some(unix) && after.floor == Latest(after.pair) && FloorIsDue(t, unix, after)
  {
    hide WritePair, Latest;
    SetKeepsWindow(t.wall, t.nowUs, unix);
    AcceptsIff(t.wall, t.nowUs, unix);
    var plan := PlanSetTime(t, unix);
    if plan.Adopt? && plan.persist {
      WriteIsAtomic(t.pair, plan.floor.value, Done, limit);
    }
  }

  /** A floor that no copy holds, in sectors that are not blank, stops time: nothing is accepted. */
  lemma CorruptFloorFailsClosed(t: TimeState, readable: bool, unix: Seconds)
    requires !readable || (!t.pair.a.Valid? && !t.pair.b.Valid? && !(t.pair.a.Erased? && t.pair.b.Erased?))
    ensures PlanSetTime(LoadFloor(t, readable), unix) == RefuseUnavailable
  {
  }
}
