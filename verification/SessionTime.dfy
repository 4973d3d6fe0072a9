/**
 * Trusted time in the running session: every session event acts on the time
 * part of the device like events of the TrustedTime machine, so its bounds hold
 * for whole sessions and for the certificates they issue.
 */
module SessionTime {
  import opened Options
  import opened Bytes
  import opened AbRecords
  import opened Wrap
  import opened Clock
  import opened TrustedTime
  import opened Attempts
  import opened Session
  import opened SessionShape
  import opened PinCases
  import opened PinBudget
  import Backoff

  // ------------------------------------------- what requests do to the time part

  lemma VerifyTime(d: Device, pin: string, kdfUs: nat)
    ensures OnlyTimePassed(d, VerifyPin(d, pin, kdfUs).0)
  {
    hide VerifyPin;
    if d.ram.config.Some? {
      VerifyCases(d, pin, kdfUs);
    } else {
      VerifyWithoutConfig(d, pin, kdfUs);
    }
  }

  lemma VerifyWithoutConfig(d: Device, pin: string, kdfUs: nat)
    requires d.ram.config.None?
    ensures VerifyPin(d, pin, kdfUs).0 == d
  {
  }

  lemma WritesTime(d: Device, blob: KeyBlob, cfg: DeviceConfig)
    ensures OnlyTimePassed(d, WriteKey(d, blob).0)
    ensures OnlyTimePassed(d, WriteConfig(d, cfg).0)
  {
    hide WritePair;
  }

  lemma RewrapTime(d: Device, wasReady: bool, seed: Seed, newPin: string, draws: Draws)
    ensures OnlyTimePassed(d, Rewrap(d, wasReady, seed, newPin, draws).0)
  {
    hide WriteKey, ResetCounterBestEffort;
    var (d1, healthy) := Try(d);
    var (d2, derived) := Try(d1);
    if healthy && d1.ram.config.Some? && d1.ram.secret.Some? && derived && d2.ram.caPubkey.Some? {
      var kek := PinKek(newPin, draws.salt, d2.ram.config.value.argon2, d2.ram.secret.value);
      var blob := WrapSeed(kek, seed, d2.ram.caPubkey.value, PinWrap, draws.salt, draws.nonce);
      WritesTime(d2, blob, d2.ram.config.value);
      ResetCases(WriteKey(d2, blob).0);
    }
  }

  lemma InitDevTime(d: Device)
    ensures OnlyTimePassed(d, HandleInitDev(d).0)
  {
    hide WriteConfig;
    var none := WrapSeed(DevKek([]), [], PublicOf([]), DevWrap, [], []);
    WritesTime(d, none, DeviceConfig(Dev, DEFAULT_ARGON, 0, false));
  }

  lemma InitProdTime(d: Device, pin: Option<string>, maxRetries: Option<U8>, wipe: Option<bool>, draws: Draws)
    ensures OnlyTimePassed(d, HandleInitProd(d, pin, maxRetries, wipe, draws).0)
  {
    hide Provision;
    if d.ram.config.None? && pin.Some? && PinLengthOk(pin.value) && d.ram.secret.Some? {
      var d1 := Try(d).0;
      var d2 := Try(d1).0;
      var retries: U8 := if maxRetries.Some? then maxRetries.value else 10;
      ProvisionTime(d2, PinKek(pin.value, draws.salt, DEFAULT_ARGON, d.ram.secret.value),
                    DeviceConfig(Prod, DEFAULT_ARGON, retries, wipe == Some(true)), draws);
    }
  }

  lemma ProvisionTime(d: Device, kek: Kek, cfg: DeviceConfig, draws: Draws)
    ensures OnlyTimePassed(d, Provision(d, kek, cfg, draws).0)
  {
    hide WriteKey, WriteConfig, ResetCounterBestEffort;
    var blob := WrapSeed(kek, draws.seed, PublicOf(draws.seed), PinWrap, draws.salt, draws.nonce);
    WritesTime(d, blob, cfg);
    var d1 := WriteKey(d, blob).0;
    WritesTime(d1, blob, cfg);
    ResetCases(WriteConfig(d1, cfg).0);
  }

  lemma LockAndSignTime(d: Device, validityNs: Option<nat>)
    ensures OnlyTimePassed(d, HandleLock(d).0)
    ensures OnlyTimePassed(d, HandleSign(d, validityNs).0)
  {
  }

  lemma GenerateKeyOnlyTime(d: Device, force: bool, draws: Draws)
    ensures OnlyTimePassed(d, HandleGenerateKey(d, force, draws).0)
  {
    hide WriteKey;
    var d1 := Try(d).0;
    if d.ram.config.Some? && d.ram.wrapKek.Some? {
      var prod := d.ram.config.value.mode == Prod;
      if prod ==> d.ram.wrapSalt.Some? {
        var salt := if prod then d.ram.wrapSalt.value else draws.salt;
        WritesTime(d1, WrapSeed(d.ram.wrapKek.value, draws.seed, PublicOf(draws.seed), if prod then PinWrap else DevWrap, salt, draws.nonce),
                   d.ram.config.value);
      }
    }
  }

  lemma AuthorizeTime(d: Device, proof: Option<string>, kdfUs: nat)
    ensures OnlyTimePassed(d, Authorize(d, proof, kdfUs).0)
  {
    hide VerifyPin;
    if proof.Some? {
      VerifyTime(d, proof.value, kdfUs);
    }
  }

  /** Requests other than `setTime` and `factoryReset` only let time pass or lose power. */
  lemma OtherRequestsOnlyPassTime(d: Device, r: Request, env: Env)
    requires !r.SetClock? && !r.FactoryReset?
    ensures OnlyTimePassed(d, Handle(d, r, env).0)
  {
    hide VerifyPin, Rewrap, Authorize, HandleInitProd, HandleInitDev, HandleGenerateKey, HandleLock, HandleSign;
    match r
    case InitDev => InitDevTime(d);
    case InitProd(pin, maxRetries, wipe) => InitProdTime(d, pin, maxRetries, wipe, env.draws);
    case InitOther =>
    case GenerateKey(force) => GenerateKeyOnlyTime(d, force, env.draws);
    case Lock => LockAndSignTime(d, None);
    case Sign(validityNs) => LockAndSignTime(d, validityNs);
    case RebootBootloader(proof) => AuthorizeTime(d, proof, env.kdfUs);
    case Unlock(pin) => VerifyTime(d, pin, env.kdfUs);
    case ChangePin(current, newPin) =>
      VerifyTime(d, current, env.kdfUs);
      var (d1, v) := VerifyPin(d, current, env.kdfUs);
      if v.Verified? {
        RewrapTime(d1, d.ram.state == ProdReady, v.seed, newPin, env.draws);
      }
  }

  lemma SetClockIsSetTime(d: Device, unix: Seconds)
    requires Powered(d)
    ensures HandleSetTime(d, unix).0.time == SetTime(d.time, unix, Next(d), Next(Spend(d)))
  {
    hide WritePair, PlanSetTime;
    PlanNeverDropsFloor(d.time, unix);
  }

  // ------------------------------------------------------------- the refinement

  /** A session event without a factory reset, as events of the time machine. */
  function TimeEvents(d: Device, e: Event): seq<TimeEvent> {
    match e
    case Boot(startUs, physical, _, readable) => [TBoot(startUs, physical, readable.floor)]
    case PowerLoss => [TCut]
    case Elapse(us) => [TElapse(us)]
    case TransportReset => [TIdle]
    case Ask(request, env) =>
      var asked := d.(tape := env.tape);
      if !Powered(d) then [TIdle]
      else if request.SetClock? then [TSet(request.unix, Next(asked), Next(Spend(asked)))]
      else
        var end := Step(d, e);
        var passed := if end.time.nowUs >= d.time.nowUs then end.time.nowUs - d.time.nowUs else 0;
        [TElapse(passed), if Powered(end) then TIdle else TCut]
  }

  predicate KeepsFloor(e: Event) {
    e.Ask? ==> !e.request.FactoryReset?
  }

  function RunTime(t: TimeState, events: seq<TimeEvent>): TimeState
    decreases |events|
  {
    if events == [] then t else RunTime(TimeStep(t, events[0]), events[1..])
  }

  /** Each session event moves the time part exactly as its time events do. */
  lemma StepRefinesTime(d: Device, e: Event)
    requires KeepsFloor(e)
    ensures RunTime(d.time, TimeEvents(d, e)) == Step(d, e).time
  {
    hide Handle, LoadFromFlash, Relock;
    match e
    case Boot(startUs, physical, secret, readable) =>
      var cold := d.(time := d.time.(wall := NewWall(), physical := physical, nowUs := startUs, on := true),
                     ram := ColdRam(secret), tape := []);
      LoadTime(Note(cold, Booted(NowMs(cold))), readable);
    case TransportReset => RelockTime(d);
    case Ask(request, env) =>
      var asked := d.(tape := env.tape);
      if Powered(d) {
        if request.SetClock? {
          HandleOfSetClock(asked, request.unix, env);
          SetClockIsSetTime(asked, request.unix);
        } else {
          OtherRequestsOnlyPassTime(asked, request, env);
          TwoSteps(d.time, TimeEvents(d, e));
        }
      }
    case _ =>
  }

  lemma TwoSteps(t: TimeState, events: seq<TimeEvent>)
    requires |events| == 2
    ensures RunTime(t, events) == TimeStep(TimeStep(t, events[0]), events[1])
  {
    var rest := events[1..];
    assert rest[1..] == [];
    assert RunTime(TimeStep(t, events[0]), rest) == RunTime(TimeStep(TimeStep(t, events[0]), rest[0]), rest[1..]);
  }

  lemma HandleOfSetClock(d: Device, unix: Seconds, env: Env)
    ensures Handle(d, SetClock(unix), env) == HandleSetTime(d, unix)
  {
  }

  lemma RelockTime(d: Device)
    ensures Relock(d).time == d.time
  {
  }

  lemma LoadTime(d: Device, readable: Readable)
    ensures LoadFromFlash(d, readable).time == LoadFloor(d.time, readable.floor)
  {
    hide CountFrom, LoadFloor;
  }

  /** The time events of a whole session run. */
  function TimeTrace(d: Device, events: seq<Event>): seq<TimeEvent> {
    if events == [] then []
    else
      var before := events[..|events| - 1];
      TimeTrace(d, before) + TimeEvents(Run(d, before), events[|events| - 1])
  }

  lemma {:induction false} TrackAppend(l: Timeline, first: seq<TimeEvent>, second: seq<TimeEvent>)
    ensures TrackRun(l, first + second) == TrackRun(TrackRun(l, first), second)
    decreases |second|
  {
    if second == [] {
      assert first + second == first;
    } else {
      var both := first + second;
      assert both[..|both| - 1] == first + second[..|second| - 1];
      TrackAppend(l, first, second[..|second| - 1]);
    }
  }

  lemma TrackShort(l: Timeline, events: seq<TimeEvent>)
    requires 1 <= |events| <= 2
    ensures TrackRun(l, events).t == RunTime(l.t, events)
  {
    if |events| == 1 {
      assert events[..0] == [] && events[1..] == [];
    } else {
      var first := events[..1];
      assert first[..0] == [];
      assert TrackRun(l, first) == Track(l, events[0]);
      TwoSteps(l.t, events);
    }
  }

  /** The session's time part is the time machine run on the trace, with at most two time events per event. */
  lemma {:induction false} SessionRefinesTimeline(d: Device, events: seq<Event>, l: Timeline)
    requires l.t == d.time
    requires forall i :: 0 <= i < |events| ==> KeepsFloor(events[i])
    ensures TrackRun(l, TimeTrace(d, events)).t == Run(d, events).time
    ensures |TimeTrace(d, events)| <= 2 * |events|
  {
    hide TimeEvents, Step;
    if events != [] {
      var before := events[..|events| - 1];
      var e := events[|events| - 1];
      SessionRefinesTimeline(d, before, l);
      var mid := Run(d, before);
      ShortTrace(mid, e);
      TrackAppend(l, TimeTrace(d, before), TimeEvents(mid, e));
      TrackShort(TrackRun(l, TimeTrace(d, before)), TimeEvents(mid, e));
      StepRefinesTime(mid, e);
    }
  }

  lemma ShortTrace(d: Device, e: Event)
    ensures 1 <= |TimeEvents(d, e)| <= 2
    ensures forall i :: 0 <= i < |TimeEvents(d, e)| && TimeEvents(d, e)[i].TBoot? ==> e.Boot? && TimeEvents(d, e)[i].physical == e.physical
  {
  }

  predicate NoRecovery(e: Event) {
    KeepsFloor(e) && (e.Boot? ==> !e.physical)
  }

  lemma {:induction false} TraceWithoutRecovery(d: Device, events: seq<Event>)
    requires forall i :: 0 <= i < |events| ==> NoRecovery(events[i])
    ensures NoPhysicalRecovery(TimeTrace(d, events))
  {
    hide TimeEvents, Run;
    if events != [] {
      var before := events[..|events| - 1];
      TraceWithoutRecovery(d, before);
      ShortTrace(Run(d, before), events[|events| - 1]);
    }
  }

  // ----------------------------------------------------------------- theorems

  /** The history of a device that is switched on for the first time. */
  function FreshTimeline(d: Device): Timeline {
    Timeline(d.time, false, 0, None, 0, 0)
  }

  /**
   * Time cannot be ratcheted by a session: over any requests, faults and
   * reboots without physical recovery or factory reset, the persisted floor
   * never falls and stays within 900 s plus the elapsed seconds for every boot.
   */
  lemma SessionCannotRatchetTime(d: Device, events: seq<Event>, limit: nat)
    requires !Powered(d) && WellNumbered(d.time.pair, limit) && Latest(d.time.pair).Some?
    requires limit + 2 * |events| < SEQUENCE_SPACE
    requires forall i :: 0 <= i < |events| ==> NoRecovery(events[i])
    ensures var end := TrackRun(FreshTimeline(d), TimeTrace(d, events));
            && end.t == Run(d, events).time
            && WithinAllowance(end, Latest(d.time.pair).value)
            && (end.booted ==> FLOOR_STEP_SECS * end.writes <= 900 + BootSecs(end))
  {
    SessionRefinesTimeline(d, events, FreshTimeline(d));
    TraceWithoutRecovery(d, events);
    TimeCannotBeRatcheted(FreshTimeline(d), TimeTrace(d, events), limit);
  }

  /** The running clock is in its window in every reachable state, physical recovery and resets included. */
  ghost predicate WallInWindow(d: Device) {
    Powered(d) ==> InWindow(d.time.wall, d.time.nowUs)
  }

  lemma StepKeepsWall(d: Device, e: Event)
    requires WallInWindow(d)
    ensures WallInWindow(Step(d, e))
  {
    hide Handle, LoadFromFlash, Relock;
    match e
    case Boot(startUs, physical, secret, readable) =>
      var cold := d.(time := d.time.(wall := NewWall(), physical := physical, nowUs := startUs, on := true),
                     ram := ColdRam(secret), tape := []);
      LoadTime(Note(cold, Booted(NowMs(cold))), readable);
      LoadFloorKeepsTime(cold.time, readable.floor);
    case TransportReset => RelockTime(d);
    case Ask(request, env) =>
      if Powered(d) {
        var asked := d.(tape := env.tape);
        if request.SetClock? {
          HandleOfSetClock(asked, request.unix, env);
          SetClockIsSetTime(asked, request.unix);
          SetKeepsWindow(d.time.wall, d.time.nowUs, request.unix);
        } else if request.FactoryReset? {
          FactoryResetKeepsWall(asked, request.confirmed, request.proof, env.kdfUs, env.readable);
          HandleOfReset(asked, request.confirmed, request.proof, env);
        } else {
          OtherRequestsOnlyPassTime(asked, request, env);
        }
      }
    case _ =>
  }

  lemma HandleOfReset(d: Device, confirmed: bool, proof: Option<string>, env: Env)
    ensures Handle(d, Session.FactoryReset(confirmed, proof), env) == HandleFactoryReset(d, confirmed, proof, env.kdfUs, env.readable)
  {
  }

  lemma FactoryResetKeepsWall(d: Device, confirmed: bool, proof: Option<string>, kdfUs: nat, readable: Readable)
    ensures var e := HandleFactoryReset(d, confirmed, proof, kdfUs, readable).0;
            && e.time.wall == d.time.wall && d.time.nowUs <= e.time.nowUs
            && (Powered(e) ==> Powered(d))
  {
    hide Authorize, EraseEverything, LoadFromFlash;
    AuthorizeTime(d, proof, kdfUs);
    var d1 := Authorize(d, proof, kdfUs).0;
    Backoff.EraseEverythingTime(d1);
    var d2 := EraseEverything(d1).0;
    LoadTime(d2, readable);
    LoadFloorKeepsTime(d2.time, readable.floor);
  }

  lemma {:induction false} RunKeepsWall(d: Device, events: seq<Event>)
    requires WallInWindow(d)
    ensures WallInWindow(Run(d, events))
  {
    if events != [] {
      RunKeepsWall(d, events[..|events| - 1]);
      StepKeepsWall(Run(d, events[..|events| - 1]), events[|events| - 1]);
    }
  }

  /** The certificate a signing request produces, if any. */
  function Certificate(d: Device, validityNs: Option<nat>): Option<Observation> {
    var e := HandleSign(d, validityNs).0;
    if e.log != d.log && e.log.Snoc? then Some(e.log.last) else None
  }

  /**
   * Every certificate, in every reachable state, starts 300 s before the clock
   * and ends at most a day after it, without wrapping the 64-bit fields.
   */
  lemma CertificateWindow(events: seq<Event>, validityNs: Option<nat>)
    ensures var d := Run(Factory(), events);
            var cert := Certificate(d, validityNs);
            Powered(d) && cert.Some? ==>
              && cert.value.Issued?
              && NowUnix(d.time.wall, d.time.nowUs).Some?
              && cert.value.validAfter == NowUnix(d.time.wall, d.time.nowUs).value - 300
              && 300 <= cert.value.validBefore - cert.value.validAfter <= 86_700
              && 0 < cert.value.validAfter < cert.value.validBefore < TWO_64
  {
    hide Run;
    RunKeepsWall(Factory(), events);
    var d := Run(Factory(), events);
    if Powered(d) && d.time.wall.epochUnix.Some? {
      WindowHolds(d.time.wall, d.time.nowUs);
    }
  }

  /** Without recovery, a certificate also ends within the bound of the boot's starting floor. */
  lemma CertificateExpiryBounded(d: Device, events: seq<Event>, limit: nat, validityNs: Option<nat>)
    requires !Powered(d) && WellNumbered(d.time.pair, limit) && Latest(d.time.pair).Some?
    requires WallInWindow(d)
    requires limit + 2 * |events| < SEQUENCE_SPACE
    requires forall i :: 0 <= i < |events| ==> NoRecovery(events[i])
    ensures var l := TrackRun(FreshTimeline(d), TimeTrace(d, events));
            var cert := Certificate(Run(d, events), validityNs);
            Powered(Run(d, events)) && cert.Some? ==>
              && l.booted && l.bootFloor.Some?
              && cert.value.Issued?
              && cert.value.validBefore <= l.bootFloor.value + 1800 + BootSecs(l) + MAX_VALIDITY_SECS
  {
    hide Run, TimeTrace;
    SessionCannotRatchetTime(d, events, limit);
    TimeCannotBeRatchetedHere(d, events, limit);
    RunKeepsWall(d, events);
    var end := Run(d, events);
    if Powered(end) && Certificate(end, validityNs).Some? {
      WindowHolds(end.time.wall, end.time.nowUs);
      ExpiryBounded(FreshTimeline(d), TimeTrace(d, events), limit, validityNs.value / 1_000_000_000);
    }
  }

  lemma TimeCannotBeRatchetedHere(d: Device, events: seq<Event>, limit: nat)
    requires !Powered(d) && WellNumbered(d.time.pair, limit) && Latest(d.time.pair).Some?
    requires limit + 2 * |events| < SEQUENCE_SPACE
    requires forall i :: 0 <= i < |events| ==> NoRecovery(events[i])
    ensures |TimeTrace(d, events)| <= 2 * |events| && NoPhysicalRecovery(TimeTrace(d, events))
    ensures var l := TrackRun(FreshTimeline(d), TimeTrace(d, events));
            (l.t.on ==> l.booted) && (l.booted ==> l.bootFloor.Some?)
  {
    SessionRefinesTimeline(d, events, FreshTimeline(d));
    TraceWithoutRecovery(d, events);
    TimeCannotBeRatcheted(FreshTimeline(d), TimeTrace(d, events), limit);
  }

  // -------------------------------------------------------------------- progress

  lemma EraseFloorAgrees(d: Device, limit: nat)
    requires WellNumbered(d.time.pair, limit)
    ensures WellNumbered(EraseEverything(d).0.time.pair, limit)
    ensures EraseEverything(d).1 ==> EraseEverything(d).0.time.pair == BlankPair()
  {
    hide EraseKeyVerified, EraseConfig, EraseFloor, ResetCounter;
    EraseKeyKeeps(DropLiveSecrets(d));
    var d1 := EraseKeyVerified(DropLiveSecrets(d)).0;
    FloorAfterErases(d1, limit);
    var d2 := EraseConfig(d1).0;
    FloorAfterErases(d2, limit);
    FloorAfterErases(EraseFloor(d2).0, limit);
  }

  lemma FloorAfterErases(d: Device, limit: nat)
    ensures EraseConfig(d).0.time.pair == d.time.pair && ResetCounter(d).0.time.pair == d.time.pair
    ensures WellNumbered(d.time.pair, limit) ==> WellNumbered(EraseFloor(d).0.time.pair, limit)
    ensures EraseFloor(d).1 ==> EraseFloor(d).0.time.pair == BlankPair()
  {
  }

  lemma ResetAgrees(d: Device, confirmed: bool, proof: Option<string>, kdfUs: nat, readable: Readable, limit: nat)
    requires FloorAgrees(d.time, limit)
    ensures FloorAgrees(HandleFactoryReset(d, confirmed, proof, kdfUs, readable).0.time, limit)
  {
    hide Authorize, EraseEverything, LoadFromFlash, InWindow, WellNumbered, Latest, LoadFloor;
    AuthorizeTime(d, proof, kdfUs);
    var d1 := Authorize(d, proof, kdfUs).0;
    PassingKeepsWindow(d, d1);
    EraseFloorAgrees(d1, limit);
    Backoff.EraseEverythingTime(d1);
    var d2 := EraseEverything(d1).0;
    LoadTime(d2, readable);
    LoadAgrees(d2.time, readable.floor, limit);
    BlankHasNoLatest();
  }

  lemma BlankHasNoLatest()
    ensures Latest(BlankPair<Seconds>()) == None
  {
  }

  lemma PassingKeepsWindow(d: Device, e: Device)
    requires OnlyTimePassed(d, e)
    ensures InWindow(d.time.wall, d.time.nowUs) ==> InWindow(e.time.wall, e.time.nowUs)
  {
  }

  lemma StepAgrees(d: Device, e: Event, limit: nat)
    requires FloorAgrees(d.time, limit) && limit < SEQUENCE_SPACE - 1
    ensures FloorAgrees(Step(d, e).time, limit + 1)
  {
    hide Handle, LoadFromFlash, Relock, LoadFloor;
    match e
    case Boot(startUs, physical, secret, readable) =>
      var cold := d.(time := d.time.(wall := NewWall(), physical := physical, nowUs := startUs, on := true),
                     ram := ColdRam(secret), tape := []);
      LoadTime(Note(cold, Booted(NowMs(cold))), readable);
      LoadAgrees(cold.time, readable.floor, limit + 1);
    case TransportReset => RelockTime(d);
    case Ask(request, env) =>
      if Powered(d) {
        var asked := d.(tape := env.tape);
        if request.SetClock? {
          HandleOfSetClock(asked, request.unix, env);
          SetClockIsSetTime(asked, request.unix);
          SetTimeAgrees(d.time, request.unix, Next(asked), Next(Spend(asked)), limit);
        } else if request.FactoryReset? {
          HandleOfReset(asked, request.confirmed, request.proof, env);
          ResetAgrees(asked, request.confirmed, request.proof, env.kdfUs, env.readable, limit);
        } else {
          OtherRequestsOnlyPassTime(asked, request, env);
        }
      }
    case _ =>
  }

  lemma {:induction false} RunAgrees(events: seq<Event>)
    requires |events| < SEQUENCE_SPACE
    ensures FloorAgrees(Run(Factory(), events).time, |events|)
  {
    hide Step;
    if events != [] {
      RunAgrees(events[..|events| - 1]);
      StepAgrees(Run(Factory(), events[..|events| - 1]), events[|events| - 1], |events| - 1);
    }
  }

  /**
   * In every reachable session and without faults, `setTime` succeeds exactly for
   * a value that passes; the clock then reads it, and the persisted floor has
   * advanced to trusted time if that is an hour or more past it.
   */
  lemma SetTimeMakesProgress(events: seq<Event>, unix: Seconds)
    requires |events| < SEQUENCE_SPACE - 1
    requires Powered(Run(Factory(), events))
    ensures var d := Run(Factory(), events).(tape := []);
            var (e, reply) := HandleSetTime(d, unix);
            && (reply == Success <==> Passes(d.time, unix))
            && (reply != Success ==> e == d && reply == (if d.time.unavailable then Fail(FlashFailed) else Fail(BadRequest)))
            && (reply == Success ==> NowUnix(e.time.wall, e.time.nowUs) == Some(unix) && FloorIsDue(d.time, unix, e.time))
  {
    hide Run, WritePair, Latest, InWindow, FloorIsDue;
    RunAgrees(events);
    var d := Run(Factory(), events).(tape := []);
    SetTimeIsExact(d.time, unix, |events|);
    SetClockIsSetTime(d, unix);
    PlanIsExact(d.time, unix);
    SetTimeReply(d, unix);
  }

  lemma PlanIsExact(t: TimeState, unix: Seconds)
    ensures PlanSetTime(t, unix).Adopt? <==> Passes(t, unix)
    ensures PlanSetTime(t, unix).RefuseUnavailable? <==> t.unavailable
  {
  }

  lemma SetTimeReply(d: Device, unix: Seconds)
    requires Powered(d) && d.tape == []
    ensures var (e, reply) := HandleSetTime(d, unix);
            var plan := PlanSetTime(d.time, unix);
            && (reply == Success <==> plan.Adopt?)
            && (!plan.Adopt? ==> e == d && reply == (if plan.RefuseUnavailable? then Fail(FlashFailed) else Fail(BadRequest)))
  {
    hide PlanSetTime, WritePair;
    PlanNeverDropsFloor(d.time, unix);
  }
}
