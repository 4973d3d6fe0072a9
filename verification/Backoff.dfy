/**
 * Backoff is always paid: each wrong PIN is evaluated only after the delay that
 * the ones before it earned since the counter was last erased or the device last
 * provisioned, counted from the last failure or from the latest boot.
 */
module Backoff {
  import opened Options
  import opened AbRecords
  import opened Wrap
  import Clock
  import opened TrustedTime
  import opened Attempts
  import opened Session
  import opened SessionShape
  import opened PinCases
  import opened PinBudget
  import opened PinLog

  /** The monotonic reading of the last wrong PIN or of the latest boot, whichever came later. */
  function Since(log: Log): nat {
    match log
    case Empty => 0
    case Snoc(earlier, last) =>
      if last.Wrong? then last.ms
      else if last.Booted? then last.ms
      else Since(earlier)
  }

  /** Every wrong PIN came at least its delay after the event it is counted from, numbered since erasure or provisioning. */
  ghost predicate BackoffPaid(log: Log) {
    log.Snoc? ==>
      && BackoffPaid(log.earlier)
      && (log.last.Wrong? && Spent(log.earlier) > 0 ==>
            Since(log.earlier) + BackoffMs(Spent(log.earlier) - 1) <= log.last.ms)
  }

  /** The device was provisioned over old wrong PINs, and has neither evaluated one nor booted since. */
  predicate Excused(log: Log) {
    match log
    case Empty => false
    case Snoc(earlier, last) =>
      if last.Wrong? || last.Booted? || last.CounterErased? then false
      else if last.Provisioned? then WrongSinceErased(earlier) > 0
      else Excused(earlier)
  }

  /** A delay is due before the next wrong PIN, wrong PINs being numbered since the last erasure alone. */
  predicate Owes(log: Log) {
    WrongSinceErased(log) > 0 && !Excused(log)
  }

  function Due(log: Log): nat {
    if WrongSinceErased(log) == 0 then 0 else BackoffMs(WrongSinceErased(log) - 1)
  }

  ghost predicate DelaysPaid(log: Log) {
    log.Snoc? ==>
      && DelaysPaid(log.earlier)
      && (log.last.Wrong? && Owes(log.earlier) ==> Since(log.earlier) + Due(log.earlier) <= log.last.ms)
  }

  /** The deadline in RAM covers the delay that is due, and is at most 30 s ahead. */
  ghost predicate DeadlineSet(d: Device) {
    && Since(d.log) <= NowMs(d)
    && d.ram.backoffUntilMs <= NowMs(d) + BACKOFF_CAP_MS
    && (d.ram.state in {ProdLocked, ProdReady} && Owes(d.log) ==> Since(d.log) + Due(d.log) <= d.ram.backoffUntilMs)
  }

  ghost predicate Paid(d: Device) {
    DelaysPaid(d.log) && (Powered(d) ==> DeadlineSet(d))
  }

  lemma DeadlineExact(d: Device, failed: nat)
    ensures Deadline(NowMs(d), BackoffMs(failed)) == NowMs(d) + BackoffMs(failed)
  {
  }

  // ------------------------------------------------------------------- steps

  /** A step after which nothing is owed that was not owed before. */
  ghost predicate OwesNoMore(d: Device, e: Device) {
    && (Powered(e) ==> Powered(d))
    && (DelaysPaid(d.log) ==> DelaysPaid(e.log))
    && NowMs(d) <= NowMs(e)
    && Since(e.log) == Since(d.log)
    && (|| !Owes(e.log)
        || (Owes(d.log) && WrongSinceErased(e.log) == WrongSinceErased(d.log) && e.ram.backoffUntilMs == d.ram.backoffUntilMs
            && (e.ram.state in {ProdLocked, ProdReady} ==> d.ram.state in {ProdLocked, ProdReady})))
    && e.ram.backoffUntilMs <= d.ram.backoffUntilMs
  }

  lemma OwingKeepsPaid(d: Device, e: Device)
    requires Paid(d) && OwesNoMore(d, e)
    ensures Paid(e)
  {
  }

  lemma VerifyPaid(d: Device, pin: string, kdfUs: nat)
    requires Budgeted(d) && Paid(d) && Powered(d) && d.ram.state in {ProdLocked, ProdReady}
    ensures Paid(VerifyPin(d, pin, kdfUs).0)
    ensures VerifyPin(d, pin, kdfUs).1.Verified? ==> VerifyPin(d, pin, kdfUs).0.ram.state == d.ram.state
  {
    hide VerifyPin;
    VerifyCases(d, pin, kdfUs);
    VerifyKeeps(d, pin, kdfUs);
    var (e, v) := VerifyPin(d, pin, kdfUs);
    OutcomePaid(d, pin, e, v);
  }

  lemma OutcomePaid(d: Device, pin: string, e: Device, v: Verdict)
    requires Budgeted(d) && Paid(d) && Powered(d) && d.ram.state in {ProdLocked, ProdReady}
    requires VerifyOutcome(d, pin, e, v)
    ensures Paid(e)
  {
    hide CountFrom, Since, Due, WrongSinceErased, Excused, DelaysPaid, BackoffMs;
    var max := d.ram.config.value.maxRetries;
    if v.Verified? {
      OpenedPaid(d, e);
    } else if Unevaluated(d, e) {
      OwingKeepsPaid(d, e);
    } else if WrongBelowLimit(d, e, max, Count(d.flash.marks) + 1) {
      BelowPaid(d, e, max);
    } else {
      assert WrongAtLimit(d, e, max);
      LimitPaid(d, e, max);
    }
  }

  lemma BelowPaid(d: Device, e: Device, max: nat)
    requires OnCounter(d.log, Count(d.flash.marks)) && Paid(d) && Powered(d) && d.ram.state in {ProdLocked, ProdReady}
    requires !Waiting(d) && WrongBelowLimit(d, e, max, Count(d.flash.marks) + 1) && max <= 255
    ensures Paid(e)
  {
    hide Count, BackoffMs, Deadline;
    var attempts := Count(d.flash.marks) + 1;
    DeadlineExact(e, attempts - 1);
    BackoffMonotone(WrongSinceErased(d.log), attempts - 1);
    assert Since(e.log) == NowMs(e) && Due(e.log) == BackoffMs(WrongSinceErased(d.log));
  }

  lemma OpenedPaid(d: Device, e: Device)
    requires Paid(d) && Powered(d) && Opened(d, e)
    ensures Paid(e)
  {
    var passed := Snoc(d.log, Right);
    assert Since(passed) == Since(Snoc(passed, CounterErased)) == Since(d.log);
    assert DelaysPaid(Snoc(passed, CounterErased));
  }

  lemma LimitPaid(d: Device, e: Device, max: nat)
    requires Accounted(d) && Paid(d) && Powered(d) && d.ram.state in {ProdLocked, ProdReady}
    requires !Waiting(d) && WrongAtLimit(d, e, max)
    ensures Paid(e)
  {
    hide CountFrom;
    var wrong := Snoc(d.log, Wrong(NowMs(e)));
    assert DelaysPaid(wrong);
    assert Since(e.log) == Since(wrong) == NowMs(e);
  }

  lemma ResetOwesNoMore(d: Device)
    ensures OwesNoMore(d, ResetCounterBestEffort(d))
  {
    hide ResetCounterBestEffort;
    ResetCases(d);
    assert Since(Snoc(d.log, CounterErased)) == Since(d.log);
    assert DelaysPaid(d.log) ==> DelaysPaid(Snoc(d.log, CounterErased));
  }

  lemma WritesOweNoMore(d: Device, blob: KeyBlob, cfg: DeviceConfig)
    ensures OwesNoMore(d, WriteKey(d, blob).0)
    ensures OwesNoMore(d, WriteConfig(d, cfg).0)
    ensures WriteConfig(d, cfg).1 ==> !Owes(WriteConfig(d, cfg).0.log)
  {
    hide WritePair;
  }

  lemma InitProdPaid(d: Device, pin: Option<string>, maxRetries: Option<U8>, wipe: Option<bool>, draws: Draws)
    requires Paid(d) && Powered(d) && Shape(d.ram)
    ensures Paid(HandleInitProd(d, pin, maxRetries, wipe, draws).0)
  {
    hide Provision, Paid;
    if d.ram.config.None? && pin.Some? && PinLengthOk(pin.value) {
      var (d1, healthy) := Try(d);
      TryPaid(d);
      var (d2, derived) := Try(d1);
      TryPaid(d1);
      var retries: U8 := if maxRetries.Some? then maxRetries.value else 10;
      if d.ram.secret.Some? {
        ProvisionPaid(d2, PinKek(pin.value, draws.salt, DEFAULT_ARGON, d.ram.secret.value),
                      DeviceConfig(Prod, DEFAULT_ARGON, retries, wipe == Some(true)), draws);
      }
    }
  }

  lemma TryPaid(d: Device)
    requires Paid(d)
    ensures Paid(Try(d).0)
  {
    OwingKeepsPaid(d, Try(d).0);
  }

  lemma ProvisionPaid(d: Device, kek: Kek, cfg: DeviceConfig, draws: Draws)
    requires Paid(d)
    ensures Paid(Provision(d, kek, cfg, draws).0)
  {
    hide WriteKey, WriteConfig, ResetCounterBestEffort;
    var blob := WrapSeed(kek, draws.seed, PublicOf(draws.seed), PinWrap, draws.salt, draws.nonce);
    WritesOweNoMore(d, blob, cfg);
    var (d1, keyOk) := WriteKey(d, blob);
    OwingKeepsPaid(d, d1);
    WritesOweNoMore(d1, blob, cfg);
    var (d2, cfgOk) := WriteConfig(d1, cfg);
    OwingKeepsPaid(d1, d2);
    ResetOwesNoMore(d2);
    OwingKeepsPaid(d2, ResetCounterBestEffort(d2));
    ResetCases(d2);
  }

  lemma RewrapPaid(d: Device, wasReady: bool, seed: Seed, newPin: string, draws: Draws)
    requires Paid(d) && d.ram.state in {ProdLocked, ProdReady}
    ensures Paid(Rewrap(d, wasReady, seed, newPin, draws).0)
  {
    hide WriteKey, ResetCounterBestEffort;
    var (d1, healthy) := Try(d);
    OwingKeepsPaid(d, d1);
    var (d2, derived) := Try(d1);
    OwingKeepsPaid(d1, d2);
    if healthy && d1.ram.config.Some? && d1.ram.secret.Some? && derived && d2.ram.caPubkey.Some? {
      var kek := PinKek(newPin, draws.salt, d2.ram.config.value.argon2, d2.ram.secret.value);
      var blob := WrapSeed(kek, seed, d2.ram.caPubkey.value, PinWrap, draws.salt, draws.nonce);
      WritesOweNoMore(d2, blob, d2.ram.config.value);
      WritesKeep(d2, blob, d2.ram.config.value);
      var (d3, ok) := WriteKey(d2, blob);
      OwingKeepsPaid(d2, d3);
      ResetOwesNoMore(d3);
      ResetKeepsRam(d3);
      var d4 := ResetCounterBestEffort(d3);
      OwingKeepsPaid(d3, d4);
      assert OwesNoMore(d4, AdoptNewPin(d4, wasReady, seed, kek, draws.salt));
      OwingKeepsPaid(d4, AdoptNewPin(d4, wasReady, seed, kek, draws.salt));
    }
  }

  lemma ChangePinPaid(d: Device, current: string, newPin: string, draws: Draws, kdfUs: nat)
    requires Budgeted(d) && Paid(d) && Powered(d)
    ensures Paid(HandleChangePin(d, current, newPin, draws, kdfUs).0)
  {
    hide VerifyPin, Rewrap;
    if d.ram.state in {ProdLocked, ProdReady} && PinLengthOk(newPin) {
      VerifyPaid(d, current, kdfUs);
      VerifyKeeps(d, current, kdfUs);
      var (d1, v) := VerifyPin(d, current, kdfUs);
      if v.Verified? {
        RewrapPaid(d1, d.ram.state == ProdReady, v.seed, newPin, draws);
      }
    }
  }

  /** Loading reconstructs a deadline that covers what the history owes. */
  lemma LoadPaid(d: Device, readable: Readable)
    requires Accounted(d) && DelaysPaid(d.log) && Since(d.log) <= NowMs(d)
    requires readable.config && readable.key && readable.count
    ensures Paid(LoadFromFlash(d, readable))
  {
    hide LoadSession, LoadFloor, Latest, DelaysPaid, Since, Accounted, OnCounter;
    LoadFloorKeepsTime(d.time, readable.floor);
    var cached := LoadCaches(d, Latest(d.flash.key), readable.floor);
    assert OnCounter(d.log, Count(d.flash.marks)) by {
      AccountedSpending(d);
    }
    LoadSessionPaid(cached, Latest(d.flash.config), Latest(d.flash.key));
  }

  lemma AccountedSpending(d: Device)
    requires Accounted(d)
    ensures OnCounter(d.log, Count(d.flash.marks))
  {
  }

  lemma LoadSessionPaid(d: Device, cfg: Option<DeviceConfig>, blob: Option<KeyBlob>)
    requires OnCounter(d.log, Count(d.flash.marks)) && DelaysPaid(d.log) && Since(d.log) <= NowMs(d)
    ensures Paid(LoadSession(d, cfg, blob, true))
  {
    hide Count, UnwrapSeed, LoadProd, DelaysPaid, Since, WrongSinceErased, OnCounter;
    if cfg.Some? && cfg.value.mode == Prod {
      LoadProdPaid(DropLiveSecrets(d.(ram := d.ram.(config := cfg))), cfg.value, blob);
    }
  }

  lemma SameMoment(d: Device, e: Device)
    requires d.time == e.time
    ensures NowMs(d) == NowMs(e)
  {
  }

  /** The delay for the attempts on the counter covers the one that is due, also when the counter is full. */
  lemma DueIsCovered(log: Log, attempts: nat)
    requires OnCounter(log, attempts) && attempts > 0
    ensures Due(log) <= BackoffMs(attempts - 1)
  {
    if 0 < WrongSinceErased(log) <= attempts {
      BackoffMonotone(WrongSinceErased(log) - 1, attempts - 1);
    }
  }

  lemma LoadProdPaid(d: Device, c: DeviceConfig, blob: Option<KeyBlob>)
    requires OnCounter(d.log, Count(d.flash.marks)) && DelaysPaid(d.log) && Since(d.log) <= NowMs(d)
    ensures Paid(LoadProd(d, c, blob, true))
  {
    hide Count, BackoffMs, Deadline, NowMs;
    SameMoment(d, LoadProd(d, c, blob, true));
    var attempts := Count(d.flash.marks);
    if attempts > 0 {
      DeadlineExact(d, attempts - 1);
      BackoffMonotone(0, attempts - 1);
      DueIsCovered(d.log, attempts);
    }
  }

  lemma FactoryResetPaid(d: Device, readable: Readable)
    requires Accounted(d) && Paid(d)
    requires readable.config && readable.key && readable.count
    ensures Paid(RunFactoryReset(d, readable).0)
  {
    hide EraseEverything, LoadFromFlash;
    EraseEverythingAccounted(d);
    EraseEverythingKeeps(d);
    EraseEverythingTime(d);
    var (d1, clean) := EraseEverything(d);
    assert DelaysPaid(d1.log);
    assert Since(d1.log) == Since(d.log);
    if Powered(d1) {
      LoadPaid(d1, readable);
    } else {
      LoadOffPaid(d1, readable);
    }
  }

  lemma LoadOffPaid(d: Device, readable: Readable)
    requires !Powered(d) && DelaysPaid(d.log)
    ensures Paid(LoadFromFlash(d, readable))
  {
    hide CountFrom, LoadFloor;
    LoadFloorKeepsTime(d.time, readable.floor);
  }

  lemma EraseEverythingTime(d: Device)
    ensures var e := EraseEverything(d).0;
            && e.time.nowUs == d.time.nowUs && e.time.physical == d.time.physical && e.time.wall == d.time.wall
            && (Powered(e) ==> Powered(d))
  {
    hide EraseKeyVerified, EraseConfig, EraseFloor, ResetCounter;
    EraseKeyKeeps(DropLiveSecrets(d));
    EraseCannotPowerUp(DropLiveSecrets(d));
    var (d1, _) := EraseKeyVerified(DropLiveSecrets(d));
    EraseOthersTime(d1);
    var (d2, _) := EraseConfig(d1);
    EraseOthersTime(d2);
    var (d3, _) := EraseFloor(d2);
    EraseOthersTime(d3);
  }

  /** Two moments of one request, or of one boot: the clock hardware is the same. */
  predicate SameTimekeeping(d: Device, e: Device) {
    && e.time.nowUs == d.time.nowUs && e.time.physical == d.time.physical && e.time.wall == d.time.wall
    && (Powered(e) ==> Powered(d))
  }

  lemma EraseOthersTime(d: Device)
    ensures SameTimekeeping(d, EraseConfig(d).0)
    ensures SameTimekeeping(d, EraseFloor(d).0)
    ensures SameTimekeeping(d, ResetCounter(d).0)
  {
    hide ErasePair, Cleared;
  }

  lemma AuthorizePaid(d: Device, proof: Option<string>, kdfUs: nat)
    requires Budgeted(d) && Paid(d) && Powered(d)
    ensures Paid(Authorize(d, proof, kdfUs).0)
  {
    hide VerifyPin;
    if d.ram.state in {ProdLocked, ProdReady} && proof.Some? {
      VerifyPaid(d, proof.value, kdfUs);
    }
  }

  lemma UnlockPaid(d: Device, pin: string, kdfUs: nat)
    requires Budgeted(d) && Paid(d) && Powered(d)
    ensures Paid(HandleUnlock(d, pin, kdfUs).0)
  {
    hide VerifyPin;
    if d.ram.state == ProdLocked {
      VerifyPaid(d, pin, kdfUs);
      VerifyKeeps(d, pin, kdfUs);
    }
  }

  lemma KeyHandlersPaid(d: Device, force: bool, draws: Draws)
    requires Paid(d) && Powered(d) && Shape(d.ram)
    ensures Paid(HandleInitDev(d).0)
    ensures Paid(HandleGenerateKey(d, force, draws).0)
  {
    hide WriteConfig, HandleGenerateKey;
    WritesOweNoMore(d, WrapSeed(DevKek([]), [], PublicOf([]), DevWrap, [], []), DeviceConfig(Dev, DEFAULT_ARGON, 0, false));
    WritesKeep(d, WrapSeed(DevKek([]), [], PublicOf([]), DevWrap, [], []), DeviceConfig(Dev, DEFAULT_ARGON, 0, false));
    GenerateKeyBooks(d, force, draws);
    GenerateKeyTime(d, force, draws);
    OwingKeepsPaid(d, HandleGenerateKey(d, force, draws).0);
  }

  lemma GenerateKeyTime(d: Device, force: bool, draws: Draws)
    ensures SameTimekeeping(d, HandleGenerateKey(d, force, draws).0)
  {
    hide WritePair;
  }

  lemma QuietHandlersPaid(d: Device, unix: Clock.Seconds, validityNs: Option<nat>)
    requires Paid(d) && Powered(d)
    ensures Paid(HandleLock(d).0)
    ensures Paid(HandleSetTime(d, unix).0)
    ensures Paid(HandleSign(d, validityNs).0)
    ensures Paid(Relock(d))
  {
    hide HandleSetTime, HandleSign;
    QuietBooks(d, unix, validityNs);
    QuietTime(d, unix, validityNs);
    OwingKeepsPaid(d, HandleSetTime(d, unix).0);
    OwingKeepsPaid(d, HandleSign(d, validityNs).0);
  }

  lemma QuietTime(d: Device, unix: Clock.Seconds, validityNs: Option<nat>)
    ensures HandleSetTime(d, unix).0.time.nowUs == d.time.nowUs
    ensures SameTimekeeping(d, HandleSign(d, validityNs).0)
  {
    hide WritePair, PlanSetTime;
  }

  lemma HandlePaid(d: Device, r: Request, env: Env)
    requires Budgeted(d) && Paid(d) && Powered(d)
    requires ReadsReliably(Ask(r, env))
    ensures Paid(Handle(d, r, env).0)
  {
    hide HandleInitProd, HandleUnlock, HandleChangePin, Authorize, RunFactoryReset,
         HandleInitDev, HandleGenerateKey, HandleLock, HandleSetTime, HandleSign;
    match r
    case InitProd(pin, maxRetries, wipe) => InitProdPaid(d, pin, maxRetries, wipe, env.draws);
    case Unlock(pin) => UnlockPaid(d, pin, env.kdfUs);
    case ChangePin(current, newPin) => ChangePinPaid(d, current, newPin, env.draws, env.kdfUs);
    case FactoryReset(confirmed, proof) =>
      AuthorizeBudgeted(d, proof, env.kdfUs);
      AuthorizePaid(d, proof, env.kdfUs);
      FactoryResetPaid(Authorize(d, proof, env.kdfUs).0, env.readable);
    case RebootBootloader(proof) => AuthorizePaid(d, proof, env.kdfUs);
    case InitDev => KeyHandlersPaid(d, false, env.draws);
    case InitOther =>
    case GenerateKey(force) => KeyHandlersPaid(d, force, env.draws);
    case SetClock(unix) => QuietHandlersPaid(d, unix, None);
    case Sign(validityNs) => QuietHandlersPaid(d, 0, validityNs);
    case Lock => QuietHandlersPaid(d, 0, None);
  }

  lemma StepPaid(d: Device, e: Event)
    requires Budgeted(d) && Paid(d) && ReadsReliably(e)
    ensures Paid(Step(d, e))
  {
    hide Handle, LoadFromFlash, Relock;
    match e
    case Boot(startUs, physical, secret, readable) =>
      var cold := d.(time := d.time.(wall := Clock.NewWall(), physical := physical, nowUs := startUs, on := true),
                     ram := ColdRam(secret), tape := []);
      assert Accounted(Note(cold, Booted(NowMs(cold))));
      LoadPaid(Note(cold, Booted(NowMs(cold))), readable);
    case Ask(request, env) =>
      if Powered(d) {
        HandlePaid(d.(tape := env.tape), request, env);
      }
    case TransportReset =>
      if Powered(d) {
        QuietHandlersPaid(d, 0, None);
      }
    case _ =>
  }

  lemma {:induction false} RunPaid(d: Device, events: seq<Event>)
    requires Budgeted(d) && Paid(d) && AllReadReliably(events)
    ensures Budgeted(Run(d, events)) && Paid(Run(d, events))
  {
    RunBudgeted(d, events);
    if events != [] {
      RunPaid(d, events[..|events| - 1]);
      StepPaid(Run(d, events[..|events| - 1]), events[|events| - 1]);
    }
  }

  /**
   * Backoff is paid before every wrong PIN of every run from the factory, wrong
   * PINs numbered since the last erasure of the counter. The one exception is the
   * first after a provisioning that did not erase it, in the same boot.
   */
  lemma BackoffIsPaidSinceErasure(events: seq<Event>)
    requires AllReadReliably(events)
    ensures DelaysPaid(Run(Factory(), events).log)
  {
    RunPaid(Factory(), events);
  }

  /** Wrong PINs numbered since erasure or provisioning, there is no exception. */
  lemma BackoffIsAlwaysPaid(events: seq<Event>)
    requires AllReadReliably(events)
    ensures BackoffPaid(Run(Factory(), events).log)
  {
    BackoffIsPaidSinceErasure(events);
    PaidEitherWay(Run(Factory(), events).log);
  }

  lemma {:induction false} SpentIsOwed(log: Log)
    ensures Spent(log) > 0 ==> !Excused(log)
  {
    if log.Snoc? {
      SpentIsOwed(log.earlier);
    }
  }

  lemma {:induction false} PaidEitherWay(log: Log)
    requires DelaysPaid(log)
    ensures BackoffPaid(log)
  {
    if log.Snoc? {
      PaidEitherWay(log.earlier);
      SpentIsOwed(log.earlier);
      SpentIsFewer(log.earlier);
      if Spent(log.earlier) > 0 {
        BackoffMonotone(Spent(log.earlier) - 1, WrongSinceErased(log.earlier) - 1);
      }
    }
  }

  predicate SaysBusy(v: Verdict) {
    v.Refused? && v.reply.PinFail? && v.reply.pinCode == Busy
  }

  /**
   * The gate in every reachable state: `ERR_BUSY` is the reply if and only if an
   * attempt is on the counter, the deadline is ahead and the counter can be read;
   * it then changes nothing and reports the remaining time exactly.
   */
  lemma BusyIsExactAndFree(events: seq<Event>, pin: string, env: Env)
    requires AllReadReliably(events)
    requires var d := Run(Factory(), events).(tape := env.tape);
             Powered(d) && d.ram.config.Some?
    ensures var d := Run(Factory(), events).(tape := env.tape);
            var (e, v) := VerifyPin(d, pin, env.kdfUs);
            && (SaysBusy(v) <==> Waiting(d) && Next(d).Done?)
            && (SaysBusy(v) ==>
                  && e.(tape := []) == d.(tape := [])
                  && 0 < v.reply.backoffMs == d.ram.backoffUntilMs - NowMs(d) <= BACKOFF_CAP_MS)
  {
    hide VerifyPin, Run;
    RunPaid(Factory(), events);
    BusyFromHere(Run(Factory(), events).(tape := env.tape), pin, env.kdfUs);
  }

  lemma BusyFromHere(d: Device, pin: string, kdfUs: nat)
    requires Powered(d) && d.ram.config.Some? && DeadlineSet(d)
    ensures var (e, v) := VerifyPin(d, pin, kdfUs);
            && (SaysBusy(v) <==> Waiting(d) && Next(d).Done?)
            && (SaysBusy(v) ==>
                  && e.(tape := [], time := e.time.(on := true)) == d.(tape := [])
                  && Powered(e)
                  && 0 < v.reply.backoffMs == d.ram.backoffUntilMs - NowMs(d) <= BACKOFF_CAP_MS)
  {
    hide Tick, OpenBlob, CountFrom, BackoffMs;
    var (d1, prior) := ReadCount(d);
    if prior.Some? && !Waiting(d) {
      var (d2, attempts) := Tick(d1);
      if attempts.Some? {
        OpenIsNeverBusy(d2, d.ram.config.value, pin, attempts.value, kdfUs);
      }
    }
  }

  lemma OpenIsNeverBusy(d: Device, cfg: DeviceConfig, pin: string, attempts: nat, kdfUs: nat)
    ensures var v := OpenBlob(d, cfg, pin, attempts, kdfUs).1;
            (v.Verified? || v.Refused?) && !SaysBusy(v)
  {
    hide EraseKeyVerified, ResetCounterBestEffort, BackoffMs;
  }
}
