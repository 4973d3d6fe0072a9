/**
 * The PIN budget: since the attempt counter was last erased or the device last
 * provisioned, whichever came later, at most `max_retries` wrong PINs have been
 * evaluated, over every run and fault pattern. Module Reprovisioning shows why
 * the provisioning has to be named.
 */
module PinBudget {
  import opened Options
  import opened AbRecords
  import opened Wrap
  import Clock
  import opened TrustedTime
  import opened Attempts
  import opened Session
  import opened SessionShape
  import opened PinCases
  import opened PinLog

  // ---------------------------------------------------------------- invariant

  /** Flash and history: wrong PINs are all on the counter, and the config names the limit in force. */
  ghost predicate Accounted(d: Device) {
    && Sound(d.log)
    && OnCounter(d.log, Count(d.flash.marks))
    && !(d.flash.config.a.Valid? && d.flash.config.b.Valid?)
    && (Latest(d.flash.config).Some? ==>
          && Latest(d.flash.config).value.maxRetries == LimitInForce(d.log)
          && (Latest(d.flash.config).value.mode == Prod ==> LimitInForce(d.log) >= 1))
  }

  /** A running device knows its config, and has a wrong PIN left wherever one could be evaluated. */
  ghost predicate InStep(d: Device) {
    Powered(d) ==>
      && Shape(d.ram)
      && d.ram.config == Latest(d.flash.config)
      && (d.ram.state == ProdReady || (d.ram.state == ProdLocked && Latest(d.flash.key).Some?)
          ==> HasRoom(d.log))
  }

  ghost predicate Budgeted(d: Device) {
    Accounted(d) && InStep(d)
  }

  // ------------------------------------------------------------------- steps

  /** A step that leaves counter, config and history alone keeps the accounts. */
  predicate SameBooks(d: Device, e: Device) {
    && e.flash == d.flash.(key := e.flash.key)
    && e.log == d.log
    && (Powered(e) ==> Powered(d))
  }

  lemma VerifyStaysAccounted(d: Device, pin: string, kdfUs: nat)
    requires Budgeted(d) && Powered(d) && d.ram.state in {ProdLocked, ProdReady}
    ensures var (e, v) := VerifyPin(d, pin, kdfUs);
            && Accounted(e)
            && e.flash.config == d.flash.config
            && LimitInForce(e.log) == LimitInForce(d.log)
            && (v.Verified? ==> HasRoom(e.log))
            && InStep(e)
  {
    hide VerifyPin;
    VerifyCases(d, pin, kdfUs);
    VerifyKeeps(d, pin, kdfUs);
    var (e, v) := VerifyPin(d, pin, kdfUs);
    OutcomeStaysAccounted(d, pin, e, v);
  }

  lemma OutcomeStaysAccounted(d: Device, pin: string, e: Device, v: Verdict)
    requires Budgeted(d) && Powered(d) && d.ram.state in {ProdLocked, ProdReady}
    requires VerifyOutcome(d, pin, e, v)
    ensures Accounted(e) && InStep(e)
    ensures e.flash.config == d.flash.config
    ensures LimitInForce(e.log) == LimitInForce(d.log)
    ensures v.Verified? ==> HasRoom(e.log)
  {
    hide CountFrom, Spent, WrongSinceErased, LimitInForce, Overdrawn, Sound, HasRoom, OnCounter;
    var max := d.ram.config.value.maxRetries;
    if v.Verified? {
      OpenedLog(d, e);
    } else if Unevaluated(d, e) {
      MoreOnCounter(d.log, Count(d.flash.marks), Count(e.flash.marks));
    } else {
      WrongLog(d, e, max);
    }
  }

  lemma MoreOnCounter(log: Log, count: nat, more: nat)
    requires OnCounter(log, count) && count <= more
    ensures OnCounter(log, more)
  {
  }

  lemma OpenedLog(d: Device, e: Device)
    requires Opened(d, e) && Sound(d.log) && HasRoom(d.log) && OnCounter(d.log, Count(d.flash.marks))
    ensures Sound(e.log) && HasRoom(e.log) && OnCounter(e.log, Count(e.flash.marks))
    ensures LimitInForce(e.log) == LimitInForce(d.log)
  {
    hide CountFrom, Spent, WrongSinceErased, LimitInForce, Overdrawn, Sound, HasRoom;
    var passed := Snoc(d.log, Right);
    QuietNote(d.log, Right);
    ErasureNote(passed);
    ErasureNote(Snoc(passed, CounterErased));
  }

  lemma WrongLog(d: Device, e: Device, max: nat)
    requires WrongBelowLimit(d, e, max, Count(d.flash.marks) + 1) || (WrongAtLimit(d, e, max) && Raised(d, e))
    requires Sound(d.log) && HasRoom(d.log) && OnCounter(d.log, Count(d.flash.marks)) && max == LimitInForce(d.log)
    ensures Sound(e.log) && OnCounter(e.log, Count(e.flash.marks)) && LimitInForce(e.log) == LimitInForce(d.log)
    ensures WrongBelowLimit(d, e, max, Count(d.flash.marks) + 1) ==> HasRoom(e.log)
  {
    hide CountFrom, Spent, WrongSinceErased, LimitInForce, Overdrawn, Sound;
    CountBelow(e.flash.marks, 0);
    WrongNote(d.log, NowMs(e));
    QuietNote(Snoc(d.log, Wrong(NowMs(e))), EnteredLockout);
  }

  lemma ResetStaysAccounted(d: Device)
    requires Accounted(d)
    ensures var e := ResetCounterBestEffort(d);
            && Accounted(e) && e.flash.config == d.flash.config && e.flash.key == d.flash.key
            && LimitInForce(e.log) == LimitInForce(d.log)
            && (HasRoom(d.log) ==> HasRoom(e.log))
            && (Powered(e) ==> Powered(d))
  {
    hide ResetCounterBestEffort, CountFrom, Spent, WrongSinceErased, LimitInForce, Overdrawn, Sound, HasRoom;
    ResetCases(d);
    ErasureNote(d.log);
    ErasureNote(Snoc(d.log, CounterErased));
  }

  lemma WriteConfigAccounted(d: Device, cfg: DeviceConfig)
    requires Accounted(d) && Latest(d.flash.config).None?
    requires cfg.mode == Prod ==> cfg.maxRetries >= 1
    ensures var (e, ok) := WriteConfig(d, cfg);
            && Accounted(e) && e.ram == d.ram && e.flash.key == d.flash.key
            && (Powered(e) ==> Powered(d))
            && (ok ==> Latest(e.flash.config) == Some(cfg) && LimitInForce(e.log) == cfg.maxRetries)
            && (ok && cfg.maxRetries >= 1 ==> HasRoom(e.log))
            && (!ok && Powered(e) ==> Latest(e.flash.config).None?)
  {
    hide CountFrom, Spent, WrongSinceErased, LimitInForce, Overdrawn, Sound, HasRoom;
    ProvisionNote(d.log, cfg.maxRetries);
  }

  lemma WriteKeyAccounted(d: Device, blob: KeyBlob)
    requires Accounted(d)
    ensures var (e, ok) := WriteKey(d, blob);
            && Accounted(e) && e.ram == d.ram && e.log == d.log && e.flash.config == d.flash.config
            && (Powered(e) ==> Powered(d))
            && (ok ==> Powered(e))
  {
  }

  lemma InitProdBudgeted(d: Device, pin: Option<string>, maxRetries: Option<U8>, wipe: Option<bool>, draws: Draws)
    requires Budgeted(d) && Powered(d)
    ensures Budgeted(HandleInitProd(d, pin, maxRetries, wipe, draws).0)
  {
    hide WriteKey, WriteConfig, ResetCounterBestEffort, CountFrom;
    InitProdShapes(d, pin, maxRetries, wipe, draws);
    if d.ram.config.None? && pin.Some? && PinLengthOk(pin.value) && d.ram.secret.Some? {
      var (d1, healthy) := Try(d);
      var (d2, derived) := Try(d1);
      var retries: U8 := if maxRetries.Some? then maxRetries.value else 10;
      if healthy && retries > 0 && derived {
        var kek := PinKek(pin.value, draws.salt, DEFAULT_ARGON, d.ram.secret.value);
        var blob := WrapSeed(kek, draws.seed, PublicOf(draws.seed), PinWrap, draws.salt, draws.nonce);
        WriteKeyAccounted(d2, blob);
        var (d3, keyOk) := WriteKey(d2, blob);
        if keyOk {
          var cfg := DeviceConfig(Prod, DEFAULT_ARGON, retries, wipe == Some(true));
          WriteConfigAccounted(d3, cfg);
          var (d4, cfgOk) := WriteConfig(d3, cfg);
          ResetStaysAccounted(d4);
        }
      }
    }
  }

  lemma ChangePinBudgeted(d: Device, current: string, newPin: string, draws: Draws, kdfUs: nat)
    requires Budgeted(d) && Powered(d)
    ensures Budgeted(HandleChangePin(d, current, newPin, draws, kdfUs).0)
  {
    hide VerifyPin, Rewrap;
    ChangePinShapes(d, current, newPin, draws, kdfUs);
    if d.ram.state in {ProdLocked, ProdReady} && PinLengthOk(newPin) {
      VerifyStaysAccounted(d, current, kdfUs);
      VerifyKeeps(d, current, kdfUs);
      var (d1, v) := VerifyPin(d, current, kdfUs);
      if v.Verified? {
        RewrapBudgeted(d1, d.ram.state == ProdReady, v.seed, newPin, draws);
      }
    }
  }

  lemma RewrapBudgeted(d: Device, wasReady: bool, seed: Seed, newPin: string, draws: Draws)
    requires Accounted(d) && HasRoom(d.log)
    requires Shape(d.ram) && d.ram.state in {ProdLocked, ProdReady}
    requires Powered(d) ==> d.ram.config == Latest(d.flash.config)
    ensures Budgeted(Rewrap(d, wasReady, seed, newPin, draws).0)
  {
    hide WriteKey, ResetCounterBestEffort;
    RewrapShapes(d, wasReady, seed, newPin, draws);
    var (d1, healthy) := Try(d);
    var (d2, derived) := Try(d1);
    SameBooksStayAccounted(d, d1);
    SameBooksStayAccounted(d, d2);
    if healthy && d1.ram.secret.Some? && derived && d2.ram.caPubkey.Some? {
      var kek := PinKek(newPin, draws.salt, d2.ram.config.value.argon2, d2.ram.secret.value);
      var blob := WrapSeed(kek, seed, d2.ram.caPubkey.value, PinWrap, draws.salt, draws.nonce);
      WriteKeyAccounted(d2, blob);
      var (d3, ok) := WriteKey(d2, blob);
      if ok {
        AdoptBudgeted(d3, wasReady, seed, kek, draws.salt);
      }
    }
  }

  lemma AdoptBudgeted(d: Device, wasReady: bool, seed: Seed, kek: Kek, salt: Salt)
    requires Accounted(d) && HasRoom(d.log)
    requires Shape(d.ram) && d.ram.state in {ProdLocked, ProdReady}
    requires Powered(d) ==> d.ram.config == Latest(d.flash.config)
    ensures Budgeted(AdoptNewPin(ResetCounterBestEffort(d), wasReady, seed, kek, salt))
  {
    ResetStaysAccounted(d);
    ResetKeepsRam(d);
    SameBooksStayAccounted(ResetCounterBestEffort(d), AdoptNewPin(ResetCounterBestEffort(d), wasReady, seed, kek, salt));
  }

  /** Loading restores the running part of the invariant from flash and history alone. */
  lemma LoadBudgeted(d: Device, readable: Readable)
    requires Accounted(d) && NoSecrets(d.ram)
    requires readable.config && readable.key && readable.count
    ensures Budgeted(LoadFromFlash(d, readable))
  {
    hide CountFrom, BackoffMs, LoadFloor, Spent, WrongSinceErased, LimitInForce, Overdrawn, Sound;
    LoadShapes(d, readable);
    QuietNote(d.log, EnteredLockout);
    CountBelow(d.flash.marks, 0);
  }

  lemma EraseEverythingAccounted(d: Device)
    requires Accounted(d)
    ensures var (e, clean) := EraseEverything(d);
            && Accounted(e)
            && (clean ==> Latest(e.flash.config).None?)
  {
    hide EraseKeyVerified, EraseConfig, EraseFloor, ResetCounter;
    EraseKeyKeeps(DropLiveSecrets(d));
    var (d1, _) := EraseKeyVerified(DropLiveSecrets(d));
    assert Accounted(d1);
    EraseConfigAccounted(d1);
    var (d2, _) := EraseConfig(d1);
    EraseFloorAccounted(d2);
    var (d3, _) := EraseFloor(d2);
    ResetOnceAccounted(d3);
  }

  lemma EraseConfigAccounted(d: Device)
    requires Accounted(d)
    ensures Accounted(EraseConfig(d).0)
  {
  }

  lemma EraseFloorAccounted(d: Device)
    requires Accounted(d)
    ensures Accounted(EraseFloor(d).0)
  {
  }

  lemma ResetOnceAccounted(d: Device)
    requires Accounted(d)
    ensures Accounted(ResetCounter(d).0)
  {
  }

  lemma FactoryResetBudgeted(d: Device, readable: Readable)
    requires Accounted(d)
    requires readable.config && readable.key && readable.count
    ensures Budgeted(RunFactoryReset(d, readable).0)
  {
    hide EraseEverything, LoadFromFlash;
    EraseEverythingAccounted(d);
    EraseEverythingKeeps(d);
    ResetShapes(d, readable);
    var (d1, clean) := EraseEverything(d);
    if !clean {
      LoadBudgeted(d1, readable);
    }
  }

  lemma AuthorizeBudgeted(d: Device, proof: Option<string>, kdfUs: nat)
    requires Budgeted(d) && Powered(d)
    ensures Budgeted(Authorize(d, proof, kdfUs).0)
  {
    hide VerifyPin;
    if d.ram.state in {ProdLocked, ProdReady} && proof.Some? {
      VerifyStaysAccounted(d, proof.value, kdfUs);
    }
  }

  lemma UnlockBudgeted(d: Device, pin: string, kdfUs: nat)
    requires Budgeted(d) && Powered(d)
    ensures Budgeted(HandleUnlock(d, pin, kdfUs).0)
  {
    hide VerifyPin;
    if d.ram.state == ProdLocked {
      VerifyStaysAccounted(d, pin, kdfUs);
      VerifyKeeps(d, pin, kdfUs);
    }
  }

  lemma InitDevBudgeted(d: Device)
    requires Budgeted(d) && Powered(d)
    ensures Budgeted(HandleInitDev(d).0)
  {
    KeyHandlersShape(d, false, Draws([], [], []));
    if d.ram.config.None? && d.ram.secret.Some? {
      WriteConfigAccounted(d, DeviceConfig(Dev, DEFAULT_ARGON, 0, false));
    }
  }

  lemma GenerateKeyBudgeted(d: Device, force: bool, draws: Draws)
    requires Budgeted(d) && Powered(d)
    ensures Budgeted(HandleGenerateKey(d, force, draws).0)
  {
    hide HandleGenerateKey;
    KeyHandlersShape(d, force, draws);
    GenerateKeyBooks(d, force, draws);
  }

  lemma GenerateKeyBooks(d: Device, force: bool, draws: Draws)
    ensures var e := HandleGenerateKey(d, force, draws).0;
            && SameBooks(d, e)
            && e.ram == d.ram.(ca := e.ram.ca, caPubkey := e.ram.caPubkey)
            && (d.ram.state in {ProdLocked, LockedOut, Uninitialized} ==> e == d)
  {
    hide WriteKey;
    var (d1, _) := Try(d);
    forall blob ensures SameBooks(d1, WriteKey(d1, blob).0) && WriteKey(d1, blob).0.ram == d1.ram {
      WriteKeyBooks(d1, blob);
    }
  }

  lemma WriteKeyBooks(d: Device, blob: KeyBlob)
    ensures SameBooks(d, WriteKey(d, blob).0) && WriteKey(d, blob).0.ram == d.ram
  {
    hide WritePair;
  }

  lemma QuietBooks(d: Device, unix: Clock.Seconds, validityNs: Option<nat>)
    ensures SameBooks(d, HandleLock(d).0) && HandleLock(d).0.flash == d.flash
    ensures SameBooks(d, HandleSetTime(d, unix).0) && HandleSetTime(d, unix).0.flash == d.flash
    ensures HandleSetTime(d, unix).0.ram == d.ram
    ensures SameBooks(d, HandleSign(d, validityNs).0.(log := d.log)) && HandleSign(d, validityNs).0.flash == d.flash
    ensures HandleSign(d, validityNs).0.ram == d.ram
    ensures var log := HandleSign(d, validityNs).0.log;
            log == d.log || (log.Snoc? && log.earlier == d.log && log.last.Issued?)
    ensures SameBooks(d, Relock(d)) && Relock(d).flash == d.flash
  {
    hide HandleSetTime, HandleSign;
    SetTimeBooks(d, unix);
    SignBooks(d, validityNs);
  }

  lemma SetTimeBooks(d: Device, unix: Clock.Seconds)
    ensures var e := HandleSetTime(d, unix).0;
            SameBooks(d, e) && e.flash == d.flash && e.ram == d.ram
  {
    hide PlanSetTime, WritePair;
  }

  lemma SignBooks(d: Device, validityNs: Option<nat>)
    ensures var e := HandleSign(d, validityNs).0;
            && SameBooks(d, e.(log := d.log)) && e.flash == d.flash && e.ram == d.ram
            && (e.log == d.log || (e.log.Snoc? && e.log.earlier == d.log && e.log.last.Issued?))
  {
  }

  lemma SameBooksStayAccounted(d: Device, e: Device)
    requires Accounted(d) && SameBooks(d, e)
    ensures Accounted(e)
  {
  }

  lemma QuietHandlersBudgeted(d: Device, unix: Clock.Seconds, validityNs: Option<nat>)
    requires Budgeted(d) && Powered(d)
    ensures Budgeted(HandleLock(d).0)
    ensures Budgeted(HandleSetTime(d, unix).0)
    ensures Budgeted(HandleSign(d, validityNs).0)
    ensures Budgeted(Relock(d))
  {
    QuietBooks(d, unix, validityNs);
  }

  lemma HandleBudgeted(d: Device, r: Request, env: Env)
    requires Budgeted(d) && Powered(d)
    requires ReadsReliably(Ask(r, env))
    ensures Budgeted(Handle(d, r, env).0)
  {
    hide HandleInitProd, HandleUnlock, HandleChangePin, Authorize, RunFactoryReset,
         HandleInitDev, HandleGenerateKey, HandleLock, HandleSetTime, HandleSign;
    match r
    case InitProd(pin, maxRetries, wipe) => InitProdBudgeted(d, pin, maxRetries, wipe, env.draws);
    case Unlock(pin) => UnlockBudgeted(d, pin, env.kdfUs);
    case ChangePin(current, newPin) => ChangePinBudgeted(d, current, newPin, env.draws, env.kdfUs);
    case FactoryReset(confirmed, proof) =>
      AuthorizeBudgeted(d, proof, env.kdfUs);
      FactoryResetBudgeted(Authorize(d, proof, env.kdfUs).0, env.readable);
    case RebootBootloader(proof) => AuthorizeBudgeted(d, proof, env.kdfUs);
    case InitDev => InitDevBudgeted(d);
    case InitOther =>
    case GenerateKey(force) => GenerateKeyBudgeted(d, force, env.draws);
    case SetClock(unix) => QuietHandlersBudgeted(d, unix, None);
    case Sign(validityNs) => QuietHandlersBudgeted(d, 0, validityNs);
    case Lock => QuietHandlersBudgeted(d, 0, None);
  }

  lemma StepBudgeted(d: Device, e: Event)
    requires Budgeted(d) && ReadsReliably(e)
    ensures Budgeted(Step(d, e))
  {
    hide Handle, LoadFromFlash, Relock;
    match e
    case Boot(startUs, physical, secret, readable) =>
      var cold := d.(time := d.time.(wall := Clock.NewWall(), physical := physical, nowUs := startUs, on := true),
                     ram := ColdRam(secret), tape := []);
      LoadBudgeted(Note(cold, Booted(NowMs(cold))), readable);
    case Ask(request, env) =>
      if Powered(d) {
        HandleBudgeted(d.(tape := env.tape), request, env);
      }
    case TransportReset =>
      if Powered(d) {
        QuietHandlersBudgeted(d, 0, None);
      }
    case _ =>
  }

  // --------------------------------------------------------------- whole runs

  lemma {:induction false} RunBudgeted(d: Device, events: seq<Event>)
    requires Budgeted(d) && AllReadReliably(events)
    ensures Budgeted(Run(d, events))
  {
    if events != [] {
      RunBudgeted(d, events[..|events| - 1]);
      StepBudgeted(Run(d, events[..|events| - 1]), events[|events| - 1]);
    }
  }

  /**
   * The PIN budget. In every run from the factory, whatever requests are made
   * and wherever power is cut or flash fails, the wrong PINs evaluated since the
   * counter was last erased or the device last provisioned never exceed the
   * retry limit, at any moment.
   */
  lemma PinBudgetHolds(events: seq<Event>)
    requires AllReadReliably(events)
    ensures BudgetKept(Run(Factory(), events).log)
  {
    RunBudgeted(Factory(), events);
  }

  /**
   * Counted from erasures of the counter alone, the bound holds at every moment
   * of every run at which the account is not overdrawn: unless the last
   * provisioning failed to erase the counter and set a limit already reached.
   */
  lemma PinBudgetSinceErasure(events: seq<Event>)
    requires AllReadReliably(events)
    ensures BudgetSinceErasureKept(Run(Factory(), events).log)
  {
    RunBudgeted(Factory(), events);
  }

  /** A wrong PIN that the gate lets through and no fault stops. */
  ghost predicate GuessedWrong(d: Device, guess: string) {
    && CanEvaluate(d) && d.ram.state == ProdLocked && d.tape == [] && Count(d.flash.marks) < SECTOR_LEN
    && UnwrapSeed(PinKek(guess, Latest(d.flash.key).value.salt, d.ram.config.value.argon2, d.ram.secret.value),
                  Latest(d.flash.key).value).None?
  }

  /**
   * And that condition is exact: in every reachable locked session, the next
   * wrong PIN stays within the limit, counted from erasures alone, if and only
   * if the account is not overdrawn.
   */
  lemma NextGuessKeepsTheBudgetIff(events: seq<Event>, guess: string, kdfUs: nat)
    requires AllReadReliably(events)
    requires GuessedWrong(Run(Factory(), events), guess)
    ensures var d := Run(Factory(), events);
            var e := VerifyPin(d, guess, kdfUs).0;
            && WrongSinceErased(e.log) == WrongSinceErased(d.log) + 1
            && LimitInForce(e.log) == LimitInForce(d.log)
            && (WrongSinceErased(e.log) <= LimitInForce(e.log) <==> !Overdrawn(d.log))
  {
    hide Run, VerifyPin;
    var d := Run(Factory(), events);
    RunBudgeted(Factory(), events);
    GuessIsCounted(d, guess, kdfUs);
    OverdrawnMeansReached(d.log);
  }

  lemma GuessIsCounted(d: Device, guess: string, kdfUs: nat)
    requires GuessedWrong(d, guess)
    ensures var e := VerifyPin(d, guess, kdfUs).0;
            && WrongSinceErased(e.log) == WrongSinceErased(d.log) + 1
            && Spent(e.log) == Spent(d.log) + 1
            && LimitInForce(e.log) == LimitInForce(d.log)
  {
    hide VerifyPin, CountFrom;
    VerifyCases(d, guess, kdfUs);
    NoFaultEvaluates(d, guess, kdfUs);
  }
}
