/**
 * Lockout is final: once the device has locked out, nothing short of physical
 * recovery makes it issue another certificate.
 */
module Lockout {
  import opened Options
  import opened AbRecords
  import opened Wrap
  import Clock
  import opened TrustedTime
  import opened Attempts
  import opened Session
  import opened SessionShape
  import opened PinCases
  import opened PinBudget
  import opened PinLog

  predicate WithoutPhysicalRecovery(e: Event) {
    e.Boot? ==> !e.physical
  }

  /**
   * The closed set: a production config, and either no key record at all or a
   * counter at the limit. A running device is then locked out, or locked with
   * nothing to unlock.
   */
  ghost predicate Shut(d: Device) {
    && Latest(d.flash.config).Some?
    && Latest(d.flash.config).value.mode == Prod
    && (Latest(d.flash.key).None? || Latest(d.flash.config).value.maxRetries <= Count(d.flash.marks))
    && (Powered(d) ==>
          && !d.time.physical
          && d.ram.config == Latest(d.flash.config)
          && NoSecrets(d.ram)
          && (d.ram.state == LockedOut || (d.ram.state == ProdLocked && Latest(d.flash.key).None?)))
  }

  lemma VerifyStaysShut(d: Device, pin: string, kdfUs: nat)
    requires Shut(d) && Powered(d) && d.ram.state == ProdLocked
    ensures var (e, v) := VerifyPin(d, pin, kdfUs);
            v.Refused? && Shut(e) && e.log == d.log
  {
    hide VerifyPin;
    VerifyCases(d, pin, kdfUs);
  }

  lemma HandleStaysShut(d: Device, r: Request, env: Env)
    requires Shut(d) && Powered(d)
    ensures Shut(Handle(d, r, env).0)
    ensures Handle(d, r, env).0.log == d.log
  {
    hide VerifyPin, HandleSetTime, RunFactoryReset, Rewrap;
    if d.ram.state == ProdLocked {
      match r
      case Unlock(pin) => VerifyStaysShut(d, pin, env.kdfUs);
      case ChangePin(current, _) => VerifyStaysShut(d, current, env.kdfUs);
      case FactoryReset(_, proof) =>
        if proof.Some? {
          VerifyStaysShut(d, proof.value, env.kdfUs);
        }
      case RebootBootloader(proof) =>
        if proof.Some? {
          VerifyStaysShut(d, proof.value, env.kdfUs);
        }
      case SetClock(unix) => SetTimeStaysShut(d, unix);
      case _ =>
    } else {
      match r
      case SetClock(unix) => SetTimeStaysShut(d, unix);
      case _ =>
    }
  }

  lemma SetTimeStaysShut(d: Device, unix: Clock.Seconds)
    requires Shut(d)
    ensures Shut(HandleSetTime(d, unix).0)
    ensures HandleSetTime(d, unix).0.log == d.log
  {
  }

  lemma StepStaysShut(d: Device, e: Event)
    requires Shut(d) && ReadsReliably(e) && WithoutPhysicalRecovery(e)
    ensures Shut(Step(d, e))
    ensures Certificates(Step(d, e).log) == Certificates(d.log)
  {
    match e
    case Ask(request, env) =>
      if Powered(d) {
        HandleStaysShut(d.(tape := env.tape), request, env);
      }
    case _ =>
  }

  lemma {:induction false} RunStaysShut(d: Device, events: seq<Event>)
    requires Shut(d) && AllReadReliably(events)
    requires forall i :: 0 <= i < |events| ==> WithoutPhysicalRecovery(events[i])
    ensures Shut(Run(d, events))
    ensures Certificates(Run(d, events).log) == Certificates(d.log)
  {
    if events != [] {
      RunStaysShut(d, events[..|events| - 1]);
      StepStaysShut(Run(d, events[..|events| - 1]), events[|events| - 1]);
    }
  }

  // ------------------------------------------------------ entering the closed set

  lemma VerifyLocksShut(d: Device, pin: string, kdfUs: nat)
    requires Budgeted(d) && Powered(d) && d.ram.state in {ProdLocked, ProdReady}
    ensures var (e, v) := VerifyPin(d, pin, kdfUs);
            && (v.Verified? || v.Refused?)
            && (v.Verified? ==> Lockouts(e.log) == Lockouts(d.log))
            && (v.Refused? && Lockouts(e.log) > Lockouts(d.log) && (Powered(e) ==> !e.time.physical) ==> Shut(e))
  {
    hide VerifyPin;
    VerifyCases(d, pin, kdfUs);
    VerifyKeeps(d, pin, kdfUs);
    var (e, v) := VerifyPin(d, pin, kdfUs);
    OutcomeLocksShut(d, pin, e, v);
  }

  lemma OutcomeLocksShut(d: Device, pin: string, e: Device, v: Verdict)
    requires Budgeted(d) && Powered(d) && d.ram.state in {ProdLocked, ProdReady}
    requires VerifyOutcome(d, pin, e, v)
    ensures v.Verified? ==> Lockouts(e.log) == Lockouts(d.log)
    ensures v.Refused? && Lockouts(e.log) > Lockouts(d.log) && (Powered(e) ==> !e.time.physical) ==> Shut(e)
  {
    var passed := Snoc(d.log, Right);
    assert Lockouts(passed) == Lockouts(Snoc(passed, CounterErased)) == Lockouts(d.log);
  }

  lemma RewrapLogsNoLockout(d: Device, wasReady: bool, seed: Seed, newPin: string, draws: Draws)
    ensures Lockouts(Rewrap(d, wasReady, seed, newPin, draws).0.log) == Lockouts(d.log)
  {
    hide WriteKey, ResetCounterBestEffort;
    var (d1, healthy) := Try(d);
    var (d2, derived) := Try(d1);
    if healthy && d1.ram.config.Some? && d1.ram.secret.Some? && derived && d2.ram.caPubkey.Some? {
      var kek := PinKek(newPin, draws.salt, d2.ram.config.value.argon2, d2.ram.secret.value);
      var blob := WrapSeed(kek, seed, d2.ram.caPubkey.value, PinWrap, draws.salt, draws.nonce);
      WritesKeep(d2, blob, d2.ram.config.value);
      ResetCases(WriteKey(d2, blob).0);
      assert Lockouts(Snoc(d.log, CounterErased)) == Lockouts(d.log);
    }
  }

  lemma LoadLocksShut(d: Device, readable: Readable)
    requires Accounted(d) && NoSecrets(d.ram)
    requires readable.config && readable.key && readable.count
    ensures var e := LoadFromFlash(d, readable);
            Lockouts(e.log) > Lockouts(d.log) && (Powered(e) ==> !e.time.physical) ==> Shut(e)
  {
  }

  lemma FactoryResetLocksShut(d: Device, readable: Readable)
    requires Accounted(d)
    requires readable.config && readable.key && readable.count
    ensures var e := RunFactoryReset(d, readable).0;
            Lockouts(e.log) > Lockouts(d.log) && (Powered(e) ==> !e.time.physical) ==> Shut(e)
  {
    hide EraseEverything, LoadFromFlash;
    EraseEverythingAccounted(d);
    EraseEverythingKeeps(d);
    LoadLocksShut(EraseEverything(d).0, readable);
  }

  lemma AuthorizeLocksShut(d: Device, proof: Option<string>, kdfUs: nat)
    requires Budgeted(d) && Powered(d)
    ensures var (e, refusal) := Authorize(d, proof, kdfUs);
            && Accounted(e)
            && (refusal.None? || refusal.Some?)
            && (refusal.None? ==> Lockouts(e.log) == Lockouts(d.log))
            && (refusal.Some? && Lockouts(e.log) > Lockouts(d.log) && (Powered(e) ==> !e.time.physical) ==> Shut(e))
  {
    hide VerifyPin;
    AuthorizeBudgeted(d, proof, kdfUs);
    if d.ram.state in {ProdLocked, ProdReady} && proof.Some? {
      VerifyLocksShut(d, proof.value, kdfUs);
    }
  }

  lemma InitLogsNoLockout(d: Device, pin: Option<string>, maxRetries: Option<U8>, wipe: Option<bool>, draws: Draws)
    ensures Lockouts(HandleInitProd(d, pin, maxRetries, wipe, draws).0.log) == Lockouts(d.log)
  {
    hide WriteKey, WriteConfig, ResetCounterBestEffort;
    if d.ram.config.None? && pin.Some? && PinLengthOk(pin.value) && d.ram.secret.Some? {
      var (d1, healthy) := Try(d);
      var (d2, derived) := Try(d1);
      var retries: U8 := if maxRetries.Some? then maxRetries.value else 10;
      var kek := PinKek(pin.value, draws.salt, DEFAULT_ARGON, d.ram.secret.value);
      var blob := WrapSeed(kek, draws.seed, PublicOf(draws.seed), PinWrap, draws.salt, draws.nonce);
      var cfg := DeviceConfig(Prod, DEFAULT_ARGON, retries, wipe == Some(true));
      WritesKeep(d2, blob, cfg);
      var (d3, keyOk) := WriteKey(d2, blob);
      WritesKeep(d3, blob, cfg);
      var (d4, cfgOk) := WriteConfig(d3, cfg);
      ResetCases(d4);
      assert Lockouts(Snoc(d4.log, CounterErased)) == Lockouts(d4.log) == Lockouts(d.log);
    }
  }

  lemma ChangePinLocksShut(d: Device, current: string, newPin: string, draws: Draws, kdfUs: nat)
    requires Budgeted(d) && Powered(d)
    ensures var e := HandleChangePin(d, current, newPin, draws, kdfUs).0;
            Lockouts(e.log) > Lockouts(d.log) && (Powered(e) ==> !e.time.physical) ==> Shut(e)
  {
    hide VerifyPin, Rewrap;
    if d.ram.state in {ProdLocked, ProdReady} && PinLengthOk(newPin) {
      VerifyLocksShut(d, current, kdfUs);
      var (d1, v) := VerifyPin(d, current, kdfUs);
      if v.Verified? {
        RewrapLogsNoLockout(d1, d.ram.state == ProdReady, v.seed, newPin, draws);
      }
    }
  }

  lemma HandleLocksShut(d: Device, r: Request, env: Env)
    requires Budgeted(d) && Powered(d)
    requires ReadsReliably(Ask(r, env))
    ensures var e := Handle(d, r, env).0;
            Lockouts(e.log) > Lockouts(d.log) && (Powered(e) ==> !e.time.physical) ==> Shut(e)
  {
    hide HandleInitProd, HandleChangePin, Authorize, RunFactoryReset, VerifyPin,
         HandleGenerateKey, HandleLock, HandleSetTime, HandleSign, WriteConfig;
    match r
    case InitDev => WritesKeep(d, WrapSeed(DevKek([]), [], PublicOf([]), DevWrap, [], []), DeviceConfig(Dev, DEFAULT_ARGON, 0, false));
    case InitProd(pin, maxRetries, wipe) => InitLogsNoLockout(d, pin, maxRetries, wipe, env.draws);
    case InitOther =>
    case GenerateKey(force) => GenerateKeyBooks(d, force, env.draws);
    case Unlock(pin) =>
      if d.ram.state == ProdLocked {
        VerifyLocksShut(d, pin, env.kdfUs);
      }
    case ChangePin(current, newPin) => ChangePinLocksShut(d, current, newPin, env.draws, env.kdfUs);
    case FactoryReset(confirmed, proof) =>
      AuthorizeLocksShut(d, proof, env.kdfUs);
      var (d1, refusal) := Authorize(d, proof, env.kdfUs);
      if refusal.None? {
        FactoryResetLocksShut(d1, env.readable);
      }
    case RebootBootloader(proof) => AuthorizeLocksShut(d, proof, env.kdfUs);
    case SetClock(unix) => QuietBooks(d, unix, None);
    case Sign(validityNs) => QuietBooks(d, 0, validityNs);
    case Lock => QuietBooks(d, 0, None);
  }

  lemma StepLocksShut(d: Device, e: Event)
    requires Budgeted(d) && ReadsReliably(e)
    requires Lockouts(Step(d, e).log) > Lockouts(d.log)
    requires Powered(Step(d, e)) ==> !Step(d, e).time.physical
    ensures Shut(Step(d, e))
  {
    hide Handle, LoadFromFlash, Relock;
    match e
    case Boot(startUs, physical, secret, readable) =>
      var cold := d.(time := d.time.(wall := Clock.NewWall(), physical := physical, nowUs := startUs, on := true),
                     ram := ColdRam(secret), tape := []);
      LoadLocksShut(Note(cold, Booted(NowMs(cold))), readable);
    case Ask(request, env) =>
      if Powered(d) {
        HandleLocksShut(d.(tape := env.tape), request, env);
      }
    case TransportReset =>
      QuietBooks(d, 0, None);
    case _ =>
  }

  /**
   * Lockout is final. Take any run from the factory whose last event locked the
   * device out, by a wrong PIN or at boot, even if power failed in the middle of
   * the wipe. Then no later requests, resets, power losses and reboots without
   * physical recovery lead to another certificate.
   */
  lemma LockoutIsFinal(events: seq<Event>, locking: Event, later: seq<Event>)
    requires AllReadReliably(events) && ReadsReliably(locking) && AllReadReliably(later)
    requires forall i :: 0 <= i < |later| ==> WithoutPhysicalRecovery(later[i])
    requires var locked := Step(Run(Factory(), events), locking);
             && Lockouts(locked.log) > Lockouts(Run(Factory(), events).log)
             && (Powered(locked) ==> !locked.time.physical)
    ensures var locked := Step(Run(Factory(), events), locking);
            && Shut(Run(locked, later))
            && Certificates(Run(locked, later).log) == Certificates(locked.log)
  {
    RunBudgeted(Factory(), events);
    StepLocksShut(Run(Factory(), events), locking);
    RunStaysShut(Step(Run(Factory(), events), locking), later);
  }

  // ------------------------------------------------- why the boot reads matter

  /**
   * A spent device boots into lockout exactly when its config, its key and its
   * counter can all be read: `load_from_flash` takes an unreadable config for
   * none, an unreadable key for none and an unreadable counter for zero.
   */
  lemma BootRestoresLockoutIffReadable(d: Device, startUs: Clock.Micros, physical: bool, secret: Option<Secret>, readable: Readable)
    requires Latest(d.flash.config).Some? && Latest(d.flash.config).value.mode == Prod
    requires Latest(d.flash.key).Some?
    requires 1 <= Latest(d.flash.config).value.maxRetries <= Count(d.flash.marks)
    ensures Step(d, Boot(startUs, physical, secret, readable)).ram.state == LockedOut
            <==> readable.config && readable.key && readable.count
  {
  }

  /** One failed counter read at boot is enough to have a PIN beyond the budget evaluated. */
  lemma UnreadableCounterReopensThePin(d: Device, startUs: Clock.Micros, secret: Secret, pin: string, env: Env)
    requires Latest(d.flash.config).Some? && Latest(d.flash.config).value.mode == Prod
    requires 1 <= Latest(d.flash.config).value.maxRetries <= Count(d.flash.marks) < SECTOR_LEN
    requires Latest(d.flash.key).Some?
    requires UnwrapSeed(PinKek(pin, Latest(d.flash.key).value.salt, Latest(d.flash.config).value.argon2, secret),
                        Latest(d.flash.key).value).None?
    requires env.tape == []
    ensures var booted := Step(d, Boot(startUs, false, Some(secret), Readable(true, true, true, false)));
            Spent(Handle(booted.(tape := env.tape), Unlock(pin), env).0.log) == Spent(d.log) + 1
  {
    var booted := Step(d, Boot(startUs, false, Some(secret), Readable(true, true, true, false)));
    assert booted.ram.state == ProdLocked && booted.ram.backoffUntilMs == 0;
    assert Spent(booted.log) == Spent(d.log);
    var d0 := booted.(tape := env.tape);
    VerifyCases(d0, pin, env.kdfUs);
    NoFaultEvaluates(d0, pin, env.kdfUs);
  }
}
