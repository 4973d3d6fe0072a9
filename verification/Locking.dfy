/**
 * A locked production session is silent: after a lock, a transport reset or a
 * boot it holds no secret and issues no certificate until a PIN opens the key
 * record again.
 */
module Locking {
  import opened Options
  import opened AbRecords
  import opened Wrap
  import Clock
  import opened TrustedTime
  import opened Attempts
  import opened Session
  import opened SessionShape
  import opened PinCases
  import opened PinLog
  import opened PinBudget
  import opened Authority
  import Lockout

  /** A production device that is off, or runs without secrets. */
  ghost predicate Sealed(d: Device) {
    && Latest(d.flash.config).Some? && Latest(d.flash.config).value.mode == Prod
    && (Powered(d) ==>
          && !d.time.physical
          && d.ram.config == Latest(d.flash.config)
          && NoSecrets(d.ram) && d.ram.state in {ProdLocked, LockedOut})
  }

  // ------------------------------------------------------- history only grows

  lemma InitKeepsRights(d: Device, pin: Option<string>, maxRetries: Option<U8>, wipe: Option<bool>, draws: Draws)
    ensures Rights(HandleInitProd(d, pin, maxRetries, wipe, draws).0.log) == Rights(d.log)
  {
    hide Provision;
    forall kek, cfg ensures var d2 := Try(Try(d).0).0; Rights(Provision(d2, kek, cfg, draws).0.log) == Rights(d2.log) {
      ProvisionKeepsRights(Try(Try(d).0).0, kek, cfg, draws);
    }
  }

  lemma ProvisionKeepsRights(d: Device, kek: Kek, cfg: DeviceConfig, draws: Draws)
    ensures Rights(Provision(d, kek, cfg, draws).0.log) == Rights(d.log)
  {
    hide WriteKey, WriteConfig, ResetCounterBestEffort;
    var blob := WrapSeed(kek, draws.seed, PublicOf(draws.seed), PinWrap, draws.salt, draws.nonce);
    WritesKeep(d, blob, cfg);
    var d1 := WriteKey(d, blob).0;
    WritesKeep(d1, blob, cfg);
    assert Rights(Snoc(d1.log, Provisioned(cfg.maxRetries))) == Rights(d1.log);
    ResetLeaves(WriteConfig(d1, cfg).0);
  }

  lemma RequestKeepsRights(d: Device, r: Request, env: Env)
    requires Shape(d.ram)
    ensures Rights(Handle(d, r, env).0.log) >= Rights(d.log)
  {
    hide HandleInitProd, VerifyPin, Rewrap, Authorize, RunFactoryReset, HandleGenerateKey, HandleLock, HandleSetTime, HandleSign, WriteConfig;
    match r
    case InitProd(pin, maxRetries, wipe) => InitKeepsRights(d, pin, maxRetries, wipe, env.draws);
    case Unlock(pin) =>
      if d.ram.state == ProdLocked {
        VerifyAuthority(d, pin, env.kdfUs);
      }
    case ChangePin(current, newPin) =>
      if d.ram.state in {ProdLocked, ProdReady} {
        VerifyAuthority(d, current, env.kdfUs);
        var (d1, v) := VerifyPin(d, current, env.kdfUs);
        if v.Verified? {
          RewrapKeepsTheRest(d1, d.ram.state == ProdReady, v.seed, newPin, env.draws);
        }
      }
    case FactoryReset(confirmed, proof) =>
      GateAuthority(d, proof, env.kdfUs);
      ResetKeepsHistory(Authorize(d, proof, env.kdfUs).0, env.readable);
    case RebootBootloader(proof) => GateAuthority(d, proof, env.kdfUs);
    case InitDev =>
      WritesKeep(d, WrapSeed(DevKek([]), [], PublicOf([]), DevWrap, [], []), DeviceConfig(Dev, DEFAULT_ARGON, 0, false));
    case InitOther =>
    case GenerateKey(force) => GenerateKeyBooks(d, force, env.draws);
    case Lock => QuietBooks(d, 0, None);
    case SetClock(unix) => QuietBooks(d, unix, None);
    case Sign(validityNs) => QuietBooks(d, 0, validityNs);
  }

  lemma StepKeepsRights(d: Device, e: Event)
    requires Shape(d.ram)
    ensures Rights(Step(d, e).log) >= Rights(d.log)
  {
    hide Handle, LoadSession, LoadFloor, Relock;
    match e
    case Boot(startUs, physical, secret, readable) =>
      var cold := Note(d.(time := d.time.(wall := Clock.NewWall(), physical := physical, nowUs := startUs, on := true),
                          ram := ColdRam(secret), tape := []), Booted(startUs / 1000));
      LoadKeepsHistory(LoadCaches(cold, if readable.key then Latest(cold.flash.key) else None, readable.floor),
                       if readable.config then Latest(cold.flash.config) else None,
                       if readable.key then Latest(cold.flash.key) else None, readable.count);
    case TransportReset => RelockTouchesNoRecord(d);
    case Ask(request, env) =>
      if Powered(d) {
        RequestKeepsRights(d.(tape := env.tape), request, env);
      }
    case _ =>
  }

  lemma {:induction false} RunKeepsRights(d: Device, events: seq<Event>)
    requires Shape(d.ram)
    ensures Rights(Run(d, events).log) >= Rights(d.log)
  {
    hide Step;
    if events != [] {
      var before := events[..|events| - 1];
      RunKeepsRights(d, before);
      SessionStaysConsistent(d, before);
      StepKeepsRights(Run(d, before), events[|events| - 1]);
    }
  }

  // ---------------------------------------------------------------- staying sealed

  /** Still sealed and silent, or a PIN has opened the record. */
  ghost predicate StillSealed(d: Device, e: Device) {
    || Rights(e.log) > Rights(d.log)
    || (Sealed(e) && Certificates(e.log) == Certificates(d.log))
  }

  lemma VerifySealed(d: Device, pin: string, kdfUs: nat)
    requires Sealed(d) && Powered(d) && Shape(d.ram) && d.ram.state == ProdLocked
    ensures var (e, v) := VerifyPin(d, pin, kdfUs);
            && (v.Verified? || v.Refused?)
            && (v.Verified? ==> Rights(e.log) > Rights(d.log))
            && (v.Refused? ==> Sealed(e) && Certificates(e.log) == Certificates(d.log))
  {
    hide VerifyPin, CountFrom, UnwrapSeed;
    VerifyAuthority(d, pin, kdfUs);
    VerifyCases(d, pin, kdfUs);
    VerifyKeeps(d, pin, kdfUs);
    var (e, v) := VerifyPin(d, pin, kdfUs);
    if v.Refused? {
      RefusedSealed(d, pin, e, v);
    }
  }

  lemma RefusedSealed(d: Device, pin: string, e: Device, v: Verdict)
    requires Sealed(d) && Powered(d) && Shape(d.ram) && d.ram.state == ProdLocked
    requires VerifyOutcome(d, pin, e, v) && RamAfterPin(d.ram, e, v) && v.Refused?
    ensures Sealed(e) && Certificates(e.log) == Certificates(d.log)
  {
    hide CountFrom, UnwrapSeed;
    var wrong := Snoc(d.log, Wrong(NowMs(e)));
    assert Certificates(Snoc(wrong, EnteredLockout)) == Certificates(wrong) == Certificates(d.log);
  }

  lemma GateSealed(d: Device, proof: Option<string>, kdfUs: nat)
    requires Sealed(d) && Powered(d) && Shape(d.ram)
    ensures var (e, refusal) := Authorize(d, proof, kdfUs);
            && (refusal.None? || refusal.Some?)
            && (refusal.None? ==> Rights(e.log) > Rights(d.log))
            && (refusal.Some? ==> Sealed(e) && Certificates(e.log) == Certificates(d.log))
  {
    hide VerifyPin;
    if d.ram.state == ProdLocked && proof.Some? {
      VerifySealed(d, proof.value, kdfUs);
    }
  }

  lemma HandleSealed(d: Device, r: Request, env: Env)
    requires Sealed(d) && Powered(d) && Shape(d.ram)
    ensures StillSealed(d, Handle(d, r, env).0)
  {
    hide VerifyPin, Rewrap, Authorize, RunFactoryReset, HandleSetTime;
    match r
    case Unlock(pin) =>
      if d.ram.state == ProdLocked {
        VerifySealed(d, pin, env.kdfUs);
      }
    case ChangePin(current, newPin) =>
      if d.ram.state == ProdLocked {
        VerifySealed(d, current, env.kdfUs);
        var (d1, v) := VerifyPin(d, current, env.kdfUs);
        if v.Verified? {
          RewrapKeepsTheRest(d1, d.ram.state == ProdReady, v.seed, newPin, env.draws);
        }
      }
    case FactoryReset(confirmed, proof) =>
      GateSealed(d, proof, env.kdfUs);
      ResetKeepsHistory(Authorize(d, proof, env.kdfUs).0, env.readable);
    case RebootBootloader(proof) => GateSealed(d, proof, env.kdfUs);
    case SetClock(unix) => SetTimeSealed(d, unix);
    case _ =>
  }

  lemma SetTimeSealed(d: Device, unix: Clock.Seconds)
    requires Sealed(d)
    ensures Sealed(HandleSetTime(d, unix).0) && HandleSetTime(d, unix).0.log == d.log
  {
    hide WritePair;
  }

  lemma StepSealed(d: Device, e: Event)
    requires Sealed(d) && Shape(d.ram) && ReadsReliably(e) && Lockout.WithoutPhysicalRecovery(e)
    ensures StillSealed(d, Step(d, e))
  {
    hide Handle, LoadFromFlash;
    match e
    case Boot(startUs, physical, secret, readable) =>
      var cold := Note(d.(time := d.time.(wall := Clock.NewWall(), physical := physical, nowUs := startUs, on := true),
                          ram := ColdRam(secret), tape := []), Booted(startUs / 1000));
      LoadSeals(cold, readable);
    case Ask(request, env) =>
      if Powered(d) {
        HandleSealed(d.(tape := env.tape), request, env);
      }
    case _ =>
  }

  lemma LoadSeals(d: Device, readable: Readable)
    requires Latest(d.flash.config).Some? && Latest(d.flash.config).value.mode == Prod && readable.config
    requires !d.time.physical
    ensures var e := LoadFromFlash(d, readable);
            Sealed(e) && Certificates(e.log) == Certificates(d.log)
  {
    hide CountFrom, BackoffMs, LoadFloor;
    LoadFloorKeepsTime(d.time, readable.floor);
  }

  lemma {:induction false} RunSealed(d: Device, events: seq<Event>)
    requires Sealed(d) && Shape(d.ram) && AllReadReliably(events)
    requires forall i :: 0 <= i < |events| ==> Lockout.WithoutPhysicalRecovery(events[i])
    ensures StillSealed(d, Run(d, events))
  {
    hide Step, Sealed;
    if events != [] {
      var before, last := events[..|events| - 1], events[|events| - 1];
      RunSealed(d, before);
      SessionStaysConsistent(d, before);
      var mid := Run(d, before);
      StepKeepsRights(mid, last);
      RunKeepsRights(d, before);
      if Sealed(mid) {
        StepSealed(mid, last);
      }
    }
  }

  // ---------------------------------------------------------------- becoming sealed

  /** Locking a production session always succeeds, leaves no secret and never an unlocked state. */
  lemma LockDropsSecrets(d: Device)
    requires Shape(d.ram)
    ensures var (e, reply) := HandleLock(d);
            && (reply == Success <==> d.ram.state in {ProdLocked, ProdReady, LockedOut})
            && (reply == Success ==> NoSecrets(e.ram) && e.ram.state == (if d.ram.state == LockedOut then LockedOut else ProdLocked))
            && (reply != Success ==> e == d)
            && e.flash == d.flash && e.log == d.log && e.ram.config == d.ram.config
  {
  }

  /** A transport reset does the same to a production session, and nothing to any other. */
  lemma TransportResetDropsSecrets(d: Device)
    requires Shape(d.ram)
    ensures var e := Relock(d);
            && (d.ram.state in {ProdLocked, ProdReady, LockedOut} ==>
                  NoSecrets(e.ram) && e.ram.state == (if d.ram.state == LockedOut then LockedOut else ProdLocked))
            && (d.ram.state in {Uninitialized, DevReady} ==> e == d)
            && e.flash == d.flash && e.log == d.log && e.ram.config == d.ram.config
  {
  }

  predicate LockingEvent(e: Event) {
    match e
    case Ask(request, _) => request.Lock?
    case TransportReset => true
    case PowerLoss => true
    case Boot(_, physical, _, _) => !physical
    case _ => false
  }

  lemma LockingSeals(d: Device, e: Event)
    requires Budgeted(d) && LockingEvent(e) && ReadsReliably(e)
    requires Latest(d.flash.config).Some? && Latest(d.flash.config).value.mode == Prod
    requires Powered(Step(d, e)) ==> !Step(d, e).time.physical
    ensures Sealed(Step(d, e))
  {
    hide LoadFromFlash, Relock, HandleLock, Accounted;
    match e
    case Boot(startUs, physical, secret, readable) =>
      var cold := Note(d.(time := d.time.(wall := Clock.NewWall(), physical := physical, nowUs := startUs, on := true),
                          ram := ColdRam(secret), tape := []), Booted(startUs / 1000));
      LoadSeals(cold, readable);
    case TransportReset =>
      if Powered(d) {
        TransportResetDropsSecrets(d);
        RelockTouchesNoRecord(d);
      }
    case Ask(request, env) =>
      if Powered(d) {
        LockDropsSecrets(d.(tape := env.tape));
        LockKeepsTime(d.(tape := env.tape));
      }
    case _ =>
  }

  lemma LockKeepsTime(d: Device)
    ensures HandleLock(d).0.time == d.time
  {
  }

  /**
   * Take any run, then a lock, a transport reset, a power loss or a boot of a
   * production device. However the run goes on without physical recovery, no
   * certificate is issued, and the session holds no secret, until a PIN has
   * opened the key record again.
   */
  lemma LockedIsSilent(events: seq<Event>, locking: Event, later: seq<Event>)
    requires AllReadReliably(events) && ReadsReliably(locking) && AllReadReliably(later)
    requires LockingEvent(locking)
    requires forall i :: 0 <= i < |later| ==> Lockout.WithoutPhysicalRecovery(later[i])
    requires var d := Run(Factory(), events);
             Latest(d.flash.config).Some? && Latest(d.flash.config).value.mode == Prod
    requires var locked := Step(Run(Factory(), events), locking);
             Powered(locked) ==> !locked.time.physical
    ensures var locked := Step(Run(Factory(), events), locking);
            var end := Run(locked, later);
            Rights(end.log) == Rights(locked.log) ==>
              && Certificates(end.log) == Certificates(locked.log)
              && (Powered(end) ==> NoSecrets(end.ram) && end.ram.state != ProdReady)
  {
    hide Step, Run;
    var d := Run(Factory(), events);
    RunBudgeted(Factory(), events);
    LockingSeals(d, locking);
    SessionStaysConsistent(Factory(), events);
    StepShapes(d, locking);
    RunSealed(Step(d, locking), later);
  }
}
