/**
 * The session invariant: state, config and live secrets always agree, under
 * every pattern of faults, so no `expect` in the dispatcher can fire.
 */
module SessionShape {
  import opened Options
  import opened AbRecords
  import opened Wrap
  import Clock
  import opened TrustedTime
  import opened Attempts
  import opened Session

  predicate NoSecrets(r: Ram) {
    r.ca.None? && r.wrapKek.None? && r.wrapSalt.None?
  }

  ghost predicate Shape(r: Ram) {
    && (r.state == Uninitialized <==> r.config.None?)
    && (r.state == DevReady <==> r.config.Some? && r.config.value.mode == Dev)
    && (r.state == ProdReady <==> r.config.Some? && r.config.value.mode == Prod && r.ca.Some?)
    && (r.state == ProdReady ==> r.wrapKek.Some? && r.wrapSalt.Some?)
    && (r.state in {ProdLocked, LockedOut, Uninitialized} ==> NoSecrets(r))
  }

  // -------------------------------------------------- what PIN checking leaves alone

  /** Everything in RAM but the backoff deadline. */
  predicate SameButBackoff(r: Ram, s: Ram) {
    r == s.(backoffUntilMs := r.backoffUntilMs)
  }

  lemma ResetKeepsRam(d: Device)
    ensures SameButBackoff(ResetCounterBestEffort(d).ram, d.ram)
    ensures ResetCounterBestEffort(d).flash.key == d.flash.key
    ensures ResetCounterBestEffort(d).flash.config == d.flash.config
  {
  }

  lemma EraseRoundKeeps(d: Device)
    ensures var (e, gone) := EraseKeyRound(d);
            && e.ram == d.ram && e.log == d.log
            && e.flash == d.flash.(key := e.flash.key)
            && Shrunk(d.flash.key, e.flash.key)
            && e.time == d.time.(on := e.time.on)
            && (gone ==> Latest(e.flash.key).None?)
  {
    var (erased, _) := EraseKey(d);
    assert erased.ram == d.ram && erased.log == d.log;
    assert erased.flash == d.flash.(key := erased.flash.key);
    assert erased.time == d.time.(on := erased.time.on);
    assert Shrunk(d.flash.key, erased.flash.key);
  }

  /** Wiping touches the key copies and nothing else. */
  lemma EraseKeyKeeps(d: Device)
    ensures EraseKeyVerified(d).0.ram == d.ram
    ensures EraseKeyVerified(d).0.log == d.log
    ensures EraseKeyVerified(d).0.flash == d.flash.(key := EraseKeyVerified(d).0.flash.key)
    ensures Shrunk(d.flash.key, EraseKeyVerified(d).0.flash.key)
    ensures EraseKeyVerified(d).0.time == d.time.(on := EraseKeyVerified(d).0.time.on)
    ensures EraseKeyVerified(d).1 ==> Latest(EraseKeyVerified(d).0.flash.key).None?
  {
    hide EraseKeyRound;
    EraseRoundKeeps(d);
    EraseRoundKeeps(EraseKeyRound(d).0);
  }

  /** A refusal changes RAM only by the backoff deadline, or by entering lockout without secrets. */
  lemma PunishKeeps(d: Device, cfg: DeviceConfig, attempts: nat)
    ensures PunishWrongPin(d, cfg, attempts).1.Refused? && PunishWrongPin(d, cfg, attempts).1.reply != Panic
    ensures var r := PunishWrongPin(d, cfg, attempts).0.ram;
            if attempts < cfg.maxRetries then SameButBackoff(r, d.ram)
            else
              && r == d.ram.(state := LockedOut, ca := None, wrapKek := None, wrapSalt := None,
                             backoffUntilMs := r.backoffUntilMs, caPubkey := r.caPubkey)
              && (!cfg.wipeOnLockout ==> r.caPubkey == d.ram.caPubkey)
  {
    EraseKeyKeeps(EnterLockedOut(Note(d.(ram := d.ram.(backoffUntilMs := Deadline(NowMs(d), BackoffMs(Minus(attempts, 1))))),
                                      Wrong(NowMs(d)))));
  }

  /** RAM after a PIN check: unchanged but for the deadline, or locked out without secrets. */
  ghost predicate RamAfterPin(r: Ram, e: Device, v: Verdict) {
    match v
    case Verified(_, _, _) => SameButBackoff(e.ram, r)
    case Refused(reply) =>
      && reply != Panic
      && (SameButBackoff(e.ram, r)
          || e.ram == r.(state := LockedOut, ca := None, wrapKek := None, wrapSalt := None,
                         backoffUntilMs := e.ram.backoffUntilMs, caPubkey := e.ram.caPubkey))
  }

  lemma VerifyKeeps(d: Device, pin: string, kdfUs: nat)
    requires d.ram.config.Some?
    ensures var (e, v) := VerifyPin(d, pin, kdfUs);
            (v.Verified? || v.Refused?) && RamAfterPin(d.ram, e, v)
  {
    hide OpenBlob, CountFrom;
    var (d1, prior) := ReadCount(d);
    if prior.Some? && !Waiting(d) {
      var (d2, attempts) := Tick(d1);
      assert d2.ram == d.ram;
      if attempts.Some? {
        OpenKeeps(d2, d.ram.config.value, pin, attempts.value, kdfUs);
      }
    }
  }

  lemma OpenKeeps(d: Device, cfg: DeviceConfig, pin: string, attempts: nat, kdfUs: nat)
    ensures var (e, v) := OpenBlob(d, cfg, pin, attempts, kdfUs);
            (v.Verified? || v.Refused?) && RamAfterPin(d.ram, e, v)
  {
    hide Evaluate;
    var (d1, found) := ReadKey(d);
    if found.Some? && found.value.Some? && d1.ram.secret.Some? {
      var (d2, derived) := Try(d1);
      if derived {
        var d3 := d2.(time := d2.time.(nowUs := Later(d2.time.nowUs, kdfUs)));
        EvaluateKeeps(d3, cfg, pin, found.value.value, attempts);
      }
    }
  }

  lemma EvaluateKeeps(d: Device, cfg: DeviceConfig, pin: string, blob: KeyBlob, attempts: nat)
    ensures var (e, v) := Evaluate(d, cfg, pin, blob, attempts);
            (v.Verified? || v.Refused?) && RamAfterPin(d.ram, e, v)
  {
    hide ResetCounterBestEffort, PunishWrongPin;
    ResetKeepsRam(Note(d, Right));
    PunishKeeps(d, cfg, attempts);
  }

  // ------------------------------------------------------------------ handlers

  lemma LoadShapes(d: Device, readable: Readable)
    requires NoSecrets(d.ram)
    ensures Shape(LoadFromFlash(d, readable).ram)
  {
  }

  lemma ChangePinShapes(d: Device, current: string, newPin: string, draws: Draws, kdfUs: nat)
    requires Shape(d.ram)
    ensures Shape(HandleChangePin(d, current, newPin, draws, kdfUs).0.ram)
    ensures HandleChangePin(d, current, newPin, draws, kdfUs).1 != Panic
  {
    hide VerifyPin, Rewrap;
    if d.ram.state in {ProdLocked, ProdReady} && PinLengthOk(newPin) {
      VerifyKeeps(d, current, kdfUs);
      var (d1, v) := VerifyPin(d, current, kdfUs);
      if v.Verified? {
        RewrapShapes(d1, d.ram.state == ProdReady, v.seed, newPin, draws);
      }
    }
  }

  lemma RewrapShapes(d: Device, wasReady: bool, seed: Seed, newPin: string, draws: Draws)
    requires Shape(d.ram) && d.ram.state in {ProdLocked, ProdReady}
    ensures Shape(Rewrap(d, wasReady, seed, newPin, draws).0.ram)
    ensures Rewrap(d, wasReady, seed, newPin, draws).1 != Panic
  {
    hide WriteKey, ResetCounterBestEffort;
    var (d1, healthy) := Try(d);
    var (d2, derived) := Try(d1);
    if healthy && d1.ram.secret.Some? && derived && d2.ram.caPubkey.Some? {
      var kek := PinKek(newPin, draws.salt, d2.ram.config.value.argon2, d2.ram.secret.value);
      var blob := WrapSeed(kek, seed, d2.ram.caPubkey.value, PinWrap, draws.salt, draws.nonce);
      WritesKeep(d2, blob, d2.ram.config.value);
      ResetKeepsRam(WriteKey(d2, blob).0);
    }
  }

  lemma AuthorizeShapes(d: Device, proof: Option<string>, kdfUs: nat)
    requires Shape(d.ram)
    ensures Shape(Authorize(d, proof, kdfUs).0.ram)
    ensures Authorize(d, proof, kdfUs).1 != Some(Panic)
  {
    hide VerifyPin;
    if d.ram.state in {ProdLocked, ProdReady} && proof.Some? {
      VerifyKeeps(d, proof.value, kdfUs);
    }
  }

  lemma EraseOthersKeep(d: Device)
    ensures EraseConfig(d).0.ram == EraseFloor(d).0.ram == ResetCounter(d).0.ram == d.ram
    ensures EraseConfig(d).0.log == EraseFloor(d).0.log == d.log
    ensures EraseConfig(d).0.flash.key == EraseFloor(d).0.flash.key == ResetCounter(d).0.flash.key == d.flash.key
    ensures ResetCounter(d).0.log == d.log || ResetCounter(d).0.log == Snoc(d.log, CounterErased)
  {
  }

  lemma EraseEverythingKeeps(d: Device)
    ensures EraseEverything(d).0.ram == DropLiveSecrets(d).ram
    ensures Shrunk(d.flash.key, EraseEverything(d).0.flash.key)
    ensures EraseEverything(d).0.log == d.log || EraseEverything(d).0.log == Snoc(d.log, CounterErased)
  {
    hide EraseKeyVerified, EraseConfig, EraseFloor, ResetCounter;
    EraseKeyKeeps(DropLiveSecrets(d));
    var (d1, _) := EraseKeyVerified(DropLiveSecrets(d));
    EraseOthersKeep(d1);
    var (d2, _) := EraseConfig(d1);
    EraseOthersKeep(d2);
    var (d3, _) := EraseFloor(d2);
    EraseOthersKeep(d3);
  }

  lemma WritesKeep(d: Device, blob: KeyBlob, cfg: DeviceConfig)
    ensures WriteKey(d, blob).0.ram == d.ram && WriteKey(d, blob).0.log == d.log
    ensures WriteConfig(d, cfg).0.ram == d.ram
    ensures WriteConfig(d, cfg).0.log == d.log || WriteConfig(d, cfg).0.log == Snoc(d.log, Provisioned(cfg.maxRetries))
  {
  }

  lemma InitProdShapes(d: Device, pin: Option<string>, maxRetries: Option<U8>, wipe: Option<bool>, draws: Draws)
    requires Shape(d.ram)
    ensures Shape(HandleInitProd(d, pin, maxRetries, wipe, draws).0.ram)
    ensures HandleInitProd(d, pin, maxRetries, wipe, draws).1 != Panic
  {
    hide WriteKey, WriteConfig, ResetCounterBestEffort;
    if d.ram.config.None? && pin.Some? && PinLengthOk(pin.value) && d.ram.secret.Some? {
      var (d1, healthy) := Try(d);
      var (d2, derived) := Try(d1);
      var kek := PinKek(pin.value, draws.salt, DEFAULT_ARGON, d.ram.secret.value);
      var blob := WrapSeed(kek, draws.seed, PublicOf(draws.seed), PinWrap, draws.salt, draws.nonce);
      WritesKeep(d2, blob, DeviceConfig(Dev, DEFAULT_ARGON, 0, false));
      var (d3, keyOk) := WriteKey(d2, blob);
      var retries: U8 := if maxRetries.Some? then maxRetries.value else 10;
      var cfg := DeviceConfig(Prod, DEFAULT_ARGON, retries, wipe == Some(true));
      WritesKeep(d3, blob, cfg);
      var (d4, cfgOk) := WriteConfig(d3, cfg);
      ResetKeepsRam(d4);
    }
  }

  lemma ResetShapes(d: Device, readable: Readable)
    ensures Shape(RunFactoryReset(d, readable).0.ram)
    ensures RunFactoryReset(d, readable).1 != Panic
  {
    hide EraseEverything, LoadFromFlash;
    EraseEverythingKeeps(d);
    LoadShapes(EraseEverything(d).0, readable);
  }

  lemma KeyHandlersShape(d: Device, force: bool, draws: Draws)
    requires Shape(d.ram)
    ensures Shape(HandleInitDev(d).0.ram) && HandleInitDev(d).1 != Panic
    ensures Shape(HandleGenerateKey(d, force, draws).0.ram) && HandleGenerateKey(d, force, draws).1 != Panic
  {
    hide WritePair;
  }

  lemma QuietHandlersShape(d: Device, unix: Clock.Seconds, validityNs: Option<nat>)
    requires Shape(d.ram)
    ensures Shape(HandleLock(d).0.ram) && HandleLock(d).1 != Panic
    ensures Shape(HandleSetTime(d, unix).0.ram) && HandleSetTime(d, unix).1 != Panic
    ensures Shape(HandleSign(d, validityNs).0.ram) && HandleSign(d, validityNs).1 != Panic
  {
    hide WriteFloor;
    PlanNeverDropsFloor(d.time, unix);
    WriteFloorKeeps(d);
  }

  lemma WriteFloorKeeps(d: Device)
    ensures forall f :: WriteFloor(d, f).0.ram == d.ram
  {
  }

  /** A plan that persists always has a floor to persist. */
  lemma PlanNeverDropsFloor(t: TimeState, unix: Clock.Seconds)
    ensures var plan := PlanSetTime(t, unix);
            plan.Adopt? && plan.persist ==> plan.floor.Some?
  {
  }

  lemma HandleShapes(d: Device, r: Request, env: Env)
    requires Shape(d.ram)
    ensures Shape(Handle(d, r, env).0.ram)
    ensures Handle(d, r, env).1 != Panic
  {
    hide VerifyPin, HandleInitProd, HandleChangePin, Authorize, RunFactoryReset,
         HandleInitDev, HandleGenerateKey, HandleLock, HandleSetTime, HandleSign;
    match r
    case InitProd(pin, maxRetries, wipe) => InitProdShapes(d, pin, maxRetries, wipe, env.draws);
    case Unlock(pin) =>
      if d.ram.state == ProdLocked {
        VerifyKeeps(d, pin, env.kdfUs);
      }
    case ChangePin(current, newPin) => ChangePinShapes(d, current, newPin, env.draws, env.kdfUs);
    case FactoryReset(confirmed, proof) =>
      AuthorizeShapes(d, proof, env.kdfUs);
      ResetShapes(Authorize(d, proof, env.kdfUs).0, env.readable);
    case RebootBootloader(proof) => AuthorizeShapes(d, proof, env.kdfUs);
    case InitDev => KeyHandlersShape(d, false, env.draws);
    case InitOther =>
    case GenerateKey(force) => KeyHandlersShape(d, force, env.draws);
    case SetClock(unix) => QuietHandlersShape(d, unix, None);
    case Sign(validityNs) => QuietHandlersShape(d, 0, validityNs);
    case Lock => QuietHandlersShape(d, 0, None);
  }

  lemma StepShapes(d: Device, e: Event)
    requires Shape(d.ram)
    ensures Shape(Step(d, e).ram)
  {
    hide Handle, LoadFromFlash;
    match e
    case Boot(startUs, physical, secret, readable) =>
      var cold := d.(time := d.time.(wall := Clock.NewWall(), physical := physical, nowUs := startUs, on := true),
                     ram := ColdRam(secret), tape := []);
      LoadShapes(Note(cold, Booted(NowMs(cold))), readable);
    case Ask(request, env) => HandleShapes(d.(tape := env.tape), request, env);
    case _ =>
  }

  /**
   * In every state reachable from any device with a consistent session, by any
   * events under any faults, the session is consistent and the next request
   * does not panic.
   */
  lemma {:induction false} SessionStaysConsistent(d: Device, events: seq<Event>)
    requires Shape(d.ram)
    ensures Shape(Run(d, events).ram)
    ensures forall request: Request, env: Env :: Handle(Run(d, events).(tape := env.tape), request, env).1 != Panic
  {
    if events != [] {
      SessionStaysConsistent(d, events[..|events| - 1]);
      StepShapes(Run(d, events[..|events| - 1]), events[|events| - 1]);
    }
    forall request: Request, env: Env ensures Handle(Run(d, events).(tape := env.tape), request, env).1 != Panic {
      HandleShapes(Run(d, events).(tape := env.tape), request, env);
    }
  }
}
