/**
 * Who may do what. Over every request and every tape of faults: the key record,
 * the configuration and the bootloader flag change only on the authority the
 * source asks for, and with that authority and no faults they do change.
 */
module Authority {
  import opened Options
  import opened AbRecords
  import opened Wrap
  import Clock
  import opened TrustedTime
  import opened Attempts
  import opened Session
  import opened SessionShape
  import opened PinCases
  import opened PinLog
  import opened PinBudget
  import opened Wiping
  import KeyCache
  import FactoryReset

  /** The PIN opens the latest key record of `d`, and the request that ends in `e` has checked it. */
  ghost predicate Proved(d: Device, pin: string, e: Device) {
    && d.ram.config.Some? && d.ram.secret.Some? && Latest(d.flash.key).Some?
    && UnwrapSeed(PinKek(pin, Latest(d.flash.key).value.salt, d.ram.config.value.argon2, d.ram.secret.value),
                  Latest(d.flash.key).value).Some?
    && Rights(e.log) > Rights(d.log)
  }

  /** A wrong PIN reached the limit, on a device configured to wipe. */
  predicate Wiped(d: Device, e: Device) {
    && d.ram.config.Some? && d.ram.config.value.wipeOnLockout
    && d.ram.state in {ProdLocked, ProdReady}
    && Lockouts(e.log) > Lockouts(d.log)
  }

  /** The authority to erase the device or to leave it for the bootloader. */
  ghost predicate MayErase(d: Device, proof: Option<string>, e: Device) {
    || d.ram.state == Uninitialized
    || d.ram.state == DevReady
    || d.time.physical
    || (d.ram.state in {ProdLocked, ProdReady} && proof.Some? && Proved(d, proof.value, e))
  }

  // --------------------------------------------------------------------- PINs

  /** Nothing of the records, the floor or the bootloader flag has changed, unless by a wipe. */
  predicate RecordsKept(d: Device, e: Device) {
    && e.flash.config == d.flash.config && e.time.pair == d.time.pair
    && (e.flash.key == d.flash.key || Wiped(d, e))
    && e.ram.rebootRequested == d.ram.rebootRequested
  }

  lemma VerifyAuthority(d: Device, pin: string, kdfUs: nat)
    requires Shape(d.ram) && d.ram.state in {ProdLocked, ProdReady}
    ensures var (e, v) := VerifyPin(d, pin, kdfUs);
            && (v.Verified? || v.Refused?)
            && (v.Verified? ==> Proved(d, pin, e) && e.flash.key == d.flash.key)
            && RecordsKept(d, e)
            && Rights(e.log) >= Rights(d.log) && Lockouts(e.log) >= Lockouts(d.log)
  {
    hide VerifyPin, CountFrom;
    VerifyCases(d, pin, kdfUs);
    VerifyKeeps(d, pin, kdfUs);
    LockoutWipesAsConfigured(d, pin, kdfUs);
    var (e, v) := VerifyPin(d, pin, kdfUs);
    OutcomeAuthority(d, pin, e, v);
  }

  lemma OutcomeAuthority(d: Device, pin: string, e: Device, v: Verdict)
    requires Shape(d.ram) && d.ram.state in {ProdLocked, ProdReady}
    requires VerifyOutcome(d, pin, e, v) && RamAfterPin(d.ram, e, v)
    requires e.ram.state == LockedOut ==> LockoutEffect(d, d.ram.config.value.wipeOnLockout, e, v)
    ensures v.Verified? ==> Proved(d, pin, e) && e.flash.key == d.flash.key
    ensures RecordsKept(d, e)
    ensures Rights(e.log) >= Rights(d.log) && Lockouts(e.log) >= Lockouts(d.log)
  {
    hide CountFrom, UnwrapSeed, Latest;
    var passed := Snoc(d.log, Right);
    assert Rights(Snoc(passed, CounterErased)) == Rights(passed) == Rights(d.log) + 1;
    assert Lockouts(Snoc(passed, CounterErased)) == Lockouts(passed) == Lockouts(d.log);
  }

  lemma GateAuthority(d: Device, proof: Option<string>, kdfUs: nat)
    requires Shape(d.ram)
    ensures var (e, refusal) := Authorize(d, proof, kdfUs);
            && (refusal.None? || refusal.Some?)
            && (refusal.None? ==> MayErase(d, proof, e))
            && RecordsKept(d, e)
            && Rights(e.log) >= Rights(d.log) && Lockouts(e.log) >= Lockouts(d.log)
  {
    hide VerifyPin, Proved;
    if d.ram.state in {ProdLocked, ProdReady} && proof.Some? {
      VerifyAuthority(d, proof.value, kdfUs);
    }
  }

  // ----------------------------------------------------------------- requests

  /** What may have made this request change the key copies. */
  ghost predicate MayChangeKey(d: Device, r: Request, e: Device) {
    || Wiped(d, e)
    || match r
       case GenerateKey(force) => d.ram.state in {DevReady, ProdReady} && (force || d.ram.caPubkey.None?)
       case InitProd(_, _, _) => d.ram.state == Uninitialized
       case ChangePin(current, _) => d.ram.state in {ProdLocked, ProdReady} && Proved(d, current, e)
       case FactoryReset(confirmed, proof) => confirmed && MayErase(d, proof, e)
       case _ => false
  }

  ghost predicate MayChangeConfig(d: Device, r: Request, e: Device) {
    match r
    case InitDev => d.ram.state == Uninitialized
    case InitProd(_, _, _) => d.ram.state == Uninitialized
    case FactoryReset(confirmed, proof) => confirmed && MayErase(d, proof, e)
    case _ => false
  }

  ghost predicate MayChangeFloor(d: Device, r: Request, e: Device) {
    match r
    case SetClock(_) => true
    case FactoryReset(confirmed, proof) => confirmed && MayErase(d, proof, e)
    case _ => false
  }

  /** No request goes beyond its authority. */
  ghost predicate Lawful(d: Device, r: Request, e: Device) {
    && (e.flash.key != d.flash.key ==> MayChangeKey(d, r, e))
    && (e.flash.config != d.flash.config ==> MayChangeConfig(d, r, e))
    && (e.time.pair != d.time.pair ==> MayChangeFloor(d, r, e))
    && (e.ram.rebootRequested && !d.ram.rebootRequested ==> r.RebootBootloader? && MayErase(d, r.proof, e))
  }

  lemma ResetLawful(d: Device, confirmed: bool, proof: Option<string>, env: Env)
    requires Shape(d.ram)
    ensures Lawful(d, Session.FactoryReset(confirmed, proof),
                   HandleFactoryReset(d, confirmed, proof, env.kdfUs, env.readable).0)
  {
    hide Authorize, RunFactoryReset;
    GateAuthority(d, proof, env.kdfUs);
    var (d1, refusal) := Authorize(d, proof, env.kdfUs);
    if refusal.None? {
      ResetKeepsHistory(d1, env.readable);
      MoreHistoryMayErase(d, proof, d1, RunFactoryReset(d1, env.readable).0);
    }
  }

  lemma ResetKeepsHistory(d: Device, readable: Readable)
    ensures var e := RunFactoryReset(d, readable).0;
            && Rights(e.log) == Rights(d.log)
            && e.ram.rebootRequested == d.ram.rebootRequested
  {
    hide EraseEverything, LoadSession, LoadFloor, Latest;
    EraseEverythingKeeps(d);
    var d1 := EraseEverything(d).0;
    assert Rights(Snoc(d.log, CounterErased)) == Rights(d.log);
    LoadKeepsHistory(LoadCaches(d1, if readable.key then Latest(d1.flash.key) else None, readable.floor),
                     if readable.config then Latest(d1.flash.config) else None,
                     if readable.key then Latest(d1.flash.key) else None, readable.count);
  }

  lemma LoadKeepsHistory(d: Device, cfg: Option<DeviceConfig>, blob: Option<KeyBlob>, countReadable: bool)
    ensures var e := LoadSession(d, cfg, blob, countReadable);
            Rights(e.log) == Rights(d.log) && e.ram.rebootRequested == d.ram.rebootRequested
  {
    hide Count, BackoffMs, UnwrapSeed;
  }

  lemma MoreHistoryMayErase(d: Device, proof: Option<string>, e: Device, f: Device)
    requires MayErase(d, proof, e) && Rights(f.log) >= Rights(e.log)
    ensures MayErase(d, proof, f)
  {
    hide UnwrapSeed;
  }

  lemma ChangePinLawful(d: Device, current: string, newPin: string, draws: Draws, kdfUs: nat)
    requires Shape(d.ram)
    ensures Lawful(d, ChangePin(current, newPin), HandleChangePin(d, current, newPin, draws, kdfUs).0)
  {
    hide VerifyPin, Rewrap, Proved;
    if d.ram.state in {ProdLocked, ProdReady} && PinLengthOk(newPin) {
      VerifyAuthority(d, current, kdfUs);
      var (d1, v) := VerifyPin(d, current, kdfUs);
      if v.Verified? {
        RewrapKeepsTheRest(d1, d.ram.state == ProdReady, v.seed, newPin, draws);
        MoreHistoryProves(d, current, d1, Rewrap(d1, d.ram.state == ProdReady, v.seed, newPin, draws).0);
      }
    }
  }

  lemma MoreHistoryProves(d: Device, pin: string, e: Device, f: Device)
    requires Proved(d, pin, e) && Rights(f.log) >= Rights(e.log)
    ensures Proved(d, pin, f)
  {
    hide UnwrapSeed;
  }

  lemma RewrapKeepsTheRest(d: Device, wasReady: bool, seed: Seed, newPin: string, draws: Draws)
    ensures var e := Rewrap(d, wasReady, seed, newPin, draws).0;
            && e.flash.config == d.flash.config && e.time.pair == d.time.pair
            && e.ram.rebootRequested == d.ram.rebootRequested
            && Rights(e.log) == Rights(d.log)
  {
    hide WriteKey, ResetCounterBestEffort;
    var d2 := Try(Try(d).0).0;
    forall blob ensures KeyWriteOnly(d2, WriteKey(d2, blob).0) {
      WriteKeyOnly(d2, blob);
    }
    forall e ensures ResetOnly(e, ResetCounterBestEffort(e)) {
      ResetLeaves(e);
    }
  }

  predicate KeyWriteOnly(d: Device, e: Device) {
    e.flash == d.flash.(key := e.flash.key) && e.ram == d.ram && e.log == d.log && e.time.pair == d.time.pair
  }

  lemma WriteKeyOnly(d: Device, blob: KeyBlob)
    ensures KeyWriteOnly(d, WriteKey(d, blob).0)
  {
    hide WritePair;
  }

  predicate ResetOnly(d: Device, e: Device) {
    && e.flash == d.flash.(marks := e.flash.marks) && e.time.pair == d.time.pair
    && e.ram == d.ram.(backoffUntilMs := e.ram.backoffUntilMs) && Rights(e.log) == Rights(d.log)
    && Lockouts(e.log) == Lockouts(d.log)
  }

  lemma ResetLeaves(d: Device)
    ensures ResetOnly(d, ResetCounterBestEffort(d))
  {
    hide ResetCounterBestEffort;
    ResetCases(d);
    assert Rights(Snoc(d.log, CounterErased)) == Rights(d.log);
    assert Lockouts(Snoc(d.log, CounterErased)) == Lockouts(d.log);
  }

  lemma InitLawful(d: Device, pin: Option<string>, maxRetries: Option<U8>, wipe: Option<bool>, draws: Draws)
    requires Shape(d.ram)
    ensures Lawful(d, InitProd(pin, maxRetries, wipe), HandleInitProd(d, pin, maxRetries, wipe, draws).0)
  {
    hide Provision;
    forall kek, cfg ensures var d2 := Try(Try(d).0).0; InitKeeps(d2, Provision(d2, kek, cfg, draws).0) {
      ProvisionKeeps(Try(Try(d).0).0, kek, cfg, draws);
    }
  }

  predicate InitKeeps(d: Device, e: Device) {
    e.time.pair == d.time.pair && e.ram.rebootRequested == d.ram.rebootRequested
  }

  lemma ProvisionKeeps(d: Device, kek: Kek, cfg: DeviceConfig, draws: Draws)
    ensures InitKeeps(d, Provision(d, kek, cfg, draws).0)
  {
    hide WriteKey, WriteConfig, ResetCounterBestEffort;
    var blob := WrapSeed(kek, draws.seed, PublicOf(draws.seed), PinWrap, draws.salt, draws.nonce);
    WriteKeyOnly(d, blob);
    var d1 := WriteKey(d, blob).0;
    WriteConfigOnly(d1, cfg);
    ResetLeaves(WriteConfig(d1, cfg).0);
  }

  lemma WriteConfigOnly(d: Device, cfg: DeviceConfig)
    ensures var e := WriteConfig(d, cfg).0;
            e.ram == d.ram && e.flash == d.flash.(config := e.flash.config) && e.time.pair == d.time.pair
  {
    hide WritePair;
  }

  lemma SmallLawful(d: Device, r: Request, env: Env)
    requires Shape(d.ram)
    requires r.InitDev? || r.InitOther? || r.GenerateKey? || r.Lock? || r.SetClock? || r.Sign?
    ensures Lawful(d, r, Handle(d, r, env).0)
  {
    hide WriteKey, WriteConfig, WriteFloor, PlanSetTime;
    var cfg := DeviceConfig(Dev, DEFAULT_ARGON, 0, false);
    WriteConfigOnly(d, cfg);
    forall blob ensures KeyWriteOnly(Try(d).0, WriteKey(Try(d).0, blob).0) {
      WriteKeyOnly(Try(d).0, blob);
    }
    forall floor ensures var e := WriteFloor(d, floor).0; e.flash == d.flash && e.ram == d.ram {
      WriteFloorOnly(d, floor);
    }
  }

  lemma WriteFloorOnly(d: Device, floor: Clock.Seconds)
    ensures WriteFloor(d, floor).0.flash == d.flash && WriteFloor(d, floor).0.ram == d.ram
  {
    hide WritePair;
  }

  lemma RequestLawful(d: Device, r: Request, env: Env)
    requires Shape(d.ram)
    ensures Lawful(d, r, Handle(d, r, env).0)
  {
    hide HandleInitProd, VerifyPin, HandleChangePin, HandleFactoryReset, Authorize, Lawful;
    match r
    case InitProd(pin, maxRetries, wipe) => InitLawful(d, pin, maxRetries, wipe, env.draws);
    case Unlock(pin) => UnlockLawful(d, pin, env);
    case ChangePin(current, newPin) => ChangePinLawful(d, current, newPin, env.draws, env.kdfUs);
    case FactoryReset(confirmed, proof) => ResetLawful(d, confirmed, proof, env);
    case RebootBootloader(proof) => BootloaderLawful(d, proof, env);
    case _ => SmallLawful(d, r, env);
  }

  lemma UnlockLawful(d: Device, pin: string, env: Env)
    requires Shape(d.ram)
    ensures Lawful(d, Unlock(pin), HandleUnlock(d, pin, env.kdfUs).0)
  {
    hide VerifyPin, Proved;
    if d.ram.state == ProdLocked {
      VerifyAuthority(d, pin, env.kdfUs);
    }
  }

  lemma BootloaderLawful(d: Device, proof: Option<string>, env: Env)
    requires Shape(d.ram)
    ensures Lawful(d, RebootBootloader(proof), HandleRebootBootloader(d, proof, env.kdfUs).0)
  {
    hide Authorize;
    GateAuthority(d, proof, env.kdfUs);
  }

  // -------------------------------------------------------------------- events

  /** What an event may do to the records: a request what is lawful, anything else nothing. */
  ghost predicate LawfulEvent(d: Device, e: Event, f: Device) {
    if e.Ask? && Powered(d) then Lawful(d, e.request, f)
    else f.flash == d.flash && f.time.pair == d.time.pair && (f.ram.rebootRequested ==> d.ram.rebootRequested)
  }

  lemma StepLawful(d: Device, e: Event)
    requires Shape(d.ram)
    ensures LawfulEvent(d, e, Step(d, e))
  {
    hide Handle, LoadSession, LoadFloor, Relock;
    match e
    case Boot(startUs, physical, secret, readable) =>
      var cold := Note(d.(time := d.time.(wall := Clock.NewWall(), physical := physical, nowUs := startUs, on := true),
                          ram := ColdRam(secret), tape := []), Booted(startUs / 1000));
      LoadTouchesNoRecord(cold, readable);
    case TransportReset => RelockTouchesNoRecord(d);
    case Ask(request, env) =>
      if Powered(d) {
        var asked := d.(tape := env.tape);
        RequestLawful(asked, request, env);
        TapeIsNoAuthority(d, env.tape, request, Handle(asked, request, env).0);
      }
    case _ =>
  }

  lemma TapeIsNoAuthority(d: Device, tape: seq<Outcome>, r: Request, e: Device)
    requires Lawful(d.(tape := tape), r, e)
    ensures Lawful(d, r, Settle(e))
  {
    hide UnwrapSeed, Latest;
  }

  lemma LoadTouchesNoRecord(d: Device, readable: Readable)
    ensures var e := LoadFromFlash(d, readable);
            e.flash == d.flash && e.time.pair == d.time.pair && e.ram.rebootRequested == d.ram.rebootRequested
  {
    hide Count, BackoffMs, UnwrapSeed, LoadFloor;
    LoadFloorKeepsTime(d.time, readable.floor);
  }

  lemma RelockTouchesNoRecord(d: Device)
    ensures var e := Relock(d);
            e.flash == d.flash && e.time == d.time && e.log == d.log && e.ram.rebootRequested == d.ram.rebootRequested
  {
  }

  /** Every event of every run from the factory, whatever fails or is cut, stays within its authority. */
  lemma EveryEventIsLawful(events: seq<Event>, e: Event)
    ensures LawfulEvent(Run(Factory(), events), e, Run(Factory(), events + [e]))
  {
    hide Step, LawfulEvent;
    assert (events + [e])[..|events|] == events;
    SessionStaysConsistent(Factory(), events);
    StepLawful(Run(Factory(), events), e);
  }

  // ---------------------------------------------------------------- the CA seed

  /** The seed in the latest key record. */
  function StoredSeed(d: Device): Option<Seed> {
    match Latest(d.flash.key)
    case Some(blob) => Some(blob.sealed.seed)
    case None => None
  }

  /**
   * In every run the CA seed in the latest record changes only by a wipe at the
   * limit, a key generation that was forced or found no key, a production init
   * or an authorised factory reset; a change of PIN never changes it.
   */
  lemma SeedChangesOnlyWhenAsked(events: seq<Event>, e: Event)
    requires AllReadReliably(events) && |events| < SEQUENCE_SPACE - 1
    ensures var d := Run(Factory(), events);
            StoredSeed(Step(d, e)) != StoredSeed(d) ==>
              && e.Ask? && Powered(d)
              && (Wiped(d, Step(d, e)) || (!e.request.ChangePin? && MayChangeKey(d, e.request, Step(d, e))))
  {
    hide Run, Step, Lawful, MayChangeKey, KeyCache.Cached;
    var d := Run(Factory(), events);
    SessionStaysConsistent(Factory(), events);
    KeyCache.CacheAgreesWithFlash(events);
    SeedStep(d, e, |events|);
  }

  lemma SeedStep(d: Device, e: Event, limit: nat)
    requires Shape(d.ram) && KeyCache.Cached(d, limit) && limit < SEQUENCE_SPACE - 1
    ensures StoredSeed(Step(d, e)) != StoredSeed(d) ==>
              && e.Ask? && Powered(d)
              && (Wiped(d, Step(d, e)) || (!e.request.ChangePin? && MayChangeKey(d, e.request, Step(d, e))))
  {
    hide HandleChangePin, KeyCache.Cached, MayChangeKey, MayChangeConfig, MayChangeFloor, MayErase;
    StepLawful(d, e);
    LawfulKey(d, e, Step(d, e));
    if e.Ask? && Powered(d) && e.request.ChangePin? {
      KeyCache.TapeStaysCached(d, e.env.tape, limit);
      ChangePinSeed(d.(tape := e.env.tape), e.request.current, e.request.newPin, e.env.draws, e.env.kdfUs, limit);
    }
  }

  lemma LawfulKey(d: Device, e: Event, f: Device)
    requires LawfulEvent(d, e, f)
    ensures f.flash.key != d.flash.key ==> e.Ask? && Powered(d) && MayChangeKey(d, e.request, f)
  {
    hide MayChangeKey, MayChangeConfig, MayChangeFloor, MayErase;
  }

  lemma ChangePinSeed(d: Device, current: string, newPin: string, draws: Draws, kdfUs: nat, limit: nat)
    requires KeyCache.Cached(d, limit) && Powered(d) && limit < SEQUENCE_SPACE - 1
    ensures var e := HandleChangePin(d, current, newPin, draws, kdfUs).0;
            StoredSeed(e) == StoredSeed(d) || Wiped(d, e)
  {
    hide VerifyPin, Rewrap, Proved;
    if d.ram.state in {ProdLocked, ProdReady} && PinLengthOk(newPin) {
      VerifyAuthority(d, current, kdfUs);
      var (d1, v) := VerifyPin(d, current, kdfUs);
      if v.Verified? {
        KeyCache.VerifyCached(d, current, kdfUs, limit);
        RewrapSeed(d1, d.ram.state == ProdReady, v.seed, newPin, draws, limit);
      }
    }
  }

  lemma RewrapSeed(d: Device, wasReady: bool, seed: Seed, newPin: string, draws: Draws, limit: nat)
    requires WellNumbered(d.flash.key, limit) && KeyCache.GenuineCopies(d.flash.key) && limit < SEQUENCE_SPACE - 1
    requires Shape(d.ram) && KeyCache.InAgreement(d)
    requires d.ram.state == (if wasReady then ProdReady else ProdLocked)
    requires StoredSeed(d) == Some(seed)
    ensures StoredSeed(Rewrap(d, wasReady, seed, newPin, draws).0) == Some(seed)
  {
    hide Rewrap, KeyCache.InAgreement, KeyCache.Cached;
    KeyCache.RewrapCached(d, wasReady, seed, newPin, draws, limit);
  }

  // ------------------------------------------------------------ lockout by a request

  /** Whatever request carried the wrong PIN, a reply about it that leaves the session locked out tells what became of the key. */
  lemma RequestWipesAsConfigured(d: Device, r: Request, env: Env)
    requires Shape(d.ram) && d.ram.state in {ProdLocked, ProdReady}
    ensures var (e, reply) := Handle(d, r, env);
            e.ram.state == LockedOut && reply.PinFail? ==> LockoutEffect(d, d.ram.config.value.wipeOnLockout, e, Refused(reply))
  {
    hide VerifyPin, Rewrap, RunFactoryReset, LockoutEffect, HandleInitProd, HandleSetTime, HandleSign, HandleGenerateKey;
    match r
    case Unlock(pin) =>
      LockoutWipesAsConfigured(d, pin, env.kdfUs);
      VerifyKeeps(d, pin, env.kdfUs);
    case ChangePin(current, newPin) =>
      LockoutWipesAsConfigured(d, current, env.kdfUs);
      var (d1, v) := VerifyPin(d, current, env.kdfUs);
      VerifyKeeps(d, current, env.kdfUs);
      if v.Verified? {
        RewrapNeverPinFails(d1, d.ram.state == ProdReady, v.seed, newPin, env.draws);
      }
    case FactoryReset(_, proof) =>
      if proof.Some? {
        LockoutWipesAsConfigured(d, proof.value, env.kdfUs);
        VerifyKeeps(d, proof.value, env.kdfUs);
      }
      ResetNeverPinFails(Authorize(d, proof, env.kdfUs).0, env.readable);
    case RebootBootloader(proof) =>
      if proof.Some? {
        LockoutWipesAsConfigured(d, proof.value, env.kdfUs);
        VerifyKeeps(d, proof.value, env.kdfUs);
      }
    case GenerateKey(force) => GenerateKeyBooks(d, force, env.draws);
    case SetClock(unix) => QuietBooks(d, unix, None);
    case Sign(validityNs) => QuietBooks(d, 0, validityNs);
    case _ => QuietNeverPinFails(d, r, env);
  }

  lemma RewrapNeverPinFails(d: Device, wasReady: bool, seed: Seed, newPin: string, draws: Draws)
    ensures !Rewrap(d, wasReady, seed, newPin, draws).1.PinFail?
  {
    hide WriteKey, ResetCounterBestEffort;
  }

  lemma ResetNeverPinFails(d: Device, readable: Readable)
    ensures !RunFactoryReset(d, readable).1.PinFail?
  {
    hide EraseEverything, LoadFromFlash;
  }

  lemma QuietNeverPinFails(d: Device, r: Request, env: Env)
    requires r.InitDev? || r.InitProd? || r.InitOther? || r.Lock?
    ensures !Handle(d, r, env).1.PinFail?
  {
    hide WriteKey, WriteConfig, ResetCounterBestEffort;
  }
}
