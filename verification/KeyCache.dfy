/**
 * The key caches in RAM agree with the key record in flash, so that rotation,
 * PIN changes and reboots never lose or exchange the CA key.
 */
module KeyCache {
  import opened Options
  import opened Bytes
  import opened AbRecords
  import opened Wrap
  import Clock
  import opened TrustedTime
  import opened Attempts
  import opened Session
  import opened SessionShape
  import opened PinCases
  import opened PinBudget

  /** A blob as `wrap_seed` makes them: bound to its own type, key and nonce, and self-unwrapping. */
  predicate Genuine(b: KeyBlob) {
    && b.sealed.nonce == b.nonce && b.sealed.boundType == b.wrapType && b.sealed.boundKey == b.pubkey
    && b.pubkey == PublicOf(b.sealed.seed)
    && (b.wrapType == PinWrap ==> b.sealed.kek.PinKek? && b.sealed.kek.salt == b.salt)
  }

  predicate GenuineCopies(p: Pair<KeyBlob>) {
    && (p.a.Valid? ==> Genuine(p.a.value))
    && (p.b.Valid? ==> Genuine(p.b.value))
  }

  function PubkeyOf(blob: Option<KeyBlob>): Option<PublicKey> {
    if blob.Some? then Some(blob.value.pubkey) else None
  }

  /** What an unlocked session holds, against the latest record. */
  ghost predicate Unlocked(d: Device) {
    && Latest(d.flash.key).Some?
    && d.ram.ca.Some? && d.ram.wrapKek.Some? && d.ram.config.Some? && d.ram.secret.Some?
    && d.ram.wrapSalt == Some(Latest(d.flash.key).value.salt)
    && UnwrapSeed(d.ram.wrapKek.value, Latest(d.flash.key).value) == d.ram.ca
    && d.ram.wrapKek.value.PinKek?
    && d.ram.wrapKek.value == PinKek(d.ram.wrapKek.value.pin, Latest(d.flash.key).value.salt,
                                     d.ram.config.value.argon2, d.ram.secret.value)
  }

  ghost predicate InAgreement(d: Device) {
    && (d.ram.state in {ProdLocked, ProdReady} ==> d.ram.caPubkey == PubkeyOf(Latest(d.flash.key)))
    && (d.ram.state == ProdReady ==> Unlocked(d))
    && (d.ram.state == DevReady ==> DevAgreement(d))
  }

  /** A dev session wraps under the device secret, and its live key is what that opens. */
  ghost predicate DevAgreement(d: Device) {
    && (d.ram.wrapKek.Some? ==> d.ram.secret.Some? && d.ram.wrapKek.value == DevKek(d.ram.secret.value))
    && (d.ram.secret.Some? ==> d.ram.wrapKek.Some?)
    && (d.ram.ca.Some? ==>
          && d.ram.wrapKek.Some? && Latest(d.flash.key).Some?
          && UnwrapSeed(d.ram.wrapKek.value, Latest(d.flash.key).value) == d.ram.ca
          && d.ram.caPubkey == PubkeyOf(Latest(d.flash.key)))
  }

  ghost predicate Cached(d: Device, limit: nat) {
    && WellNumbered(d.flash.key, limit)
    && GenuineCopies(d.flash.key)
    && (Powered(d) ==> Shape(d.ram) && InAgreement(d))
  }

  // ------------------------------------------------------------------- pieces

  lemma ShrinkKeepsCopies(p: Pair<KeyBlob>, q: Pair<KeyBlob>, limit: nat)
    requires WellNumbered(p, limit) && GenuineCopies(p) && Shrunk(p, q)
    ensures WellNumbered(q, limit + 1) && GenuineCopies(q)
  {
  }

  /** Writing a genuine blob: it is the latest record exactly when the write finished. */
  lemma WriteKeyStores(d: Device, blob: KeyBlob, limit: nat)
    requires WellNumbered(d.flash.key, limit) && GenuineCopies(d.flash.key) && limit < SEQUENCE_SPACE - 1
    requires Genuine(blob)
    ensures var (e, ok) := WriteKey(d, blob);
            && WellNumbered(e.flash.key, limit + 1) && GenuineCopies(e.flash.key)
            && e.ram == d.ram
            && e.flash == d.flash.(key := e.flash.key)
            && (Latest(e.flash.key) == Some(blob) || Latest(e.flash.key) == Latest(d.flash.key))
            && (ok ==> Latest(e.flash.key) == Some(blob))
            && (!ok && Powered(e) ==> Latest(e.flash.key) == Latest(d.flash.key))
            && (Powered(e) ==> Powered(d))
  {
    hide WritePair;
    var (read, readable) := Try(d);
    WriteIsAtomic(d.flash.key, blob, Next(read), limit);
    assert GenuineCopies(WritePair(d.flash.key, blob, Next(read))) by {
      WriteKeepsGenuine(d.flash.key, blob, Next(read));
    }
  }

  lemma WriteKeepsGenuine(p: Pair<KeyBlob>, blob: KeyBlob, o: Outcome)
    requires GenuineCopies(p) && Genuine(blob)
    ensures GenuineCopies(WritePair(p, blob, o))
  {
  }

  /** A step that leaves the key record, the secrets and the state alone. */
  predicate SameKeys(d: Device, e: Device) {
    && e.flash.key == d.flash.key
    && SameButBackoff(e.ram, d.ram)
    && (Powered(e) ==> Powered(d))
  }

  lemma SameKeysStayCached(d: Device, e: Device, limit: nat)
    requires Cached(d, limit) && SameKeys(d, e)
    ensures Cached(e, limit + 1) && Cached(e, limit)
  {
  }

  lemma SameLatestStaysCached(d: Device, e: Device, limit: nat)
    requires WellNumbered(e.flash.key, limit) && GenuineCopies(e.flash.key)
    requires Shape(d.ram) && InAgreement(d) && e.ram == d.ram
    requires Powered(e) ==> Latest(e.flash.key) == Latest(d.flash.key)
    ensures Cached(e, limit)
  {
    hide Latest, UnwrapSeed;
  }

  lemma VerifyCached(d: Device, pin: string, kdfUs: nat, limit: nat)
    requires Cached(d, limit) && Powered(d) && d.ram.state in {ProdLocked, ProdReady}
    ensures var (e, v) := VerifyPin(d, pin, kdfUs);
            && (v.Verified? || v.Refused?)
            && (v.Refused? ==> Cached(e, limit + 1))
            && (v.Verified? ==>
                  && Cached(e, limit)
                  && SameKeys(d, e)
                  && Latest(d.flash.key).Some? && d.ram.config.Some? && d.ram.secret.Some?
                  && v.seed == Latest(d.flash.key).value.sealed.seed
                  && v.salt == Latest(d.flash.key).value.salt
                  && v.kek == PinKek(pin, v.salt, d.ram.config.value.argon2, d.ram.secret.value)
                  && UnwrapSeed(v.kek, Latest(d.flash.key).value) == Some(v.seed))
  {
    hide VerifyPin;
    VerifyCases(d, pin, kdfUs);
    VerifyKeeps(d, pin, kdfUs);
    var (e, v) := VerifyPin(d, pin, kdfUs);
    OutcomeCached(d, pin, e, v, limit);
  }

  lemma OutcomeCached(d: Device, pin: string, e: Device, v: Verdict, limit: nat)
    requires Cached(d, limit) && Powered(d) && d.ram.state in {ProdLocked, ProdReady}
    requires VerifyOutcome(d, pin, e, v)
    ensures v.Refused? ==> Cached(e, limit + 1)
    ensures v.Verified? ==> Cached(e, limit) && SameKeys(d, e)
    ensures v.Verified? ==> v.seed == Latest(d.flash.key).value.sealed.seed
  {
    hide CountFrom;
    var max := d.ram.config.value.maxRetries;
    if v.Verified? || Unevaluated(d, e) || WrongBelowLimit(d, e, max, Count(d.flash.marks) + 1) {
      SameKeysStayCached(d, e, limit);
    } else {
      ShrinkKeepsCopies(d.flash.key, e.flash.key, limit);
    }
  }

  // ----------------------------------------------------------------- handlers

  lemma UnlockCached(d: Device, pin: string, kdfUs: nat, limit: nat)
    requires Cached(d, limit) && Powered(d)
    ensures Cached(HandleUnlock(d, pin, kdfUs).0, limit + 1)
  {
    hide VerifyPin;
    if d.ram.state == ProdLocked {
      VerifyCached(d, pin, kdfUs, limit);
    }
  }

  lemma InitProdCached(d: Device, pin: Option<string>, maxRetries: Option<U8>, wipe: Option<bool>, draws: Draws, limit: nat)
    requires Cached(d, limit) && Powered(d) && limit < SEQUENCE_SPACE - 1
    ensures Cached(HandleInitProd(d, pin, maxRetries, wipe, draws).0, limit + 1)
  {
    hide Provision, Latest, UnwrapSeed;
    if d.ram.config.None? && pin.Some? && PinLengthOk(pin.value) && d.ram.secret.Some? {
      var d1 := Try(d).0;
      var d2 := Try(d1).0;
      var retries: U8 := if maxRetries.Some? then maxRetries.value else 10;
      SameKeysStayCached(d, d1, limit);
      SameKeysStayCached(d, d2, limit);
      ProvisionCached(d2, PinKek(pin.value, draws.salt, DEFAULT_ARGON, d.ram.secret.value),
                      DeviceConfig(Prod, DEFAULT_ARGON, retries, wipe == Some(true)), draws, limit);
    }
  }

  lemma ProvisionCached(d: Device, kek: Kek, cfg: DeviceConfig, draws: Draws, limit: nat)
    requires WellNumbered(d.flash.key, limit) && GenuineCopies(d.flash.key) && limit < SEQUENCE_SPACE - 1
    requires Shape(d.ram) && d.ram.state == Uninitialized && cfg.mode == Prod
    requires kek.PinKek? && kek.salt == draws.salt
    ensures Cached(Provision(d, kek, cfg, draws).0, limit + 1)
  {
    hide WriteKey, WriteConfig, ResetCounterBestEffort, Latest, UnwrapSeed;
    var blob := WrapSeed(kek, draws.seed, PublicOf(draws.seed), PinWrap, draws.salt, draws.nonce);
    WriteKeyStores(d, blob, limit);
    var (d1, keyOk) := WriteKey(d, blob);
    WritesKeep(d1, blob, cfg);
    WriteConfigKeepsKey(d1, cfg);
    var (d2, cfgOk) := WriteConfig(d1, cfg);
    ResetKeepsRam(d2);
    ResetCases(d2);
  }

  lemma WriteConfigKeepsKey(d: Device, cfg: DeviceConfig)
    ensures WriteConfig(d, cfg).0.flash.key == d.flash.key
    ensures Powered(WriteConfig(d, cfg).0) ==> Powered(d)
  {
    hide WritePair;
  }

  lemma InitDevCached(d: Device, limit: nat)
    requires Cached(d, limit) && Powered(d)
    ensures Cached(HandleInitDev(d).0, limit + 1)
  {
    hide WriteConfig;
    var cfg := DeviceConfig(Dev, DEFAULT_ARGON, 0, false);
    WritesKeep(d, WrapSeed(DevKek([]), [], PublicOf([]), DevWrap, [], []), cfg);
    WriteConfigKeepsKey(d, cfg);
  }

  /** Rotation keeps the cached KEK and salt valid for the new record. */
  lemma GenerateKeyCached(d: Device, force: bool, draws: Draws, limit: nat)
    requires Cached(d, limit) && Powered(d) && limit < SEQUENCE_SPACE - 1
    ensures Cached(HandleGenerateKey(d, force, draws).0, limit + 1)
  {
    hide WriteKey;
    KeyHandlersShape(d, force, draws);
    var (d1, healthy) := Try(d);
    if d.ram.state in {DevReady, ProdReady} && d.ram.config.Some? && d.ram.wrapKek.Some? {
      var prod := d.ram.config.value.mode == Prod;
      if prod ==> d.ram.wrapSalt.Some? {
        var salt := if prod then d.ram.wrapSalt.value else draws.salt;
        var blob := WrapSeed(d.ram.wrapKek.value, draws.seed, PublicOf(draws.seed), if prod then PinWrap else DevWrap, salt, draws.nonce);
        WriteKeyStores(d1, blob, limit);
      }
    }
  }

  lemma ChangePinCached(d: Device, current: string, newPin: string, draws: Draws, kdfUs: nat, limit: nat)
    requires Cached(d, limit) && Powered(d) && limit < SEQUENCE_SPACE - 1
    ensures Cached(HandleChangePin(d, current, newPin, draws, kdfUs).0, limit + 1)
  {
    hide VerifyPin, Rewrap;
    if d.ram.state in {ProdLocked, ProdReady} && PinLengthOk(newPin) {
      VerifyCached(d, current, kdfUs, limit);
      var (d1, v) := VerifyPin(d, current, kdfUs);
      if v.Verified? {
        RewrapCached(d1, d.ram.state == ProdReady, v.seed, newPin, draws, limit);
      }
    }
  }

  /** The PIN opens the blob, with its stored salt, to this seed. */
  predicate OpensTo(pin: string, cfg: DeviceConfig, secret: Secret, blob: KeyBlob, seed: Seed) {
    UnwrapSeed(PinKek(pin, blob.salt, cfg.argon2, secret), blob) == Some(seed)
  }

  /**
   * Re-wrapping: whatever the flash does, the latest record still holds the
   * same seed, and it is the old record or one that opens under the new PIN.
   */
  lemma RewrapCached(d: Device, wasReady: bool, seed: Seed, newPin: string, draws: Draws, limit: nat)
    requires WellNumbered(d.flash.key, limit) && GenuineCopies(d.flash.key) && limit < SEQUENCE_SPACE - 1
    requires Shape(d.ram) && InAgreement(d)
    requires d.ram.state == (if wasReady then ProdReady else ProdLocked)
    requires Latest(d.flash.key).Some? && seed == Latest(d.flash.key).value.sealed.seed
    ensures var (e, reply) := Rewrap(d, wasReady, seed, newPin, draws);
            && Cached(e, limit + 1)
            && Latest(e.flash.key).Some? && Latest(e.flash.key).value.sealed.seed == seed
            && (reply == Success ==>
                  && d.ram.config.Some? && d.ram.secret.Some?
                  && OpensTo(newPin, d.ram.config.value, d.ram.secret.value, Latest(e.flash.key).value, seed))
            && (reply != Success && Powered(e) ==> Latest(e.flash.key) == Latest(d.flash.key))
            && (|| Latest(e.flash.key) == Latest(d.flash.key)
                || (&& d.ram.config.Some? && d.ram.secret.Some?
                    && OpensTo(newPin, d.ram.config.value, d.ram.secret.value, Latest(e.flash.key).value, seed)))
  {
    hide StoreNewPin, UnwrapSeed, GenuineCopies, Latest;
    var (d1, healthy) := Try(d);
    var (d2, derived) := Try(d1);
    SameKeysStayCached(d, d1, limit);
    SameKeysStayCached(d, d2, limit);
    if healthy && d1.ram.secret.Some? && derived && d2.ram.caPubkey.Some? {
      StoreCached(d2, wasReady, seed, newPin, draws, limit);
    }
  }

  /** The writing half of re-wrapping, from a session that has all it needs. */
  lemma StoreCached(d: Device, wasReady: bool, seed: Seed, newPin: string, draws: Draws, limit: nat)
    requires WellNumbered(d.flash.key, limit) && GenuineCopies(d.flash.key) && limit < SEQUENCE_SPACE - 1
    requires Shape(d.ram) && InAgreement(d)
    requires d.ram.state == (if wasReady then ProdReady else ProdLocked)
    requires Latest(d.flash.key).Some? && seed == Latest(d.flash.key).value.sealed.seed
    requires d.ram.secret.Some? && d.ram.caPubkey.Some? && d.ram.config.Some?
    ensures var kek := PinKek(newPin, draws.salt, d.ram.config.value.argon2, d.ram.secret.value);
            var (e, reply) := StoreNewPin(d, wasReady, seed, kek, d.ram.caPubkey.value, draws);
            && Cached(e, limit + 1)
            && Latest(e.flash.key).Some? && Latest(e.flash.key).value.sealed.seed == seed
            && (reply == Success ==> OpensTo(newPin, d.ram.config.value, d.ram.secret.value, Latest(e.flash.key).value, seed))
            && (reply != Success && Powered(e) ==> Latest(e.flash.key) == Latest(d.flash.key))
            && (|| Latest(e.flash.key) == Latest(d.flash.key)
                || OpensTo(newPin, d.ram.config.value, d.ram.secret.value, Latest(e.flash.key).value, seed))
  {
    hide WriteKey, ResetCounterBestEffort, AdoptNewPin, UnwrapSeed, Latest;
    var kek := PinKek(newPin, draws.salt, d.ram.config.value.argon2, d.ram.secret.value);
    var blob := WrapSeed(kek, seed, d.ram.caPubkey.value, PinWrap, draws.salt, draws.nonce);
    WrappedOpens(kek, seed, d.ram.caPubkey.value, draws);
    LatestIsGenuine(d.flash.key);
    WriteKeyStores(d, blob, limit);
    var (d1, ok) := WriteKey(d, blob);
    if ok {
      AdoptCached(d1, wasReady, seed, newPin, kek, blob, limit + 1);
    } else {
      SameLatestStaysCached(d, d1, limit + 1);
    }
  }

  lemma WrappedOpens(kek: Kek, seed: Seed, pubkey: PublicKey, draws: Draws)
    ensures UnwrapSeed(kek, WrapSeed(kek, seed, pubkey, PinWrap, draws.salt, draws.nonce)) == Some(seed)
  {
  }

  lemma LatestIsGenuine(p: Pair<KeyBlob>)
    requires GenuineCopies(p) && Latest(p).Some?
    ensures Genuine(Latest(p).value)
  {
  }

  lemma AdoptCached(d: Device, wasReady: bool, seed: Seed, newPin: string, kek: Kek, blob: KeyBlob, limit: nat)
    requires WellNumbered(d.flash.key, limit) && GenuineCopies(d.flash.key)
    requires Shape(d.ram) && d.ram.state == (if wasReady then ProdReady else ProdLocked)
    requires d.ram.config.Some? && d.ram.secret.Some?
    requires Latest(d.flash.key) == Some(blob) && d.ram.caPubkey == Some(blob.pubkey)
    requires kek == PinKek(newPin, blob.salt, d.ram.config.value.argon2, d.ram.secret.value)
    requires UnwrapSeed(kek, blob) == Some(seed)
    ensures var e := AdoptNewPin(ResetCounterBestEffort(d), wasReady, seed, kek, blob.salt);
            Cached(e, limit) && e.flash.key == d.flash.key
  {
    hide ResetCounterBestEffort, UnwrapSeed;
    ResetKeepsRam(d);
    ResetCases(d);
  }

  lemma LoadCached(d: Device, readable: Readable, limit: nat)
    requires WellNumbered(d.flash.key, limit) && GenuineCopies(d.flash.key)
    requires NoSecrets(d.ram) && readable.key
    ensures Cached(LoadFromFlash(d, readable), limit)
  {
    LoadShapes(d, readable);
  }

  lemma FactoryResetCached(d: Device, readable: Readable, limit: nat)
    requires WellNumbered(d.flash.key, limit) && GenuineCopies(d.flash.key)
    requires readable.key
    ensures Cached(RunFactoryReset(d, readable).0, limit + 1)
  {
    hide EraseEverything, LoadFromFlash;
    EraseEverythingKeeps(d);
    ResetShapes(d, readable);
    ShrinkKeepsCopies(d.flash.key, EraseEverything(d).0.flash.key, limit);
    LoadCached(EraseEverything(d).0, readable, limit + 1);
  }

  lemma AuthorizeCached(d: Device, proof: Option<string>, kdfUs: nat, limit: nat)
    requires Cached(d, limit) && Powered(d)
    ensures var (e, refusal) := Authorize(d, proof, kdfUs);
            && (refusal.Some? || refusal.None?)
            && Cached(e, limit + 1)
            && (refusal.None? ==> Cached(e, limit))
  {
    hide VerifyPin;
    if d.ram.state in {ProdLocked, ProdReady} && proof.Some? {
      VerifyCached(d, proof.value, kdfUs, limit);
    }
  }

  lemma QuietCached(d: Device, unix: Clock.Seconds, validityNs: Option<nat>, limit: nat)
    requires Cached(d, limit) && Powered(d)
    ensures Cached(HandleLock(d).0, limit + 1)
    ensures Cached(HandleSetTime(d, unix).0, limit + 1)
    ensures Cached(HandleSign(d, validityNs).0, limit + 1)
    ensures Cached(Relock(d), limit + 1)
  {
    hide HandleSetTime, HandleSign;
    QuietBooks(d, unix, validityNs);
    SameKeysStayCached(d, HandleSetTime(d, unix).0, limit);
    SameKeysStayCached(d, HandleSign(d, validityNs).0, limit);
  }

  lemma HandleCached(d: Device, r: Request, env: Env, limit: nat)
    requires Cached(d, limit) && Powered(d) && limit < SEQUENCE_SPACE - 1
    requires ReadsReliably(Ask(r, env))
    ensures Cached(Handle(d, r, env).0, limit + 1)
  {
    hide HandleInitProd, HandleUnlock, HandleChangePin, Authorize, RunFactoryReset,
         HandleInitDev, HandleGenerateKey, HandleLock, HandleSetTime, HandleSign;
    match r
    case InitProd(pin, maxRetries, wipe) => InitProdCached(d, pin, maxRetries, wipe, env.draws, limit);
    case Unlock(pin) => UnlockCached(d, pin, env.kdfUs, limit);
    case ChangePin(current, newPin) => ChangePinCached(d, current, newPin, env.draws, env.kdfUs, limit);
    case FactoryReset(confirmed, proof) =>
      AuthorizeCached(d, proof, env.kdfUs, limit);
      var (d1, refusal) := Authorize(d, proof, env.kdfUs);
      if refusal.None? {
        FactoryResetCached(d1, env.readable, limit);
      }
    case RebootBootloader(proof) => AuthorizeCached(d, proof, env.kdfUs, limit);
    case InitDev => InitDevCached(d, limit);
    case InitOther =>
    case GenerateKey(force) => GenerateKeyCached(d, force, env.draws, limit);
    case SetClock(unix) => QuietCached(d, unix, None, limit);
    case Sign(validityNs) => QuietCached(d, 0, validityNs, limit);
    case Lock => QuietCached(d, 0, None, limit);
  }

  lemma StepCached(d: Device, e: Event, limit: nat)
    requires Cached(d, limit) && limit < SEQUENCE_SPACE - 1 && ReadsReliably(e)
    ensures Cached(Step(d, e), limit + 1)
  {
    hide Handle, LoadFromFlash, Relock;
    match e
    case Boot(startUs, physical, secret, readable) =>
      var cold := d.(time := d.time.(wall := Clock.NewWall(), physical := physical, nowUs := startUs, on := true),
                     ram := ColdRam(secret), tape := []);
      LoadCached(Note(cold, Booted(NowMs(cold))), readable, limit + 1);
    case Ask(request, env) =>
      if Powered(d) {
        HandleCached(d.(tape := env.tape), request, env, limit);
      }
    case TransportReset =>
      if Powered(d) {
        QuietCached(d, 0, None, limit);
      }
    case _ =>
  }

  /**
   * In every state a device can reach from the factory, by any requests, faults,
   * power cuts and reboots, an unlocked session holds exactly the key, salt and
   * KEK of the latest key record, and a locked one its public key.
   */
  lemma {:induction false} CacheAgreesWithFlash(events: seq<Event>)
    requires AllReadReliably(events) && |events| < SEQUENCE_SPACE
    ensures Cached(Run(Factory(), events), |events|)
  {
    if events != [] {
      CacheAgreesWithFlash(events[..|events| - 1]);
      StepCached(Run(Factory(), events[..|events| - 1]), events[|events| - 1], |events| - 1);
    }
  }

  // ------------------------------------------------------------- consequences

  /**
   * `changePin` with the right PIN, in any reachable session, never changes the
   * CA seed and never strands it. Whatever fails or is cut, the latest record is
   * the old one, which opens under the old PIN, or one that opens under the new
   * PIN to the same seed; it is the new one after a success, and the old one
   * after a failure without power loss.
   */
  lemma ChangePinKeepsTheSeed(events: seq<Event>, current: string, newPin: string, env: Env)
    requires AllReadReliably(events) && |events| < SEQUENCE_SPACE - 1
    requires var d := Run(Factory(), events).(tape := env.tape);
             && Powered(d) && d.ram.state in {ProdLocked, ProdReady} && PinLengthOk(newPin)
             && VerifyPin(d, current, env.kdfUs).1.Verified?
    ensures var d := Run(Factory(), events).(tape := env.tape);
            var (e, reply) := HandleChangePin(d, current, newPin, env.draws, env.kdfUs);
            && Latest(d.flash.key).Some? && Latest(e.flash.key).Some?
            && d.ram.config.Some? && d.ram.secret.Some?
            && var seed := Latest(d.flash.key).value.sealed.seed;
            && OpensTo(current, d.ram.config.value, d.ram.secret.value, Latest(d.flash.key).value, seed)
            && (|| Latest(e.flash.key) == Latest(d.flash.key)
                || OpensTo(newPin, d.ram.config.value, d.ram.secret.value, Latest(e.flash.key).value, seed))
            && (reply == Success ==> OpensTo(newPin, d.ram.config.value, d.ram.secret.value, Latest(e.flash.key).value, seed))
            && (reply != Success && Powered(e) ==> Latest(e.flash.key) == Latest(d.flash.key))
  {
    hide VerifyPin, Rewrap, Run, Cached;
    CacheAgreesWithFlash(events);
    var d := Run(Factory(), events).(tape := env.tape);
    assert Cached(d, |events|) by {
      TapeStaysCached(Run(Factory(), events), env.tape, |events|);
    }
    ChangePinFromHere(d, current, newPin, env.draws, env.kdfUs, |events|);
  }

  lemma TapeStaysCached(d: Device, tape: seq<Outcome>, limit: nat)
    requires Cached(d, limit)
    ensures Cached(d.(tape := tape), limit)
  {
  }

  lemma ChangePinFromHere(d: Device, current: string, newPin: string, draws: Draws, kdfUs: nat, limit: nat)
    requires Cached(d, limit) && Powered(d) && limit < SEQUENCE_SPACE - 1
    requires d.ram.state in {ProdLocked, ProdReady} && PinLengthOk(newPin)
    requires VerifyPin(d, current, kdfUs).1.Verified?
    ensures var (e, reply) := HandleChangePin(d, current, newPin, draws, kdfUs);
            && Latest(d.flash.key).Some? && Latest(e.flash.key).Some?
            && d.ram.config.Some? && d.ram.secret.Some?
            && var seed := Latest(d.flash.key).value.sealed.seed;
            && OpensTo(current, d.ram.config.value, d.ram.secret.value, Latest(d.flash.key).value, seed)
            && (|| Latest(e.flash.key) == Latest(d.flash.key)
                || OpensTo(newPin, d.ram.config.value, d.ram.secret.value, Latest(e.flash.key).value, seed))
            && (reply == Success ==> OpensTo(newPin, d.ram.config.value, d.ram.secret.value, Latest(e.flash.key).value, seed))
            && (reply != Success && Powered(e) ==> Latest(e.flash.key) == Latest(d.flash.key))
  {
    hide VerifyPin, Rewrap;
    VerifyCached(d, current, kdfUs, limit);
    var (d1, v) := VerifyPin(d, current, kdfUs);
    RewrapCached(d1, d.ram.state == ProdReady, v.seed, newPin, draws, limit);
  }

  /** Power loss, boot, half a minute of waiting, and an unlock without faults. */
  function RebootAndUnlock(d: Device, startUs: Clock.Micros, readable: Readable, pin: string, env: Env): Device {
    var off := Step(d, PowerLoss);
    var booted := Step(off, Boot(startUs, false, d.ram.secret, readable));
    Step(Step(booted, Elapse(30_000_000)), Ask(Unlock(pin), env))
  }

  /**
   * In every reachable unlocked session, a reboot and an unlock with the current
   * PIN bring back the same CA key, exactly when the attempts on the counter are
   * below the limit.
   */
  lemma RebootRestoresTheKey(events: seq<Event>, startUs: Clock.Micros, readable: Readable, env: Env)
    requires AllReadReliably(events) && |events| < SEQUENCE_SPACE
    requires Powered(Run(Factory(), events)) && Run(Factory(), events).ram.state == ProdReady
    requires readable.config && readable.key && readable.count
    requires env.tape == [] && startUs + 30_000_000 < TWO_64
    ensures var d := Run(Factory(), events);
            && d.ram.wrapKek.Some? && d.ram.wrapKek.value.PinKek? && d.ram.config.Some?
            && var e := RebootAndUnlock(d, startUs, readable, d.ram.wrapKek.value.pin, env);
            ((e.ram.state == ProdReady && e.ram.ca == d.ram.ca && e.ram.caPubkey == d.ram.caPubkey)
             <==> Count(d.flash.marks) < d.ram.config.value.maxRetries)
  {
    hide Run, RebootAndUnlock, Count;
    CacheAgreesWithFlash(events);
    RunBudgeted(Factory(), events);
    RebootFromHere(Run(Factory(), events), startUs, readable, env, |events|);
  }

  lemma RebootFromHere(d: Device, startUs: Clock.Micros, readable: Readable, env: Env, limit: nat)
    requires Cached(d, limit) && Powered(d) && d.ram.state == ProdReady
    requires d.ram.config == Latest(d.flash.config) && d.ram.config.Some?
    requires readable.config && readable.key && readable.count
    requires env.tape == [] && startUs + 30_000_000 < TWO_64
    ensures var e := RebootAndUnlock(d, startUs, readable, d.ram.wrapKek.value.pin, env);
            (e.ram.state == ProdReady && e.ram.ca == d.ram.ca && e.ram.caPubkey == d.ram.caPubkey)
            <==> Count(d.flash.marks) < d.ram.config.value.maxRetries
  {
    hide CountFrom, VerifyPin, LoadFloor;
    var pin := d.ram.wrapKek.value.pin;
    var off := Step(d, PowerLoss);
    var booted := Step(off, Boot(startUs, false, d.ram.secret, readable));
    BootForUnlock(off, startUs, d.ram.secret, readable);
    var waited := Step(booted, Elapse(30_000_000));
    var asked := waited.(tape := env.tape);
    if Count(d.flash.marks) < d.ram.config.value.maxRetries {
      assert CanEvaluate(asked);
      NoFaultOpens(asked, pin, env.kdfUs);
    }
  }

  lemma BootForUnlock(d: Device, startUs: Clock.Micros, secret: Option<Secret>, readable: Readable)
    requires readable.config && readable.key && readable.count
    requires Latest(d.flash.config).Some? && Latest(d.flash.config).value.mode == Prod && Latest(d.flash.key).Some?
    ensures var e := Step(d, Boot(startUs, false, secret, readable));
            && e.flash == d.flash && Powered(e) && e.time.nowUs == startUs && e.ram.secret == secret
            && e.ram.config == Latest(d.flash.config)
            && e.ram.caPubkey == PubkeyOf(Latest(d.flash.key))
            && e.ram.state == (if Count(d.flash.marks) >= Latest(d.flash.config).value.maxRetries then LockedOut else ProdLocked)
            && e.ram.backoffUntilMs <= startUs / 1000 + 30_000
            && e.tape == []
  {
    hide CountFrom, LoadFloor;
    LoadFloorKeepsTime(d.time.(wall := Clock.NewWall(), physical := false, nowUs := startUs, on := true), readable.floor);
    var attempts := Count(d.flash.marks);
    if attempts > 0 {
      BackoffMonotone(0, attempts - 1);
    }
  }

  lemma NoFaultOpens(d: Device, pin: string, kdfUs: nat)
    requires CanEvaluate(d) && d.tape == [] && Count(d.flash.marks) < SECTOR_LEN
    requires UnwrapSeed(PinKek(pin, Latest(d.flash.key).value.salt, d.ram.config.value.argon2, d.ram.secret.value),
                        Latest(d.flash.key).value).Some?
    ensures VerifyPin(d, pin, kdfUs).1.Verified?
    ensures VerifyPin(d, pin, kdfUs).1.seed == Latest(d.flash.key).value.sealed.seed
    ensures SameButBackoff(VerifyPin(d, pin, kdfUs).0.ram, d.ram)
    ensures Powered(VerifyPin(d, pin, kdfUs).0)
  {
    hide CountFrom;
  }

  /** In every reachable dev session with a key, a reboot brings the same CA key back. */
  lemma DevRebootRestoresTheKey(events: seq<Event>, startUs: Clock.Micros, readable: Readable)
    requires AllReadReliably(events) && |events| < SEQUENCE_SPACE
    requires Powered(Run(Factory(), events)) && Run(Factory(), events).ram.state == DevReady && Run(Factory(), events).ram.ca.Some?
    requires readable.config && readable.key && readable.count
    ensures var d := Run(Factory(), events);
            var e := Step(Step(d, PowerLoss), Boot(startUs, false, d.ram.secret, readable));
            e.ram.state == DevReady && e.ram.ca == d.ram.ca && e.ram.wrapKek == d.ram.wrapKek && e.ram.caPubkey == d.ram.caPubkey
  {
    hide Run, LoadFloor;
    CacheAgreesWithFlash(events);
    RunBudgeted(Factory(), events);
    var d := Run(Factory(), events);
    assert DevAgreement(d);
  }
}
