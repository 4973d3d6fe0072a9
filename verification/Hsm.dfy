/**
 * The session object of hsm-core/src/dispatch.rs, with its fields updated in
 * place. Each method does to the object what the function of the same purpose
 * in module Session does to a device value, so the theorems about sessions are
 * theorems about this object.
 */
module HsmObject {
  import opened Options
  import opened Bytes
  import opened AbRecords
  import opened Wrap
  import opened Clock
  import opened TrustedTime
  import opened Attempts
  import opened Session

  class Hsm {
    var flash: Flash
    var time: TimeState       // the clock, the trusted floor with its records, and the timer
    var tape: seq<Outcome>
    ghost var log: Log
    var secret: Option<Secret>
    var state: State
    var config: Option<DeviceConfig>
    var ca: Option<Seed>
    var caPubkey: Option<PublicKey>
    var wrapKek: Option<Kek>
    var wrapSalt: Option<Salt>
    var backoffUntilMs: nat
    var rebootRequested: bool

    ghost function View(): Device
      reads this
    {
      Device(flash, time,
             Ram(state, config, ca, caPubkey, wrapKek, wrapSalt, backoffUntilMs, secret, rebootRequested),
             tape, log)
    }

    /** A board with a blank flash and no power. */
    constructor ()
      ensures View() == Factory()
    {
      flash := Flash(BlankPair(), BlankPair(), {});
      time := TimeState(BlankPair(), NewWall(), None, false, false, 0, false);
      tape, log, secret := [], Empty, None;
      state, config, ca, caPubkey := Uninitialized, None, None, None;
      wrapKek, wrapSalt, backoffUntilMs, rebootRequested := None, None, 0, false;
    }

    // ---------------------------------------------------------- HAL operations

    method Take() returns (o: Outcome)
      modifies this`tape, this`time
      ensures o == Next(old(View())) && View() == Spend(old(View()))
    {
      if !time.on {
        return Error(Untouched);
      }
      if tape == [] {
        return Done;
      }
      o := tape[0];
      time := time.(on := KeepsPower(o));
      tape := tape[1..];
    }

    method TickCounter() returns (attempts: Option<nat>)
      modifies this`tape, this`time, this`flash
      ensures View() == Tick(old(View())).0 && attempts == Tick(old(View())).1
    {
      hide CountFrom;
      var read := Take();
      if !read.Done? {
        return None;
      }
      var n := Count(flash.marks);
      if n >= SECTOR_LEN {
        return Some(n);
      }
      var o := Take();
      if Touches(o) {
        flash := flash.(marks := flash.marks + {n});
      }
      attempts := if o.Done? then Some(n + 1) else None;
    }

    method EraseCounter() returns (ok: bool)
      modifies this`tape, this`time, this`flash, this`log
      ensures View() == ResetCounter(old(View())).0 && ok == ResetCounter(old(View())).1
    {
      var o := Take();
      flash := flash.(marks := Cleared(flash.marks, o));
      if Touches(o) {
        log := Snoc(log, CounterErased);
      }
      ok := o.Done?;
    }

    method ResetPinCounter()
      modifies this`tape, this`time, this`flash, this`log, this`backoffUntilMs
      ensures View() == ResetCounterBestEffort(old(View()))
    {
      hide ResetCounter;
      for i := 0 to 2
        invariant i == 0 ==> View() == old(View())
        invariant i == 1 ==> View() == ResetCounter(old(View())).0 && !ResetCounter(old(View())).1
        invariant i == 2 ==> View() == ResetCounterBestEffort(old(View()))
      {
        var ok := EraseCounter();
        if ok {
          backoffUntilMs := 0;
          return;
        }
      }
    }

    method WriteKeyRecord(blob: KeyBlob) returns (ok: bool)
      modifies this`tape, this`time, this`flash
      ensures View() == WriteKey(old(View()), blob).0 && ok == WriteKey(old(View()), blob).1
    {
      hide WritePair;
      var read := Take();
      if !read.Done? {
        return false;
      }
      var o := Take();
      flash := flash.(key := WritePair(flash.key, blob, o));
      ok := o.Done?;
    }

    method WriteConfigRecord(cfg: DeviceConfig) returns (ok: bool)
      modifies this`tape, this`time, this`flash, this`log
      ensures View() == WriteConfig(old(View()), cfg).0 && ok == WriteConfig(old(View()), cfg).1
    {
      hide WritePair;
      var read := Take();
      if !read.Done? {
        return false;
      }
      var o := Take();
      flash := flash.(config := WritePair(flash.config, cfg, o));
      if Finishes(o) {
        log := Snoc(log, Provisioned(cfg.maxRetries));
      }
      ok := o.Done?;
    }

    method WriteFloorRecord(value: Seconds) returns (ok: bool)
      modifies this`tape, this`time
      ensures View() == WriteFloor(old(View()), value).0 && ok == WriteFloor(old(View()), value).1
    {
      hide WritePair;
      var read := Take();
      if !read.Done? {
        return false;
      }
      var o := Take();
      time := time.(pair := WritePair(time.pair, value, o));
      ok := o.Done?;
    }

    method EraseKeyCopies() returns (ok: bool)
      modifies this`tape, this`time, this`flash
      ensures View() == EraseKey(old(View())).0 && ok == EraseKey(old(View())).1
    {
      var first := Take();
      if !first.Done? {
        flash := flash.(key := ErasePair(flash.key, first, first));
        return false;
      }
      var second := Take();
      flash := flash.(key := ErasePair(flash.key, first, second));
      ok := second.Done?;
    }

    method EraseConfigCopies() returns (ok: bool)
      modifies this`tape, this`time, this`flash
      ensures View() == EraseConfig(old(View())).0 && ok == EraseConfig(old(View())).1
    {
      var first := Take();
      if !first.Done? {
        flash := flash.(config := ErasePair(flash.config, first, first));
        return false;
      }
      var second := Take();
      flash := flash.(config := ErasePair(flash.config, first, second));
      ok := second.Done?;
    }

    method EraseFloorCopies() returns (ok: bool)
      modifies this`tape, this`time
      ensures View() == EraseFloor(old(View())).0 && ok == EraseFloor(old(View())).1
    {
      var first := Take();
      if !first.Done? {
        time := time.(pair := ErasePair(time.pair, first, first));
        return false;
      }
      var second := Take();
      time := time.(pair := ErasePair(time.pair, first, second));
      ok := second.Done?;
    }

    method EraseKeyAndVerify() returns (gone: bool)
      modifies this`tape, this`time, this`flash
      ensures View() == EraseKeyVerified(old(View())).0 && gone == EraseKeyVerified(old(View())).1
    {
      hide EraseKey;
      for i := 0 to 2
        invariant i == 0 ==> View() == old(View())
        invariant i == 1 ==> View() == EraseKeyRound(old(View())).0 && !EraseKeyRound(old(View())).1
        invariant i == 2 ==> View() == EraseKeyVerified(old(View())).0 && !EraseKeyVerified(old(View())).1
      {
        var _ := EraseKeyCopies();
        var read := Take();
        if read.Done? && Latest(flash.key).None? {
          return true;
        }
      }
      gone := false;
    }

    // ------------------------------------------------------------------ session

    method DropSecrets()
      modifies this`ca, this`wrapKek, this`wrapSalt
      ensures View() == DropLiveSecrets(old(View()))
    {
      ca, wrapKek, wrapSalt := None, None, None;
    }

    method LockOut()
      modifies this`ca, this`wrapKek, this`wrapSalt, this`state, this`log
      ensures View() == EnterLockedOut(old(View()))
    {
      DropSecrets();
      state := LockedOut;
      log := Snoc(log, EnteredLockout);
    }

    method LoadTrustedFloor(readable: bool)
      modifies this`time
      ensures View() == old(View()).(time := LoadFloor(old(time), readable))
    {
      var stored := LatestFailClosed(time.pair);
      if readable && stored.Ok? {
        time := time.(floor := stored.value, unavailable := false);
      } else {
        time := time.(floor := None, unavailable := true);
      }
    }

    method Load(readable: Readable)
      modifies this`time, this`caPubkey, this`wrapSalt, this`config, this`state,
               this`ca, this`wrapKek, this`backoffUntilMs, this`log
      ensures View() == LoadFromFlash(old(View()), readable)
    {
      hide LoadSession, LoadFloor, Latest;
      var cfg := if readable.config then Latest(flash.config) else None;
      var blob := if readable.key then Latest(flash.key) else None;
      LoadTrustedFloor(readable.floor);
      caPubkey := if blob.Some? then Some(blob.value.pubkey) else None;
      wrapSalt := None;
      RestoreSession(cfg, blob, readable.count);
    }

    method RestoreSession(cfg: Option<DeviceConfig>, blob: Option<KeyBlob>, countReadable: bool)
      modifies this`wrapSalt, this`config, this`state, this`ca, this`wrapKek, this`backoffUntilMs, this`log
      ensures View() == LoadSession(old(View()), cfg, blob, countReadable)
    {
      hide LoadDev, LoadProd;
      if cfg.None? {
        config, state, ca, wrapKek, backoffUntilMs := None, Uninitialized, None, None, 0;
        return;
      }
      if cfg.value.mode == Dev {
        LoadDevSession(cfg.value, blob);
      } else {
        config := cfg;
        DropSecrets();
        LoadProdSession(cfg.value, blob, countReadable);
      }
    }

    method LoadDevSession(c: DeviceConfig, blob: Option<KeyBlob>)
      modifies this`config, this`state, this`ca, this`wrapKek, this`backoffUntilMs
      ensures View() == LoadDev(old(View()), c, blob)
    {
      config, state, backoffUntilMs := Some(c), DevReady, 0;
      if secret.Some? {
        var kek := DevKek(secret.value);
        if blob.Some? {
          var seed := UnwrapSeed(kek, blob.value);
          if seed.Some? {
            ca := seed;
          }
        }
        wrapKek := Some(kek);
      }
    }

    method LoadProdSession(c: DeviceConfig, blob: Option<KeyBlob>, countReadable: bool)
      modifies this`state, this`ca, this`wrapKek, this`wrapSalt, this`backoffUntilMs, this`log
      ensures View() == LoadProd(old(View()), c, blob, countReadable)
    {
      hide CountFrom, BackoffMs;
      var attempts := if countReadable then Count(flash.marks) else 0;
      backoffUntilMs := if attempts > 0 then Deadline(time.nowUs / 1000, BackoffMs(attempts - 1)) else 0;
      if blob.Some? && attempts >= c.maxRetries {
        LockOut();
      } else {
        state := ProdLocked;
      }
    }

    // --------------------------------------------------------------------- PINs

    method CheckPin(pin: string, kdfUs: nat) returns (verdict: Verdict)
      modifies this
      ensures View() == VerifyPin(old(View()), pin, kdfUs).0 && verdict == VerifyPin(old(View()), pin, kdfUs).1
    {
      hide CountFrom, BackoffMs, EraseKeyVerified, ResetCounterBestEffort, Tick;
      if config.None? {
        return Refused(Panic);
      }
      var cfg := config.value;
      var prior := Count(flash.marks);
      var waiting := prior > 0 && time.nowUs / 1000 < backoffUntilMs;
      var read := Take();
      if !read.Done? {
        return Refused(Fail(FlashFailed));
      }
      if waiting {
        return Refused(PinFail(Busy, Minus(cfg.maxRetries, prior), (backoffUntilMs - time.nowUs / 1000) % TWO_32));
      }
      var attempts := TickCounter();
      if attempts.None? {
        return Refused(Fail(FlashFailed));
      }
      verdict := CheckAgainstBlob(cfg, pin, attempts.value, kdfUs);
    }

    method CheckAgainstBlob(cfg: DeviceConfig, pin: string, attempts: nat, kdfUs: nat) returns (verdict: Verdict)
      modifies this
      ensures View() == OpenBlob(old(View()), cfg, pin, attempts, kdfUs).0
      ensures verdict == OpenBlob(old(View()), cfg, pin, attempts, kdfUs).1
    {
      hide PunishWrongPin, ResetCounterBestEffort;
      var blob := Latest(flash.key);
      var read := Take();
      if !read.Done? {
        return Refused(Fail(FlashFailed));
      }
      if blob.None? {
        return Refused(Fail(NoKey));
      }
      if secret.None? {
        return Refused(Fail(Internal));
      }
      var derived := Take();
      if !derived.Done? {
        return Refused(Fail(Internal));
      }
      time := time.(nowUs := Later(time.nowUs, kdfUs));
      var kek := PinKek(pin, blob.value.salt, cfg.argon2, secret.value);
      var seed := UnwrapSeed(kek, blob.value);
      if seed.Some? {
        log := Snoc(log, Right);
        ResetPinCounter();
        return Verified(seed.value, kek, blob.value.salt);
      }
      verdict := RefuseWrongPin(cfg, attempts);
    }

    method RefuseWrongPin(cfg: DeviceConfig, attempts: nat) returns (verdict: Verdict)
      modifies this
      ensures View() == PunishWrongPin(old(View()), cfg, attempts).0
      ensures verdict == PunishWrongPin(old(View()), cfg, attempts).1
    {
      hide WipeKey, BackoffMs;
      var backoff := BackoffMs(Minus(attempts, 1));
      backoffUntilMs := Deadline(time.nowUs / 1000, backoff);
      log := Snoc(log, Wrong(time.nowUs / 1000));
      if attempts < cfg.maxRetries {
        return Refused(PinFail(BadPin, cfg.maxRetries - attempts, backoff));
      }
      LockOut();
      if !cfg.wipeOnLockout {
        return Refused(PinFail(OutOfTries, 0, backoff));
      }
      verdict := Wipe(backoff);
    }

    method Wipe(backoff: nat) returns (verdict: Verdict)
      modifies this
      ensures View() == WipeKey(old(View()), backoff).0 && verdict == WipeKey(old(View()), backoff).1
    {
      hide EraseKeyVerified;
      var gone := EraseKeyAndVerify();
      if !gone {
        return Refused(PinFail(FlashFailed, 0, backoff));
      }
      caPubkey := None;
      verdict := Refused(PinFail(OutOfTries, 0, backoff));
    }

    // ----------------------------------------------------------------- handlers

    method InitDevice() returns (reply: Reply)
      modifies this
      ensures View() == HandleInitDev(old(View())).0 && reply == HandleInitDev(old(View())).1
    {
      hide WriteConfig;
      if config.Some? {
        return Fail(AlreadyInit);
      }
      if secret.None? {
        return Fail(Internal);
      }
      var cfg := DeviceConfig(Dev, DEFAULT_ARGON, 0, false);
      var ok := WriteConfigRecord(cfg);
      if !ok {
        return Fail(FlashFailed);
      }
      config, state, wrapKek := Some(cfg), DevReady, Some(DevKek(secret.value));
      reply := Success;
    }

    method InitProduction(pin: Option<string>, maxRetries: Option<U8>, wipe: Option<bool>, draws: Draws) returns (reply: Reply)
      modifies this
      ensures View() == HandleInitProd(old(View()), pin, maxRetries, wipe, draws).0
      ensures reply == HandleInitProd(old(View()), pin, maxRetries, wipe, draws).1
    {
      hide Provision;
      if config.Some? {
        return Fail(AlreadyInit);
      }
      if pin.None? || !PinLengthOk(pin.value) {
        return Fail(BadRequest);
      }
      var healthy := Take();
      if !healthy.Done? {
        return Fail(EntropyFailed);
      }
      var retries: U8 := if maxRetries.Some? then maxRetries.value else 10;
      if retries == 0 {
        return Fail(BadRequest);
      }
      if secret.None? {
        return Fail(Internal);
      }
      var derived := Take();
      if !derived.Done? {
        return Fail(Internal);
      }
      reply := ProvisionKey(PinKek(pin.value, draws.salt, DEFAULT_ARGON, secret.value),
                            DeviceConfig(Prod, DEFAULT_ARGON, retries, wipe == Some(true)), draws);
    }

    method ProvisionKey(kek: Kek, cfg: DeviceConfig, draws: Draws) returns (reply: Reply)
      modifies this
      ensures View() == Provision(old(View()), kek, cfg, draws).0 && reply == Provision(old(View()), kek, cfg, draws).1
    {
      hide WriteKey, WriteConfig, ResetCounterBestEffort;
      var pubkey := PublicOf(draws.seed);
      var keyOk := WriteKeyRecord(WrapSeed(kek, draws.seed, pubkey, PinWrap, draws.salt, draws.nonce));
      if !keyOk {
        return Fail(FlashFailed);
      }
      var cfgOk := WriteConfigRecord(cfg);
      if !cfgOk {
        return Fail(FlashFailed);
      }
      ResetPinCounter();
      config, caPubkey := Some(cfg), Some(pubkey);
      DropSecrets();
      backoffUntilMs, state := 0, ProdLocked;
      reply := Success;
    }

    method Generate(force: bool, draws: Draws) returns (reply: Reply)
      modifies this
      ensures View() == HandleGenerateKey(old(View()), force, draws).0
      ensures reply == HandleGenerateKey(old(View()), force, draws).1
    {
      hide WriteKey;
      if state == ProdLocked || state == LockedOut {
        return Fail(Locked);
      }
      if state == Uninitialized {
        return Fail(NotInit);
      }
      if caPubkey.Some? && !force {
        return Fail(KeyExists);
      }
      if config.None? {
        return Fail(NotInit);
      }
      if wrapKek.None? {
        return Fail(Locked);
      }
      var healthy := Take();
      if !healthy.Done? {
        return Fail(EntropyFailed);
      }
      var prod := config.value.mode == Prod;
      if prod && wrapSalt.None? {
        return Fail(Locked);
      }
      var pubkey := PublicOf(draws.seed);
      var salt := if prod then wrapSalt.value else draws.salt;
      var ok := WriteKeyRecord(WrapSeed(wrapKek.value, draws.seed, pubkey, if prod then PinWrap else DevWrap, salt, draws.nonce));
      if !ok {
        return Fail(FlashFailed);
      }
      ca, caPubkey := Some(draws.seed), Some(pubkey);
      reply := Success;
    }

    method UnlockWith(pin: string, kdfUs: nat) returns (reply: Reply)
      modifies this
      ensures View() == HandleUnlock(old(View()), pin, kdfUs).0 && reply == HandleUnlock(old(View()), pin, kdfUs).1
    {
      hide VerifyPin;
      match state
      case ProdReady => return Success;
      case LockedOut => return Fail(OutOfTries);
      case DevReady => return Fail(BadMode);
      case Uninitialized => return Fail(NotInit);
      case ProdLocked =>
        var verdict := CheckPin(pin, kdfUs);
        match verdict
        case Refused(refusal) => return refusal;
        case Verified(seed, kek, salt) =>
          ca, wrapKek, wrapSalt, state := Some(seed), Some(kek), Some(salt), ProdReady;
          return Success;
    }

    method LockSession() returns (reply: Reply)
      modifies this
      ensures View() == HandleLock(old(View())).0 && reply == HandleLock(old(View())).1
    {
      match state
      case ProdReady =>
        DropSecrets();
        state := ProdLocked;
        return Success;
      case ProdLocked => DropSecrets(); return Success;
      case LockedOut => DropSecrets(); return Success;
      case DevReady => return Fail(BadMode);
      case Uninitialized => return Fail(NotInit);
    }

    method SetTheTime(unix: Seconds) returns (reply: Reply)
      modifies this
      ensures View() == HandleSetTime(old(View()), unix).0 && reply == HandleSetTime(old(View()), unix).1
    {
      hide WriteFloor;
      if time.unavailable {
        return Fail(FlashFailed);
      }
      var first := time.wall.epochUnix.None?;
      if first && !time.physical && time.floor.Some? && TooFar(unix, time.floor.value) {
        return Fail(BadRequest);
      }
      var next := SetWall(time.wall, time.nowUs, unix);
      if next.None? {
        return Fail(BadRequest);
      }
      var nextFloor := time.floor;
      if first && (time.floor.None? || time.physical) {
        nextFloor := Some(unix);
      } else if time.floor.Some? {
        var trusted := TrustedNow(next.value, time.nowUs);
        if trusted.Some? && trusted.value - time.floor.value >= FLOOR_STEP_SECS {
          nextFloor := trusted;
        }
      }
      if nextFloor != time.floor {
        if nextFloor.None? {
          return Panic;
        }
        var ok := WriteFloorRecord(nextFloor.value);
        if !ok {
          return Fail(FlashFailed);
        }
      }
      time := time.(wall := next.value, floor := nextFloor);
      reply := Success;
    }

    method ChangeThePin(current: string, newPin: string, draws: Draws, kdfUs: nat) returns (reply: Reply)
      modifies this
      ensures View() == HandleChangePin(old(View()), current, newPin, draws, kdfUs).0
      ensures reply == HandleChangePin(old(View()), current, newPin, draws, kdfUs).1
    {
      hide VerifyPin, Rewrap;
      match state {
        case LockedOut => return Fail(OutOfTries);
        case DevReady => return Fail(BadMode);
        case Uninitialized => return Fail(NotInit);
        case ProdReady =>
        case ProdLocked =>
      }
      if !PinLengthOk(newPin) {
        return Fail(BadRequest);
      }
      var wasReady := state == ProdReady;
      var verdict := CheckPin(current, kdfUs);
      if verdict.Refused? {
        return verdict.reply;
      }
      reply := WrapUnderNewPin(wasReady, verdict.seed, newPin, draws);
    }

    method WrapUnderNewPin(wasReady: bool, seed: Seed, newPin: string, draws: Draws) returns (reply: Reply)
      modifies this
      ensures View() == Rewrap(old(View()), wasReady, seed, newPin, draws).0
      ensures reply == Rewrap(old(View()), wasReady, seed, newPin, draws).1
    {
      hide WriteKey, ResetCounterBestEffort, AdoptNewPin;
      var healthy := Take();
      if !healthy.Done? {
        return Fail(EntropyFailed);
      }
      if config.None? {
        return Panic;
      }
      if secret.None? {
        return Fail(Internal);
      }
      var derived := Take();
      if !derived.Done? {
        return Fail(Internal);
      }
      if caPubkey.None? {
        return Fail(NoKey);
      }
      var kek := PinKek(newPin, draws.salt, config.value.argon2, secret.value);
      var ok := WriteKeyRecord(WrapSeed(kek, seed, caPubkey.value, PinWrap, draws.salt, draws.nonce));
      if !ok {
        return Fail(FlashFailed);
      }
      ResetPinCounter();
      AdoptPin(wasReady, seed, kek, draws.salt);
      reply := Success;
    }

    method AdoptPin(wasReady: bool, seed: Seed, kek: Kek, salt: Salt)
      modifies this`ca, this`wrapKek, this`wrapSalt, this`state
      ensures View() == AdoptNewPin(old(View()), wasReady, seed, kek, salt)
    {
      if wasReady {
        ca, wrapKek, wrapSalt, state := Some(seed), Some(kek), Some(salt), ProdReady;
      } else {
        DropSecrets();
        state := ProdLocked;
      }
    }

    /** The authorisation shared by `factoryReset` and `rebootBootloader`; None when allowed. */
    method Gate(proof: Option<string>, kdfUs: nat) returns (refusal: Option<Reply>)
      modifies this
      ensures View() == Authorize(old(View()), proof, kdfUs).0 && refusal == Authorize(old(View()), proof, kdfUs).1
    {
      hide VerifyPin;
      match state
      case Uninitialized => return None;
      case DevReady => return None;
      case LockedOut => return if time.physical then None else Some(Fail(OutOfTries));
      case _ =>
        if time.physical {
          return None;
        }
        if proof.None? {
          return Some(Fail(BadRequest));
        }
        var verdict := CheckPin(proof.value, kdfUs);
        return if verdict.Refused? then Some(verdict.reply) else None;
    }

    method EraseAll() returns (clean: bool)
      modifies this
      ensures View() == EraseEverything(old(View())).0 && clean == EraseEverything(old(View())).1
    {
      hide EraseKeyVerified, EraseConfig, EraseFloor, ResetCounter;
      DropSecrets();
      var keyGone := EraseKeyAndVerify();
      var cfgOk := EraseConfigCopies();
      var timeOk := EraseFloorCopies();
      var pinOk := EraseCounter();
      var cfgRead := Take();
      var timeRead := Take();
      clean := keyGone && cfgOk && timeOk && pinOk
               && cfgRead.Done? && Latest(flash.config).None?
               && timeRead.Done? && Latest(time.pair).None?;
    }

    method ResetToFactory(confirmed: bool, proof: Option<string>, kdfUs: nat, readable: Readable) returns (reply: Reply)
      modifies this
      ensures View() == HandleFactoryReset(old(View()), confirmed, proof, kdfUs, readable).0
      ensures reply == HandleFactoryReset(old(View()), confirmed, proof, kdfUs, readable).1
    {
      hide Authorize, EraseEverything, LoadFromFlash;
      if !confirmed {
        return Fail(BadRequest);
      }
      var refusal := Gate(proof, kdfUs);
      if refusal.Some? {
        return refusal.value;
      }
      var clean := EraseAll();
      if clean {
        caPubkey, config := None, None;
        time := time.(floor := None, unavailable := false);
        backoffUntilMs, state := 0, Uninitialized;
        return Success;
      }
      Load(readable);
      reply := Fail(FlashFailed);
    }

    method RequestBootloader(proof: Option<string>, kdfUs: nat) returns (reply: Reply)
      modifies this
      ensures View() == HandleRebootBootloader(old(View()), proof, kdfUs).0
      ensures reply == HandleRebootBootloader(old(View()), proof, kdfUs).1
    {
      hide Authorize;
      var refusal := Gate(proof, kdfUs);
      if refusal.Some? {
        return refusal.value;
      }
      rebootRequested := true;
      reply := Success;
    }

    method SignKey(validityNs: Option<nat>) returns (reply: Reply)
      modifies this
      ensures View() == HandleSign(old(View()), validityNs).0 && reply == HandleSign(old(View()), validityNs).1
    {
      if (state != DevReady && state != ProdReady) || ca.None? {
        return Fail(NotReady);
      }
      var now := NowUnix(time.wall, time.nowUs);
      if now.None? {
        return Fail(NotReady);
      }
      if validityNs.None? || !(0 < validityNs.value <= MAX_VALIDITY_NS) {
        return Fail(BadRequest);
      }
      var seeded := Take();
      if !seeded.Done? {
        return Fail(EntropyFailed);
      }
      var validAfter := Wrapped64(now.value - 300);
      var validBefore := Wrapped64(now.value + validityNs.value / 1_000_000_000);
      log := Snoc(log, Issued(ca.value, validAfter, validBefore));
      reply := Success;
    }

    method RelockOnTransportReset()
      modifies this
      ensures View() == Relock(old(View()))
    {
      var prodState := state == ProdLocked || state == ProdReady || state == LockedOut;
      var prodConfig := config.Some? && config.value.mode == Prod;
      if prodState || prodConfig {
        DropSecrets();
        if state == ProdReady {
          state := ProdLocked;
        }
      }
    }

    // -------------------------------------------------------------------- events

    method Process(request: Request, env: Env) returns (reply: Reply)
      modifies this
      ensures View() == Handle(old(View()), request, env).0 && reply == Handle(old(View()), request, env).1
    {
      hide HandleInitProd, HandleUnlock, HandleChangePin, HandleFactoryReset, HandleRebootBootloader,
           HandleInitDev, HandleGenerateKey, HandleLock, HandleSetTime, HandleSign;
      match request
      case InitDev => reply := InitDevice();
      case InitProd(pin, maxRetries, wipe) => reply := InitProduction(pin, maxRetries, wipe, env.draws);
      case InitOther => reply := if config.Some? then Fail(AlreadyInit) else Fail(BadMode);
      case GenerateKey(force) => reply := Generate(force, env.draws);
      case Unlock(pin) => reply := UnlockWith(pin, env.kdfUs);
      case Lock => reply := LockSession();
      case SetClock(unix) => reply := SetTheTime(unix);
      case ChangePin(current, newPin) => reply := ChangeThePin(current, newPin, env.draws, env.kdfUs);
      case FactoryReset(confirmed, proof) => reply := ResetToFactory(confirmed, proof, env.kdfUs, env.readable);
      case RebootBootloader(proof) => reply := RequestBootloader(proof, env.kdfUs);
      case Sign(validityNs) => reply := SignKey(validityNs);
    }

    method Forget(remaining: Option<Secret>)
      modifies this`tape, this`secret, this`state, this`config, this`ca, this`caPubkey,
               this`wrapKek, this`wrapSalt, this`backoffUntilMs, this`rebootRequested
      ensures View() == old(View()).(ram := ColdRam(remaining), tape := [])
    {
      DropSecrets();
      EndSession();
      tape, secret := [], remaining;
    }

    method EndSession()
      modifies this`state, this`config, this`caPubkey, this`backoffUntilMs, this`rebootRequested
      ensures View() == old(View()).(ram := old(View()).ram.(state := Uninitialized, config := None, caPubkey := None,
                                                             backoffUntilMs := 0, rebootRequested := false))
    {
      state, config, caPubkey := Uninitialized, None, None;
      backoffUntilMs, rebootRequested := 0, false;
    }

    method PowerUp(startUs: Micros, recovery: bool, otp: Option<Secret>, readable: Readable)
      modifies this
      ensures View() == BootDevice(old(View()), startUs, recovery, otp, readable)
    {
      hide LoadFromFlash;
      time := time.(wall := NewWall(), physical := recovery, nowUs := startUs, on := true);
      Forget(otp);
      log := Snoc(log, Booted(time.nowUs / 1000));
      Load(readable);
    }

    /** One event of the life of the device. */
    method Happen(e: Event)
      modifies this
      ensures View() == Step(old(View()), e)
    {
      hide Handle, BootDevice, Relock;
      match e
      case Boot(startUs, recovery, otp, readable) => PowerUp(startUs, recovery, otp, readable);
      case PowerLoss =>
        time := time.(on := false);
        Forget(None);
      case Elapse(us) =>
        if time.on {
          time := time.(nowUs := Later(time.nowUs, us));
        }
      case TransportReset =>
        if time.on {
          RelockOnTransportReset();
        }
      case Ask(request, env) =>
        if time.on {
          tape := env.tape;
          var _ := Process(request, env);
          if time.on {
            tape := [];
          } else {
            Forget(None);
          }
        }
    }
  }
}
