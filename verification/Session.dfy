/**
 * The device session (hsm-core/src/dispatch.rs) as a step machine.
 *
 * A `Device` is the flash, the time keeping, the RAM session and the monotonic
 * timer. Every flash operation, key derivation and entropy draw takes its
 * outcome from a tape supplied with the request, so a request is a function of
 * its inputs and "for every tape" covers every pattern of faults. After a power
 * cut the remaining operations of the request find a dead flash and change
 * nothing, and the RAM is gone when the request ends.
 *
 * `log` records what happened, newest last; the properties in the modules
 * PinBudget, Lockout, Backoff and KeyCache are statements about it.
 */
module Session {
  import opened Options
  import opened Bytes
  import opened AbRecords
  import opened Wrap
  import opened Clock
  import opened TrustedTime
  import opened Attempts

  datatype Mode = Dev | Prod

  type U8 = b: int | 0 <= b < 256

  datatype DeviceConfig = DeviceConfig(mode: Mode, argon2: Argon2Params, maxRetries: U8, wipeOnLockout: bool)

  datatype State = Uninitialized | DevReady | ProdLocked | ProdReady | LockedOut

  datatype Flash = Flash(config: Pair<DeviceConfig>, key: Pair<KeyBlob>, marks: set<nat>)

  datatype Ram = Ram(
    state: State,
    config: Option<DeviceConfig>,
    ca: Option<Seed>,
    caPubkey: Option<PublicKey>,
    wrapKek: Option<Kek>,
    wrapSalt: Option<Salt>,
    backoffUntilMs: nat,
    secret: Option<Secret>,
    rebootRequested: bool)

  datatype Observation =
    | Wrong(ms: nat)                     // a wrong PIN was evaluated against the key blob
    | Right                              // a PIN opened the key blob
    | CounterErased                      // an erase changed the attempt counter
    | Provisioned(maxRetries: nat)       // a config record became valid
    | Booted(ms: nat)
    | EnteredLockout
    | Issued(ca: Seed, validAfter: int, validBefore: int)

  datatype Log = Empty | Snoc(earlier: Log, last: Observation)

  datatype Device = Device(flash: Flash, time: TimeState, ram: Ram, tape: seq<Outcome>, log: Log)

  datatype Code =
    | BadRequest | AlreadyInit | NotInit | NoKey | KeyExists | Locked | BadPin
    | OutOfTries | BadMode | EntropyFailed | FlashFailed | Busy | Internal | NotReady

  datatype Reply =
    | Success
    | Fail(code: Code)
    | PinFail(pinCode: Code, remaining: nat, backoffMs: nat)
    | Panic                              // an `expect` on an absent value

  datatype Draws = Draws(seed: Seed, salt: Salt, nonce: Nonce)

  /** Which of the reads made by `load_from_flash` succeed. */
  datatype Readable = Readable(config: bool, key: bool, floor: bool, count: bool)

  datatype Request =
    | InitDev
    | InitProd(pin: Option<string>, maxRetries: Option<U8>, wipe: Option<bool>)
    | InitOther
    | GenerateKey(force: bool)
    | Unlock(attempt: string)
    | Lock
    | SetClock(unix: Seconds)
    | ChangePin(current: string, newPin: string)
    | FactoryReset(confirmed: bool, proof: Option<string>)
    | RebootBootloader(proof: Option<string>)
    | Sign(validityNs: Option<nat>)      // the accepted validity, None when validation refuses

  datatype Env = Env(tape: seq<Outcome>, draws: Draws, kdfUs: nat, readable: Readable)

  datatype Event =
    | Boot(startUs: Micros, physical: bool, secret: Option<Secret>, readable: Readable)
    | PowerLoss
    | Elapse(us: nat)
    | TransportReset
    | Ask(request: Request, env: Env)

  const DEFAULT_ARGON := Argon2Params(256, 14, 1)
  const PIN_MIN: nat := 6
  const PIN_MAX: nat := 64
  const MAX_VALIDITY_NS: nat := 24 * 3600 * 1_000_000_000

  function ColdRam(secret: Option<Secret>): Ram {
    Ram(Uninitialized, None, None, None, None, None, 0, secret, false)
  }

  predicate Powered(d: Device) {
    d.time.on
  }

  function NowMs(d: Device): nat {
    d.time.nowUs / 1000
  }

  function Note(d: Device, o: Observation): Device {
    d.(log := Snoc(d.log, o))
  }

  function Minus(a: nat, b: nat): nat {
    if a >= b then a - b else 0
  }

  /** `saturating_add` on 64-bit milliseconds. */
  function Deadline(now: nat, delay: nat): nat {
    if now + delay < TWO_64 then now + delay else TWO_64 - 1
  }

  // ------------------------------------------------------------ HAL operations

  /** The outcome of the next operation; a dead device performs none. */
  function Next(d: Device): Outcome {
    if !Powered(d) then Error(Untouched)
    else if d.tape == [] then Done
    else d.tape[0]
  }

  function Spend(d: Device): Device {
    if !Powered(d) || d.tape == [] then d
    else d.(tape := d.tape[1..], time := d.time.(on := KeepsPower(d.tape[0])))
  }

  /** A read, an entropy draw or a device check: succeeds or not, changes nothing. */
  function Try(d: Device): (Device, bool) {
    (Spend(d), Next(d).Done?)
  }

  function ReadCount(d: Device): (Device, Option<nat>) {
    (Spend(d), if Next(d).Done? then Some(Count(d.flash.marks)) else None)
  }

  /** `pin::tick`: read the counter, then use the next byte; the new count on success. */
  function Tick(d: Device): (Device, Option<nat>) {
    var (read, ok) := Try(d);
    var n := Count(d.flash.marks);
    if !ok then (read, None)
    else if n >= SECTOR_LEN then (read, Some(n))
    else
      (Spend(read).(flash := d.flash.(marks := Ticked(d.flash.marks, Next(read)))),
       if Next(read).Done? then Some(n + 1) else None)
  }

  /** `pin::reset`. */
  function ResetCounter(d: Device): (Device, bool) {
    var o := Next(d);
    var cleared := Spend(d).(flash := d.flash.(marks := Cleared(d.flash.marks, o)));
    (if Touches(o) then Note(cleared, CounterErased) else cleared, o.Done?)
  }

  /** `reset_pin_counter_best_effort`: two tries. */
  function ResetCounterBestEffort(d: Device): Device {
    var (once, ok) := ResetCounter(d);
    if ok then once.(ram := once.ram.(backoffUntilMs := 0))
    else
      var (twice, ok2) := ResetCounter(once);
      if ok2 then twice.(ram := twice.ram.(backoffUntilMs := 0)) else twice
  }

  function ReadKey(d: Device): (Device, Option<Option<KeyBlob>>) {
    (Spend(d), if Next(d).Done? then Some(Latest(d.flash.key)) else None)
  }

  function WriteKey(d: Device, blob: KeyBlob): (Device, bool) {
    var (read, ok) := Try(d);
    if !ok then (read, false)
    else
      (Spend(read).(flash := d.flash.(key := WritePair(d.flash.key, blob, Next(read)))),
       Next(read).Done?)
  }

  function WriteConfig(d: Device, cfg: DeviceConfig): (Device, bool) {
    var (read, ok) := Try(d);
    if !ok then (read, false)
    else
      var written := Spend(read).(flash := d.flash.(config := WritePair(d.flash.config, cfg, Next(read))));
      (if Finishes(Next(read)) then Note(written, Provisioned(cfg.maxRetries)) else written,
       Next(read).Done?)
  }

  function WriteFloor(d: Device, floor: Seconds): (Device, bool) {
    var (read, ok) := Try(d);
    if !ok then (read, false)
    else
      var spent := Spend(read);
      (spent.(time := spent.time.(pair := WritePair(d.time.pair, floor, Next(read)))), Next(read).Done?)
  }

  function EraseKey(d: Device): (Device, bool) {
    var first := Next(d);
    var one := Spend(d);
    if !first.Done? then (one.(flash := d.flash.(key := ErasePair(d.flash.key, first, first))), false)
    else
      (Spend(one).(flash := d.flash.(key := ErasePair(d.flash.key, first, Next(one)))), Next(one).Done?)
  }

  function EraseConfig(d: Device): (Device, bool) {
    var first := Next(d);
    var one := Spend(d);
    if !first.Done? then (one.(flash := d.flash.(config := ErasePair(d.flash.config, first, first))), false)
    else
      (Spend(one).(flash := d.flash.(config := ErasePair(d.flash.config, first, Next(one)))), Next(one).Done?)
  }

  function EraseFloor(d: Device): (Device, bool) {
    var first := Next(d);
    var one := Spend(d);
    if !first.Done? then (one.(time := one.time.(pair := ErasePair(d.time.pair, first, first))), false)
    else
      var two := Spend(one);
      (two.(time := two.time.(pair := ErasePair(d.time.pair, first, Next(one)))), Next(one).Done?)
  }

  /** One round of `erase_key_verified`: erase, then read back. */
  function EraseKeyRound(d: Device): (Device, bool) {
    var (erased, _) := EraseKey(d);
    var (read, found) := ReadKey(erased);
    (read, found == Some(None))
  }

  /** `erase_key_verified`: two rounds at most. */
  function EraseKeyVerified(d: Device): (Device, bool) {
    var (once, gone) := EraseKeyRound(d);
    if gone then (once, true) else EraseKeyRound(once)
  }

  // ------------------------------------------------------------------- session

  function DropLiveSecrets(d: Device): Device {
    d.(ram := d.ram.(ca := None, wrapKek := None, wrapSalt := None))
  }

  function EnterLockedOut(d: Device): Device {
    var dropped := DropLiveSecrets(d);
    Note(dropped.(ram := dropped.ram.(state := LockedOut)), EnteredLockout)
  }

  /** `load_from_flash`; `readable` says which of its flash reads succeed. */
  function LoadFromFlash(d: Device, readable: Readable): Device {
    var cfg := if readable.config then Latest(d.flash.config) else None;
    var blob := if readable.key then Latest(d.flash.key) else None;
    LoadSession(LoadCaches(d, blob, readable.floor), cfg, blob, readable.count)
  }

  /** What loading sets whatever the configuration: the floor and the public-key cache. */
  function LoadCaches(d: Device, blob: Option<KeyBlob>, floorReadable: bool): Device {
    d.(time := LoadFloor(d.time, floorReadable),
       ram := d.ram.(caPubkey := if blob.Some? then Some(blob.value.pubkey) else None, wrapSalt := None))
  }

  function LoadSession(d: Device, cfg: Option<DeviceConfig>, blob: Option<KeyBlob>, countReadable: bool): Device {
    match cfg
    case None =>
      d.(ram := d.ram.(config := None, state := Uninitialized, ca := None, wrapKek := None, backoffUntilMs := 0))
    case Some(c) =>
      if c.mode == Dev then LoadDev(d, c, blob)
      else LoadProd(DropLiveSecrets(d.(ram := d.ram.(config := Some(c)))), c, blob, countReadable)
  }

  function LoadDev(d: Device, c: DeviceConfig, blob: Option<KeyBlob>): Device {
    var ram := d.ram.(config := Some(c), state := DevReady, backoffUntilMs := 0);
    if ram.secret.None? then d.(ram := ram)
    else
      var kek := DevKek(ram.secret.value);
      var seed := if blob.Some? then UnwrapSeed(kek, blob.value) else None;
      d.(ram := ram.(wrapKek := Some(kek), ca := if seed.Some? then seed else ram.ca))
  }

  function LoadProd(d: Device, c: DeviceConfig, blob: Option<KeyBlob>, countReadable: bool): Device {
    var attempts := if countReadable then Count(d.flash.marks) else 0;
    var waiting := d.(ram := d.ram.(backoffUntilMs :=
                                      if attempts > 0 then Deadline(NowMs(d), BackoffMs(attempts - 1)) else 0));
    if blob.Some? && attempts >= c.maxRetries then EnterLockedOut(waiting)
    else waiting.(ram := waiting.ram.(state := ProdLocked))
  }

  // -------------------------------------------------------------------- PINs

  datatype Verdict = Verified(seed: Seed, kek: Kek, salt: Salt) | Refused(reply: Reply)

  /** Whether the backoff gate answers `ERR_BUSY`. */
  predicate Waiting(d: Device) {
    Count(d.flash.marks) > 0 && NowMs(d) < d.ram.backoffUntilMs
  }

  function VerifyPin(d: Device, pin: string, kdfUs: nat): (Device, Verdict) {
    if d.ram.config.None? then (d, Refused(Panic))
    else
      var cfg := d.ram.config.value;
      var (d1, prior) := ReadCount(d);
      if prior.None? then (d1, Refused(Fail(FlashFailed)))
      else if Waiting(d) then
        (d1, Refused(PinFail(Busy, Minus(cfg.maxRetries, prior.value), (d.ram.backoffUntilMs - NowMs(d)) % TWO_32)))
      else
        var (d2, attempts) := Tick(d1);
        if attempts.None? then (d2, Refused(Fail(FlashFailed)))
        else OpenBlob(d2, cfg, pin, attempts.value, kdfUs)
  }

  /** The rest of `verify_pin` once the attempt has been counted. */
  function OpenBlob(d: Device, cfg: DeviceConfig, pin: string, attempts: nat, kdfUs: nat): (Device, Verdict) {
    var (d1, found) := ReadKey(d);
    if found.None? then (d1, Refused(Fail(FlashFailed)))
    else if found.value.None? then (d1, Refused(Fail(NoKey)))
    else if d1.ram.secret.None? then (d1, Refused(Fail(Internal)))
    else
      var (d2, derived) := Try(d1);
      if !derived then (d2, Refused(Fail(Internal)))
      else Evaluate(d2.(time := d2.time.(nowUs := Later(d2.time.nowUs, kdfUs))), cfg, pin, found.value.value, attempts)
  }

  /** The AEAD check and its consequences; the derivation has taken its time. */
  function Evaluate(d: Device, cfg: DeviceConfig, pin: string, blob: KeyBlob, attempts: nat): (Device, Verdict) {
    if d.ram.secret.None? then (d, Refused(Fail(Internal)))
    else
      var kek := PinKek(pin, blob.salt, cfg.argon2, d.ram.secret.value);
      match UnwrapSeed(kek, blob)
      case Some(seed) => (ResetCounterBestEffort(Note(d, Right)), Verified(seed, kek, blob.salt))
      case None => PunishWrongPin(d, cfg, attempts)
  }

  function PunishWrongPin(d: Device, cfg: DeviceConfig, attempts: nat): (Device, Verdict) {
    var backoff := BackoffMs(Minus(attempts, 1));
    var d1 := Note(d.(ram := d.ram.(backoffUntilMs := Deadline(NowMs(d), backoff))), Wrong(NowMs(d)));
    if attempts < cfg.maxRetries then (d1, Refused(PinFail(BadPin, cfg.maxRetries - attempts, backoff)))
    else if !cfg.wipeOnLockout then (EnterLockedOut(d1), Refused(PinFail(OutOfTries, 0, backoff)))
    else WipeKey(EnterLockedOut(d1), backoff)
  }

  /** The wipe that lockout may ask for; a key that survives it is reported. */
  function WipeKey(d: Device, backoff: nat): (Device, Verdict) {
    var (d1, gone) := EraseKeyVerified(d);
    if gone then (d1.(ram := d1.ram.(caPubkey := None)), Refused(PinFail(OutOfTries, 0, backoff)))
    else (d1, Refused(PinFail(FlashFailed, 0, backoff)))
  }

  // ---------------------------------------------------------------- handlers

  function HandleInitDev(d: Device): (Device, Reply) {
    if d.ram.config.Some? then (d, Fail(AlreadyInit))
    else if d.ram.secret.None? then (d, Fail(Internal))
    else
      var cfg := DeviceConfig(Dev, DEFAULT_ARGON, 0, false);
      var (d1, ok) := WriteConfig(d, cfg);
      if !ok then (d1, Fail(FlashFailed))
      else (d1.(ram := d1.ram.(config := Some(cfg), state := DevReady, wrapKek := Some(DevKek(d.ram.secret.value)))), Success)
  }

  predicate PinLengthOk(pin: string) {
    PIN_MIN <= |pin| <= PIN_MAX
  }

  function HandleInitProd(d: Device, pin: Option<string>, maxRetries: Option<U8>, wipe: Option<bool>, draws: Draws): (Device, Reply) {
    if d.ram.config.Some? then (d, Fail(AlreadyInit))
    else if pin.None? || !PinLengthOk(pin.value) then (d, Fail(BadRequest))
    else
      var (d1, healthy) := Try(d);
      var retries: U8 := if maxRetries.Some? then maxRetries.value else 10;
      if !healthy then (d1, Fail(EntropyFailed))
      else if retries == 0 then (d1, Fail(BadRequest))
      else if d1.ram.secret.None? then (d1, Fail(Internal))
      else
        var (d2, derived) := Try(d1);
        if !derived then (d2, Fail(Internal))
        else
          Provision(d2, PinKek(pin.value, draws.salt, DEFAULT_ARGON, d.ram.secret.value),
                    DeviceConfig(Prod, DEFAULT_ARGON, retries, wipe == Some(true)), draws)
  }

  /** The writing part of a production init: the key record first, then the config. */
  function Provision(d: Device, kek: Kek, cfg: DeviceConfig, draws: Draws): (Device, Reply) {
    var pubkey := PublicOf(draws.seed);
    var (d1, keyOk) := WriteKey(d, WrapSeed(kek, draws.seed, pubkey, PinWrap, draws.salt, draws.nonce));
    if !keyOk then (d1, Fail(FlashFailed))
    else
      var (d2, cfgOk) := WriteConfig(d1, cfg);
      if !cfgOk then (d2, Fail(FlashFailed))
      else
        var d3 := ResetCounterBestEffort(d2);
        (d3.(ram := d3.ram.(config := Some(cfg), caPubkey := Some(pubkey), ca := None, wrapKek := None,
                            wrapSalt := None, backoffUntilMs := 0, state := ProdLocked)), Success)
  }

  function HandleGenerateKey(d: Device, force: bool, draws: Draws): (Device, Reply) {
    if d.ram.state == ProdLocked || d.ram.state == LockedOut then (d, Fail(Locked))
    else if d.ram.state == Uninitialized then (d, Fail(NotInit))
    else if d.ram.caPubkey.Some? && !force then (d, Fail(KeyExists))
    else if d.ram.config.None? then (d, Fail(NotInit))
    else if d.ram.wrapKek.None? then (d, Fail(Locked))
    else
      var (d1, healthy) := Try(d);
      var prod := d.ram.config.value.mode == Prod;
      if !healthy then (d1, Fail(EntropyFailed))
      else if prod && d.ram.wrapSalt.None? then (d1, Fail(Locked))
      else
        var pubkey := PublicOf(draws.seed);
        var salt := if prod then d.ram.wrapSalt.value else draws.salt;
        var blob := WrapSeed(d.ram.wrapKek.value, draws.seed, pubkey, if prod then PinWrap else DevWrap, salt, draws.nonce);
        var (d2, ok) := WriteKey(d1, blob);
        if !ok then (d2, Fail(FlashFailed))
        else (d2.(ram := d2.ram.(ca := Some(draws.seed), caPubkey := Some(pubkey))), Success)
  }

  function HandleUnlock(d: Device, pin: string, kdfUs: nat): (Device, Reply) {
    match d.ram.state
    case ProdReady => (d, Success)
    case LockedOut => (d, Fail(OutOfTries))
    case DevReady => (d, Fail(BadMode))
    case Uninitialized => (d, Fail(NotInit))
    case ProdLocked =>
      var (d1, verdict) := VerifyPin(d, pin, kdfUs);
      match verdict
      case Refused(reply) => (d1, reply)
      case Verified(seed, kek, salt) =>
        (d1.(ram := d1.ram.(ca := Some(seed), wrapKek := Some(kek), wrapSalt := Some(salt), state := ProdReady)), Success)
  }

  function HandleLock(d: Device): (Device, Reply) {
    match d.ram.state
    case ProdReady =>
      var d1 := DropLiveSecrets(d);
      (d1.(ram := d1.ram.(state := ProdLocked)), Success)
    case ProdLocked => (DropLiveSecrets(d), Success)
    case LockedOut => (DropLiveSecrets(d), Success)
    case DevReady => (d, Fail(BadMode))
    case Uninitialized => (d, Fail(NotInit))
  }

  function HandleSetTime(d: Device, unix: Seconds): (Device, Reply) {
    match PlanSetTime(d.time, unix)
    case RefuseUnavailable => (d, Fail(FlashFailed))
    case RefuseRequest => (d, Fail(BadRequest))
    case Adopt(wall, floor, persist) =>
      if !persist then (d.(time := d.time.(wall := wall, floor := floor)), Success)
      else if floor.None? then (d, Panic)
      else
        var (d1, ok) := WriteFloor(d, floor.value);
        if !ok then (d1, Fail(FlashFailed))
        else (d1.(time := d1.time.(wall := wall, floor := floor)), Success)
  }

  function HandleChangePin(d: Device, current: string, newPin: string, draws: Draws, kdfUs: nat): (Device, Reply) {
    match d.ram.state
    case LockedOut => (d, Fail(OutOfTries))
    case DevReady => (d, Fail(BadMode))
    case Uninitialized => (d, Fail(NotInit))
    case _ =>
      if !PinLengthOk(newPin) then (d, Fail(BadRequest))
      else
        var (d1, verdict) := VerifyPin(d, current, kdfUs);
        match verdict
        case Refused(reply) => (d1, reply)
        case Verified(seed, _, _) => Rewrap(d1, d.ram.state == ProdReady, seed, newPin, draws)
  }

  /** The second half of `changePin`: wrap the verified seed under the new PIN and a new salt. */
  function Rewrap(d: Device, wasReady: bool, seed: Seed, newPin: string, draws: Draws): (Device, Reply) {
    var (d1, healthy) := Try(d);
    if !healthy then (d1, Fail(EntropyFailed))
    else if d1.ram.config.None? then (d1, Panic)
    else if d1.ram.secret.None? then (d1, Fail(Internal))
    else
      var (d2, derived) := Try(d1);
      if !derived then (d2, Fail(Internal))
      else if d2.ram.caPubkey.None? then (d2, Fail(NoKey))
      else
        StoreNewPin(d2, wasReady, seed, PinKek(newPin, draws.salt, d2.ram.config.value.argon2, d2.ram.secret.value),
                    d2.ram.caPubkey.value, draws)
  }

  /** Write the seed under the new KEK, and adopt it only if that succeeded. */
  function StoreNewPin(d: Device, wasReady: bool, seed: Seed, kek: Kek, pubkey: PublicKey, draws: Draws): (Device, Reply) {
    var (d1, ok) := WriteKey(d, WrapSeed(kek, seed, pubkey, PinWrap, draws.salt, draws.nonce));
    if !ok then (d1, Fail(FlashFailed))
    else (AdoptNewPin(ResetCounterBestEffort(d1), wasReady, seed, kek, draws.salt), Success)
  }

  function AdoptNewPin(d: Device, wasReady: bool, seed: Seed, kek: Kek, salt: Salt): Device {
    if wasReady then
      d.(ram := d.ram.(ca := Some(seed), wrapKek := Some(kek), wrapSalt := Some(salt), state := ProdReady))
    else
      d.(ram := d.ram.(ca := None, wrapKek := None, wrapSalt := None, state := ProdLocked))
  }

  /**
   * The gate shared by `factoryReset` and `rebootBootloader`: free without a
   * production config, otherwise physical recovery or, unless locked out, a PIN.
   */
  function Authorize(d: Device, proof: Option<string>, kdfUs: nat): (Device, Option<Reply>) {
    match d.ram.state
    case Uninitialized => (d, None)
    case DevReady => (d, None)
    case LockedOut => (d, if d.time.physical then None else Some(Fail(OutOfTries)))
    case _ =>
      if d.time.physical then (d, None)
      else if proof.None? then (d, Some(Fail(BadRequest)))
      else
        var (d1, verdict) := VerifyPin(d, proof.value, kdfUs);
        (d1, if verdict.Refused? then Some(verdict.reply) else None)
  }

  /** The erasing part of `factoryReset`, in the order of the source. */
  function EraseEverything(d: Device): (Device, bool) {
    var (d1, keyGone) := EraseKeyVerified(DropLiveSecrets(d));
    var (d2, cfgOk) := EraseConfig(d1);
    var (d3, timeOk) := EraseFloor(d2);
    var (d4, pinOk) := ResetCounter(d3);
    var (d5, cfgRead) := Try(d4);
    var (d6, timeRead) := Try(d5);
    (d6, && keyGone && cfgOk && timeOk && pinOk
         && cfgRead && Latest(d5.flash.config).None?
         && timeRead && Latest(d6.time.pair).None?)
  }

  function RunFactoryReset(d: Device, readable: Readable): (Device, Reply) {
    var (d1, clean) := EraseEverything(d);
    if clean then
      (d1.(time := d1.time.(floor := None, unavailable := false),
           ram := d1.ram.(caPubkey := None, config := None, backoffUntilMs := 0, state := Uninitialized)), Success)
    else (LoadFromFlash(d1, readable), Fail(FlashFailed))
  }

  function HandleFactoryReset(d: Device, confirmed: bool, proof: Option<string>, kdfUs: nat, readable: Readable): (Device, Reply) {
    if !confirmed then (d, Fail(BadRequest))
    else
      var (d1, refusal) := Authorize(d, proof, kdfUs);
      if refusal.Some? then (d1, refusal.value) else RunFactoryReset(d1, readable)
  }

  function HandleRebootBootloader(d: Device, proof: Option<string>, kdfUs: nat): (Device, Reply) {
    var (d1, refusal) := Authorize(d, proof, kdfUs);
    if refusal.Some? then (d1, refusal.value)
    else (d1.(ram := d1.ram.(rebootRequested := true)), Success)
  }

  /** `wrapping_sub(300)` and `wrapping_add` on u64. */
  function Wrapped64(x: int): nat {
    x % TWO_64
  }

  function HandleSign(d: Device, validityNs: Option<nat>): (Device, Reply) {
    if (d.ram.state != DevReady && d.ram.state != ProdReady) || d.ram.ca.None? then (d, Fail(NotReady))
    else
      var now := NowUnix(d.time.wall, d.time.nowUs);
      if now.None? then (d, Fail(NotReady))
      else if validityNs.None? || !(0 < validityNs.value <= MAX_VALIDITY_NS) then (d, Fail(BadRequest))
      else
        var (d1, seeded) := Try(d);
        if !seeded then (d1, Fail(EntropyFailed))
        else
          var validAfter := Wrapped64(now.value - 300);
          var validBefore := Wrapped64(now.value + validityNs.value / 1_000_000_000);
          (Note(d1, Issued(d1.ram.ca.value, validAfter, validBefore)), Success)
  }

  function Handle(d: Device, r: Request, env: Env): (Device, Reply) {
    match r
    case InitDev => HandleInitDev(d)
    case InitProd(pin, maxRetries, wipe) => HandleInitProd(d, pin, maxRetries, wipe, env.draws)
    case InitOther => (d, if d.ram.config.Some? then Fail(AlreadyInit) else Fail(BadMode))
    case GenerateKey(force) => HandleGenerateKey(d, force, env.draws)
    case Unlock(pin) => HandleUnlock(d, pin, env.kdfUs)
    case Lock => HandleLock(d)
    case SetClock(unix) => HandleSetTime(d, unix)
    case ChangePin(current, newPin) => HandleChangePin(d, current, newPin, env.draws, env.kdfUs)
    case FactoryReset(confirmed, proof) => HandleFactoryReset(d, confirmed, proof, env.kdfUs, env.readable)
    case RebootBootloader(proof) => HandleRebootBootloader(d, proof, env.kdfUs)
    case Sign(validityNs) => HandleSign(d, validityNs)
  }

  function Relock(d: Device): Device {
    var prodState := d.ram.state == ProdLocked || d.ram.state == ProdReady || d.ram.state == LockedOut;
    var prodConfig := d.ram.config.Some? && d.ram.config.value.mode == Prod;
    if !(prodState || prodConfig) then d
    else
      var d1 := DropLiveSecrets(d);
      if d1.ram.state == ProdReady then d1.(ram := d1.ram.(state := ProdLocked)) else d1
  }

  /** A device without power has no RAM; what it forgets is what boot would start from. */
  function Settle(d: Device): Device {
    if Powered(d) then d.(tape := []) else d.(tape := [], ram := ColdRam(None))
  }

  function BootDevice(d: Device, startUs: Micros, physical: bool, secret: Option<Secret>, readable: Readable): Device {
    var cold := d.(time := d.time.(wall := NewWall(), physical := physical, nowUs := startUs, on := true),
                    ram := ColdRam(secret), tape := []);
    LoadFromFlash(Note(cold, Booted(NowMs(cold))), readable)
  }

  function Step(d: Device, e: Event): Device {
    match e
    case Boot(startUs, physical, secret, readable) => BootDevice(d, startUs, physical, secret, readable)
    case PowerLoss => Settle(d.(time := d.time.(on := false)))
    case Elapse(us) => if Powered(d) then d.(time := d.time.(nowUs := Later(d.time.nowUs, us))) else d
    case TransportReset => if Powered(d) then Relock(d) else d
    case Ask(request, env) =>
      if Powered(d) then Settle(Handle(d.(tape := env.tape), request, env).0) else d
  }

  function Run(d: Device, events: seq<Event>): Device {
    if events == [] then d
    else Step(Run(d, events[..|events| - 1]), events[|events| - 1])
  }

  /** A device as it leaves the factory: blank flash, no power. */
  function Factory(): Device {
    Device(Flash(BlankPair(), BlankPair(), {}),
           TimeState(BlankPair(), NewWall(), None, false, false, 0, false),
           ColdRam(None), [], Empty)
  }

  /** The reads of `load_from_flash` succeed wherever a boot or a failed reset makes them. */
  predicate ReadsReliably(e: Event) {
    match e
    case Boot(_, _, _, readable) => readable.config && readable.key && readable.count
    case Ask(request, env) => request.FactoryReset? ==> env.readable.config && env.readable.key && env.readable.count
    case _ => true
  }

  ghost predicate AllReadReliably(events: seq<Event>) {
    forall i :: 0 <= i < |events| ==> ReadsReliably(events[i])
  }
}
