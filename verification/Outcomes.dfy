/**
 * What each request does when nothing fails: when it succeeds, what it then has
 * done, and which refusal it gives otherwise. The numbers are those of the
 * documentation, written out.
 */
module Outcomes {
  import opened Options
  import opened Bytes
  import opened AbRecords
  import opened Wrap
  import opened Clock
  import opened TrustedTime
  import opened Attempts
  import opened Session
  import opened SessionShape
  import opened PinCases
  import opened PinLog
  import opened PinBudget
  import opened Wiping
  import opened Authority
  import KeyCache

  /** Power on and no fault to come. */
  predicate Calm(d: Device) {
    Powered(d) && d.tape == []
  }

  /** The PIN opens the latest key record with the stored salt and parameters. */
  ghost predicate Opens(d: Device, pin: string) {
    && d.ram.config.Some? && d.ram.secret.Some? && Latest(d.flash.key).Some?
    && UnwrapSeed(PinKek(pin, Latest(d.flash.key).value.salt, d.ram.config.value.argon2, d.ram.secret.value),
                  Latest(d.flash.key).value).Some?
  }

  /** The gate is open, and a byte of the counter is left. */
  ghost predicate MayTry(d: Device) {
    CanEvaluate(d) && Count(d.flash.marks) < SECTOR_LEN
  }

  // --------------------------------------------------------------------- PINs

  /** The right PIN is verified, empties the counter and clears the deadline, and changes nothing else. */
  lemma RightPinResets(d: Device, pin: string, kdfUs: nat)
    requires Calm(d) && MayTry(d) && Opens(d, pin)
    ensures var (e, v) := VerifyPin(d, pin, kdfUs);
            && v.Verified? && v.seed == Latest(d.flash.key).value.sealed.seed
            && e.flash == d.flash.(marks := {})
            && e.ram == d.ram.(backoffUntilMs := 0)
            && e.log == Snoc(Snoc(d.log, Right), CounterErased)
            && e.time == d.time.(nowUs := Later(d.time.nowUs, kdfUs)) && e.tape == []
  {
    hide CountFrom;
  }

  /** A wrong PIN uses one byte of the counter and is answered with what is left and the delay it earned. */
  lemma WrongPinCosts(d: Device, pin: string, kdfUs: nat)
    requires Calm(d) && MayTry(d) && !Opens(d, pin)
    ensures var (e, v) := VerifyPin(d, pin, kdfUs);
            var used := Count(d.flash.marks) + 1;
            var max := d.ram.config.value.maxRetries;
            var delay := if 250 * Pow2(used - 1) < 30_000 then 250 * Pow2(used - 1) else 30_000;
            && v.Refused?
            && e.flash.marks == d.flash.marks + {used - 1}
            && (used < max ==> v.reply == PinFail(BadPin, max - used, delay) && e.ram.state == d.ram.state)
            && (used >= max ==> v.reply == PinFail(OutOfTries, 0, delay) && e.ram.state == LockedOut && NoSecrets(e.ram))
            && (used >= max && d.ram.config.value.wipeOnLockout ==> e.flash.key == BlankPair())
            && e.ram.backoffUntilMs == NowMs(e) + delay
  {
    hide CountFrom, BackoffMs, WipeKey, Deadline;
    CountBelow(d.flash.marks, 0);
    var used := Count(d.flash.marks) + 1;
    BackoffIsCappedExponential(used - 1);
    var (d1, prior) := ReadCount(d);
    var (d2, attempts) := Tick(d1);
    var (d3, found) := ReadKey(d2);
    var (d4, derived) := Try(d3);
    var d5 := d4.(time := d4.time.(nowUs := Later(d4.time.nowUs, kdfUs)));
    WrongPinPunished(d5, d.ram.config.value, used);
  }

  lemma WrongPinPunished(d: Device, cfg: DeviceConfig, used: nat)
    requires Calm(d) && used >= 1
    ensures var (e, v) := PunishWrongPin(d, cfg, used);
            && v.Refused?
            && e.flash.marks == d.flash.marks
            && (used < cfg.maxRetries ==> v.reply == PinFail(BadPin, cfg.maxRetries - used, BackoffMs(used - 1)) && e.ram.state == d.ram.state)
            && (used >= cfg.maxRetries ==> v.reply == PinFail(OutOfTries, 0, BackoffMs(used - 1)) && e.ram.state == LockedOut && NoSecrets(e.ram))
            && (used >= cfg.maxRetries && cfg.wipeOnLockout ==> e.flash.key == BlankPair())
            && e.ram.backoffUntilMs == NowMs(e) + BackoffMs(used - 1)
  {
    hide BackoffMs, EraseKeyVerified, Deadline;
    var backoff := BackoffMs(used - 1);
    var d1 := Note(d.(ram := d.ram.(backoffUntilMs := Deadline(NowMs(d), backoff))), Wrong(NowMs(d)));
    var locked := EnterLockedOut(d1);
    WipeEffect(locked, backoff);
    EraseKeyKeeps(locked);
    DeadlineIsSum(d, used - 1);
  }

  lemma DeadlineIsSum(d: Device, failed: nat)
    ensures Deadline(NowMs(d), BackoffMs(failed)) == NowMs(d) + BackoffMs(failed)
  {
  }

  /** The second try of a counter reset counts when the first one failed. */
  lemma SecondResetCounts(d: Device, left: Partial)
    requires Powered(d) && d.tape == [Error(left)]
    ensures var e := ResetCounterBestEffort(d);
            e.flash.marks == {} && e.ram.backoffUntilMs == 0
  {
  }

  /** A second erase round is made when the first did not show the key gone. */
  lemma SecondRoundCounts(d: Device, left: Partial)
    requires Powered(d) && d.tape == [Error(left)] && Latest(ErasePair(d.flash.key, Error(left), Error(left))).Some?
    ensures EraseKeyVerified(d).1 && EraseKeyVerified(d).0.flash.key == BlankPair()
  {
    hide ErasePair, Latest;
    var once := EraseKeyRound(d).0;
    assert Calm(once) && once.flash.key == ErasePair(d.flash.key, Error(left), Error(left));
    FaultlessRound(once);
  }

  // --------------------------------------------------------------------- the gate

  /** Without faults the gate opens on exactly the authority it asks for. */
  lemma GateIsExact(d: Device, proof: Option<string>, kdfUs: nat)
    requires Calm(d) && Shape(d.ram) && Count(d.flash.marks) < SECTOR_LEN
    ensures var (e, refusal) := Authorize(d, proof, kdfUs);
            && (refusal.None? <==> || d.ram.state in {Uninitialized, DevReady}
                                   || d.time.physical
                                   || (d.ram.state in {ProdLocked, ProdReady} && proof.Some? && MayTry(d) && Opens(d, proof.value)))
            && (refusal.None? ==> Calm(e))
            && (d.ram.state == LockedOut && !d.time.physical ==> refusal == Some(Fail(OutOfTries)) && e == d)
            && (d.ram.state in {ProdLocked, ProdReady} && !d.time.physical && proof.None? ==> refusal == Some(Fail(BadRequest)) && e == d)
  {
    hide VerifyPin, CountFrom;
    if d.ram.state in {ProdLocked, ProdReady} && !d.time.physical && proof.Some? {
      if MayTry(d) && Opens(d, proof.value) {
        RightPinResets(d, proof.value, kdfUs);
      } else {
        VerifyCases(d, proof.value, kdfUs);
        VerifyKeeps(d, proof.value, kdfUs);
      }
    }
  }

  /** A confirmed and authorised reset succeeds, and every other request for one fails. */
  lemma ResetSucceedsIff(d: Device, confirmed: bool, proof: Option<string>, kdfUs: nat, readable: Readable)
    requires Calm(d) && Shape(d.ram) && Count(d.flash.marks) < SECTOR_LEN
    ensures var (e, reply) := HandleFactoryReset(d, confirmed, proof, kdfUs, readable);
            && (reply == Success <==> confirmed && Authorize(d, proof, kdfUs).1.None?)
            && (reply == Success ==> e.flash == Flash(BlankPair(), BlankPair(), {}) && e.time.pair == BlankPair()
                                     && e.ram.state == Uninitialized)
            && (!confirmed ==> e == d && reply == Fail(BadRequest))
  {
    hide Authorize, RunFactoryReset;
    GateIsExact(d, proof, kdfUs);
    GateRefusesWithCode(d, proof, kdfUs);
    var (d1, refusal) := Authorize(d, proof, kdfUs);
    if refusal.None? {
      CalmSweep(d1, readable);
    }
  }

  lemma GateRefusesWithCode(d: Device, proof: Option<string>, kdfUs: nat)
    requires Shape(d.ram)
    ensures var refusal := Authorize(d, proof, kdfUs).1;
            (refusal.None? || refusal.Some?) && refusal != Some(Success)
  {
    hide VerifyPin;
    if d.ram.config.Some? && proof.Some? {
      VerifyNeverSucceeds(d, proof.value, kdfUs);
    }
  }

  lemma VerifyNeverSucceeds(d: Device, pin: string, kdfUs: nat)
    ensures var v := VerifyPin(d, pin, kdfUs).1;
            (v.Verified? || v.Refused?) && (v.Refused? ==> v.reply != Success)
  {
    hide CountFrom, BackoffMs, EraseKeyVerified, ResetCounterBestEffort, UnwrapSeed;
  }

  lemma CalmSweep(d: Device, readable: Readable)
    requires Calm(d)
    ensures var (e, reply) := RunFactoryReset(d, readable);
            && reply == Success && e.flash == Flash(BlankPair(), BlankPair(), {}) && e.time.pair == BlankPair()
            && e.ram.state == Uninitialized
  {
    hide EraseKeyVerified;
    var d0 := DropLiveSecrets(d);
    FaultlessRound(d0);
    EraseKeyKeeps(d0);
    CalmErase(d0);
  }

  lemma CalmErase(d: Device)
    requires Calm(d)
    ensures Calm(EraseKeyVerified(d).0) && EraseKeyVerified(d).1 && EraseKeyVerified(d).0.flash.key == BlankPair()
  {
    FaultlessRound(d);
  }

  /** The bootloader flag is raised on exactly that authority. */
  lemma BootloaderIff(d: Device, proof: Option<string>, kdfUs: nat)
    requires Shape(d.ram)
    ensures var (e, reply) := HandleRebootBootloader(d, proof, kdfUs);
            && (reply == Success <==> Authorize(d, proof, kdfUs).1.None?)
            && (reply == Success ==> e.ram.rebootRequested)
  {
    hide Authorize;
    GateRefusesWithCode(d, proof, kdfUs);
  }

  // ------------------------------------------------------------------ key generation

  /** Without force an existing key is never replaced: nothing changes at all. */
  lemma UnforcedKeepsTheKey(d: Device, draws: Draws)
    requires d.ram.caPubkey.Some? && d.ram.state in {DevReady, ProdReady}
    ensures HandleGenerateKey(d, false, draws) == (d, Fail(KeyExists))
  {
  }

  /** In a locked or uninitialised session no key is generated, forced or not. */
  lemma LockedGeneratesNothing(d: Device, force: bool, draws: Draws)
    ensures d.ram.state in {ProdLocked, LockedOut} ==> HandleGenerateKey(d, force, draws) == (d, Fail(Locked))
    ensures d.ram.state == Uninitialized ==> HandleGenerateKey(d, force, draws) == (d, Fail(NotInit))
  {
  }

  /**
   * Otherwise, without faults, the drawn seed becomes the CA key: in RAM, and in
   * the latest record under the session's KEK, salt and mode.
   */
  lemma GenerateSucceeds(d: Device, force: bool, draws: Draws, limit: nat)
    requires Calm(d) && Shape(d.ram) && d.ram.state in {DevReady, ProdReady} && d.ram.wrapKek.Some?
    requires force || d.ram.caPubkey.None?
    requires WellNumbered(d.flash.key, limit) && limit < SEQUENCE_SPACE - 1
    ensures var (e, reply) := HandleGenerateKey(d, force, draws);
            && reply == Success
            && e.ram == d.ram.(ca := Some(draws.seed), caPubkey := Some(PublicOf(draws.seed)))
            && Latest(e.flash.key).Some?
            && UnwrapSeed(d.ram.wrapKek.value, Latest(e.flash.key).value) == Some(draws.seed)
            && Latest(e.flash.key).value.wrapType == (if d.ram.state == DevReady then DevWrap else PinWrap)
            && Latest(e.flash.key).value.pubkey == PublicOf(draws.seed)
            && (d.ram.state == ProdReady ==> Some(Latest(e.flash.key).value.salt) == d.ram.wrapSalt)
            && e.log == d.log
  {
    hide WritePair, Latest;
    var prod := d.ram.config.value.mode == Prod;
    var salt := if prod then d.ram.wrapSalt.value else draws.salt;
    var blob := WrapSeed(d.ram.wrapKek.value, draws.seed, PublicOf(draws.seed), if prod then PinWrap else DevWrap, salt, draws.nonce);
    WriteIsAtomic(d.flash.key, blob, Done, limit);
  }

  // -------------------------------------------------------------------------- init

  /** A production init without faults succeeds exactly on a blank device with a PIN of 6 to 64 bytes and a limit of at least 1. */
  lemma InitProdSucceedsIff(d: Device, pin: Option<string>, retries: Option<U8>, wipe: Option<bool>, draws: Draws)
    requires Calm(d)
    ensures var (e, reply) := HandleInitProd(d, pin, retries, wipe, draws);
            && (reply == Success <==> && d.ram.config.None? && pin.Some? && 6 <= |pin.value| <= 64
                                      && retries != Some(0) && d.ram.secret.Some?)
            && (reply == Success ==>
                  && e.ram.config == Some(DeviceConfig(Prod, Argon2Params(256, 14, 1),
                                                       if retries.Some? then retries.value else 10, wipe == Some(true)))
                  && e.ram.state == ProdLocked && NoSecrets(e.ram) && e.flash.marks == {} && e.ram.backoffUntilMs == 0
                  && e.ram.caPubkey == Some(PublicOf(draws.seed)))
            && (reply != Success ==> e == d)
            && (d.ram.config.Some? ==> reply == Fail(AlreadyInit))
            && (d.ram.config.None? && (pin.None? || |pin.value| < 6 || |pin.value| > 64) ==> reply == Fail(BadRequest))
  {
    hide WritePair;
  }

  /** What it stored: the drawn seed under the PIN, and the configuration. */
  lemma InitProdStores(d: Device, pin: string, retries: Option<U8>, wipe: Option<bool>, draws: Draws, limit: nat)
    requires Calm(d) && HandleInitProd(d, Some(pin), retries, wipe, draws).1 == Success
    requires WellNumbered(d.flash.key, limit) && WellNumbered(d.flash.config, limit) && limit < SEQUENCE_SPACE - 1
    ensures var e := HandleInitProd(d, Some(pin), retries, wipe, draws).0;
            && Latest(e.flash.config) == e.ram.config
            && Opens(e, pin) && Latest(e.flash.key).value.sealed.seed == draws.seed
  {
    hide WritePair, Latest;
    var cfg := DeviceConfig(Prod, DEFAULT_ARGON, if retries.Some? then retries.value else 10, wipe == Some(true));
    var blob := WrapSeed(PinKek(pin, draws.salt, DEFAULT_ARGON, d.ram.secret.value), draws.seed, PublicOf(draws.seed), PinWrap, draws.salt, draws.nonce);
    WriteIsAtomic(d.flash.key, blob, Done, limit);
    WriteIsAtomic(d.flash.config, cfg, Done, limit);
  }

  /** A dev init without faults succeeds exactly on a blank device that has its secret. */
  lemma InitDevSucceedsIff(d: Device, limit: nat)
    requires Calm(d) && WellNumbered(d.flash.config, limit) && limit < SEQUENCE_SPACE - 1
    ensures var (e, reply) := HandleInitDev(d);
            && (reply == Success <==> d.ram.config.None? && d.ram.secret.Some?)
            && (reply == Success ==>
                  && e.ram.state == DevReady && e.ram.wrapKek == Some(DevKek(d.ram.secret.value))
                  && e.ram.config.Some? && e.ram.config.value.mode == Dev && Latest(e.flash.config) == e.ram.config)
            && (reply != Success ==> e == d)
  {
    hide WritePair, Latest;
    WriteIsAtomic(d.flash.config, DeviceConfig(Dev, DEFAULT_ARGON, 0, false), Done, limit);
  }

  /** Any other mode is refused and changes nothing. */
  lemma OtherModesAreRefused(d: Device, env: Env)
    ensures Handle(d, InitOther, env) == (d, if d.ram.config.Some? then Fail(AlreadyInit) else Fail(BadMode))
  {
  }

  // -------------------------------------------------------- unlock, change of PIN

  /** Unlocking without faults succeeds exactly with the right PIN behind an open gate, or when already unlocked. */
  lemma UnlockSucceedsIff(d: Device, pin: string, kdfUs: nat)
    requires Calm(d) && Shape(d.ram) && Count(d.flash.marks) < SECTOR_LEN
    ensures var (e, reply) := HandleUnlock(d, pin, kdfUs);
            && (reply == Success <==> d.ram.state == ProdReady || (d.ram.state == ProdLocked && MayTry(d) && Opens(d, pin)))
            && (d.ram.state == ProdLocked && reply == Success ==>
                  && e.ram.state == ProdReady && e.ram.ca == Some(Latest(d.flash.key).value.sealed.seed)
                  && e.ram.wrapSalt == Some(Latest(d.flash.key).value.salt)
                  && e.ram.wrapKek == Some(PinKek(pin, Latest(d.flash.key).value.salt, d.ram.config.value.argon2, d.ram.secret.value)))
            && (d.ram.state == LockedOut ==> (e, reply) == (d, Fail(OutOfTries)))
            && (d.ram.state == DevReady ==> (e, reply) == (d, Fail(BadMode)))
            && (d.ram.state == Uninitialized ==> (e, reply) == (d, Fail(NotInit)))
  {
    hide VerifyPin, CountFrom;
    if d.ram.state == ProdLocked {
      VerifyNeverSucceeds(d, pin, kdfUs);
      VerifyCases(d, pin, kdfUs);
      if MayTry(d) && Opens(d, pin) {
        RightPinResets(d, pin, kdfUs);
      }
    }
  }

  /**
   * Changing the PIN without faults succeeds exactly with the right old PIN behind
   * an open gate and a new one of 6 to 64 bytes; the session stays locked or
   * unlocked as it was, under the new KEK.
   */
  lemma ChangePinSucceedsIff(d: Device, current: string, newPin: string, draws: Draws, kdfUs: nat, limit: nat)
    requires Calm(d) && Count(d.flash.marks) < SECTOR_LEN && KeyCache.Cached(d, limit)
    ensures var (e, reply) := HandleChangePin(d, current, newPin, draws, kdfUs);
            && (reply == Success <==> && d.ram.state in {ProdLocked, ProdReady} && 6 <= |newPin| <= 64
                                      && MayTry(d) && Opens(d, current))
            && (reply == Success ==>
                  && e.ram.state == d.ram.state && e.ram.ca == d.ram.ca && e.flash.marks == {}
                  && (d.ram.state == ProdReady ==>
                        && e.ram.wrapSalt == Some(draws.salt)
                        && e.ram.wrapKek == Some(PinKek(newPin, draws.salt, d.ram.config.value.argon2, d.ram.secret.value))))
            && (d.ram.state in {ProdLocked, ProdReady} && (|newPin| < 6 || |newPin| > 64) ==> (e, reply) == (d, Fail(BadRequest)))
  {
    hide VerifyPin, CountFrom, Rewrap, KeyCache.GenuineCopies;
    if d.ram.state in {ProdLocked, ProdReady} && PinLengthOk(newPin) {
      VerifyNeverSucceeds(d, current, kdfUs);
      VerifyCases(d, current, kdfUs);
      if MayTry(d) && Opens(d, current) {
        RightPinResets(d, current, kdfUs);
        CalmRewrap(VerifyPin(d, current, kdfUs).0, d.ram.state == ProdReady, Latest(d.flash.key).value.sealed.seed, newPin, draws);
      }
    }
  }

  lemma CalmRewrap(d: Device, wasReady: bool, seed: Seed, newPin: string, draws: Draws)
    requires Calm(d) && d.ram.config.Some? && d.ram.secret.Some? && d.ram.caPubkey.Some?
    ensures var (e, reply) := Rewrap(d, wasReady, seed, newPin, draws);
            && reply == Success && e.flash.marks == {}
            && e.ram == AdoptNewPin(d.(ram := d.ram.(backoffUntilMs := 0)), wasReady, seed,
                                    PinKek(newPin, draws.salt, d.ram.config.value.argon2, d.ram.secret.value), draws.salt).ram
  {
    hide WritePair;
  }

  // ------------------------------------------------------------------------ signing

  /**
   * A certificate is issued, with the live key, exactly by a signing request in a
   * ready session whose clock is set, for a validity of at most 24 hours.
   */
  lemma SignsIff(d: Device, validityNs: Option<nat>)
    requires Calm(d)
    ensures var (e, reply) := HandleSign(d, validityNs);
            && (reply == Success <==> && d.ram.state in {DevReady, ProdReady} && d.ram.ca.Some?
                                      && NowUnix(d.time.wall, d.time.nowUs).Some?
                                      && validityNs.Some? && 0 < validityNs.value <= 86_400_000_000_000)
            && (reply == Success ==> e.log.Snoc? && e.log.earlier == d.log && e.log.last.Issued? && Some(e.log.last.ca) == d.ram.ca)
            && (reply != Success ==> e.log == d.log)
            && e.flash == d.flash && e.ram == d.ram
  {
  }
}
