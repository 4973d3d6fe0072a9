/**
 * What a wrong PIN at the limit does to the key: a device configured to wipe
 * says it is out of tries only when no key record can be read, and a device
 * that is not leaves the record alone.
 */
module Wiping {
  import opened Options
  import opened AbRecords
  import opened Wrap
  import Clock
  import opened TrustedTime
  import opened Attempts
  import opened Session
  import opened SessionShape
  import opened PinCases
  import opened PinBudget
  import KeyCache

  /** Every operation still to come is carried out. */
  predicate Faultless(tape: seq<Outcome>) {
    forall i :: 0 <= i < |tape| ==> tape[i].Done?
  }

  predicate Says(v: Verdict, code: Code) {
    v.Refused? && v.reply.PinFail? && v.reply.pinCode == code
  }

  /** What lockout did to the key, the cached public key and the reply. */
  predicate LockoutEffect(d: Device, wipe: bool, e: Device, v: Verdict) {
    && (Says(v, OutOfTries) || Says(v, FlashFailed))
    && (Says(v, OutOfTries) ==> v.reply.remaining == 0)
    && (!wipe ==> Says(v, OutOfTries) && e.flash.key == d.flash.key && e.ram.caPubkey == d.ram.caPubkey)
    && (wipe && Says(v, OutOfTries) ==> Latest(e.flash.key).None? && e.ram.caPubkey.None?)
    && (wipe && Latest(e.flash.key).Some? ==> Says(v, FlashFailed))
    && (Says(v, FlashFailed) ==> wipe && e.ram.caPubkey == d.ram.caPubkey && !Faultless(d.tape))
    && (wipe && Powered(d) && Faultless(d.tape) ==> e.flash.key == BlankPair())
  }

  lemma SpendKeepsFaultless(d: Device)
    requires Faultless(d.tape)
    ensures Faultless(Spend(d).tape) && (Powered(d) ==> Next(d).Done? && Powered(Spend(d)))
  {
  }

  /** An erase round without faults leaves a blank pair and sees it. */
  lemma FaultlessRound(d: Device)
    requires Powered(d) && Faultless(d.tape)
    ensures EraseKeyRound(d).1 && EraseKeyRound(d).0.flash.key == BlankPair()
  {
    SpendKeepsFaultless(d);
    SpendKeepsFaultless(Spend(d));
    SpendKeepsFaultless(Spend(Spend(d)));
    assert EraseKey(d).0.flash.key == BlankPair();
  }

  lemma WipeEffect(d: Device, backoff: nat)
    ensures var (e, v) := WipeKey(d, backoff);
            && (Says(v, OutOfTries) || Says(v, FlashFailed)) && v.reply.remaining == 0
            && (Says(v, OutOfTries) ==> Latest(e.flash.key).None? && e.ram.caPubkey.None?)
            && (Says(v, FlashFailed) ==> e.ram.caPubkey == d.ram.caPubkey && (!Powered(d) || !Faultless(d.tape)))
            && (Powered(d) && Faultless(d.tape) ==> e.flash.key == BlankPair())
  {
    hide EraseKeyRound;
    EraseKeyKeeps(d);
    if Powered(d) && Faultless(d.tape) {
      FaultlessRound(d);
    }
  }

  lemma PunishEffect(d: Device, cfg: DeviceConfig, attempts: nat)
    requires attempts >= cfg.maxRetries && Powered(d)
    ensures LockoutEffect(d, cfg.wipeOnLockout, PunishWrongPin(d, cfg, attempts).0, PunishWrongPin(d, cfg, attempts).1)
  {
    hide WipeKey, BackoffMs;
    var backoff := BackoffMs(Minus(attempts, 1));
    var d1 := Note(d.(ram := d.ram.(backoffUntilMs := Deadline(NowMs(d), backoff))), Wrong(NowMs(d)));
    WipeEffect(EnterLockedOut(d1), backoff);
  }

  lemma EvaluateEffect(d: Device, cfg: DeviceConfig, pin: string, blob: KeyBlob, attempts: nat)
    requires Powered(d) && d.ram.state != LockedOut
    ensures var (e, v) := Evaluate(d, cfg, pin, blob, attempts);
            e.ram.state == LockedOut ==> LockoutEffect(d, cfg.wipeOnLockout, e, v)
  {
    hide PunishWrongPin, ResetCounterBestEffort, LockoutEffect;
    ResetKeepsRam(Note(d, Right));
    PunishKeeps(d, cfg, attempts);
    if attempts >= cfg.maxRetries {
      PunishEffect(d, cfg, attempts);
    }
  }

  lemma OpenEffect(d: Device, cfg: DeviceConfig, pin: string, attempts: nat, kdfUs: nat)
    requires d.ram.state != LockedOut
    ensures var (e, v) := OpenBlob(d, cfg, pin, attempts, kdfUs);
            e.ram.state == LockedOut ==> Powered(d) && LockoutEffect(d, cfg.wipeOnLockout, e, v)
  {
    hide Evaluate;
    var (d1, found) := ReadKey(d);
    if found.Some? && found.value.Some? && d1.ram.secret.Some? {
      var (d2, derived) := Try(d1);
      if derived {
        var d3 := d2.(time := d2.time.(nowUs := Later(d2.time.nowUs, kdfUs)));
        EvaluateEffect(d3, cfg, pin, found.value.value, attempts);
        FaultlessTwice(d, d3);
      }
    }
  }

  lemma FaultlessTwice(d: Device, e: Device)
    requires e.tape == Spend(Spend(d)).tape
    ensures Faultless(d.tape) ==> Faultless(e.tape)
  {
  }

  /**
   * For every tape: a PIN check that locks the session out was of a wrong PIN at
   * the limit, and did to the key what the configuration asks for.
   */
  lemma LockoutWipesAsConfigured(d: Device, pin: string, kdfUs: nat)
    requires d.ram.config.Some? && d.ram.state != LockedOut
    ensures var (e, v) := VerifyPin(d, pin, kdfUs);
            e.ram.state == LockedOut ==> LockoutEffect(d, d.ram.config.value.wipeOnLockout, e, v)
  {
    hide OpenBlob, CountFrom, LockoutEffect;
    var (d1, prior) := ReadCount(d);
    if prior.Some? && !Waiting(d) {
      var (d2, attempts) := Tick(d1);
      if attempts.Some? {
        OpenEffect(d2, d.ram.config.value, pin, attempts.value, kdfUs);
        EffectFromEarlier(d, d2, d.ram.config.value.wipeOnLockout, OpenBlob(d2, d.ram.config.value, pin, attempts.value, kdfUs).0,
                          OpenBlob(d2, d.ram.config.value, pin, attempts.value, kdfUs).1);
      }
    }
  }

  lemma EffectFromEarlier(d: Device, d2: Device, wipe: bool, e: Device, v: Verdict)
    requires d2.ram == d.ram && d2.flash.key == d.flash.key && (Powered(d2) ==> Powered(d))
    requires d2.tape == d.tape || (exists k :: 0 <= k <= |d.tape| && d2.tape == d.tape[k..])
    ensures Powered(d2) && LockoutEffect(d2, wipe, e, v) ==> LockoutEffect(d, wipe, e, v)
  {
  }
}
