/**
 * Everything `verify_pin` can do to a device, as four cases. The modules on the
 * budget, the backoff, lockout and the key cache all argue from these cases.
 */
module PinCases {
  import opened Options
  import opened AbRecords
  import opened Wrap
  import opened TrustedTime
  import opened Attempts
  import opened Session
  import opened SessionShape

  /** The time part may have lost power and moved forward, nothing else. */
  predicate OnlyTimePassed(d: Device, e: Device) {
    && e.time == d.time.(on := e.time.on, nowUs := e.time.nowUs)
    && d.time.nowUs <= e.time.nowUs
    && (Powered(e) ==> Powered(d))
  }

  /** No PIN was evaluated: at most the counter moved, and only upwards. */
  predicate Unevaluated(d: Device, e: Device) {
    && OnlyTimePassed(d, e)
    && e.ram == d.ram && e.log == d.log
    && e.flash == d.flash.(marks := e.flash.marks)
    && Count(d.flash.marks) <= Count(e.flash.marks)
  }

  /** What a best-effort counter reset does after `log`: nothing, or at least one erase. */
  predicate CounterReset(d: Device, e: Device) {
    && OnlyTimePassed(d, e)
    && e.flash == d.flash.(marks := e.flash.marks)
    && SameButBackoff(e.ram, d.ram)
    && (|| (e.log == d.log && e.flash.marks == d.flash.marks && e.ram == d.ram)
        || ((e.log == Snoc(d.log, CounterErased) || e.log == Snoc(Snoc(d.log, CounterErased), CounterErased))
            && (e.ram == d.ram || (e.ram.backoffUntilMs == 0 && e.flash.marks == {}))))
  }

  lemma ResetCases(d: Device)
    ensures CounterReset(d, ResetCounterBestEffort(d))
  {
    var (once, ok) := ResetCounter(d);
    assert OnlyTimePassed(d, once);
    var (twice, ok2) := ResetCounter(once);
    assert OnlyTimePassed(once, twice);
  }

  /** The PIN opened the blob, and the counter was reset as far as the flash let it. */
  predicate Opened(d: Device, e: Device) {
    var passed := Snoc(d.log, Right);
    && OnlyTimePassed(d, e)
    && e.flash == d.flash.(marks := e.flash.marks)
    && SameButBackoff(e.ram, d.ram)
    && (|| (e.log == passed && Count(d.flash.marks) <= Count(e.flash.marks) && e.ram == d.ram)
        || ((e.log == Snoc(passed, CounterErased) || e.log == Snoc(Snoc(passed, CounterErased), CounterErased))
            && (e.ram == d.ram || (e.ram.backoffUntilMs == 0 && e.flash.marks == {}))))
  }

  /** A wrong PIN was evaluated at `ms` with `attempts` on the counter, without reaching the limit. */
  predicate WrongBelowLimit(d: Device, e: Device, max: nat, attempts: nat) {
    && OnlyTimePassed(d, e) && Powered(e)
    && e.flash == d.flash.(marks := e.flash.marks)
    && attempts < max
    && Count(d.flash.marks) + 1 == attempts <= Count(e.flash.marks)
    && e.log == Snoc(d.log, Wrong(NowMs(e)))
    && e.ram == d.ram.(backoffUntilMs := Deadline(NowMs(e), BackoffMs(attempts - 1)))
  }

  /** A wrong PIN was evaluated and the limit is reached; the key may have been wiped, or half wiped. */
  predicate WrongAtLimit(d: Device, e: Device, max: nat) {
    && OnlyTimePassed(d, e)
    && e.flash.config == d.flash.config
    && Shrunk(d.flash.key, e.flash.key)
    && max <= Count(e.flash.marks)
    && Count(d.flash.marks) <= Count(e.flash.marks)
    && e.log == Snoc(Snoc(d.log, Wrong(NowMs(e))), EnteredLockout)
    && e.ram.state == LockedOut && NoSecrets(e.ram)
    && e.ram.config == d.ram.config && e.ram.secret == d.ram.secret
    && e.ram.backoffUntilMs <= NowMs(e) + BACKOFF_CAP_MS
  }

  /** The attempt is on the counter, unless that was full. */
  predicate Raised(d: Device, e: Device) {
    Count(d.flash.marks) < SECTOR_LEN ==> Count(d.flash.marks) + 1 <= Count(e.flash.marks)
  }

  /** The flash holds a key, the gate is open, and power lasts to the evaluation. */
  predicate CanEvaluate(d: Device) {
    && Powered(d) && d.ram.config.Some? && d.ram.secret.Some?
    && Latest(d.flash.key).Some?
    && !Waiting(d)
  }

  lemma TickCase(d: Device)
    ensures var (e, n) := Tick(d);
            && Unevaluated(d, e)
            && (n.Some? ==>
                  && Powered(e)
                  && n.value <= Count(e.flash.marks)
                  && n.value == (if Count(d.flash.marks) < SECTOR_LEN then Count(d.flash.marks) + 1 else SECTOR_LEN))
  {
    var (read, ok) := Try(d);
    TickCounts(d.flash.marks, Next(read));
    CountBelow(d.flash.marks, 0);
  }

  lemma PunishCase(d: Device, cfg: DeviceConfig, attempts: nat)
    requires Powered(d) && attempts >= 1 && attempts <= Count(d.flash.marks)
    ensures var (e, v) := PunishWrongPin(d, cfg, attempts);
            && v.Refused?
            && (attempts < cfg.maxRetries ==>
                  e == Note(d.(ram := d.ram.(backoffUntilMs := Deadline(NowMs(d), BackoffMs(attempts - 1)))), Wrong(NowMs(d))))
            && (attempts >= cfg.maxRetries ==> WrongAtLimit(d, e, cfg.maxRetries))
  {
    if attempts >= cfg.maxRetries {
      var d1 := Note(d.(ram := d.ram.(backoffUntilMs := Deadline(NowMs(d), BackoffMs(Minus(attempts, 1))))), Wrong(NowMs(d)));
      var d2 := EnterLockedOut(d1);
      EraseKeyKeeps(d2);
      EraseCannotPowerUp(d2);
    }
  }

  lemma EraseCannotPowerUp(d: Device)
    ensures Powered(EraseKeyVerified(d).0) ==> Powered(d)
  {
    EraseRoundCannotPowerUp(d);
    EraseRoundCannotPowerUp(EraseKeyRound(d).0);
  }

  lemma EraseRoundCannotPowerUp(d: Device)
    ensures Powered(EraseKeyRound(d).0) ==> Powered(d)
  {
  }

  /** The four cases, with what each says about the blob in flash. */
  ghost predicate VerifyOutcome(d: Device, pin: string, e: Device, v: Verdict)
    requires d.ram.config.Some?
  {
    var max := d.ram.config.value.maxRetries;
    match v
    case Verified(seed, kek, salt) =>
      && CanEvaluate(d)
      && Opened(d, e)
      && salt == Latest(d.flash.key).value.salt
      && kek == PinKek(pin, salt, d.ram.config.value.argon2, d.ram.secret.value)
      && UnwrapSeed(kek, Latest(d.flash.key).value) == Some(seed)
    case Refused(reply) =>
      || Unevaluated(d, e)
      || (&& CanEvaluate(d)
          && UnwrapSeed(PinKek(pin, Latest(d.flash.key).value.salt, d.ram.config.value.argon2, d.ram.secret.value),
                        Latest(d.flash.key).value).None?
          && (|| WrongBelowLimit(d, e, max, Count(d.flash.marks) + 1)
              || (WrongAtLimit(d, e, max) && Raised(d, e))))
  }

  lemma VerifyCases(d: Device, pin: string, kdfUs: nat)
    requires d.ram.config.Some?
    ensures VerifyOutcome(d, pin, VerifyPin(d, pin, kdfUs).0, VerifyPin(d, pin, kdfUs).1)
  {
    hide Tick, OpenBlob, CountFrom;
    var (d1, prior) := ReadCount(d);
    assert Unevaluated(d, d1);
    if prior.Some? && !Waiting(d) {
      TickCase(d1);
      var (d2, attempts) := Tick(d1);
      if attempts.Some? {
        OpenCases(d, d2, pin, attempts.value, kdfUs);
      }
    }
  }

  lemma OpenCases(d: Device, d2: Device, pin: string, attempts: nat, kdfUs: nat)
    requires Powered(d) && d.ram.config.Some? && !Waiting(d)
    requires Unevaluated(d, d2)
    requires attempts <= Count(d2.flash.marks)
    requires attempts == (if Count(d.flash.marks) < SECTOR_LEN then Count(d.flash.marks) + 1 else SECTOR_LEN)
    ensures var cfg := d.ram.config.value;
            VerifyOutcome(d, pin, OpenBlob(d2, cfg, pin, attempts, kdfUs).0, OpenBlob(d2, cfg, pin, attempts, kdfUs).1)
  {
    hide Evaluate, CountFrom;
    var (d3, found) := ReadKey(d2);
    assert Unevaluated(d, d3);
    if found.Some? && found.value.Some? && d3.ram.secret.Some? {
      var (d4, derived) := Try(d3);
      assert Unevaluated(d, d4);
      if derived {
        var d5 := d4.(time := d4.time.(nowUs := Later(d4.time.nowUs, kdfUs)));
        EvaluateCases(d, d5, d.ram.config.value, pin, found.value.value, attempts);
      }
    }
  }

  lemma EvaluateCases(d: Device, d5: Device, cfg: DeviceConfig, pin: string, blob: KeyBlob, attempts: nat)
    requires CanEvaluate(d) && d.ram.config.value == cfg && Latest(d.flash.key) == Some(blob)
    requires Unevaluated(d, d5) && Powered(d5)
    requires attempts <= Count(d5.flash.marks)
    requires attempts == (if Count(d.flash.marks) < SECTOR_LEN then Count(d.flash.marks) + 1 else SECTOR_LEN)
    ensures VerifyOutcome(d, pin, Evaluate(d5, cfg, pin, blob, attempts).0, Evaluate(d5, cfg, pin, blob, attempts).1)
  {
    hide PunishWrongPin, ResetCounterBestEffort, CountFrom;
    var kek := PinKek(pin, blob.salt, cfg.argon2, d5.ram.secret.value);
    if UnwrapSeed(kek, blob).Some? {
      var mid := Note(d5, Right);
      ResetCases(mid);
      assert mid.(log := d.log) == d5;
    } else {
      PunishCase(d5, cfg, attempts);
    }
  }

  /** Without faults an open gate always leads to an evaluation. */
  lemma NoFaultEvaluates(d: Device, pin: string, kdfUs: nat)
    requires CanEvaluate(d) && d.tape == [] && Count(d.flash.marks) < SECTOR_LEN
    ensures var (e, v) := VerifyPin(d, pin, kdfUs);
            e.log != d.log
            && (v.Verified? <==> UnwrapSeed(PinKek(pin, Latest(d.flash.key).value.salt, d.ram.config.value.argon2, d.ram.secret.value),
                                            Latest(d.flash.key).value).Some?)
  {
    var (d1, prior) := ReadCount(d);
    TickCase(d1);
    var (d2, attempts) := Tick(d1);
    var (d3, found) := ReadKey(d2);
    var (d4, derived) := Try(d3);
    var d5 := d4.(time := d4.time.(nowUs := Later(d4.time.nowUs, kdfUs)));
    EvaluateCases(d, d5, d.ram.config.value, pin, found.value.value, attempts.value);
    var (e, v) := Evaluate(d5, d.ram.config.value, pin, found.value.value, attempts.value);
    PunishCase(d5, d.ram.config.value, attempts.value);
  }
}
