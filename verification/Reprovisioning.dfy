/**
 * What a provisioning does that fails to erase the counter: the old attempts stay
 * on it, but a new budget starts and the deadline is cleared. Counted from
 * erasures alone the budget and the backoff then fail; here is a run that reaches
 * this from the factory, and what holds after any such init.
 */
module Reprovisioning {
  import opened Options
  import opened AbRecords
  import opened Wrap
  import opened Clock
  import opened TrustedTime
  import opened Attempts
  import opened Session
  import opened SessionShape
  import opened PinCases
  import opened PinLog
  import opened PinBudget
  import opened Backoff
  import KeyCache
  import Lockout

  const READABLE := Readable(true, true, true, true)
  const DRAWS := Draws([1], [2], [3])
  const SECRET: Secret := [4]
  const OWNERS_PIN := "111111"
  const GUESS := "222222"
  const FAILED := Error(Untouched)
  const CONFIG := DeviceConfig(Prod, DEFAULT_ARGON, 1, false)

  /** The tape of a reset that erases all but the counter. */
  const RESET_TAPE := [Done, Done, Done, Done, Done, Done, Done, FAILED]

  /** The tape of an init whose two counter resets fail. */
  const INIT_TAPE := [Done, Done, Done, Done, Done, Done, FAILED, FAILED]

  function With(tape: seq<Outcome>): Env {
    Env(tape, DRAWS, 0, READABLE)
  }

  const START: Event := Boot(0, false, Some(SECRET), READABLE)
  const RECOVER: Event := Boot(0, true, Some(SECRET), READABLE)
  const INIT: Request := InitProd(Some(OWNERS_PIN), Some(1), None)

  /** Two wrong PINs with a limit of one. */
  function TheRun(): seq<Event> {
    [START, Ask(INIT, With([])), Ask(Unlock(GUESS), With([])), RECOVER,
     Ask(Session.FactoryReset(true, None), With(RESET_TAPE)), Ask(INIT, With(INIT_TAPE)), Ask(Unlock(GUESS), With([]))]
  }

  function Blob(): KeyBlob {
    WrapSeed(PinKek(OWNERS_PIN, DRAWS.salt, DEFAULT_ARGON, SECRET), DRAWS.seed, PublicOf(DRAWS.seed), PinWrap, DRAWS.salt, DRAWS.nonce)
  }

  // ------------------------------------------------------------------ the stages

  /** Running at time zero, over blank records. */
  predicate Unprovisioned(d: Device) {
    && Powered(d) && d.time.nowUs == 0
    && d.ram.config.None? && d.ram.secret == Some(SECRET)
    && d.flash.config == BlankPair() && d.flash.key == BlankPair()
  }

  /** Provisioned with a limit of one, locked, no deadline. */
  predicate Provisioned1(d: Device) {
    && Powered(d) && d.time.nowUs == 0
    && d.ram.state == ProdLocked && d.ram.config == Some(CONFIG) && d.ram.secret == Some(SECRET)
    && d.ram.backoffUntilMs == 0
    && d.flash.config == Pair(Valid(1, CONFIG), Erased) && d.flash.key == Pair(Valid(1, Blob()), Erased)
  }

  lemma WritesToBlank<T>(value: T)
    ensures WritePair(BlankPair<T>(), value, Done) == Pair(Valid(1, value), Erased)
  {
  }

  lemma CleanInit(d: Device)
    requires Unprovisioned(d)
    ensures var e := Step(d, Ask(INIT, With([])));
            && Provisioned1(e) && e.flash.marks == {}
            && e.log == Snoc(Snoc(d.log, Provisioned(1)), CounterErased)
  {
    hide WritePair;
    WritesToBlank(CONFIG);
    WritesToBlank(Blob());
  }

  lemma StickyInit(d: Device)
    requires Unprovisioned(d)
    ensures var e := Step(d, Ask(INIT, With(INIT_TAPE)));
            && Provisioned1(e) && e.flash.marks == d.flash.marks
            && e.log == Snoc(d.log, Provisioned(1))
  {
    hide Provision;
    var d0 := d.(tape := INIT_TAPE);
    var d1 := Try(d0).0;
    assert d1 == d.(tape := INIT_TAPE[1..]);
    var d2 := Try(d1).0;
    assert d2 == d.(tape := INIT_TAPE[2..]);
    StickyProvision(d2);
  }

  lemma StickyProvision(d: Device)
    requires Unprovisioned(d) && d.tape == INIT_TAPE[2..]
    ensures var (e, reply) := Provision(d, PinKek(OWNERS_PIN, DRAWS.salt, DEFAULT_ARGON, SECRET), CONFIG, DRAWS);
            && Provisioned1(e) && e.flash.marks == d.flash.marks
            && e.log == Snoc(d.log, Provisioned(1))
  {
    hide WritePair, ResetCounterBestEffort;
    WritesToBlank(CONFIG);
    WritesToBlank(Blob());
    var d3 := WriteKey(d, Blob()).0;
    assert d3 == d.(tape := INIT_TAPE[4..], flash := d.flash.(key := Pair(Valid(1, Blob()), Erased)));
    var d4 := WriteConfig(d3, CONFIG).0;
    assert d4.tape == INIT_TAPE[6..] && Powered(d4);
    ResetsFail(d4);
  }

  /** Two resets that fail leave the counter and the history alone. */
  lemma ResetsFail(d: Device)
    requires Powered(d) && d.tape == [FAILED, FAILED]
    ensures ResetCounterBestEffort(d) == d.(tape := [])
  {
    CounterStays(d);
    assert d.tape[1..] == [FAILED];
    CounterStays(d.(tape := [FAILED]));
  }

  lemma CounterStays(d: Device)
    requires Powered(d) && d.tape != [] && d.tape[0] == FAILED
    ensures ResetCounter(d) == (d.(tape := d.tape[1..]), false)
  {
  }

  /** The guess is evaluated at once, and locks out. */
  lemma WrongGuess(d: Device)
    requires Provisioned1(d) && Count(d.flash.marks) < SECTOR_LEN
    ensures var e := Step(d, Ask(Unlock(GUESS), With([])));
            && e.log == Snoc(Snoc(d.log, Wrong(0)), EnteredLockout)
            && e.flash == d.flash.(marks := d.flash.marks + {Count(d.flash.marks)})
  {
    hide CountFrom, BackoffMs;
    assert GUESS != OWNERS_PIN by {
      assert GUESS[0] != OWNERS_PIN[0];
    }
    CountBelow(d.flash.marks, 0);
    assert Latest(d.flash.key) == Some(Blob());
  }

  lemma RecoveryBoot(d: Device)
    requires d.flash.config == Pair(Valid(1, CONFIG), Erased) && d.flash.key == Pair(Valid(1, Blob()), Erased)
    requires Count(d.flash.marks) >= 1
    ensures var e := Step(d, RECOVER);
            && Powered(e) && e.time.nowUs == 0 && e.time.physical && e.ram.state == LockedOut && e.ram.secret == Some(SECRET)
            && e.flash == d.flash
            && e.log == Snoc(Snoc(d.log, Booted(0)), EnteredLockout)
  {
    hide CountFrom, BackoffMs;
  }

  lemma KeyGone(d: Device)
    requires Powered(d) && |d.tape| >= 3 && d.tape[0].Done? && d.tape[1].Done? && d.tape[2].Done?
    ensures EraseKeyVerified(d) == (d.(tape := d.tape[3..], flash := d.flash.(key := BlankPair())), true)
  {
    var blank := d.flash.(key := BlankPair());
    assert d.tape[1..][1..] == d.tape[2..] && d.tape[2..][1..] == d.tape[3..];
    assert EraseKey(d) == (d.(tape := d.tape[2..], flash := blank), true);
  }

  lemma ConfigGone(d: Device)
    requires Powered(d) && |d.tape| >= 2 && d.tape[0].Done? && d.tape[1].Done?
    ensures EraseConfig(d) == (d.(tape := d.tape[2..], flash := d.flash.(config := BlankPair())), true)
  {
    assert d.tape[1..][1..] == d.tape[2..];
  }

  lemma FloorGone(d: Device)
    requires Powered(d) && |d.tape| >= 2 && d.tape[0].Done? && d.tape[1].Done?
    ensures EraseFloor(d) == (d.(tape := d.tape[2..], time := d.time.(pair := BlankPair())), true)
  {
    assert d.tape[1..][1..] == d.tape[2..];
  }

  /** The sweep with a counter erase that fails. */
  lemma StickySweep(d: Device)
    requires Powered(d) && d.tape == RESET_TAPE
    ensures var (e, clean) := EraseEverything(d);
            && !clean && Powered(e) && e.log == d.log && e.time == d.time.(pair := BlankPair())
            && e.flash == Flash(BlankPair(), BlankPair(), d.flash.marks)
            && e.ram == DropLiveSecrets(d).ram
  {
    hide EraseKeyVerified, EraseConfig, EraseFloor, ResetCounter;
    var d0 := DropLiveSecrets(d);
    KeyGone(d0);
    var d1 := EraseKeyVerified(d0).0;
    assert d1.tape == RESET_TAPE[3..];
    ConfigGone(d1);
    var d2 := EraseConfig(d1).0;
    assert d2.tape == RESET_TAPE[5..];
    FloorGone(d2);
    var d3 := EraseFloor(d2).0;
    assert d3.tape == RESET_TAPE[7..];
    CounterStays(d3);
  }

  /** The reset erases every record but not the counter, and reloads an unprovisioned session. */
  lemma StickyReset(d: Device)
    requires Powered(d) && d.time.nowUs == 0 && d.time.physical && d.ram.state == LockedOut && d.ram.secret == Some(SECRET)
    ensures var e := Step(d, Ask(Session.FactoryReset(true, None), With(RESET_TAPE)));
            Unprovisioned(e) && e.flash.marks == d.flash.marks && e.log == d.log
  {
    hide LoadFloor, EraseEverything;
    var d0 := d.(tape := RESET_TAPE);
    StickySweep(d0);
    LoadFloorKeepsTime(EraseEverything(d0).0.time, true);
  }

  lemma Unroll(d: Device, events: seq<Event>, e: Event)
    ensures Run(d, events + [e]) == Step(Run(d, events), e)
  {
    assert (events + [e])[..|events|] == events;
  }

  /**
   * The literal budget and the literal backoff fail: with a limit of one, two
   * wrong PINs are evaluated without an erasure between them, the second with no
   * delay since the latest boot. Every boot read in this run succeeds.
   */
  lemma ProvisioningRestartsTheBudget()
    ensures AllReadReliably(TheRun())
    ensures var log := Run(Factory(), TheRun()).log;
            && WrongSinceErased(log) == 2 && LimitInForce(log) == 1 && Overdrawn(log)
            && log.Snoc? && log.earlier.Snoc? && log.earlier.last.Wrong?
            && WrongSinceErased(log.earlier.earlier) == 1
            && Excused(log.earlier.earlier) && log.earlier.last.ms < Since(log.earlier.earlier) + Due(log.earlier.earlier)
  {
    hide Step, CountFrom;
    BootsAreReadable();
    var d1 := Step(Factory(), START);
    assert Unprovisioned(d1) && d1.log == Snoc(Empty, Booted(0)) by {
      FirstBoot();
    }
    var d2 := Step(d1, Ask(INIT, With([])));
    CleanInit(d1);
    CountIsFirstGap({}, 0, 0);
    var d3 := Step(d2, Ask(Unlock(GUESS), With([])));
    WrongGuess(d2);
    CountIsFirstGap({0}, 0, 1);
    assert d3.flash.marks == {0};
    var d4 := Step(d3, RECOVER);
    RecoveryBoot(d3);
    var d5 := Step(d4, Ask(Session.FactoryReset(true, None), With(RESET_TAPE)));
    StickyReset(d4);
    var d6 := Step(d5, Ask(INIT, With(INIT_TAPE)));
    StickyInit(d5);
    WrongGuess(d6);
    RunIsStages();
  }

  lemma BootsAreReadable()
    ensures AllReadReliably(TheRun())
  {
  }

  lemma FirstBoot()
    ensures var d := Step(Factory(), START);
            Unprovisioned(d) && d.log == Snoc(Empty, Booted(0))
  {
  }

  lemma RunIsStages()
    ensures Run(Factory(), TheRun()[..3]) == Step(Step(Step(Factory(), START), Ask(INIT, With([]))), Ask(Unlock(GUESS), With([])))
    ensures Run(Factory(), TheRun())
            == Step(Step(Step(Step(Step(Step(Step(Factory(), START), Ask(INIT, With([]))), Ask(Unlock(GUESS), With([]))), RECOVER),
                         Ask(Session.FactoryReset(true, None), With(RESET_TAPE))), Ask(INIT, With(INIT_TAPE))), Ask(Unlock(GUESS), With([])))
  {
    hide Step, Run;
    var r := TheRun();
    assert r[..1] == [] + [r[0]] && r[..2] == r[..1] + [r[1]] && r[..3] == r[..2] + [r[2]] && r[..4] == r[..3] + [r[3]];
    assert r[..5] == r[..4] + [r[4]] && r[..6] == r[..5] + [r[5]] && r == r[..6] + [r[6]];
    Unroll(Factory(), [], r[0]);
    Unroll(Factory(), r[..1], r[1]);
    Unroll(Factory(), r[..2], r[2]);
    Unroll(Factory(), r[..3], r[3]);
    Unroll(Factory(), r[..4], r[4]);
    Unroll(Factory(), r[..5], r[5]);
    Unroll(Factory(), r[..6], r[6]);
    assert Run(Factory(), []) == Factory() by {
      NoEvents(Factory());
    }
  }

  lemma NoEvents(d: Device)
    ensures Run(d, []) == d
  {
  }

  // --------------------------------------------------- an unreadable counter, reached

  /**
   * The spent device of the same run, after its third event: one boot that cannot
   * read the counter, and a second wrong PIN is evaluated with a limit of one.
   */
  lemma UnreadableCounterBeatsTheLimit()
    ensures var spent := Run(Factory(), TheRun()[..3]);
            var booted := Step(spent, Boot(0, false, Some(SECRET), Readable(true, true, true, false)));
            var guessed := Handle(booted.(tape := []), Unlock(GUESS), With([])).0;
            Spent(spent.log) == LimitInForce(spent.log) == 1 && Spent(guessed.log) == 2
  {
    hide Step, CountFrom, Handle;
    var d1 := Step(Factory(), START);
    FirstBoot();
    var d2 := Step(d1, Ask(INIT, With([])));
    CleanInit(d1);
    CountIsFirstGap({}, 0, 0);
    var d3 := Step(d2, Ask(Unlock(GUESS), With([])));
    WrongGuess(d2);
    CountIsFirstGap({0}, 0, 1);
    assert d3.flash.marks == {0};
    assert Run(Factory(), TheRun()[..3]) == d3 by {
      RunIsStages();
    }
    assert UnwrapSeed(PinKek(GUESS, Blob().salt, DEFAULT_ARGON, SECRET), Blob()).None? by {
      assert GUESS[0] != OWNERS_PIN[0];
    }
    Lockout.UnreadableCounterReopensThePin(d3, 0, SECRET, GUESS, With([]));
  }

  // ------------------------------------------------------------------ after any init

  /** What the history gains from a provisioning: with or without erasures of the counter. */
  predicate ProvisionedLog(log: Log, next: Log, limit: nat) {
    var base := Snoc(log, Provisioned(limit));
    next == base || next == Snoc(base, CounterErased) || next == Snoc(Snoc(base, CounterErased), CounterErased)
  }

  /** A successful production init leaves a locked session with the new key and no deadline. */
  ghost predicate FreshlyLocked(d: Device, e: Device, pin: string, limit: nat, draws: Draws) {
    && e.ram.state == ProdLocked && e.ram.backoffUntilMs == 0
    && d.ram.secret.Some? && e.ram.secret == d.ram.secret
    && e.ram.config.Some? && e.ram.config.value.argon2 == DEFAULT_ARGON
    && Latest(e.flash.key) == Some(WrapSeed(PinKek(pin, draws.salt, DEFAULT_ARGON, d.ram.secret.value), draws.seed,
                                            PublicOf(draws.seed), PinWrap, draws.salt, draws.nonce))
    && ProvisionedLog(d.log, e.log, limit)
    && e.time.nowUs == d.time.nowUs
  }

  lemma InitLocksFreshly(d: Device, pin: string, retries: Option<U8>, wipe: Option<bool>, draws: Draws, limit: nat)
    requires KeyCache.Cached(d, limit) && Powered(d) && limit < SEQUENCE_SPACE - 1
    requires HandleInitProd(d, Some(pin), retries, wipe, draws).1 == Success
    ensures FreshlyLocked(d, HandleInitProd(d, Some(pin), retries, wipe, draws).0, pin,
                          if retries.Some? then retries.value else 10, draws)
  {
    hide Provision, KeyCache.InAgreement;
    var d1 := Try(d).0;
    var d2 := Try(d1).0;
    var max: U8 := if retries.Some? then retries.value else 10;
    ProvisionLocksFreshly(d2, pin, d.ram.secret.value, DeviceConfig(Prod, DEFAULT_ARGON, max, wipe == Some(true)), draws, limit);
  }

  lemma ProvisionLocksFreshly(d: Device, pin: string, secret: Secret, cfg: DeviceConfig, draws: Draws, limit: nat)
    requires WellNumbered(d.flash.key, limit) && KeyCache.GenuineCopies(d.flash.key) && limit < SEQUENCE_SPACE - 1
    requires d.ram.secret == Some(secret) && cfg.argon2 == DEFAULT_ARGON
    requires Provision(d, PinKek(pin, draws.salt, DEFAULT_ARGON, secret), cfg, draws).1 == Success
    ensures FreshlyLocked(d, Provision(d, PinKek(pin, draws.salt, DEFAULT_ARGON, secret), cfg, draws).0, pin, cfg.maxRetries, draws)
  {
    hide WriteKey, WriteConfig, ResetCounterBestEffort, Latest;
    var blob := WrapSeed(PinKek(pin, draws.salt, DEFAULT_ARGON, secret), draws.seed, PublicOf(draws.seed), PinWrap, draws.salt, draws.nonce);
    KeyCache.WriteKeyStores(d, blob, limit);
    WriteKeyQuiet(d, blob);
    var d1 := WriteKey(d, blob).0;
    WriteConfigNotes(d1, cfg);
    var d2 := WriteConfig(d1, cfg).0;
    ResetCases(d2);
    ResetTakesNoTime(d2);
  }

  lemma ResetTakesNoTime(d: Device)
    ensures ResetCounterBestEffort(d).time.nowUs == d.time.nowUs
  {
  }

  lemma WriteKeyQuiet(d: Device, blob: KeyBlob)
    ensures WriteKey(d, blob).0.log == d.log && WriteKey(d, blob).0.time.nowUs == d.time.nowUs
  {
    hide WritePair;
  }

  lemma WriteConfigNotes(d: Device, cfg: DeviceConfig)
    ensures var (e, ok) := WriteConfig(d, cfg);
            && e.ram == d.ram && e.flash.key == d.flash.key && e.time.nowUs == d.time.nowUs
            && (ok ==> e.log == Snoc(d.log, Provisioned(cfg.maxRetries)))
  {
    hide WritePair;
  }

  lemma ProvisionedLogExcuses(log: Log, next: Log, limit: nat)
    requires ProvisionedLog(log, next, limit)
    ensures Excused(next) <==> WrongSinceErased(next) > 0
    ensures WrongSinceErased(next) == WrongSinceErased(log) || WrongSinceErased(next) == 0
  {
  }

  /**
   * The exception to the backoff is always open: after any successful production
   * init in any run, a wrong PIN is evaluated at once, whatever wrong PINs are
   * still on the counter; and the account is then excused exactly if some are.
   */
  lemma GuessAfterInitComesAtOnce(events: seq<Event>, pin: string, retries: Option<U8>, wipe: Option<bool>, env: Env, guess: string)
    requires AllReadReliably(events) && |events| < SEQUENCE_SPACE - 1 && guess != pin
    requires Powered(Run(Factory(), events))
    requires Handle(Run(Factory(), events).(tape := env.tape), InitProd(Some(pin), retries, wipe), env).1 == Success
    requires var e := Step(Run(Factory(), events), Ask(InitProd(Some(pin), retries, wipe), env));
             Powered(e) && Count(e.flash.marks) < SECTOR_LEN
    ensures var e := Step(Run(Factory(), events), Ask(InitProd(Some(pin), retries, wipe), env));
            var wrong := Snoc(e.log, Wrong(NowMs(e)));
            && (Excused(e.log) <==> WrongSinceErased(e.log) > 0)
            && GuessedWrong(e, guess)
            && (VerifyPin(e, guess, 0).0.log == wrong || VerifyPin(e, guess, 0).0.log == Snoc(wrong, EnteredLockout))
  {
    hide Run, HandleInitProd, VerifyPin, CountFrom, KeyCache.Cached, Latest;
    var d := Run(Factory(), events).(tape := env.tape);
    KeyCache.CacheAgreesWithFlash(events);
    KeyCache.TapeStaysCached(Run(Factory(), events), env.tape, |events|);
    InitLocksFreshly(d, pin, retries, wipe, env.draws, |events|);
    var e := Step(Run(Factory(), events), Ask(InitProd(Some(pin), retries, wipe), env));
    ProvisionedLogExcuses(d.log, e.log, if retries.Some? then retries.value else 10);
    GuessTakesNoTime(e, guess);
  }

  lemma GuessTakesNoTime(d: Device, guess: string)
    requires GuessedWrong(d, guess)
    ensures var e := VerifyPin(d, guess, 0).0;
            var wrong := Snoc(d.log, Wrong(NowMs(d)));
            e.log == wrong || e.log == Snoc(wrong, EnteredLockout)
  {
    hide VerifyPin, CountFrom;
    VerifyCases(d, guess, 0);
    NoFaultEvaluates(d, guess, 0);
    NoFaultTime(d, guess, 0);
  }

  /** Without faults only the derivation takes time. */
  lemma NoFaultTime(d: Device, pin: string, kdfUs: nat)
    requires CanEvaluate(d) && d.tape == [] && Count(d.flash.marks) < SECTOR_LEN
    ensures VerifyPin(d, pin, kdfUs).0.time == d.time.(nowUs := Later(d.time.nowUs, kdfUs))
  {
    hide CountFrom, BackoffMs;
  }
}
