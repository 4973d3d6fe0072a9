/**
 * The per-device secret in one-time-programmable fuses
 * (hsm-fw/src/otp_secret.rs).
 *
 * Reads are reliable. A write takes its effect from a tape: it may leave
 * anything in its row, report success or failure independently of that, or be
 * cut by a power loss, after which the rest of the boot changes nothing and
 * its result is lost. `log` records every write, oldest first.
 */
module OtpSecret {
  import opened Options
  import opened Bytes

  const SLOT_PAGES: seq<nat> := [61, 60]
  const ROWS_PER_PAGE: nat := 64
  const SECRET_ROWS: nat := 16
  const MARKER_VALID: nat := 0xA5C3
  const MARKER_VOID: nat := 0xDEAD
  const LOCK1_VALUE: nat := 0x3D_3D3D

  type Secret = s: seq<byte> | |s| == 32 witness Filled(0, 32)

  datatype Row = Word(value: nat) | Unreadable

  datatype WriteOutcome = WriteOutcome(left: Row, reported: bool, cut: bool)

  datatype OtpWrite = OtpWrite(row: nat, value: nat, before: Row, after: Row, cut: bool)

  datatype Fuses = Fuses(rows: map<nat, Row>, on: bool, tape: seq<WriteOutcome>, log: seq<OtpWrite>)

  datatype SlotState = ValidSlot(secret: Secret) | BlankSlot | Unusable

  datatype Loaded = Loaded(secret: Secret) | NoSecret | NoEntropy

  function BaseRow(page: nat): nat {
    page * ROWS_PER_PAGE
  }

  function MarkerRow(page: nat): nat {
    BaseRow(page) + SECRET_ROWS
  }

  function VoidRow(page: nat): nat {
    BaseRow(page) + SECRET_ROWS + 1
  }

  function LockRow(page: nat): nat {
    0xF80 + 2 * page + 1
  }

  /** A row that was never written reads zero. */
  function At(o: Fuses, row: nat): Row {
    if row in o.rows then o.rows[row] else Word(0)
  }

  function WriteRow(o: Fuses, row: nat, value: nat): (Fuses, bool) {
    if !o.on then (o, false)
    else
      var w := if o.tape == [] then WriteOutcome(Word(value), true, false) else o.tape[0];
      (Fuses(o.rows[row := w.left], !w.cut, if o.tape == [] then [] else o.tape[1..],
             o.log + [OtpWrite(row, value, At(o, row), w.left, w.cut)]),
       w.reported && !w.cut)
  }

  function WriteVerified(o: Fuses, row: nat, value: nat): (Fuses, bool) {
    var (written, ok) := WriteRow(o, row, value);
    (written, ok && At(written, row) == Word(value))
  }

  predicate HasLockBits(r: Row) {
    r.Word? && AndBits(r.value, LOCK1_VALUE, 24) == LOCK1_VALUE
  }

  function EnsureHardLock(o: Fuses, page: nat): (Fuses, bool) {
    if At(o, LockRow(page)).Unreadable? then (o, false)
    else if HasLockBits(At(o, LockRow(page))) then (o, true)
    else
      var (written, ok) := WriteRow(o, LockRow(page), LOCK1_VALUE);
      (written, ok && HasLockBits(At(written, LockRow(page))))
  }

  function VoidSlot(o: Fuses, page: nat): Fuses {
    WriteRow(o, VoidRow(page), MARKER_VOID).0
  }

  predicate Degenerate(s: Secret) {
    || (forall k :: 0 <= k < 32 ==> s[k] == 0)
    || (forall k :: 0 <= k < 32 ==> s[k] == 0xFF)
  }

  /** `u16::from_le_bytes` of one row's two bytes. */
  function WordAt(s: Secret, i: nat): nat
    requires i < SECRET_ROWS
  {
    (s[2 * i] as int) + 256 * (s[2 * i + 1] as int)
  }

  function SecretRow(o: Fuses, page: nat, i: nat): Row {
    At(o, BaseRow(page) + i)
  }

  predicate RowsReadable(o: Fuses, page: nat) {
    forall i :: 0 <= i < SECRET_ROWS ==> SecretRow(o, page, i).Word?
  }

  predicate RowsBlank(o: Fuses, page: nat) {
    forall i :: 0 <= i < SECRET_ROWS ==> SecretRow(o, page, i) == Word(0)
  }

  function LowByte(r: Row): byte {
    if r.Word? then r.value % 256 else 0
  }

  function HighByte(r: Row): byte {
    if r.Word? then r.value / 256 % 256 else 0
  }

  /** The secret as stored, two little-endian bytes a row. */
  function StoredSecret(o: Fuses, page: nat): Secret {
    seq(32, k requires 0 <= k < 32 =>
      var r := SecretRow(o, page, k / 2);
      if k % 2 == 0 then LowByte(r) else HighByte(r))
  }

  function TryLoad(o: Fuses, page: nat): (Fuses, SlotState) {
    var marker, void := At(o, MarkerRow(page)), At(o, VoidRow(page));
    if marker.Unreadable? || void.Unreadable? then (o, Unusable)
    else if void != Word(0) then (o, Unusable)
    else if marker == Word(MARKER_VALID) then
      if !RowsReadable(o, page) then (o, Unusable)
      else if Degenerate(StoredSecret(o, page)) then (VoidSlot(o, page), Unusable)
      else
        var (o1, locked) := EnsureHardLock(o, page);
        if !locked then (VoidSlot(o1, page), Unusable) else (o1, ValidSlot(StoredSecret(o, page)))
    else if marker != Word(0) then (VoidSlot(o, page), Unusable)
    else if RowsBlank(o, page) then (o, BlankSlot)
    else (VoidSlot(o, page), Unusable)
  }

  /** Burn rows `i` and on, each written and verified; stops at the first failure. */
  function BurnRows(o: Fuses, page: nat, s: Secret, i: nat): (Fuses, bool)
    requires i <= SECRET_ROWS
    decreases SECRET_ROWS - i
  {
    if i == SECRET_ROWS then (o, true)
    else
      var (o1, ok) := WriteVerified(o, BaseRow(page) + i, WordAt(s, i));
      if !ok then (o1, false) else BurnRows(o1, page, s, i + 1)
  }

  /** `provision`; `draw` is the conditioned randomness, absent when the entropy source fails. */
  function Provision(o: Fuses, page: nat, draw: Option<Secret>): (Fuses, Loaded) {
    if draw.None? || Degenerate(draw.value) then (o, NoEntropy)
    else
      var (o1, burned) := BurnRows(o, page, draw.value, 0);
      if !burned then (VoidSlot(o1, page), NoSecret)
      else
        var (o2, marked) := WriteVerified(o1, MarkerRow(page), MARKER_VALID);
        if !marked then (VoidSlot(o2, page), NoSecret)
        else
          var (o3, locked) := EnsureHardLock(o2, page);
          if !locked then (VoidSlot(o3, page), NoSecret) else (o3, Loaded(draw.value))
  }

  /** Lock the slots other than `page`, from the `j`-th on, best effort. */
  function LockOthers(o: Fuses, page: nat, j: nat): Fuses
    requires j <= 2
    decreases 2 - j
  {
    if j == 2 then o
    else LockOthers(if SLOT_PAGES[j] != page then EnsureHardLock(o, SLOT_PAGES[j]).0 else o, page, j + 1)
  }

  /** One slot's turn: the secret found or made there, if any. */
  function UseSlot(o: Fuses, page: nat, draw: Option<Secret>): (Fuses, Loaded) {
    var (o1, state) := TryLoad(o, page);
    match state
    case ValidSlot(s) => (o1, Loaded(s))
    case BlankSlot => Provision(o1, page, draw)
    case Unusable => (o1, NoSecret)
  }

  /** `load_or_provision` from the `k`-th slot on. */
  function LoadOrProvision(o: Fuses, draws: (Option<Secret>, Option<Secret>), k: nat): (Fuses, Loaded)
    requires k <= 2
    decreases 2 - k
  {
    if k == 2 then (o, NoSecret)
    else
      var page := SLOT_PAGES[k];
      var (o1, loaded) := UseSlot(o, page, if k == 0 then draws.0 else draws.1);
      match loaded
      case Loaded(s) => (LockOthers(o1, page, 0), Loaded(s))
      case NoEntropy => (o1, NoEntropy)
      case NoSecret => LoadOrProvision(o1, draws, k + 1)
  }

  datatype BootInput = BootInput(tape: seq<WriteOutcome>, draws: (Option<Secret>, Option<Secret>))

  /** One boot: the fuses it leaves, and its result unless power was lost. */
  function Boot(o: Fuses, b: BootInput): (Fuses, Option<Loaded>) {
    var (end, loaded) := LoadOrProvision(o.(on := true, tape := b.tape), b.draws, 0);
    (end, if end.on then Some(loaded) else None)
  }

  function BootRun(o: Fuses, boots: seq<BootInput>): Fuses {
    if boots == [] then o else Boot(BootRun(o, boots[..|boots| - 1]), boots[|boots| - 1]).0
  }

  function BlankFuses(): Fuses {
    Fuses(map[], false, [], [])
  }

  // ------------------------------------------------------------------- frames

  predicate IsSlot(page: nat) {
    page == 60 || page == 61
  }

  /** The rows that decide what a slot holds, except its lock. */
  predicate Holds(row: nat, page: nat) {
    BaseRow(page) <= row <= VoidRow(page)
  }

  /** The contents of one slot are the same in both. */
  ghost predicate SameSlot(o: Fuses, p: Fuses, page: nat) {
    forall row :: Holds(row, page) ==> At(o, row) == At(p, row)
  }

  /** `p` was reached from `o`: its log continues, and power does not come back. */
  predicate Continues(o: Fuses, p: Fuses) {
    && |o.log| <= |p.log| && p.log[..|o.log|] == o.log
    && (p.on ==> o.on)
  }

  lemma WriteFrame(o: Fuses, row: nat, value: nat)
    ensures var (p, ok) := WriteRow(o, row, value);
            && Continues(o, p)
            && (forall r :: r != row ==> At(p, r) == At(o, r))
            && (ok ==> p.on)
            && (o.on ==> |p.log| == |o.log| + 1
                         && p.log[|o.log|] == OtpWrite(row, value, At(o, row), At(p, row), !p.on))
            && (!o.on ==> p == o)
  {
  }

  lemma SameSlotReads(o: Fuses, p: Fuses, page: nat)
    requires SameSlot(o, p, page)
    ensures StoredSecret(o, page) == StoredSecret(p, page)
    ensures RowsReadable(o, page) == RowsReadable(p, page)
    ensures RowsBlank(o, page) == RowsBlank(p, page)
    ensures At(o, MarkerRow(page)) == At(p, MarkerRow(page)) && At(o, VoidRow(page)) == At(p, VoidRow(page))
  {
    assert Holds(MarkerRow(page), page) && Holds(VoidRow(page), page);
    forall i | 0 <= i < SECRET_ROWS ensures SecretRow(o, page, i) == SecretRow(p, page, i) {
      assert Holds(BaseRow(page) + i, page);
    }
  }

  lemma LockFrame(o: Fuses, page: nat, other: nat)
    requires IsSlot(page) && IsSlot(other)
    ensures var (p, ok) := EnsureHardLock(o, page);
            && Continues(o, p)
            && SameSlot(o, p, other)
            && (page != other ==> At(p, LockRow(other)) == At(o, LockRow(other)))
            && (ok ==> HasLockBits(At(p, LockRow(page))))
            && (HasLockBits(At(o, LockRow(page))) ==> p == o && ok)
  {
    hide AndBits, WriteRow, At;
    WriteFrame(o, LockRow(page), LOCK1_VALUE);
  }

  // -------------------------------------------------------------- slot states

  /** The slot holds this secret, complete and locked. */
  predicate Live(o: Fuses, page: nat, s: Secret) {
    && At(o, MarkerRow(page)) == Word(MARKER_VALID)
    && At(o, VoidRow(page)) == Word(0)
    && RowsReadable(o, page) && StoredSecret(o, page) == s && !Degenerate(s)
    && HasLockBits(At(o, LockRow(page)))
  }

  /** The slot can never be accepted nor provisioned again. */
  predicate Dead(o: Fuses, page: nat) {
    var marker := At(o, MarkerRow(page));
    || marker.Unreadable?
    || At(o, VoidRow(page)) != Word(0)
    || (marker == Word(0) && !RowsBlank(o, page))
    || (marker == Word(MARKER_VALID) && (!RowsReadable(o, page) || Degenerate(StoredSecret(o, page))))
    || (marker != Word(0) && marker != Word(MARKER_VALID))
  }

  lemma LiveLoads(o: Fuses, page: nat, s: Secret)
    requires Live(o, page, s)
    ensures TryLoad(o, page) == (o, ValidSlot(s))
  {
  }

  lemma VoidFrame(o: Fuses, page: nat, other: nat)
    requires IsSlot(page) && IsSlot(other)
    ensures var p := VoidSlot(o, page);
            && Continues(o, p)
            && (page != other ==> SameSlot(o, p, other))
            && At(p, LockRow(other)) == At(o, LockRow(other))
            && At(p, MarkerRow(page)) == At(o, MarkerRow(page))
            && StoredSecret(p, page) == StoredSecret(o, page)
            && RowsReadable(p, page) == RowsReadable(o, page)
            && RowsBlank(p, page) == RowsBlank(o, page)
  {
    WriteFrame(o, VoidRow(page), MARKER_VOID);
    var p := VoidSlot(o, page);
    assert forall i :: 0 <= i < SECRET_ROWS ==> SecretRow(o, page, i) == SecretRow(p, page, i);
  }

  /** A dead slot is skipped and stays dead, whatever the void write does. */
  lemma DeadStaysDead(o: Fuses, page: nat)
    requires IsSlot(page) && Dead(o, page)
    ensures TryLoad(o, page).1 == Unusable
    ensures Dead(TryLoad(o, page).0, page)
  {
    hide VoidSlot;
    VoidFrame(o, page, page);
  }

  lemma DeadFrame(o: Fuses, p: Fuses, page: nat)
    requires Dead(o, page) && SameSlot(o, p, page)
    ensures Dead(p, page)
  {
    SameSlotReads(o, p, page);
  }

  lemma LiveFrame(o: Fuses, p: Fuses, page: nat, s: Secret)
    requires Live(o, page, s) && SameSlot(o, p, page) && At(p, LockRow(page)) == At(o, LockRow(page))
    ensures Live(p, page, s)
  {
    SameSlotReads(o, p, page);
  }

  // ---------------------------------------------------------------- the log

  /** Every void write that was not cut left its row non-blank. */
  ghost predicate VoidsTakeEffect(log: seq<OtpWrite>) {
    forall i :: 0 <= i < |log| && !log[i].cut && (log[i].row == VoidRow(60) || log[i].row == VoidRow(61))
      ==> log[i].after != Word(0)
  }

  predicate IsBurned(row: nat) {
    BaseRow(60) <= row <= MarkerRow(60) || BaseRow(61) <= row <= MarkerRow(61)
  }

  /** Secret and marker rows were only ever written while blank. */
  ghost predicate BurnsOnlyBlank(log: seq<OtpWrite>) {
    forall i :: 0 <= i < |log| && IsBurned(log[i].row) ==> log[i].before == Word(0)
  }

  /** The writes of one complete provisioning from row `i` on: each over a blank row, each read back. */
  function BurnTrace(page: nat, s: Secret, i: nat): seq<OtpWrite>
    requires i <= SECRET_ROWS
    decreases SECRET_ROWS - i
  {
    if i == SECRET_ROWS then []
    else [OtpWrite(BaseRow(page) + i, WordAt(s, i), Word(0), Word(WordAt(s, i)), false)] + BurnTrace(page, s, i + 1)
  }

  ghost predicate Occurs(log: seq<OtpWrite>, trace: seq<OtpWrite>) {
    exists before, after :: log == before + trace + after
  }

  lemma OccursLater(o: Fuses, p: Fuses, trace: seq<OtpWrite>)
    requires Continues(o, p) && Occurs(o.log, trace)
    ensures Occurs(p.log, trace)
  {
    var before, after :| o.log == before + trace + after;
    assert p.log == before + trace + (after + p.log[|o.log|..]);
  }

  lemma EffectOfPrefix(o: Fuses, p: Fuses)
    requires Continues(o, p) && VoidsTakeEffect(p.log)
    ensures VoidsTakeEffect(o.log)
  {
    forall i | 0 <= i < |o.log| ensures o.log[i] == p.log[i] {
      assert o.log[i] == p.log[..|o.log|][i];
    }
  }

  lemma OneMoreWrite(o: Fuses, row: nat, value: nat)
    requires BurnsOnlyBlank(o.log) && (IsBurned(row) ==> At(o, row) == Word(0))
    ensures BurnsOnlyBlank(WriteRow(o, row, value).0.log)
  {
    WriteFrame(o, row, value);
    var p := WriteRow(o, row, value).0;
    forall i | 0 <= i < |o.log| ensures o.log[i] == p.log[i] {
      assert o.log[i] == p.log[..|o.log|][i];
    }
  }

  /** A void write that completes leaves a dead slot. */
  lemma VoidKills(o: Fuses, page: nat)
    requires IsSlot(page)
    requires var p := VoidSlot(o, page); p.on && VoidsTakeEffect(p.log)
    ensures Dead(VoidSlot(o, page), page)
  {
    WriteFrame(o, VoidRow(page), MARKER_VOID);
  }

  // -------------------------------------------------------------- one attempt

  lemma TryLoadEffect(o: Fuses, page: nat, other: nat)
    requires IsSlot(page) && IsSlot(other) && other != page
    ensures var (p, state) := TryLoad(o, page);
            && (state.ValidSlot? || state.BlankSlot? || state.Unusable?)
            && Continues(o, p)
            && SameSlot(o, p, other) && At(p, LockRow(other)) == At(o, LockRow(other))
            && At(p, MarkerRow(page)) == At(o, MarkerRow(page)) && StoredSecret(p, page) == StoredSecret(o, page)
            && (state.ValidSlot? ==> Live(p, page, state.secret))
            && (state.BlankSlot? ==> p == o && RowsBlank(o, page) && At(o, MarkerRow(page)) == Word(0)
                                     && At(o, VoidRow(page)) == Word(0))
            && (state.Unusable? && p.on && VoidsTakeEffect(p.log) ==> Dead(p, page))
            && (BurnsOnlyBlank(o.log) ==> BurnsOnlyBlank(p.log))
  {
    hide VoidSlot, EnsureHardLock, HasLockBits, Degenerate, BurnsOnlyBlank, VoidsTakeEffect, At;
    VoidFrame(o, page, page);
    VoidFrame(o, page, other);
    LockFrame(o, page, page);
    LockFrame(o, page, other);
    var o1 := EnsureHardLock(o, page).0;
    SameSlotReads(o, o1, page);
    VoidFrame(o1, page, page);
    VoidFrame(o1, page, other);
    if Dead(o, page) {
      DeadStaysDead(o, page);
    } else if VoidSlot(o1, page).on && VoidsTakeEffect(VoidSlot(o1, page).log) {
      VoidKills(o1, page);
    }
    SideWrites(o, page);
    SideWrites(o1, page);
  }

  /** Lock and void writes burn no secret or marker row. */
  lemma SideWrites(o: Fuses, page: nat)
    requires IsSlot(page)
    ensures BurnsOnlyBlank(o.log) ==> BurnsOnlyBlank(VoidSlot(o, page).log)
    ensures BurnsOnlyBlank(o.log) ==> BurnsOnlyBlank(EnsureHardLock(o, page).0.log)
  {
    if BurnsOnlyBlank(o.log) {
      OneMoreWrite(o, VoidRow(page), MARKER_VOID);
      OneMoreWrite(o, LockRow(page), LOCK1_VALUE);
    }
  }

  /** Nothing but secret rows from `i` on has changed. */
  ghost predicate OnlyRowsFrom(o: Fuses, p: Fuses, page: nat, i: nat) {
    forall row: nat :: !(BaseRow(page) + i <= row < MarkerRow(page)) ==> At(p, row) == At(o, row)
  }

  lemma BurnOneRow(o: Fuses, page: nat, s: Secret, i: nat)
    requires IsSlot(page) && i < SECRET_ROWS && SecretRow(o, page, i) == Word(0)
    ensures var (p, ok) := WriteVerified(o, BaseRow(page) + i, WordAt(s, i));
            && Continues(o, p)
            && OnlyRowsFrom(o, p, page, i)
            && (forall j :: j != i && 0 <= j ==> SecretRow(p, page, j) == SecretRow(o, page, j))
            && (ok ==> SecretRow(p, page, i) == Word(WordAt(s, i)))
            && (ok ==> p.log == o.log + [OtpWrite(BaseRow(page) + i, WordAt(s, i), Word(0), Word(WordAt(s, i)), false)])
            && (BurnsOnlyBlank(o.log) ==> BurnsOnlyBlank(p.log))
  {
    var row := BaseRow(page) + i;
    WriteFrame(o, row, WordAt(s, i));
    if BurnsOnlyBlank(o.log) {
      OneMoreWrite(o, row, WordAt(s, i));
    }
  }

  lemma ContinuesOn(o: Fuses, p: Fuses, q: Fuses)
    requires Continues(o, p) && Continues(p, q)
    ensures Continues(o, q)
  {
    assert q.log[..|o.log|] == q.log[..|p.log|][..|o.log|];
  }

  lemma {:induction false} BurnRowsEffect(o: Fuses, page: nat, s: Secret, i: nat)
    requires IsSlot(page) && i <= SECRET_ROWS
    requires forall j :: i <= j < SECRET_ROWS ==> SecretRow(o, page, j) == Word(0)
    ensures var (p, ok) := BurnRows(o, page, s, i);
            && Continues(o, p)
            && OnlyRowsFrom(o, p, page, i)
            && (ok ==> forall j :: i <= j < SECRET_ROWS ==> SecretRow(p, page, j) == Word(WordAt(s, j)))
            && (ok ==> p.log == o.log + BurnTrace(page, s, i))
            && (BurnsOnlyBlank(o.log) ==> BurnsOnlyBlank(p.log))
    decreases SECRET_ROWS - i
  {
    hide WriteVerified, BurnsOnlyBlank, WordAt, At;
    if i < SECRET_ROWS {
      BurnOneRow(o, page, s, i);
      var (o1, ok) := WriteVerified(o, BaseRow(page) + i, WordAt(s, i));
      if ok {
        BurnRowsEffect(o1, page, s, i + 1);
        var (p, done) := BurnRows(o1, page, s, i + 1);
        ContinuesOn(o, o1, p);
        assert SecretRow(p, page, i) == SecretRow(o1, page, i);
      }
    }
  }

  /** Bytes written as little-endian words read back as the same bytes. */
  lemma BurnedSecretReadsBack(o: Fuses, page: nat, s: Secret)
    requires forall j :: 0 <= j < SECRET_ROWS ==> SecretRow(o, page, j) == Word(WordAt(s, j))
    ensures RowsReadable(o, page) && StoredSecret(o, page) == s
  {
    hide SecretRow;
    var t := StoredSecret(o, page);
    forall k | 0 <= k < 32 ensures t[k] == s[k] {
      var i := k / 2;
      assert SecretRow(o, page, i) == Word(WordAt(s, i));
      SplitWord(s[2 * i], s[2 * i + 1]);
    }
  }

  lemma SplitWord(low: byte, high: byte)
    ensures var w := (low as int) + 256 * (high as int);
            w % 256 == low && w / 256 % 256 == high
  {
  }

  /** A slot marked valid holds a secret that one provisioning burned and verified completely. */
  ghost predicate Proven(o: Fuses, page: nat) {
    At(o, MarkerRow(page)) == Word(MARKER_VALID) ==> Occurs(o.log, BurnTrace(page, StoredSecret(o, page), 0))
  }

  /** What one slot's turn leaves, whether the slot was loaded, provisioned or given up. */
  ghost predicate SlotTurn(o: Fuses, page: nat, other: nat, p: Fuses, loaded: Loaded) {
    && Continues(o, p)
    && SameSlot(o, p, other) && At(p, LockRow(other)) == At(o, LockRow(other))
    && (loaded.Loaded? ==> Live(p, page, loaded.secret))
    && (loaded.NoSecret? && p.on && VoidsTakeEffect(p.log) ==> Dead(p, page))
    && (BurnsOnlyBlank(o.log) ==> BurnsOnlyBlank(p.log))
    && (Proven(o, page) ==> Proven(p, page))
  }

  /** Giving up a slot: a void write after any failure. */
  lemma GiveUp(o: Fuses, mid: Fuses, page: nat, other: nat)
    requires IsSlot(page) && IsSlot(other) && other != page
    requires Continues(o, mid) && SameSlot(o, mid, other) && At(mid, LockRow(other)) == At(o, LockRow(other))
    requires BurnsOnlyBlank(o.log) ==> BurnsOnlyBlank(mid.log)
    requires Proven(mid, page)
    ensures SlotTurn(o, page, other, VoidSlot(mid, page), NoSecret)
  {
    hide VoidSlot, BurnsOnlyBlank, StoredSecret, Occurs, VoidsTakeEffect;
    VoidFrame(mid, page, page);
    VoidFrame(mid, page, other);
    var p := VoidSlot(mid, page);
    ContinuesOn(o, mid, p);
    SideWrites(mid, page);
    if p.on && VoidsTakeEffect(p.log) {
      VoidKills(mid, page);
    }
    if At(p, MarkerRow(page)) == Word(MARKER_VALID) {
      OccursLater(mid, p, BurnTrace(page, StoredSecret(mid, page), 0));
    }
  }

  lemma ProvisionTurn(o: Fuses, page: nat, other: nat, draw: Option<Secret>)
    requires IsSlot(page) && IsSlot(other) && other != page
    requires RowsBlank(o, page) && At(o, MarkerRow(page)) == Word(0) && At(o, VoidRow(page)) == Word(0)
    ensures var (p, loaded) := Provision(o, page, draw);
            (loaded.Loaded? || loaded.NoSecret? || loaded.NoEntropy?) && SlotTurn(o, page, other, p, loaded)
  {
    hide BurnRows, WriteVerified, EnsureHardLock, VoidSlot, HasLockBits, Degenerate, BurnsOnlyBlank, VoidsTakeEffect, BurnTrace;
    if draw.Some? && !Degenerate(draw.value) {
      var s := draw.value;
      BurnRowsEffect(o, page, s, 0);
      var (o1, burned) := BurnRows(o, page, s, 0);
      if !burned {
        GiveUp(o, o1, page, other);
      } else {
        MarkBurned(o, o1, page, other, s);
        var (o2, marked) := WriteVerified(o1, MarkerRow(page), MARKER_VALID);
        if !marked {
          GiveUp(o, o2, page, other);
        } else {
          LockMarked(o, o2, page, other, s);
          var (o3, locked) := EnsureHardLock(o2, page);
          if !locked {
            GiveUp(o, o3, page, other);
          }
        }
      }
    }
  }

  /** Writing the marker over verified rows keeps the slot accounted for, whatever the write leaves. */
  lemma MarkBurned(o: Fuses, o1: Fuses, page: nat, other: nat, s: Secret)
    requires IsSlot(page) && IsSlot(other) && other != page
    requires Continues(o, o1) && OnlyRowsFrom(o, o1, page, 0) && At(o, MarkerRow(page)) == Word(0)
    requires forall j :: 0 <= j < SECRET_ROWS ==> SecretRow(o1, page, j) == Word(WordAt(s, j))
    requires o1.log == o.log + BurnTrace(page, s, 0)
    requires BurnsOnlyBlank(o.log) ==> BurnsOnlyBlank(o1.log)
    ensures var (o2, ok) := WriteVerified(o1, MarkerRow(page), MARKER_VALID);
            && Continues(o, o2) && SameSlot(o, o2, other) && At(o2, LockRow(other)) == At(o, LockRow(other))
            && RowsReadable(o2, page) && StoredSecret(o2, page) == s
            && At(o2, VoidRow(page)) == At(o, VoidRow(page))
            && (ok ==> At(o2, MarkerRow(page)) == Word(MARKER_VALID))
            && (BurnsOnlyBlank(o.log) ==> BurnsOnlyBlank(o2.log))
            && Occurs(o2.log, BurnTrace(page, s, 0))
  {
    hide BurnsOnlyBlank, BurnTrace;
    WriteFrame(o1, MarkerRow(page), MARKER_VALID);
    var o2 := WriteVerified(o1, MarkerRow(page), MARKER_VALID).0;
    ContinuesOn(o, o1, o2);
    forall j | 0 <= j < SECRET_ROWS ensures SecretRow(o2, page, j) == Word(WordAt(s, j)) {
      assert SecretRow(o1, page, j) == Word(WordAt(s, j));
    }
    BurnedSecretReadsBack(o2, page, s);
    if BurnsOnlyBlank(o.log) {
      OneMoreWrite(o1, MarkerRow(page), MARKER_VALID);
    }
    assert o1.log == o.log + BurnTrace(page, s, 0) + [];
    OccursLater(o1, o2, BurnTrace(page, s, 0));
  }

  lemma LockMarked(o: Fuses, o2: Fuses, page: nat, other: nat, s: Secret)
    requires IsSlot(page) && IsSlot(other) && other != page
    requires Continues(o, o2) && SameSlot(o, o2, other) && At(o2, LockRow(other)) == At(o, LockRow(other))
    requires RowsReadable(o2, page) && StoredSecret(o2, page) == s && !Degenerate(s)
    requires At(o2, VoidRow(page)) == Word(0) && At(o2, MarkerRow(page)) == Word(MARKER_VALID)
    requires BurnsOnlyBlank(o.log) ==> BurnsOnlyBlank(o2.log)
    requires Occurs(o2.log, BurnTrace(page, s, 0))
    ensures var (o3, ok) := EnsureHardLock(o2, page);
            && Continues(o, o3) && SameSlot(o, o3, other) && At(o3, LockRow(other)) == At(o, LockRow(other))
            && (BurnsOnlyBlank(o.log) ==> BurnsOnlyBlank(o3.log))
            && Proven(o3, page)
            && (ok ==> Live(o3, page, s))
  {
    hide EnsureHardLock, HasLockBits, Degenerate, BurnsOnlyBlank, BurnTrace, Occurs;
    LockFrame(o2, page, page);
    LockFrame(o2, page, other);
    var o3 := EnsureHardLock(o2, page).0;
    ContinuesOn(o, o2, o3);
    SameSlotReads(o2, o3, page);
    SideWrites(o2, page);
    OccursLater(o2, o3, BurnTrace(page, s, 0));
  }

  lemma UseSlotTurn(o: Fuses, page: nat, other: nat, draw: Option<Secret>)
    requires IsSlot(page) && IsSlot(other) && other != page
    ensures var (p, loaded) := UseSlot(o, page, draw);
            (loaded.Loaded? || loaded.NoSecret? || loaded.NoEntropy?) && SlotTurn(o, page, other, p, loaded)
  {
    hide TryLoad, Provision, BurnsOnlyBlank, VoidsTakeEffect, Occurs, StoredSecret;
    TryLoadEffect(o, page, other);
    var (p, state) := TryLoad(o, page);
    if state.BlankSlot? {
      ProvisionTurn(o, page, other, draw);
    } else if Proven(o, page) && At(o, MarkerRow(page)) == Word(MARKER_VALID) {
      OccursLater(o, p, BurnTrace(page, StoredSecret(o, page), 0));
    }
  }

  // -------------------------------------------------------------- whole boots

  /** Locking the spare slot after `page` delivered its secret. */
  function FinishBoot(o: Fuses, page: nat, loaded: Loaded): Fuses
    requires IsSlot(page)
  {
    if loaded.Loaded? then EnsureHardLock(o, 121 - page).0 else o
  }

  lemma LoadUnrolled(o: Fuses, draws: (Option<Secret>, Option<Secret>))
    ensures var (o1, l1) := UseSlot(o, 61, draws.0);
            var (o2, l2) := UseSlot(o1, 60, draws.1);
            LoadOrProvision(o, draws, 0)
            == if l1.NoSecret? then (FinishBoot(o2, 60, l2), l2) else (FinishBoot(o1, 61, l1), l1)
  {
    hide UseSlot, EnsureHardLock;
    var (o1, l1) := UseSlot(o, 61, draws.0);
    var (o2, l2) := UseSlot(o1, 60, draws.1);
    assert LockOthers(o1, 61, 0) == LockOthers(o1, 61, 1) == LockOthers(EnsureHardLock(o1, 60).0, 61, 2);
    assert LockOthers(o2, 60, 0) == LockOthers(EnsureHardLock(o2, 61).0, 60, 1) == LockOthers(EnsureHardLock(o2, 61).0, 60, 2);
    assert LoadOrProvision(o1, draws, 1) == (FinishBoot(o2, 60, l2), l2) by {
      assert l2.NoSecret? ==> LoadOrProvision(o2, draws, 2) == (o2, NoSecret);
    }
  }

  /** The device has its secret: the first usable slot holds it, complete and locked. */
  predicate Settled(o: Fuses, s: Secret) {
    Live(o, 61, s) || (Dead(o, 61) && Live(o, 60, s))
  }

  lemma SameSlotReflexive(o: Fuses)
    ensures SameSlot(o, o, 60) && SameSlot(o, o, 61)
  {
  }

  lemma FinishKeeps(o: Fuses, page: nat, loaded: Loaded)
    requires IsSlot(page)
    ensures var p := FinishBoot(o, page, loaded);
            && Continues(o, p) && SameSlot(o, p, 60) && SameSlot(o, p, 61)
            && At(p, LockRow(page)) == At(o, LockRow(page))
            && (BurnsOnlyBlank(o.log) ==> BurnsOnlyBlank(p.log))
  {
    hide EnsureHardLock, BurnsOnlyBlank, HasLockBits, At, SameSlot;
    assert SameSlot(o, o, 60) && SameSlot(o, o, 61) by {
      SameSlotReflexive(o);
    }
    LockFrame(o, 121 - page, 60);
    LockFrame(o, 121 - page, 61);
    SideWrites(o, 121 - page);
  }

  lemma BootSettles(o: Fuses, b: BootInput)
    ensures var (p, result) := Boot(o, b);
            result.Some? && result.value.Loaded? && VoidsTakeEffect(p.log) ==> Settled(p, result.value.secret)
  {
    hide UseSlot, LoadOrProvision, FinishBoot, Live, Dead, VoidsTakeEffect;
    var o0 := o.(on := true, tape := b.tape);
    LoadUnrolled(o0, b.draws);
    UseSlotTurn(o0, 61, 60, b.draws.0);
    var (o1, l1) := UseSlot(o0, 61, b.draws.0);
    FinishKeeps(o1, 61, l1);
    var (p, result) := Boot(o, b);
    if l1.Loaded? {
      LiveFrame(o1, FinishBoot(o1, 61, l1), 61, l1.secret);
    } else if l1.NoSecret? {
      UseSlotTurn(o1, 60, 61, b.draws.1);
      var (o2, l2) := UseSlot(o1, 60, b.draws.1);
      FinishKeeps(o2, 60, l2);
      if l2.Loaded? && p.on && VoidsTakeEffect(p.log) {
        LiveFrame(o2, p, 60, l2.secret);
        ContinuesOn(o1, o2, p);
        EffectOfPrefix(o1, p);
        DeadFrame(o1, o2, 61);
        DeadFrame(o2, p, 61);
      }
    }
  }

  /** Once settled, every boot returns that secret unless power is lost, and leaves the device settled. */
  lemma SettledStays(o: Fuses, b: BootInput, s: Secret)
    requires Settled(o, s)
    ensures var (p, result) := Boot(o, b);
            && Settled(p, s)
            && (result == None || result == Some(Loaded(s)))
  {
    hide UseSlot, LoadOrProvision, FinishBoot, Live, Dead;
    var o0 := o.(on := true, tape := b.tape);
    LoadUnrolled(o0, b.draws);
    if Live(o, 61, s) {
      LiveFrame(o, o0, 61, s);
      LiveUse(o0, 61, s, b.draws.0);
      FinishKeeps(o0, 61, Loaded(s));
      LiveFrame(o0, FinishBoot(o0, 61, Loaded(s)), 61, s);
    } else {
      DeadFrame(o, o0, 61);
      LiveFrame(o, o0, 60, s);
      DeadUse(o0, 61, 60, b.draws.0);
      var o1 := UseSlot(o0, 61, b.draws.0).0;
      LiveFrame(o0, o1, 60, s);
      LiveUse(o1, 60, s, b.draws.1);
      FinishKeeps(o1, 60, Loaded(s));
      var p := FinishBoot(o1, 60, Loaded(s));
      LiveFrame(o1, p, 60, s);
      DeadFrame(o1, p, 61);
    }
  }

  lemma LiveUse(o: Fuses, page: nat, s: Secret, draw: Option<Secret>)
    requires Live(o, page, s)
    ensures UseSlot(o, page, draw) == (o, Loaded(s))
  {
    hide TryLoad;
    LiveLoads(o, page, s);
  }

  lemma DeadUse(o: Fuses, page: nat, other: nat, draw: Option<Secret>)
    requires IsSlot(page) && IsSlot(other) && other != page && Dead(o, page)
    ensures var (p, loaded) := UseSlot(o, page, draw);
            && loaded == NoSecret && Dead(p, page)
            && SameSlot(o, p, other) && At(p, LockRow(other)) == At(o, LockRow(other))
  {
    hide TryLoad, Dead;
    DeadStaysDead(o, page);
    TryLoadEffect(o, page, other);
  }

  /** What every boot keeps: nothing burned twice, and no slot marked valid without a full provisioning. */
  ghost predicate Audited(o: Fuses) {
    BurnsOnlyBlank(o.log) && Proven(o, 60) && Proven(o, 61)
  }

  lemma ProvenFrame(o: Fuses, p: Fuses, page: nat)
    requires Proven(o, page) && SameSlot(o, p, page) && Continues(o, p)
    ensures Proven(p, page)
  {
    SameSlotReads(o, p, page);
    if At(o, MarkerRow(page)) == Word(MARKER_VALID) {
      OccursLater(o, p, BurnTrace(page, StoredSecret(o, page), 0));
    }
  }

  lemma TurnAudited(o: Fuses, page: nat, other: nat, draw: Option<Secret>)
    requires IsSlot(page) && IsSlot(other) && other != page && Audited(o)
    ensures Audited(UseSlot(o, page, draw).0)
  {
    hide UseSlot, Proven, BurnsOnlyBlank, VoidsTakeEffect;
    UseSlotTurn(o, page, other, draw);
    ProvenFrame(o, UseSlot(o, page, draw).0, other);
  }

  lemma FinishAudited(o: Fuses, page: nat, loaded: Loaded)
    requires IsSlot(page) && Audited(o)
    ensures Audited(FinishBoot(o, page, loaded))
  {
    hide FinishBoot, Proven, BurnsOnlyBlank;
    FinishKeeps(o, page, loaded);
    ProvenFrame(o, FinishBoot(o, page, loaded), 60);
    ProvenFrame(o, FinishBoot(o, page, loaded), 61);
  }

  lemma BootAudited(o: Fuses, b: BootInput)
    requires Audited(o)
    ensures Audited(Boot(o, b).0)
  {
    hide UseSlot, LoadOrProvision, FinishBoot, Audited;
    var o0 := o.(on := true, tape := b.tape);
    assert Audited(o0) by {
      PowerAudited(o, b.tape);
    }
    LoadUnrolled(o0, b.draws);
    TurnAudited(o0, 61, 60, b.draws.0);
    var (o1, l1) := UseSlot(o0, 61, b.draws.0);
    FinishAudited(o1, 61, l1);
    TurnAudited(o1, 60, 61, b.draws.1);
    var (o2, l2) := UseSlot(o1, 60, b.draws.1);
    FinishAudited(o2, 60, l2);
  }

  lemma PowerAudited(o: Fuses, tape: seq<WriteOutcome>)
    requires Audited(o)
    ensures Audited(o.(on := true, tape := tape))
  {
    hide BurnsOnlyBlank, Occurs;
    var o0 := o.(on := true, tape := tape);
    assert SameSlot(o, o0, 60) && SameSlot(o, o0, 61);
    SameSlotReads(o, o0, 60);
    SameSlotReads(o, o0, 61);
  }

  lemma {:induction false} RunAudited(boots: seq<BootInput>)
    ensures Audited(BootRun(BlankFuses(), boots))
  {
    hide Boot, Audited;
    if boots == [] {
      assert Audited(BlankFuses()) by {
        BlankAudited();
      }
    } else {
      RunAudited(boots[..|boots| - 1]);
      BootAudited(BootRun(BlankFuses(), boots[..|boots| - 1]), boots[|boots| - 1]);
    }
  }

  lemma BlankAudited()
    ensures Audited(BlankFuses())
  {
  }

  // ------------------------------------------------------------------ theorems

  /**
   * From blank fuses, with power lost at any writes of any boots: every secret
   * a boot returns was burned row by row over blank rows and verified in one
   * uninterrupted provisioning, is not degenerate, and is locked; and no secret
   * or marker row was ever written over a non-blank one.
   */
  lemma ReturnedSecretWasBurnedWhole(boots: seq<BootInput>, b: BootInput)
    ensures var (end, result) := Boot(BootRun(BlankFuses(), boots), b);
            && BurnsOnlyBlank(end.log)
            && (result.Some? && result.value.Loaded? ==>
                  var s := result.value.secret;
                  && (exists page :: IsSlot(page) && Live(end, page, s) && Occurs(end.log, BurnTrace(page, s, 0)))
                  && (exists k :: 0 <= k < 32 && s[k] != 0x00) && (exists k :: 0 <= k < 32 && s[k] != 0xFF))
  {
    hide Boot, BootRun, Live, Occurs, BurnsOnlyBlank;
    RunAudited(boots + [b]);
    assert (boots + [b])[..|boots|] == boots;
    var o := BootRun(BlankFuses(), boots);
    assert BootRun(BlankFuses(), boots + [b]) == Boot(o, b).0 by {
      RunSnoc(boots, b);
    }
    var (end, result) := Boot(o, b);
    if result.Some? && result.value.Loaded? {
      var page := LoadedIsLive(o, b);
      assert Proven(end, page);
      LiveParts(end, page, result.value.secret);
      LiveIsNotDegenerate(end, page, result.value.secret);
    }
  }

  lemma RunSnoc(boots: seq<BootInput>, b: BootInput)
    ensures BootRun(BlankFuses(), boots + [b]) == Boot(BootRun(BlankFuses(), boots), b).0
  {
    hide Boot;
    assert (boots + [b])[..|boots|] == boots;
  }

  lemma LiveIsNotDegenerate(o: Fuses, page: nat, s: Secret)
    requires Live(o, page, s)
    ensures (exists k :: 0 <= k < 32 && s[k] != 0x00) && (exists k :: 0 <= k < 32 && s[k] != 0xFF)
  {
    assert !(forall k :: 0 <= k < 32 ==> s[k] == 0) && !(forall k :: 0 <= k < 32 ==> s[k] == 0xFF);
  }

  lemma LiveParts(o: Fuses, page: nat, s: Secret)
    requires Live(o, page, s)
    ensures At(o, MarkerRow(page)) == Word(MARKER_VALID) && StoredSecret(o, page) == s
  {
  }

  lemma LoadedIsLive(o: Fuses, b: BootInput) returns (page: nat)
    requires Boot(o, b).1.Some? && Boot(o, b).1.value.Loaded?
    ensures IsSlot(page) && Live(Boot(o, b).0, page, Boot(o, b).1.value.secret)
  {
    hide UseSlot, LoadOrProvision, FinishBoot, Live, Dead, VoidsTakeEffect;
    var o0 := o.(on := true, tape := b.tape);
    LoadUnrolled(o0, b.draws);
    UseSlotTurn(o0, 61, 60, b.draws.0);
    var (o1, l1) := UseSlot(o0, 61, b.draws.0);
    FinishKeeps(o1, 61, l1);
    UseSlotTurn(o1, 60, 61, b.draws.1);
    var (o2, l2) := UseSlot(o1, 60, b.draws.1);
    FinishKeeps(o2, 60, l2);
    if l1.Loaded? {
      LiveFrame(o1, FinishBoot(o1, 61, l1), 61, l1.secret);
      page := 61;
    } else {
      LiveFrame(o2, FinishBoot(o2, 60, l2), 60, l2.secret);
      page := 60;
    }
  }

  lemma {:induction false} RunSettled(o: Fuses, boots: seq<BootInput>, s: Secret)
    requires Settled(o, s)
    ensures Settled(BootRun(o, boots), s)
  {
    hide Boot, Settled;
    if boots != [] {
      RunSettled(o, boots[..|boots| - 1], s);
      SettledStays(BootRun(o, boots[..|boots| - 1]), boots[|boots| - 1], s);
    }
  }

  predicate NeverCut(tape: seq<WriteOutcome>) {
    forall i :: 0 <= i < |tape| ==> !tape[i].cut
  }

  /**
   * Once a boot has returned a secret, no later boot returns anything else: it
   * returns the same secret, or nothing because power was lost during it. The
   * only hypothesis is that void writes up to that first return took effect
   * when they completed.
   */
  lemma SecretNeverChanges(o: Fuses, first: BootInput, later: seq<BootInput>, b: BootInput)
    requires Boot(o, first).1.Some? && Boot(o, first).1.value.Loaded?
    requires VoidsTakeEffect(Boot(o, first).0.log)
    ensures var result := Boot(BootRun(Boot(o, first).0, later), b).1;
            result == None || result == Boot(o, first).1
    ensures NeverCut(b.tape) ==> Boot(BootRun(Boot(o, first).0, later), b).1 == Boot(o, first).1
  {
    hide Boot, Settled, VoidsTakeEffect;
    var s := Boot(o, first).1.value.secret;
    var o1 := Boot(o, first).0;
    BootSettles(o, first);
    RunSettled(o1, later, s);
    SettledStays(BootRun(o1, later), b, s);
    if NeverCut(b.tape) {
      UncutBootFinishes(BootRun(o1, later), b);
    }
  }

  /** Power on, and no cut ahead. */
  predicate Steady(o: Fuses) {
    o.on && NeverCut(o.tape)
  }

  lemma SteadySteps(o: Fuses, page: nat)
    requires Steady(o)
    ensures Steady(VoidSlot(o, page)) && Steady(EnsureHardLock(o, page).0)
  {
  }

  lemma SteadyWrite(o: Fuses, row: nat, value: nat)
    requires Steady(o)
    ensures Steady(WriteVerified(o, row, value).0)
  {
  }

  lemma {:induction false} SteadyBurn(o: Fuses, page: nat, s: Secret, i: nat)
    requires Steady(o) && i <= SECRET_ROWS
    ensures Steady(BurnRows(o, page, s, i).0)
    decreases SECRET_ROWS - i
  {
    hide WriteVerified, Steady, WordAt;
    if i < SECRET_ROWS {
      SteadyWrite(o, BaseRow(page) + i, WordAt(s, i));
      var (o1, ok) := WriteVerified(o, BaseRow(page) + i, WordAt(s, i));
      if ok {
        SteadyBurn(o1, page, s, i + 1);
      }
    }
  }

  lemma SteadyUse(o: Fuses, page: nat, draw: Option<Secret>)
    requires Steady(o)
    ensures Steady(UseSlot(o, page, draw).0)
  {
    hide VoidSlot, EnsureHardLock, BurnRows, Steady;
    SteadySteps(o, page);
    SteadySteps(EnsureHardLock(o, page).0, page);
    if draw.Some? {
      SteadyBurn(o, page, draw.value, 0);
      var o1 := BurnRows(o, page, draw.value, 0).0;
      SteadySteps(o1, page);
      SteadyWrite(o1, MarkerRow(page), MARKER_VALID);
      var o2 := WriteVerified(o1, MarkerRow(page), MARKER_VALID).0;
      SteadySteps(o2, page);
      SteadySteps(EnsureHardLock(o2, page).0, page);
    }
  }

  lemma UncutBootFinishes(o: Fuses, b: BootInput)
    requires NeverCut(b.tape)
    ensures Boot(o, b).1.Some?
  {
    hide UseSlot, LoadOrProvision, EnsureHardLock;
    var o0 := o.(on := true, tape := b.tape);
    LoadUnrolled(o0, b.draws);
    SteadyUse(o0, 61, b.draws.0);
    var (o1, l1) := UseSlot(o0, 61, b.draws.0);
    SteadySteps(o1, 60);
    SteadyUse(o1, 60, b.draws.1);
    SteadySteps(UseSlot(o1, 60, b.draws.1).0, 61);
  }

  // -------------------------------------------------- why the void must take effect

  lemma FreshLockHolds()
    ensures HasLockBits(Word(LOCK1_VALUE)) && !HasLockBits(Word(0))
  {
    assert Pow2(8) == 256 by {
      assert Pow2(4) == 16;
    }
    assert Pow2(16) == 0x1_0000 by {
      assert Pow2(12) == 0x1000;
    }
    assert Pow2(24) == 0x100_0000 by {
      assert Pow2(20) == 0x10_0000;
    }
    AndBitsWithItself(LOCK1_VALUE, 24);
  }

  /** Power on and every remaining write perfect. */
  predicate Flawless(o: Fuses) {
    o.on && o.tape == []
  }

  lemma FlawlessWrite(o: Fuses, row: nat, value: nat)
    requires Flawless(o)
    ensures var (p, ok) := WriteVerified(o, row, value);
            ok && Flawless(p) && p.rows == o.rows[row := Word(value)]
  {
  }

  lemma {:induction false} FlawlessBurn(o: Fuses, page: nat, s: Secret, i: nat)
    requires Flawless(o) && i <= SECRET_ROWS
    ensures BurnRows(o, page, s, i).1 && Flawless(BurnRows(o, page, s, i).0)
    decreases SECRET_ROWS - i
  {
    hide WriteVerified, WordAt;
    if i < SECRET_ROWS {
      FlawlessWrite(o, BaseRow(page) + i, WordAt(s, i));
      FlawlessBurn(WriteVerified(o, BaseRow(page) + i, WordAt(s, i)).0, page, s, i + 1);
    }
  }

  lemma FlawlessLock(o: Fuses, page: nat)
    requires Flawless(o) && At(o, LockRow(page)).Word?
    ensures var (p, ok) := EnsureHardLock(o, page);
            ok && Flawless(p)
  {
    hide HasLockBits;
    FreshLockHolds();
  }

  /** A blank slot with perfect writes is provisioned with the drawn secret. */
  lemma FlawlessProvision(o: Fuses, s: Secret)
    requires Flawless(o) && !Degenerate(s) && At(o, LockRow(60)).Word?
    requires RowsBlank(o, 60) && At(o, MarkerRow(60)) == Word(0) && At(o, VoidRow(60)) == Word(0)
    ensures UseSlot(o, 60, Some(s)).1 == Loaded(s) && Flawless(UseSlot(o, 60, Some(s)).0)
  {
    hide BurnRows, WriteVerified, EnsureHardLock, Degenerate, StoredSecret, BurnsOnlyBlank, VoidSlot, BurnTrace;
    assert TryLoad(o, 60) == (o, BlankSlot);
    FlawlessBurn(o, 60, s, 0);
    BurnRowsEffect(o, 60, s, 0);
    var o1 := BurnRows(o, 60, s, 0).0;
    FlawlessWrite(o1, MarkerRow(60), MARKER_VALID);
    var o2 := WriteVerified(o1, MarkerRow(60), MARKER_VALID).0;
    assert At(o2, LockRow(60)) == At(o1, LockRow(60)) == At(o, LockRow(60));
    FlawlessLock(o2, 60);
  }

  /** Two writes in a row that fail and leave nothing behind. */
  const TWO_FAILURES: seq<WriteOutcome> :=
    [WriteOutcome(Word(0), false, false), WriteOutcome(Word(0), false, false)]

  /** A complete slot whose lock and void writes both fail is skipped unchanged. */
  lemma FailedVoidSkips(o: Fuses, s: Secret, draw: Option<Secret>)
    requires o.on && o.tape == TWO_FAILURES
    requires Unlocked(o, s)
    ensures var (p, loaded) := UseSlot(o, 61, draw);
            && loaded == NoSecret && Flawless(p) && Unlocked(p, s)
            && SameSlot(o, p, 60) && At(p, LockRow(60)) == At(o, LockRow(60))
  {
    hide Degenerate, HasLockBits;
    FreshLockHolds();
    var o1 := WriteRow(o, LockRow(61), LOCK1_VALUE).0;
    WriteFrame(o, LockRow(61), LOCK1_VALUE);
    WriteFrame(o1, VoidRow(61), MARKER_VOID);
    var p := VoidSlot(o1, 61);
    assert o1.tape == TWO_FAILURES[1..];
    assert At(p, VoidRow(61)) == Word(0);
    assert SameSlot(o, p, 61);
    SameSlotReads(o, p, 61);
    assert EnsureHardLock(o, 61) == (o1, false);
  }

  /** The first slot holds a whole secret that is not locked yet. */
  predicate Unlocked(o: Fuses, s: Secret) {
    && At(o, MarkerRow(61)) == Word(MARKER_VALID) && At(o, VoidRow(61)) == Word(0)
    && RowsReadable(o, 61) && StoredSecret(o, 61) == s && !Degenerate(s)
    && At(o, LockRow(61)) == Word(0)
  }

  /**
   * The hypothesis on void writes is needed. When both the lock and the void
   * write of a complete slot fail without effect, that boot burns and returns a
   * second secret, and the next boot returns the first.
   */
  lemma FailedVoidChangesTheSecret(o: Fuses, s: Secret, t: Secret)
    requires Unlocked(o, s) && !Degenerate(t)
    requires SpareBlank(o)
    ensures var first := Boot(o, BootInput(TWO_FAILURES, (None, Some(t))));
            && first.1 == Some(Loaded(t))
            && Boot(first.0, BootInput([], (None, None))).1 == Some(Loaded(s))
  {
    hide UseSlot, LoadOrProvision, EnsureHardLock, Degenerate, StoredSecret, HasLockBits;
    var o0 := o.(on := true, tape := TWO_FAILURES);
    assert SameSlot(o, o0, 61) && SameSlot(o, o0, 60);
    SameSlotReads(o, o0, 61);
    SameSlotReads(o, o0, 60);
    LoadUnrolled(o0, (None, Some(t)));
    FailedVoidSkips(o0, s, None);
    var o1 := UseSlot(o0, 61, None).0;
    SameSlotReads(o0, o1, 60);
    FlawlessProvision(o1, t);
    UseSlotTurn(o1, 60, 61, Some(t));
    var o2 := UseSlot(o1, 60, Some(t)).0;
    FlawlessLock(o2, 61);
    LockFrame(o2, 61, 61);
    var end := EnsureHardLock(o2, 61).0;
    SameSlotReads(o1, o2, 61);
    SameSlotReads(o2, end, 61);
    assert Live(end, 61, s);
    UncutBootFinishes(end, BootInput([], (None, None)));
    SettledStays(end, BootInput([], (None, None)), s);
  }

  // ------------------------------------------------------------ reaching that state

  /** The writes of rows `i` and on, each doing what it should. */
  function GoodRows(s: Secret, i: nat): seq<WriteOutcome>
    requires i <= SECRET_ROWS
    decreases SECRET_ROWS - i
  {
    if i == SECRET_ROWS then []
    else [WriteOutcome(Word(WordAt(s, i)), true, false)] + GoodRows(s, i + 1)
  }

  const CUT_AFTER_MARKER: WriteOutcome := WriteOutcome(Word(MARKER_VALID), true, true)

  /** A first boot that loses power right after the marker is written. */
  function CutBoot(s: Secret): BootInput {
    BootInput(GoodRows(s, 0) + [CUT_AFTER_MARKER], (Some(s), None))
  }

  lemma GoodWrite(o: Fuses, row: nat, value: nat)
    requires o.on && o.tape != [] && o.tape[0] == WriteOutcome(Word(value), true, false)
    ensures var (p, ok) := WriteVerified(o, row, value);
            ok && p.on && p.tape == o.tape[1..]
  {
  }

  lemma {:induction false} GoodRowsBurn(o: Fuses, page: nat, s: Secret, i: nat, rest: seq<WriteOutcome>)
    requires o.on && i <= SECRET_ROWS && o.tape == GoodRows(s, i) + rest && rest != []
    ensures var (p, ok) := BurnRows(o, page, s, i);
            ok && p.on && p.tape == rest
    decreases SECRET_ROWS - i
  {
    hide WordAt, WriteVerified;
    if i < SECRET_ROWS {
      var row, w := BaseRow(page) + i, WordAt(s, i);
      assert o.tape[1..] == GoodRows(s, i + 1) + rest;
      GoodWrite(o, row, w);
      GoodRowsBurn(WriteVerified(o, row, w).0, page, s, i + 1, rest);
    } else {
      assert GoodRows(s, i) + rest == rest;
    }
  }

  /** The second slot has never been touched. */
  predicate SpareBlank(o: Fuses) {
    RowsBlank(o, 60) && At(o, MarkerRow(60)) == Word(0) && At(o, VoidRow(60)) == Word(0) && At(o, LockRow(60)) == Word(0)
  }

  /** From blank fuses, that boot leaves a complete but unlocked first slot. */
  lemma CutBootLeavesUnlocked(s: Secret)
    requires !Degenerate(s)
    ensures var (o, result) := Boot(BlankFuses(), CutBoot(s));
            result == None && Unlocked(o, s) && SpareBlank(o)
  {
    hide BurnRows, Degenerate, WordAt, StoredSecret, BurnTrace, GoodRows, BurnsOnlyBlank, LoadOrProvision, HasLockBits;
    var o0 := BlankFuses().(on := true, tape := CutBoot(s).tape);
    LoadUnrolled(o0, (Some(s), None));
    GoodRowsBurn(o0, 61, s, 0, [CUT_AFTER_MARKER]);
    BurnRowsEffect(o0, 61, s, 0);
    var o1 := BurnRows(o0, 61, s, 0).0;
    MarkBurned(o0, o1, 61, 60, s);
    var o2 := WriteVerified(o1, MarkerRow(61), MARKER_VALID).0;
    assert !o2.on && At(o2, MarkerRow(61)) == Word(MARKER_VALID);
    assert UseSlot(o0, 61, Some(s)) == (o2, NoSecret);
    WriteFrame(o1, MarkerRow(61), MARKER_VALID);
    assert At(o2, LockRow(61)) == At(o1, LockRow(61)) == At(o0, LockRow(61)) == Word(0);
    SameSlotReads(o0, o2, 60);
    assert RowsBlank(o2, 60);
    assert UseSlot(o2, 60, None) == (o2, NoEntropy);
  }

  /**
   * So the secret of a device can change: from blank fuses, one boot cut after
   * the marker, one whose lock and void writes fail, and one without faults
   * return nothing, the second secret, and the first.
   */
  lemma SecretCanChange(s: Secret, t: Secret)
    requires !Degenerate(s) && !Degenerate(t)
    ensures var first := Boot(BlankFuses(), CutBoot(s));
            var second := Boot(first.0, BootInput(TWO_FAILURES, (None, Some(t))));
            && first.1 == None
            && second.1 == Some(Loaded(t))
            && Boot(second.0, BootInput([], (None, None))).1 == Some(Loaded(s))
  {
    hide Boot, Degenerate, Unlocked;
    CutBootLeavesUnlocked(s);
    FailedVoidChangesTheSecret(Boot(BlankFuses(), CutBoot(s)).0, s, t);
  }

  // ------------------------------------------------------------ the exact condition

  /** The slot holds a whole secret, locked or not. */
  predicate Complete(o: Fuses, page: nat) {
    && At(o, MarkerRow(page)) == Word(MARKER_VALID)
    && At(o, VoidRow(page)) == Word(0)
    && RowsReadable(o, page) && !Degenerate(StoredSecret(o, page))
  }

  /**
   * What can be read off the fuses of a device that returned `s`: the first slot
   * holds it locked, or the second does and the first can deliver nothing else.
   */
  predicate Stable(o: Fuses, s: Secret) {
    || Live(o, 61, s)
    || (&& Live(o, 60, s)
        && (|| Dead(o, 61)
            || (Complete(o, 61) && (At(o, LockRow(61)).Unreadable? || StoredSecret(o, 61) == s))))
  }

  /** What the turn of a complete first slot leaves. */
  lemma CompleteUse(o: Fuses, s: Secret, draw: Option<Secret>)
    requires Complete(o, 61) && (At(o, LockRow(61)).Unreadable? || StoredSecret(o, 61) == s)
    ensures var (p, loaded) := UseSlot(o, 61, draw);
            && SameSlot(o, p, 60) && At(p, LockRow(60)) == At(o, LockRow(60))
            && (|| (loaded == Loaded(s) && Live(p, 61, s))
                || (&& loaded == NoSecret
                    && (|| Dead(p, 61)
                        || (Complete(p, 61) && (At(p, LockRow(61)).Unreadable? || StoredSecret(p, 61) == s)))))
  {
    hide VoidSlot, EnsureHardLock, HasLockBits, Degenerate, StoredSecret, RowsReadable, RowsBlank, At;
    LockFrame(o, 61, 61);
    LockFrame(o, 61, 60);
    var (o1, locked) := EnsureHardLock(o, 61);
    SameSlotReads(o, o1, 61);
    if locked {
      UnreadableNeverLocks(o, 61);
    } else {
      UnreadableNeverLocks(o, 61);
      VoidFrame(o1, 61, 61);
      VoidFrame(o1, 61, 60);
      SameSlotJoins(o, o1, VoidSlot(o1, 61), 60);
    }
  }

  lemma UnreadableNeverLocks(o: Fuses, page: nat)
    ensures At(o, LockRow(page)).Unreadable? ==> EnsureHardLock(o, page) == (o, false)
  {
  }

  lemma SameSlotJoins(o: Fuses, p: Fuses, q: Fuses, page: nat)
    requires SameSlot(o, p, page) && SameSlot(p, q, page)
    ensures SameSlot(o, q, page)
  {
  }

  /** Locking the spare first slot keeps a stable device stable. */
  lemma FinishStable(o: Fuses, s: Secret)
    requires Live(o, 60, s)
    requires || Dead(o, 61)
             || (Complete(o, 61) && (At(o, LockRow(61)).Unreadable? || StoredSecret(o, 61) == s))
    ensures Stable(FinishBoot(o, 60, Loaded(s)), s)
  {
    hide EnsureHardLock, Live, Dead, HasLockBits, Degenerate, StoredSecret, RowsReadable;
    var p := FinishBoot(o, 60, Loaded(s));
    FinishKeeps(o, 60, Loaded(s));
    LiveFrame(o, p, 60, s);
    UnreadableNeverLocks(o, 61);
    if Dead(o, 61) {
      DeadFrame(o, p, 61);
    } else {
      SameSlotReads(o, p, 61);
    }
  }

  /** A stable device returns its secret from every boot that is not cut, and stays stable. */
  lemma StableStays(o: Fuses, b: BootInput, s: Secret)
    requires Stable(o, s)
    ensures var (p, result) := Boot(o, b);
            Stable(p, s) && (result == None || result == Some(Loaded(s)))
  {
    hide UseSlot, LoadOrProvision, FinishBoot, Live, Dead, Complete, StoredSecret;
    if Live(o, 61, s) || Dead(o, 61) {
      SettledStays(o, b, s);
    } else {
      var o0 := o.(on := true, tape := b.tape);
      assert Complete(o0, 61) && StoredSecret(o0, 61) == StoredSecret(o, 61) && At(o0, LockRow(61)) == At(o, LockRow(61)) by {
        PowerKeepsComplete(o, b.tape);
      }
      LiveFrame(o, o0, 60, s);
      LoadUnrolled(o0, b.draws);
      CompleteUse(o0, s, b.draws.0);
      var (o1, l1) := UseSlot(o0, 61, b.draws.0);
      LiveFrame(o0, o1, 60, s);
      if l1.Loaded? {
        FinishKeeps(o1, 61, l1);
        LiveFrame(o1, FinishBoot(o1, 61, l1), 61, s);
      } else {
        LiveUse(o1, 60, s, b.draws.1);
        FinishStable(o1, s);
      }
    }
  }

  lemma PowerKeepsComplete(o: Fuses, tape: seq<WriteOutcome>)
    requires Complete(o, 61)
    ensures var o0 := o.(on := true, tape := tape);
            && Complete(o0, 61) && StoredSecret(o0, 61) == StoredSecret(o, 61)
            && At(o0, LockRow(61)) == At(o, LockRow(61))
  {
    hide Degenerate;
    var o0 := o.(on := true, tape := tape);
    assert SameSlot(o, o0, 61);
    SameSlotReads(o, o0, 61);
  }

  lemma {:induction false} RunStable(o: Fuses, boots: seq<BootInput>, s: Secret)
    requires Stable(o, s)
    ensures Stable(BootRun(o, boots), s)
  {
    hide Boot, Stable;
    if boots != [] {
      RunStable(o, boots[..|boots| - 1], s);
      StableStays(BootRun(o, boots[..|boots| - 1]), boots[|boots| - 1], s);
    }
  }

  const QUIET_BOOT: BootInput := BootInput([], (None, None))

  /** A device that is not stable gives itself away at the next boot without faults and without entropy. */
  lemma UnstableShows(o: Fuses, s: Secret)
    requires Live(o, 60, s) && !Stable(o, s)
    ensures Boot(o, QUIET_BOOT).1 != None && Boot(o, QUIET_BOOT).1 != Some(Loaded(s))
  {
    hide UseSlot, LoadOrProvision, FinishBoot, StoredSecret, HasLockBits, Degenerate, RowsReadable, RowsBlank;
    var o0 := o.(on := true, tape := []);
    assert SameSlot(o, o0, 61);
    SameSlotReads(o, o0, 61);
    LoadUnrolled(o0, (None, None));
    UncutBootFinishes(o, QUIET_BOOT);
    if Complete(o, 61) {
      QuietComplete(o0);
    } else {
      assert At(o0, MarkerRow(61)) == Word(0) && At(o0, VoidRow(61)) == Word(0) && RowsBlank(o0, 61);
      QuietBlank(o0);
    }
  }

  lemma QuietComplete(o: Fuses)
    requires Flawless(o) && Complete(o, 61) && At(o, LockRow(61)).Word?
    ensures UseSlot(o, 61, None).1 == Loaded(StoredSecret(o, 61))
  {
    hide EnsureHardLock, StoredSecret, Degenerate;
    FlawlessLock(o, 61);
  }

  lemma QuietBlank(o: Fuses)
    requires At(o, MarkerRow(61)) == Word(0) && At(o, VoidRow(61)) == Word(0) && RowsBlank(o, 61)
    ensures UseSlot(o, 61, None).1 == NoEntropy
  {
  }

  /** This boot of the run returns the secret, or nothing because power was lost. */
  predicate Keeps(o: Fuses, later: seq<BootInput>, b: BootInput, s: Secret) {
    var result := Boot(BootRun(o, later), b).1;
    result == None || result == Some(Loaded(s))
  }

  /**
   * The exact condition. After a boot that returned `s`, no later boot of any
   * run returns anything else, if and only if the fuses it left are stable, which
   * can be read off them. No hypothesis on the writes is left.
   */
  lemma SecretIsStableIff(o: Fuses, first: BootInput, s: Secret)
    requires Boot(o, first).1 == Some(Loaded(s))
    ensures var o1 := Boot(o, first).0;
            (forall later, b :: Keeps(o1, later, b, s)) <==> Stable(o1, s)
  {
    hide Boot, Stable, Live;
    var o1 := Boot(o, first).0;
    var page := LoadedIsLive(o, first);
    if Stable(o1, s) {
      forall later, b ensures Keeps(o1, later, b, s) {
        RunStable(o1, later, s);
        StableStays(BootRun(o1, later), b, s);
      }
    } else {
      LiveFirstIsStable(o1, s);
      UnstableShows(o1, s);
      assert BootRun(o1, []) == o1;
      assert !Keeps(o1, [], QUIET_BOOT, s);
    }
  }

  lemma LiveFirstIsStable(o: Fuses, s: Secret)
    ensures Live(o, 61, s) ==> Stable(o, s)
  {
  }

  // -------------------------------------------------------------- what boots achieve

  /** The fuse map in numbers: pages 61 and 60, 16 rows of secret, marker, void and lock rows. */
  lemma FuseLayout()
    ensures SLOT_PAGES == [61, 60]
    ensures BaseRow(61) == 3904 && MarkerRow(61) == 3920 && VoidRow(61) == 3921 && LockRow(61) == 4091
    ensures BaseRow(60) == 3840 && MarkerRow(60) == 3856 && VoidRow(60) == 3857 && LockRow(60) == 4089
    ensures MARKER_VALID == 42435 && MARKER_VOID == 57005 && LOCK1_VALUE == 4013373
  {
  }

  lemma EmptyTapeUse(o: Fuses, page: nat, draw: Option<Secret>)
    requires o.tape == []
    ensures UseSlot(o, page, draw).0.tape == []
  {
    hide BurnRows, HasLockBits, Degenerate, StoredSecret;
    if draw.Some? {
      EmptyTapeBurn(o, page, draw.value, 0);
    }
  }

  lemma EmptyTapeWrite(o: Fuses, row: nat, value: nat)
    requires o.tape == []
    ensures WriteVerified(o, row, value).0.tape == []
  {
  }

  lemma {:induction false} EmptyTapeBurn(o: Fuses, page: nat, s: Secret, i: nat)
    requires o.tape == [] && i <= SECRET_ROWS
    ensures BurnRows(o, page, s, i).0.tape == []
    decreases SECRET_ROWS - i
  {
    hide WordAt, WriteVerified;
    if i < SECRET_ROWS {
      EmptyTapeWrite(o, BaseRow(page) + i, WordAt(s, i));
      var (o1, ok) := WriteVerified(o, BaseRow(page) + i, WordAt(s, i));
      if ok {
        EmptyTapeBurn(o1, page, s, i + 1);
      }
    }
  }

  /** After a boot without faults that returned a secret, both pages are locked. */
  lemma BothPagesEndLocked(o: Fuses, draws: (Option<Secret>, Option<Secret>))
    requires At(o, LockRow(60)).Word? && At(o, LockRow(61)).Word?
    ensures var (end, result) := Boot(o, BootInput([], draws));
            && result.Some?
            && (result.value.Loaded? ==> HasLockBits(At(end, LockRow(60))) && HasLockBits(At(end, LockRow(61))))
  {
    hide UseSlot, LoadOrProvision, EnsureHardLock, HasLockBits, Live, VoidsTakeEffect, At;
    UncutBootFinishes(o, BootInput([], draws));
    var o0 := o.(on := true, tape := []);
    LoadUnrolled(o0, draws);
    SteadyUse(o0, 61, draws.0);
    EmptyTapeUse(o0, 61, draws.0);
    UseSlotTurn(o0, 61, 60, draws.0);
    var (o1, l1) := UseSlot(o0, 61, draws.0);
    PowerKeepsRows(o, []);
    if l1.Loaded? {
      FlawlessLock(o1, 60);
      LiveIsLocked(o1, 61, l1.secret);
      LockFrame(o1, 60, 60);
      LockFrame(o1, 60, 61);
    } else if l1.NoSecret? {
      SteadyUse(o1, 60, draws.1);
      EmptyTapeUse(o1, 60, draws.1);
      UseSlotTurn(o1, 60, 61, draws.1);
      var (o2, l2) := UseSlot(o1, 60, draws.1);
      if l2.Loaded? {
        LockStaysReadable(o0, draws.0);
        LiveIsLocked(o2, 60, l2.secret);
        FlawlessLock(o2, 61);
        LockFrame(o2, 61, 60);
        LockFrame(o2, 61, 61);
      }
    }
  }

  lemma PowerKeepsRows(o: Fuses, tape: seq<WriteOutcome>)
    ensures forall row :: At(o.(on := true, tape := tape), row) == At(o, row)
  {
  }

  lemma LiveIsLocked(o: Fuses, page: nat, s: Secret)
    requires Live(o, page, s)
    ensures HasLockBits(At(o, LockRow(page)))
  {
  }

  /** Perfect writes leave a readable lock row. */
  lemma LockStaysReadable(o: Fuses, draw: Option<Secret>)
    requires Flawless(o) && At(o, LockRow(61)).Word?
    ensures At(UseSlot(o, 61, draw).0, LockRow(61)).Word?
  {
    hide BurnRows, HasLockBits, Degenerate, StoredSecret, RowsReadable, RowsBlank, BurnTrace, BurnsOnlyBlank;
    if RowsBlank(o, 61) && draw.Some? {
      assert forall j :: 0 <= j < SECRET_ROWS ==> SecretRow(o, 61, j) == Word(0) by {
        BlankRowsAreBlank(o);
      }
      FlawlessBurn(o, 61, draw.value, 0);
      BurnRowsEffect(o, 61, draw.value, 0);
    }
  }

  lemma BlankRowsAreBlank(o: Fuses)
    requires RowsBlank(o, 61)
    ensures forall j :: 0 <= j < SECRET_ROWS ==> SecretRow(o, 61, j) == Word(0)
  {
  }

  /** The first boot of a chip provisions the drawn secret in the first slot, and the next boot returns it. */
  lemma FirstBootProvisions(s: Secret, later: (Option<Secret>, Option<Secret>))
    requires (exists k :: 0 <= k < 32 && s[k] != 0x00) && (exists k :: 0 <= k < 32 && s[k] != 0xFF)
    ensures var first := Boot(BlankFuses(), BootInput([], (Some(s), None)));
            && first.1 == Some(Loaded(s)) && Live(first.0, 61, s)
            && Boot(first.0, BootInput([], later)).1 == Some(Loaded(s))
  {
    hide UseSlot, LoadOrProvision, Live, VoidsTakeEffect, HasLockBits;
    var b := BootInput([], (Some(s), None));
    var o0 := BlankFuses().(on := true);
    assert !Degenerate(s);
    LoadUnrolled(o0, b.draws);
    FlawlessFirst(o0, s);
    UseSlotTurn(o0, 61, 60, Some(s));
    var o1 := UseSlot(o0, 61, Some(s)).0;
    FinishKeeps(o1, 61, Loaded(s));
    var end := Boot(BlankFuses(), b).0;
    LiveFrame(o1, end, 61, s);
    UncutBootFinishes(BlankFuses(), b);
    SettledStays(end, BootInput([], later), s);
    UncutBootFinishes(end, BootInput([], later));
  }

  lemma FlawlessFirst(o: Fuses, s: Secret)
    requires Flawless(o) && o.rows == map[] && !Degenerate(s)
    ensures UseSlot(o, 61, Some(s)).1 == Loaded(s)
  {
    hide BurnRows, WriteVerified, EnsureHardLock, Degenerate, StoredSecret, BurnsOnlyBlank, VoidSlot, BurnTrace;
    assert RowsBlank(o, 61) && TryLoad(o, 61) == (o, BlankSlot);
    FlawlessBurn(o, 61, s, 0);
    BurnRowsEffect(o, 61, s, 0);
    var o1 := BurnRows(o, 61, s, 0).0;
    FlawlessWrite(o1, MarkerRow(61), MARKER_VALID);
    var o2 := WriteVerified(o1, MarkerRow(61), MARKER_VALID).0;
    assert At(o2, LockRow(61)) == At(o1, LockRow(61)) == At(o, LockRow(61)) == Word(0);
    FlawlessLock(o2, 61);
  }

  /** A failing entropy source, or one that draws a degenerate secret, burns nothing: neither slot is used up. */
  lemma SickEntropyBurnsNothing(tape: seq<WriteOutcome>, draws: (Option<Secret>, Option<Secret>))
    requires draws.0.None? || (forall k :: 0 <= k < 32 ==> draws.0.value[k] == 0x00) || (forall k :: 0 <= k < 32 ==> draws.0.value[k] == 0xFF)
    ensures var (end, result) := Boot(BlankFuses(), BootInput(tape, draws));
            end.rows == map[] && end.log == [] && result == Some(NoEntropy)
  {
    var o0 := BlankFuses().(on := true, tape := tape);
    assert RowsBlank(o0, 61);
    LoadUnrolled(o0, draws);
  }

  /** A slot with an unknown marker or stray rows is marked void for good, with 0xDEAD, by a boot without faults. */
  lemma DirtySlotIsVoided(o: Fuses, page: nat)
    requires Flawless(o) && IsSlot(page) && At(o, VoidRow(page)) == Word(0) && At(o, MarkerRow(page)).Word?
    requires At(o, MarkerRow(page)).value != 42435 && !(At(o, MarkerRow(page)) == Word(0) && RowsBlank(o, page))
    ensures var (p, state) := TryLoad(o, page);
            state == Unusable && At(p, VoidRow(page)) == Word(57005)
  {
    hide StoredSecret, RowsReadable, RowsBlank;
  }
}
