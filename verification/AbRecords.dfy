/**
 * A/B record pairs (hsm-core/src/storage.rs), one level above bytes.
 *
 * A sector is seen as the firmware sees it after parsing: erased, unparseable,
 * or holding a numbered record. Every flash operation has an outcome chosen by
 * the environment, so that one function describes the operation with no fault,
 * with a reported error, and with a power cut before, inside or after it.
 * Module Storage shows that the byte-level sectors behave like this.
 */
module AbRecords {
  import opened Options

  datatype Slot<T> = Erased | Invalid | Valid(number: nat, value: T)

  datatype Pair<T> = Pair(a: Slot<T>, b: Slot<T>)

  /**
   * What an operation that did not complete left behind. `Mangled` on the
   * attempt counter keeps only the marks in `keep`; on a record sector it
   * leaves content that does not validate.
   */
  datatype Partial = Untouched | Blanked | Mangled(keep: set<nat>)

  datatype Outcome =
    | Done
    | Error(left: Partial)
    | Cut(left: Partial)
    | CutAfter

  const SEQUENCE_SPACE := 0x1_0000_0000

  /** The erase unit of the flash, in bytes. */
  const SECTOR_LEN: nat := 4096

  predicate Finishes(o: Outcome) {
    o.Done? || o.CutAfter?
  }

  predicate KeepsPower(o: Outcome) {
    o.Done? || o.Error?
  }

  /** Whether the operation changed the sector at all. */
  predicate Touches(o: Outcome) {
    Finishes(o) || o.left != Untouched
  }

  function Number<T>(s: Slot<T>): nat {
    if s.Valid? then s.number else 0
  }

  function Contents<T>(s: Slot<T>): Option<T> {
    if s.Valid? then Some(s.value) else None
  }

  /** `read_latest`: the highest-numbered valid copy. */
  function Latest<T>(p: Pair<T>): Option<T> {
    if p.a.Valid? && p.b.Valid? then
      if p.a.number >= p.b.number then Some(p.a.value) else Some(p.b.value)
    else if p.a.Valid? then Some(p.a.value)
    else Contents(p.b)
  }

  /** `read_latest_fail_closed`: no valid copy is "absent" only when both sectors are erased. */
  function LatestFailClosed<T>(p: Pair<T>): Result<Option<T>, ()> {
    if p.a.Valid? || p.b.Valid? then Ok(Latest(p))
    else if p.a.Erased? && p.b.Erased? then Ok(None)
    else Err(())
  }

  function HighestNumber<T>(p: Pair<T>): nat {
    if Number(p.a) >= Number(p.b) then Number(p.a) else Number(p.b)
  }

  /** `write` picks the copy with the lower number, a missing one counting as 0. */
  predicate TargetsA<T>(p: Pair<T>) {
    Number(p.a) <= Number(p.b)
  }

  /** One sector under `write_record`: erase, then program. */
  function WriteSlot<T>(s: Slot<T>, number: nat, value: T, o: Outcome): Slot<T> {
    if Finishes(o) then Valid(number, value)
    else match o.left
      case Untouched => s
      case Blanked => Erased
      case Mangled(_) => Invalid
  }

  function EraseSlot<T>(s: Slot<T>, o: Outcome): Slot<T> {
    if Finishes(o) then Erased
    else match o.left
      case Untouched => s
      case Blanked => Erased
      case Mangled(_) => Invalid
  }

  /** `write` once both copies have been read. Sequence numbers wrap at 2^32. */
  function WritePair<T>(p: Pair<T>, value: T, o: Outcome): Pair<T> {
    var number := (HighestNumber(p) + 1) % SEQUENCE_SPACE;
    if TargetsA(p) then p.(a := WriteSlot(p.a, number, value, o))
    else p.(b := WriteSlot(p.b, number, value, o))
  }

  /** `erase_both`: copy B is attempted only when erasing A reported success. */
  function ErasePair<T>(p: Pair<T>, first: Outcome, second: Outcome): Pair<T> {
    if first.Done? then Pair(EraseSlot(p.a, first), EraseSlot(p.b, second))
    else p.(a := EraseSlot(p.a, first))
  }

  /** Valid copies carry distinct numbers, at least 1 and at most `limit`. */
  ghost predicate WellNumbered<T>(p: Pair<T>, limit: nat) {
    && (p.a.Valid? ==> 1 <= p.a.number <= limit)
    && (p.b.Valid? ==> 1 <= p.b.number <= limit)
    && (p.a.Valid? && p.b.Valid? ==> p.a.number != p.b.number)
  }

  /** Every valid copy of `q` is the same copy of `p`: copies may only have been lost. */
  predicate Shrunk<T(==)>(p: Pair<T>, q: Pair<T>) {
    && (q.a.Valid? ==> q.a == p.a)
    && (q.b.Valid? ==> q.b == p.b)
  }

  function BlankPair<T>(): Pair<T> {
    Pair(Erased, Erased)
  }

  // ------------------------------------------------------------------ one write

  /**
   * A single write is atomic: it becomes the latest record exactly when it
   * finishes, and otherwise the latest record is what it was.
   */
  lemma WriteIsAtomic<T>(p: Pair<T>, value: T, o: Outcome, limit: nat)
    requires WellNumbered(p, limit) && limit < SEQUENCE_SPACE - 1
    ensures Latest(WritePair(p, value, o)) == if Finishes(o) then Some(value) else Latest(p)
    ensures WellNumbered(WritePair(p, value, o), limit + 1)
  {
    assert (HighestNumber(p) + 1) % SEQUENCE_SPACE == HighestNumber(p) + 1;
  }

  /** The copy that holds the latest record is never the one a write erases. */
  lemma NewestIsNeverTheTarget<T>(p: Pair<T>, limit: nat)
    requires WellNumbered(p, limit)
    requires Latest(p).Some?
    ensures Latest(p) == Contents(if TargetsA(p) then p.b else p.a)
    ensures !Contents(if TargetsA(p) then p.a else p.b).Some?
            || Number(if TargetsA(p) then p.a else p.b) < Number(if TargetsA(p) then p.b else p.a)
  {
  }

  /**
   * The atomicity above is lost exactly when the numbers wrap: a completed
   * write is read back if and only if the highest number was below 2^32 - 1,
   * unless no valid record competes with it or it repeats the old payload.
   */
  lemma WrapLosesTheWrite<T>(p: Pair<T>, value: T)
    requires WellNumbered(p, SEQUENCE_SPACE - 1)
    requires Latest(p) != Some(value)
    ensures Latest(WritePair(p, value, Done)) == Some(value) <==> HighestNumber(p) < SEQUENCE_SPACE - 1
  {
  }

  /** Erasing can expose the older copy, but never anything that was not in the pair. */
  lemma EraseExposesOnlyOldCopies<T>(p: Pair<T>, first: Outcome, second: Outcome, limit: nat)
    requires WellNumbered(p, limit)
    ensures WellNumbered(ErasePair(p, first, second), limit)
    ensures var left := Latest(ErasePair(p, first, second));
            left == None || left == Contents(p.a) || left == Contents(p.b)
    ensures first.Done? && second.Done? ==> ErasePair(p, first, second) == BlankPair()
  {
  }

  // ---------------------------------------------------------------- whole runs

  datatype WriteAttempt<T> = WriteAttempt(value: T, outcome: Outcome)

  /** Any number of writes, each cut, failed or completed, with reboots in between. */
  function RunWrites<T>(p: Pair<T>, attempts: seq<WriteAttempt<T>>): Pair<T> {
    if attempts == [] then p
    else
      var before := RunWrites(p, attempts[..|attempts| - 1]);
      var last := attempts[|attempts| - 1];
      WritePair(before, last.value, last.outcome)
  }

  /** The atomic cell the pair stands for: it holds the payload of the last attempt that finished. */
  function AtomicCell<T>(cell: Option<T>, attempts: seq<WriteAttempt<T>>): Option<T> {
    if attempts == [] then cell
    else
      var last := attempts[|attempts| - 1];
      if Finishes(last.outcome) then Some(last.value)
      else AtomicCell(cell, attempts[..|attempts| - 1])
  }

  /** The pair refines the atomic cell over every run of fewer than 2^32 - 1 writes. */
  lemma {:induction false} PairRefinesCell<T>(p: Pair<T>, attempts: seq<WriteAttempt<T>>, limit: nat)
    requires WellNumbered(p, limit)
    requires limit + |attempts| < SEQUENCE_SPACE
    ensures WellNumbered(RunWrites(p, attempts), limit + |attempts|)
    ensures Latest(RunWrites(p, attempts)) == AtomicCell(Latest(p), attempts)
  {
    if attempts != [] {
      var before := attempts[..|attempts| - 1];
      var last := attempts[|attempts| - 1];
      PairRefinesCell(p, before, limit);
      WriteIsAtomic(RunWrites(p, before), last.value, last.outcome, limit + |before|);
    }
  }

  // -------------------------------------------------------- runs with erasures too

  datatype PairOp<T> = WriteOp(attempt: WriteAttempt<T>) | EraseOp(first: Outcome, second: Outcome)

  function ApplyOp<T>(p: Pair<T>, op: PairOp<T>): Pair<T> {
    match op
    case WriteOp(attempt) => WritePair(p, attempt.value, attempt.outcome)
    case EraseOp(first, second) => ErasePair(p, first, second)
  }

  function RunOps<T>(p: Pair<T>, ops: seq<PairOp<T>>): Pair<T> {
    if ops == [] then p else ApplyOp(RunOps(p, ops[..|ops| - 1]), ops[|ops| - 1])
  }

  predicate ErasesAll<T>(op: PairOp<T>) {
    op.EraseOp? && op.first.Done? && Finishes(op.second)
  }

  /** The payloads written completely since the last complete erasure of the pair. */
  ghost function Survivors<T>(ops: seq<PairOp<T>>): set<T> {
    if ops == [] then {}
    else
      var op, before := ops[|ops| - 1], Survivors(ops[..|ops| - 1]);
      if op.WriteOp? && Finishes(op.attempt.outcome) then before + {op.attempt.value}
      else if ErasesAll(op) then {}
      else before
  }

  /**
   * From a blank pair, over any run of writes and erasures, each completed,
   * failed or cut anywhere: numbers stay distinct and at least 1; every valid
   * copy is a payload written completely since the last complete erasure; and a
   * completed write that no erasure follows is the latest record.
   */
  lemma {:induction false} MixedRunsKeepOnlySurvivors<T>(ops: seq<PairOp<T>>)
    requires |ops| < SEQUENCE_SPACE
    ensures var p := RunOps(BlankPair(), ops);
            && WellNumbered(p, |ops|)
            && (p.a.Valid? ==> p.a.value in Survivors(ops))
            && (p.b.Valid? ==> p.b.value in Survivors(ops))
            && (ops != [] && ops[|ops| - 1].WriteOp? ==>
                  Latest(p) == (if Finishes(ops[|ops| - 1].attempt.outcome) then Some(ops[|ops| - 1].attempt.value)
                                else Latest(RunOps(BlankPair(), ops[..|ops| - 1]))))
  {
    if ops != [] {
      var before, op := ops[..|ops| - 1], ops[|ops| - 1];
      MixedRunsKeepOnlySurvivors(before);
      var p := RunOps(BlankPair(), before);
      match op
      case WriteOp(attempt) => WriteIsAtomic(p, attempt.value, attempt.outcome, |before|);
      case EraseOp(first, second) => EraseExposesOnlyOldCopies(p, first, second, |before|);
    }
  }
}
