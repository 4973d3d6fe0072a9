/**
 * Flash records at the byte level (hsm-core/src/storage.rs over the NOR flash
 * of hsm-core/src/testhal.rs), and the proof that they behave like the slots of
 * module AbRecords.
 */
module Storage {
  import opened Options
  import opened AbRecords
  import opened Bytes

  const PAGE_LEN: nat := 256
  const HEADER: nat := 12
  const MAGIC: seq<byte> := [0x55, 0x48, 0x53, 0x4D]
  const VERSION: nat := 2

  /** The largest payload whose record fits one flash page. */
  const ONE_PAGE_PAYLOAD: nat := PAGE_LEN - HEADER - 4

  type Sector = s: seq<byte> | |s| == SECTOR_LEN witness Filled(0xFF, SECTOR_LEN)

  // -------------------------------------------------------------------- CRC-32

  function CrcBit(c: bv32): bv32 {
    if c & 1 == 1 then (c >> 1) ^ 0xEDB88320 else c >> 1
  }

  function CrcByte(c: bv32, b: byte): bv32 {
    CrcBit(CrcBit(CrcBit(CrcBit(CrcBit(CrcBit(CrcBit(CrcBit(c ^ (b as bv32)))))))))
  }

  function CrcOver(c: bv32, s: seq<byte>): bv32 {
    if s == [] then c else CrcByte(CrcOver(c, s[..|s| - 1]), s[|s| - 1])
  }

  /** CRC-32/ISO-HDLC. */
  function Crc32(s: seq<byte>): (crc: nat)
    ensures crc < Pow256(4)
  {
    Pow256Values();
    (CrcOver(0xFFFF_FFFF, s) ^ 0xFFFF_FFFF) as nat
  }

  // ------------------------------------------------------------------- records

  /** `magic | version | seq | len | payload`, the part the CRC covers. */
  function Covered(number: nat, payload: seq<byte>): seq<byte> {
    MAGIC + ToBE(VERSION, 2) + ToBE(number, 4) + ToBE(|payload|, 2) + payload
  }

  function Record(number: nat, payload: seq<byte>): seq<byte> {
    Covered(number, payload) + ToBE(Crc32(Covered(number, payload)), 4)
  }

  /** The record with the rest of the sector erased. */
  function SectorImage(number: nat, payload: seq<byte>): Sector
    requires |payload| + HEADER + 4 <= SECTOR_LEN
  {
    Record(number, payload) + Filled(0xFF, SECTOR_LEN - HEADER - 4 - |payload|)
  }

  function ParseRecord(sector: seq<byte>): Option<(nat, seq<byte>)> {
    if |sector| < HEADER + 4 then None
    else if sector[0..4] != MAGIC then None
    else if FromBE(sector[4..6]) != VERSION then None
    else
      var end := HEADER + FromBE(sector[10..12]);
      if end + 4 > |sector| then None
      else if Crc32(sector[..end]) != FromBE(sector[end..end + 4]) then None
      else Some((FromBE(sector[6..10]), sector[HEADER..end]))
  }

  predicate AllErased(sector: seq<byte>) {
    forall i :: 0 <= i < |sector| ==> sector[i] == 0xFF
  }

  /** `read_record_state`. */
  function SlotOf(sector: Sector): Slot<seq<byte>> {
    if AllErased(sector) then Erased
    else match ParseRecord(sector)
      case Some((number, payload)) => Valid(number, payload)
      case None => Invalid
  }

  lemma ErasedDoesNotParse(sector: Sector)
    requires AllErased(sector)
    ensures ParseRecord(sector).None?
  {
    assert sector[0..4][0] == 0xFF;
  }

  /** `read_record` sees exactly the valid slots. */
  lemma ParseSeesSlot(sector: Sector)
    ensures ParseRecord(sector) == (match SlotOf(sector)
                                    case Valid(number, payload) => Some((number, payload))
                                    case _ => None)
  {
    if AllErased(sector) {
      ErasedDoesNotParse(sector);
    }
  }

  /** A complete record reads back exactly, whatever its number and payload. */
  lemma RecordReadsBack(number: nat, payload: seq<byte>)
    requires number < SEQUENCE_SPACE && |payload| + HEADER + 4 <= SECTOR_LEN
    ensures SlotOf(SectorImage(number, payload)) == Valid(number, payload)
  {
    var sector := SectorImage(number, payload);
    var end := HEADER + |payload|;
    Pow256Values();
    FieldsOfImage(number, payload);
    FromToBE(VERSION, 2);
    FromToBE(number, 4);
    FromToBE(|payload|, 2);
    FromToBE(Crc32(Covered(number, payload)), 4);
    assert sector[0..4] == MAGIC;
    assert sector[0] != 0xFF;
  }

  lemma FieldsOfImage(number: nat, payload: seq<byte>)
    requires |payload| + HEADER + 4 <= SECTOR_LEN
    ensures var sector := SectorImage(number, payload);
            var end := HEADER + |payload|;
            && sector[0..4] == MAGIC
            && sector[4..6] == ToBE(VERSION, 2)
            && sector[6..10] == ToBE(number, 4)
            && sector[10..12] == ToBE(|payload|, 2)
            && sector[HEADER..end] == payload
            && sector[..end] == Covered(number, payload)
            && sector[end..end + 4] == ToBE(Crc32(Covered(number, payload)), 4)
  {
    var covered := Covered(number, payload);
    var sector := SectorImage(number, payload);
    assert sector[..|covered|] == covered;
    assert covered[0..4] == MAGIC;
    assert covered[4..6] == ToBE(VERSION, 2);
    assert covered[6..10] == ToBE(number, 4);
    assert covered[10..12] == ToBE(|payload|, 2);
    assert covered[HEADER..] == payload;
    assert forall i, j :: 0 <= i <= j <= |covered| ==> sector[i..j] == covered[i..j];
  }

  // ------------------------------------------------------------ NOR operations

  /** Programming one page ANDs it into the sector. */
  function ProgramPage(sector: Sector, off: nat, page: seq<byte>): Sector
    requires off + |page| <= SECTOR_LEN
  {
    seq(SECTOR_LEN, i requires 0 <= i < SECTOR_LEN =>
      if off <= i < off + |page| then AndByte(sector[i], page[i - off]) else sector[i])
  }

  function ErasedSector(): Sector {
    Filled(0xFF, SECTOR_LEN)
  }

  /** The first `k` pages of `image` programmed over an erased sector. */
  function PagesDone(image: Sector, k: nat): Sector
    requires k * PAGE_LEN <= SECTOR_LEN
  {
    image[..k * PAGE_LEN] + Filled(0xFF, SECTOR_LEN - k * PAGE_LEN)
  }

  function PageCount(payload: seq<byte>): nat {
    (HEADER + |payload| + 4 + PAGE_LEN - 1) / PAGE_LEN
  }

  lemma ProgramNextPage(image: Sector, k: nat)
    requires (k + 1) * PAGE_LEN <= SECTOR_LEN
    ensures ProgramPage(PagesDone(image, k), k * PAGE_LEN, image[k * PAGE_LEN..(k + 1) * PAGE_LEN]) == PagesDone(image, k + 1)
  {
    forall b: byte ensures AndByte(0xFF, b) == b {
      AndKeepsOrClears(b);
    }
  }

  lemma AllPagesDone(number: nat, payload: seq<byte>)
    requires |payload| + HEADER + 4 <= SECTOR_LEN
    ensures PageCount(payload) * PAGE_LEN <= SECTOR_LEN
    ensures PagesDone(SectorImage(number, payload), PageCount(payload)) == SectorImage(number, payload)
    ensures PagesDone(SectorImage(number, payload), 0) == ErasedSector()
    ensures |payload| <= ONE_PAGE_PAYLOAD ==> PageCount(payload) == 1
  {
    var image := SectorImage(number, payload);
    var written := HEADER + |payload| + 4;
    assert written <= PageCount(payload) * PAGE_LEN;
    assert forall i :: written <= i < SECTOR_LEN ==> image[i] == 0xFF;
  }

  /**
   * The sector after `write_record` when `budget` operations complete and the
   * next one, if the record is not finished, fails leaving `tear` (or nothing).
   */
  function WrittenSector(before: Sector, number: nat, payload: seq<byte>, budget: nat, tear: Option<Sector>): Sector
    requires |payload| + HEADER + 4 <= SECTOR_LEN
  {
    AllPagesDone(number, payload);
    if budget > PageCount(payload) then SectorImage(number, payload)
    else if tear.Some? then tear.value
    else if budget == 0 then before
    else PagesDone(SectorImage(number, payload), budget - 1)
  }

  /** The same as an outcome of module AbRecords. */
  function OutcomeOf(payload: seq<byte>, budget: nat, tear: Option<Sector>): Outcome {
    if budget > PageCount(payload) then Done
    else if tear.Some? then Error(if AllErased(tear.value) then Blanked else Mangled({}))
    else if budget == 0 then Error(Untouched)
    else Error(Blanked)
  }

  /**
   * A record of one page, cut or failed anywhere, leaves the sector in exactly
   * the slot the outcome says. Only a tear inside an operation needs the
   * hypothesis that what it leaves does not validate.
   */
  lemma WriteRefinesSlot(before: Sector, number: nat, payload: seq<byte>, budget: nat, tear: Option<Sector>)
    requires |payload| <= ONE_PAGE_PAYLOAD && number < SEQUENCE_SPACE
    requires tear.Some? ==> ParseRecord(tear.value).None?
    ensures SlotOf(WrittenSector(before, number, payload, budget, tear))
            == WriteSlot(SlotOf(before), number, payload, OutcomeOf(payload, budget, tear))
  {
    AllPagesDone(number, payload);
    RecordReadsBack(number, payload);
    assert AllErased(ErasedSector());
  }

  datatype Region = TimeA | TimeB | ConfigA | ConfigB | KeyA | KeyB | PinCounter

  /** The flash, with a budget of operations that still complete. */
  class FlashStore {
    var sectors: map<Region, Sector>
    var budget: nat
    var tear: Option<Sector>

    ghost predicate Valid()
      reads this
    {
      forall r: Region :: r in sectors
    }

    method Erase(r: Region) returns (ok: bool)
      requires Valid()
      modifies this
      ensures Valid()
      ensures ok == (old(budget) > 0)
      ensures sectors == old(sectors)[r := if ok then ErasedSector()
                                           else if old(tear).Some? then old(tear).value else old(sectors)[r]]
      ensures budget == (if ok then old(budget) - 1 else 0)
      ensures tear == (if ok then old(tear) else None)
    {
      ok := budget > 0;
      if ok {
        sectors := sectors[r := ErasedSector()];
        budget := budget - 1;
      } else {
        sectors := sectors[r := if tear.Some? then tear.value else sectors[r]];
        tear := None;
      }
    }

    method Program(r: Region, off: nat, page: seq<byte>) returns (ok: bool)
      requires Valid() && off + |page| <= SECTOR_LEN
      modifies this
      ensures Valid()
      ensures ok == (old(budget) > 0)
      ensures sectors == old(sectors)[r := if ok then ProgramPage(old(sectors)[r], off, page)
                                           else if old(tear).Some? then old(tear).value else old(sectors)[r]]
      ensures budget == (if ok then old(budget) - 1 else 0)
      ensures tear == (if ok then old(tear) else None)
    {
      ok := budget > 0;
      if ok {
        sectors := sectors[r := ProgramPage(sectors[r], off, page)];
        budget := budget - 1;
      } else {
        sectors := sectors[r := if tear.Some? then tear.value else sectors[r]];
        tear := None;
      }
    }

    /** `write_record`: erase, then program the pages the record spans, one by one. */
    method WriteRecord(r: Region, number: nat, payload: seq<byte>) returns (ok: bool)
      requires Valid() && number < SEQUENCE_SPACE
      modifies this
      ensures Valid()
      ensures HEADER + |payload| + 4 > SECTOR_LEN ==> !ok && sectors == old(sectors)
      ensures HEADER + |payload| + 4 <= SECTOR_LEN ==>
                && sectors == old(sectors)[r := WrittenSector(old(sectors)[r], number, payload, old(budget), old(tear))]
                && ok == (old(budget) > PageCount(payload))
    {
      hide PagesDone, ProgramPage, SectorImage, PageCount, ErasedSector;
      var total := HEADER + |payload| + 4;
      if total > SECTOR_LEN {
        return false;
      }
      var image := SectorImage(number, payload);
      AllPagesDone(number, payload);
      ghost var before := sectors[r];
      ghost var start, torn := budget, tear;
      var erased := Erase(r);
      if !erased {
        return false;
      }
      var pages := PageCount(payload);
      var p := 0;
      while p < pages
        invariant 0 <= p <= pages
        invariant Valid()
        invariant budget == start - 1 - p && tear == torn
        invariant pages * PAGE_LEN <= SECTOR_LEN
        invariant sectors == old(sectors)[r := PagesDone(image, p)]
      {
        ProgramNextPage(image, p);
        var done := Program(r, p * PAGE_LEN, image[p * PAGE_LEN..(p + 1) * PAGE_LEN]);
        if !done {
          return false;
        }
        p := p + 1;
      }
      ok := true;
    }

    function CopiesOf(a: Region, b: Region): Pair<seq<byte>>
      requires a in sectors && b in sectors
      reads this
    {
      Pair(SlotOf(sectors[a]), SlotOf(sectors[b]))
    }

    method ReadLatest(a: Region, b: Region) returns (payload: Option<seq<byte>>)
      requires Valid()
      ensures payload == Latest(CopiesOf(a, b))
    {
      hide ParseRecord, SlotOf;
      ParseSeesSlot(sectors[a]);
      ParseSeesSlot(sectors[b]);
      var ra, rb := ParseRecord(sectors[a]), ParseRecord(sectors[b]);
      if ra.None? && rb.None? {
        payload := None;
      } else if rb.None? {
        payload := Some(ra.value.1);
      } else if ra.None? {
        payload := Some(rb.value.1);
      } else if ra.value.0 >= rb.value.0 {
        payload := Some(ra.value.1);
      } else {
        payload := Some(rb.value.1);
      }
    }

    /** `erase_both`: the second copy only if the first reported success. */
    method EraseBoth(a: Region, b: Region) returns (ok: bool)
      requires Valid() && a != b
      modifies this
      ensures Valid()
      ensures (sectors[a], sectors[b]) == EraseBytes((old(sectors)[a], old(sectors)[b]), old(budget), old(tear))
      ensures ok == (old(budget) > 1)
      ensures forall r :: r != a && r != b ==> sectors[r] == old(sectors)[r]
    {
      hide ErasedSector;
      ok := Erase(a);
      if ok {
        ok := Erase(b);
      }
    }

    /** `AbPair::write` for the one-page payloads the firmware stores. */
    method WriteCopies(a: Region, b: Region, payload: seq<byte>) returns (ok: bool)
      requires Valid() && a != b && |payload| <= ONE_PAGE_PAYLOAD
      modifies this
      ensures Valid()
      ensures (sectors[a], sectors[b])
              == WriteBytes((old(sectors)[a], old(sectors)[b]), ByteWrite(payload, old(budget), old(tear)))
      ensures ok == (old(budget) > PageCount(payload))
      ensures forall r :: r != a && r != b ==> sectors[r] == old(sectors)[r]
    {
      hide ParseRecord, SlotOf, WrittenSector, PageCount;
      ParseSeesSlot(sectors[a]);
      ParseSeesSlot(sectors[b]);
      var ra, rb := ParseRecord(sectors[a]), ParseRecord(sectors[b]);
      var sa := if ra.Some? then ra.value.0 else 0;
      var sb := if rb.Some? then rb.value.0 else 0;
      var highest := if sa >= sb then sa else sb;
      ok := WriteRecord(if sa <= sb then a else b, (highest + 1) % SEQUENCE_SPACE, payload);
    }
  }

  // ------------------------------------------------------------------ whole runs

  datatype ByteWrite = ByteWrite(payload: seq<byte>, budget: nat, tear: Option<Sector>)

  /** The two sectors after one more write, cut or failed as the attempt says. */
  function WriteBytes(p: (Sector, Sector), w: ByteWrite): (Sector, Sector)
    requires |w.payload| <= ONE_PAGE_PAYLOAD
  {
    var slots := Pair(SlotOf(p.0), SlotOf(p.1));
    var number := (HighestNumber(slots) + 1) % SEQUENCE_SPACE;
    if TargetsA(slots) then (WrittenSector(p.0, number, w.payload, w.budget, w.tear), p.1)
    else (p.0, WrittenSector(p.1, number, w.payload, w.budget, w.tear))
  }

  predicate Plausible(w: ByteWrite) {
    && |w.payload| <= ONE_PAGE_PAYLOAD
    && (w.tear.Some? ==> ParseRecord(w.tear.value).None?)
  }

  function RunBytes(p: (Sector, Sector), writes: seq<ByteWrite>): (Sector, Sector)
    requires forall i :: 0 <= i < |writes| ==> Plausible(writes[i])
  {
    if writes == [] then p
    else
      var last := writes[|writes| - 1];
      assert Plausible(last);
      WriteBytes(RunBytes(p, writes[..|writes| - 1]), last)
  }

  function AttemptsOf(writes: seq<ByteWrite>): seq<WriteAttempt<seq<byte>>> {
    seq(|writes|, i requires 0 <= i < |writes| =>
      WriteAttempt(writes[i].payload, OutcomeOf(writes[i].payload, writes[i].budget, writes[i].tear)))
  }

  lemma {:induction false} BytesRefineSlots(p: (Sector, Sector), writes: seq<ByteWrite>)
    requires forall i :: 0 <= i < |writes| ==> Plausible(writes[i])
    ensures var q := RunBytes(p, writes);
            Pair(SlotOf(q.0), SlotOf(q.1)) == RunWrites(Pair(SlotOf(p.0), SlotOf(p.1)), AttemptsOf(writes))
  {
    hide WriteBytes, SlotOf, WritePair;
    if writes != [] {
      var before, last := writes[..|writes| - 1], writes[|writes| - 1];
      assert Plausible(last);
      BytesRefineSlots(p, before);
      assert AttemptsOf(writes)[..|writes| - 1] == AttemptsOf(before);
      OneWriteRefines(RunBytes(p, before), last);
    }
  }

  lemma OneWriteRefines(p: (Sector, Sector), w: ByteWrite)
    requires Plausible(w)
    ensures var q := WriteBytes(p, w);
            Pair(SlotOf(q.0), SlotOf(q.1))
            == WritePair(Pair(SlotOf(p.0), SlotOf(p.1)), w.payload, OutcomeOf(w.payload, w.budget, w.tear))
  {
    hide SlotOf, WrittenSector, OutcomeOf, ParseRecord;
    var slots := Pair(SlotOf(p.0), SlotOf(p.1));
    var number := (HighestNumber(slots) + 1) % SEQUENCE_SPACE;
    WriteRefinesSlot(if TargetsA(slots) then p.0 else p.1, number, w.payload, w.budget, w.tear);
  }

  /**
   * The sector pair is one atomic cell. From two erased sectors, after any run
   * of fewer than 2^32 - 1 writes, each completed, failed, or cut at any point,
   * the latest record is the payload of the last write that completed.
   */
  lemma SectorsRefineCell(writes: seq<ByteWrite>)
    requires forall i :: 0 <= i < |writes| ==> Plausible(writes[i])
    requires |writes| < SEQUENCE_SPACE
    ensures var q := RunBytes((ErasedSector(), ErasedSector()), writes);
            Latest(Pair(SlotOf(q.0), SlotOf(q.1))) == AtomicCell(None, AttemptsOf(writes))
  {
    var blank := (ErasedSector(), ErasedSector());
    assert AllErased(ErasedSector());
    BytesRefineSlots(blank, writes);
    PairRefinesCell(Pair(SlotOf(blank.0), SlotOf(blank.1)), AttemptsOf(writes), 0);
  }

  // -------------------------------------------------------- runs with erasures too

  /** The two sectors after `erase_both` when `budget` erases complete and the next leaves `tear`, or nothing. */
  function EraseBytes(p: (Sector, Sector), budget: nat, tear: Option<Sector>): (Sector, Sector) {
    if budget == 0 then (if tear.Some? then tear.value else p.0, p.1)
    else (ErasedSector(), if budget > 1 then ErasedSector() else if tear.Some? then tear.value else p.1)
  }

  function EraseOutcome(budget: nat, tear: Option<Sector>): Outcome {
    if budget > 0 then Done
    else if tear.None? then Error(Untouched)
    else Error(if AllErased(tear.value) then Blanked else Mangled({}))
  }

  datatype ByteOp = ByteWriteOp(write: ByteWrite) | ByteEraseOp(budget: nat, tear: Option<Sector>)

  predicate PlausibleOp(op: ByteOp) {
    match op
    case ByteWriteOp(w) => Plausible(w)
    case ByteEraseOp(_, tear) => tear.Some? ==> ParseRecord(tear.value).None?
  }

  function ApplyBytes(p: (Sector, Sector), op: ByteOp): (Sector, Sector)
    requires PlausibleOp(op)
  {
    match op
    case ByteWriteOp(w) => WriteBytes(p, w)
    case ByteEraseOp(budget, tear) => EraseBytes(p, budget, tear)
  }

  function RunByteOps(p: (Sector, Sector), ops: seq<ByteOp>): (Sector, Sector)
    requires forall i :: 0 <= i < |ops| ==> PlausibleOp(ops[i])
  {
    if ops == [] then p
    else
      var last := ops[|ops| - 1];
      assert PlausibleOp(last);
      ApplyBytes(RunByteOps(p, ops[..|ops| - 1]), last)
  }

  /** The same operation on slots. */
  function SlotOp(op: ByteOp): PairOp<seq<byte>> {
    match op
    case ByteWriteOp(w) => WriteOp(WriteAttempt(w.payload, OutcomeOf(w.payload, w.budget, w.tear)))
    case ByteEraseOp(budget, tear) => EraseOp(EraseOutcome(budget, tear), EraseOutcome(if budget == 0 then 0 else budget - 1, tear))
  }

  function SlotOps(ops: seq<ByteOp>): seq<PairOp<seq<byte>>> {
    seq(|ops|, i requires 0 <= i < |ops| => SlotOp(ops[i]))
  }

  function SlotsOf(p: (Sector, Sector)): Pair<seq<byte>> {
    Pair(SlotOf(p.0), SlotOf(p.1))
  }

  lemma TornSlot(tear: Sector)
    requires ParseRecord(tear).None?
    ensures SlotOf(tear) == if AllErased(tear) then Erased else Invalid
  {
  }

  lemma OneEraseRefines(p: (Sector, Sector), budget: nat, tear: Option<Sector>)
    requires tear.Some? ==> ParseRecord(tear.value).None?
    ensures SlotsOf(EraseBytes(p, budget, tear))
            == ErasePair(SlotsOf(p), EraseOutcome(budget, tear), EraseOutcome(if budget == 0 then 0 else budget - 1, tear))
  {
    hide SlotOf, ParseRecord;
    assert SlotOf(ErasedSector()) == Erased by {
      ErasedSlot();
    }
    if tear.Some? {
      TornSlot(tear.value);
    }
  }

  lemma ErasedSlot()
    ensures SlotOf(ErasedSector()) == Erased
  {
    assert AllErased(ErasedSector());
  }

  /** Byte-level runs of writes and erasures are the slot-level runs. */
  lemma {:induction false} MixedBytesRefineSlots(p: (Sector, Sector), ops: seq<ByteOp>)
    requires forall i :: 0 <= i < |ops| ==> PlausibleOp(ops[i])
    ensures SlotsOf(RunByteOps(p, ops)) == RunOps(SlotsOf(p), SlotOps(ops))
  {
    hide WriteBytes, EraseBytes, WritePair, ErasePair, EraseOutcome, OutcomeOf, SlotOf, Plausible;
    if ops != [] {
      var before, last := ops[..|ops| - 1], ops[|ops| - 1];
      assert PlausibleOp(last);
      MixedBytesRefineSlots(p, before);
      assert SlotOps(ops)[..|ops| - 1] == SlotOps(before);
      var mid := RunByteOps(p, before);
      match last
      case ByteWriteOp(w) => OneWriteRefines(mid, w);
      case ByteEraseOp(budget, tear) => OneEraseRefines(mid, budget, tear);
    }
  }

  /**
   * Down to the bytes: from erased sectors, over any run of record writes and
   * pair erasures, each completed, failed or cut anywhere, whatever still parses
   * was written completely since the last complete erasure, and a write becomes
   * the latest record exactly when all its operations complete.
   */
  lemma SectorsKeepOnlySurvivors(ops: seq<ByteOp>)
    requires forall i :: 0 <= i < |ops| ==> PlausibleOp(ops[i])
    requires |ops| < SEQUENCE_SPACE
    ensures var q := SlotsOf(RunByteOps((ErasedSector(), ErasedSector()), ops));
            && (q.a.Valid? ==> q.a.value in Survivors(SlotOps(ops)))
            && (q.b.Valid? ==> q.b.value in Survivors(SlotOps(ops)))
            && (ops != [] && ops[|ops| - 1].ByteWriteOp? ==>
                  Latest(q) == (if WriteFinishes(ops[|ops| - 1].write) then Some(ops[|ops| - 1].write.payload)
                                else Latest(SlotsOf(RunByteOps((ErasedSector(), ErasedSector()), ops[..|ops| - 1])))))
  {
    hide RunByteOps, RunOps, Survivors, SlotsOf, OutcomeOf, EraseOutcome, ErasedSector, PlausibleOp;
    BlankSlots();
    MixedBytesRefineSlots((ErasedSector(), ErasedSector()), ops);
    MixedRunsKeepOnlySurvivors(SlotOps(ops));
    if ops != [] && ops[|ops| - 1].ByteWriteOp? {
      FinishedOutcome(ops[|ops| - 1].write);
      MixedBytesRefineSlots((ErasedSector(), ErasedSector()), ops[..|ops| - 1]);
      assert SlotOps(ops)[..|ops| - 1] == SlotOps(ops[..|ops| - 1]);
    }
  }

  /** All operations of the write complete: the erase and every page. */
  predicate WriteFinishes(w: ByteWrite) {
    w.budget > PageCount(w.payload)
  }

  lemma FinishedOutcome(w: ByteWrite)
    ensures Finishes(OutcomeOf(w.payload, w.budget, w.tear)) <==> WriteFinishes(w)
  {
  }

  lemma BlankSlots()
    ensures SlotsOf((ErasedSector(), ErasedSector())) == BlankPair()
  {
    ErasedSlot();
  }

  // ------------------------------------------------------------- the polynomial

  lemma CheckByte1()
    ensures CrcByte(0xFFFFFFFF, 49) == 0x7C231048
  {
  }

  lemma CheckByte2()
    ensures CrcByte(0x7C231048, 50) == 0xB0ACBB32
  {
  }

  lemma CheckByte3()
    ensures CrcByte(0xB0ACBB32, 51) == 0x77B79C2D
  {
  }

  lemma CheckByte4()
    ensures CrcByte(0x77B79C2D, 52) == 0x641C1F5C
  {
  }

  lemma CheckByte5()
    ensures CrcByte(0x641C1F5C, 53) == 0x340AC5E3
  {
  }

  lemma CheckByte6()
    ensures CrcByte(0x340AC5E3, 54) == 0xF68D2C9E
  {
  }

  lemma CheckByte7()
    ensures CrcByte(0xF68D2C9E, 55) == 0xAFFC9660
  {
  }

  lemma CheckByte8()
    ensures CrcByte(0xAFFC9660, 56) == 0x651F2550
  {
  }

  lemma CheckByte9()
    ensures CrcByte(0x651F2550, 57) == 0x340BC6D9
  {
  }

  lemma CrcSnoc(c: bv32, s: seq<byte>, b: byte)
    ensures CrcOver(c, s + [b]) == CrcByte(CrcOver(c, s), b)
  {
    assert (s + [b])[..|s|] == s;
  }

  /** The check value of CRC-32/ISO-HDLC: the digits 1 to 9 give 0xCBF43926. */
  lemma CrcCheckValue()
    ensures Crc32([49, 50, 51, 52, 53, 54, 55, 56, 57]) == 0xCBF43926
  {
    hide CrcByte, CrcOver;
    var s: seq<byte> := [];
    assert CrcOver(0xFFFF_FFFF, s) == 0xFFFF_FFFF by {
      CrcOfNothing();
    }
    CheckByte1();
    CrcSnoc(0xFFFF_FFFF, [], 49);
    assert [] + [49] == [49];
    CheckByte2();
    CrcSnoc(0xFFFF_FFFF, [49], 50);
    assert [49] + [50] == [49, 50];
    CheckByte3();
    CrcSnoc(0xFFFF_FFFF, [49, 50], 51);
    assert [49, 50] + [51] == [49, 50, 51];
    CheckByte4();
    CrcSnoc(0xFFFF_FFFF, [49, 50, 51], 52);
    assert [49, 50, 51] + [52] == [49, 50, 51, 52];
    CheckByte5();
    CrcSnoc(0xFFFF_FFFF, [49, 50, 51, 52], 53);
    assert [49, 50, 51, 52] + [53] == [49, 50, 51, 52, 53];
    CheckByte6();
    CrcSnoc(0xFFFF_FFFF, [49, 50, 51, 52, 53], 54);
    assert [49, 50, 51, 52, 53] + [54] == [49, 50, 51, 52, 53, 54];
    CheckByte7();
    CrcSnoc(0xFFFF_FFFF, [49, 50, 51, 52, 53, 54], 55);
    assert [49, 50, 51, 52, 53, 54] + [55] == [49, 50, 51, 52, 53, 54, 55];
    CheckByte8();
    CrcSnoc(0xFFFF_FFFF, [49, 50, 51, 52, 53, 54, 55], 56);
    assert [49, 50, 51, 52, 53, 54, 55] + [56] == [49, 50, 51, 52, 53, 54, 55, 56];
    CheckByte9();
    CrcSnoc(0xFFFF_FFFF, [49, 50, 51, 52, 53, 54, 55, 56], 57);
    assert [49, 50, 51, 52, 53, 54, 55, 56] + [57] == [49, 50, 51, 52, 53, 54, 55, 56, 57];
  }

  lemma CrcOfNothing()
    ensures CrcOver(0xFFFF_FFFF, []) == 0xFFFF_FFFF
  {
  }

  /** The record layout, in bytes: "UHSM", version 2, number, length, payload, CRC. */
  lemma RecordLayout(number: nat, payload: seq<byte>)
    ensures var r := Record(number, payload);
            && |r| == 16 + |payload|
            && r[..4] == [85, 72, 83, 77] && r[4..6] == [0, 2]
            && r[6..10] == ToBE(number, 4) && r[10..12] == ToBE(|payload|, 2)
            && r[12..12 + |payload|] == payload
            && r[12 + |payload|..] == ToBE(Crc32(r[..12 + |payload|]), 4)
  {
    var c := Covered(number, payload);
    var r := Record(number, payload);
    assert ToBE(VERSION, 2) == [0, 2] by {
      assert ToBE(0, 1) == [0];
    }
    assert r[..|c|] == c;
    assert c[..4] == MAGIC && c[4..6] == ToBE(VERSION, 2) && c[6..10] == ToBE(number, 4);
    assert c[10..12] == ToBE(|payload|, 2) && c[12..] == payload;
    assert forall i, j :: 0 <= i <= j <= |c| ==> r[i..j] == c[i..j];
  }
}
