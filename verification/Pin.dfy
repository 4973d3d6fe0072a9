/**
 * The PIN attempt counter on its flash sector (hsm-core/src/pin.rs): ticking
 * and counting bytes does what module Attempts says about the set of used ones.
 */
module Pin {
  import opened Options
  import opened AbRecords
  import opened Bytes
  import opened Storage
  import opened Attempts

  /** The bytes of the tick log that have left the erased state. */
  function Marks(sector: Sector): set<nat> {
    set i: nat | i < |sector| && sector[i] != 0xFF
  }

  /** `count`: scan from the start while bytes are used. */
  method CountAttempts(f: FlashStore) returns (n: nat)
    requires f.Valid()
    ensures n == Count(Marks(f.sectors[PinCounter]))
  {
    var sector := f.sectors[PinCounter];
    n := 0;
    while n < |sector| && sector[n] != 0xFF
      invariant 0 <= n <= |sector|
      invariant forall i :: 0 <= i < n ==> sector[i] != 0xFF
    {
      n := n + 1;
    }
    CountIsFirstGap(Marks(sector), 0, n);
  }

  /** The page that clears byte `n` and leaves every other as it is. */
  function TickPage(n: nat): seq<byte> {
    seq(PAGE_LEN, i requires 0 <= i < PAGE_LEN => if i == n % PAGE_LEN then 0 else 0xFF)
  }

  function PageStart(n: nat): nat {
    n / PAGE_LEN * PAGE_LEN
  }

  /** Programming the tick page uses byte `n` and no other. */
  lemma TickUsesOneByte(sector: Sector, n: nat)
    requires n < SECTOR_LEN
    ensures PageStart(n) + PAGE_LEN <= SECTOR_LEN
    ensures Marks(ProgramPage(sector, PageStart(n), TickPage(n))) == Marks(sector) + {n}
  {
    hide AndByte;
    var after := ProgramPage(sector, PageStart(n), TickPage(n));
    forall i: nat | i < SECTOR_LEN ensures after[i] == if i == n then 0 else sector[i] {
      AndKeepsOrClears(sector[i]);
    }
  }

  /**
   * `tick`: the next byte is programmed, and only then is the new count
   * returned. A counter with no byte left is not changed.
   */
  method Tick(f: FlashStore) returns (n: Option<nat>)
    requires f.Valid()
    modifies f
    ensures f.Valid()
    ensures forall r :: r != PinCounter ==> f.sectors[r] == old(f.sectors)[r]
    ensures var was, marks := old(f.sectors)[PinCounter], Marks(old(f.sectors)[PinCounter]);
            if Count(marks) >= SECTOR_LEN then n == Some(Count(marks)) && f.sectors == old(f.sectors)
            else if old(f.budget) > 0 then n == Some(Count(marks) + 1) && Marks(f.sectors[PinCounter]) == Ticked(marks, Done)
            else n == None && f.sectors[PinCounter] == if old(f.tear).Some? then old(f.tear).value else was
  {
    hide Count, ProgramPage;
    var used := CountAttempts(f);
    if used >= SECTOR_LEN {
      return Some(used);
    }
    TickUsesOneByte(f.sectors[PinCounter], used);
    var ok := f.Program(PinCounter, PageStart(used), TickPage(used));
    n := if ok then Some(used + 1) else None;
  }

  /** `reset`: erase the sector. */
  method Reset(f: FlashStore) returns (ok: bool)
    requires f.Valid()
    modifies f
    ensures f.Valid()
    ensures ok == (old(f.budget) > 0)
    ensures forall r :: r != PinCounter ==> f.sectors[r] == old(f.sectors)[r]
    ensures ok ==> Marks(f.sectors[PinCounter]) == Cleared(Marks(old(f.sectors)[PinCounter]), Done)
    ensures !ok ==> f.sectors[PinCounter] == if old(f.tear).Some? then old(f.tear).value else old(f.sectors)[PinCounter]
  {
    ok := f.Erase(PinCounter);
  }

  /**
   * A tick cut inside the operation has changed at most bits of its one byte;
   * as soon as any bit is gone the attempt counts, and nothing else is counted.
   */
  lemma TornTickCounts(before: Sector, torn: Sector)
    requires Count(Marks(before)) < SECTOR_LEN
    requires forall i :: 0 <= i < SECTOR_LEN && i != Count(Marks(before)) ==> torn[i] == before[i]
    ensures var n := Count(Marks(before));
            && n < SECTOR_LEN
            && Marks(torn) == Ticked(Marks(before), Error(if torn[n] == 0xFF then Untouched else Mangled({})))
            && (torn[n] != 0xFF ==> Count(Marks(torn)) >= n + 1)
  {
    hide CountFrom;
    CountBelow(Marks(before), 0);
    var n := Count(Marks(before));
    assert n !in Marks(before);
    TickCounts(Marks(before), Error(Mangled({})));
  }

  /** An erase cut inside the operation can only return bytes to the erased state: no attempt appears. */
  lemma TornEraseAddsNothing(before: Sector, torn: Sector)
    requires forall i :: 0 <= i < SECTOR_LEN && before[i] == 0xFF ==> torn[i] == 0xFF
    ensures Marks(torn) == Cleared(Marks(before), Error(Mangled(Marks(torn))))
    ensures Count(Marks(torn)) <= Count(Marks(before))
  {
    hide CountFrom;
    assert Marks(torn) <= Marks(before);
    ClearLowers(Marks(before), Error(Mangled(Marks(torn))));
  }
}
