/**
 * The fuse code of hsm-fw/src/otp_secret.rs as it runs, burning rows one by
 * one. Each method does to the fuses what the function of the same purpose in
 * module OtpSecret says.
 */
module OtpFuses {
  import opened Options
  import opened Bytes
  import opened OtpSecret

  class FuseBox {
    var rows: map<nat, Row>
    var on: bool
    var tape: seq<WriteOutcome>
    ghost var log: seq<OtpWrite>

    ghost function View(): Fuses
      reads this
    {
      Fuses(rows, on, tape, log)
    }

    /** A chip as it is made. */
    constructor ()
      ensures View() == BlankFuses()
    {
      rows, on, tape, log := map[], false, [], [];
    }

    function ReadRow(row: nat): (r: Row)
      reads this
      ensures r == At(View(), row)
    {
      if row in rows then rows[row] else Word(0)
    }

    method Write(row: nat, value: nat) returns (ok: bool)
      modifies this
      ensures (View(), ok) == WriteRow(old(View()), row, value)
    {
      if !on {
        return false;
      }
      var w := WriteOutcome(Word(value), true, false);
      if tape != [] {
        w, tape := tape[0], tape[1..];
      }
      log := log + [OtpWrite(row, value, ReadRow(row), w.left, w.cut)];
      rows, on := rows[row := w.left], !w.cut;
      ok := w.reported && !w.cut;
    }

    method WriteAndVerify(row: nat, value: nat) returns (ok: bool)
      modifies this
      ensures (View(), ok) == WriteVerified(old(View()), row, value)
    {
      ok := Write(row, value);
      if ok {
        ok := ReadRow(row) == Word(value);
      }
    }

    method HardLock(page: nat) returns (ok: bool)
      modifies this
      ensures (View(), ok) == EnsureHardLock(old(View()), page)
    {
      var current := ReadRow(LockRow(page));
      if current.Unreadable? {
        return false;
      }
      if HasLockBits(current) {
        return true;
      }
      ok := Write(LockRow(page), LOCK1_VALUE);
      if ok {
        ok := HasLockBits(ReadRow(LockRow(page)));
      }
    }

    method Abandon(page: nat)
      modifies this
      ensures View() == VoidSlot(old(View()), page)
    {
      var _ := Write(VoidRow(page), MARKER_VOID);
    }

    /** Read the secret rows into two little-endian bytes each, until a row does not read. */
    method ReadSecret(page: nat) returns (secret: Option<Secret>)
      ensures secret == if RowsReadable(View(), page) then Some(StoredSecret(View(), page)) else None
    {
      var bytes: seq<byte> := [];
      var i := 0;
      while i < SECRET_ROWS
        invariant 0 <= i <= SECRET_ROWS && |bytes| == 2 * i
        invariant forall j :: 0 <= j < i ==> SecretRow(View(), page, j).Word?
        invariant forall k :: 0 <= k < 2 * i ==> bytes[k] == StoredSecret(View(), page)[k]
      {
        var r := ReadRow(BaseRow(page) + i);
        assert r == SecretRow(View(), page, i);
        if r.Unreadable? {
          return None;
        }
        bytes := bytes + [LowByte(r), HighByte(r)];
        i := i + 1;
      }
      assert bytes == StoredSecret(View(), page);
      secret := Some(bytes);
    }

    method SecretRowsBlank(page: nat) returns (blank: bool)
      ensures blank == RowsBlank(View(), page)
    {
      var i := 0;
      while i < SECRET_ROWS
        invariant 0 <= i <= SECRET_ROWS
        invariant forall j :: 0 <= j < i ==> SecretRow(View(), page, j) == Word(0)
      {
        var r := ReadRow(BaseRow(page) + i);
        assert r == SecretRow(View(), page, i);
        if r != Word(0) {
          return false;
        }
        i := i + 1;
      }
      blank := true;
    }

    method LoadSlot(page: nat) returns (state: SlotState)
      modifies this
      ensures (View(), state) == TryLoad(old(View()), page)
    {
      hide StoredSecret, RowsReadable, RowsBlank, Degenerate, EnsureHardLock, VoidSlot, HasLockBits;
      var marker, void := ReadRow(MarkerRow(page)), ReadRow(VoidRow(page));
      if marker.Unreadable? || void.Unreadable? || void != Word(0) {
        return Unusable;
      }
      if marker == Word(MARKER_VALID) {
        var secret := ReadSecret(page);
        if secret.None? {
          return Unusable;
        }
        if Degenerate(secret.value) {
          Abandon(page);
          return Unusable;
        }
        var locked := HardLock(page);
        if !locked {
          Abandon(page);
          return Unusable;
        }
        return ValidSlot(secret.value);
      }
      if marker != Word(0) {
        Abandon(page);
        return Unusable;
      }
      var blank := SecretRowsBlank(page);
      if !blank {
        Abandon(page);
        return Unusable;
      }
      state := BlankSlot;
    }

    method BurnSecret(page: nat, draw: Option<Secret>) returns (loaded: Loaded)
      modifies this
      ensures (View(), loaded) == Provision(old(View()), page, draw)
    {
      hide Degenerate, EnsureHardLock, VoidSlot, WriteVerified, WordAt;
      if draw.None? || Degenerate(draw.value) {
        return NoEntropy;
      }
      var i := 0;
      while i < SECRET_ROWS
        invariant 0 <= i <= SECRET_ROWS
        invariant BurnRows(View(), page, draw.value, i) == BurnRows(old(View()), page, draw.value, 0)
      {
        var ok := WriteAndVerify(BaseRow(page) + i, WordAt(draw.value, i));
        if !ok {
          Abandon(page);
          return NoSecret;
        }
        i := i + 1;
      }
      var marked := WriteAndVerify(MarkerRow(page), MARKER_VALID);
      if !marked {
        Abandon(page);
        return NoSecret;
      }
      var locked := HardLock(page);
      if !locked {
        Abandon(page);
        return NoSecret;
      }
      loaded := Loaded(draw.value);
    }

    /** Hard-lock every slot but the one in use, best effort. */
    method LockSpares(page: nat)
      modifies this
      ensures View() == LockOthers(old(View()), page, 0)
    {
      hide EnsureHardLock;
      var j := 0;
      while j < 2
        invariant 0 <= j <= 2
        invariant LockOthers(View(), page, j) == LockOthers(old(View()), page, 0)
      {
        if SLOT_PAGES[j] != page {
          var _ := HardLock(SLOT_PAGES[j]);
        }
        j := j + 1;
      }
    }

    method LoadOrBurn(draws: (Option<Secret>, Option<Secret>)) returns (loaded: Loaded)
      modifies this
      ensures (View(), loaded) == LoadOrProvision(old(View()), draws, 0)
    {
      hide TryLoad, Provision, LockOthers;
      var k := 0;
      while k < 2
        invariant 0 <= k <= 2
        invariant LoadOrProvision(View(), draws, k) == LoadOrProvision(old(View()), draws, 0)
      {
        var page := SLOT_PAGES[k];
        var state := LoadSlot(page);
        match state {
          case ValidSlot(s) =>
            LockSpares(page);
            return Loaded(s);
          case BlankSlot =>
            var made := BurnSecret(page, if k == 0 then draws.0 else draws.1);
            match made {
              case Loaded(s) =>
                LockSpares(page);
                return Loaded(s);
              case NoEntropy => return NoEntropy;
              case NoSecret =>
            }
          case Unusable =>
        }
        k := k + 1;
      }
      loaded := NoSecret;
    }

    /** One boot of the chip; nothing is returned when power was lost during it. */
    method PowerOn(b: BootInput) returns (result: Option<Loaded>)
      modifies this
      ensures (View(), result) == Boot(old(View()), b)
    {
      hide LoadOrProvision;
      on, tape := true, b.tape;
      var loaded := LoadOrBurn(b.draws);
      result := if on then Some(loaded) else None;
    }
  }

  /** The secret was burned over blank rows and verified, all 16 rows, in one provisioning. */
  ghost predicate BurnedWhole(log: seq<OtpWrite>, s: Secret) {
    exists page :: IsSlot(page) && Occurs(log, BurnTrace(page, s, 0))
  }

  /**
   * A fresh chip through any boots, with power lost at any writes: every secret
   * it returned was burned whole, and no secret or marker row was ever written
   * over a non-blank one; and from a boot that left the fuses stable on, no boot
   * returns another secret.
   */
  method RunBoots(boots: seq<BootInput>) returns (chip: FuseBox, results: seq<Option<Loaded>>)
    ensures fresh(chip) && chip.View() == BootRun(BlankFuses(), boots)
    ensures |results| == |boots|
    ensures BurnsOnlyBlank(chip.log)
    ensures forall i :: 0 <= i < |results| ==> results[i] == ResultAt(boots, i)
    ensures forall i :: 0 <= i < |results| && results[i].Some? && results[i].value.Loaded? ==>
              BurnedWhole(chip.log, results[i].value.secret)
    ensures forall i, j :: 0 <= i < j < |results| && results[i].Some? && results[i].value.Loaded?
                           && Stable(BootRun(BlankFuses(), boots[..i + 1]), results[i].value.secret) ==>
              results[j] == None || results[j] == results[i]
  {
    hide Boot, Stable, BurnsOnlyBlank, BurnedWhole;
    chip := new FuseBox();
    results := [];
    RunAudited([]);
    for i := 0 to |boots|
      invariant fresh(chip) && chip.View() == BootRun(BlankFuses(), boots[..i]) && |results| == i
      invariant forall k :: 0 <= k < i ==> results[k] == ResultAt(boots, k)
      invariant forall k :: 0 <= k < i && results[k].Some? && results[k].value.Loaded? ==>
                  BurnedWhole(chip.log, results[k].value.secret)
    {
      ghost var before := chip.View();
      assert boots[..i + 1][..i] == boots[..i];
      var result := chip.PowerOn(boots[i]);
      BurnedStaysBurned(before, boots[i]);
      ReturnedIsBurned(boots[..i], boots[i]);
      results := results + [result];
    }
    assert boots[..|boots|] == boots;
    RunAudited(boots);
    forall i, j | 0 <= i < j < |results| && results[i].Some? && results[i].value.Loaded?
                  && Stable(BootRun(BlankFuses(), boots[..i + 1]), results[i].value.secret)
      ensures results[j] == None || results[j] == results[i]
    {
      LaterBootsAgree(boots, i, j, results[i].value.secret);
    }
  }

  ghost function ResultAt(boots: seq<BootInput>, i: nat): Option<Loaded>
    requires i < |boots|
  {
    Boot(BootRun(BlankFuses(), boots[..i]), boots[i]).1
  }

  lemma ReturnedIsBurned(boots: seq<BootInput>, b: BootInput)
    ensures var (end, result) := Boot(BootRun(BlankFuses(), boots), b);
            result.Some? && result.value.Loaded? ==> BurnedWhole(end.log, result.value.secret)
  {
    hide Boot, BootRun, Live, Occurs;
    ReturnedSecretWasBurnedWhole(boots, b);
  }

  lemma BurnedStaysBurned(o: Fuses, b: BootInput)
    ensures forall s: Secret :: BurnedWhole(o.log, s) ==> BurnedWhole(Boot(o, b).0.log, s)
  {
    hide Boot, Occurs;
    var o0 := o.(on := true, tape := b.tape);
    BootContinues(o, b);
    forall s: Secret | BurnedWhole(o.log, s) ensures BurnedWhole(Boot(o, b).0.log, s) {
      var page :| IsSlot(page) && Occurs(o.log, BurnTrace(page, s, 0));
      OccursLater(o0, Boot(o, b).0, BurnTrace(page, s, 0));
    }
  }

  lemma BootContinues(o: Fuses, b: BootInput)
    ensures Continues(o.(on := true, tape := b.tape), Boot(o, b).0)
  {
    hide UseSlot, LoadOrProvision, FinishBoot, SlotTurn;
    var o0 := o.(on := true, tape := b.tape);
    LoadUnrolled(o0, b.draws);
    var (o1, l1) := UseSlot(o0, 61, b.draws.0);
    var (o2, l2) := UseSlot(o1, 60, b.draws.1);
    TurnContinues(o0, 61, b.draws.0);
    TurnContinues(o1, 60, b.draws.1);
    FinishKeeps(o1, 61, l1);
    FinishKeeps(o2, 60, l2);
    ContinuesOn(o0, o1, FinishBoot(o1, 61, l1));
    ContinuesOn(o0, o1, o2);
    ContinuesOn(o0, o2, FinishBoot(o2, 60, l2));
  }

  lemma TurnContinues(o: Fuses, page: nat, draw: Option<Secret>)
    requires IsSlot(page)
    ensures Continues(o, UseSlot(o, page, draw).0)
    ensures var l := UseSlot(o, page, draw).1; l.Loaded? || l.NoSecret? || l.NoEntropy?
  {
    hide UseSlot;
    UseSlotTurn(o, page, 121 - page, draw);
  }

  lemma {:induction false} RunSplits(o: Fuses, first: seq<BootInput>, later: seq<BootInput>)
    ensures BootRun(o, first + later) == BootRun(BootRun(o, first), later)
    decreases |later|
  {
    hide Boot;
    if later == [] {
      assert first + later == first;
    } else {
      var init := later[..|later| - 1];
      assert (first + later)[..|first + later| - 1] == first + init;
      RunSplits(o, first, init);
    }
  }

  lemma LaterBootsAgree(boots: seq<BootInput>, i: nat, j: nat, s: Secret)
    requires i < j < |boots| && ResultAt(boots, i) == Some(Loaded(s))
    requires Stable(BootRun(BlankFuses(), boots[..i + 1]), s)
    ensures ResultAt(boots, j) == None || ResultAt(boots, j) == Some(Loaded(s))
  {
    hide Boot, Stable;
    var o := BootRun(BlankFuses(), boots[..i + 1]);
    var later := boots[i + 1..j];
    assert boots[..j] == boots[..i + 1] + later;
    RunSplits(BlankFuses(), boots[..i + 1], later);
    RunStable(o, later, s);
    StableStays(BootRun(o, later), boots[j], s);
  }
}
