/**
 * The management firewall (`SignerLine` of host/internal/hsmproto/hsmproto.go)
 * over the parsed members of a request object, against the device's own reading
 * of such an object (hsm-core/src/proto.rs and `handle` of
 * hsm-core/src/dispatch.rs).
 */
module SignerLine {
  import opened Options

  /** A member's value as a parsed tree; equal trees are equal requests. */
  datatype Value = Null | Data(tree: string)

  type Member = (string, Value)

  /** The signer-path variants, in the order they are written. */
  function Variant(i: nat): string
    requires i < 4
  {
    if i == 0 then "loadKeySigner" else if i == 1 then "signSshKey" else if i == 2 then "ping" else "getEnclaveMetrics"
  }

  function Management(): string {
    "hsm"
  }

  /** The key is one of the variants from the `i`-th on. */
  predicate IsVariant(key: string, i: nat) {
    exists j :: i <= j < 4 && Variant(j) == key
  }

  datatype Refusal = ManagementLine | DuplicateKey

  // ------------------------------------------------------------------ the device

  /** How a known field comes out of an object read with exact, duplicate-rejecting keys. */
  datatype Field = Absent | Once(value: Value) | Repeated

  function FieldOf(members: seq<Member>, name: string): Field {
    if members == [] then Absent
    else
      var before := FieldOf(members[..|members| - 1], name);
      var last := members[|members| - 1];
      if last.0 != name then before
      else if before == Absent then Once(last.1) else Repeated
  }

  datatype Command = Malformed | Multiple | Unexpected | Run(name: string, value: Value)

  /** The five fields of a request. */
  function Known(i: nat): string
    requires i < 5
  {
    if i < 4 then Variant(i) else Management()
  }

  predicate IsKnown(name: string) {
    exists i :: 0 <= i < 5 && Known(i) == name
  }

  /** The known names whose field holds a value other than null, from the `i`-th on. */
  function Chosen(members: seq<Member>, i: nat): seq<string>
    requires i <= 5
    decreases 5 - i
  {
    if i == 5 then []
    else
      var field := FieldOf(members, Known(i));
      (if field.Once? && field.value != Null then [Known(i)] else []) + Chosen(members, i + 1)
  }

  /**
   * What the device runs. `fits` says whether a value deserialises as the
   * field's type; any that does not, or a known key that is repeated, refuses
   * the whole line.
   */
  function DeviceReads(members: seq<Member>, fits: (string, Value) -> bool): Command {
    if exists i :: 0 <= i < 5 && Refused(members, Known(i), fits) then Malformed
    else
      var chosen := Chosen(members, 0);
      if |chosen| > 1 then Multiple
      else if chosen == [] then Unexpected
      else Run(chosen[0], ValueOf(members, chosen[0]))
  }

  predicate Refused(members: seq<Member>, name: string, fits: (string, Value) -> bool) {
    match FieldOf(members, name)
    case Repeated => true
    case Once(v) => v != Null && !fits(name, v)
    case Absent => false
  }

  function ValueOf(members: seq<Member>, name: string): Value {
    match FieldOf(members, name)
    case Once(v) => v
    case _ => Null
  }

  // ----------------------------------------------------------------- the firewall

  /** Equal to "hsm" under Unicode simple folding, which joins the long s to s. */
  predicate FoldsToManagement(key: string) {
    && |key| == 3
    && (key[0] == 'h' || key[0] == 'H')
    && (key[1] == 's' || key[1] == 'S' || key[1] == '\U{017F}')
    && (key[2] == 'm' || key[2] == 'M')
  }

  function Offence(members: seq<Member>, i: nat): Option<Refusal>
    requires i < |members|
  {
    if FoldsToManagement(members[i].0) then Some(ManagementLine)
    else if IsVariant(members[i].0, 0) && FieldOf(members[..i], members[i].0) != Absent then Some(DuplicateKey)
    else None
  }

  /** No member up to `n` gives offence. */
  ghost predicate Clean(members: seq<Member>, n: nat)
    requires n <= |members|
  {
    forall i :: 0 <= i < n ==> Offence(members, i) == None
  }

  /** The kept variants, in their fixed order, from the `i`-th on. */
  function Rebuilt(members: seq<Member>, i: nat): seq<Member>
    requires i <= 4
    decreases 4 - i
  {
    if i == 4 then []
    else
      var field := FieldOf(members, Variant(i));
      (if field.Once? then [(Variant(i), field.value)] else []) + Rebuilt(members, i + 1)
  }

  /** The position of a key among the variants, 4 if it is none. */
  method IndexOf(key: string) returns (i: nat)
    ensures i <= 4 && (i < 4 ==> Variant(i) == key)
    ensures i == 4 <==> !IsVariant(key, 0)
  {
    hide Variant;
    i := 0;
    while i < 4 && Variant(i) != key
      invariant 0 <= i <= 4
      invariant forall j :: 0 <= j < i ==> Variant(j) != key
    {
      i := i + 1;
    }
  }

  /** What `kept` holds after the first `n` members. */
  ghost predicate Keeps(kept: seq<Option<Value>>, members: seq<Member>, n: nat)
    requires n <= |members|
  {
    && |kept| == 4
    && forall i :: 0 <= i < 4 ==>
         kept[i] == KeptOf(FieldOf(members[..n], Variant(i))) && FieldOf(members[..n], Variant(i)) != Repeated
  }

  /** One token of the loop: the slot a clean member fills. */
  method KeepMember(kept: array<Option<Value>>, members: seq<Member>, n: nat) returns (refusal: Option<Refusal>)
    requires n < |members| && kept.Length == 4 && Keeps(kept[..], members, n)
    modifies kept
    ensures refusal == Offence(members, n)
    ensures refusal.None? ==> Keeps(kept[..], members, n + 1)
  {
    hide FoldsToManagement, Variant, FieldOf;
    var (key, value) := members[n];
    FieldNext(members, n);
    VariantNames();
    if FoldsToManagement(key) {
      return Some(ManagementLine);
    }
    var i := IndexOf(key);
    if i < 4 {
      assert kept[..][i] == kept[i];
      if kept[i].Some? {
        return Some(DuplicateKey);
      }
      kept[i] := Some(value);
    }
    refusal := None;
  }

  /** The second loop: the kept variants written in order. */
  method WriteOut(kept: array<Option<Value>>, members: seq<Member>) returns (out: seq<Member>)
    requires kept.Length == 4 && Keeps(kept[..], members, |members|)
    ensures out == Rebuilt(members, 0)
  {
    hide Variant, FieldOf, Rebuilt;
    assert members[..|members|] == members;
    out := [];
    for i := 0 to 4
      invariant out + Rebuilt(members, i) == Rebuilt(members, 0)
    {
      assert kept[..][i] == kept[i];
      RebuiltStep(members, i, out);
      if kept[i].Some? {
        out := out + [(Variant(i), kept[i].value)];
      }
    }
    assert Rebuilt(members, 4) == [] by {
      NothingLeft(members);
    }
  }

  lemma NothingLeft(members: seq<Member>)
    ensures Rebuilt(members, 4) == []
  {
  }

  lemma RebuiltStep(members: seq<Member>, i: nat, out: seq<Member>)
    requires i < 4
    ensures var field := FieldOf(members, Variant(i));
            out + Rebuilt(members, i)
            == (if field.Once? then out + [(Variant(i), field.value)] else out) + Rebuilt(members, i + 1)
  {
    hide Variant, FieldOf;
    var field := FieldOf(members, Variant(i));
    if field.Once? {
      assert out + Rebuilt(members, i) == out + [(Variant(i), field.value)] + Rebuilt(members, i + 1);
    } else {
      assert Rebuilt(members, i) == Rebuilt(members, i + 1);
    }
  }

  /** `SignerLine`: scan the members filling `kept`, then write the kept variants out. */
  method Rewrite(members: seq<Member>) returns (r: Result<seq<Member>, Refusal>)
    ensures r.Ok? ==> Clean(members, |members|) && r.value == Rebuilt(members, 0)
    ensures r.Err? ==> exists i :: 0 <= i < |members| && Clean(members, i) && Offence(members, i) == Some(r.error)
  {
    hide Offence, Variant;
    var kept := new Option<Value>[4](_ => None);
    for n := 0 to |members|
      invariant Clean(members, n)
      invariant Keeps(kept[..], members, n)
    {
      var refusal := KeepMember(kept, members, n);
      if refusal.Some? {
        return Err(refusal.value);
      }
    }
    var out := WriteOut(kept, members);
    r := Ok(out);
  }

  function KeptOf(f: Field): Option<Value> {
    if f.Once? then Some(f.value) else None
  }

  lemma FieldNext(members: seq<Member>, n: nat)
    requires n < |members|
    ensures forall name :: FieldOf(members[..n + 1], name)
                           == if members[n].0 != name then FieldOf(members[..n], name)
                              else if FieldOf(members[..n], name) == Absent then Once(members[n].1) else Repeated
  {
    assert members[..n + 1][..n] == members[..n];
  }

  /** The four names are distinct, and none of them folds to the management key. */
  lemma VariantNames()
    ensures forall i, j :: 0 <= i < j < 4 ==> Variant(i) != Variant(j)
    ensures forall i :: 0 <= i < 4 ==> Variant(i) != Management() && !FoldsToManagement(Variant(i))
    ensures FoldsToManagement(Management())
  {
    assert |Variant(0)| == 13 && |Variant(1)| == 10 && |Variant(2)| == 4 && |Variant(3)| == 17;
  }

  // ------------------------------------------------------------------- fidelity

  /** In a clean line no variant repeats and the management key is absent. */
  lemma {:induction false} CleanFields(members: seq<Member>, n: nat)
    requires n <= |members| && Clean(members, n)
    ensures FieldOf(members[..n], Management()) == Absent
    ensures forall i :: 0 <= i < 4 ==> FieldOf(members[..n], Variant(i)) != Repeated
  {
    if n > 0 {
      assert Offence(members, n - 1) == None;
      CleanFields(members, n - 1);
      FieldNext(members, n - 1);
    }
  }

  /** The rebuilt object has each variant's field as it was, and nothing else. */
  lemma {:induction false} RebuiltFields(members: seq<Member>, i: nat, name: string)
    requires i <= 4 && (forall j :: 0 <= j < 4 ==> FieldOf(members, Variant(j)) != Repeated)
    ensures FieldOf(Rebuilt(members, i), name)
            == if IsVariant(name, i) then FieldOf(members, name) else Absent
    decreases 4 - i
  {
    VariantNames();
    if i < 4 {
      RebuiltFields(members, i + 1, name);
      var rest := Rebuilt(members, i + 1);
      var field := FieldOf(members, Variant(i));
      if field.Once? {
        FieldOfCons((Variant(i), field.value), rest, name);
      } else {
        assert Rebuilt(members, i) == rest;
      }
    }
  }

  lemma {:induction false} FieldOfCons(m: Member, rest: seq<Member>, name: string)
    ensures FieldOf([m] + rest, name)
            == if m.0 != name then FieldOf(rest, name)
               else if FieldOf(rest, name) == Absent then Once(m.1) else Repeated
  {
    var all := [m] + rest;
    if rest == [] {
      assert all[..0] == [];
    } else {
      var init := rest[..|rest| - 1];
      FieldOfCons(m, init, name);
      assert all[..|all| - 1] == [m] + init;
    }
  }

  /** The device's reading depends on the known fields alone. */
  lemma {:induction false} SameFieldsSameChoice(a: seq<Member>, b: seq<Member>, i: nat)
    requires i <= 5 && forall j :: 0 <= j < 5 ==> FieldOf(a, Known(j)) == FieldOf(b, Known(j))
    ensures Chosen(a, i) == Chosen(b, i)
    ensures forall k :: 0 <= k < |Chosen(a, i)| ==> IsKnown(Chosen(a, i)[k])
    decreases 5 - i
  {
    if i < 5 {
      SameFieldsSameChoice(a, b, i + 1);
    }
  }

  lemma SameFieldsSameCommand(a: seq<Member>, b: seq<Member>, fits: (string, Value) -> bool)
    requires forall j :: 0 <= j < 5 ==> FieldOf(a, Known(j)) == FieldOf(b, Known(j))
    ensures DeviceReads(a, fits) == DeviceReads(b, fits)
  {
    hide FieldOf, Known, Chosen;
    SameFieldsSameChoice(a, b, 0);
    forall j | 0 <= j < 5 ensures Refused(a, Known(j), fits) == Refused(b, Known(j), fits) {
    }
    var chosen := Chosen(a, 0);
    if chosen != [] {
      assert IsKnown(chosen[0]);
    }
  }

  /**
   * For every line the firewall accepts, the rebuilt object runs on the device
   * exactly as the original would, is never a management command, and is left
   * alone by a second rewriting.
   */
  lemma RewritingPreservesMeaning(members: seq<Member>, fits: (string, Value) -> bool)
    requires Clean(members, |members|)
    ensures var out := Rebuilt(members, 0);
            && DeviceReads(out, fits) == DeviceReads(members, fits)
            && !(DeviceReads(out, fits).Run? && DeviceReads(out, fits).name == Management())
            && Clean(out, |out|) && Rebuilt(out, 0) == out
  {
    var out := Rebuilt(members, 0);
    CleanFields(members, |members|);
    assert members[..|members|] == members;
    VariantNames();
    forall j | 0 <= j < 5 ensures FieldOf(out, Known(j)) == FieldOf(members, Known(j)) {
      RebuiltFields(members, 0, Known(j));
    }
    assert FieldOf(out, Known(4)) == Absent;
    forall j | 0 <= j < 4 ensures FieldOf(out, Variant(j)) == FieldOf(members, Variant(j)) {
      assert Known(j) == Variant(j);
    }
    SameFieldsSameCommand(out, members, fits);
    NeverManagement(out, fits);
    RebuiltIsClean(members, 0);
    SameFieldsSameRebuild(members, out, 0);
  }

  lemma NeverManagement(members: seq<Member>, fits: (string, Value) -> bool)
    requires FieldOf(members, Management()) == Absent
    ensures !(DeviceReads(members, fits).Run? && DeviceReads(members, fits).name == Management())
  {
    ChosenHaveFields(members, 0);
  }

  lemma {:induction false} ChosenHaveFields(members: seq<Member>, i: nat)
    requires i <= 5
    ensures forall k :: 0 <= k < |Chosen(members, i)| ==> FieldOf(members, Chosen(members, i)[k]).Once?
    decreases 5 - i
  {
    if i < 5 {
      ChosenHaveFields(members, i + 1);
    }
  }

  lemma {:induction false} SameFieldsSameRebuild(a: seq<Member>, b: seq<Member>, i: nat)
    requires i <= 4 && forall j :: 0 <= j < 4 ==> FieldOf(a, Variant(j)) == FieldOf(b, Variant(j))
    ensures Rebuilt(a, i) == Rebuilt(b, i)
    decreases 4 - i
  {
    if i < 4 {
      SameFieldsSameRebuild(a, b, i + 1);
    }
  }

  /** Putting a variant in front of others keeps a line clean. */
  lemma CleanCons(m: Member, rest: seq<Member>)
    requires Clean(rest, |rest|) && !FoldsToManagement(m.0)
    requires forall k :: 0 <= k < |rest| ==> rest[k].0 != m.0
    ensures Clean([m] + rest, |rest| + 1)
  {
    hide FoldsToManagement, IsVariant, FieldOf;
    var out := [m] + rest;
    forall k | 0 <= k < |out| ensures Offence(out, k) == None {
      if k == 0 {
        assert out[..0] == [];
        NoField(m.0);
      } else {
        assert Offence(rest, k - 1) == None;
        assert out[..k] == [m] + rest[..k - 1];
        FieldOfCons(m, rest[..k - 1], out[k].0);
      }
    }
  }

  lemma NoField(name: string)
    ensures FieldOf([], name) == Absent
  {
  }

  /** A rebuilt object lists distinct variants only. */
  lemma {:induction false} RebuiltIsClean(members: seq<Member>, i: nat)
    requires i <= 4
    ensures var out := Rebuilt(members, i);
            && Clean(out, |out|)
            && forall k :: 0 <= k < |out| ==> IsVariant(out[k].0, i)
    decreases 4 - i
  {
    hide Variant, Clean, FieldOf;
    VariantNames();
    if i < 4 {
      RebuiltIsClean(members, i + 1);
      var rest := Rebuilt(members, i + 1);
      var field := FieldOf(members, Variant(i));
      if field.Once? {
        CleanCons((Variant(i), field.value), rest);
      } else {
        assert Rebuilt(members, i) == rest;
      }
    } else {
      NothingIsClean();
    }
  }

  lemma NothingIsClean()
    ensures Clean([], 0)
  {
  }

  function Lower(c: char): char {
    if c == 'H' then 'h' else if c == 'S' then 's' else if c == 'M' then 'm' else c
  }

  /** Every spelling of "hsm" in upper and lower case is refused, and so is the long s. */
  lemma EverySpellingIsManagement(key: string)
    requires |key| == 3 && Lower(key[0]) == 'h' && (Lower(key[1]) == 's' || key[1] == '\U{017F}') && Lower(key[2]) == 'm'
    ensures FoldsToManagement(key)
  {
  }

  /** The five names the device reads. */
  lemma KnownNames()
    ensures Known(0) == "loadKeySigner" && Known(1) == "signSshKey" && Known(2) == "ping"
    ensures Known(3) == "getEnclaveMetrics" && Known(4) == "hsm"
  {
  }
}
