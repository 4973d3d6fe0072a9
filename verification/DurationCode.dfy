/**
 * The loops of hsm-core/src/goduration.rs, each proved to compute what module
 * GoDuration says: the scanners, the parser with its running total, and the
 * printer that fills a 32-byte buffer from the right.
 */
module DurationCode {
  import opened Options
  import opened Bytes
  import opened GoDuration

  // ------------------------------------------------------------------ scanners

  lemma {:induction false} ValueGrows(s: seq<byte>, i: nat)
    requires i <= |s|
    ensures Value(s[..i]) <= Value(s)
  {
    if i == |s| {
      assert s[..i] == s;
    } else {
      ValueGrows(s[..|s| - 1], i);
      assert s[..|s| - 1][..i] == s[..i];
    }
  }

  lemma ValueOfNext(s: seq<byte>, i: nat)
    requires i < |s|
    ensures Value(s[..i + 1]) == 10 * Value(s[..i]) + DigitValue(s[i])
  {
    assert s[..i + 1][..i] == s[..i];
  }

  lemma RunIs(s: seq<byte>, i: nat)
    requires i <= |s| && (forall j :: 0 <= j < i ==> IsDigit(s[j])) && (i < |s| ==> !IsDigit(s[i]))
    ensures DigitRun(s) == i
  {
  }

  lemma UnitRunIs(s: seq<byte>, i: nat)
    requires i <= |s| && (forall j :: 0 <= j < i ==> !StartsNumber(s[j])) && (i < |s| ==> StartsNumber(s[i]))
    ensures UnitRun(s) == i
  {
  }

  /** Once a prefix of the run exceeds 2^63, so does the whole run. */
  lemma PrefixOverflows(s: seq<byte>, i: nat)
    requires i <= |s| && (forall j :: 0 <= j < i ==> IsDigit(s[j])) && Value(s[..i]) > TWO_63
    ensures Value(s[..DigitRun(s)]) > TWO_63
  {
    hide Value;
    ValueGrows(s[..DigitRun(s)], i);
    assert s[..DigitRun(s)][..i] == s[..i];
  }

  /** `leading_int`: overflow is flagged exactly when the whole run of digits exceeds 2^63. */
  method LeadingInt(s: seq<byte>) returns (x: nat, consumed: nat, overflow: bool)
    ensures overflow <==> Value(s[..DigitRun(s)]) > TWO_63
    ensures !overflow ==> x == Value(s[..DigitRun(s)]) && consumed == DigitRun(s)
    ensures x <= TWO_63
  {
    hide Value, DigitRun;
    x := 0;
    var i := 0;
    assert s[..0] == [];
    EmptyHasNoValue();
    while i < |s|
      invariant 0 <= i <= |s|
      invariant forall j :: 0 <= j < i ==> IsDigit(s[j])
      invariant x == Value(s[..i]) && x <= TWO_63
    {
      if !IsDigit(s[i]) {
        break;
      }
      ValueOfNext(s, i);
      if x > TWO_63 / 10 {
        PrefixOverflows(s, i + 1);
        return 0, i, true;
      }
      x := x * 10 + DigitValue(s[i]);
      if x > TWO_63 {
        PrefixOverflows(s, i + 1);
        return 0, i, true;
      }
      i := i + 1;
    }
    RunIs(s, i);
    consumed, overflow := i, false;
  }

  lemma {:induction false} FittingIs(s: seq<byte>, k: nat)
    requires k <= |s| && Value(s[..k]) <= TWO_63 && (k < |s| ==> Value(s[..k + 1]) > TWO_63)
    ensures FittingDigits(s) == k
  {
    if k == |s| {
      assert s[..k] == s;
    } else {
      ValueGrows(s, k + 1);
      var init := s[..|s| - 1];
      assert init[..k] == s[..k];
      assert k < |init| ==> init[..k + 1] == s[..k + 1];
      FittingIs(init, k);
    }
  }

  /** `leading_fraction`: all digits are consumed, and the longest prefix of at most 2^63 is used. */
  method LeadingFraction(s: seq<byte>) returns (x: nat, scale: nat, consumed: nat)
    ensures consumed == DigitRun(s)
    ensures var used := FittingDigits(s[..consumed]);
            x == Value(s[..consumed][..used]) && scale == Pow10(used)
  {
    hide Value, DigitRun, FittingDigits;
    x, scale := 0, 1;
    var overflow, i := false, 0;
    ghost var k := 0;
    assert s[..0] == [];
    EmptyHasNoValue();
    while i < |s|
      invariant 0 <= k <= i <= |s|
      invariant forall j :: 0 <= j < i ==> IsDigit(s[j])
      invariant x == Value(s[..k]) && x <= TWO_63 && scale == Pow10(k)
      invariant if overflow then k < i && Value(s[..k + 1]) > TWO_63 else k == i
    {
      if !IsDigit(s[i]) {
        break;
      }
      if !overflow {
        ValueOfNext(s, i);
        if x > (TWO_63 - 1) / 10 {
          overflow := true;
        } else {
          var y := x * 10 + DigitValue(s[i]);
          if y > TWO_63 {
            overflow := true;
          } else {
            x := y;
            scale := scale * 10;
            k := k + 1;
          }
        }
      }
      i := i + 1;
    }
    RunIs(s, i);
    consumed := i;
    var run := s[..i];
    assert run[..k] == s[..k];
    assert k < i ==> run[..k + 1] == s[..k + 1];
    FittingIs(run, k);
  }

  method ScanUnit(s: seq<byte>) returns (i: nat)
    ensures i == UnitRun(s)
  {
    i := 0;
    while i < |s|
      invariant 0 <= i <= |s|
      invariant forall j :: 0 <= j < i ==> !StartsNumber(s[j])
    {
      if StartsNumber(s[i]) {
        break;
      }
      i := i + 1;
    }
    UnitRunIs(s, i);
  }

  // -------------------------------------------------------------------- parser

  method ScanFraction(s: seq<byte>) returns (fraction: seq<byte>, rest: seq<byte>, f: nat, scale: nat)
    ensures (fraction, rest) == SplitFraction(s)
    ensures var used := fraction[..FittingDigits(fraction)];
            f == Value(used) && scale == Pow10(|used|)
  {
    hide Value, DigitRun, FittingDigits, Pow10;
    fraction, rest, f, scale := [], s, 0, 1;
    NoFraction();
    if s != [] && s[0] == DOT {
      var used;
      f, scale, used := LeadingFraction(s[1..]);
      fraction, rest := s[1..][..used], s[1..][used..];
    }
  }

  /** The scanning half of one round: the term's parts, with the numbers already converted. */
  method ScanNext(s: seq<byte>) returns (r: Result<Scan, ParseError>, v: nat, f: nat, scale: nat)
    requires s != []
    ensures r == ReadTerm(s)
    ensures r.Ok? ==> var used := r.value.fraction[..FittingDigits(r.value.fraction)];
                      v == Value(r.value.whole) && f == Value(used) && scale == Pow10(|used|)
  {
    hide Value, DigitRun, UnitRun, UnitOf, FittingDigits, Pow10, SplitFraction;
    v, f, scale := 0, 0, 1;
    if !StartsNumber(s[0]) {
      return Err(Invalid), v, f, scale;
    }
    var consumed, overflow;
    v, consumed, overflow := LeadingInt(s);
    if overflow {
      return Err(Invalid), v, f, scale;
    }
    var whole := s[..consumed];
    var fraction, rest;
    fraction, rest, f, scale := ScanFraction(s[consumed..]);
    if whole == [] && fraction == [] {
      return Err(Invalid), v, f, scale;
    }
    var i := ScanUnit(rest);
    if i == 0 {
      return Err(MissingUnit), v, f, scale;
    }
    var unit := UnitOf(rest[..i]);
    if unit.None? {
      return Err(UnknownUnit), v, f, scale;
    }
    r := Ok(Scan(whole, fraction, unit.value, rest[i..]));
  }

  /** The checked multiplication and addition of one term. */
  method AddAmount(d: nat, whole: nat, f: nat, scale: nat, unit: nat, round: Rounding) returns (r: Result<nat, ParseError>)
    requires unit > 0
    ensures r == match Amount(whole, f, scale, unit, round)
                 case Err(e) => Err(e)
                 case Ok(v) => if (d + v) % TWO_64 > TWO_63 then Err(Invalid) else Ok((d + v) % TWO_64)
  {
    if whole > TWO_63 / unit {
      return Err(Invalid);
    }
    var v: nat := whole * unit;
    if f > 0 {
      v := (v + round(f, unit, scale)) % TWO_64;
      if v > TWO_63 {
        return Err(Invalid);
      }
    }
    var sum := (d + v) % TWO_64;
    if sum > TWO_63 {
      return Err(Invalid);
    }
    r := Ok(sum);
  }

  /** One round of the parser's loop: a term read from `s` and its value added to `d`. */
  method ParseTerm(s: seq<byte>, d: nat, round: Rounding) returns (r: Result<(nat, seq<byte>), ParseError>)
    requires s != []
    ensures r == match ReadTerm(s)
                 case Err(e) => Err(e)
                 case Ok(t) =>
                   match AddTerm(d, t, round)
                   case Err(e) => Err(e)
                   case Ok(sum) => Ok((sum, t.rest))
  {
    hide Value, FittingDigits, Pow10, Amount, ScanTerm;
    var t, v, f, scale := ScanNext(s);
    if t.Err? {
      return Err(t.error);
    }
    var sum := AddAmount(d, v, f, scale, t.value.unit, round);
    if sum.Err? {
      return Err(sum.error);
    }
    r := Ok((sum.value, t.value.rest));
  }

  lemma NoFraction()
    ensures FittingDigits([]) == 0 && Pow10(0) == 1 && Value([]) == 0
  {
  }

  /** `parse_duration`. */
  method Parse(orig: seq<byte>, round: Rounding) returns (r: Result<int, ParseError>)
    ensures r == ParseDuration(orig, round)
  {
    hide ReadTerm, AddTerm;
    var s, neg := orig, false;
    if s != [] && (s[0] == MINUS || s[0] == PLUS) {
      neg := s[0] == MINUS;
      s := s[1..];
    }
    if s == [ZERO] {
      return Ok(0);
    }
    if s == [] {
      return Err(Invalid);
    }
    var d: nat := 0;
    while s != []
      invariant ParseTerms(s, d, round) == ParseTerms(Unsigned(orig), 0, round)
      decreases |s|
    {
      var next := ParseTerm(s, d, round);
      if next.Err? {
        return Err(next.error);
      }
      d, s := next.value.0, next.value.1;
    }
    if neg {
      return Ok(-(d as int));
    }
    if d > TWO_63 - 1 {
      return Err(Invalid);
    }
    r := Ok(d);
  }

  // ------------------------------------------------------------------- printer

  lemma {:induction false} DecimalLength(v: nat, k: nat)
    requires k >= 1 && v < Pow10(k)
    ensures |Decimal(v)| <= k
  {
    if v >= 10 {
      assert k >= 2;
      DecimalLength(v / 10, k - 1);
    }
  }

  lemma DecimalSplits(v: nat)
    ensures Decimal(v) == (if v < 10 then [] else Decimal(v / 10)) + [Digit(v)]
  {
  }

  method PutByte(buf: array<byte>, start: nat, b: byte) returns (w: nat)
    requires 1 <= start <= buf.Length
    modifies buf
    ensures w == start - 1 && buf[w..] == [b] + old(buf[start..])
  {
    w := start - 1;
    buf[w] := b;
    assert buf[w..] == [buf[w]] + buf[w + 1..];
  }

  /** `fmt_int`: the decimal digits of `v` written to the left of `start`. */
  method FmtInt(buf: array<byte>, start: nat, v: nat) returns (w: nat)
    requires |Decimal(v)| <= start <= buf.Length
    modifies buf
    ensures w == start - |Decimal(v)|
    ensures buf[w..] == Decimal(v) + old(buf[start..])
  {
    hide Decimal;
    DecimalSplits(v);
    if v == 0 {
      w := PutByte(buf, start, ZERO);
      return;
    }
    w := start;
    var left := v;
    while left > 0
      invariant |Remaining(left)| + start - w == |Decimal(v)| && w <= start
      invariant Remaining(left) + buf[w..] == Decimal(v) + old(buf[start..])
      decreases left
    {
      DecimalSplits(left);
      ShiftOne(Remaining(left / 10), Digit(left), buf[w..]);
      w := PutByte(buf, w, Digit(left));
      left := left / 10;
    }
    assert Remaining(0) + buf[w..] == buf[w..];
  }

  /** The digits still to be written. */
  ghost function Remaining(left: nat): seq<byte> {
    if left == 0 then [] else Decimal(left)
  }

  lemma ShiftOne(front: seq<byte>, b: byte, back: seq<byte>)
    ensures (front + [b]) + back == front + ([b] + back)
  {
  }

  ghost function Quotient(v: nat, i: nat): nat {
    NatDiv(v, Pow10(i))
  }

  ghost function NatDiv(a: nat, b: nat): nat
    requires b > 0
  {
    a / b
  }

  lemma QuotientSteps(v: nat, i: nat)
    ensures Quotient(v, 0) == v
    ensures Quotient(v, i) / 10 == Quotient(v, i + 1)
  {
    var p := Pow10(i);
    var q, r := v / p, v % p;
    var t, d := q / 10, q % 10;
    Distribute(p, t, d);
    AtMostNine(d, p);
    RemainderIs(v, 10 * p, t, d * p + r);
  }

  lemma FractionSplits(v: nat, i: nat)
    ensures FractionDigits(v, i + 1) == WithDigit(Quotient(v, i) % 10, FractionDigits(v, i))
    ensures FractionDigits(v, 0) == []
  {
  }

  /** Digits with one more in front, unless that would be a trailing zero. */
  function WithDigit(digit: nat, text: seq<byte>): seq<byte> {
    if text == [] && digit == 0 then [] else [Digit(digit)] + text
  }

  /** One round of `fmt_frac`: the digit is written once a non-zero one was seen. */
  method PutFracDigit(buf: array<byte>, start: nat, digit: nat, before: bool, ghost text: seq<byte>, ghost tail: seq<byte>)
    returns (w: nat, printing: bool)
    requires 1 <= start <= buf.Length && digit < 10
    requires before == (text != []) && buf[start..] == text + tail
    modifies buf
    ensures printing == (WithDigit(digit, text) != [])
    ensures w + |WithDigit(digit, text)| == start + |text|
    ensures buf[w..] == WithDigit(digit, text) + tail
  {
    hide Digit;
    w := start;
    printing := before || digit != 0;
    if printing {
      w := PutByte(buf, w, Digit(digit));
      assert [Digit(digit)] + (text + tail) == [Digit(digit)] + text + tail;
    }
  }

  /** `fmt_frac`: the low `prec` digits without trailing zeros, after a dot if any are left. */
  method FmtFrac(buf: array<byte>, start: nat, v: nat, prec: nat) returns (w: nat, left: nat)
    requires prec + 1 <= start <= buf.Length
    modifies buf
    ensures w == start - |AfterDot(FractionDigits(v, prec))|
    ensures buf[w..] == AfterDot(FractionDigits(v, prec)) + old(buf[start..])
    ensures left == Quotient(v, prec)
  {
    hide FractionDigits, WithDigit, Quotient;
    ghost var tail := buf[start..];
    w, left := start, v;
    var printing := false;
    QuotientSteps(v, 0);
    FractionSplits(v, 0);
    for i := 0 to prec
      invariant left == Quotient(v, i)
      invariant printing == (FractionDigits(v, i) != [])
      invariant w == start - |FractionDigits(v, i)|
      invariant buf[w..] == FractionDigits(v, i) + tail
    {
      QuotientSteps(v, i);
      FractionSplits(v, i);
      w, printing := PutFracDigit(buf, w, left % 10, printing, FractionDigits(v, i), tail);
      left := left / 10;
    }
    if printing {
      w := PutByte(buf, w, DOT);
      Join([DOT], FractionDigits(v, prec), tail);
    }
  }

  /** A number with its fraction and unit, to the left of what is there. */
  method FmtTerm(buf: array<byte>, start: nat, v: nat, prec: nat, space: nat) returns (w: nat)
    requires space + prec + 1 <= start <= buf.Length
    requires 1 <= space && Quotient(v, prec) < Pow10(space)
    modifies buf
    ensures start - space - prec - 1 <= w <= start
    ensures buf[w..] == Decimal(Quotient(v, prec)) + AfterDot(FractionDigits(v, prec)) + old(buf[start..])
  {
    hide FractionDigits, Quotient, Decimal, Pow10;
    ghost var unit := buf[start..];
    var left;
    w, left := FmtFrac(buf, start, v, prec);
    DecimalLength(left, space);
    w := FmtInt(buf, w, left);
    Join(Decimal(left), AfterDot(FractionDigits(v, prec)), unit);
  }

  /** The part of the printer for durations below a second. */
  method FormatSubsecond(buf: array<byte>, u: nat) returns (w: nat)
    requires buf.Length == 32 && 0 < u < SECOND
    modifies buf
    ensures 1 <= w <= 32 && buf[w..] == FormatMagnitude(u)
  {
    hide Decimal, FractionDigits, Pow10;
    Pow10Values();
    FractionSplits(u, 0);
    w := PutByte(buf, 32, 115);
    assert buf[w..] == LETTER_S;
    if u < 1_000 {
      w := PutByte(buf, w, 110);
      assert buf[w..] == LETTERS_NS;
      w := FmtTerm(buf, w, u, 0, 3);
      Join(Decimal(u), [], LETTERS_NS);
    } else if u < 1_000_000 {
      w := PutByte(buf, w, 0xB5);
      w := PutByte(buf, w, 0xC2);
      assert buf[w..] == LETTERS_US;
      w := FmtTerm(buf, w, u, 3, 3);
    } else {
      w := PutByte(buf, w, 109);
      assert buf[w..] == LETTERS_MS;
      w := FmtTerm(buf, w, u, 6, 3);
    }
  }

  /** The part of the printer for durations of a second and more. */
  method FormatSeconds(buf: array<byte>, magnitude: nat) returns (w: nat)
    requires buf.Length == 32 && SECOND <= magnitude <= TWO_63
    modifies buf
    ensures 1 <= w <= 32 && buf[w..] == FormatMagnitude(magnitude)
  {
    hide Decimal, FractionDigits, SecondsText, MinutesText;
    var u;
    w, u := PutSeconds(buf, magnitude);
    u := u / 60;
    if u > 0 {
      w := PutMinutes(buf, w, magnitude);
      u := u / 60;
      if u > 0 {
        ghost var minutes := buf[w..];
        w := PutByte(buf, w, 104);
        TenAndSeven();
        DecimalLength(u, 7);
        w := FmtInt(buf, w, u);
        Join(Decimal(u), LETTER_H, minutes);
      }
    }
  }

  method PutSeconds(buf: array<byte>, magnitude: nat) returns (w: nat, u: nat)
    requires buf.Length == 32
    modifies buf
    ensures 19 <= w <= 32 && buf[w..] == SecondsText(magnitude) && u == magnitude / SECOND
  {
    hide Decimal, FractionDigits, Pow10;
    Pow10Values();
    TenAndSeven();
    w := PutByte(buf, 32, 115);
    assert buf[w..] == LETTER_S;
    w, u := FmtFrac(buf, w, magnitude, 9);
    DecimalLength(u % 60, 2);
    w := FmtInt(buf, w, u % 60);
    Join(Decimal(u % 60), AfterDot(FractionDigits(magnitude, 9)), LETTER_S);
  }

  method PutMinutes(buf: array<byte>, start: nat, magnitude: nat) returns (w: nat)
    requires buf.Length == 32 && 19 <= start <= 32 && buf[start..] == SecondsText(magnitude)
    modifies buf
    ensures 16 <= w <= 32 && buf[w..] == MinutesText(magnitude)
  {
    hide Decimal, SecondsText, Pow10;
    TenAndSeven();
    w := PutByte(buf, start, 109);
    DecimalLength(magnitude / MINUTE % 60, 2);
    w := FmtInt(buf, w, magnitude / MINUTE % 60);
    Join(Decimal(magnitude / MINUTE % 60), LETTER_M, SecondsText(magnitude));
  }

  lemma TenAndSeven()
    ensures Pow10(2) == 100 && Pow10(7) == 10_000_000
  {
    assert Pow10(1) == 10 && Pow10(3) == 1_000 && Pow10(4) == 10_000 && Pow10(5) == 100_000;
  }

  /** `format_duration`; the writes never leave the 32-byte buffer. */
  method Format(d: int) returns (text: seq<byte>)
    requires IsI64(d)
    ensures text == FormatDuration(d)
  {
    hide SecondsText, MinutesText, Decimal, FractionDigits;
    var buf := new byte[32](_ => 0);
    var u: nat := if d < 0 then -d else d;
    if u == 0 {
      return [ZERO] + LETTER_S;
    }
    var w;
    if u < SECOND {
      w := FormatSubsecond(buf, u);
    } else {
      w := FormatSeconds(buf, u);
    }
    if d < 0 {
      w := PutByte(buf, w, MINUS);
    }
    text := buf[w..];
  }
}
