/**
 * Go duration strings (hsm-core/src/goduration.rs): what the parser accepts and
 * what the printer writes. A string is its UTF-8 bytes.
 *
 * The parser multiplies a fraction in floating point. That product is the
 * parameter `round`; all that is used of it is that it is exact when the scale
 * divides the unit, where every intermediate value is an integer below 2^53.
 */
module GoDuration {
  import opened Options
  import opened Bytes

  const SECOND: nat := 1_000_000_000
  const MINUTE: nat := 60_000_000_000
  const HOUR: nat := 3_600_000_000_000

  const DOT: byte := 46
  const MINUS: byte := 45
  const PLUS: byte := 43
  const ZERO: byte := 48

  predicate IsI64(d: int) {
    -0x8000_0000_0000_0000 <= d < 0x8000_0000_0000_0000
  }

  type Rounding = (nat, nat, nat) -> nat

  datatype ParseError = Invalid | MissingUnit | UnknownUnit

  predicate IsDigit(b: byte) {
    48 <= b < 58
  }

  function DigitValue(b: byte): nat {
    if IsDigit(b) then b - 48 else 0
  }

  function Value(s: seq<byte>): nat {
    if s == [] then 0 else 10 * Value(s[..|s| - 1]) + DigitValue(s[|s| - 1])
  }

  function Pow10(n: nat): (p: nat)
    ensures p > 0
  {
    if n == 0 then 1 else 10 * Pow10(n - 1)
  }

  /** The length of the leading run of digits. */
  function DigitRun(s: seq<byte>): (n: nat)
    ensures n <= |s|
    ensures forall i :: 0 <= i < n ==> IsDigit(s[i])
    ensures n < |s| ==> !IsDigit(s[n])
  {
    if s == [] || !IsDigit(s[0]) then 0 else 1 + DigitRun(s[1..])
  }

  predicate StartsNumber(b: byte) {
    b == DOT || IsDigit(b)
  }

  /** The length of the leading run of bytes that cannot start a number. */
  function UnitRun(s: seq<byte>): (n: nat)
    ensures n <= |s|
    ensures forall i :: 0 <= i < n ==> !StartsNumber(s[i])
    ensures n < |s| ==> StartsNumber(s[n])
  {
    if s == [] || StartsNumber(s[0]) then 0 else 1 + UnitRun(s[1..])
  }

  function UnitOf(u: seq<byte>): Option<nat> {
    if u == [110, 115] then Some(1)                       // ns
    else if u == [117, 115] then Some(1_000)              // us
    else if u == [0xC2, 0xB5, 115] then Some(1_000)       // micro sign, s
    else if u == [0xCE, 0xBC, 115] then Some(1_000)       // Greek mu, s
    else if u == [109, 115] then Some(1_000_000)          // ms
    else if u == [115] then Some(SECOND)                  // s
    else if u == [109] then Some(MINUTE)                  // m
    else if u == [104] then Some(HOUR)                    // h
    else None
  }

  lemma UnitBounds(u: seq<byte>)
    requires UnitOf(u).Some?
    ensures 1 <= UnitOf(u).value <= HOUR
  {
  }

  /** The longest prefix whose value is at most 2^63: the digits of a fraction that are used. */
  function FittingDigits(s: seq<byte>): (n: nat)
    ensures n <= |s|
  {
    if Value(s) <= TWO_63 then |s| else FittingDigits(s[..|s| - 1])
  }

  // ------------------------------------------------------------------- parsing

  datatype Scan = Scan(whole: seq<byte>, fraction: seq<byte>, unit: nat, rest: seq<byte>)

  /** The digits after a leading dot, if there is one, and what follows. */
  function SplitFraction(s: seq<byte>): (r: (seq<byte>, seq<byte>))
    ensures |r.1| <= |s|
  {
    if s == [] || s[0] != DOT then ([], s)
    else (s[1..][..DigitRun(s[1..])], s[1..][DigitRun(s[1..])..])
  }

  /** One term's syntax: digits, a fraction, a unit, and what is left. */
  function ScanTerm(s: seq<byte>): (r: Result<Scan, ParseError>)
    ensures r.Ok? ==> |r.value.rest| < |s| && 1 <= r.value.unit <= HOUR
  {
    var whole := s[..DigitRun(s)];
    var (fraction, tail) := SplitFraction(s[|whole|..]);
    if whole == [] && fraction == [] then Err(Invalid)
    else if UnitRun(tail) == 0 then Err(MissingUnit)
    else match UnitOf(tail[..UnitRun(tail)])
      case None => Err(UnknownUnit)
      case Some(unit) =>
        UnitBounds(tail[..UnitRun(tail)]);
        Ok(Scan(whole, fraction, unit, tail[UnitRun(tail)..]))
  }

  function ReadTerm(s: seq<byte>): (r: Result<Scan, ParseError>)
    requires s != []
    ensures r.Ok? ==> |r.value.rest| < |s| && 1 <= r.value.unit <= HOUR
  {
    if !StartsNumber(s[0]) then Err(Invalid)
    else if Value(s[..DigitRun(s)]) > TWO_63 then Err(Invalid)
    else ScanTerm(s)
  }

  /** A term's nanoseconds in 64-bit arithmetic: `whole` and `f / scale` units. */
  function Amount(whole: nat, f: nat, scale: nat, unit: nat, round: Rounding): Result<nat, ParseError>
    requires unit > 0
  {
    if whole > TWO_63 / unit then Err(Invalid)
    else if f == 0 then Ok(whole * unit)
    else
      var w := (whole * unit + round(f, unit, scale)) % TWO_64;
      if w > TWO_63 then Err(Invalid) else Ok(w)
  }

  /** The running total after one more term. */
  function AddTerm(d: nat, t: Scan, round: Rounding): Result<nat, ParseError>
    requires t.unit > 0
  {
    var used := t.fraction[..FittingDigits(t.fraction)];
    match Amount(Value(t.whole), Value(used), Pow10(|used|), t.unit, round)
    case Err(e) => Err(e)
    case Ok(v) => if (d + v) % TWO_64 > TWO_63 then Err(Invalid) else Ok((d + v) % TWO_64)
  }

  function ParseTerms(s: seq<byte>, d: nat, round: Rounding): Result<nat, ParseError>
    decreases |s|
  {
    if s == [] then Ok(d)
    else match ReadTerm(s)
      case Err(e) => Err(e)
      case Ok(t) =>
        match AddTerm(d, t, round)
        case Err(e) => Err(e)
        case Ok(d1) => ParseTerms(t.rest, d1, round)
  }

  function Unsigned(s: seq<byte>): seq<byte> {
    if s != [] && (s[0] == MINUS || s[0] == PLUS) then s[1..] else s
  }

  predicate Negative(s: seq<byte>) {
    s != [] && s[0] == MINUS
  }

  /** The sign applied to the total; the negation wraps only where it changes nothing. */
  function Signed(neg: bool, d: nat): Result<int, ParseError> {
    if neg then Ok(-(d as int)) else if d > TWO_63 - 1 then Err(Invalid) else Ok(d)
  }

  function ParseDuration(orig: seq<byte>, round: Rounding): Result<int, ParseError> {
    var s := Unsigned(orig);
    if s == [ZERO] then Ok(0)
    else if s == [] then Err(Invalid)
    else match ParseTerms(s, 0, round)
      case Err(e) => Err(e)
      case Ok(d) => Signed(Negative(orig), d)
  }

  // --------------------------------------------------------- what a string means

  /** The product is exact where the scale divides the unit. */
  ghost predicate ExactRounding(round: Rounding) {
    forall f: nat, unit: nat, scale: nat ::
      scale > 0 && f < scale && unit % scale == 0 ==> round(f, unit, scale) == f * (unit / scale)
  }

  /** The term denotes a whole number of nanoseconds digit by digit. */
  predicate ExactTerm(t: Scan) {
    Value(t.fraction) == 0 || t.unit % Pow10(|t.fraction|) == 0
  }

  /** `whole` and `f / scale` units, in nanoseconds. */
  function ExactNanos(whole: nat, f: nat, scale: nat, unit: nat): nat
    requires scale > 0
  {
    var part: nat := unit / scale;
    whole * unit + (if f == 0 then 0 else f * part)
  }

  function TermNanos(t: Scan): nat {
    ExactNanos(Value(t.whole), Value(t.fraction), Pow10(|t.fraction|), t.unit)
  }

  /** The mathematical sum of the terms of a well-formed string, without any bound. */
  function TrueSum(s: seq<byte>): Option<nat>
    decreases |s|
  {
    if s == [] then Some(0)
    else if !StartsNumber(s[0]) then None
    else match ScanTerm(s)
      case Err(_) => None
      case Ok(t) =>
        if !ExactTerm(t) || TrueSum(t.rest).None? then None
        else Some(TermNanos(t) + TrueSum(t.rest).value)
  }

  lemma {:induction false} ValueBound(s: seq<byte>)
    ensures Value(s) < Pow10(|s|)
  {
    if s != [] {
      ValueBound(s[..|s| - 1]);
    }
  }

  lemma AmountExact(whole: nat, f: nat, scale: nat, unit: nat, round: Rounding)
    requires ExactRounding(round) && 1 <= unit <= HOUR && scale > 0 && f < scale
    requires f == 0 || unit % scale == 0
    ensures var n := ExactNanos(whole, f, scale, unit);
            Amount(whole, f, scale, unit, round) == if n <= TWO_63 then Ok(n) else Err(Invalid)
  {
    WholeBound(whole, unit);
    if f != 0 {
      FractionBelowUnit(f, scale, unit);
      var g := f * (unit / scale);
      assert round(f, unit, scale) == g;
      var n := whole * unit;
      if n <= TWO_63 {
        assert (n + g) % TWO_64 == n + g;
      }
    }
  }

  /** One term: accepted with its exact value iff the total stays within 2^63, and otherwise only when it is 2^64. */
  lemma AddTermExact(d: nat, t: Scan, round: Rounding)
    requires ExactRounding(round) && ExactTerm(t) && 1 <= t.unit <= HOUR && d <= TWO_63
    ensures var total := d + TermNanos(t);
            && (total <= TWO_63 ==> AddTerm(d, t, round) == Ok(total))
            && (AddTerm(d, t, round).Ok? ==>
                  && AddTerm(d, t, round).value == total % TWO_64
                  && AddTerm(d, t, round).value <= TWO_63
                  && (total > TWO_63 ==> total == TWO_64))
  {
    hide Amount, Value, Pow10, ExactNanos;
    ValueBound(t.fraction);
    if Value(t.fraction) != 0 {
      FractionBelowUnit(Value(t.fraction), Pow10(|t.fraction|), t.unit);
    }
    assert t.fraction[..|t.fraction|] == t.fraction;
    AmountExact(Value(t.whole), Value(t.fraction), Pow10(|t.fraction|), t.unit, round);
  }

  lemma FractionBelowUnit(f: nat, scale: nat, unit: nat)
    requires scale > 0 && f < scale && unit % scale == 0 && unit > 0
    ensures f * (unit / scale) < unit && scale <= unit
  {
    var q := unit / scale;
    assert unit == scale * q;
    assert q > 0;
    assert f * q < scale * q;
  }

  lemma WholeBound(whole: nat, unit: nat)
    requires unit > 0
    ensures whole > TWO_63 / unit <==> whole * unit > TWO_63
  {
    var q := TWO_63 / unit;
    assert q * unit <= TWO_63 < (q + 1) * unit;
    if whole > q {
      assert whole * unit >= (q + 1) * unit;
    } else {
      assert whole * unit <= q * unit;
    }
  }

  /**
   * Parsing a well-formed string adds up the exact terms: the total is the true
   * sum whenever that is at most 2^63, and in any case agrees with it modulo 2^64.
   */
  lemma {:induction false} ParseTermsExact(s: seq<byte>, d: nat, round: Rounding)
    requires ExactRounding(round) && TrueSum(s).Some? && d <= TWO_63
    ensures var total := d + TrueSum(s).value;
            && (total <= TWO_63 ==> ParseTerms(s, d, round) == Ok(total))
            && (ParseTerms(s, d, round).Ok? ==>
                  && ParseTerms(s, d, round).value <= TWO_63
                  && ParseTerms(s, d, round).value == total % TWO_64)
    decreases |s|
  {
    hide AddTerm, ScanTerm, TermNanos, ExactTerm, Value;
    if s != [] {
      var t := ScanTerm(s).value;
      assert ExactTerm(t);
      AddTermExact(d, t, round);
      var sum := d + TermNanos(t);
      TermCoversWhole(s);
      if ReadTerm(s).Ok? && AddTerm(d, t, round).Ok? {
        var d1 := AddTerm(d, t, round).value;
        ParseTermsExact(t.rest, d1, round);
        var rest := TrueSum(t.rest).value;
        assert (d1 + rest) % TWO_64 == (sum + rest) % TWO_64;
      }
    }
  }

  lemma AtLeastWhole(whole: nat, f: nat, scale: nat, unit: nat)
    requires scale > 0 && unit > 0
    ensures ExactNanos(whole, f, scale, unit) >= whole
  {
    assert whole * unit >= whole;
  }

  lemma TermCoversWhole(s: seq<byte>)
    requires ScanTerm(s).Ok?
    ensures TermNanos(ScanTerm(s).value) >= Value(s[..DigitRun(s)])
    ensures ScanTerm(s).value.whole == s[..DigitRun(s)]
  {
    hide Value, Pow10, UnitOf, UnitRun, DigitRun, ExactNanos;
    var t := ScanTerm(s).value;
    AtLeastWhole(Value(t.whole), Value(t.fraction), Pow10(|t.fraction|), t.unit);
  }

  /** What a string denotes, in nanoseconds: the signed sum of its terms. */
  function Meaning(orig: seq<byte>): Option<int> {
    var s := Unsigned(orig);
    if s == [] then None
    else match TrueSum(s)
      case None => None
      case Some(sum) => Some(if Negative(orig) then -(sum as int) else sum)
  }

  /**
   * The exact condition: a well-formed string with exact fractions parses to
   * what it denotes if and only if that is in the i64 range.
   */
  lemma ParseIsExact(orig: seq<byte>, round: Rounding)
    requires ExactRounding(round) && Meaning(orig).Some?
    ensures ParseDuration(orig, round) == Ok(Meaning(orig).value) <==> IsI64(Meaning(orig).value)
  {
    hide ParseTerms, TrueSum;
    ParseTermsExact(Unsigned(orig), 0, round);
    ZeroHasNoUnit();
  }

  lemma ZeroHasNoUnit()
    ensures TrueSum([ZERO]).None?
  {
    assert DigitRun([ZERO]) == 1;
  }

  // ------------------------------------------------------------------ printing

  const LETTER_H: seq<byte> := [104]
  const LETTER_M: seq<byte> := [109]
  const LETTER_S: seq<byte> := [115]
  const LETTERS_NS: seq<byte> := [110, 115]
  const LETTERS_US: seq<byte> := [0xC2, 0xB5, 115]
  const LETTERS_MS: seq<byte> := [109, 115]

  function Digit(v: nat): byte {
    48 + v % 10
  }

  function Decimal(v: nat): (s: seq<byte>)
    ensures s != []
  {
    if v < 10 then [Digit(v)] else Decimal(v / 10) + [Digit(v)]
  }

  /** The low `k` digits of `v` without trailing zeros. */
  function FractionDigits(v: nat, k: nat): (s: seq<byte>)
    ensures |s| <= k
  {
    if k == 0 then []
    else
      var low := FractionDigits(v, k - 1);
      var digit := v / Pow10(k - 1) % 10;
      if low == [] && digit == 0 then [] else [Digit(digit)] + low
  }

  function AfterDot(s: seq<byte>): seq<byte> {
    if s == [] then [] else [DOT] + s
  }

  /** Seconds with their fraction, of a duration of at least one second. */
  function SecondsText(u: nat): seq<byte> {
    Decimal(u / SECOND % 60) + AfterDot(FractionDigits(u, 9)) + LETTER_S
  }

  function MinutesText(u: nat): seq<byte> {
    Decimal(u / MINUTE % 60) + LETTER_M + SecondsText(u)
  }

  function FormatMagnitude(u: nat): seq<byte> {
    if u == 0 then [ZERO] + LETTER_S
    else if u < 1_000 then Decimal(u) + LETTERS_NS
    else if u < 1_000_000 then Decimal(u / 1_000) + AfterDot(FractionDigits(u, 3)) + LETTERS_US
    else if u < SECOND then Decimal(u / 1_000_000) + AfterDot(FractionDigits(u, 6)) + LETTERS_MS
    else if u < MINUTE then SecondsText(u)
    else if u < HOUR then MinutesText(u)
    else Decimal(u / HOUR) + LETTER_H + MinutesText(u)
  }

  function FormatDuration(d: int): seq<byte> {
    if d < 0 then [MINUS] + FormatMagnitude(-d) else FormatMagnitude(d)
  }

  // --------------------------------------------------------------- round trip

  predicate AllDigits(s: seq<byte>) {
    forall i :: 0 <= i < |s| ==> IsDigit(s[i])
  }

  lemma {:induction false} DecimalReads(v: nat)
    ensures AllDigits(Decimal(v)) && Value(Decimal(v)) == v
  {
    if v < 10 {
      assert [Digit(v)][..0] == [];
    } else {
      DecimalReads(v / 10);
      assert Decimal(v)[..|Decimal(v)| - 1] == Decimal(v / 10);
    }
  }

  lemma TenTimes(c: nat, p: nat)
    ensures c * (10 * p) == 10 * (c * p)
  {
  }

  lemma {:induction false} ValueOfCons(c: byte, s: seq<byte>)
    ensures Value([c] + s) == DigitValue(c) * Pow10(|s|) + Value(s)
  {
    var both := [c] + s;
    if s == [] {
      assert both[..0] == [];
    } else {
      var init := s[..|s| - 1];
      ValueOfCons(c, init);
      assert both[..|s|] == [c] + init;
      assert Value(both) == 10 * Value([c] + init) + DigitValue(s[|s| - 1]);
      assert Value(s) == 10 * Value(init) + DigitValue(s[|s| - 1]);
      assert Pow10(|s|) == 10 * Pow10(|init|);
      hide Value, Pow10, DigitValue;
      TenTimes(DigitValue(c), Pow10(|init|));
    }
  }

  lemma {:induction false} Pow10Adds(m: nat, n: nat)
    ensures Pow10(m + n) == Pow10(m) * Pow10(n)
  {
    if m > 0 {
      Pow10Adds(m - 1, n);
      assert Pow10(m + n) == 10 * Pow10(m - 1 + n);
    }
  }

  lemma SplitDigit(v: nat, p: nat)
    requires p > 0
    ensures v % (10 * p) == v / p % 10 * p + v % p
  {
    var q, r := v / p, v % p;
    var t, d := q / 10, q % 10;
    Distribute(p, t, d);
    assert v == p * q + r;
    assert p * q == (10 * p) * t + d * p;
    AtMostNine(d, p);
    RemainderIs(v, 10 * p, t, d * p + r);
  }

  lemma Distribute(p: nat, t: nat, d: nat)
    ensures p * (10 * t + d) == (10 * p) * t + d * p
  {
  }

  lemma AtMostNine(d: nat, p: nat)
    requires d <= 9
    ensures d * p <= 9 * p
  {
  }

  /** Splitting off the top digit of the low `k + 1` digits. */
  lemma TopDigit(v: nat, k: nat)
    ensures v % Pow10(k + 1) == v / Pow10(k) % 10 * Pow10(k) + v % Pow10(k)
  {
    SplitDigit(v, Pow10(k));
  }

  lemma MultipleIsFar(m: int, k: int)
    requires m > 0
    ensures k >= 1 ==> m * k >= m
    ensures k <= -1 ==> m * k <= -m
  {
  }

  lemma RemainderIs(v: nat, m: nat, t: nat, r: nat)
    requires m > 0 && r < m && v == m * t + r
    ensures v % m == r && v / m == t
  {
    var k := v / m - t;
    assert m * k == r - v % m by {
      assert v == m * (v / m) + v % m;
      assert m * (v / m) - m * t == m * k;
    }
    MultipleIsFar(m, k);
  }

  lemma ScaleUp(digit: nat, p: nat, low: nat, gap: nat)
    ensures (digit * p + low) * gap == digit * (p * gap) + low * gap
  {
  }

  lemma {:induction false} FractionReads(v: nat, k: nat)
    ensures var s := FractionDigits(v, k);
            AllDigits(s) && Value(s) * Pow10(k - |s|) == v % Pow10(k)
  {
    if k > 0 {
      FractionReads(v, k - 1);
      FractionStep(v, k - 1);
    }
  }

  lemma FractionStep(v: nat, k: nat)
    requires var s := FractionDigits(v, k); AllDigits(s) && Value(s) * Pow10(k - |s|) == v % Pow10(k)
    ensures var s := FractionDigits(v, k + 1); AllDigits(s) && Value(s) * Pow10(k + 1 - |s|) == v % Pow10(k + 1)
  {
    hide Pow10, Value;
    var low := FractionDigits(v, k);
    var digit := v / Pow10(k) % 10;
    TopDigit(v, k);
    if low != [] || digit != 0 {
      OneMoreDigit(digit, low, k);
    } else {
      EmptyHasNoValue();
    }
  }

  lemma EmptyHasNoValue()
    ensures Value([]) == 0
  {
  }

  lemma OneMoreDigit(digit: nat, low: seq<byte>, k: nat)
    requires digit < 10 && |low| <= k
    ensures Value([Digit(digit)] + low) * Pow10(k - |low|) == digit * Pow10(k) + Value(low) * Pow10(k - |low|)
  {
    hide Pow10, Value;
    ValueOfCons(Digit(digit), low);
    Pow10Adds(|low|, k - |low|);
    ScaleUp(digit, Pow10(|low|), Value(low), Pow10(k - |low|));
  }

  /** A fraction of `k` digits over a unit of 10^k nanoseconds is exact. */
  lemma FractionIsExact(w: nat, v: nat, k: nat, rest: seq<byte>)
    ensures var t := Scan(Decimal(w), FractionDigits(v, k), Pow10(k), rest);
            ExactTerm(t) && TermNanos(t) == w * Pow10(k) + v % Pow10(k)
  {
    hide Pow10, Value, FractionDigits, Decimal;
    var s := FractionDigits(v, k);
    DecimalReads(w);
    FractionReads(v, k);
    Pow10Adds(|s|, k - |s|);
    RemainderIs(Pow10(k), Pow10(|s|), Pow10(k - |s|), 0);
  }

  predicate Ends(rest: seq<byte>) {
    rest == [] || StartsNumber(rest[0])
  }

  /** A printed term is scanned back into its parts. */
  lemma TermScans(whole: seq<byte>, fraction: seq<byte>, unit: seq<byte>, rest: seq<byte>)
    requires whole != [] && AllDigits(whole) && AllDigits(fraction) && UnitOf(unit).Some? && Ends(rest)
    ensures ScanTerm(whole + AfterDot(fraction) + unit + rest) == Ok(Scan(whole, fraction, UnitOf(unit).value, rest))
  {
    hide UnitOf, DigitRun, UnitRun, AfterDot, SplitFraction;
    var s := whole + AfterDot(fraction) + unit + rest;
    var after := AfterDot(fraction) + unit + rest;
    var tail := unit + rest;
    UnitIsNoNumber(unit);
    DotStarts(fraction, unit, rest);
    assert s == whole + after;
    RunStops(whole, after);
    assert s[..|whole|] == whole && s[|whole|..] == after;
    UnitStops(unit, rest);
    assert tail[..|unit|] == unit && tail[|unit|..] == rest;
  }

  lemma UnitIsNoNumber(unit: seq<byte>)
    requires UnitOf(unit).Some?
    ensures unit != [] && forall i :: 0 <= i < |unit| ==> !StartsNumber(unit[i])
  {
  }

  lemma DotStarts(fraction: seq<byte>, unit: seq<byte>, rest: seq<byte>)
    requires AllDigits(fraction) && unit != [] && !StartsNumber(unit[0])
    ensures var after := AfterDot(fraction) + unit + rest;
            && after != [] && !IsDigit(after[0])
            && SplitFraction(after) == (fraction, unit + rest)
  {
    hide DigitRun;
    var after, tail := AfterDot(fraction) + unit + rest, unit + rest;
    if fraction != [] {
      assert after[1..] == fraction + tail;
      RunStops(fraction, tail);
      assert (fraction + tail)[..|fraction|] == fraction && (fraction + tail)[|fraction|..] == tail;
    } else {
      assert after == tail;
    }
  }

  lemma RunStops(digits: seq<byte>, tail: seq<byte>)
    requires AllDigits(digits) && tail != [] && !IsDigit(tail[0])
    ensures DigitRun(digits + tail) == |digits|
  {
    assert (digits + tail)[|digits|] == tail[0];
  }

  lemma UnitStops(unit: seq<byte>, rest: seq<byte>)
    requires (forall i :: 0 <= i < |unit| ==> !StartsNumber(unit[i])) && Ends(rest)
    ensures UnitRun(unit + rest) == |unit|
  {
    assert rest != [] ==> (unit + rest)[|unit|] == rest[0];
  }

  /** A printed term contributes its nanoseconds to the sum. */
  lemma TermCounts(w: nat, v: nat, k: nat, unit: seq<byte>, rest: seq<byte>)
    requires UnitOf(unit) == Some(Pow10(k)) && Ends(rest) && TrueSum(rest).Some?
    ensures var s := Decimal(w) + AfterDot(FractionDigits(v, k)) + unit + rest;
            && Ends(s)
            && TrueSum(s) == Some(w * Pow10(k) + v % Pow10(k) + TrueSum(rest).value)
  {
    hide ScanTerm, ExactTerm, TermNanos, UnitOf, Pow10, FractionDigits, Decimal, Value;
    DecimalReads(w);
    FractionReads(v, k);
    TermScans(Decimal(w), FractionDigits(v, k), unit, rest);
    FractionIsExact(w, v, k, rest);
    var s := Decimal(w) + AfterDot(FractionDigits(v, k)) + unit + rest;
    assert s[0] == Decimal(w)[0];
    assert IsDigit(s[0]);
  }

  /** A printed whole number of minutes or hours contributes its nanoseconds. */
  lemma WholeCounts(w: nat, unit: seq<byte>, rest: seq<byte>)
    requires UnitOf(unit).Some? && Ends(rest) && TrueSum(rest).Some?
    ensures var s := Decimal(w) + unit + rest;
            && Ends(s)
            && TrueSum(s) == Some(w * UnitOf(unit).value + TrueSum(rest).value)
  {
    hide ScanTerm, UnitOf, Decimal;
    DecimalReads(w);
    TermScans(Decimal(w), [], unit, rest);
    var s := Decimal(w) + unit + rest;
    assert s == Decimal(w) + AfterDot([]) + unit + rest;
    assert s[0] == Decimal(w)[0];
    assert IsDigit(s[0]);
  }

  lemma Pow10Values()
    ensures Pow10(0) == 1 && Pow10(3) == 1_000 && Pow10(6) == 1_000_000 && Pow10(9) == SECOND
  {
    assert Pow10(1) == 10 && Pow10(2) == 100;
    assert Pow10(4) == 10_000 && Pow10(5) == 100_000;
    assert Pow10(7) == 10_000_000 && Pow10(8) == 100_000_000;
  }

  lemma SecondsWithinMinute(u: nat)
    ensures u / SECOND % 60 * SECOND + u % SECOND == u % MINUTE
  {
    var q := u / SECOND;
    RemainderIs(u, MINUTE, q / 60, q % 60 * SECOND + u % SECOND);
  }

  lemma MinutesWithinHour(u: nat)
    ensures u / MINUTE % 60 * MINUTE + u % MINUTE == u % HOUR
  {
    var q := u / MINUTE;
    RemainderIs(u, HOUR, q / 60, q % 60 * MINUTE + u % MINUTE);
  }

  lemma SecondsMean(u: nat)
    ensures Ends(SecondsText(u)) && TrueSum(SecondsText(u)) == Some(u % MINUTE)
  {
    hide TrueSum, Decimal, FractionDigits, Pow10;
    Pow10Values();
    assert TrueSum([]) == Some(0) by {
      NothingSums();
    }
    TermCounts(u / SECOND % 60, u, 9, LETTER_S, []);
    SecondsWithinMinute(u);
    assert SecondsText(u) == SecondsText(u) + [];
  }

  lemma NothingSums()
    ensures TrueSum([]) == Some(0)
  {
  }

  lemma MinutesMean(u: nat)
    ensures Ends(MinutesText(u)) && TrueSum(MinutesText(u)) == Some(u % HOUR)
  {
    hide TrueSum, Decimal, SecondsText;
    SecondsMean(u);
    MinutesWithinHour(u);
    WholeCounts(u / MINUTE % 60, LETTER_M, SecondsText(u));
  }

  lemma MagnitudeMeans(u: nat)
    ensures FormatMagnitude(u) != [] && IsDigit(FormatMagnitude(u)[0])
    ensures TrueSum(FormatMagnitude(u)) == Some(u)
  {
    hide TrueSum, Decimal, FractionDigits, Pow10, SecondsText, MinutesText;
    Pow10Values();
    NothingSums();
    if u < 1_000 {
      SmallMeans(u);
    } else if u < 1_000_000 {
      TermCounts(u / 1_000, u, 3, LETTERS_US, []);
      assert FormatMagnitude(u) == FormatMagnitude(u) + [];
    } else if u < SECOND {
      TermCounts(u / 1_000_000, u, 6, LETTERS_MS, []);
      assert FormatMagnitude(u) == FormatMagnitude(u) + [];
    } else if u < HOUR {
      SecondsMean(u);
      MinutesMean(u);
    } else {
      MinutesMean(u);
      WholeCounts(u / HOUR, LETTER_H, MinutesText(u));
    }
    FirstIsDigit(u);
  }

  lemma ZeroDigit()
    ensures Decimal(0) == [ZERO]
  {
  }

  lemma SmallMeans(u: nat)
    requires u < 1_000
    ensures TrueSum(FormatMagnitude(u)) == Some(u)
  {
    hide TrueSum, Decimal;
    NothingSums();
    if u == 0 {
      ZeroDigit();
      WholeCounts(0, LETTER_S, []);
      assert FormatMagnitude(0) == Decimal(0) + LETTER_S + [];
    } else {
      WholeCounts(u, LETTERS_NS, []);
      assert FormatMagnitude(u) == FormatMagnitude(u) + [];
    }
  }

  lemma FirstIsDigit(u: nat)
    ensures FormatMagnitude(u) != [] && IsDigit(FormatMagnitude(u)[0])
  {
    hide Decimal, FractionDigits;
    forall v: nat ensures Decimal(v) != [] && IsDigit(Decimal(v)[0]) {
      DecimalReads(v);
    }
  }

  /** Every printed duration, i64::MIN included, parses back to itself. */
  lemma DurationRoundTrip(d: int, round: Rounding)
    requires IsI64(d) && ExactRounding(round)
    ensures ParseDuration(FormatDuration(d), round) == Ok(d)
  {
    hide ParseDuration, FormatMagnitude, TrueSum;
    var u := if d < 0 then -d else d;
    MagnitudeMeans(u);
    var text := FormatDuration(d);
    if d < 0 {
      assert text[1..] == FormatMagnitude(u);
    }
    ParseIsExact(text, round);
  }

  /**
   * Beyond the range the code can accept a wrong value: two terms of 2^63
   * nanoseconds wrap the 64-bit total to zero.
   */
  lemma TwoHalvesWrapToZero(round: Rounding)
    requires ExactRounding(round)
    ensures var half := Decimal(TWO_63) + LETTERS_NS;
            && Meaning(half + half) == Some(TWO_64)
            && ParseDuration(half + half, round) == Ok(0)
  {
    hide ReadTerm, AddTerm, ScanTerm, Decimal, TrueSum;
    var half := Decimal(TWO_63) + LETTERS_NS;
    NothingSums();
    HalfTerm(half, []);
    assert half + [] == half;
    HalfTerm(half, half);
    DecimalReads(TWO_63);
    var s := half + half;
    assert s[0] == Decimal(TWO_63)[0];
    assert IsDigit(s[0]);
    var t := Scan(Decimal(TWO_63), [], 1, half);
    HalfAdds(t, round);
    HalfAdds(Scan(Decimal(TWO_63), [], 1, []), round);
    assert ParseTerms(half, TWO_63, round) == ParseTerms([], 0, round);
    assert ParseTerms(s, 0, round) == ParseTerms(half, TWO_63, round);
  }

  lemma HalfTerm(half: seq<byte>, rest: seq<byte>)
    requires half == Decimal(TWO_63) + LETTERS_NS && Ends(rest) && TrueSum(rest).Some?
    ensures ReadTerm(half + rest) == Ok(Scan(Decimal(TWO_63), [], 1, rest))
    ensures Ends(half + rest) && TrueSum(half + rest) == Some(TWO_63 + TrueSum(rest).value)
  {
    hide ScanTerm, Decimal, TrueSum;
    DecimalReads(TWO_63);
    assert half + rest == Decimal(TWO_63) + AfterDot([]) + LETTERS_NS + rest;
    TermScans(Decimal(TWO_63), [], LETTERS_NS, rest);
    WholeCounts(TWO_63, LETTERS_NS, rest);
    assert (half + rest)[..DigitRun(half + rest)] == Decimal(TWO_63) by {
      RunStops(Decimal(TWO_63), LETTERS_NS + rest);
      assert half + rest == Decimal(TWO_63) + (LETTERS_NS + rest);
    }
  }

  lemma HalfAdds(t: Scan, round: Rounding)
    requires t.whole == Decimal(TWO_63) && t.fraction == [] && t.unit == 1
    ensures AddTerm(0, t, round) == Ok(TWO_63) && AddTerm(TWO_63, t, round) == Ok(0)
  {
    hide Decimal;
    DecimalReads(TWO_63);
    assert t.fraction[..FittingDigits(t.fraction)] == [];
  }

  // ---------------------------------------------------------- the forms Go prints

  lemma {:induction false} WholeHasNoFraction(v: nat, k: nat)
    requires v % Pow10(k) == 0
    ensures FractionDigits(v, k) == []
  {
    if k > 0 {
      TopDigit(v, k - 1);
      hide Pow10;
      var p, digit := Pow10(k - 1), v / Pow10(k - 1) % 10;
      NoTopDigit(digit, p, v % p);
      WholeHasNoFraction(v, k - 1);
    }
  }

  lemma NoTopDigit(digit: nat, p: nat, low: nat)
    requires p > 0 && digit * p + low == 0
    ensures digit == 0 && low == 0
  {
    MultipleIsFar(p, digit);
  }

  lemma SmallDecimals()
    ensures Decimal(0) == [48] && Decimal(1) == [49] && Decimal(30) == [51, 48] && Decimal(24) == [50, 52]
  {
    assert Decimal(3) == [51] && Decimal(2) == [50];
  }

  /** Whole durations: 0s, 1ns, 1µs, 1ms, 1s, 1h0m0s, 24h0m0s, -1h0m0s and 1h30m0s. */
  lemma FormatsWholeLikeGo()
    ensures FormatDuration(0) == [48, 115]
    ensures FormatDuration(1) == [49, 110, 115]
    ensures FormatDuration(1_000) == [49, 0xC2, 0xB5, 115]
    ensures FormatDuration(1_000_000) == [49, 109, 115]
    ensures FormatDuration(1_000_000_000) == [49, 115]
    ensures FormatDuration(3_600_000_000_000) == [49, 104, 48, 109, 48, 115]
    ensures FormatDuration(86_400_000_000_000) == [50, 52, 104, 48, 109, 48, 115]
    ensures FormatDuration(-3_600_000_000_000) == [45, 49, 104, 48, 109, 48, 115]
    ensures FormatDuration(5_400_000_000_000) == [49, 104, 51, 48, 109, 48, 115]
  {
    hide Decimal, FractionDigits, Pow10;
    SmallDecimals();
    Pow10Values();
    WholeHasNoFraction(1_000, 3);
    WholeHasNoFraction(1_000_000, 6);
    WholeHasNoFraction(1_000_000_000, 9);
    WholeHasNoFraction(3_600_000_000_000, 9);
    WholeHasNoFraction(86_400_000_000_000, 9);
    WholeHasNoFraction(5_400_000_000_000, 9);
  }

  /** A fraction loses its trailing zeros: 1.5s. */
  lemma FormatsFractionLikeGo()
    ensures FormatDuration(1_500_000_000) == [49, 46, 53, 115]
  {
    hide Decimal;
    SmallDecimals();
    Pow10Values();
    assert Pow10(8) == 100_000_000;
    WholeHasNoFraction(1_500_000_000, 8);
    assert FractionDigits(1_500_000_000, 9) == [53];
  }

  /** One digit with a unit in front of what is already well-formed. */
  lemma OneTerm(n: nat, unit: seq<byte>, rest: seq<byte>)
    requires n < 10 && UnitOf(unit).Some? && Ends(rest) && TrueSum(rest).Some?
    ensures var s := [48 + n] + (unit + rest);
            Ends(s) && TrueSum(s) == Some(n * UnitOf(unit).value + TrueSum(rest).value)
  {
    hide TrueSum, UnitOf, Decimal;
    OneDigit();
    WholeCounts(n, unit, rest);
    Join([48 + n], unit, rest);
  }

  lemma SmallUnits()
    ensures var s := [52] + ([109, 115] + ([53] + ([117, 115] + ([54] + ([110, 115] + [])))));
            Ends(s) && TrueSum(s) == Some(4_005_006)
  {
    hide TrueSum;
    NothingSums();
    OneTerm(6, [110, 115], []);
    OneTerm(5, [117, 115], [54] + ([110, 115] + []));
    OneTerm(4, [109, 115], [53] + ([117, 115] + ([54] + ([110, 115] + []))));
  }

  /** The units: 1h2m3s4ms5us6ns, with both spellings of micro. */
  lemma ParsesUnitsLikeGo(round: Rounding)
    requires ExactRounding(round)
    ensures var small := [52] + ([109, 115] + ([53] + ([117, 115] + ([54] + ([110, 115] + [])))));
            ParseDuration([49] + ([104] + ([50] + ([109] + ([51] + ([115] + small))))), round) == Ok(3_723_004_005_006)
    ensures UnitOf([0xC2, 0xB5, 115]) == UnitOf([0xCE, 0xBC, 115]) == Some(1_000)
  {
    hide TrueSum, ParseDuration;
    SmallUnits();
    var small := [52] + ([109, 115] + ([53] + ([117, 115] + ([54] + ([110, 115] + [])))));
    OneTerm(3, [115], small);
    OneTerm(2, [109], [51] + ([115] + small));
    OneTerm(1, [104], [50] + ([109] + ([51] + ([115] + small))));
    ParseIsExact([49] + ([104] + ([50] + ([109] + ([51] + ([115] + small))))), round);
  }

  lemma OneDigit()
    ensures forall v: nat :: v < 10 ==> Decimal(v) == [48 + v]
  {
  }

  /** The ways to be refused: an empty string, no digits, a number without unit, an unknown unit. */
  lemma RefusesLikeGo(round: Rounding)
    ensures ParseDuration([], round) == Err(Invalid)
    ensures ParseDuration([46, 115], round) == Err(Invalid)
    ensures ParseDuration([51], round) == Err(MissingUnit)
    ensures ParseDuration([49, 100], round) == Err(UnknownUnit)
    ensures ParseDuration([45, 48], round) == Ok(0)
  {
    hide ReadTerm;
    NoDigits();
    NumberAlone();
    UnknownLetter();
  }

  lemma NoDigits()
    ensures ReadTerm([46, 115]) == Err(Invalid)
  {
    assert DigitRun([46, 115]) == 0 && [46, 115][..0] == [];
    assert [46, 115][0..] == [46, 115] && [46, 115][1..] == [115];
    assert DigitRun([115]) == 0;
  }

  lemma NumberAlone()
    ensures ReadTerm([51]) == Err(MissingUnit)
  {
    assert DigitRun([51]) == 1 && [51][..1] == [51] && [51][1..] == [];
    assert Value([51]) == 3 by {
      assert [51][..0] == [];
    }
  }

  lemma UnknownLetter()
    ensures ReadTerm([49, 100]) == Err(UnknownUnit)
  {
    assert DigitRun([49, 100]) == 1 && [49, 100][..1] == [49] && [49, 100][1..] == [100];
    assert Value([49]) == 1 by {
      assert [49][..0] == [];
    }
    assert UnitRun([100]) == 1 && [100][..1] == [100];
  }
}
