/**
 * Canonical positive mpints of section 5 of RFC 4251, as RSA keys carry them
 * (hsm-core/src/sshwire.rs).
 */
module Mpint {
  import opened Options
  import opened Bytes
  import opened SshWire

  /** `positive_mpint_magnitude`: one leading zero only, and only as sign padding. */
  function Magnitude(bytes: Text): (m: Option<Text>)
    ensures m.Some? ==> m.value != [] && m.value[0] != 0
  {
    if bytes == [] || bytes[0] >= 0x80 then None
    else if bytes[0] == 0 then
      if |bytes| == 1 || bytes[1] < 0x80 then None else Some(bytes[1..])
    else Some(bytes)
  }

  /** The number of significant bits of a byte: 8 less its leading zeros. */
  function TopBits(b: byte): nat {
    if b >= 128 then 8
    else if b >= 64 then 7
    else if b >= 32 then 6
    else if b >= 16 then 5
    else if b >= 8 then 4
    else if b >= 4 then 3
    else if b >= 2 then 2
    else if b >= 1 then 1
    else 0
  }

  function BitLen(bytes: Text): Option<nat> {
    match Magnitude(bytes)
    case None => None
    case Some(m) => Some((|m| - 1) * 8 + TopBits(m[0]))
  }

  /** `positive_mpint_u64`: shifting in a byte at a time loses nothing. */
  method ReadU64(bytes: Text) returns (r: Option<nat>)
    ensures r == U64Of(bytes)
    ensures r.Some? ==> r.value < TWO_64
  {
    var magnitude := Magnitude(bytes);
    if magnitude.None? {
      return None;
    }
    var m := magnitude.value;
    if |m| > 8 {
      return None;
    }
    var value := 0;
    for i := 0 to |m|
      invariant value == FromBE(m[..i])
    {
      assert m[..i + 1][..i] == m[..i];
      ShortIsBelow(m[..i], 7);
      value := value * 256 % TWO_64 + m[i];
    }
    assert m[..|m|] == m;
    ShortIsBelow(m, 8);
    r := Some(value);
  }

  function U64Of(bytes: Text): Option<nat> {
    match Magnitude(bytes)
    case None => None
    case Some(m) => if |m| > 8 then None else Some(FromBE(m))
  }

  lemma {:induction false} Pow256Grows(m: nat, n: nat)
    requires m <= n
    ensures 0 < Pow256(m) <= Pow256(n)
  {
    if m < n {
      Pow256Grows(m, n - 1);
    } else if m > 0 {
      Pow256Grows(m - 1, m - 1);
    }
  }

  lemma ShortIsBelow(s: Text, n: nat)
    requires |s| <= n && (n == 7 || n == 8)
    ensures FromBE(s) < if n == 7 then 0x100_0000_0000_0000 else TWO_64
  {
    FromBEBounded(s);
    Pow256Grows(|s|, n);
    Pow256Values();
    assert Pow256(8) == 256 * Pow256(7);
  }

  // ------------------------------------------------------------------- values

  /** A number whose first byte is `t` lies between `t` and `t + 1` units of the remaining length. */
  lemma {:induction false} LeadingByte(s: Text)
    requires s != []
    ensures s[0] * Pow256(|s| - 1) <= FromBE(s) < (s[0] as nat + 1) * Pow256(|s| - 1)
  {
    if |s| == 1 {
      assert s[..0] == [];
    } else {
      var init := s[..|s| - 1];
      LeadingByte(init);
      var p := Pow256(|s| - 2);
      Rescale(s[0], p);
      Rescale(s[0] as nat + 1, p);
    }
  }

  lemma Rescale(t: nat, p: nat)
    ensures t * (256 * p) == 256 * (t * p)
  {
  }

  /** A magnitude without leading zero determines its length. */
  lemma MagnitudeLength(a: Text, b: Text)
    requires a != [] && a[0] != 0 && |b| < |a|
    ensures FromBE(b) < FromBE(a)
  {
    LeadingByte(a);
    FromBEBounded(b);
    Pow256Grows(|b|, |a| - 1);
    AtLeastOne(a[0], Pow256(|a| - 1));
  }

  lemma AtLeastOne(t: nat, p: nat)
    requires t >= 1
    ensures t * p >= p
  {
  }

  /** The canonical encoding of a magnitude. */
  function Encoding(m: Text): Text {
    if m != [] && m[0] >= 0x80 then [0] + m else m
  }

  /** Two accepted encodings of the same value are the same bytes. */
  lemma CanonicalMpintsAreInjective(a: Text, b: Text)
    requires Magnitude(a).Some? && Magnitude(b).Some?
    requires FromBE(Magnitude(a).value) == FromBE(Magnitude(b).value)
    ensures a == b
  {
    var m, n := Magnitude(a).value, Magnitude(b).value;
    if |m| < |n| {
      MagnitudeLength(n, m);
    } else if |n| < |m| {
      MagnitudeLength(m, n);
    }
    ToFromBE(m);
    ToFromBE(n);
    EncodingOfMagnitude(a);
    EncodingOfMagnitude(b);
  }

  lemma EncodingOfMagnitude(a: Text)
    requires Magnitude(a).Some?
    ensures a == Encoding(Magnitude(a).value)
  {
    if a[0] == 0 {
      assert a == [0] + a[1..];
    }
  }

  /** Every positive number has an accepted encoding. */
  lemma EveryMagnitudeEncodes(m: Text)
    requires m != [] && m[0] != 0
    ensures Magnitude(Encoding(m)) == Some(m)
  {
    if m[0] >= 0x80 {
      assert ([0] + m)[1..] == m;
    }
  }

  /** The bytes of a positive number, without leading zeros. */
  function MagnitudeOf(v: nat): (m: Text)
    requires v > 0
    ensures m != [] && m[0] != 0
  {
    if v < 256 then [v] else MagnitudeOf(v / 256) + [v % 256]
  }

  /** Every positive number has an accepted encoding, which by injectivity is its only one. */
  lemma {:induction false} EveryNumberEncodes(v: nat)
    requires v > 0
    ensures FromBE(MagnitudeOf(v)) == v
    ensures Magnitude(Encoding(MagnitudeOf(v))) == Some(MagnitudeOf(v))
  {
    EveryMagnitudeEncodes(MagnitudeOf(v));
    var m := MagnitudeOf(v);
    if v < 256 {
      assert m[..0] == [];
    } else {
      EveryNumberEncodes(v / 256);
      assert m[..|m| - 1] == MagnitudeOf(v / 256);
    }
  }

  // ------------------------------------------------------------------ bit length

  lemma TopBitsBound(b: byte)
    requires b > 0
    ensures 1 <= TopBits(b) <= 8 && Pow2(TopBits(b) - 1) <= b < Pow2(TopBits(b))
  {
    assert Pow2(1) == 2 && Pow2(2) == 4 && Pow2(3) == 8 && Pow2(4) == 16;
    assert Pow2(5) == 32 && Pow2(6) == 64 && Pow2(7) == 128 && Pow2(8) == 256;
  }

  lemma {:induction false} Pow2OfBytes(k: nat, e: nat)
    ensures Pow2(8 * k + e) == Pow2(e) * Pow256(k)
  {
    if k > 0 {
      Pow2OfBytes(k - 1, e);
      EightMore(8 * (k - 1) + e);
      Rescale(Pow2(e), Pow256(k - 1));
    }
  }

  lemma EightMore(n: nat)
    ensures Pow2(n + 8) == 256 * Pow2(n)
  {
    assert Pow2(n + 8) == 2 * Pow2(n + 7) == 4 * Pow2(n + 6) == 8 * Pow2(n + 5) == 16 * Pow2(n + 4);
    assert Pow2(n + 4) == 2 * Pow2(n + 3) == 4 * Pow2(n + 2) == 8 * Pow2(n + 1) == 16 * Pow2(n);
  }

  /** The bit length is exact: the value is in [2^(b-1), 2^b). */
  lemma BitLenIsExact(bytes: Text)
    requires BitLen(bytes).Some?
    ensures var b, v := BitLen(bytes).value, FromBE(Magnitude(bytes).value);
            b >= 1 && Pow2(b - 1) <= v < Pow2(b)
  {
    hide Pow2, Pow256, FromBE;
    var m := Magnitude(bytes).value;
    var top, k := TopBits(m[0]), |m| - 1;
    LeadingByte(m);
    TopBitsBound(m[0]);
    Pow2OfBytes(k, top - 1);
    Pow2OfBytes(k, top);
    Pow256Grows(k, k);
    ScaleOrder(Pow2(top - 1), m[0], Pow256(k));
    ScaleOrder(m[0] as nat + 1, Pow2(top), Pow256(k));
  }

  lemma ScaleOrder(a: nat, b: nat, p: nat)
    requires a <= b
    ensures a * p <= b * p
  {
  }

  lemma {:induction false} Pow2Grows(m: nat, n: nat)
    requires m <= n
    ensures Pow2(m) <= Pow2(n)
  {
    if m < n {
      Pow2Grows(m, n - 1);
    }
  }
}
