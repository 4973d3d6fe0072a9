/** Bytes and big-endian integers (`to_be_bytes` and `from_be_bytes`). */
module Bytes {
  type byte = b: int | 0 <= b < 256

  const TWO_32: nat := 0x1_0000_0000
  const TWO_63: nat := 0x8000_0000_0000_0000
  const TWO_64: nat := 0x1_0000_0000_0000_0000

  function Pow256(n: nat): nat {
    if n == 0 then 1 else 256 * Pow256(n - 1)
  }

  function FromBE(s: seq<byte>): nat {
    if s == [] then 0 else FromBE(s[..|s| - 1]) * 256 + s[|s| - 1]
  }

  /** The low `n` bytes of `v`, most significant first. */
  function ToBE(v: nat, n: nat): (s: seq<byte>)
    ensures |s| == n
  {
    if n == 0 then [] else ToBE(v / 256, n - 1) + [v % 256]
  }

  lemma {:induction false} FromToBE(v: nat, n: nat)
    requires v < Pow256(n)
    ensures FromBE(ToBE(v, n)) == v
  {
    if n > 0 {
      assert v / 256 < Pow256(n - 1);
      FromToBE(v / 256, n - 1);
      assert ToBE(v, n)[..n - 1] == ToBE(v / 256, n - 1);
    }
  }

  lemma {:induction false} FromBEBounded(s: seq<byte>)
    ensures FromBE(s) < Pow256(|s|)
  {
    if s != [] {
      FromBEBounded(s[..|s| - 1]);
    }
  }

  lemma {:induction false} ToFromBE(s: seq<byte>)
    ensures ToBE(FromBE(s), |s|) == s
  {
    if s != [] {
      var init := s[..|s| - 1];
      ToFromBE(init);
      assert FromBE(s) / 256 == FromBE(init) && FromBE(s) % 256 == s[|s| - 1];
      assert s == init + [s[|s| - 1]];
    }
  }

  lemma Pow256Values()
    ensures Pow256(2) == 0x1_0000 && Pow256(4) == 0x1_0000_0000 && Pow256(8) == 0x1_0000_0000_0000_0000
  {
    assert Pow256(1) == 256 && Pow256(3) == 0x100_0000;
    assert Pow256(5) == 0x100_0000_0000 && Pow256(6) == 0x1_0000_0000_0000 && Pow256(7) == 0x100_0000_0000_0000;
  }

  function Pow2(n: nat): (p: nat)
    ensures p > 0
  {
    if n == 0 then 1 else 2 * Pow2(n - 1)
  }

  /** Bitwise AND of the low `n` bits. */
  function AndBits(a: nat, b: nat, n: nat): (r: nat)
    ensures r < Pow2(n)
  {
    if n == 0 then 0
    else 2 * AndBits(a / 2, b / 2, n - 1) + (if a % 2 == 1 && b % 2 == 1 then 1 else 0)
  }

  /** NOR programming clears bits: a bitwise AND. */
  function AndByte(a: byte, b: byte): byte {
    assert Pow2(4) == 16;
    assert Pow2(8) == 256;
    AndBits(a, b, 8)
  }

  lemma {:induction false} AndBitsWithOnes(a: nat, n: nat)
    requires a < Pow2(n)
    ensures AndBits(a, Pow2(n) - 1, n) == a && AndBits(Pow2(n) - 1, a, n) == a && AndBits(a, 0, n) == 0
  {
    if n > 0 {
      var ones := Pow2(n) - 1;
      assert ones / 2 == Pow2(n - 1) - 1 && ones % 2 == 1;
      assert a / 2 < Pow2(n - 1);
      AndBitsWithOnes(a / 2, n - 1);
      hide Pow2;
      assert AndBits(a, ones, n) == 2 * AndBits(a / 2, ones / 2, n - 1) + a % 2;
      assert AndBits(ones, a, n) == 2 * AndBits(ones / 2, a / 2, n - 1) + a % 2;
      assert AndBits(a, 0, n) == 2 * AndBits(a / 2, 0, n - 1);
    }
  }

  lemma {:induction false} AndBitsWithItself(a: nat, n: nat)
    requires a < Pow2(n)
    ensures AndBits(a, a, n) == a && AndBits(0, a, n) == 0
  {
    if n > 0 {
      AndBitsWithItself(a / 2, n - 1);
    }
  }

  /** Programming 0xFF changes nothing, programming 0 clears, and an erased byte takes what is programmed. */
  lemma AndKeepsOrClears(b: byte)
    ensures AndByte(b, 0xFF) == b && AndByte(0xFF, b) == b && AndByte(b, 0) == 0
  {
    assert Pow2(4) == 16;
    assert Pow2(8) == 256;
    AndBitsWithOnes(b, 8);
  }

  function Filled(b: byte, n: nat): seq<byte> {
    seq(n, _ => b)
  }

  lemma Join(a: seq<byte>, b: seq<byte>, c: seq<byte>)
    ensures a + (b + c) == a + b + c
  {
  }
}
