/**
 * SSH wire primitives (hsm-core/src/sshwire.rs): length-prefixed strings and
 * big-endian integers of section 5 of RFC 4251, the buffer they are appended to
 * and the cursor that reads them.
 */
module SshWire {
  import opened Options
  import opened Bytes


  type Text = seq<byte>

  /** An SSH string; a length of 2^32 or more loses its upper part. */
  function Str(s: Text): (r: Text)
    ensures |r| == 4 + |s|
  {
    ToBE(|s|, 4) + s
  }

  /** The string at `pos` and the position after it. */
  function StrAt(buf: Text, pos: nat): (r: Option<(Text, nat)>)
    ensures r.Some? ==> pos + 4 <= r.value.1 <= |buf|
  {
    if |buf| < pos + 4 then None
    else
      var len := FromBE(buf[pos..pos + 4]);
      if |buf| < pos + 4 + len then None
      else Some((buf[pos + 4..pos + 4 + len], pos + 4 + len))
  }

  /** A big-endian integer of `n` bytes at `pos`, and the position after it. */
  function IntAt(buf: Text, pos: nat, n: nat): (r: Option<(nat, nat)>)
    ensures r.Some? ==> r.value.1 == pos + n <= |buf|
  {
    if |buf| < pos + n then None else Some((FromBE(buf[pos..pos + n]), pos + n))
  }

  /** `part` stands in `buf` at `pos`. */
  predicate Stands(buf: Text, pos: nat, part: Text) {
    pos + |part| <= |buf| && buf[pos..pos + |part|] == part
  }

  lemma StandsSplit(buf: Text, pos: nat, a: Text, b: Text)
    requires Stands(buf, pos, a + b)
    ensures Stands(buf, pos, a) && Stands(buf, pos + |a|, b)
  {
    var whole := buf[pos..pos + |a + b|];
    assert whole[..|a|] == a && whole[|a|..] == b;
  }

  lemma StandsJoin(buf: Text, pos: nat, a: Text, b: Text)
    requires Stands(buf, pos, a) && Stands(buf, pos + |a|, b)
    ensures Stands(buf, pos, a + b)
  {
    assert buf[pos..pos + |a + b|] == buf[pos..pos + |a|] + buf[pos + |a|..pos + |a + b|];
  }

  lemma StandsToEnd(buf: Text, pos: nat, a: Text)
    requires Stands(buf, pos, a) && pos + |a| == |buf|
    ensures buf[pos..] == a
  {
  }

  /** A string that was put is the string that is read. */
  lemma StrReadsBack(buf: Text, pos: nat, s: Text)
    requires |s| < TWO_32 && Stands(buf, pos, Str(s))
    ensures StrAt(buf, pos) == Some((s, pos + 4 + |s|))
  {
    Pow256Values();
    FromToBE(|s|, 4);
    StandsSplit(buf, pos, ToBE(|s|, 4), s);
  }

  lemma IntReadsBack(buf: Text, pos: nat, v: nat, n: nat)
    requires v < Pow256(n) && Stands(buf, pos, ToBE(v, n))
    ensures IntAt(buf, pos, n) == Some((v, pos + n))
  {
    FromToBE(v, n);
  }

  /** And conversely: what is read stands there as an SSH string. */
  lemma ReadStringStands(buf: Text, pos: nat)
    requires StrAt(buf, pos).Some?
    ensures var (s, next) := StrAt(buf, pos).value;
            |s| < TWO_32 && Stands(buf, pos, Str(s)) && next == pos + 4 + |s|
  {
    var head := buf[pos..pos + 4];
    Pow256Values();
    FromBEBounded(head);
    ToFromBE(head);
    var (s, next) := StrAt(buf, pos).value;
    assert buf[pos..next] == head + s;
  }

  // -------------------------------------------------------------- string lists

  function Strs(items: seq<Text>): Text {
    if items == [] then [] else Strs(items[..|items| - 1]) + Str(items[|items| - 1])
  }

  /** The strings from `pos` to the end of `buf`. */
  function StrsAt(buf: Text, pos: nat): Option<seq<Text>>
    decreases |buf| - pos
  {
    if pos >= |buf| then Some([])
    else match StrAt(buf, pos)
      case None => None
      case Some((s, next)) =>
        match StrsAt(buf, next)
        case None => None
        case Some(rest) => Some([s] + rest)
  }

  predicate AllShort(items: seq<Text>) {
    forall i :: 0 <= i < |items| ==> |items[i]| < TWO_32
  }

  lemma {:induction false} StrsFirst(items: seq<Text>)
    requires items != []
    ensures Strs(items) == Str(items[0]) + Strs(items[1..])
  {
    if |items| == 1 {
      assert items[..0] == [] && items[1..] == [];
    } else {
      hide Str;
      var init, last := items[..|items| - 1], items[|items| - 1];
      StrsFirst(init);
      assert init[1..] == items[1..][..|items| - 2];
      Join(Str(items[0]), Strs(init[1..]), Str(last));
    }
  }

  /** A list of strings is read back item by item, to the last byte. */
  lemma {:induction false} StrsReadBack(buf: Text, pos: nat, items: seq<Text>)
    requires AllShort(items) && Stands(buf, pos, Strs(items)) && pos + |Strs(items)| == |buf|
    ensures StrsAt(buf, pos) == Some(items)
    decreases |items|
  {
    hide StrAt, Str, Stands;
    assert items == [] ==> Strs(items) == [];
    if items != [] {
      StrsFirst(items);
      StandsSplit(buf, pos, Str(items[0]), Strs(items[1..]));
      StrReadsBack(buf, pos, items[0]);
      assert AllShort(items[1..]);
      StrsReadBack(buf, pos + |Str(items[0])|, items[1..]);
      assert items == [items[0]] + items[1..];
    }
  }

  // ------------------------------------------------------------------- objects

  /** The vector that the `put_*` functions append to. */
  class ByteBuffer {
    var data: Text

    constructor ()
      ensures data == []
    {
      data := [];
    }

    method PutRaw(s: Text)
      modifies this
      ensures data == old(data) + s
    {
      data := data + s;
    }

    method PutU32(v: nat)
      modifies this
      ensures data == old(data) + ToBE(v, 4)
    {
      data := data + ToBE(v, 4);
    }

    method PutU64(v: nat)
      modifies this
      ensures data == old(data) + ToBE(v, 8)
    {
      data := data + ToBE(v, 8);
    }

    method PutString(s: Text)
      modifies this
      ensures data == old(data) + Str(s)
    {
      PutU32(|s|);
      PutRaw(s);
    }
  }

  /** A cursor over received bytes. */
  class Reader {
    const buf: Text
    var pos: nat

    constructor (buf: Text)
      ensures this.buf == buf && pos == 0
    {
      this.buf := buf;
      pos := 0;
    }

    method ReadString() returns (r: Option<Text>)
      modifies this
      ensures r == match StrAt(buf, old(pos))
                   case Some((s, _)) => Some(s)
                   case None => None
      ensures r.Some? ==> pos == StrAt(buf, old(pos)).value.1
    {
      if |buf| < pos + 4 {
        return None;
      }
      var len := FromBE(buf[pos..pos + 4]);
      pos := pos + 4;
      if |buf| < pos + len {
        return None;
      }
      r := Some(buf[pos..pos + len]);
      pos := pos + len;
    }

    method Skip(n: nat) returns (ok: bool)
      modifies this
      ensures ok == IntAt(buf, old(pos), n).Some?
      ensures pos == if ok then old(pos) + n else old(pos)
    {
      if |buf| < pos + n {
        return false;
      }
      pos := pos + n;
      ok := true;
    }

    predicate IsEmpty()
      reads this
    {
      pos >= |buf|
    }
  }
}
