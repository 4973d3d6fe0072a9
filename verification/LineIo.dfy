/**
 * Line reassembly (hsm-core/src/lineio.rs): the byte-at-a-time assembler
 * produces the events of splitting the whole stream at newlines.
 */
module LineIo {
  import opened Options
  import opened Bytes

  const MAX_LINE: nat := 16 * 1024
  const NEWLINE: byte := 10
  const CR: byte := 13

  datatype Event = Line(bytes: seq<byte>) | TooLong

  // ------------------------------------------------------------ the batch split

  /** The length of the first line, or of everything when there is no newline. */
  function FirstLine(s: seq<byte>): (n: nat)
    ensures n <= |s|
    ensures forall i :: 0 <= i < n ==> s[i] != NEWLINE
    ensures n < |s| ==> s[n] == NEWLINE
  {
    if s == [] || s[0] == NEWLINE then 0 else 1 + FirstLine(s[1..])
  }

  function DropCr(s: seq<byte>): seq<byte> {
    if s != [] && s[|s| - 1] == CR then s[..|s| - 1] else s
  }

  function EventOf(segment: seq<byte>): Event {
    if |segment| > MAX_LINE then TooLong else Line(DropCr(segment))
  }

  /** One event for every newline-terminated segment. */
  function Events(s: seq<byte>): seq<Event> {
    var n := FirstLine(s);
    if n == |s| then [] else [EventOf(s[..n])] + Events(s[n + 1..])
  }

  /** The bytes after the last newline. */
  function Unfinished(s: seq<byte>): seq<byte> {
    var n := FirstLine(s);
    if n == |s| then s else Unfinished(s[n + 1..])
  }

  lemma {:induction false} SplitAtNewline(s: seq<byte>, n: nat)
    requires n < |s| && s[n] == NEWLINE && forall i :: 0 <= i < n ==> s[i] != NEWLINE
    ensures Events(s) == [EventOf(s[..n])] + Events(s[n + 1..]) && Unfinished(s) == Unfinished(s[n + 1..])
  {
    FirstLineIs(s, n);
  }

  lemma {:induction false} NoNewline(s: seq<byte>)
    requires forall i :: 0 <= i < |s| ==> s[i] != NEWLINE
    ensures Events(s) == [] && Unfinished(s) == s
  {
    FirstLineIs(s, |s|);
  }

  lemma {:induction false} OneMoreByte(s: seq<byte>, b: byte)
    ensures b != NEWLINE ==> Events(s + [b]) == Events(s) && Unfinished(s + [b]) == Unfinished(s) + [b]
    ensures b == NEWLINE ==> Events(s + [b]) == Events(s) + [EventOf(Unfinished(s))] && Unfinished(s + [b]) == []
    decreases |s|
  {
    hide Events, Unfinished, EventOf;
    var t, n := s + [b], FirstLine(s);
    hide FirstLine;
    if n < |s| {
      SplitAtNewline(s, n);
      SplitAtNewline(t, n);
      assert t[..n] == s[..n] && t[n + 1..] == s[n + 1..] + [b];
      OneMoreByte(s[n + 1..], b);
    } else {
      NoNewline(s);
      if b == NEWLINE {
        SplitAtNewline(t, n);
        NoNewline([]);
        assert t[..n] == s && t[n + 1..] == [];
      } else {
        NoNewline(t);
      }
    }
  }

  lemma FirstLineIs(s: seq<byte>, n: nat)
    requires n <= |s| && (forall i :: 0 <= i < n ==> s[i] != NEWLINE) && (n < |s| ==> s[n] == NEWLINE)
    ensures FirstLine(s) == n
  {
  }

  // ---------------------------------------------------------------- the assembler

  class LineAssembler {
    var buf: seq<byte>
    var overflowed: bool
    ghost var seen: seq<byte>     // everything pushed so far

    ghost predicate Valid()
      reads this
    {
      var open := Unfinished(seen);
      if |open| > MAX_LINE then overflowed && buf == [] else !overflowed && buf == open
    }

    constructor ()
      ensures Valid() && seen == []
    {
      buf, overflowed, seen := [], false, [];
    }

    /** `push`: an event exactly when the byte ends a segment, and then that segment's event. */
    method Push(b: byte) returns (event: Option<Event>)
      requires Valid()
      modifies this
      ensures Valid() && |buf| <= MAX_LINE
      ensures seen == old(seen) + [b]
      ensures Events(seen) == Events(old(seen)) + (if event.Some? then [event.value] else [])
      ensures event.Some? <==> b == NEWLINE
    {
      OneMoreByte(seen, b);
      seen := seen + [b];
      if b == NEWLINE {
        if overflowed {
          overflowed, buf := false, [];
          return Some(TooLong);
        }
        if buf != [] && buf[|buf| - 1] == CR {
          buf := buf[..|buf| - 1];
        }
        event := Some(Line(buf));
        buf := [];
        return;
      }
      event := None;
      if overflowed {
        return;
      }
      if |buf| >= MAX_LINE {
        overflowed, buf := true, [];
        return;
      }
      buf := buf + [b];
    }

    /** One chunk, in the order it arrived. */
    method Feed(chunk: seq<byte>) returns (events: seq<Event>)
      requires Valid()
      modifies this
      ensures Valid()
      ensures seen == old(seen) + chunk
      ensures Events(seen) == Events(old(seen)) + events
    {
      hide Events, Unfinished;
      events := [];
      for i := 0 to |chunk|
        invariant Valid()
        invariant seen == old(seen) + chunk[..i]
        invariant Events(seen) == Events(old(seen)) + events
      {
        var event := Push(chunk[i]);
        if event.Some? {
          events := events + [event.value];
        }
      }
    }
  }

  function Concat(chunks: seq<seq<byte>>): seq<byte> {
    if chunks == [] then [] else Concat(chunks[..|chunks| - 1]) + chunks[|chunks| - 1]
  }

  /** However the stream is cut into chunks, the events are those of the batch split. */
  method Assemble(chunks: seq<seq<byte>>) returns (events: seq<Event>)
    ensures events == Events(Concat(chunks))
  {
    hide Events;
    var assembler := new LineAssembler();
    events := [];
    assert Events([]) == [] by {
      NoEvents();
    }
    for i := 0 to |chunks|
      invariant assembler.Valid() && fresh(assembler)
      invariant assembler.seen == Concat(chunks[..i])
      invariant events == Events(assembler.seen)
    {
      var more := assembler.Feed(chunks[i]);
      events := events + more;
      assert chunks[..i + 1][..i] == chunks[..i];
    }
    assert chunks[..|chunks|] == chunks;
  }

  lemma NoEvents()
    ensures Events([]) == []
  {
  }

  /** Every emitted line fits the cap and holds no newline. */
  lemma {:induction false} LinesFit(s: seq<byte>)
    ensures forall i :: 0 <= i < |Events(s)| && Events(s)[i].Line? ==>
              |Events(s)[i].bytes| <= 16_384 && 10 !in Events(s)[i].bytes
    decreases |s|
  {
    var n := FirstLine(s);
    if n < |s| {
      LinesFit(s[n + 1..]);
      assert NEWLINE !in s[..n];
    }
  }

  /** A segment of bytes other than newline, ended by one, in numbers: too long above 16384, else a line without one final CR. */
  lemma OneSegment(s: seq<byte>)
    requires 10 !in s
    ensures Events(s + [10]) == [if |s| > 16_384 then TooLong
                                 else if s != [] && s[|s| - 1] == 13 then Line(s[..|s| - 1]) else Line(s)]
  {
    hide Events, Unfinished;
    NoNewline(s);
    OneMoreByte(s, 10);
  }
}
