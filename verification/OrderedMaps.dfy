/**
 * The ordered maps of a request: entries in strictly increasing key order, as a
 * BTreeMap iterates them.
 */
module OrderedMaps {
  import opened Bytes

  type Entry = (seq<byte>, seq<byte>)

  /** Lexicographic order of byte strings. */
  predicate Less(a: seq<byte>, b: seq<byte>) {
    b != [] && (a == [] || a[0] < b[0] || (a[0] == b[0] && Less(a[1..], b[1..])))
  }

  ghost predicate Ordered(m: seq<Entry>) {
    forall i, j :: 0 <= i < j < |m| ==> Less(m[i].0, m[j].0)
  }

  function ToMap(m: seq<Entry>): map<seq<byte>, seq<byte>> {
    if m == [] then map[] else ToMap(m[1..])[m[0].0 := m[0].1]
  }

  predicate HasKey(m: seq<Entry>, k: seq<byte>) {
    exists i :: 0 <= i < |m| && m[i].0 == k
  }

  /** Insertion at its place, replacing an entry of the same key. */
  function Insert(m: seq<Entry>, k: seq<byte>, v: seq<byte>): seq<Entry> {
    if m == [] then [(k, v)]
    else if m[0].0 == k then [(k, v)] + m[1..]
    else if Less(k, m[0].0) then [(k, v)] + m
    else [m[0]] + Insert(m[1..], k, v)
  }

  function InsertAll(m: seq<Entry>, more: seq<Entry>): seq<Entry> {
    if more == [] then m
    else
      var last := more[|more| - 1];
      Insert(InsertAll(m, more[..|more| - 1]), last.0, last.1)
  }

  // --------------------------------------------------------------------- order

  lemma {:induction false} LessIsStrict(a: seq<byte>)
    ensures !Less(a, a)
  {
    if a != [] {
      LessIsStrict(a[1..]);
    }
  }

  lemma {:induction false} LessIsTotal(a: seq<byte>, b: seq<byte>)
    ensures a == b || Less(a, b) || Less(b, a)
  {
    if a != [] && b != [] && a[0] == b[0] {
      LessIsTotal(a[1..], b[1..]);
      if a[1..] == b[1..] {
        assert a == [a[0]] + a[1..] && b == [b[0]] + b[1..];
      }
    }
  }

  lemma {:induction false} LessIsTransitive(a: seq<byte>, b: seq<byte>, c: seq<byte>)
    requires Less(a, b) && Less(b, c)
    ensures Less(a, c)
  {
    if a != [] && a[0] == b[0] == c[0] {
      LessIsTransitive(a[1..], b[1..], c[1..]);
    }
  }

  // ----------------------------------------------------------------- insertion

  lemma {:induction false} MapKeys(m: seq<Entry>, k: seq<byte>)
    ensures k in ToMap(m) <==> HasKey(m, k)
  {
    if m != [] {
      MapKeys(m[1..], k);
      if HasKey(m, k) && m[0].0 != k {
        var i :| 0 <= i < |m| && m[i].0 == k;
        assert m[1..][i - 1].0 == k;
      }
      if HasKey(m[1..], k) {
        var i :| 0 <= i < |m[1..]| && m[1..][i].0 == k;
        assert m[i + 1].0 == k;
      }
    }
  }

  /** Below every key. */
  ghost predicate Below(k: seq<byte>, m: seq<Entry>) {
    forall i :: 0 <= i < |m| ==> Less(k, m[i].0)
  }

  lemma OrderedCons(e: Entry, m: seq<Entry>)
    requires Ordered(m) && Below(e.0, m)
    ensures Ordered([e] + m)
  {
  }

  lemma OrderedTail(m: seq<Entry>)
    requires m != [] && Ordered(m)
    ensures Ordered(m[1..]) && Below(m[0].0, m[1..])
  {
    forall i | 0 <= i < |m[1..]| ensures Less(m[0].0, m[1..][i].0) {
      assert m[1..][i] == m[i + 1];
    }
    forall i, j | 0 <= i < j < |m[1..]| ensures Less(m[1..][i].0, m[1..][j].0) {
      assert m[1..][i] == m[i + 1] && m[1..][j] == m[j + 1];
    }
  }

  /** Inserting keeps the order, and changes exactly the one binding. */
  lemma {:induction false} InsertIsUpdate(m: seq<Entry>, k: seq<byte>, v: seq<byte>)
    requires Ordered(m)
    ensures Ordered(Insert(m, k, v))
    ensures ToMap(Insert(m, k, v)) == ToMap(m)[k := v]
    ensures forall l: seq<byte> :: Below(l, m) && Less(l, k) ==> Below(l, Insert(m, k, v))
  {
    if m == [] {
      assert [(k, v)][1..] == [];
    } else {
      OrderedTail(m);
      var rest := m[1..];
      if m[0].0 == k {
        OrderedCons((k, v), rest);
        assert ([(k, v)] + rest)[1..] == rest;
      } else if Less(k, m[0].0) {
        forall i | 0 <= i < |m| ensures Less(k, m[i].0) {
          if i > 0 {
            LessIsTransitive(k, m[0].0, m[i].0);
          }
        }
        OrderedCons((k, v), m);
        assert ([(k, v)] + m)[1..] == m;
      } else {
        LessIsTotal(k, m[0].0);
        InsertIsUpdate(rest, k, v);
        OrderedCons(m[0], Insert(rest, k, v));
        assert ([m[0]] + Insert(rest, k, v))[1..] == Insert(rest, k, v);
        assert ToMap(m)[k := v] == ToMap(rest)[k := v][m[0].0 := m[0].1];
        forall l: seq<byte> | Below(l, m) && Less(l, k) ensures Below(l, Insert(m, k, v)) {
          assert forall i :: 0 <= i < |rest| ==> rest[i] == m[i + 1];
          assert Below(l, rest);
        }
      }
    }
  }

  lemma {:induction false} MapOfInit(m: seq<Entry>)
    requires m != [] && Ordered(m)
    ensures ToMap(m) == ToMap(m[..|m| - 1])[m[|m| - 1].0 := m[|m| - 1].1]
  {
    if |m| == 1 {
      assert m[1..] == [] && m[..0] == [];
    } else {
      OrderedTail(m);
      MapOfInit(m[1..]);
      var init := m[..|m| - 1];
      assert m[1..][..|m| - 2] == init[1..];
      assert m[1..][|m| - 2] == m[|m| - 1];
      LessIsStrict(m[0].0);
      assert Less(m[0].0, m[|m| - 1].0);
    }
  }

  /** Inserting one map into another: order kept, right-biased union. */
  lemma {:induction false} InsertAllIsUnion(m: seq<Entry>, more: seq<Entry>)
    requires Ordered(m) && Ordered(more)
    ensures Ordered(InsertAll(m, more)) && ToMap(InsertAll(m, more)) == ToMap(m) + ToMap(more)
  {
    hide Insert, Less, ToMap;
    assert ToMap([]) == map[] by {
      NoEntries();
    }
    if more != [] {
      var init, last := more[..|more| - 1], more[|more| - 1];
      InsertAllIsUnion(m, init);
      InsertIsUpdate(InsertAll(m, init), last.0, last.1);
      MapOfInit(more);
    }
  }

  lemma NoEntries()
    ensures ToMap([]) == map[]
  {
  }
}
