/**
 * OpenSSH certificates (hsm-core/src/cert.rs), encoded as in OpenSSH
 * PROTOCOL.certkeys, and the proof that the signed bytes can be read in one way
 * only. A map is its entries in key order.
 */
module Certificates {
  import opened Options
  import opened Bytes
  import opened SshWire
  import opened PublicKeys
  import opened OrderedMaps

  const CERT_TYPE_USER: nat := 1

  datatype CertParams = CertParams(
    algo: Algo,
    body: Text,
    nonce: Text,
    serial: nat,
    keyId: Text,
    principals: seq<Text>,
    validAfter: nat,
    validBefore: nat,
    critical: seq<Entry>,
    extensions: seq<Entry>)

  // ------------------------------------------------------------------ encoding

  /** The value field of an option: empty for a flag, else a string within the string. */
  function ValueField(v: Text): Text {
    if v == [] then [] else Str(v)
  }

  function Flatten(entries: seq<Entry>): seq<Text> {
    if entries == [] then []
    else
      var last := entries[|entries| - 1];
      Flatten(entries[..|entries| - 1]) + [last.0, ValueField(last.1)]
  }

  function Tuples(entries: seq<Entry>): Text {
    Strs(Flatten(entries))
  }

  function HeadPart(p: CertParams): Text {
    Str(CertName(p.algo)) + (Str(p.nonce) + p.body)
  }

  function IdentityPart(p: CertParams): Text {
    ToBE(p.serial, 8) + (ToBE(CERT_TYPE_USER, 4) + (Str(p.keyId) + Str(Strs(p.principals))))
  }

  function OptionsPart(p: CertParams): Text {
    ToBE(p.validAfter, 8) + (ToBE(p.validBefore, 8) + (Str(Tuples(p.critical)) + Str(Tuples(p.extensions))))
  }

  function AuthorityPart(ca: Text): Text {
    Str([]) + Str(ca)
  }

  /** Everything that is signed, up to and including the signature key. */
  function SignedBytes(p: CertParams, ca: Text): Text {
    HeadPart(p) + (IdentityPart(p) + (OptionsPart(p) + AuthorityPart(ca)))
  }

  function CertBlob(p: CertParams, ca: Text, sign: Text -> Text): Text {
    SignedBytes(p, ca) + Str(sign(SignedBytes(p, ca)))
  }

  // ------------------------------------------------------------------ decoding

  datatype Head = Head(certAlgo: Text, nonce: Text, body: Text)
  datatype Identity = Identity(serial: nat, certType: nat, keyId: Text, principals: seq<Text>)
  datatype Terms = Terms(validAfter: nat, validBefore: nat, critical: seq<Entry>, extensions: seq<Entry>)
  datatype Decoded = Decoded(head: Head, identity: Identity, terms: Terms, reserved: Text, ca: Text,
                             signedLen: nat, signature: Text)

  /** The position after the body's one or two strings. */
  function BodyEnd(buf: Text, pos: nat, parts: nat): Option<nat>
    requires parts <= 2
    decreases parts
  {
    if parts == 0 then Some(pos)
    else match StrAt(buf, pos)
      case None => None
      case Some((_, next)) => BodyEnd(buf, next, parts - 1)
  }

  function HeadAt(buf: Text, pos: nat): Option<(Head, nat)> {
    match StrAt(buf, pos)
    case None => None
    case Some((certAlgo, p1)) =>
      match StrAt(buf, p1)
      case None => None
      case Some((nonce, p2)) =>
        match BodyEnd(buf, p2, if certAlgo == CertName(Ed25519) then 1 else 2)
        case None => None
        case Some(p3) => if p2 <= p3 <= |buf| then Some((Head(certAlgo, nonce, buf[p2..p3]), p3)) else None
  }

  function IdentityAt(buf: Text, pos: nat): Option<(Identity, nat)> {
    match IntAt(buf, pos, 8)
    case None => None
    case Some((serial, p1)) =>
      match IntAt(buf, p1, 4)
      case None => None
      case Some((certType, p2)) =>
        match StrAt(buf, p2)
        case None => None
        case Some((keyId, p3)) =>
          match StrAt(buf, p3)
          case None => None
          case Some((list, p4)) =>
            match StrsAt(list, 0)
            case None => None
            case Some(principals) => Some((Identity(serial, certType, keyId, principals), p4))
  }

  /** A value field back to its value. */
  function FieldValue(field: Text): Option<Text> {
    if field == [] then Some([])
    else match StrAt(field, 0)
      case Some((v, end)) => if end == |field| then Some(v) else None
      case None => None
  }

  function Unflatten(items: seq<Text>): Option<seq<Entry>> {
    if items == [] then Some([])
    else if |items| == 1 then None
    else
      match Unflatten(items[..|items| - 2])
      case None => None
      case Some(before) =>
        match FieldValue(items[|items| - 1])
        case None => None
        case Some(v) => Some(before + [(items[|items| - 2], v)])
  }

  function EntriesIn(list: Text): Option<seq<Entry>> {
    match StrsAt(list, 0)
    case None => None
    case Some(items) => Unflatten(items)
  }

  function TermsAt(buf: Text, pos: nat): Option<(Terms, nat)> {
    match IntAt(buf, pos, 8)
    case None => None
    case Some((validAfter, p1)) =>
      match IntAt(buf, p1, 8)
      case None => None
      case Some((validBefore, p2)) =>
        match StrAt(buf, p2)
        case None => None
        case Some((crit, p3)) =>
          match StrAt(buf, p3)
          case None => None
          case Some((ext, p4)) =>
            var critical, extensions := EntriesIn(crit), EntriesIn(ext);
            if critical.None? || extensions.None? then None
            else Some((Terms(validAfter, validBefore, critical.value, extensions.value), p4))
  }

  /** Walk a certificate from its first byte to its last; trailing bytes are refused. */
  function Decode(buf: Text): Option<Decoded> {
    match HeadAt(buf, 0)
    case None => None
    case Some((head, p1)) =>
      match IdentityAt(buf, p1)
      case None => None
      case Some((identity, p2)) =>
        match TermsAt(buf, p2)
        case None => None
        case Some((terms, p3)) =>
          match StrAt(buf, p3)
          case None => None
          case Some((reserved, p4)) =>
            match StrAt(buf, p4)
            case None => None
            case Some((ca, p5)) =>
              match StrAt(buf, p5)
              case None => None
              case Some((signature, end)) =>
                if end != |buf| then None
                else Some(Decoded(head, identity, terms, reserved, ca, p5, signature))
  }

  // ---------------------------------------------------------------- round trip

  predicate ShortEntries(entries: seq<Entry>) {
    forall i :: 0 <= i < |entries| ==> |entries[i].0| < TWO_32 && |entries[i].1| < TWO_32 - 4
  }

  /** Every length that is written as 32 bits is below 2^32, and every integer fits its field. */
  ghost predicate Encodable(p: CertParams) {
    && IsBody(p.algo, p.body)
    && |p.nonce| < TWO_32 && |p.keyId| < TWO_32
    && p.serial < TWO_64 && p.validAfter < TWO_64 && p.validBefore < TWO_64
    && AllShort(p.principals) && |Strs(p.principals)| < TWO_32
    && ShortEntries(p.critical) && |Tuples(p.critical)| < TWO_32
    && ShortEntries(p.extensions) && |Tuples(p.extensions)| < TWO_32
  }

  lemma {:induction false} FlattenReads(entries: seq<Entry>)
    requires ShortEntries(entries)
    ensures AllShort(Flatten(entries)) && Unflatten(Flatten(entries)) == Some(entries)
  {
    hide FieldValue, ValueField, Flatten, Unflatten;
    assert Flatten([]) == [] && Unflatten([]) == Some([]) by {
      NothingFlattens();
    }
    if entries != [] {
      var init, last := entries[..|entries| - 1], entries[|entries| - 1];
      FlattenReads(init);
      FieldReads(last.1);
      FlattenSnoc(init, last);
      UnflattenSnoc(Flatten(init), last.0, ValueField(last.1));
      assert entries == init + [last];
    }
  }

  lemma NothingFlattens()
    ensures Flatten([]) == [] && Unflatten([]) == Some([])
  {
  }

  lemma FlattenSnoc(init: seq<Entry>, last: Entry)
    ensures Flatten(init + [last]) == Flatten(init) + [last.0, ValueField(last.1)]
  {
    assert (init + [last])[..|init|] == init;
  }

  lemma UnflattenSnoc(items: seq<Text>, k: Text, field: Text)
    requires Unflatten(items).Some? && FieldValue(field).Some?
    ensures Unflatten(items + [k, field]) == Some(Unflatten(items).value + [(k, FieldValue(field).value)])
  {
    assert (items + [k, field])[..|items|] == items;
  }

  lemma FieldReads(v: Text)
    requires |v| < TWO_32 - 4
    ensures |ValueField(v)| < TWO_32 && FieldValue(ValueField(v)) == Some(v)
  {
    if v != [] {
      assert Str(v)[0..|Str(v)|] == Str(v);
      StrReadsBack(Str(v), 0, v);
    }
  }

  lemma EntriesRead(entries: seq<Entry>)
    requires ShortEntries(entries)
    ensures EntriesIn(Tuples(entries)) == Some(entries)
  {
    hide StrsAt, Unflatten, Flatten;
    FlattenReads(entries);
    var list := Tuples(entries);
    assert list[0..|list|] == list;
    StrsReadBack(list, 0, Flatten(entries));
  }

  lemma BodyReads(buf: Text, pos: nat, algo: Algo, body: Text)
    requires IsBody(algo, body) && Stands(buf, pos, body)
    ensures BodyEnd(buf, pos, BodyParts(algo)) == Some(pos + |body|)
  {
    hide StrAt, Str;
    if algo == Ed25519 {
      var x: Text :| |x| < TWO_32 && body == Str(x);
      StrReadsBack(buf, pos, x);
      assert BodyEnd(buf, pos + |body|, 0) == Some(pos + |body|);
    } else {
      var x: Text, y: Text :| |x| < TWO_32 && |y| < TWO_32 && body == Str(x) + Str(y);
      StandsSplit(buf, pos, Str(x), Str(y));
      StrReadsBack(buf, pos, x);
      StrReadsBack(buf, pos + |Str(x)|, y);
      assert BodyEnd(buf, pos + |Str(x)|, 1) == BodyEnd(buf, pos + |body|, 0) == Some(pos + |body|);
    }
  }

  lemma CertNamesDiffer(a: Algo, b: Algo)
    requires CertName(a) == CertName(b)
    ensures a == b
  {
    var suffix := Ascii("-cert-v01@openssh.com");
    assert Name(a) == CertName(a)[..|CertName(a)| - |suffix|];
    assert Name(b) == CertName(b)[..|CertName(b)| - |suffix|];
    assert |Name(Ed25519)| == 11 && |Name(Rsa)| == 7;
    assert |Name(P256)| == |Name(P384)| == |Name(P521)| == 19;
    assert Name(P256)[16] == 50 && Name(P384)[16] == 51 && Name(P521)[16] == 53;
  }

  lemma CertNameIsShort(a: Algo)
    ensures |CertName(a)| < TWO_32
  {
  }

  lemma HeadReads(buf: Text, pos: nat, p: CertParams)
    requires Encodable(p) && Stands(buf, pos, HeadPart(p))
    ensures HeadAt(buf, pos) == Some((Head(CertName(p.algo), p.nonce, p.body), pos + |HeadPart(p)|))
  {
    hide StrAt, Str, CertName, BodyEnd, IsBody;
    var name := CertName(p.algo);
    CertNameIsShort(p.algo);
    StandsSplit(buf, pos, Str(name), Str(p.nonce) + p.body);
    StrReadsBack(buf, pos, name);
    var p1 := pos + |Str(name)|;
    StandsSplit(buf, p1, Str(p.nonce), p.body);
    StrReadsBack(buf, p1, p.nonce);
    BodyReads(buf, p1 + |Str(p.nonce)|, p.algo, p.body);
    if name == CertName(Ed25519) {
      CertNamesDiffer(p.algo, Ed25519);
    }
  }

  lemma StandsWhole(list: Text)
    ensures Stands(list, 0, list)
  {
    assert list[0..|list|] == list;
  }

  lemma IdentityReads(buf: Text, pos: nat, p: CertParams)
    requires Encodable(p) && Stands(buf, pos, IdentityPart(p))
    ensures IdentityAt(buf, pos)
            == Some((Identity(p.serial, CERT_TYPE_USER, p.keyId, p.principals), pos + |IdentityPart(p)|))
  {
    hide StrAt, Str, IntAt, StrsAt, IsBody, ShortEntries, ToBE, Strs, Tuples, Stands;
    Pow256Values();
    var list := Strs(p.principals);
    StandsSplit(buf, pos, ToBE(p.serial, 8), ToBE(CERT_TYPE_USER, 4) + (Str(p.keyId) + Str(list)));
    IntReadsBack(buf, pos, p.serial, 8);
    StandsSplit(buf, pos + 8, ToBE(CERT_TYPE_USER, 4), Str(p.keyId) + Str(list));
    IntReadsBack(buf, pos + 8, CERT_TYPE_USER, 4);
    StandsSplit(buf, pos + 12, Str(p.keyId), Str(list));
    StrReadsBack(buf, pos + 12, p.keyId);
    StrReadsBack(buf, pos + 12 + |Str(p.keyId)|, list);
    StandsWhole(list);
    StrsReadBack(list, 0, p.principals);
  }

  lemma TermsRead(buf: Text, pos: nat, p: CertParams)
    requires Encodable(p) && Stands(buf, pos, OptionsPart(p))
    ensures TermsAt(buf, pos)
            == Some((Terms(p.validAfter, p.validBefore, p.critical, p.extensions), pos + |OptionsPart(p)|))
  {
    hide StrAt, Str, IntAt, EntriesIn, IsBody, Tuples, AllShort, ShortEntries;
    Pow256Values();
    var crit, ext := Tuples(p.critical), Tuples(p.extensions);
    StandsSplit(buf, pos, ToBE(p.validAfter, 8), ToBE(p.validBefore, 8) + (Str(crit) + Str(ext)));
    IntReadsBack(buf, pos, p.validAfter, 8);
    StandsSplit(buf, pos + 8, ToBE(p.validBefore, 8), Str(crit) + Str(ext));
    IntReadsBack(buf, pos + 8, p.validBefore, 8);
    StandsSplit(buf, pos + 16, Str(crit), Str(ext));
    StrReadsBack(buf, pos + 16, crit);
    StrReadsBack(buf, pos + 16 + |Str(crit)|, ext);
    EntriesRead(p.critical);
    EntriesRead(p.extensions);
  }

  // ------------------------------------------------- the wire, in bytes

  const CERT_SUFFIX: Text := [45, 99, 101, 114, 116, 45, 118, 48, 49, 64, 111, 112, 101, 110, 115, 115, 104, 46, 99, 111, 109]    // -cert-v01@openssh.com

  /** The certificate algorithm names of PROTOCOL.certkeys, byte by byte. */
  function WireName(a: Algo): Text {
    match a
    case Ed25519 => [115, 115, 104, 45, 101, 100, 50, 53, 53, 49, 57] + CERT_SUFFIX    // ssh-ed25519
    case Rsa => [115, 115, 104, 45, 114, 115, 97] + CERT_SUFFIX    // ssh-rsa
    case P256 => [101, 99, 100, 115, 97, 45, 115, 104, 97, 50, 45, 110, 105, 115, 116, 112, 50, 53, 54] + CERT_SUFFIX    // ecdsa-sha2-nistp256
    case P384 => [101, 99, 100, 115, 97, 45, 115, 104, 97, 50, 45, 110, 105, 115, 116, 112, 51, 56, 52] + CERT_SUFFIX    // ecdsa-sha2-nistp384
    case P521 => [101, 99, 100, 115, 97, 45, 115, 104, 97, 50, 45, 110, 105, 115, 116, 112, 53, 50, 49] + CERT_SUFFIX    // ecdsa-sha2-nistp521
  }

  lemma CertNamesOnTheWire(a: Algo)
    ensures CertName(a) == WireName(a)
  {
    hide Ascii;
    SuffixOnTheWire();
    match a
    case Ed25519 => Ed25519OnTheWire();
    case Rsa => RsaOnTheWire();
    case P256 => P256OnTheWire();
    case P384 => P384OnTheWire();
    case P521 => P521OnTheWire();
  }

  lemma SuffixOnTheWire()
    ensures Ascii("-cert-v01@openssh.com") == CERT_SUFFIX
  {
  }

  lemma Ed25519OnTheWire()
    ensures Ascii("ssh-ed25519") == [115, 115, 104, 45, 101, 100, 50, 53, 53, 49, 57]
  {
  }

  lemma RsaOnTheWire()
    ensures Ascii("ssh-rsa") == [115, 115, 104, 45, 114, 115, 97]
  {
  }

  lemma P256OnTheWire()
    ensures Ascii("ecdsa-sha2-nistp256") == [101, 99, 100, 115, 97, 45, 115, 104, 97, 50, 45, 110, 105, 115, 116, 112, 50, 53, 54]
  {
  }

  lemma P384OnTheWire()
    ensures Ascii("ecdsa-sha2-nistp384") == [101, 99, 100, 115, 97, 45, 115, 104, 97, 50, 45, 110, 105, 115, 116, 112, 51, 56, 52]
  {
  }

  lemma P521OnTheWire()
    ensures Ascii("ecdsa-sha2-nistp521") == [101, 99, 100, 115, 97, 45, 115, 104, 97, 50, 45, 110, 105, 115, 116, 112, 53, 50, 49]
  {
  }

  lemma SmallInts(v: byte)
    ensures ToBE(v, 4) == [0, 0, 0, v]
    ensures ToBE(v, 8) == [0, 0, 0, 0, 0, 0, 0, v]
  {
    assert ToBE(0, 1) == [0] && ToBE(0, 2) == [0, 0] && ToBE(0, 3) == [0, 0, 0] && ToBE(0, 4) == [0, 0, 0, 0];
    assert ToBE(0, 5) == [0, 0, 0, 0, 0] && ToBE(0, 6) == [0, 0, 0, 0, 0, 0] && ToBE(0, 7) == [0, 0, 0, 0, 0, 0, 0];
  }

  /** Type 1, a user certificate, stands in four bytes right after the serial. */
  lemma TypeOnTheWire(p: CertParams, ca: Text)
    ensures var at := |HeadPart(p)| + 8;
            Stands(SignedBytes(p, ca), at, [0, 0, 0, 1])
  {
    hide Str, Strs, ToBE, HeadPart, OptionsPart, AuthorityPart;
    SmallInts(1);
    var s, h := SignedBytes(p, ca), HeadPart(p);
    var i, rest := IdentityPart(p), OptionsPart(p) + AuthorityPart(ca);
    assert s[0..|s|] == s;
    StandsSplit(s, 0, h, i + rest);
    StandsSplit(s, |h|, i, rest);
    var tail := Str(p.keyId) + Str(Strs(p.principals));
    StandsSplit(s, |h|, ToBE(p.serial, 8), ToBE(CERT_TYPE_USER, 4) + tail);
    StandsSplit(s, |h| + 8, ToBE(CERT_TYPE_USER, 4), tail);
  }

  /** One small certificate, as PROTOCOL.certkeys lays it out. */
  const SAMPLE: CertParams :=
    CertParams(Ed25519, [0, 0, 0, 1, 7], [9], 0x0102, [107], [[97], [98, 99]], 1, 2, [([120], [121])], [([112], [])])

  /** A string shorter than 256 bytes. */
  lemma ShortStr(s: Text)
    requires |s| < 256
    ensures Str(s) == [0, 0, 0, |s|] + s
  {
    SmallInts(|s|);
  }

  lemma SampleHead()
    ensures HeadPart(SAMPLE) == ([0, 0, 0, 32] + WireName(Ed25519)) + ([0, 0, 0, 1, 9] + [0, 0, 0, 1, 7])
  {
    hide Str, CertName;
    CertNamesOnTheWire(Ed25519);
    assert |WireName(Ed25519)| == 32;
    ShortStr(WireName(Ed25519));
    ShortStr([9]);
    assert Str([9]) == [0, 0, 0, 1, 9];
  }

  lemma SampleIdentity()
    ensures IdentityPart(SAMPLE)
            == [0, 0, 0, 0, 0, 0, 1, 2] + ([0, 0, 0, 1] + ([0, 0, 0, 1, 107] + [0, 0, 0, 11, 0, 0, 0, 1, 97, 0, 0, 0, 2, 98, 99]))
  {
    hide Str, ToBE, Strs;
    SmallInts(1);
    SampleSerial();
    SamplePrincipals();
    ShortStr([107]);
    assert Str([107]) == [0, 0, 0, 1, 107];
    ShortStr([0, 0, 0, 1, 97, 0, 0, 0, 2, 98, 99]);
    assert [0, 0, 0, 11] + [0, 0, 0, 1, 97, 0, 0, 0, 2, 98, 99] == [0, 0, 0, 11, 0, 0, 0, 1, 97, 0, 0, 0, 2, 98, 99];
  }

  lemma SampleSerial()
    ensures ToBE(0x0102, 8) == [0, 0, 0, 0, 0, 0, 1, 2]
  {
    SmallInts(1);
    assert ToBE(1, 8) == ToBE(0, 7) + [1];
    assert ToBE(0, 7) == ToBE(1, 8)[..7];
    assert ToBE(0, 7) == ToBE(0, 6) + [0];
    assert ToBE(0, 6) == ToBE(0, 7)[..6];
    assert ToBE(1, 7) == ToBE(0, 6) + [1];
  }

  lemma SamplePrincipals()
    ensures Strs([[97], [98, 99]]) == [0, 0, 0, 1, 97, 0, 0, 0, 2, 98, 99]
  {
    hide Str;
    ShortStr([97]);
    ShortStr([98, 99]);
    assert Str([97]) == [0, 0, 0, 1, 97] && Str([98, 99]) == [0, 0, 0, 2, 98, 99];
    StrsSnoc([], [97]);
    StrsSnoc([[97]], [98, 99]);
    assert [] + [[97]] == [[97]] && [[97]] + [[98, 99]] == [[97], [98, 99]];
  }

  /** A valued option is a string within a string, a flag an empty string. */
  lemma SampleTuples()
    ensures Tuples([([120], [121])]) == [0, 0, 0, 1, 120, 0, 0, 0, 5, 0, 0, 0, 1, 121]
    ensures Tuples([([112], [])]) == [0, 0, 0, 1, 112, 0, 0, 0, 0]
  {
    hide Str, Tuples;
    ShortStr([120]);
    ShortStr([121]);
    ShortStr([112]);
    ShortStr([]);
    assert Str([121]) == [0, 0, 0, 1, 121];
    ShortStr([0, 0, 0, 1, 121]);
    OneTuple([120], [121]);
    OneTuple([112], []);
  }

  lemma OneTuple(k: Text, v: Text)
    ensures Tuples([(k, v)]) == Str(k) + Str(ValueField(v))
  {
    hide Str, ValueField;
    TuplesNext([(k, v)], 0);
    NoTuples([(k, v)]);
    assert [(k, v)][..1] == [(k, v)];
    assert [] + Str(k) + Str(ValueField(v)) == Str(k) + Str(ValueField(v));
  }

  lemma SampleOptions()
    ensures OptionsPart(SAMPLE)
            == [0, 0, 0, 0, 0, 0, 0, 1] + ([0, 0, 0, 0, 0, 0, 0, 2]
               + (([0, 0, 0, 14] + [0, 0, 0, 1, 120, 0, 0, 0, 5, 0, 0, 0, 1, 121]) + ([0, 0, 0, 9] + [0, 0, 0, 1, 112, 0, 0, 0, 0])))
  {
    hide Str, ToBE, Tuples;
    SmallInts(1);
    SmallInts(2);
    SampleTuples();
    ShortStr(Tuples([([120], [121])]));
    ShortStr(Tuples([([112], [])]));
  }

  /**
   * All the fields of a certificate in the order of PROTOCOL.certkeys: name, nonce
   * and key, serial and type, key id and principals, times, options, the reserved
   * string and the signature key.
   */
  lemma SampleOnTheWire()
    ensures SignedBytes(SAMPLE, [5])
            == (([0, 0, 0, 32] + WireName(Ed25519)) + ([0, 0, 0, 1, 9] + [0, 0, 0, 1, 7]))
               + (([0, 0, 0, 0, 0, 0, 1, 2] + ([0, 0, 0, 1] + ([0, 0, 0, 1, 107] + [0, 0, 0, 11, 0, 0, 0, 1, 97, 0, 0, 0, 2, 98, 99])))
               + (([0, 0, 0, 0, 0, 0, 0, 1] + ([0, 0, 0, 0, 0, 0, 0, 2]
                   + (([0, 0, 0, 14] + [0, 0, 0, 1, 120, 0, 0, 0, 5, 0, 0, 0, 1, 121]) + ([0, 0, 0, 9] + [0, 0, 0, 1, 112, 0, 0, 0, 0]))))
               + ([0, 0, 0, 0] + [0, 0, 0, 1, 5])))
  {
    hide HeadPart, IdentityPart, OptionsPart, Str, WireName;
    SampleHead();
    SampleIdentity();
    SampleOptions();
    ShortStr([]);
    ShortStr([5]);
    assert Str([]) == [0, 0, 0, 0] && Str([5]) == [0, 0, 0, 1, 5];
  }

  /** What decoding must give back. */
  function Expected(p: CertParams, ca: Text, signature: Text): Decoded {
    Decoded(Head(WireName(p.algo), p.nonce, p.body),
            Identity(p.serial, 1, p.keyId, p.principals),
            Terms(p.validAfter, p.validBefore, p.critical, p.extensions),
            [], ca, |SignedBytes(p, ca)|, signature)
  }

  /**
   * Decoding recovers every parameter, ends the signed part exactly where it
   * ends, and leaves no trailing byte.
   */
  lemma CertificateDecodes(p: CertParams, ca: Text, signature: Text)
    requires Encodable(p) && |ca| < TWO_32 && |signature| < TWO_32
    ensures Decode(SignedBytes(p, ca) + Str(signature)) == Some(Expected(p, ca, signature))
  {
    hide HeadAt, IdentityAt, TermsAt, HeadPart, IdentityPart, OptionsPart, StrAt, Str, Encodable, CertName, WireName;
    CertNamesOnTheWire(p.algo);
    var buf := SignedBytes(p, ca) + Str(signature);
    var h, i, o := HeadPart(p), IdentityPart(p), OptionsPart(p);
    assert buf[0..|SignedBytes(p, ca)|] == SignedBytes(p, ca);
    assert Stands(buf, |SignedBytes(p, ca)|, Str(signature));
    StandsSplit(buf, 0, h, i + (o + AuthorityPart(ca)));
    StandsSplit(buf, |h|, i, o + AuthorityPart(ca));
    StandsSplit(buf, |h| + |i|, o, AuthorityPart(ca));
    var q := |h| + |i| + |o|;
    StandsSplit(buf, q, Str([]), Str(ca));
    HeadReads(buf, 0, p);
    IdentityReads(buf, |h|, p);
    TermsRead(buf, |h| + |i|, p);
    StrReadsBack(buf, q, []);
    StrReadsBack(buf, q + |Str([])|, ca);
    StrReadsBack(buf, |SignedBytes(p, ca)|, signature);
  }

  /** Distinct parameters or authorities give distinct signed bytes. */
  lemma SignedBytesAreUnique(p: CertParams, ca: Text, q: CertParams, cb: Text)
    requires Encodable(p) && Encodable(q) && |ca| < TWO_32 && |cb| < TWO_32
    requires SignedBytes(p, ca) == SignedBytes(q, cb)
    ensures p == q && ca == cb
  {
    hide Decode, SignedBytes, Encodable, CertName, WireName;
    CertNamesOnTheWire(p.algo);
    CertNamesOnTheWire(q.algo);
    CertificateDecodes(p, ca, []);
    CertificateDecodes(q, cb, []);
    CertNamesDiffer(p.algo, q.algo);
  }

  // ------------------------------------------------------------------ assembly

  method PutPrincipals(principals: seq<Text>, out: ByteBuffer)
    modifies out
    ensures out.data == old(out.data) + Strs(principals)
  {
    hide Str;
    for i := 0 to |principals|
      invariant out.data == old(out.data) + Strs(principals[..i])
    {
      assert principals[..i + 1][..i] == principals[..i];
      Join(old(out.data), Strs(principals[..i]), Str(principals[i]));
      out.PutString(principals[i]);
    }
    assert principals[..|principals|] == principals;
  }

  lemma StrsSnoc(items: seq<Text>, x: Text)
    ensures Strs(items + [x]) == Strs(items) + Str(x)
  {
    assert (items + [x])[..|items|] == items;
  }

  lemma TuplesNext(entries: seq<Entry>, i: nat)
    requires i < |entries|
    ensures Tuples(entries[..i + 1]) == Tuples(entries[..i]) + Str(entries[i].0) + Str(ValueField(entries[i].1))
  {
    hide Str, ValueField, Strs;
    var k, v := entries[i].0, ValueField(entries[i].1);
    assert entries[..i + 1][..i] == entries[..i];
    var items := Flatten(entries[..i]);
    assert Flatten(entries[..i + 1]) == items + [k, v] == (items + [k]) + [v];
    StrsSnoc(items, k);
    StrsSnoc(items + [k], v);
  }

  method PutTuples(entries: seq<Entry>, out: ByteBuffer)
    modifies out
    ensures out.data == old(out.data) + Tuples(entries)
  {
    hide Str, Tuples;
    assert Tuples(entries[..0]) == [] by {
      NoTuples(entries);
    }
    for i := 0 to |entries|
      invariant out.data == old(out.data) + Tuples(entries[..i])
    {
      TuplesNext(entries, i);
      var (k, v) := entries[i];
      out.PutString(k);
      if v == [] {
        out.PutString([]);
      } else {
        var inner := new ByteBuffer();
        inner.PutString(v);
        assert inner.data == Str(v);
        out.PutString(inner.data);
      }
      Join(old(out.data) + Tuples(entries[..i]), Str(k), Str(ValueField(v)));
      Join(old(out.data), Tuples(entries[..i]), Str(k));
      Join(old(out.data), Tuples(entries[..i]) + Str(k), Str(ValueField(v)));
    }
    assert entries[..|entries|] == entries;
  }

  lemma NoTuples(entries: seq<Entry>)
    ensures Tuples(entries[..0]) == []
  {
    assert entries[..0] == [];
  }

  /** Four appends in a row are one append of their nesting. */
  lemma JoinFour(start: Text, a: Text, b: Text, c: Text, d: Text)
    ensures start + a + b + c + d == start + (a + (b + (c + d)))
  {
    Join(a, b, c + d);
    Join(a + b, c, d);
    Join(start, a, b);
    Join(start, a + b, c);
    Join(start, a + b + c, d);
  }

  method PutIdentity(p: CertParams, out: ByteBuffer)
    modifies out
    ensures out.data == old(out.data) + IdentityPart(p)
  {
    hide Str, Strs, ToBE;
    out.PutU64(p.serial);
    out.PutU32(CERT_TYPE_USER);
    out.PutString(p.keyId);
    var principals := new ByteBuffer();
    PutPrincipals(p.principals, principals);
    assert principals.data == Strs(p.principals);
    out.PutString(principals.data);
    JoinFour(old(out.data), ToBE(p.serial, 8), ToBE(CERT_TYPE_USER, 4), Str(p.keyId), Str(Strs(p.principals)));
  }

  method PutTerms(p: CertParams, out: ByteBuffer)
    modifies out
    ensures out.data == old(out.data) + OptionsPart(p)
  {
    hide Str, Tuples, ToBE;
    out.PutU64(p.validAfter);
    out.PutU64(p.validBefore);
    var critical := new ByteBuffer();
    PutTuples(p.critical, critical);
    assert critical.data == Tuples(p.critical);
    out.PutString(critical.data);
    var extensions := new ByteBuffer();
    PutTuples(p.extensions, extensions);
    assert extensions.data == Tuples(p.extensions);
    out.PutString(extensions.data);
    JoinFour(old(out.data), ToBE(p.validAfter, 8), ToBE(p.validBefore, 8), Str(Tuples(p.critical)), Str(Tuples(p.extensions)));
  }

  /** `build_certificate` up to the base64: field by field into one buffer. */
  method BuildCertificate(p: CertParams, ca: Text, sign: Text -> Text) returns (blob: Text)
    ensures blob == CertBlob(p, ca, sign)
  {
    hide Str, CertName, IdentityPart, OptionsPart;
    var out := new ByteBuffer();
    out.PutString(CertName(p.algo));
    out.PutString(p.nonce);
    out.PutRaw(p.body);
    assert out.data == HeadPart(p);
    PutIdentity(p, out);
    PutTerms(p, out);
    out.PutString([]);
    out.PutString(ca);
    Join(HeadPart(p) + IdentityPart(p) + OptionsPart(p), Str([]), Str(ca));
    Join(HeadPart(p) + IdentityPart(p), OptionsPart(p), AuthorityPart(ca));
    Join(HeadPart(p), IdentityPart(p), OptionsPart(p) + AuthorityPart(ca));
    assert out.data == SignedBytes(p, ca);
    out.PutString(sign(out.data));
    blob := out.data;
  }
}
