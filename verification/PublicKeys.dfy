/**
 * Submitted public keys, from the decoded blob on (`parse_authorized_key` and
 * `parse_key_kind` of hsm-core/src/sshwire.rs, `validate_public_key` of
 * hsm-core/src/validate.rs). Whether a point lies on its curve is the
 * parameter `onCurve`.
 */
module PublicKeys {
  import opened Options
  import opened Bytes
  import opened SshWire
  import opened Mpint

  datatype Algo = Ed25519 | Rsa | P256 | P384 | P521

  datatype KeyError = BadBlob | TrailingData | Rejected

  datatype KeyKind = KeyKind(algo: Algo, rsaBits: nat)

  datatype ParsedKey = ParsedKey(algo: Algo, body: Text, kind: KeyKind)

  type CurveCheck = (Algo, Text) -> bool

  const MIN_RSA_BITS: nat := 2048
  const MAX_RSA_BITS: nat := 8192

  function Ascii(s: string): (t: Text)
    ensures |t| == |s|
  {
    seq(|s|, i requires 0 <= i < |s| => if s[i] < 128 as char then s[i] as int else 63)
  }

  function Name(a: Algo): Text {
    match a
    case Ed25519 => Ascii("ssh-ed25519")
    case Rsa => Ascii("ssh-rsa")
    case P256 => Ascii("ecdsa-sha2-nistp256")
    case P384 => Ascii("ecdsa-sha2-nistp384")
    case P521 => Ascii("ecdsa-sha2-nistp521")
  }

  function CertName(a: Algo): Text {
    Name(a) + Ascii("-cert-v01@openssh.com")
  }

  function CurveName(a: Algo): Text {
    match a
    case P256 => Ascii("nistp256")
    case P384 => Ascii("nistp384")
    case _ => Ascii("nistp521")
  }

  function PointLen(a: Algo): nat {
    match a
    case P256 => 65
    case P384 => 97
    case _ => 133
  }

  /** `parse_key_kind` on a blob read up to `pos`. */
  function KindAt(algo: Algo, blob: Text, pos: nat, onCurve: CurveCheck): Result<KeyKind, KeyError> {
    match StrAt(blob, pos)
    case None => Err(BadBlob)
    case Some((first, next)) =>
      match algo
      case Ed25519 =>
        if |first| != 32 then Err(Rejected)
        else if next < |blob| then Err(TrailingData)
        else Ok(KeyKind(Ed25519, 0))
      case Rsa =>
        var e := U64Of(first);
        if e.None? then Err(Rejected)
        else if e.value < 3 || e.value % 2 == 0 then Err(Rejected)
        else (match StrAt(blob, next)
              case None => Err(BadBlob)
              case Some((modulus, end)) =>
                if BitLen(modulus).None? then Err(Rejected)
                else if end < |blob| then Err(TrailingData)
                else Ok(KeyKind(Rsa, BitLen(modulus).value)))
      case _ =>
        match StrAt(blob, next)
        case None => Err(BadBlob)
        case Some((point, end)) =>
          if first != CurveName(algo) then Err(Rejected)
          else if |point| != PointLen(algo) || point[0] != 4 then Err(Rejected)
          else if !onCurve(algo, point) then Err(Rejected)
          else if end < |blob| then Err(TrailingData)
          else Ok(KeyKind(algo, 0))
  }

  /** The declared algorithm against the decoded blob. */
  function ParseKey(algo: Algo, blob: Text, onCurve: CurveCheck): Result<ParsedKey, KeyError> {
    match StrAt(blob, 0)
    case None => Err(BadBlob)
    case Some((inner, pos)) =>
      if inner != Name(algo) then Err(BadBlob)
      else
        match KindAt(algo, blob, pos, onCurve)
        case Err(e) => Err(e)
        case Ok(kind) => Ok(ParsedKey(algo, blob[pos..], kind))
  }

  /** `validate_public_key`; a refusal is `Rejected`. */
  predicate KindAllowed(kind: KeyKind) {
    kind.algo == Rsa ==> MIN_RSA_BITS <= kind.rsaBits <= MAX_RSA_BITS
  }

  // --------------------------------------------------------------- key bodies

  /** How many SSH strings the body of a key has. */
  function BodyParts(a: Algo): nat {
    if a == Ed25519 then 1 else 2
  }

  ghost predicate IsBody(a: Algo, body: Text) {
    if a == Ed25519 then exists x: Text :: |x| < TWO_32 && body == Str(x)
    else exists x: Text, y: Text :: |x| < TWO_32 && |y| < TWO_32 && body == Str(x) + Str(y)
  }

  lemma StrAtFits(blob: Text, pos: nat)
    ensures StrAt(blob, pos).Some? ==> StrAt(blob, pos).value.1 <= |blob|
  {
  }

  /** Two strings up to the end of the blob are the whole blob. */
  lemma TwoStrings(blob: Text, first: Text, pos: nat, second: Text, end: nat)
    requires StrAt(blob, 0) == Some((first, pos)) && StrAt(blob, pos) == Some((second, end)) && end >= |blob|
    ensures blob == Str(first) + Str(second) && blob[pos..] == Str(second)
    ensures |first| < TWO_32 && |second| < TWO_32
  {
    hide Str, StrAt, Stands;
    ReadStringStands(blob, 0);
    ReadStringStands(blob, pos);
    StrAtFits(blob, pos);
    StandsToEnd(blob, pos, Str(second));
    StandsJoin(blob, 0, Str(first), Str(second));
    StandsToEnd(blob, 0, Str(first) + Str(second));
    assert blob[0..] == blob;
  }

  lemma ThreeStrings(blob: Text, first: Text, pos: nat, second: Text, next: nat, third: Text, end: nat)
    requires StrAt(blob, 0) == Some((first, pos)) && StrAt(blob, pos) == Some((second, next))
    requires StrAt(blob, next) == Some((third, end)) && end >= |blob|
    ensures blob == Str(first) + Str(second) + Str(third) && blob[pos..] == Str(second) + Str(third)
    ensures |first| < TWO_32 && |second| < TWO_32 && |third| < TWO_32
  {
    hide Str, StrAt, Stands;
    ReadStringStands(blob, 0);
    ReadStringStands(blob, pos);
    ReadStringStands(blob, next);
    StrAtFits(blob, next);
    StandsJoin(blob, pos, Str(second), Str(third));
    StandsToEnd(blob, pos, Str(second) + Str(third));
    StandsJoin(blob, 0, Str(first), Str(second) + Str(third));
    StandsToEnd(blob, 0, Str(first) + (Str(second) + Str(third)));
    assert blob[0..] == blob;
    Join(Str(first), Str(second), Str(third));
  }

  /** An accepted blob is its algorithm name followed by a body of exactly one or two strings. */
  lemma AcceptedBodyIsWhole(algo: Algo, blob: Text, onCurve: CurveCheck)
    requires ParseKey(algo, blob, onCurve).Ok?
    ensures var key := ParseKey(algo, blob, onCurve).value;
            && blob == Str(Name(algo)) + key.body
            && key.algo == algo == key.kind.algo
            && IsBody(algo, key.body)
  {
    hide Str, Name, CurveName, U64Of, BitLen, StrAt;
    var (inner, pos) := StrAt(blob, 0).value;
    var (x, next) := StrAt(blob, pos).value;
    if algo == Ed25519 {
      TwoStrings(blob, inner, pos, x, next);
    } else {
      var (y, end) := StrAt(blob, next).value;
      ThreeStrings(blob, inner, pos, x, next, y, end);
      Join(Str(inner), Str(x), Str(y));
    }
  }

  /** A modulus of this many bits lies between these powers of two. */
  lemma ModulusBounds(n: Text)
    requires BitLen(n).Some? && MIN_RSA_BITS <= BitLen(n).value <= MAX_RSA_BITS
    ensures Magnitude(n).Some? && Pow2(2047) <= FromBE(Magnitude(n).value) < Pow2(8192)
  {
    hide Pow2, FromBE, Magnitude;
    BitLenIsExact(n);
    Pow2Grows(2047, BitLen(n).value - 1);
    Pow2Grows(BitLen(n).value, 8192);
  }

  ghost predicate SoundRsa(blob: Text, e: Text, n: Text) {
    && blob == Str(Name(Rsa)) + Str(e) + Str(n)
    && Magnitude(e).Some? && Magnitude(n).Some?
    && FromBE(Magnitude(e).value) >= 3 && FromBE(Magnitude(e).value) % 2 == 1
    && Pow2(2047) <= FromBE(Magnitude(n).value) < Pow2(8192)
  }

  /**
   * Every accepted RSA key has a modulus of 2048 to 8192 bits, exactly, and an
   * odd public exponent of at least 3.
   */
  lemma AcceptedRsaIsBounded(blob: Text, onCurve: CurveCheck)
    requires ParseKey(Rsa, blob, onCurve).Ok?
    requires KindAllowed(ParseKey(Rsa, blob, onCurve).value.kind)
    ensures exists e: Text, n: Text :: SoundRsa(blob, e, n)
  {
    hide Str, Name, Pow2, FromBE, StrAt, BitLen, Magnitude;
    var (inner, pos) := StrAt(blob, 0).value;
    var (e, next) := StrAt(blob, pos).value;
    var (n, end) := StrAt(blob, next).value;
    ThreeStrings(blob, inner, pos, e, next, n, end);
    ModulusBounds(n);
    assert SoundRsa(blob, e, n);
  }

  const NISTP256: Text := [110, 105, 115, 116, 112, 50, 53, 54]
  const NISTP384: Text := [110, 105, 115, 116, 112, 51, 56, 52]
  const NISTP521: Text := [110, 105, 115, 116, 112, 53, 50, 49]

  lemma CurveNamesInBytes()
    ensures CurveName(P256) == NISTP256 && CurveName(P384) == NISTP384 && CurveName(P521) == NISTP521
  {
  }

  ghost predicate Ed25519Key(blob: Text, x: Text) {
    |x| == 32 && blob == Str(Name(Ed25519)) + Str(x)
  }

  ghost predicate RsaKey(blob: Text, e: Text, n: Text) {
    && |e| < TWO_32 && |n| < TWO_32 && blob == Str(Name(Rsa)) + Str(e) + Str(n)
    && Magnitude(e).Some? && |Magnitude(e).value| <= 8
    && FromBE(Magnitude(e).value) >= 3 && FromBE(Magnitude(e).value) % 2 == 1
    && Magnitude(n).Some?
  }

  /** An uncompressed SEC1 point of this length on this curve. */
  ghost predicate EcdsaKey(algo: Algo, curve: Text, len: nat, blob: Text, q: Text, onCurve: CurveCheck) {
    && |q| == len > 0 && q[0] == 4 && onCurve(algo, q)
    && blob == Str(Name(algo)) + Str(curve) + Str(q)
  }

  ghost predicate WellFormedKey(algo: Algo, blob: Text, onCurve: CurveCheck) {
    match algo
    case Ed25519 => exists x: Text :: Ed25519Key(blob, x)
    case Rsa => exists e: Text, n: Text :: RsaKey(blob, e, n)
    case P256 => exists q: Text :: EcdsaKey(P256, NISTP256, 65, blob, q, onCurve)
    case P384 => exists q: Text :: EcdsaKey(P384, NISTP384, 97, blob, q, onCurve)
    case P521 => exists q: Text :: EcdsaKey(P521, NISTP521, 133, blob, q, onCurve)
  }

  lemma NameIsShort(a: Algo)
    ensures |Name(a)| < TWO_32
  {
  }

  lemma TwoStringsRead(first: Text, second: Text)
    requires |first| < TWO_32 && |second| < TWO_32
    ensures var blob := Str(first) + Str(second);
            && StrAt(blob, 0) == Some((first, 4 + |first|))
            && StrAt(blob, 4 + |first|) == Some((second, |blob|))
  {
    hide Str, StrAt;
    var blob := Str(first) + Str(second);
    assert blob[0..|blob|] == blob;
    StandsSplit(blob, 0, Str(first), Str(second));
    StrReadsBack(blob, 0, first);
    StrReadsBack(blob, |Str(first)|, second);
  }

  lemma ThreeStringsRead(first: Text, second: Text, third: Text)
    requires |first| < TWO_32 && |second| < TWO_32 && |third| < TWO_32
    ensures var blob := Str(first) + Str(second) + Str(third);
            && StrAt(blob, 0) == Some((first, 4 + |first|))
            && StrAt(blob, 4 + |first|) == Some((second, 8 + |first| + |second|))
            && StrAt(blob, 8 + |first| + |second|) == Some((third, |blob|))
  {
    hide Str, StrAt;
    var blob := Str(first) + Str(second) + Str(third);
    assert blob[0..|blob|] == blob;
    Join(Str(first), Str(second), Str(third));
    StandsSplit(blob, 0, Str(first), Str(second) + Str(third));
    StandsSplit(blob, |Str(first)|, Str(second), Str(third));
    StrReadsBack(blob, 0, first);
    StrReadsBack(blob, |Str(first)|, second);
    StrReadsBack(blob, |Str(first)| + |Str(second)|, third);
  }

  /**
   * Exactly the well-formed keys are accepted: a 32-byte Ed25519 key, an RSA key
   * with canonical numbers and an odd exponent of at least 3, or an uncompressed
   * point of 65, 97 or 133 bytes on the named curve; nothing before or after.
   */
  lemma AcceptsExactlyWellFormedKeys(algo: Algo, blob: Text, onCurve: CurveCheck)
    ensures ParseKey(algo, blob, onCurve).Ok? <==> WellFormedKey(algo, blob, onCurve)
  {
    if ParseKey(algo, blob, onCurve).Ok? {
      AcceptedIsWellFormed(algo, blob, onCurve);
    }
    if WellFormedKey(algo, blob, onCurve) {
      WellFormedIsAccepted(algo, blob, onCurve);
    }
  }

  lemma AcceptedIsWellFormed(algo: Algo, blob: Text, onCurve: CurveCheck)
    requires ParseKey(algo, blob, onCurve).Ok?
    ensures WellFormedKey(algo, blob, onCurve)
  {
    hide Str, Name, CurveName, BitLen, StrAt, FromBE, Magnitude;
    BitLenNeedsMagnitude();
    CurveNamesInBytes();
    var (inner, pos) := StrAt(blob, 0).value;
    var (x, next) := StrAt(blob, pos).value;
    if algo == Ed25519 {
      TwoStrings(blob, inner, pos, x, next);
      assert Ed25519Key(blob, x);
    } else {
      var (y, end) := StrAt(blob, next).value;
      ThreeStrings(blob, inner, pos, x, next, y, end);
      match algo
      case Rsa => assert RsaKey(blob, x, y);
      case P256 => assert EcdsaKey(P256, NISTP256, 65, blob, y, onCurve);
      case P384 => assert EcdsaKey(P384, NISTP384, 97, blob, y, onCurve);
      case P521 => assert EcdsaKey(P521, NISTP521, 133, blob, y, onCurve);
    }
  }

  lemma BitLenNeedsMagnitude()
    ensures forall n: Text :: BitLen(n).Some? <==> Magnitude(n).Some?
  {
  }

  lemma WellFormedIsAccepted(algo: Algo, blob: Text, onCurve: CurveCheck)
    requires WellFormedKey(algo, blob, onCurve)
    ensures ParseKey(algo, blob, onCurve).Ok?
  {
    hide Str, Name, CurveName, BitLen, StrAt, FromBE, Magnitude;
    BitLenNeedsMagnitude();
    CurveNamesInBytes();
    NameIsShort(algo);
    match algo
    case Ed25519 =>
      var x: Text :| Ed25519Key(blob, x);
      TwoStringsRead(Name(Ed25519), x);
    case Rsa =>
      var e: Text, n: Text :| RsaKey(blob, e, n);
      ThreeStringsRead(Name(Rsa), e, n);
    case P256 =>
      var q: Text :| EcdsaKey(P256, NISTP256, 65, blob, q, onCurve);
      ThreeStringsRead(Name(P256), NISTP256, q);
    case P384 =>
      var q: Text :| EcdsaKey(P384, NISTP384, 97, blob, q, onCurve);
      ThreeStringsRead(Name(P384), NISTP384, q);
    case P521 =>
      var q: Text :| EcdsaKey(P521, NISTP521, 133, blob, q, onCurve);
      ThreeStringsRead(Name(P521), NISTP521, q);
  }

  /** `parse_key_kind` as the cursor runs it. */
  method ReadKind(algo: Algo, r: Reader, onCurve: CurveCheck) returns (kind: Result<KeyKind, KeyError>)
    modifies r
    ensures kind == KindAt(algo, r.buf, old(r.pos), onCurve)
  {
    hide StrAt, U64Of, BitLen, CurveName;
    var first := r.ReadString();
    if first.None? {
      return Err(BadBlob);
    }
    var rsaBits := 0;
    if algo == Ed25519 {
      if |first.value| != 32 {
        return Err(Rejected);
      }
    } else if algo == Rsa {
      var e := ReadU64(first.value);
      if e.None? || e.value < 3 || e.value % 2 == 0 {
        return Err(Rejected);
      }
      var modulus := r.ReadString();
      if modulus.None? {
        return Err(BadBlob);
      }
      var bits := BitLen(modulus.value);
      if bits.None? {
        return Err(Rejected);
      }
      rsaBits := bits.value;
    } else {
      var point := r.ReadString();
      if point.None? {
        return Err(BadBlob);
      }
      if first.value != CurveName(algo) || |point.value| != PointLen(algo) || point.value[0] != 4
         || !onCurve(algo, point.value) {
        return Err(Rejected);
      }
    }
    if !r.IsEmpty() {
      return Err(TrailingData);
    }
    kind := Ok(KeyKind(algo, rsaBits));
  }
}
