/**
 * Signing requests (hsm-core/src/validate.rs): which are accepted, and what an
 * accepted one asks for. Code outside this model, from whitespace trimming and
 * base64 to curve arithmetic and floating point, is the record `Library`.
 */
module Validate {
  import opened Options
  import opened Bytes
  import opened SshWire
  import opened PublicKeys
  import opened OrderedMaps
  import Session
  import GoDuration
  import DurationCode

  const MAX_PRINCIPALS: nat := 100

  datatype Request = Request(
    sshKey: Text,
    keyId: Text,
    validity: Text,
    principals: seq<Text>,
    permissions: seq<Entry>,
    customAttributes: seq<Entry>,
    criticalOptions: seq<Entry>)

  /** `blank`: nothing left after trimming; `keyLine`: the algorithm and decoded blob of a key line. */
  datatype Library = Library(
    blank: Text -> bool,
    keyLine: Text -> Result<(Algo, Text), KeyError>,
    onCurve: CurveCheck,
    round: GoDuration.Rounding)

  datatype Refusal =
    | EmptyKey | EmptyKeyId | EmptyValidity | BadValidity(parse: GoDuration.ParseError)
    | NoPrincipals | TooManyPrincipals | BlankPrincipal(index: nat) | SharedKey
    | BadKey(key: KeyError) | NotPositive | TooLong

  datatype Validated = Validated(key: ParsedKey, durationNs: int, extensions: seq<Entry>, criticalOptions: seq<Entry>)

  // --------------------------------------------------------------- acceptance

  /** The conditions a request must meet, in no particular order. */
  ghost predicate Acceptable(req: Request, lib: Library) {
    && !lib.blank(req.sshKey) && !lib.blank(req.keyId) && !lib.blank(req.validity)
    && 1 <= |req.principals| <= MAX_PRINCIPALS
    && (forall i :: 0 <= i < |req.principals| ==> !lib.blank(req.principals[i]))
    && (forall k: Text :: HasKey(req.customAttributes, k) ==> !HasKey(req.permissions, k))
    && Duration(req, lib).Ok? && 0 < Duration(req, lib).value <= Session.MAX_VALIDITY_NS
    && SubmittedKey(req, lib).Ok? && KindAllowed(SubmittedKey(req, lib).value.kind)
  }

  function Duration(req: Request, lib: Library): Result<int, GoDuration.ParseError> {
    GoDuration.ParseDuration(req.validity, lib.round)
  }

  function SubmittedKey(req: Request, lib: Library): Result<ParsedKey, KeyError> {
    match lib.keyLine(req.sshKey)
    case Err(e) => Err(e)
    case Ok((algo, blob)) => ParseKey(algo, blob, lib.onCurve)
  }

  ghost predicate Fails(req: Request, lib: Library, e: Refusal) {
    match e
    case EmptyKey => lib.blank(req.sshKey)
    case EmptyKeyId => lib.blank(req.keyId)
    case EmptyValidity => lib.blank(req.validity)
    case BadValidity(parse) => Duration(req, lib) == Err(parse)
    case NoPrincipals => req.principals == []
    case TooManyPrincipals => |req.principals| > MAX_PRINCIPALS
    case BlankPrincipal(i) => i < |req.principals| && lib.blank(req.principals[i])
    case SharedKey => exists k: Text :: HasKey(req.customAttributes, k) && HasKey(req.permissions, k)
    case BadKey(key) =>
      || SubmittedKey(req, lib) == Err(key)
      || (key == Rejected && SubmittedKey(req, lib).Ok? && !KindAllowed(SubmittedKey(req, lib).value.kind))
    case NotPositive => Duration(req, lib).Ok? && Duration(req, lib).value <= 0
    case TooLong => Duration(req, lib).Ok? && Duration(req, lib).value > Session.MAX_VALIDITY_NS
  }

  /** The order in which the checks are made. */
  function Rank(e: Refusal): nat {
    match e
    case EmptyKey => 0
    case EmptyKeyId => 1
    case EmptyValidity => 2
    case BadValidity(_) => 3
    case NoPrincipals => 4
    case TooManyPrincipals => 5
    case BlankPrincipal(i) => 6 + i
    case SharedKey => 6 + MAX_PRINCIPALS
    case BadKey(_) => 7 + MAX_PRINCIPALS
    case NotPositive => 8 + MAX_PRINCIPALS
    case TooLong => 9 + MAX_PRINCIPALS
  }

  /** The refusal is a failing check, and no check made before it fails. */
  ghost predicate FirstFailure(req: Request, lib: Library, e: Refusal) {
    Fails(req, lib, e) && PassesBelow(req, lib, Rank(e))
  }

  ghost predicate PassesBelow(req: Request, lib: Library, rank: nat) {
    forall f :: Rank(f) < rank ==> !Fails(req, lib, f)
  }

  /** What is promised about the outcome: accepted exactly when acceptable, and then these data; else the first failure. */
  ghost predicate Outcome(req: Request, lib: Library, r: Result<Validated, Refusal>) {
    && (r.Ok? <==> Acceptable(req, lib))
    && (r.Err? ==> FirstFailure(req, lib, r.error))
    && (r.Ok? ==>
          && Ok(r.value.key) == SubmittedKey(req, lib)
          && Ok(r.value.durationNs) == Duration(req, lib)
          && r.value.criticalOptions == req.criticalOptions
          && Ordered(r.value.extensions)
          && ToMap(r.value.extensions) == ToMap(req.permissions) + ToMap(req.customAttributes))
  }

  // ----------------------------------------------------------------- the checks

  /** `validate_request`: the checks that come before the key is looked at. */
  method ValidateRequest(req: Request, lib: Library) returns (r: Result<int, Refusal>)
    ensures r.Ok? ==> PassesBelow(req, lib, 7 + MAX_PRINCIPALS) && Ok(r.value) == Duration(req, lib)
    ensures r.Ok? ==> |req.principals| <= MAX_PRINCIPALS
    ensures r.Err? ==> FirstFailure(req, lib, r.error) && Rank(r.error) <= 6 + MAX_PRINCIPALS
  {
    hide HasKey, GoDuration.ParseDuration;
    if lib.blank(req.sshKey) {
      return Err(EmptyKey);
    }
    if lib.blank(req.keyId) {
      return Err(EmptyKeyId);
    }
    if lib.blank(req.validity) {
      return Err(EmptyValidity);
    }
    var duration := DurationCode.Parse(req.validity, lib.round);
    if duration.Err? {
      return Err(BadValidity(duration.error));
    }
    if req.principals == [] {
      return Err(NoPrincipals);
    }
    if |req.principals| > MAX_PRINCIPALS {
      return Err(TooManyPrincipals);
    }
    assert PassesBelow(req, lib, 6);
    var refusal := CheckPrincipals(req, lib);
    if refusal.Some? {
      return Err(refusal.value);
    }
    var shared := SharesKey(req);
    if shared {
      return Err(SharedKey);
    }
    r := Ok(duration.value);
  }

  method CheckPrincipals(req: Request, lib: Library) returns (refusal: Option<Refusal>)
    requires PassesBelow(req, lib, 6) && |req.principals| <= MAX_PRINCIPALS
    ensures match refusal
            case Some(e) => FirstFailure(req, lib, e) && Rank(e) < 6 + MAX_PRINCIPALS
            case None => PassesBelow(req, lib, 6 + MAX_PRINCIPALS)
  {
    hide HasKey, GoDuration.ParseDuration, SubmittedKey, KindAllowed;
    for i := 0 to |req.principals|
      invariant PassesBelow(req, lib, 6 + i)
    {
      if lib.blank(req.principals[i]) {
        return Some(BlankPrincipal(i));
      }
    }
    refusal := None;
  }

  method SharesKey(req: Request) returns (shared: bool)
    ensures shared <==> exists k: Text :: HasKey(req.customAttributes, k) && HasKey(req.permissions, k)
  {
    for i := 0 to |req.customAttributes|
      invariant forall j :: 0 <= j < i ==> !HasKey(req.permissions, req.customAttributes[j].0)
    {
      var k := req.customAttributes[i].0;
      if HasKey(req.permissions, k) {
        assert HasKey(req.customAttributes, k);
        return true;
      }
    }
    shared := false;
  }

  /** Passing every check is being acceptable. */
  lemma PassingIsAcceptable(req: Request, lib: Library)
    ensures PassesBelow(req, lib, 10 + MAX_PRINCIPALS) <==> Acceptable(req, lib)
  {
    hide HasKey, GoDuration.ParseDuration, ParseKey;
    if PassesBelow(req, lib, 10 + MAX_PRINCIPALS) {
      PassesEach(req, lib);
    }
  }

  lemma EitherWay(req: Request, lib: Library)
    ensures Duration(req, lib).Ok? || Duration(req, lib).Err?
    ensures SubmittedKey(req, lib).Ok? || SubmittedKey(req, lib).Err?
  {
  }

  lemma PassesEach(req: Request, lib: Library)
    requires PassesBelow(req, lib, 10 + MAX_PRINCIPALS)
    ensures Acceptable(req, lib)
  {
    hide HasKey, GoDuration.ParseDuration, ParseKey, KindAllowed;
    assert !Fails(req, lib, EmptyKey) && !Fails(req, lib, EmptyKeyId) && !Fails(req, lib, EmptyValidity);
    assert !Fails(req, lib, NoPrincipals) && !Fails(req, lib, TooManyPrincipals) && !Fails(req, lib, SharedKey);
    assert !Fails(req, lib, NotPositive) && !Fails(req, lib, TooLong);
    forall i | 0 <= i < |req.principals| ensures !lib.blank(req.principals[i]) {
      assert !Fails(req, lib, BlankPrincipal(i));
    }
    var d, key := Duration(req, lib), SubmittedKey(req, lib);
    EitherWay(req, lib);
    assert d.Err? ==> Fails(req, lib, BadValidity(d.error));
    assert key.Err? ==> Fails(req, lib, BadKey(key.error));
    assert !Fails(req, lib, BadKey(Rejected));
  }

  /** The merge loops: each entry of `more` inserted into `m`. */
  method MergeInto(m: seq<Entry>, more: seq<Entry>) returns (merged: seq<Entry>)
    requires Ordered(m) && Ordered(more)
    ensures Ordered(merged) && ToMap(merged) == ToMap(m) + ToMap(more)
  {
    hide Insert, Less, ToMap;
    merged := m;
    for i := 0 to |more|
      invariant merged == InsertAll(m, more[..i])
    {
      assert more[..i + 1][..i] == more[..i];
      merged := Insert(merged, more[i].0, more[i].1);
    }
    assert more[..|more|] == more;
    InsertAllIsUnion(m, more);
  }

  /** `validate`. */
  method ValidateSigning(req: Request, lib: Library) returns (r: Result<Validated, Refusal>)
    requires Ordered(req.permissions) && Ordered(req.customAttributes)
    ensures Outcome(req, lib, r)
  {
    hide HasKey, ToMap, Ordered, Less, ParseKey, GoDuration.ParseDuration, Acceptable;
    PassingIsAcceptable(req, lib);
    EitherWay(req, lib);
    var duration := ValidateRequest(req, lib);
    if duration.Err? {
      return Err(duration.error);
    }
    var key := SubmittedKey(req, lib);
    if key.Err? {
      assert Fails(req, lib, BadKey(key.error));
      return Err(BadKey(key.error));
    }
    if !KindAllowed(key.value.kind) {
      assert Fails(req, lib, BadKey(Rejected));
      return Err(BadKey(Rejected));
    }
    if duration.value <= 0 {
      assert Fails(req, lib, NotPositive);
      return Err(NotPositive);
    }
    if duration.value > Session.MAX_VALIDITY_NS {
      assert Fails(req, lib, TooLong);
      return Err(TooLong);
    }
    assert PassesBelow(req, lib, 10 + MAX_PRINCIPALS);
    NoEntries();
    assert Ordered([]) by {
      EmptyIsOrdered();
    }
    var extensions := MergeInto([], req.permissions);
    extensions := MergeInto(extensions, req.customAttributes);
    assert map[] + ToMap(req.permissions) == ToMap(req.permissions);
    r := Ok(Validated(key.value, duration.value, extensions, req.criticalOptions));
  }

  lemma EmptyIsOrdered()
    ensures Ordered([])
  {
  }

  /** The limits in numbers: 1 to 100 principals, a positive validity of at most 24 hours, RSA of 2048 to 8192 bits. */
  lemma AcceptedIsWithinLimits(req: Request, lib: Library)
    requires Acceptable(req, lib)
    ensures 1 <= |req.principals| <= 100
    ensures 0 < Duration(req, lib).value <= 24 * 3600 * 1_000_000_000
    ensures SubmittedKey(req, lib).value.kind.algo == Rsa ==> 2048 <= SubmittedKey(req, lib).value.kind.rsaBits <= 8192
  {
    hide HasKey, GoDuration.ParseDuration, ParseKey;
  }
}
