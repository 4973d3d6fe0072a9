/**
 * Signing end to end (`handle_sign` of hsm-core/src/dispatch.rs): what a
 * certificate issued in any reachable session says about the request it answers.
 */
module Issuance {
  import opened Options
  import opened Bytes
  import opened SshWire
  import opened PublicKeys
  import opened OrderedMaps
  import opened Certificates
  import Validate
  import Session
  import SessionTime

  /** The parameters handed to `build_certificate`. */
  function ParamsOf(req: Validate.Request, v: Validate.Validated, nonce: Text, serial: nat,
                    validAfter: nat, validBefore: nat): CertParams {
    CertParams(v.key.algo, v.key.body, nonce, serial, req.keyId, req.principals, validAfter, validBefore,
               v.criticalOptions, v.extensions)
  }

  /** No field of the request reaches 2^32 bytes on the wire. */
  predicate WireSized(req: Validate.Request, v: Validate.Validated) {
    && |req.keyId| < TWO_32
    && AllShort(req.principals) && |Strs(req.principals)| < TWO_32
    && ShortEntries(v.criticalOptions) && |Tuples(v.criticalOptions)| < TWO_32
    && ShortEntries(v.extensions) && |Tuples(v.extensions)| < TWO_32
  }

  /** The certificate that decodes to `c` grants what the request asked for, and for how long. */
  ghost predicate Grants(c: Decoded, req: Validate.Request, lib: Validate.Library, durationNs: int) {
    && lib.keyLine(req.sshKey).Ok?
    && lib.keyLine(req.sshKey).value.1 == Str(Name(lib.keyLine(req.sshKey).value.0)) + c.head.body
    && c.head.certAlgo == WireName(lib.keyLine(req.sshKey).value.0)
    && c.identity.certType == 1
    && c.identity.keyId == req.keyId && c.identity.principals == req.principals
    && c.terms.critical == req.criticalOptions
    && ToMap(c.terms.extensions) == ToMap(req.permissions) + ToMap(req.customAttributes)
    && c.terms.validBefore - c.terms.validAfter == 300 + durationNs / 1_000_000_000
    && 300 <= c.terms.validBefore - c.terms.validAfter <= 86_700
    && c.reserved == []
  }

  /** The body and algorithm of an accepted request are those of the submitted blob. */
  lemma AcceptedKey(req: Validate.Request, lib: Validate.Library, v: Validate.Validated)
    requires Validate.Outcome(req, lib, Ok(v))
    ensures lib.keyLine(req.sshKey).Ok?
    ensures var (algo, blob) := lib.keyLine(req.sshKey).value;
            v.key.algo == algo && blob == Str(Name(algo)) + v.key.body && IsBody(algo, v.key.body)
    ensures 0 < v.durationNs <= Session.MAX_VALIDITY_NS
  {
    hide ParseKey, IsBody, Str, Name;
    var (algo, blob) := lib.keyLine(req.sshKey).value;
    AcceptedBodyIsWhole(algo, blob, lib.onCurve);
  }

  /**
   * In every reachable session: the certificate issued for an accepted request
   * decodes, to its last byte, to the submitted key, the principals, options and
   * validity that were asked for, signed over exactly the bytes before the signature.
   */
  lemma IssuedCertificateGrantsTheRequest(events: seq<Session.Event>, req: Validate.Request, lib: Validate.Library,
                                          v: Validate.Validated, durationNs: nat, nonce: Text, serial: nat,
                                          ca: Text, sign: Text -> Text, validAfter: nat, validBefore: nat,
                                          seed: Session.Wrap.Seed)
    requires Validate.Outcome(req, lib, Ok(v)) && v.durationNs == durationNs && WireSized(req, v)
    requires |nonce| == 32 && serial < TWO_64 && |ca| < TWO_32
    requires forall t :: |sign(t)| < TWO_32
    requires Session.Powered(Session.Run(Session.Factory(), events))
    requires SessionTime.Certificate(Session.Run(Session.Factory(), events), Some(durationNs))
             == Some(Session.Issued(seed, validAfter, validBefore))
    ensures var blob := CertBlob(ParamsOf(req, v, nonce, serial, validAfter, validBefore), ca, sign);
            && Decode(blob).Some?
            && Grants(Decode(blob).value, req, lib, durationNs)
            && Decode(blob).value.identity.serial == serial && Decode(blob).value.head.nonce == nonce
            && Decode(blob).value.ca == ca
            && Decode(blob).value.signedLen <= |blob|
            && Decode(blob).value.signature == sign(blob[..Decode(blob).value.signedLen])
  {
    hide Decode, SignedBytes, Str, WireName, Name, IsBody, ToMap, Validate.Acceptable, Session.Run, SessionTime.Certificate,
         Strs, Tuples, ShortEntries, AllShort;
    AcceptedKey(req, lib, v);
    TimesOfIssue(events, durationNs, seed, validAfter, validBefore);
    var p := ParamsOf(req, v, nonce, serial, validAfter, validBefore);
    var signed := SignedBytes(p, ca);
    CertificateDecodes(p, ca, sign(signed));
    assert (signed + Str(sign(signed)))[..|signed|] == signed;
  }

  lemma TimesOfIssue(events: seq<Session.Event>, durationNs: nat, seed: Session.Wrap.Seed, validAfter: nat, validBefore: nat)
    requires Session.Powered(Session.Run(Session.Factory(), events))
    requires SessionTime.Certificate(Session.Run(Session.Factory(), events), Some(durationNs))
             == Some(Session.Issued(seed, validAfter, validBefore))
    ensures validBefore - validAfter == 300 + durationNs / 1_000_000_000
    ensures 300 <= validBefore - validAfter <= 86_700 && validBefore < TWO_64
  {
    hide Session.Run;
    SessionTime.CertificateWindow(events, Some(durationNs));
    var d := Session.Run(Session.Factory(), events);
    SignTimes(d, durationNs);
  }

  lemma SignTimes(d: Session.Device, durationNs: nat)
    ensures var c := SessionTime.Certificate(d, Some(durationNs));
            c.Some? ==>
              && c.value.Issued?
              && (c.value.validBefore - c.value.validAfter - 300 - durationNs / 1_000_000_000) % TWO_64 == 0
  {
  }
}
