/**
 * Signing of outgoing events (security/signer.py): a message is signed by
 * adding, under `signature`, the HMAC of its canonical JSON without that field.
 */
module Signer {
  import opened Message
  import Config

  /** HMAC-SHA256, under the shared key, of the canonical JSON of an object. */
  function Mac(p: Primitives, obj: Msg): HexDigest {
    p.hmacSha256(Config.SecretKey, CanonicalJson(p, obj))
  }

  /** `compute_hmac`: the MAC of the message with its signature dropped. */
  function ComputeHmac(p: Primitives, m: Msg): HexDigest {
    Mac(p, WithoutSignature(m))
  }

  /** The MAC of a message is a function of `without_signature` of it alone. */
  lemma ComputeHmacDependsOnUnsignedPart(p: Primitives, a: Msg, b: Msg)
    requires forall k :: k != SignatureField ==> (k in a <==> k in b)
    requires forall k :: k != SignatureField && k in a ==> a[k] == b[k]
    ensures ComputeHmac(p, a) == ComputeHmac(p, b)
  {
    assert WithoutSignature(a) == WithoutSignature(b);
  }

  /**
   * `sign_message`: a copy of the message in which `signature` holds the MAC of
   * the message. Messages are values, so the caller's message is not modified.
   */
  function SignMessage(p: Primitives, m: Msg): (signed: Msg)
    ensures signed.Keys == m.Keys + {SignatureField}
    ensures forall k :: k in m && k != SignatureField ==> signed[k] == m[k]
    ensures signed[SignatureField] == Str(ComputeHmac(p, m))
  {
    var copy := m;
    copy[SignatureField := Str(ComputeHmac(p, copy))]
  }

  /**
   * `hmac.compare_digest(expected, given)`: true exactly when `given` is the
   * string `expected`. The library raises on a `given` that is not a string or
   * holds a non-ASCII character; here those compare unequal.
   */
  predicate CompareDigest(expected: string, given: Value) {
    given.Str? && IsAscii(given.s) && given.s == expected
  }

  /** `verify_locally`: the message carries a signature equal to its recomputed MAC. */
  predicate VerifyLocally(p: Primitives, m: Msg)
    ensures SignatureField !in m ==> !VerifyLocally(p, m)
    ensures VerifyLocally(p, m) ==> m[SignatureField] == Str(ComputeHmac(p, m))
  {
    SignatureField in m && CompareDigest(ComputeHmac(p, m), m[SignatureField])
  }

  /** Signing keeps the unsigned part of the message. */
  lemma SignKeepsUnsignedPart(p: Primitives, m: Msg)
    ensures WithoutSignature(SignMessage(p, m)) == WithoutSignature(m)
  {
    WithoutSignatureIgnoresSignature(m, Str(ComputeHmac(p, m)));
  }

  /** Round trip: a freshly signed message verifies. */
  lemma SignThenVerify(p: Primitives, m: Msg)
    ensures VerifyLocally(p, SignMessage(p, m))
  {
    SignKeepsUnsignedPart(p, m);
    HexDigestIsAscii(ComputeHmac(p, m));
  }

  /** Signing an already signed message changes nothing. */
  lemma SignIdempotent(p: Primitives, m: Msg)
    ensures SignMessage(p, SignMessage(p, m)) == SignMessage(p, m)
  {
    SignKeepsUnsignedPart(p, m);
  }

  /**
   * The assumption under which tampering is detectable, about the two objects
   * involved: they do not collide under the MAC. Real HMAC only makes such a
   * collision infeasible to find.
   */
  predicate NoCollision(p: Primitives, a: Msg, b: Msg) {
    Mac(p, a) == Mac(p, b) ==> a == b
  }

  /**
   * A message that carries the signature of `m` but differs from `m` in any
   * field other than `signature` fails verification.
   */
  lemma ForeignSignatureRejected(p: Primitives, m: Msg, t: Msg)
    requires NoCollision(p, WithoutSignature(t), WithoutSignature(m))
    requires SignatureField in t && t[SignatureField] == SignMessage(p, m)[SignatureField]
    requires WithoutSignature(t) != WithoutSignature(m)
    ensures !VerifyLocally(p, t)
  {
    assert Mac(p, WithoutSignature(t)) != Mac(p, WithoutSignature(m));
  }

  /** Changing one non-signature field of a signed message makes it fail verification. */
  lemma TamperingDetected(p: Primitives, m: Msg, k: string, v: Value)
    requires NoCollision(p, WithoutSignature(SignMessage(p, m)[k := v]), WithoutSignature(m))
    requires k != SignatureField
    requires k !in m || m[k] != v
    ensures !VerifyLocally(p, SignMessage(p, m)[k := v])
  {
    var t := SignMessage(p, m)[k := v];
    assert WithoutSignature(t)[k] == v;
    ForeignSignatureRejected(p, m, t);
  }
}
