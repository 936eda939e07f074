/**
 * Messages as JSON objects (message.py): the canonical serialisation and the
 * copy of a message without its `signature` field.
 */
module Message {
  import opened Wrappers

  /** A JSON value as the services exchange it. */
  datatype Value =
    | Null
    | Bool(b: bool)
    | Num(n: real)
    | Str(s: string)
    | Arr(items: seq<Value>)
    | Obj(fields: map<string, Value>)

  /** A message: a JSON object, keyed by field name. */
  type Msg = map<string, Value>

  const SignatureField: string := "signature"

  /**
   * The library calls the security layer relies on, left uninterpreted:
   * `dumps` is `json.dumps(obj, sort_keys=True, separators=(",", ":"))`,
   * `hmacSha256(key, text)` is the hex digest of HMAC-SHA256.
   * Because `dumps` takes a Dafny `map`, which has no insertion order, the
   * serialisation is a function of the object's contents by construction.
   */
  datatype Primitives = Primitives(dumps: Msg -> string, hmacSha256: (string, string) -> HexDigest)

  /** A string of ASCII characters only, the kind `hmac.compare_digest` accepts. */
  predicate IsAscii(s: string) {
    forall i :: 0 <= i < |s| ==> s[i] < 128 as char
  }

  /** `hexdigest()` output: lower-case hexadecimal digits, hence ASCII. */
  type HexDigest = s: string | forall i :: 0 <= i < |s| ==> s[i] in "0123456789abcdef"

  /** A hex digest is an ASCII string. */
  lemma HexDigestIsAscii(d: HexDigest)
    ensures IsAscii(d)
  {
    forall i | 0 <= i < |d| ensures d[i] < 128 as char {
      assert d[i] in "0123456789abcdef";
    }
  }

  /**
   * The value as a Python number: JSON numbers, and `true`/`false`, which
   * Python's arithmetic and comparisons treat as the integers 1 and 0.
   */
  function NumberOf(v: Value): (r: Option<real>)
    ensures r.Some? <==> v.Num? || v.Bool?
    ensures v.Num? ==> r == Some(v.n)
    ensures v.Bool? ==> r == Some(if v.b then 1.0 else 0.0)
  {
    match v
    case Num(n) => Some(n)
    case Bool(b) => Some(if b then 1.0 else 0.0)
    case _ => None
  }

  /** `canonical_json`: the sorted, compact JSON text of an object. */
  function CanonicalJson(p: Primitives, obj: Msg): string {
    p.dumps(obj)
  }

  /** Two objects with the same keys and the same value at every key serialise identically. */
  lemma CanonicalJsonContentsOnly(p: Primitives, a: Msg, b: Msg)
    requires a.Keys == b.Keys
    requires forall k :: k in a ==> a[k] == b[k]
    ensures CanonicalJson(p, a) == CanonicalJson(p, b)
  {
    assert a == b;
  }

  /** `without_signature`: the message with its `signature` field dropped. */
  function WithoutSignature(m: Msg): (r: Msg)
    ensures SignatureField !in r
    ensures forall k :: k in r <==> k in m && k != SignatureField
    ensures forall k :: k in r ==> r[k] == m[k]
  {
    map k | k in m && k != SignatureField :: m[k]
  }

  /** Dropping the signature twice is the same as dropping it once. */
  lemma WithoutSignatureIdempotent(m: Msg)
    ensures WithoutSignature(WithoutSignature(m)) == WithoutSignature(m)
  {
    assert WithoutSignature(WithoutSignature(m)).Keys == WithoutSignature(m).Keys;
  }

  /** A message without a signature is left as it is. */
  lemma WithoutSignatureUnsigned(m: Msg)
    requires SignatureField !in m
    ensures WithoutSignature(m) == m
  {
    assert WithoutSignature(m).Keys == m.Keys;
  }

  /** Whatever the signature field holds, or whether it is there at all, does not show through. */
  lemma WithoutSignatureIgnoresSignature(m: Msg, sig: Value)
    ensures WithoutSignature(m[SignatureField := sig]) == WithoutSignature(m)
  {
    assert WithoutSignature(m[SignatureField := sig]).Keys == WithoutSignature(m).Keys;
  }
}
