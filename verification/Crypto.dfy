/**
 Ed25519 as an arbitrary signature scheme. The one hypothesis used anywhere is that a
 signature made with a key verifies under it; nothing is assumed about forgery.
 */
module Crypto {
  import opened Wrappers
  import opened Unicode
  import Base64Url

  datatype SecretKey = SecretKey(seed: Bytes)

  datatype PublicKey = PublicKey(point: Bytes)

  /** Ed25519 signatures have 64 octets. */
  type Signature = s: Bytes | |s| == 64
    witness seq(64, i => 0)

  /** `decode` is `base64.urlsafe_b64decode`, which tolerates more than it should. */
  datatype Scheme = Scheme(
    publicOf: SecretKey -> PublicKey,
    sign: (SecretKey, Bytes) -> Signature,
    verify: (PublicKey, Bytes, Bytes) -> bool,
    decode: Text -> Option<Bytes>)

  ghost predicate Correct(c: Scheme) {
    && (forall k: SecretKey, m: Bytes :: c.verify(c.publicOf(k), m, c.sign(k, m)))
    && (forall bs: Bytes :: c.decode(Base64Url.Encode(bs)) == Some(bs))
  }

  /** Only ASCII text decodes as base64. */
  ghost predicate DecodesText(c: Scheme) {
    forall t: Text :: c.decode(t).Some? ==> Encodable(t)
  }

  /** A padded base64url signature over `payload`. */
  function SignText(c: Scheme, key: SecretKey, payload: Bytes): Text {
    Base64Url.Encode(c.sign(key, payload))
  }

  /** Decode a signature text and check it; malformed base64 is a plain rejection. */
  predicate VerifyText(c: Scheme, key: PublicKey, payload: Bytes, signature: Text) {
    match c.decode(signature)
    case Some(raw) => c.verify(key, payload, raw)
    case None => false
  }

  lemma SignedTextVerifies(c: Scheme, key: SecretKey, payload: Bytes)
    requires Correct(c)
    ensures VerifyText(c, c.publicOf(key), payload, SignText(c, key, payload))
  {
  }
}
