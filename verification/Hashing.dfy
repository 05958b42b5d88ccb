/**
 SHA-256 as an arbitrary function with 64-character digests. No theorem assumes it is
 injective, which no such function is: conclusions hold or two different texts that
 were actually hashed share a digest.
 */
module Hashing {
  import opened Unicode

  /** `hashlib.sha256(text.encode("utf-8")).hexdigest()` */
  type Hash = Text -> Digest

  /** Sixty-four characters. */
  type Digest = d: Text | |d| == 64
    witness seq(64, i => '0' as int)

  ghost predicate Collision(h: Hash, a: Text, b: Text) {
    a != b && h(a) == h(b)
  }

  ghost predicate CollisionFree(h: Hash, inputs: set<Text>) {
    forall a, b :: a in inputs && b in inputs && h(a) == h(b) ==> a == b
  }

  /** Two different texts among `inputs` share a digest. */
  ghost predicate CollisionIn(h: Hash, inputs: set<Text>, a: Text, b: Text) {
    a in inputs && b in inputs && Collision(h, a, b)
  }

  lemma SameDigestSameText(h: Hash, inputs: set<Text>, a: Text, b: Text)
    requires CollisionFree(h, inputs) && a in inputs && b in inputs && h(a) == h(b)
    ensures a == b
  {
  }

  /** Two texts among `inputs` with one digest, if there are any. */
  lemma FindCollision(h: Hash, inputs: set<Text>) returns (a: Text, b: Text)
    ensures CollisionFree(h, inputs) || CollisionIn(h, inputs, a, b)
  {
    if !CollisionFree(h, inputs) {
      a, b :| a in inputs && b in inputs && h(a) == h(b) && a != b;
    } else {
      a, b := [], [];
    }
  }

  /** A collision of texts is a collision of the byte strings that SHA-256 sees. */
  lemma CollisionIsOfBytes(h: Hash, a: Text, b: Text)
    requires Collision(h, a, b)
    ensures Utf8(a) != Utf8(b)
  {
    if Utf8(a) == Utf8(b) {
      Utf8Injective(a, b);
    }
  }
}
