/**
 The hash chain over negotiation messages (`concordia/message.py`) and what its head and
 length pin down.
 */
module Message {
  import opened Wrappers
  import opened Unicode
  import opened Numbers
  import opened PythonValues
  import opened Signing
  import opened CanonicalParser
  import opened Hashing

  const PREV_HASH: Text := Lit("prev_hash")
  const SHA256_PREFIX: Text := Lit("sha256:")

  /** `"sha256:" + "0" * 64` */
  const GENESIS_HASH: Text := SHA256_PREFIX + DigitText(Zeros(64))

  /** A message dict. */
  type Envelope = seq<Member>

  /** The chain itself only needs some way of hashing messages. */
  type MessageHash = Envelope -> Option<Text>

  /** The text that is hashed for a message. */
  type Encoding = Envelope -> Option<Text>

  function MessageText(m: Envelope): Option<Text> {
    CanonicalText(Obj(m))
  }

  /** `compute_hash` over an encoding; `None` when the message has no canonical form. */
  function HashWith(h: Hash, text: Encoding): MessageHash {
    (m: Envelope) =>
      var t :- text(m);
      Some(SHA256_PREFIX + h(t))
  }

  /** `compute_hash` */
  function ComputeHash(h: Hash): MessageHash {
    HashWith(h, MessageText)
  }

  function PrevHash(m: Envelope): Option<Json> {
    Get(m, PREV_HASH)
  }

  /** The link that a message following `before` must carry. */
  function Tip(hash: MessageHash, before: seq<Envelope>): Option<Text> {
    if before == [] then Some(GENESIS_HASH) else hash(before[|before| - 1])
  }

  /** The link that message `i` must carry. */
  function ExpectedAt(hash: MessageHash, ms: seq<Envelope>, i: nat): Option<Text>
    requires i < |ms|
  {
    if i == 0 then Some(GENESIS_HASH) else hash(ms[i - 1])
  }

  predicate LinkedAt(hash: MessageHash, ms: seq<Envelope>, i: nat)
    requires i < |ms|
  {
    ExpectedAt(hash, ms, i).Some? && PrevHash(ms[i]) == Some(Str(ExpectedAt(hash, ms, i).value))
  }

  /** Every message names the hash of its predecessor, the first one the genesis hash. */
  ghost predicate ChainValid(hash: MessageHash, ms: seq<Envelope>) {
    forall i :: 0 <= i < |ms| ==> LinkedAt(hash, ms, i)
  }

  /** `validate_chain`; `None` when a predecessor cannot be hashed. */
  method ValidateChain(hash: MessageHash, messages: seq<Envelope>) returns (valid: Option<bool>)
    ensures valid == Some(true) <==> ChainValid(hash, messages)
  {
    if messages == [] {
      return Some(true);
    }
    if PrevHash(messages[0]) != Some(Str(GENESIS_HASH)) {
      assert !LinkedAt(hash, messages, 0);
      return Some(false);
    }
    for i := 1 to |messages|
      invariant forall k :: 0 <= k < i ==> LinkedAt(hash, messages, k)
    {
      var expected := hash(messages[i - 1]);
      if expected.None? {
        assert !LinkedAt(hash, messages, i);
        return None;
      }
      if PrevHash(messages[i]) != Some(Str(expected.value)) {
        assert !LinkedAt(hash, messages, i);
        return Some(false);
      }
    }
    return Some(true);
  }

  lemma ChainAppend(hash: MessageHash, ms: seq<Envelope>, m: Envelope)
    ensures ChainValid(hash, ms + [m]) <==>
            ChainValid(hash, ms) && Tip(hash, ms).Some? && PrevHash(m) == Some(Str(Tip(hash, ms).value))
  {
    var longer := ms + [m];
    assert forall i :: 0 <= i < |ms| ==> (LinkedAt(hash, longer, i) <==> LinkedAt(hash, ms, i));
    assert LinkedAt(hash, longer, |ms|) <==>
      Tip(hash, ms).Some? && PrevHash(m) == Some(Str(Tip(hash, ms).value));
  }

  // ---------------------------------------------------------------- head and count pin the history

  /** Whatever two messages of these transcripts share their hash are the same message. */
  ghost predicate HashIdentifies(hash: MessageHash, same: (Envelope, Envelope) -> bool,
                                 xs: seq<Envelope>, ys: seq<Envelope>) {
    forall i, j :: 0 <= i < |xs| && 0 <= j < |ys| && hash(xs[i]).Some? && hash(xs[i]) == hash(ys[j]) ==>
      same(xs[i], ys[j]) && (PrevHash(xs[i]).Some? && PrevHash(xs[i]).value.Str? ==> PrevHash(xs[i]) == PrevHash(ys[j]))
  }

  lemma {:induction false} PinnedBelow(hash: MessageHash, same: (Envelope, Envelope) -> bool,
                                       xs: seq<Envelope>, ys: seq<Envelope>, n: nat)
    requires n <= |xs| && n <= |ys| && HashIdentifies(hash, same, xs, ys)
    requires ChainValid(hash, xs) && ChainValid(hash, ys)
    requires Tip(hash, xs[..n]).Some? && Tip(hash, xs[..n]) == Tip(hash, ys[..n])
    ensures forall i :: 0 <= i < n ==> same(xs[i], ys[i])
  {
    if n > 0 {
      assert LinkedAt(hash, xs, n - 1) && LinkedAt(hash, ys, n - 1);
      assert same(xs[n - 1], ys[n - 1]) && PrevHash(xs[n - 1]) == PrevHash(ys[n - 1]);
      PinnedBelow(hash, same, xs, ys, n - 1);
    }
  }

  /** Texts hashed along a transcript. */
  function HashedTexts(text: Encoding, ms: seq<Envelope>): set<Text> {
    set i | 0 <= i < |ms| && text(ms[i]).Some? :: text(ms[i]).value
  }

  /** Messages of the two transcripts with one text are the same message. */
  ghost predicate TextIdentifies(text: Encoding, same: (Envelope, Envelope) -> bool,
                                 xs: seq<Envelope>, ys: seq<Envelope>) {
    forall i, j :: 0 <= i < |xs| && 0 <= j < |ys| && text(xs[i]).Some? && text(xs[i]) == text(ys[j]) ==>
      same(xs[i], ys[j]) && (PrevHash(xs[i]).Some? && PrevHash(xs[i]).value.Str? ==> PrevHash(xs[i]) == PrevHash(ys[j]))
  }

  lemma PrefixInjective(p: Text, a: Text, b: Text)
    requires p + a == p + b
    ensures a == b
  {
    assert (p + a)[|p|..] == a && (p + b)[|p|..] == b;
  }

  lemma SameHashSameText(h: Hash, text: Encoding, xs: seq<Envelope>, ys: seq<Envelope>, i: nat, j: nat, pool: set<Text>)
    requires i < |xs| && j < |ys| && HashWith(h, text)(xs[i]).Some?
    requires HashWith(h, text)(xs[i]) == HashWith(h, text)(ys[j])
    requires CollisionFree(h, pool) && HashedTexts(text, xs) <= pool && HashedTexts(text, ys) <= pool
    ensures text(xs[i]).Some? && text(xs[i]) == text(ys[j])
  {
    var t, u := text(xs[i]).value, text(ys[j]).value;
    assert t in HashedTexts(text, xs) && u in HashedTexts(text, ys);
    PrefixInjective(SHA256_PREFIX, h(t), h(u));
    SameDigestSameText(h, pool, t, u);
  }

  lemma TextsIdentify(h: Hash, text: Encoding, same: (Envelope, Envelope) -> bool,
                      xs: seq<Envelope>, ys: seq<Envelope>, pool: set<Text>)
    requires TextIdentifies(text, same, xs, ys)
    requires CollisionFree(h, pool) && HashedTexts(text, xs) <= pool && HashedTexts(text, ys) <= pool
    ensures HashIdentifies(HashWith(h, text), same, xs, ys)
  {
    var hash := HashWith(h, text);
    forall i, j | 0 <= i < |xs| && 0 <= j < |ys| && hash(xs[i]).Some? && hash(xs[i]) == hash(ys[j])
      ensures text(xs[i]).Some? && text(xs[i]) == text(ys[j])
    {
      SameHashSameText(h, text, xs, ys, i, j, pool);
    }
  }

  /** Two valid chains of one length that end in the same hash. */
  ghost predicate SameEnd(hash: MessageHash, xs: seq<Envelope>, ys: seq<Envelope>) {
    && |xs| == |ys| && ChainValid(hash, xs) && ChainValid(hash, ys)
    && Tip(hash, xs).Some? && Tip(hash, xs) == Tip(hash, ys)
  }

  ghost predicate Agree(same: (Envelope, Envelope) -> bool, xs: seq<Envelope>, ys: seq<Envelope>) {
    |xs| == |ys| && forall i :: 0 <= i < |xs| ==> same(xs[i], ys[i])
  }

  lemma PinnedAll(hash: MessageHash, same: (Envelope, Envelope) -> bool, xs: seq<Envelope>, ys: seq<Envelope>)
    requires SameEnd(hash, xs, ys) && HashIdentifies(hash, same, xs, ys)
    ensures Agree(same, xs, ys)
  {
    assert xs[..|xs|] == xs && ys[..|ys|] == ys;
    PinnedBelow(hash, same, xs, ys, |xs|);
  }

  lemma PinnedOrCollision(h: Hash, text: Encoding, same: (Envelope, Envelope) -> bool,
                          xs: seq<Envelope>, ys: seq<Envelope>)
    returns (a: Text, b: Text)
    requires SameEnd(HashWith(h, text), xs, ys) && TextIdentifies(text, same, xs, ys)
    ensures Agree(same, xs, ys) || CollisionIn(h, BothTexts(text, xs, ys), a, b)
  {
    a, b := FindCollision(h, BothTexts(text, xs, ys));
    if CollisionFree(h, BothTexts(text, xs, ys)) {
      PinnedWithoutCollision(h, text, same, xs, ys);
    }
  }

  function BothTexts(text: Encoding, xs: seq<Envelope>, ys: seq<Envelope>): set<Text> {
    HashedTexts(text, xs) + HashedTexts(text, ys)
  }

  lemma PinnedWithoutCollision(h: Hash, text: Encoding, same: (Envelope, Envelope) -> bool,
                               xs: seq<Envelope>, ys: seq<Envelope>)
    requires SameEnd(HashWith(h, text), xs, ys) && TextIdentifies(text, same, xs, ys)
    requires CollisionFree(h, BothTexts(text, xs, ys))
    ensures Agree(same, xs, ys)
  {
    TextsIdentify(h, text, same, xs, ys, BothTexts(text, xs, ys));
    PinnedAll(HashWith(h, text), same, xs, ys);
  }

  // ---- with canonical JSON as the encoding

  ghost predicate SameMessage(x: Envelope, y: Envelope) {
    SameValue(Obj(x), Obj(y))
  }

  ghost predicate PythonMessages(ms: seq<Envelope>) {
    forall i :: 0 <= i < |ms| ==> IsPython(Obj(ms[i]))
  }

  /** Equal messages carry equal string members. */
  lemma SameValueSameString(x: seq<Member>, y: seq<Member>, key: Text)
    requires IsPython(Obj(x)) && IsPython(Obj(y)) && SameMessage(x, y)
    requires Get(x, key).Some? && Get(x, key).value.Str?
    ensures Get(y, key) == Get(x, key)
  {
    var i :| 0 <= i < |x| && x[i].key == key;
    GetIs(x, i);
    var k :| 0 <= k < |y| && x[i].key == y[k].key && SameValue(x[i].value, y[k].value);
    GetIs(y, k);
  }

  lemma SameTextSameMessage(x: Envelope, y: Envelope)
    requires IsPython(Obj(x)) && IsPython(Obj(y)) && MessageText(x).Some? && MessageText(x) == MessageText(y)
    ensures SameMessage(x, y)
    ensures PrevHash(x).Some? && PrevHash(x).value.Str? ==> PrevHash(x) == PrevHash(y)
  {
    SameBytesIffSameValue(Obj(x), Obj(y));
    if PrevHash(x).Some? && PrevHash(x).value.Str? {
      SameValueSameString(x, y, PREV_HASH);
    }
  }

  lemma MessageTextIdentifies(xs: seq<Envelope>, ys: seq<Envelope>)
    requires PythonMessages(xs) && PythonMessages(ys)
    ensures TextIdentifies(MessageText, (x, y) => SameMessage(x, y), xs, ys)
  {
    forall i, j | 0 <= i < |xs| && 0 <= j < |ys| && MessageText(xs[i]).Some? && MessageText(xs[i]) == MessageText(ys[j])
      ensures SameMessage(xs[i], ys[j])
      ensures PrevHash(xs[i]).Some? && PrevHash(xs[i]).value.Str? ==> PrevHash(xs[i]) == PrevHash(ys[j])
    {
      SameTextSameMessage(xs[i], ys[j]);
    }
  }

  ghost predicate SameTranscript(xs: seq<Envelope>, ys: seq<Envelope>) {
    |xs| == |ys| && forall i :: 0 <= i < |xs| ==> SameMessage(xs[i], ys[i])
  }

  /**
   A valid chain is determined by its head hash and its length: two transcripts that
   agree on both are equal message by message, or two hashed texts collide.
   */
  lemma HeadAndCountPinTranscript(h: Hash, xs: seq<Envelope>, ys: seq<Envelope>) returns (a: Text, b: Text)
    requires SameEnd(ComputeHash(h), xs, ys) && PythonMessages(xs) && PythonMessages(ys)
    ensures SameTranscript(xs, ys) || CollisionIn(h, BothTexts(MessageText, xs, ys), a, b)
  {
    MessageTextIdentifies(xs, ys);
    a, b := PinnedOrCollision(h, MessageText, (x, y) => SameMessage(x, y), xs, ys);
  }
}
