/** Building signed messages (`build_envelope`) and having a session accept them. */
module Envelopes {
  import opened Wrappers
  import opened Unicode
  import opened Numbers
  import opened PythonValues
  import opened Signing
  import opened Hashing
  import opened Crypto
  import opened Message
  import opened Negotiation
  import opened Session
  import SessionRuns

  /** An AgentIdentity. */
  datatype Identity = Identity(agentId: Text, principalId: Option<Text>)

  /** The arguments of `build_envelope`, with the id and the time it generates. */
  datatype Draft = Draft(
    kind: MessageType,
    id: Text,
    sessionId: Text,
    timestamp: Text,
    sender: Identity,
    prevHash: Text,
    body: seq<Member>,
    recipients: seq<Identity>,
    inReplyTo: Option<Text>,
    reasoning: Option<Text>,
    ttl: Option<int>)

  const CONCORDIA: Text := Lit("concordia")
  const VERSION: Text := Lit("0.1.0")
  const ID: Text := Lit("id")
  const TIMESTAMP: Text := Lit("timestamp")
  const TO: Text := Lit("to")
  const IN_REPLY_TO: Text := Lit("in_reply_to")
  const TTL: Text := Lit("ttl")
  const PRINCIPAL_ID: Text := Lit("principal_id")

  function IdentityDict(i: Identity): Json {
    Obj([Member(AGENT_ID, Str(i.agentId))] +
        if i.principalId.Some? then [Member(PRINCIPAL_ID, Str(i.principalId.value))] else [])
  }

  function IdentityDicts(ids: seq<Identity>): seq<Json> {
    seq(|ids|, i requires 0 <= i < |ids| => IdentityDict(ids[i]))
  }

  function NonEmpty(key: Text, t: Option<Text>): seq<Member> {
    if t.Some? && t.value != [] then [Member(key, Str(t.value))] else []
  }

  function Required(d: Draft): seq<Member> {
    [ Member(CONCORDIA, Str(VERSION)),
      Member(TYPE, Str(TypeText(d.kind))),
      Member(ID, Str(d.id)),
      Member(SESSION_ID, Str(d.sessionId)),
      Member(TIMESTAMP, Str(d.timestamp)),
      Member(FROM, IdentityDict(d.sender)),
      Member(PREV_HASH, Str(d.prevHash)),
      Member(BODY, Obj(d.body)) ]
  }

  function Optional(d: Draft): seq<Member> {
    (if d.recipients == [] then []
     else [Member(TO, Arr(false, IdentityDicts(d.recipients)))])
    + NonEmpty(IN_REPLY_TO, d.inReplyTo)
    + NonEmpty(REASONING, d.reasoning)
    + (if d.ttl.Some? then [Member(TTL, Num(Int(d.ttl.value)))] else [])
  }

  function Unsigned(d: Draft): Envelope {
    Required(d) + Optional(d)
  }

  /** `sign_message` with an Ed25519 key; `None` when the message has no canonical form. */
  function SignMessage(c: Scheme, key: SecretKey, m: Envelope): Option<Text> {
    var payload :- CanonicalJson(Obj(Without(m, SIGNATURE)));
    Some(SignText(c, key, payload))
  }

  /** `verify_signature` for Ed25519. */
  function VerifySignature(c: Scheme): Verifier {
    (m: Envelope, signature: Text, key: PublicKey) =>
      match CanonicalJson(Obj(Without(m, SIGNATURE)))
      case Some(payload) => VerifyText(c, key, payload, signature)
      case None => false
  }

  /** `build_envelope` */
  method BuildEnvelope(c: Scheme, key: SecretKey, d: Draft) returns (msg: Option<Envelope>)
    ensures msg == Signed(c, key, d)
  {
    var m := Required(d);
    if d.recipients != [] {
      m := m + [Member(TO, Arr(false, IdentityDicts(d.recipients)))];
    }
    if d.inReplyTo.Some? && d.inReplyTo.value != [] {
      m := m + [Member(IN_REPLY_TO, Str(d.inReplyTo.value))];
    }
    if d.reasoning.Some? && d.reasoning.value != [] {
      m := m + [Member(REASONING, Str(d.reasoning.value))];
    }
    if d.ttl.Some? {
      m := m + [Member(TTL, Num(Int(d.ttl.value)))];
    }
    assert m == Unsigned(d);
    var signature := SignMessage(c, key, m);
    if signature.None? {
      return None;
    }
    return Some(m + [Member(SIGNATURE, Str(signature.value))]);
  }

  function Signed(c: Scheme, key: SecretKey, d: Draft): Option<Envelope> {
    var signature :- SignMessage(c, key, Unsigned(d));
    Some(Unsigned(d) + [Member(SIGNATURE, Str(signature))])
  }

  // ---------------------------------------------------------------- what a built message carries

  lemma KeyFacts()
    ensures |CONCORDIA| == 9 && CONCORDIA[0] == 'c' as int
    ensures |TYPE| == 4 && TYPE[0] == 't' as int
    ensures |ID| == 2 && ID[0] == 'i' as int
    ensures |SESSION_ID| == 10
    ensures |TIMESTAMP| == 9 && TIMESTAMP[0] == 't' as int
    ensures |FROM| == 4 && FROM[0] == 'f' as int
    ensures |PREV_HASH| == 9 && PREV_HASH[0] == 'p' as int
    ensures |BODY| == 4 && BODY[0] == 'b' as int
    ensures |TO| == 2 && TO[0] == 't' as int
    ensures |IN_REPLY_TO| == 11 && |TTL| == 3
    ensures |REASONING| == 9 && REASONING[0] == 'r' as int
    ensures |SIGNATURE| == 9 && SIGNATURE[0] == 's' as int
    ensures |AGENT_ID| == 8
  {
  }

  lemma {:induction false} GetAppend(xs: seq<Member>, ys: seq<Member>, key: Text)
    ensures Get(xs + ys, key) == if Get(xs, key).Some? then Get(xs, key) else Get(ys, key)
  {
    if xs == [] {
      assert xs + ys == ys;
    } else {
      assert (xs + ys)[1..] == xs[1..] + ys;
      GetAppend(xs[1..], ys, key);
    }
  }

  lemma {:induction false} GetAt(ms: seq<Member>, i: nat)
    requires i < |ms| && forall k :: 0 <= k < i ==> ms[k].key != ms[i].key
    ensures Get(ms, ms[i].key) == Some(ms[i].value)
  {
    if i > 0 {
      assert forall k :: 0 <= k < i - 1 ==> ms[1..][k] == ms[k + 1];
      GetAt(ms[1..], i - 1);
    }
  }

  lemma RequiredKeysDiffer(d: Draft, i: nat, k: nat)
    requires k < i < 8
    ensures Required(d)[k].key != Required(d)[i].key
  {
    KeyFacts();
  }

  lemma RequiredAt(d: Draft, i: nat)
    requires i < 8
    ensures Get(Required(d), Required(d)[i].key) == Some(Required(d)[i].value)
  {
    forall k | 0 <= k < i
      ensures Required(d)[k].key != Required(d)[i].key
    {
      RequiredKeysDiffer(d, i, k);
    }
    GetAt(Required(d), i);
  }

  /** What a session reads from a built message. */
  predicate CarriesDraft(m: Envelope, d: Draft) {
    && Get(m, TYPE) == Some(Str(TypeText(d.kind))) && Get(m, SESSION_ID) == Some(Str(d.sessionId))
    && Get(m, FROM) == Some(IdentityDict(d.sender)) && PrevHash(m) == Some(Str(d.prevHash))
  }

  lemma RequiredFields(d: Draft)
    ensures CarriesDraft(Required(d), d)
  {
    RequiredAt(d, 1);
    RequiredAt(d, 3);
    RequiredAt(d, 5);
    RequiredAt(d, 6);
  }

  lemma ExtensionCarriesDraft(m: Envelope, more: seq<Member>, d: Draft)
    requires CarriesDraft(m, d)
    ensures CarriesDraft(m + more, d)
  {
    GetAppend(m, more, TYPE);
    GetAppend(m, more, SESSION_ID);
    GetAppend(m, more, FROM);
    GetAppend(m, more, PREV_HASH);
  }

  lemma NoSignatureYet(d: Draft)
    ensures Get(Unsigned(d), SIGNATURE).None?
  {
    KeyFacts();
    forall i | 0 <= i < |Unsigned(d)|
      ensures Unsigned(d)[i].key != SIGNATURE
    {
    }
  }

  lemma {:induction false} WithoutAbsent(ms: seq<Member>, key: Text, v: Json)
    requires Get(ms, key).None?
    ensures Without(ms + [Member(key, v)], key) == ms
  {
    var longer := ms + [Member(key, v)];
    if ms == [] {
      assert longer[1..] == [];
    } else {
      assert longer[1..] == ms[1..] + [Member(key, v)];
      WithoutAbsent(ms[1..], key, v);
    }
  }

  /** The length and the eleventh character of a type text tell it from the others. */
  function TypeCode(t: MessageType): (int, int) {
    match t
    case Open => (14, 'o' as int)
    case AcceptSession => (24, 'a' as int)
    case DeclineSession => (25, 'd' as int)
    case Offer => (15, 'o' as int)
    case Counter => (17, 'c' as int)
    case Accept => (16, 'a' as int)
    case Reject => (16, 'r' as int)
    case Inquire => (17, 'i' as int)
    case Constrain => (19, 'c' as int)
    case Signal => (16, 's' as int)
    case Withdraw => (18, 'w' as int)
    case ProposeMediator => (26, 'p' as int)
    case Resolve => (17, 'r' as int)
    case Commit => (16, 'c' as int)
  }

  lemma TypeTextCode(t: MessageType)
    ensures |TypeText(t)| > 10 && (|TypeText(t)|, TypeText(t)[10]) == TypeCode(t)
  {
  }

  lemma TypeTextInjective(t: MessageType, u: MessageType)
    requires TypeText(t) == TypeText(u)
    ensures t == u
  {
    TypeTextCode(t);
    TypeTextCode(u);
  }

  lemma {:induction false} TypeNamedFinds(t: MessageType, among: seq<MessageType>)
    requires t in among
    ensures TypeNamed(TypeText(t), among) == Some(t)
  {
    if among[0] != t {
      assert t in among[1..];
      TypeNamedFinds(t, among[1..]);
      if TypeText(among[0]) == TypeText(t) {
        TypeTextInjective(among[0], t);
      }
    }
  }

  lemma TypeTextRoundTrip(t: MessageType, m: Envelope)
    requires Get(m, TYPE) == Some(Str(TypeText(t)))
    ensures TypeOf(m) == Some(t)
  {
    TypeNamedFinds(t, ALL_TYPES);
  }

  // ---------------------------------------------------------------- honest messages are admitted

  lemma SignatureVerifies(c: Scheme, key: SecretKey, d: Draft)
    requires Correct(c) && Signed(c, key, d).Some?
    ensures var m := Signed(c, key, d).value;
            Get(m, SIGNATURE).Some? && Get(m, SIGNATURE).value.Str? &&
            VerifySignature(c)(m, Get(m, SIGNATURE).value.s, c.publicOf(key))
  {
    var sig := SignMessage(c, key, Unsigned(d)).value;
    NoSignatureYet(d);
    WithoutNothing(Unsigned(d), SIGNATURE);
    WithoutAbsent(Unsigned(d), SIGNATURE, Str(sig));
    GetAppend(Unsigned(d), [Member(SIGNATURE, Str(sig))], SIGNATURE);
    SignedTextVerifies(c, key, CanonicalJson(Obj(Unsigned(d))).value);
  }

  lemma {:induction false} WithoutNothing(ms: seq<Member>, key: Text)
    requires Get(ms, key).None?
    ensures Without(ms, key) == ms
  {
    if ms != [] {
      WithoutNothing(ms[1..], key);
    }
  }

  /** A message that an agent drafts for the current tip of a session. */
  predicate ForTip(c: Scheme, hash: MessageHash, s: Snapshot, resolve: Resolver, key: SecretKey, d: Draft) {
    && d.sender.agentId != [] && resolve(d.sender.agentId) == Some(c.publicOf(key))
    && d.sessionId == s.sessionId
    && Tip(hash, s.transcript) == Some(d.prevHash)
  }

  lemma SenderIs(d: Draft, m: Envelope)
    requires CarriesDraft(m, d) && d.sender.agentId != []
    ensures AgentOf(m) == Some(d.sender.agentId) && !FromRaises(m)
  {
    var rest := if d.sender.principalId.Some? then [Member(PRINCIPAL_ID, Str(d.sender.principalId.value))] else [];
    assert IdentityDict(d.sender).members[0] == Member(AGENT_ID, Str(d.sender.agentId));
    GetAt(IdentityDict(d.sender).members, 0);
  }

  lemma SignatureNotEmpty(c: Scheme, key: SecretKey, payload: Bytes)
    ensures SignText(c, key, payload) != []
  {
    assert |c.sign(key, payload)| == 64;
  }

  /** The only reasons to refuse a message that an agent built for the current tip. */
  function StateRefusal(s: Snapshot, t: MessageType): Option<Outcome> {
    if Transition(s.state, t).None? then Some(InvalidTransition)
    else if (t == Offer || t == Counter) && s.tracking.roundCount >= s.maxRounds then Some(MaxRoundsExceeded)
    else None
  }

  /** A built message is never refused for its signature, its session, its link or its type. */
  lemma BuiltMessageAdmitted(c: Scheme, hash: MessageHash, s: Snapshot, resolve: Resolver, key: SecretKey, d: Draft)
    requires Correct(c) && ForTip(c, hash, s, resolve, key, d) && Signed(c, key, d).Some?
    ensures Refusal(Env(hash, VerifySignature(c)), s, resolve, Signed(c, key, d).value) == StateRefusal(s, d.kind)
    ensures Carries(Signed(c, key, d).value, PREV_HASH)
  {
    var m := Signed(c, key, d).value;
    BuiltFields(c, key, d);
    SenderIs(d, m);
    TypeTextRoundTrip(d.kind, m);
    SignatureVerifies(c, key, d);
  }

  lemma BuiltFields(c: Scheme, key: SecretKey, d: Draft)
    requires Signed(c, key, d).Some?
    ensures CarriesDraft(Signed(c, key, d).value, d)
    ensures SignatureOf(Signed(c, key, d).value).Some?
  {
    var sig := SignMessage(c, key, Unsigned(d)).value;
    RequiredFields(d);
    ExtensionCarriesDraft(Required(d), Optional(d), d);
    ExtensionCarriesDraft(Unsigned(d), [Member(SIGNATURE, Str(sig))], d);
    NoSignatureYet(d);
    GetAppend(Unsigned(d), [Member(SIGNATURE, Str(sig))], SIGNATURE);
    SignatureNotEmpty(c, key, CanonicalJson(Obj(Without(Unsigned(d), SIGNATURE))).value);
  }

  // ---------------------------------------------------------------- admitted messages can be hashed

  lemma {:induction false} CanonicalWithSignature(m: Envelope)
    requires DistinctNames(m) && Get(m, SIGNATURE).Some? && Canonicalizable(Get(m, SIGNATURE).value)
    requires Canonicalizable(Obj(Without(m, SIGNATURE)))
    ensures Canonicalizable(Obj(m))
  {
    KeyFacts();
    forall i | 0 <= i < |m|
      ensures Encodable(m[i].key) && Canonicalizable(m[i].value)
    {
      if m[i].key == SIGNATURE {
        GetIs(m, i);
      } else {
        WithoutMembers(m, SIGNATURE, m[i]);
        var k :| 0 <= k < |Without(m, SIGNATURE)| && Without(m, SIGNATURE)[k] == m[i];
      }
    }
  }

  lemma CanonicalJsonDomain(j: Json)
    ensures CanonicalJson(j).Some? <==> Canonicalizable(j)
  {
    PrinterDomain(j);
  }

  lemma VerifiedParts(c: Scheme, m: Envelope, signature: Text, key: PublicKey)
    requires DecodesText(c) && VerifySignature(c)(m, signature, key)
    ensures CanonicalJson(Obj(Without(m, SIGNATURE))).Some? && Encodable(signature)
  {
  }

  lemma HashDomain(h: Hash, m: Envelope)
    requires Canonicalizable(Obj(m))
    ensures ComputeHash(h)(m).Some?
  {
    CanonicalJsonDomain(Obj(m));
    assert MessageText(m).Some?;
  }

  /** Whatever `verify_signature` accepts has a hash. */
  lemma VerifiedMessageHashes(c: Scheme, h: Hash, m: Envelope, key: PublicKey)
    requires DecodesText(c) && DistinctNames(m) && SignatureOf(m).Some?
    requires VerifySignature(c)(m, SignatureOf(m).value, key)
    ensures ComputeHash(h)(m).Some?
  {
    VerifiedParts(c, m, SignatureOf(m).value, key);
    CanonicalJsonDomain(Obj(Without(m, SIGNATURE)));
    CanonicalWithSignature(m);
    HashDomain(h, m);
  }

  /**
   In every run the chain tip can be computed, so an agent can always build its next
   message, and nobody's message can wedge the session.
   */
  lemma TipAlwaysDefined(c: Scheme, h: Hash, sessionId: Text, maxRounds: int, callback: bool,
                         events: seq<SessionRuns.Event>)
    requires DecodesText(c)
    ensures var env := Env(ComputeHash(h), VerifySignature(c));
            var s := SessionRuns.Run(env, Fresh(sessionId, maxRounds, callback), events);
            (s.transcript == [] || DistinctNames(s.transcript[|s.transcript| - 1])) ==>
                Tip(ComputeHash(h), s.transcript).Some?
  {
    var env := Env(ComputeHash(h), VerifySignature(c));
    SessionRuns.RunKeepsInv(env, sessionId, maxRounds, callback, events);
    var s := SessionRuns.Run(env, Fresh(sessionId, maxRounds, callback), events);
    if s.transcript != [] && DistinctNames(s.transcript[|s.transcript| - 1]) {
      var m := s.transcript[|s.transcript| - 1];
      assert SessionRuns.Signed(env.verify, s.sessionId, m);
      var key :| env.verify(m, SignatureOf(m).value, key);
      VerifiedMessageHashes(c, h, m, key);
    }
  }

  /** Two session histories that a counterparty could confuse: same length, same tip, no link left out. */
  ghost predicate SameHead(h: Hash, s: Snapshot, t: Snapshot) {
    && |s.transcript| == |t.transcript|
    && SessionRuns.AllCarry(s.transcript) && SessionRuns.AllCarry(t.transcript)
    && Tip(ComputeHash(h), s.transcript).Some? && Tip(ComputeHash(h), s.transcript) == Tip(ComputeHash(h), t.transcript)
    && PythonMessages(s.transcript) && PythonMessages(t.transcript)
  }

  /**
   Sessions that agents drove to one chain head in one number of messages have one history,
   or two hashed texts collide: validity of the chain comes from the runs themselves.
   */
  lemma SessionHeadPinsHistory(h: Hash, verify: Verifier, s: Snapshot, t: Snapshot) returns (a: Text, b: Text)
    requires SessionRuns.Inv(Env(ComputeHash(h), verify), s) && SessionRuns.Inv(Env(ComputeHash(h), verify), t)
    requires SameHead(h, s, t)
    ensures SameTranscript(s.transcript, t.transcript)
         || CollisionIn(h, BothTexts(MessageText, s.transcript, t.transcript), a, b)
  {
    SessionRuns.ChainValidIffAllCarry(ComputeHash(h), s.transcript);
    SessionRuns.ChainValidIffAllCarry(ComputeHash(h), t.transcript);
    a, b := HeadAndCountPinTranscript(h, s.transcript, t.transcript);
  }
}
