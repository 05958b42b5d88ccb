/** What a built message says, member by member (`build_envelope`). */
module EnvelopeMeaning {
  import opened Wrappers
  import opened Unicode
  import opened Numbers
  import opened PythonValues
  import opened Crypto
  import opened Message
  import opened Negotiation
  import opened Envelopes

  /** `j` names the agent, and the principal when there is one. */
  predicate Identifies(j: Json, i: Identity) {
    && j.Obj? && Get(j.members, Lit("agent_id")) == Some(Str(i.agentId))
    && (i.principalId.None? ==> Get(j.members, Lit("principal_id")).None?)
    && (i.principalId.Some? ==> Get(j.members, Lit("principal_id")) == Some(Str(i.principalId.value)))
  }

  predicate IdentifiesAll(j: Json, ids: seq<Identity>) {
    && j.Arr? && !j.tuple && |j.elems| == |ids|
    && forall i :: 0 <= i < |ids| ==> Identifies(j.elems[i], ids[i])
  }

  predicate SaysText(m: Envelope, key: Text, t: Text) {
    Get(m, key) == Some(Str(t))
  }

  /** A text that is missing or empty is left out. */
  predicate SaysTextIfAny(m: Envelope, key: Text, t: Option<Text>) {
    if t.None? || t.value == [] then Get(m, key).None? else SaysText(m, key, t.value)
  }

  predicate SaysRequired(m: Envelope, d: Draft) {
    && SaysText(m, Lit("concordia"), Lit("0.1.0")) && SaysText(m, Lit("type"), TypeText(d.kind))
    && SaysText(m, Lit("id"), d.id) && SaysText(m, Lit("session_id"), d.sessionId)
    && SaysText(m, Lit("timestamp"), d.timestamp) && SaysText(m, Lit("prev_hash"), d.prevHash)
    && Get(m, Lit("from")).Some? && Identifies(Get(m, Lit("from")).value, d.sender)
    && Get(m, Lit("body")) == Some(Obj(d.body))
  }

  predicate SaysOptional(m: Envelope, d: Draft) {
    && (d.recipients == [] ==> Get(m, Lit("to")).None?)
    && (d.recipients != [] ==> Get(m, Lit("to")).Some? && IdentifiesAll(Get(m, Lit("to")).value, d.recipients))
    && SaysTextIfAny(m, Lit("in_reply_to"), d.inReplyTo) && SaysTextIfAny(m, Lit("reasoning"), d.reasoning)
    && (d.ttl.None? ==> Get(m, Lit("ttl")).None?)
    && (d.ttl.Some? ==> Get(m, Lit("ttl")) == Some(Num(Int(d.ttl.value))))
  }

  lemma IdentityIs(i: Identity)
    ensures Identifies(IdentityDict(i), i)
  {
    KeyFacts();
    assert |PRINCIPAL_ID| == 12;
    var more := if i.principalId.Some? then [Member(PRINCIPAL_ID, Str(i.principalId.value))] else [];
    assert IdentityDict(i).members[1..] == more;
  }

  lemma RequiredSays(d: Draft)
    ensures SaysRequired(Required(d), d)
  {
    forall i: nat | i < 8
      ensures Get(Required(d), Required(d)[i].key) == Some(Required(d)[i].value)
    {
      RequiredAt(d, i);
    }
    IdentityIs(d.sender);
    var r := Required(d);
    assert r[0].key == Lit("concordia") && r[1].key == Lit("type") && r[2].key == Lit("id");
    assert r[3].key == Lit("session_id") && r[4].key == Lit("timestamp") && r[5].key == Lit("from");
    assert r[6].key == Lit("prev_hash") && r[7].key == Lit("body");
  }

  lemma {:induction false} NotAmong(ms: seq<Member>, key: Text)
    requires forall i :: 0 <= i < |ms| ==> ms[i].key != key
    ensures Get(ms, key).None?
  {
    if ms != [] {
      NotAmong(ms[1..], key);
    }
  }

  lemma RequiredIsSilent(d: Draft, key: Text)
    requires key in {TO, IN_REPLY_TO, REASONING, TTL, SIGNATURE}
    ensures Get(Required(d), key).None?
  {
    KeyFacts();
    NotAmong(Required(d), key);
  }

  function Recipients(d: Draft): seq<Member> {
    if d.recipients == [] then [] else [Member(TO, Arr(false, IdentityDicts(d.recipients)))]
  }

  function Lifetime(d: Draft): seq<Member> {
    if d.ttl.Some? then [Member(TTL, Num(Int(d.ttl.value)))] else []
  }

  /** Every optional member is looked for past those before it. */
  lemma OptionalGet(d: Draft, key: Text)
    ensures var inReply, reasons := NonEmpty(IN_REPLY_TO, d.inReplyTo), NonEmpty(REASONING, d.reasoning);
            Get(Optional(d), key) ==
            if Get(Recipients(d), key).Some? then Get(Recipients(d), key)
            else if Get(inReply, key).Some? then Get(inReply, key)
            else if Get(reasons, key).Some? then Get(reasons, key)
            else Get(Lifetime(d), key)
  {
    var a, b := Recipients(d), NonEmpty(IN_REPLY_TO, d.inReplyTo);
    var c, e := NonEmpty(REASONING, d.reasoning), Lifetime(d);
    assert Optional(d) == ((a + b) + c) + e;
    GetAppend(a + b + c, e, key);
    GetAppend(a + b, c, key);
    GetAppend(a, b, key);
  }

  lemma OptionalSays(d: Draft)
    ensures SaysOptional(Optional(d), d)
    ensures Get(Optional(d), SIGNATURE).None?
  {
    KeyFacts();
    OptionalGet(d, TO);
    OptionalGet(d, IN_REPLY_TO);
    OptionalGet(d, REASONING);
    OptionalGet(d, TTL);
    OptionalGet(d, SIGNATURE);
    forall i | 0 <= i < |d.recipients|
      ensures Identifies(IdentityDicts(d.recipients)[i], d.recipients[i])
    {
      IdentityIs(d.recipients[i]);
    }
  }

  /** `Get` on a built message. */
  lemma SignedGet(c: Scheme, key: SecretKey, d: Draft, k: Text)
    requires Envelopes.Signed(c, key, d).Some? && k != SIGNATURE
    ensures Get(Envelopes.Signed(c, key, d).value, k) ==
            if Get(Required(d), k).Some? then Get(Required(d), k) else Get(Optional(d), k)
  {
    var last := [Member(SIGNATURE, Str(SignMessage(c, key, Unsigned(d)).value))];
    GetAppend(Unsigned(d), last, k);
    GetAppend(Required(d), Optional(d), k);
  }

  lemma SignedKeepsRequired(c: Scheme, key: SecretKey, d: Draft)
    requires Envelopes.Signed(c, key, d).Some?
    ensures SaysRequired(Envelopes.Signed(c, key, d).value, d)
  {
    KeyFacts();
    RequiredSays(d);
    forall k | k != SIGNATURE && Get(Required(d), k).Some?
      ensures Get(Envelopes.Signed(c, key, d).value, k) == Get(Required(d), k)
    {
      SignedGet(c, key, d, k);
    }
  }

  /** A built message says everything it was built from, and no optional member that was not given. */
  lemma BuiltMessageSays(c: Scheme, key: SecretKey, d: Draft)
    requires Envelopes.Signed(c, key, d).Some?
    ensures SaysRequired(Envelopes.Signed(c, key, d).value, d) && SaysOptional(Envelopes.Signed(c, key, d).value, d)
  {
    SignedKeepsRequired(c, key, d);
    KeyFacts();
    OptionalSays(d);
    forall k | k in {TO, IN_REPLY_TO, REASONING, TTL}
      ensures Get(Envelopes.Signed(c, key, d).value, k) == Get(Optional(d), k)
    {
      RequiredIsSilent(d, k);
      SignedGet(c, key, d, k);
    }
  }
}
