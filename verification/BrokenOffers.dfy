/** Signed offers on which a call fails after it has changed the session. */
module BrokenOffers {
  import opened Wrappers
  import opened Unicode
  import opened Numbers
  import opened FloatRange
  import opened PythonValues
  import opened Signing
  import opened Crypto
  import opened Message
  import opened Negotiation
  import opened Session
  import opened SessionRuns
  import Envelopes

  // ---------------------------------------------------------------- signed messages

  /** The message of an agent before it is signed. */
  function Plain(agent: Text, t: MessageType, body: Json): Envelope {
    [Member(FROM, Obj([Member(AGENT_ID, Str(agent))]))] + ([Member(TYPE, Str(TypeText(t)))] + [Member(BODY, body)])
  }

  /** The agent has a name, and the message can be printed. */
  predicate Presentable(agent: Text, body: Json) {
    agent != [] && Encodable(agent) && Canonicalizable(body)
  }

  lemma LitEncodable(s: string)
    ensures Encodable(Lit(s))
  {
  }

  lemma TypeTextEncodable(t: MessageType)
    ensures Encodable(TypeText(t))
  {
    match t
    case Open => LitEncodable("negotiate.open");
    case AcceptSession => LitEncodable("negotiate.accept_session");
    case DeclineSession => LitEncodable("negotiate.decline_session");
    case Offer => LitEncodable("negotiate.offer");
    case Counter => LitEncodable("negotiate.counter");
    case Accept => LitEncodable("negotiate.accept");
    case Reject => LitEncodable("negotiate.reject");
    case Inquire => LitEncodable("negotiate.inquire");
    case Constrain => LitEncodable("negotiate.constrain");
    case Signal => LitEncodable("negotiate.signal");
    case Withdraw => LitEncodable("negotiate.withdraw");
    case ProposeMediator => LitEncodable("negotiate.propose_mediator");
    case Resolve => LitEncodable("negotiate.resolve");
    case Commit => LitEncodable("negotiate.commit");
  }

  lemma PlainPrints(agent: Text, t: MessageType, body: Json)
    requires Presentable(agent, body)
    ensures CanonicalJson(Obj(Plain(agent, t, body))).Some?
  {
    var plain := Plain(agent, t, body);
    LitEncodable("from");
    LitEncodable("agent_id");
    LitEncodable("type");
    LitEncodable("body");
    TypeTextEncodable(t);
    assert Canonicalizable(plain[0].value);
    assert forall i :: 0 <= i < |plain| ==> Encodable(plain[i].key) && Canonicalizable(plain[i].value);
    PrinterDomain(Obj(plain));
  }

  /** The signature of `sign_message`. */
  function SignatureFor(c: Scheme, key: SecretKey, agent: Text, t: MessageType, body: Json): Text
    requires Presentable(agent, body)
  {
    PlainPrints(agent, t, body);
    SignText(c, key, CanonicalJson(Obj(Plain(agent, t, body))).value)
  }

  function Sent(c: Scheme, key: SecretKey, agent: Text, t: MessageType, body: Json): Envelope
    requires Presentable(agent, body)
  {
    Plain(agent, t, body) + [Member(SIGNATURE, Str(SignatureFor(c, key, agent, t, body)))]
  }

  lemma FieldNamesDiffer()
    ensures FROM != SIGNATURE && FROM != TYPE && FROM != BODY && FROM != SESSION_ID && FROM != PREV_HASH
    ensures SIGNATURE != TYPE && SIGNATURE != BODY && SIGNATURE != SESSION_ID && SIGNATURE != PREV_HASH
    ensures TYPE != BODY && TYPE != SESSION_ID && TYPE != PREV_HASH && BODY != SESSION_ID && BODY != PREV_HASH
  {
    assert |FROM| == |TYPE| == |BODY| == 4 && |SIGNATURE| == |PREV_HASH| == 9 && |SESSION_ID| == 10;
    assert FROM[0] == 'f' as int && TYPE[0] == 't' as int && BODY[0] == 'b' as int;
    assert SIGNATURE[0] == 's' as int && PREV_HASH[0] == 'p' as int;
  }

  lemma GetCons(m: Member, rest: seq<Member>, key: Text)
    ensures Get([m] + rest, key) == if m.key == key then Some(m.value) else Get(rest, key)
  {
    assert ([m] + rest)[1..] == rest;
  }

  lemma PlainField(agent: Text, t: MessageType, body: Json, key: Text)
    ensures Get(Plain(agent, t, body), key) ==
            if FROM == key then Some(Obj([Member(AGENT_ID, Str(agent))]))
            else if TYPE == key then Some(Str(TypeText(t)))
            else if BODY == key then Some(body)
            else None
  {
    var last := [Member(BODY, body)];
    GetCons(Member(FROM, Obj([Member(AGENT_ID, Str(agent))])), [Member(TYPE, Str(TypeText(t)))] + last, key);
    GetCons(Member(TYPE, Str(TypeText(t))), last, key);
    assert last[1..] == [];
  }

  lemma SentField(c: Scheme, key: SecretKey, agent: Text, t: MessageType, body: Json, name: Text)
    requires Presentable(agent, body)
    ensures Get(Sent(c, key, agent, t, body), name) ==
            if Get(Plain(agent, t, body), name).Some? then Get(Plain(agent, t, body), name)
            else if name == SIGNATURE then Some(Str(SignatureFor(c, key, agent, t, body)))
            else None
  {
    var last := [Member(SIGNATURE, Str(SignatureFor(c, key, agent, t, body)))];
    Envelopes.GetAppend(Plain(agent, t, body), last, name);
    assert last[1..] == [];
  }

  /** What a session reads from a sent message. */
  ghost predicate Reads(m: Envelope, agent: Text, t: MessageType, body: Json) {
    && AgentOf(m) == Some(agent) && SignatureOf(m).Some? && TypeOf(m) == Some(t) && !FromRaises(m)
    && Get(m, BODY) == Some(body) && Get(m, SESSION_ID).None? && Get(m, PREV_HASH).None?
  }

  lemma SentFields(c: Scheme, key: SecretKey, agent: Text, t: MessageType, body: Json)
    requires Presentable(agent, body)
    ensures var m := Sent(c, key, agent, t, body);
            && Get(m, FROM) == Some(Obj([Member(AGENT_ID, Str(agent))])) && Get(m, TYPE) == Some(Str(TypeText(t)))
            && Get(m, BODY) == Some(body) && Get(m, SIGNATURE) == Some(Str(SignatureFor(c, key, agent, t, body)))
            && Get(m, SESSION_ID).None? && Get(m, PREV_HASH).None?
  {
    FieldNamesDiffer();
    PlainField(agent, t, body, FROM);
    PlainField(agent, t, body, TYPE);
    PlainField(agent, t, body, BODY);
    PlainField(agent, t, body, SIGNATURE);
    PlainField(agent, t, body, SESSION_ID);
    PlainField(agent, t, body, PREV_HASH);
    SentField(c, key, agent, t, body, FROM);
    SentField(c, key, agent, t, body, TYPE);
    SentField(c, key, agent, t, body, BODY);
    SentField(c, key, agent, t, body, SIGNATURE);
    SentField(c, key, agent, t, body, SESSION_ID);
    SentField(c, key, agent, t, body, PREV_HASH);
  }

  lemma SignatureIsNotEmpty(c: Scheme, key: SecretKey, agent: Text, t: MessageType, body: Json)
    requires Presentable(agent, body)
    ensures SignatureFor(c, key, agent, t, body) != []
  {
    PlainPrints(agent, t, body);
    Envelopes.SignatureNotEmpty(c, key, CanonicalJson(Obj(Plain(agent, t, body))).value);
  }

  lemma SentReads(c: Scheme, key: SecretKey, agent: Text, t: MessageType, body: Json)
    requires Presentable(agent, body)
    ensures Reads(Sent(c, key, agent, t, body), agent, t, body)
    ensures SignatureOf(Sent(c, key, agent, t, body)) == Some(SignatureFor(c, key, agent, t, body))
  {
    SentFields(c, key, agent, t, body);
    SignatureIsNotEmpty(c, key, agent, t, body);
    Envelopes.TypeTextRoundTrip(t, Sent(c, key, agent, t, body));
  }

  lemma SignatureVerifies(c: Scheme, key: SecretKey, agent: Text, t: MessageType, body: Json)
    requires Correct(c) && Presentable(agent, body)
    ensures CanonicalJson(Obj(Plain(agent, t, body))).Some?
    ensures VerifyText(c, c.publicOf(key), CanonicalJson(Obj(Plain(agent, t, body))).value,
                       SignatureFor(c, key, agent, t, body))
  {
    PlainPrints(agent, t, body);
    SignedTextVerifies(c, key, CanonicalJson(Obj(Plain(agent, t, body))).value);
  }

  lemma SentVerifies(c: Scheme, key: SecretKey, agent: Text, t: MessageType, body: Json)
    requires Correct(c) && Presentable(agent, body)
    ensures Envelopes.VerifySignature(c)(Sent(c, key, agent, t, body), SignatureFor(c, key, agent, t, body),
                                         c.publicOf(key))
  {
    FieldNamesDiffer();
    PlainField(agent, t, body, SIGNATURE);
    Envelopes.WithoutAbsent(Plain(agent, t, body), SIGNATURE, Str(SignatureFor(c, key, agent, t, body)));
    SignatureVerifies(c, key, agent, t, body);
  }

  /** A session's checks, with signatures of the scheme under one agent's key. */
  function Checks(c: Scheme, hash: MessageHash): Env {
    Env(hash, Envelopes.VerifySignature(c))
  }

  function OneKey(c: Scheme, key: SecretKey): Resolver {
    (a: Text) => Some(c.publicOf(key))
  }

  lemma SentAdmitted(c: Scheme, hash: MessageHash, key: SecretKey, s: Snapshot, agent: Text, t: MessageType, body: Json)
    requires Correct(c) && Presentable(agent, body) && Transition(s.state, t).Some?
    requires s.tracking.roundCount < s.maxRounds
    ensures Refusal(Checks(c, hash), s, OneKey(c, key), Sent(c, key, agent, t, body)).None?
  {
    SentReads(c, key, agent, t, body);
    SentVerifies(c, key, agent, t, body);
  }

  // ---------------------------------------------------------------- an accepted session

  function Deliver(c: Scheme, key: SecretKey, agent: Text, t: MessageType, body: Json, now: int): Event
    requires Presentable(agent, body)
  {
    SessionRuns.Deliver(Sent(c, key, agent, t, body), OneKey(c, key), now)
  }

  lemma RunNext(env: Env, s: Snapshot, events: seq<Event>, e: Event)
    ensures Run(env, s, events + [e]) == Step(env, Run(env, s, events), e)
  {
    assert (events + [e])[..|events|] == events;
  }

  /** Under way, with room for another round. */
  predicate Ready(s: Snapshot, rounds: nat) {
    s.state == Active && s.tracking.roundCount == rounds && rounds < s.maxRounds
  }

  lemma Accepted(c: Scheme, hash: MessageHash, key: SecretKey, s: Snapshot, agent: Text, now: int)
    requires Correct(c) && Presentable(agent, Obj([])) && s.state == Proposed
    requires s.tracking.roundCount == 0 < s.maxRounds && s.tracking.lastOffers == map[]
    ensures var next := Step(Checks(c, hash), s, Deliver(c, key, agent, AcceptSession, Obj([]), now));
            Ready(next, 0) && next.maxRounds == s.maxRounds && next.tracking.lastOffers == map[]
  {
    SentAdmitted(c, hash, key, s, agent, AcceptSession, Obj([]));
    SentReads(c, key, agent, AcceptSession, Obj([]));
  }

  /** The run of a new session that one agent accepts. */
  function AcceptedRun(c: Scheme, key: SecretKey, agent: Text, now: int): seq<Event>
    requires Presentable(agent, Obj([]))
  {
    [Deliver(c, key, agent, AcceptSession, Obj([]), now)]
  }

  lemma AcceptedRunIs(c: Scheme, hash: MessageHash, key: SecretKey, sessionId: Text, maxRounds: int,
                      agent: Text, now: int)
    requires Correct(c) && Presentable(agent, Obj([])) && maxRounds > 0
    ensures var s := Run(Checks(c, hash), Fresh(sessionId, maxRounds, false), AcceptedRun(c, key, agent, now));
            Ready(s, 0) && s.maxRounds == maxRounds && s.tracking.lastOffers == map[]
  {
    var e := Deliver(c, key, agent, AcceptSession, Obj([]), now);
    RunNext(Checks(c, hash), Fresh(sessionId, maxRounds, false), [], e);
    assert [] + [e] == [e];
    Accepted(c, hash, key, Fresh(sessionId, maxRounds, false), agent, now);
  }

  // ---------------------------------------------------------------- a body that is no object

  /** A call that raises, and leaves its message and its round behind. */
  ghost predicate LeavesTrace(s: Snapshot, m: Envelope, next: Snapshot, outcome: Outcome) {
    && outcome == MalformedBody && next.transcript == s.transcript + [m]
    && next.tracking.roundCount == s.tracking.roundCount + 1
  }

  lemma NullOffer(c: Scheme, hash: MessageHash, key: SecretKey, s: Snapshot, agent: Text, rounds: nat, now: int)
    requires Correct(c) && Presentable(agent, Null) && Ready(s, rounds)
    ensures var m := Sent(c, key, agent, Offer, Null);
            var (next, outcome) := ApplyMessage(Checks(c, hash), s, OneKey(c, key), m, now);
            LeavesTrace(s, m, next, outcome)
  {
    SentAdmitted(c, hash, key, s, agent, Offer, Null);
    SentReads(c, key, agent, Offer, Null);
    assert OfferTerms(Sent(c, key, agent, Offer, Null)).None?;
  }

  /** In an accepted session a properly signed offer whose body is null raises, and stays. */
  lemma MalformedOfferStays(c: Scheme, hash: MessageHash, key: SecretKey, sessionId: Text, maxRounds: int,
                            agent: Text, now: int)
    requires Correct(c) && agent != [] && Encodable(agent) && maxRounds > 0
    ensures var s := Run(Checks(c, hash), Fresh(sessionId, maxRounds, false), AcceptedRun(c, key, agent, now));
            var m := Sent(c, key, agent, Offer, Null);
            var (next, outcome) := ApplyMessage(Checks(c, hash), s, OneKey(c, key), m, now);
            LeavesTrace(s, m, next, outcome)
  {
    AcceptedRunIs(c, hash, key, sessionId, maxRounds, agent, now);
    var s := Run(Checks(c, hash), Fresh(sessionId, maxRounds, false), AcceptedRun(c, key, agent, now));
    NullOffer(c, hash, key, s, agent, 0, now);
  }

  // ---------------------------------------------------------------- numbers too far apart

  const PRICE: Text := Lit("p")

  function PriceTerms(v: int): Json {
    Obj([Member(PRICE, NumberTerm(v))])
  }

  function PriceBody(v: int): Json {
    Obj([Member(TERMS, PriceTerms(v))])
  }

  lemma PriceIsPresentable(agent: Text, v: int)
    requires agent != [] && Encodable(agent)
    ensures Presentable(agent, PriceBody(v))
  {
    assert Canonicalizable(NumberTerm(v));
    assert Canonicalizable(PriceTerms(v));
  }

  lemma PriceOfferTerms(m: Envelope, agent: Text, v: int)
    requires Reads(m, agent, Offer, PriceBody(v))
    ensures BodyOf(m).Some? && OfferTerms(m) == Some(PriceTerms(v)) && Truthy(PriceTerms(v))
  {
    assert Get(PriceBody(v).members, TERMS) == Some(PriceTerms(v));
  }

  lemma FirstPrice(c: Scheme, hash: MessageHash, key: SecretKey, s: Snapshot, agent: Text, v: int, now: int)
    requires Correct(c) && Presentable(agent, PriceBody(v)) && Ready(s, 0) && s.maxRounds > 1
    requires s.tracking.lastOffers == map[]
    ensures var next := Step(Checks(c, hash), s, Deliver(c, key, agent, Offer, PriceBody(v), now));
            Ready(next, 1) && LastOffer(next.tracking.lastOffers, agent) == Some(PriceTerms(v))
  {
    SentAdmitted(c, hash, key, s, agent, Offer, PriceBody(v));
    SentReads(c, key, agent, Offer, PriceBody(v));
    PriceOfferTerms(Sent(c, key, agent, Offer, PriceBody(v)), agent, v);
  }

  lemma HugePriceIncomparable(v: int)
    requires v > FLOAT_LIMIT
    ensures Incomparable(PriceTerms(1), PriceTerms(v))
  {
    LimitIsLarge();
    assert Numeric(Num(Int(1))) == Some(1.0) && Numeric(Num(Int(v))) == Some(v as real);
    assert Abs(v as real - 1.0) / Abs(1.0) == v as real - 1.0;
    assert Overflows(Num(Int(1)), Num(Int(v)));
    assert Get(PriceTerms(v).members, PRICE) == Some(NumberTerm(v));
    assert Clashes(PriceTerms(1).members[0], PriceTerms(v));
  }

  lemma HugePrice(c: Scheme, hash: MessageHash, key: SecretKey, s: Snapshot, agent: Text, v: int, now: int)
    requires Correct(c) && Presentable(agent, PriceBody(v)) && Ready(s, 1) && v > FLOAT_LIMIT
    requires LastOffer(s.tracking.lastOffers, agent) == Some(PriceTerms(1))
    ensures var m := Sent(c, key, agent, Offer, PriceBody(v));
            var (next, outcome) := ApplyMessage(Checks(c, hash), s, OneKey(c, key), m, now);
            LeavesTrace(s, m, next, outcome)
  {
    SentAdmitted(c, hash, key, s, agent, Offer, PriceBody(v));
    SentReads(c, key, agent, Offer, PriceBody(v));
    PriceOfferTerms(Sent(c, key, agent, Offer, PriceBody(v)), agent, v);
    HugePriceIncomparable(v);
    ConcessionRaisesIff(PriceTerms(1), PriceTerms(v));
  }

  /** The run of an accepted session in which the agent offers the price one. */
  function PricedRun(c: Scheme, key: SecretKey, agent: Text, now: int): seq<Event>
    requires agent != [] && Encodable(agent)
  {
    PriceIsPresentable(agent, 1);
    AcceptedRun(c, key, agent, now) + [Deliver(c, key, agent, Offer, PriceBody(1), now)]
  }

  /**
   The other way to break a session: after an offer of one, a properly signed offer of an
   int that no float holds, such as 10 to the 400, raises in the quotient, and stays.
   */
  lemma HugeOfferStays(c: Scheme, hash: MessageHash, key: SecretKey, sessionId: Text, maxRounds: int,
                       agent: Text, v: int, now: int)
    requires Correct(c) && agent != [] && Encodable(agent) && maxRounds > 1 && v > FLOAT_LIMIT
    ensures Presentable(agent, PriceBody(v))
    ensures var s := Run(Checks(c, hash), Fresh(sessionId, maxRounds, false), PricedRun(c, key, agent, now));
            var m := Sent(c, key, agent, Offer, PriceBody(v));
            var (next, outcome) := ApplyMessage(Checks(c, hash), s, OneKey(c, key), m, now);
            LeavesTrace(s, m, next, outcome)
  {
    PriceIsPresentable(agent, 1);
    PriceIsPresentable(agent, v);
    AcceptedRunIs(c, hash, key, sessionId, maxRounds, agent, now);
    var env, start := Checks(c, hash), Fresh(sessionId, maxRounds, false);
    var accepted := Run(env, start, AcceptedRun(c, key, agent, now));
    RunNext(env, start, AcceptedRun(c, key, agent, now), Deliver(c, key, agent, Offer, PriceBody(1), now));
    FirstPrice(c, hash, key, accepted, agent, 1, now);
    HugePrice(c, hash, key, Run(env, start, PricedRun(c, key, agent, now)), agent, v, now);
  }
}
