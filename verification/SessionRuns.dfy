/** What every run of a negotiation session keeps. */
module SessionRuns {
  import opened Wrappers
  import opened Unicode
  import opened PythonValues
  import opened Message
  import opened Negotiation
  import opened Session

  /** Calls on a session, and the callback assignments between them. */
  datatype Event =
    | Deliver(m: Envelope, resolve: Resolver, now: int)
    | ExpireAt(now: int)
    | Sleep
    | Join(agent: Text)
    | Attach(callback: bool)

  function Step(env: Env, s: Snapshot, e: Event): Snapshot {
    match e
    case Deliver(m, resolve, now) => ApplyMessage(env, s, resolve, m, now).0
    case ExpireAt(now) => (match Expire(s, now) case Some(next) => next case None => s)
    case Sleep => (match MakeDormant(s) case Some(next) => next case None => s)
    case Join(agent) => AddParty(s, agent)
    case Attach(callback) => s.(callback := callback)
  }

  function Run(env: Env, s: Snapshot, events: seq<Event>): Snapshot {
    if events == [] then s else Step(env, Run(env, s, events[..|events| - 1]), events[|events| - 1])
  }

  // ---------------------------------------------------------------- the transcript

  /** Every message that names a predecessor names the right one. */
  ghost predicate Linked(hash: MessageHash, ms: seq<Envelope>) {
    forall i :: 0 <= i < |ms| && Carries(ms[i], PREV_HASH) ==> LinkedAt(hash, ms, i)
  }

  ghost predicate AllCarry(ms: seq<Envelope>) {
    forall i :: 0 <= i < |ms| ==> Carries(ms[i], PREV_HASH)
  }

  /** Somebody's key verifies the message, and it was written for this session. */
  ghost predicate Signed(verify: Verifier, sessionId: Text, m: Envelope) {
    && AgentOf(m).Some? && SignatureOf(m).Some? && TypeOf(m).Some? && BoundTo(sessionId, m)
    && exists key :: verify(m, SignatureOf(m).value, key)
  }

  ghost predicate AllSigned(verify: Verifier, sessionId: Text, ms: seq<Envelope>) {
    forall i :: 0 <= i < |ms| ==> Signed(verify, sessionId, ms[i])
  }

  predicate Concludes(m: Envelope) {
    TypeOf(m) == Some(Accept) || TypeOf(m) == Some(Commit)
  }

  lemma LinkedAppend(hash: MessageHash, ms: seq<Envelope>, m: Envelope)
    requires Linked(hash, ms) && ChainsTo(Tip(hash, ms), m)
    ensures Linked(hash, ms + [m])
  {
    var longer := ms + [m];
    forall i | 0 <= i < |longer| && Carries(longer[i], PREV_HASH)
      ensures LinkedAt(hash, longer, i)
    {
      if i < |ms| {
        assert LinkedAt(hash, ms, i);
      }
    }
  }

  /** A transcript of linked messages is a valid chain exactly when no message left its link out. */
  lemma ChainValidIffAllCarry(hash: MessageHash, ms: seq<Envelope>)
    requires Linked(hash, ms)
    ensures ChainValid(hash, ms) <==> AllCarry(ms)
  {
    forall i | 0 <= i < |ms|
      ensures LinkedAt(hash, ms, i) <==> Carries(ms[i], PREV_HASH)
    {
    }
  }

  // ---------------------------------------------------------------- counting offers

  function OfferCount(ms: seq<Envelope>): nat {
    if ms == [] then 0
    else OfferCount(ms[..|ms| - 1]) + if IsOffer(ms[|ms| - 1]) then 1 else 0
  }

  predicate OfferOf(m: Envelope, agent: Text) {
    IsOffer(m) && AgentOf(m) == Some(agent)
  }

  function OffersBy(ms: seq<Envelope>, agent: Text): nat {
    if ms == [] then 0
    else OffersBy(ms[..|ms| - 1], agent) + if OfferOf(ms[|ms| - 1], agent) then 1 else 0
  }

  /** The sum of `offers_made` over some agents. */
  ghost function SumOffers(agents: set<Text>, bs: map<Text, Behavior>): nat {
    if agents == {} then 0
    else
      var a :| a in agents;
      Record(bs, a).offersMade + SumOffers(agents - {a}, bs)
  }

  lemma {:induction false} SumSplit(agents: set<Text>, bs: map<Text, Behavior>, a: Text)
    requires a in agents
    ensures SumOffers(agents, bs) == Record(bs, a).offersMade + SumOffers(agents - {a}, bs)
  {
    var x :| x in agents && SumOffers(agents, bs) == Record(bs, x).offersMade + SumOffers(agents - {x}, bs);
    if x != a {
      SumSplit(agents - {x}, bs, a);
      SumSplit(agents - {a}, bs, x);
      assert agents - {x} - {a} == agents - {a} - {x};
    }
  }

  lemma {:induction false} SumSame(agents: set<Text>, bs: map<Text, Behavior>, cs: map<Text, Behavior>)
    requires forall a :: a in agents ==> Record(bs, a).offersMade == Record(cs, a).offersMade
    ensures SumOffers(agents, bs) == SumOffers(agents, cs)
  {
    if agents != {} {
      var a :| a in agents;
      SumSplit(agents, bs, a);
      SumSplit(agents, cs, a);
      SumSame(agents - {a}, bs, cs);
    }
  }

  lemma SumWrite(bs: map<Text, Behavior>, agent: Text, b: Behavior)
    ensures SumOffers(bs[agent := b].Keys, bs[agent := b]) + Record(bs, agent).offersMade
         == SumOffers(bs.Keys, bs) + b.offersMade
  {
    var cs := bs[agent := b];
    SumSplit(cs.Keys, cs, agent);
    assert cs.Keys - {agent} == bs.Keys - {agent};
    SumSame(bs.Keys - {agent}, bs, cs);
    if agent in bs {
      SumSplit(bs.Keys, bs, agent);
    } else {
      assert bs.Keys - {agent} == bs.Keys;
    }
  }

  /** One message counts for its sender alone, and offers count everywhere. */
  ghost predicate Counts(t: Tracking, agent: Text, m: Envelope, next: Tracking) {
    && OnlyRecord(t.behaviors, agent, next.behaviors)
    && next.behaviors[agent].offersMade == Record(t.behaviors, agent).offersMade + (if IsOffer(m) then 1 else 0)
    && next.roundCount == t.roundCount + (if IsOffer(m) then 1 else 0)
  }

  /** Only the record of `agent` changed. */
  predicate OnlyRecord(bs: map<Text, Behavior>, agent: Text, cs: map<Text, Behavior>) {
    agent in cs && cs == bs[agent := cs[agent]]
  }

  lemma WriteOnly(bs: map<Text, Behavior>, agent: Text, t: Tracking, b: Behavior)
    requires OnlyRecord(bs, agent, t.behaviors)
    ensures OnlyRecord(bs, agent, Write(t, agent, b).behaviors)
  {
  }

  lemma OfferCounts(bs: map<Text, Behavior>, t: Tracking, agent: Text, m: Envelope)
    requires OnlyRecord(bs, agent, t.behaviors)
    ensures OnlyRecord(bs, agent, TrackOffer(t, agent, m).0.behaviors)
    ensures TrackOffer(t, agent, m).0.behaviors[agent].offersMade == t.behaviors[agent].offersMade + 1
    ensures TrackOffer(t, agent, m).0.roundCount == t.roundCount + 1
  {
    var b := t.behaviors[agent];
    WriteOnly(bs, agent, t.(roundCount := t.roundCount + 1), b.(offersMade := b.offersMade + 1));
    var counted := Counted(t, agent);
    match OfferTerms(m)
    case None =>
    case Some(terms) =>
      match Offered(counted.behaviors[agent], LastOffer(t.lastOffers, agent), terms)
      case None =>
      case Some(offered) =>
        WriteOnly(bs, agent, counted, offered);
  }

  lemma TrackCounts(t: Tracking, agent: Text, m: Envelope)
    requires TypeOf(m).Some?
    ensures Counts(t, agent, m, Track(t, agent, m).0)
  {
    var known := Known(t, agent);
    var b := known.behaviors[agent];
    if IsOffer(m) {
      OfferCounts(t.behaviors, known, agent, m);
      var noted := TrackOffer(known, agent, m).0;
      WriteOnly(t.behaviors, agent, noted, Reasoned(noted.behaviors[agent], m));
    } else {
      var kind := TypeOf(m).value;
      WriteOnly(t.behaviors, agent, known, Noted(b, kind));
      WriteOnly(t.behaviors, agent, Note(known, agent, kind), Reasoned(Noted(b, kind), m));
    }
  }

  // ---------------------------------------------------------------- concessions, in batch

  /** The offers of one agent that entered its record; an incomparable one does not. */
  function NextHistory(h: seq<Json>, m: Envelope, agent: Text): seq<Json> {
    if !OfferOf(m, agent) then h
    else
      match OfferTerms(m)
      case None => h
      case Some(terms) =>
        if !Truthy(terms) || (h != [] && Concession(h[|h| - 1], terms).None?) then h else h + [terms]
  }

  function History(ms: seq<Envelope>, agent: Text): seq<Json> {
    if ms == [] then [] else NextHistory(History(ms[..|ms| - 1], agent), ms[|ms| - 1], agent)
  }

  /** The positive concessions between successive offers. */
  function Concessions(h: seq<Json>): seq<real> {
    if |h| < 2 then []
    else
      var before := Concessions(h[..|h| - 1]);
      match Concession(h[|h| - 2], h[|h| - 1])
      case Some(c) => if c > 0.0 then before + [c] else before
      case None => before
  }

  lemma {:induction false} SumAppend(xs: seq<real>, x: real)
    ensures Sum(xs + [x]) == Sum(xs) + x
  {
    if xs == [] {
      assert [x][1..] == [];
    } else {
      assert (xs + [x])[1..] == xs[1..] + [x];
      SumAppend(xs[1..], x);
    }
  }

  function Last(h: seq<Json>): Option<Json> {
    if h == [] then None else Some(h[|h| - 1])
  }

  /** A running mean over the numbers `xs`. */
  ghost predicate Means(b: Behavior, xs: seq<real>) {
    b.concessions == |xs| && b.concessionMagnitude * b.concessions as real == Sum(xs)
  }

  /** The running mean is the mean of the concessions of a history. */
  ghost predicate Averages(b: Behavior, h: seq<Json>) {
    Means(b, Concessions(h))
  }

  lemma MeanTimesCount(mean: real, n: nat, x: real)
    requires n > 0
    ensures RunningMean(mean, n, x) * n as real == mean * (n - 1) as real + x
  {
    var total := mean * (n - 1) as real + x;
    assert total / n as real * n as real == total;
  }

  lemma ConcessionsAppend(h: seq<Json>, terms: Json, c: real)
    requires h != [] && Concession(h[|h| - 1], terms) == Some(c)
    ensures Concessions(h + [terms]) == if c > 0.0 then Concessions(h) + [c] else Concessions(h)
  {
    var longer := h + [terms];
    assert longer[..|longer| - 1] == h && longer[|longer| - 2] == h[|h| - 1];
  }

  lemma ConcededMeans(b: Behavior, xs: seq<real>, c: real)
    requires Means(b, xs)
    ensures Means(Conceded(b, c), if c > 0.0 then xs + [c] else xs)
  {
    if c > 0.0 {
      SumAppend(xs, c);
      MeanTimesCount(b.concessionMagnitude, b.concessions + 1, c);
    }
  }

  lemma OfferAverages(b: Behavior, h: seq<Json>, terms: Json)
    requires Averages(b, h) && Truthy(terms) && Offered(b, Last(h), terms).Some?
    ensures Averages(Offered(b, Last(h), terms).value, h + [terms])
  {
    if h == [] {
      assert Concessions(h + [terms]) == Concessions(h) == [];
    } else {
      var c := Concession(h[|h| - 1], terms).value;
      ConcessionsAppend(h, terms, c);
      ConcededMeans(b, Concessions(h), c);
    }
  }

  /** The record of one agent agrees with what the transcript says about it. */
  ghost predicate AgentTracked(t: Tracking, agent: Text, offers: nat, h: seq<Json>) {
    && Record(t.behaviors, agent).offersMade == offers
    && LastOffer(t.lastOffers, agent) == Last(h)
    && Averages(Record(t.behaviors, agent), h)
  }

  lemma CountedTracked(t: Tracking, agent: Text, offers: nat, h: seq<Json>)
    requires agent in t.behaviors && AgentTracked(t, agent, offers, h)
    ensures AgentTracked(Counted(t, agent), agent, offers + 1, h)
  {
  }

  lemma OfferTracked(t: Tracking, agent: Text, m: Envelope, offers: nat, h: seq<Json>)
    requires agent in t.behaviors && OfferOf(m, agent) && AgentTracked(t, agent, offers, h)
    ensures AgentTracked(TrackOffer(t, agent, m).0, agent, offers + 1, NextHistory(h, m, agent))
  {
    CountedTracked(t, agent, offers, h);
    var counted := Counted(t, agent);
    if OfferTerms(m).Some? && Truthy(OfferTerms(m).value) {
      TermsTracked(t, agent, OfferTerms(m).value, m, offers, h);
    } else if OfferTerms(m).Some? {
      WriteTracked(counted, agent, counted.behaviors[agent], offers + 1, h);
    }
  }

  lemma TermsTracked(t: Tracking, agent: Text, terms: Json, m: Envelope, offers: nat, h: seq<Json>)
    requires agent in t.behaviors && OfferOf(m, agent) && OfferTerms(m) == Some(terms) && Truthy(terms)
    requires AgentTracked(t, agent, offers, h) && AgentTracked(Counted(t, agent), agent, offers + 1, h)
    ensures AgentTracked(TrackOffer(t, agent, m).0, agent, offers + 1, NextHistory(h, m, agent))
  {
    var counted := Counted(t, agent);
    var b := counted.behaviors[agent];
    if Offered(b, Last(h), terms).Some? {
      OfferAverages(b, h, terms);
    }
  }

  predicate SameCounts(b: Behavior, c: Behavior) {
    && b.offersMade == c.offersMade && b.concessions == c.concessions
    && b.concessionMagnitude == c.concessionMagnitude
  }

  lemma WriteTracked(t: Tracking, agent: Text, b: Behavior, offers: nat, h: seq<Json>)
    requires AgentTracked(t, agent, offers, h) && SameCounts(b, Record(t.behaviors, agent))
    ensures AgentTracked(Write(t, agent, b), agent, offers, h)
  {
  }

  lemma SenderTracked(t: Tracking, agent: Text, m: Envelope, offers: nat, h: seq<Json>)
    requires TypeOf(m).Some? && AgentOf(m) == Some(agent) && AgentTracked(t, agent, offers, h)
    ensures AgentTracked(Track(t, agent, m).0, agent, offers + (if IsOffer(m) then 1 else 0), NextHistory(h, m, agent))
  {
    WriteTracked(t, agent, Record(t.behaviors, agent), offers, h);
    var known := Known(t, agent);
    if IsOffer(m) {
      OfferTracked(known, agent, m, offers, h);
      var (noted, ok) := TrackOffer(known, agent, m);
      WriteTracked(noted, agent, Reasoned(Record(noted.behaviors, agent), m), offers + 1, NextHistory(h, m, agent));
    } else {
      OtherTracked(known, agent, m, offers, h);
    }
  }

  lemma OtherTracked(t: Tracking, agent: Text, m: Envelope, offers: nat, h: seq<Json>)
    requires TypeOf(m).Some? && AgentTracked(t, agent, offers, h)
    ensures AgentTracked(NoteReasoning(Note(t, agent, TypeOf(m).value), agent, m), agent, offers, h)
  {
    var kind := TypeOf(m).value;
    WriteTracked(t, agent, Noted(Record(t.behaviors, agent), kind), offers, h);
    var noted := Note(t, agent, kind);
    WriteTracked(noted, agent, Reasoned(Record(noted.behaviors, agent), m), offers, h);
  }

  lemma OtherUntouched(t: Tracking, sender: Text, m: Envelope, agent: Text)
    requires TypeOf(m).Some? && sender != agent
    ensures Record(Track(t, sender, m).0.behaviors, agent) == Record(t.behaviors, agent)
    ensures LastOffer(Track(t, sender, m).0.lastOffers, agent) == LastOffer(t.lastOffers, agent)
  {
  }

  // ---------------------------------------------------------------- the invariant

  /** The counters and averages agree with the transcript. */
  ghost predicate Tallied(t: Tracking, ms: seq<Envelope>) {
    && t.roundCount == OfferCount(ms)
    && SumOffers(t.behaviors.Keys, t.behaviors) == t.roundCount
    && forall agent :: AgentTracked(t, agent, OffersBy(ms, agent), History(ms, agent))
  }

  predicate Capped(s: Snapshot) {
    s.tracking.roundCount <= if s.maxRounds > 0 then s.maxRounds else 0
  }

  predicate FiredOnce(s: Snapshot) {
    s.fired == if s.terminalFired then 1 else 0
  }

  /** An agreement is always the work of the last message. */
  predicate AgreedByMessage(s: Snapshot) {
    s.state == Agreed ==> s.transcript != [] && Concludes(s.transcript[|s.transcript| - 1]) && s.concludedAt.Some?
  }

  ghost predicate Inv(env: Env, s: Snapshot) {
    && Linked(env.hash, s.transcript) && AllSigned(env.verify, s.sessionId, s.transcript)
    && Tallied(s.tracking, s.transcript) && Capped(s) && FiredOnce(s) && AgreedByMessage(s)
  }

  lemma AdmittedIs(env: Env, s: Snapshot, resolve: Resolver, m: Envelope)
    requires Refusal(env, s, resolve, m).None?
    ensures Admissible(s.state, m) && ChainsTo(Tip(env.hash, s.transcript), m)
    ensures Signed(env.verify, s.sessionId, m)
    ensures IsOffer(m) ==> s.tracking.roundCount < s.maxRounds
  {
  }

  lemma AdvanceFrame(s: Snapshot, m: Envelope, now: int)
    requires Admissible(s.state, m)
    ensures var (next, outcome) := Advance(s, m, now);
            && next.transcript == s.transcript + [m]
            && (outcome == Applied || outcome == MalformedBody)
            && next.sessionId == s.sessionId && next.maxRounds == s.maxRounds
  {
  }

  lemma AdvanceTracks(s: Snapshot, m: Envelope, now: int)
    requires Admissible(s.state, m)
    ensures var (next, outcome) := Advance(s, m, now);
            next.tracking == Track(s.tracking, AgentOf(m).value, m).0
            || (next.tracking == s.tracking && !IsOffer(m) && outcome == MalformedBody)
  {
  }

  /** Which fields an admitted message touches. */
  lemma AdvanceFields(s: Snapshot, m: Envelope, now: int)
    requires Admissible(s.state, m)
    ensures var (next, outcome) := Advance(s, m, now);
            && next.transcript == s.transcript + [m]
            && (outcome == Applied || outcome == MalformedBody)
            && next.sessionId == s.sessionId && next.maxRounds == s.maxRounds
            && (next.tracking == Track(s.tracking, AgentOf(m).value, m).0
                || (next.tracking == s.tracking && !IsOffer(m) && outcome == MalformedBody))
  {
    AdvanceFrame(s, m, now);
    AdvanceTracks(s, m, now);
  }

  lemma SettleConclusion(s: Snapshot, to: State, now: int)
    requires FiredOnce(s) && s.state != Agreed
    requires to == Agreed ==> s.transcript != [] && Concludes(s.transcript[|s.transcript| - 1])
    ensures FiredOnce(Settle(s, to, now)) && AgreedByMessage(Settle(s, to, now))
  {
  }

  lemma AgreementNeedsConclusion(state: State, t: MessageType)
    requires Transition(state, t).Some?
    ensures state != Agreed && (Transition(state, t) == Some(Agreed) ==> t == Accept || t == Commit)
  {
  }

  lemma AdvanceConclusion(s: Snapshot, m: Envelope, now: int)
    requires Admissible(s.state, m) && FiredOnce(s)
    ensures FiredOnce(Advance(s, m, now).0) && AgreedByMessage(Advance(s, m, now).0)
  {
    var t := TypeOf(m).value;
    AgreementNeedsConclusion(s.state, t);
    var appended := s.(transcript := s.transcript + [m]);
    if !(t == Open && BodyOf(m).None?) {
      var ready := if t == Open then appended.(terms := Get(BodyOf(m).value, TERMS)) else appended;
      var (tracking, ok) := Track(s.tracking, AgentOf(m).value, m);
      SettleConclusion(ready.(tracking := tracking), Transition(s.state, t).value, now);
    }
  }

  lemma TallyAppend(t: Tracking, ms: seq<Envelope>, m: Envelope, next: Tracking)
    requires Tallied(t, ms) && TypeOf(m).Some? && AgentOf(m).Some?
    requires next == Track(t, AgentOf(m).value, m).0 || (next == t && !IsOffer(m))
    ensures Tallied(next, ms + [m])
    ensures next.roundCount == t.roundCount + (if IsOffer(m) then 1 else 0)
  {
    var longer, sender := ms + [m], AgentOf(m).value;
    assert longer[..|longer| - 1] == ms;
    if next != t {
      TrackCounts(t, sender, m);
      SumWrite(t.behaviors, sender, next.behaviors[sender]);
    }
    forall agent
      ensures AgentTracked(next, agent, OffersBy(longer, agent), History(longer, agent))
    {
      AgentAppend(t, ms, m, next, agent);
    }
  }

  lemma AgentAppend(t: Tracking, ms: seq<Envelope>, m: Envelope, next: Tracking, agent: Text)
    requires TypeOf(m).Some? && AgentOf(m).Some?
    requires AgentTracked(t, agent, OffersBy(ms, agent), History(ms, agent))
    requires next == Track(t, AgentOf(m).value, m).0 || (next == t && !IsOffer(m))
    ensures AgentTracked(next, agent, OffersBy(ms + [m], agent), History(ms + [m], agent))
  {
    var longer := ms + [m];
    assert longer[..|longer| - 1] == ms;
    if AgentOf(m).value == agent {
      SenderTracked(t, agent, m, OffersBy(ms, agent), History(ms, agent));
    } else {
      OtherUntouched(t, AgentOf(m).value, m, agent);
    }
  }

  lemma DeliverKeepsInv(env: Env, s: Snapshot, resolve: Resolver, m: Envelope, now: int)
    requires Inv(env, s)
    ensures Inv(env, ApplyMessage(env, s, resolve, m, now).0)
  {
    if Refusal(env, s, resolve, m).None? {
      AdmittedIs(env, s, resolve, m);
      AdvanceKeepsInv(env, s, m, now);
    }
  }

  lemma AdvanceKeepsInv(env: Env, s: Snapshot, m: Envelope, now: int)
    requires Inv(env, s) && Admissible(s.state, m) && ChainsTo(Tip(env.hash, s.transcript), m)
    requires Signed(env.verify, s.sessionId, m) && (IsOffer(m) ==> s.tracking.roundCount < s.maxRounds)
    ensures Inv(env, Advance(s, m, now).0)
  {
    AdvanceFields(s, m, now);
    AdvanceConclusion(s, m, now);
    LinkedAppend(env.hash, s.transcript, m);
    TallyAppend(s.tracking, s.transcript, m, Advance(s, m, now).0.tracking);
  }

  lemma JoinTallied(t: Tracking, ms: seq<Envelope>, agent: Text)
    requires Tallied(t, ms)
    ensures Tallied(Known(t, agent), ms)
  {
    var known := Known(t, agent);
    SumWrite(t.behaviors, agent, Record(t.behaviors, agent));
    forall a
      ensures AgentTracked(known, a, OffersBy(ms, a), History(ms, a))
    {
      assert AgentTracked(t, a, OffersBy(ms, a), History(ms, a));
      assert Record(known.behaviors, a) == Record(t.behaviors, a);
    }
  }

  /** Calls that leave the transcript and its tallies alone. */
  lemma LeavesTranscript(env: Env, s: Snapshot, next: Snapshot)
    requires Inv(env, s) && next.transcript == s.transcript && next.tracking == s.tracking
    requires next.sessionId == s.sessionId && next.maxRounds == s.maxRounds
    requires FiredOnce(next) && AgreedByMessage(next)
    ensures Inv(env, next)
  {
  }

  lemma ExpireKeepsInv(env: Env, s: Snapshot, now: int)
    requires Inv(env, s)
    ensures Inv(env, Step(env, s, ExpireAt(now)))
  {
    if Expire(s, now).Some? {
      LeavesTranscript(env, s, Expire(s, now).value);
    }
  }

  lemma SleepKeepsInv(env: Env, s: Snapshot)
    requires Inv(env, s)
    ensures Inv(env, Step(env, s, Sleep))
  {
    if MakeDormant(s).Some? {
      LeavesTranscript(env, s, MakeDormant(s).value);
    }
  }

  lemma JoinKeepsInv(env: Env, s: Snapshot, agent: Text)
    requires Inv(env, s)
    ensures Inv(env, Step(env, s, Join(agent)))
  {
    JoinTallied(s.tracking, s.transcript, agent);
  }

  lemma StepKeepsInv(env: Env, s: Snapshot, e: Event)
    requires Inv(env, s)
    ensures Inv(env, Step(env, s, e))
  {
    match e
    case Deliver(m, resolve, now) => DeliverKeepsInv(env, s, resolve, m, now);
    case ExpireAt(now) => ExpireKeepsInv(env, s, now);
    case Sleep => SleepKeepsInv(env, s);
    case Join(agent) => JoinKeepsInv(env, s, agent);
    case Attach(callback) => LeavesTranscript(env, s, s.(callback := callback));
  }

  lemma FreshInv(env: Env, sessionId: Text, maxRounds: int, callback: bool)
    ensures Inv(env, Fresh(sessionId, maxRounds, callback))
  {
    forall agent
      ensures AgentTracked(Tracking(0, map[], map[]), agent, OffersBy([], agent), History([], agent))
    {
      assert Concessions([]) == [];
    }
  }

  /**
   Every run of a fresh session, whatever is delivered to it: messages are verified, bound
   and linked, rounds and offers are counted exactly and capped, each running mean is the
   mean over the transcript, and the terminal callback fires at most once.
   */
  lemma {:induction false} RunKeepsInv(env: Env, sessionId: Text, maxRounds: int, callback: bool, events: seq<Event>)
    ensures Inv(env, Run(env, Fresh(sessionId, maxRounds, callback), events))
  {
    if events == [] {
      FreshInv(env, sessionId, maxRounds, callback);
    } else {
      RunKeepsInv(env, sessionId, maxRounds, callback, events[..|events| - 1]);
      StepKeepsInv(env, Run(env, Fresh(sessionId, maxRounds, callback), events[..|events| - 1]), events[|events| - 1]);
    }
  }

  /** No sequence of calls leaves an agreement or extends its transcript. */
  lemma {:induction false} AgreedIsAbsorbing(env: Env, s: Snapshot, events: seq<Event>)
    requires s.state == Agreed
    ensures var last := Run(env, s, events);
            last.state == Agreed && last.transcript == s.transcript && last.fired == s.fired
  {
    if events != [] {
      AgreedIsAbsorbing(env, s, events[..|events| - 1]);
    }
  }

  // ---------------------------------------------------------------- failed calls

  /**
   The shape of an admitted message that `apply_message` fails on after the append: a body
   that is no dict, or an offer that cannot be compared with the sender's last one.
   */
  predicate Malformed(s: Snapshot, m: Envelope)
    requires AgentOf(m).Some?
  {
    var last := LastOffer(s.tracking.lastOffers, AgentOf(m).value);
    if IsOffer(m) then
      || BodyOf(m).None?
      || (last.Some? && Truthy(OfferTerms(m).value) && Incomparable(last.value, OfferTerms(m).value))
    else TypeOf(m) == Some(Open) && BodyOf(m).None?
  }

  /** Exactly which failed calls change the session: those that admit a malformed body. */
  lemma FailedCallChangesNothingIff(env: Env, s: Snapshot, resolve: Resolver, m: Envelope, now: int)
    ensures var (next, outcome) := ApplyMessage(env, s, resolve, m, now);
            && (outcome == MalformedBody <==> Refusal(env, s, resolve, m).None? && Malformed(s, m))
            && (outcome != Applied ==> (next == s <==> outcome != MalformedBody))
  {
    if Refusal(env, s, resolve, m).None? {
      AdmittedIs(env, s, resolve, m);
      AdvanceFields(s, m, now);
      AdvanceOutcome(s, m, now);
    }
  }

  lemma AdvanceOutcome(s: Snapshot, m: Envelope, now: int)
    requires Admissible(s.state, m)
    ensures Advance(s, m, now).1 == MalformedBody <==> Malformed(s, m)
  {
    if IsOffer(m) {
      TrackFailsIff(s.tracking, AgentOf(m).value, m);
      var last := LastOffer(s.tracking.lastOffers, AgentOf(m).value);
      if last.Some? && OfferTerms(m).Some? {
        ConcessionRaisesIff(last.value, OfferTerms(m).value);
      }
    }
  }

  lemma TrackFailsIff(t: Tracking, agent: Text, m: Envelope)
    requires IsOffer(m)
    ensures Track(t, agent, m).1 <==>
            && OfferTerms(m).Some?
            && Offered(Counted(t, agent).behaviors[agent], LastOffer(t.lastOffers, agent), OfferTerms(m).value).Some?
  {
  }

  /** A body that is a dict, whose terms, for an offer, are an object of objects with moderate ints. */
  predicate WellShaped(m: Envelope) {
    BodyOf(m).Some? && (IsOffer(m) ==> OrdinaryTerms(OfferTerms(m).value))
  }

  predicate AllWellShaped(ms: seq<Envelope>) {
    forall i :: 0 <= i < |ms| ==> WellShaped(ms[i])
  }

  lemma {:induction false} WellShapedHistory(ms: seq<Envelope>, agent: Text)
    requires AllWellShaped(ms)
    ensures forall i :: 0 <= i < |History(ms, agent)| ==> OrdinaryTerms(History(ms, agent)[i])
  {
    if ms != [] {
      WellShapedHistory(ms[..|ms| - 1], agent);
    }
  }

  /** With terms that are objects of objects and moderate ints, failed calls change nothing. */
  lemma WellShapedCallsAreAtomic(env: Env, s: Snapshot, resolve: Resolver, m: Envelope, now: int)
    requires Inv(env, s) && WellShaped(m)
    requires AllWellShaped(s.transcript)
    ensures var (next, outcome) := ApplyMessage(env, s, resolve, m, now);
            outcome == Applied || next == s
  {
    FailedCallChangesNothingIff(env, s, resolve, m, now);
    if Refusal(env, s, resolve, m).None? {
      var agent := AgentOf(m).value;
      assert AgentTracked(s.tracking, agent, OffersBy(s.transcript, agent), History(s.transcript, agent));
      WellShapedHistory(s.transcript, agent);
      WellShapedNotMalformed(s, m, History(s.transcript, agent));
    }
  }

  lemma WellShapedNotMalformed(s: Snapshot, m: Envelope, h: seq<Json>)
    requires AgentOf(m).Some? && WellShaped(m) && LastOffer(s.tracking.lastOffers, AgentOf(m).value) == Last(h)
    requires forall i :: 0 <= i < |h| ==> OrdinaryTerms(h[i])
    ensures !Malformed(s, m)
  {
    if IsOffer(m) && h != [] {
      MovementsDefined(h[|h| - 1].members, OfferTerms(m).value);
      ConcessionRaisesIff(h[|h| - 1], OfferTerms(m).value);
    }
  }

  // ---------------------------------------------------------------- causes of refusal

  /** What a refusal with this outcome says of the message. */
  predicate CauseHolds(env: Env, s: Snapshot, resolve: Resolver, m: Envelope, o: Outcome) {
    match o
    case InvalidSignature => !Authentic(env.verify, resolve, m)
    case WrongSession => Carries(m, SESSION_ID) && Get(m, SESSION_ID) != Some(Str(s.sessionId))
    case BrokenChain =>
      var tip := Tip(env.hash, s.transcript);
      Carries(m, PREV_HASH) && tip.Some? && PrevHash(m) != Some(Str(tip.value))
    case UnknownType => TypeOf(m).None?
    case InvalidTransition => TypeOf(m).Some? && Transition(s.state, TypeOf(m).value).None?
    case MaxRoundsExceeded => IsOffer(m) && s.tracking.roundCount >= s.maxRounds
    case Crashed => FromRaises(m) || (Carries(m, PREV_HASH) && Tip(env.hash, s.transcript).None?)
    case Applied | MalformedBody => false
  }

  /** The reason given for a refusal is always true of the message, and only a message without fault is admitted. */
  lemma RefusedForCause(env: Env, s: Snapshot, resolve: Resolver, m: Envelope)
    ensures match Refusal(env, s, resolve, m)
            case Some(o) => CauseHolds(env, s, resolve, m, o)
            case None => forall o :: !CauseHolds(env, s, resolve, m, o)
  {
  }

  // ---------------------------------------------------------------- the plain reading of the average

  /** The non-empty terms an agent offered, in order. */
  function TermsOffered(ms: seq<Envelope>, agent: Text): seq<Json> {
    if ms == [] then []
    else
      var before, m := TermsOffered(ms[..|ms| - 1], agent), ms[|ms| - 1];
      if OfferOf(m, agent) && OfferTerms(m).Some? && Truthy(OfferTerms(m).value)
      then before + [OfferTerms(m).value] else before
  }

  /** Among well-shaped messages, every non-empty offer enters the record. */
  lemma {:induction false} HistoryIsTermsOffered(ms: seq<Envelope>, agent: Text)
    requires AllWellShaped(ms)
    ensures History(ms, agent) == TermsOffered(ms, agent)
  {
    if ms != [] {
      var init, m := ms[..|ms| - 1], ms[|ms| - 1];
      HistoryIsTermsOffered(init, agent);
      WellShapedHistory(init, agent);
      OfferEnters(History(init, agent), m, agent);
    }
  }

  lemma OfferEnters(h: seq<Json>, m: Envelope, agent: Text)
    requires WellShaped(m) && forall i :: 0 <= i < |h| ==> OrdinaryTerms(h[i])
    ensures NextHistory(h, m, agent)
         == if OfferOf(m, agent) && OfferTerms(m).Some? && Truthy(OfferTerms(m).value)
            then h + [OfferTerms(m).value] else h
  {
    if OfferOf(m, agent) && h != [] {
      MovementsDefined(h[|h| - 1].members, OfferTerms(m).value);
    }
  }

  /**
   The running average refines the batch one: `concession_magnitude` times `concessions`
   is the sum of the positive concessions between an agent's successive non-empty offers.
   */
  lemma RunningMeanIsBatchMean(env: Env, s: Snapshot, agent: Text)
    requires Inv(env, s) && AllWellShaped(s.transcript)
    ensures Means(Record(s.tracking.behaviors, agent), Concessions(TermsOffered(s.transcript, agent)))
    ensures Record(s.tracking.behaviors, agent).concessions > 0 ==>
              Record(s.tracking.behaviors, agent).concessionMagnitude > 0.0
  {
    assert AgentTracked(s.tracking, agent, OffersBy(s.transcript, agent), History(s.transcript, agent));
    HistoryIsTermsOffered(s.transcript, agent);
    ConcessionsPositive(TermsOffered(s.transcript, agent));
    MeanPositive(Record(s.tracking.behaviors, agent), Concessions(TermsOffered(s.transcript, agent)));
  }

  lemma MeanPositive(b: Behavior, xs: seq<real>)
    requires Means(b, xs) && (xs != [] ==> Sum(xs) > 0.0)
    ensures b.concessions > 0 ==> b.concessionMagnitude > 0.0
  {
    if b.concessions > 0 {
    }
  }

  lemma {:induction false} ConcessionsPositive(h: seq<Json>)
    ensures Concessions(h) != [] ==> Sum(Concessions(h)) > 0.0
  {
    if |h| >= 2 {
      ConcessionsPositive(h[..|h| - 1]);
      var before := Concessions(h[..|h| - 1]);
      match Concession(h[|h| - 2], h[|h| - 1])
      case Some(c) =>
        if c > 0.0 {
          SumAppend(before, c);
        }
      case None =>
    }
  }
}
