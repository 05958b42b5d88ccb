/** The negotiation session (`concordia/session.py`): message admission, tracking and runs. */
module Session {
  import opened Wrappers
  import opened Unicode
  import opened PythonValues
  import opened Crypto
  import opened Message
  import opened Negotiation

  /** `verify_signature(message, signature, key)` */
  type Verifier = (Envelope, Text, PublicKey) -> bool

  /** The `public_key_resolver` callback of one call. */
  type Resolver = Text -> Option<PublicKey>

  datatype Env = Env(hash: MessageHash, verify: Verifier)

  /** The BehaviorRecord fields that messages change. */
  datatype Behavior = Behavior(
    offersMade: nat,
    concessions: nat,
    concessionMagnitude: real,
    signalsShared: nat,
    constraintsDeclared: nat,
    reasoningProvided: bool,
    withdrawal: bool)

  const NEW_BEHAVIOR := Behavior(0, 0, 0.0, 0, 0, false, false)

  /** What `_track_behavior` maintains. */
  datatype Tracking = Tracking(
    roundCount: nat,
    behaviors: map<Text, Behavior>,
    lastOffers: map<Text, Json>)

  /** The fields of a Session; `fired` counts the calls of `on_terminal`. */
  datatype Snapshot = Snapshot(
    sessionId: Text,
    maxRounds: int,
    state: State,
    transcript: seq<Envelope>,
    terms: Option<Json>,
    tracking: Tracking,
    callback: bool,
    terminalFired: bool,
    fired: nat,
    concludedAt: Option<int>,
    reactivatable: bool)

  /** How a call ends; `Crashed` is an incidental exception before anything was changed. */
  datatype Outcome =
    | Applied | InvalidSignature | WrongSession | BrokenChain | UnknownType | InvalidTransition
    | MaxRoundsExceeded | Crashed | MalformedBody

  // ---------------------------------------------------------------- admission

  /** `message["from"]["agent_id"]`, unless absent or empty. */
  function AgentOf(m: Envelope): Option<Text> {
    match Get(m, FROM)
    case Some(Obj(from)) =>
      (match Get(from, AGENT_ID) case Some(Str(a)) => if a == [] then None else Some(a) case _ => None)
    case _ => None
  }

  function SignatureOf(m: Envelope): Option<Text> {
    match Get(m, SIGNATURE)
    case Some(Str(sig)) => if sig == [] then None else Some(sig)
    case _ => None
  }

  predicate FromRaises(m: Envelope) {
    Get(m, FROM).Some? && !Get(m, FROM).value.Obj?
  }

  predicate Authentic(verify: Verifier, resolve: Resolver, m: Envelope) {
    && AgentOf(m).Some? && SignatureOf(m).Some?
    && resolve(AgentOf(m).value).Some?
    && verify(m, SignatureOf(m).value, resolve(AgentOf(m).value).value)
  }

  /** `message.get(key) is not None` */
  predicate Carries(m: Envelope, key: Text) {
    Get(m, key).Some? && Get(m, key) != Some(Null)
  }

  predicate BoundTo(sessionId: Text, m: Envelope) {
    Carries(m, SESSION_ID) ==> Get(m, SESSION_ID) == Some(Str(sessionId))
  }

  predicate ChainsTo(tip: Option<Text>, m: Envelope) {
    Carries(m, PREV_HASH) ==> tip.Some? && PrevHash(m) == Some(Str(tip.value))
  }

  /** The first check of `apply_message` that a message fails. */
  function Refusal(env: Env, s: Snapshot, resolve: Resolver, m: Envelope): Option<Outcome> {
    var tip := Tip(env.hash, s.transcript);
    if FromRaises(m) then Some(Crashed)
    else if !Authentic(env.verify, resolve, m) then Some(InvalidSignature)
    else if !BoundTo(s.sessionId, m) then Some(WrongSession)
    else if Carries(m, PREV_HASH) && tip.None? then Some(Crashed)
    else if !ChainsTo(tip, m) then Some(BrokenChain)
    else if TypeOf(m).None? then Some(UnknownType)
    else if Transition(s.state, TypeOf(m).value).None? then Some(InvalidTransition)
    else if IsOffer(m) && s.tracking.roundCount >= s.maxRounds then Some(MaxRoundsExceeded)
    else None
  }

  // ---------------------------------------------------------------- behavior

  /** `message.get("body", {})` when it is a dict. */
  function BodyOf(m: Envelope): Option<seq<Member>> {
    match Get(m, BODY)
    case None => Some([])
    case Some(Obj(body)) => Some(body)
    case _ => None
  }

  /** `body.get("terms", {})` */
  function OfferTerms(m: Envelope): Option<Json> {
    var body :- BodyOf(m);
    Some(match Get(body, TERMS) case Some(terms) => terms case None => Obj([]))
  }

  predicate Reasons(m: Envelope) {
    Get(m, REASONING).Some? && Truthy(Get(m, REASONING).value)
  }

  function Record(behaviors: map<Text, Behavior>, agent: Text): Behavior {
    if agent in behaviors then behaviors[agent] else NEW_BEHAVIOR
  }

  /** The mean of `n` numbers, from the mean of all but the last. */
  function RunningMean(mean: real, n: nat, last: real): real
    requires n > 0
  {
    (mean * (n - 1) as real + last) / n as real
  }

  /** The running average after one concession. */
  function Conceded(b: Behavior, concession: real): Behavior {
    if concession > 0.0 then
      var n := b.concessions + 1;
      b.(concessions := n, concessionMagnitude := RunningMean(b.concessionMagnitude, n, concession))
    else b
  }

  /** What an agent's offer of `terms` does to its record; `None` when the comparison raises. */
  function Offered(b: Behavior, last: Option<Json>, terms: Json): Option<Behavior> {
    if last.None? || !Truthy(terms) then Some(b)
    else
      var concession :- Concession(last.value, terms);
      Some(Conceded(b, concession))
  }

  function LastOffer(lastOffers: map<Text, Json>, agent: Text): Option<Json> {
    if agent in lastOffers then Some(lastOffers[agent]) else None
  }

  /** The record of a message that is not an offer. */
  function Noted(b: Behavior, t: MessageType): Behavior {
    match t
    case Signal => b.(signalsShared := b.signalsShared + 1)
    case Constrain => b.(constraintsDeclared := b.constraintsDeclared + 1)
    case Withdraw => b.(withdrawal := true)
    case _ => b
  }

  function Reasoned(b: Behavior, m: Envelope): Behavior {
    if Reasons(m) then b.(reasoningProvided := true) else b
  }

  function Write(t: Tracking, agent: Text, b: Behavior): Tracking {
    t.(behaviors := t.behaviors[agent := b])
  }

  /** Every tracked or registered agent has a record. */
  function Known(t: Tracking, agent: Text): Tracking {
    Write(t, agent, Record(t.behaviors, agent))
  }

  /** The record, counters and last offer once an offer is counted. */
  function Counted(t: Tracking, agent: Text): Tracking {
    var b := Record(t.behaviors, agent);
    Write(t.(roundCount := t.roundCount + 1), agent, b.(offersMade := b.offersMade + 1))
  }

  function Note(t: Tracking, agent: Text, kind: MessageType): Tracking {
    Write(t, agent, Noted(Record(t.behaviors, agent), kind))
  }

  function NoteReasoning(t: Tracking, agent: Text, m: Envelope): Tracking {
    Write(t, agent, Reasoned(Record(t.behaviors, agent), m))
  }

  /** The offer branch of `_track_behavior`; `false` when it raises halfway. */
  function TrackOffer(t: Tracking, agent: Text, m: Envelope): (Tracking, bool) {
    var counted := Counted(t, agent);
    match OfferTerms(m)
    case None => (counted, false)
    case Some(terms) =>
      match Offered(counted.behaviors[agent], LastOffer(t.lastOffers, agent), terms)
      case None => (counted, false)
      case Some(offered) =>
        var written := Write(counted, agent, offered);
        (if Truthy(terms) then written.(lastOffers := t.lastOffers[agent := terms]) else written, true)
  }

  /** `_track_behavior`, and whether it returned rather than raised. */
  function Track(t: Tracking, agent: Text, m: Envelope): (Tracking, bool)
    requires TypeOf(m).Some?
  {
    var known := Known(t, agent);
    var (noted, ok) := if IsOffer(m) then TrackOffer(known, agent, m) else (Note(known, agent, TypeOf(m).value), true);
    (if ok then NoteReasoning(noted, agent, m) else noted, ok)
  }

  // ---------------------------------------------------------------- steps

  /** `_fire_terminal` */
  function Fire(s: Snapshot): Snapshot {
    if s.terminalFired || !s.callback then s else s.(terminalFired := true, fired := s.fired + 1)
  }

  function Settle(s: Snapshot, to: State, now: int): Snapshot {
    if (to == Agreed || to == Rejected) && s.state != to
    then Fire(s.(state := to, concludedAt := Some(now)))
    else s.(state := to)
  }

  predicate Admissible(state: State, m: Envelope) {
    AgentOf(m).Some? && TypeOf(m).Some? && Transition(state, TypeOf(m).value).Some?
  }

  /** What `apply_message` does once a message is admitted. */
  function Advance(s: Snapshot, m: Envelope, now: int): (Snapshot, Outcome)
    requires Admissible(s.state, m)
  {
    var appended := s.(transcript := s.transcript + [m]);
    if TypeOf(m) == Some(Open) && BodyOf(m).None? then (appended, MalformedBody)
    else
      var ready := if TypeOf(m) == Some(Open) then appended.(terms := Get(BodyOf(m).value, TERMS)) else appended;
      var (tracking, ok) := Track(s.tracking, AgentOf(m).value, m);
      var tracked := ready.(tracking := tracking);
      if ok then (Settle(tracked, Transition(s.state, TypeOf(m).value).value, now), Applied)
      else (tracked, MalformedBody)
  }

  /** `apply_message` on values. */
  function ApplyMessage(env: Env, s: Snapshot, resolve: Resolver, m: Envelope, now: int): (Snapshot, Outcome) {
    match Refusal(env, s, resolve, m)
    case Some(outcome) => (s, outcome)
    case None => Advance(s, m, now)
  }

  /** `expire`; `None` when it raises. */
  function Expire(s: Snapshot, now: int): Option<Snapshot> {
    if s.state == Proposed || s.state == Active
    then Some(Fire(s.(state := Expired, concludedAt := Some(now))))
    else None
  }

  /** `make_dormant`; `None` when it raises. */
  function MakeDormant(s: Snapshot): Option<Snapshot> {
    if s.state == Rejected || s.state == Expired then Some(s.(state := Dormant, reactivatable := true)) else None
  }

  function AddParty(s: Snapshot, agent: Text): Snapshot {
    s.(tracking := Known(s.tracking, agent))
  }

  class Session {
    const sessionId: Text
    const maxRounds: int
    var state: State
    var transcript: seq<Envelope>
    var roundCount: nat
    var terms: Option<Json>
    var behaviors: map<Text, Behavior>
    var lastOffers: map<Text, Json>
    var callback: bool
    var terminalFired: bool
    ghost var fired: nat
    var concludedAt: Option<int>
    var reactivatable: bool

    constructor (sessionId: Text, maxRounds: int, callback: bool)
      ensures Value() == Fresh(sessionId, maxRounds, callback)
    {
      this.sessionId, this.maxRounds, this.callback := sessionId, maxRounds, callback;
      state, transcript, roundCount, terms := Proposed, [], 0, None;
      behaviors, lastOffers := map[], map[];
      terminalFired, fired, concludedAt, reactivatable := false, 0, None, false;
    }

    ghost function Value(): Snapshot
      reads this
    {
      Snapshot(sessionId, maxRounds, state, transcript, terms, Tracked(),
               callback, terminalFired, fired, concludedAt, reactivatable)
    }

    function Tracked(): Tracking
      reads this
    {
      Tracking(roundCount, behaviors, lastOffers)
    }

    /** `apply_message` */
    method Apply(env: Env, resolve: Resolver, m: Envelope, now: int) returns (outcome: Outcome)
      modifies this
      ensures (Value(), outcome) == ApplyMessage(env, old(Value()), resolve, m, now)
    {
      var refusal := Admit(env, resolve, m);
      if refusal.Some? {
        return refusal.value;
      }
      outcome := Commit(m, now);
    }

    /** `apply_message` from the append on. */
    method Commit(m: Envelope, now: int) returns (outcome: Outcome)
      requires Admissible(state, m)
      modifies this
      ensures (Value(), outcome) == Advance(old(Value()), m, now)
    {
      var agent, t := AgentOf(m).value, TypeOf(m).value;
      var newState := Transition(state, t).value;
      var ok := Append(m, t);
      if !ok {
        return MalformedBody;
      }
      ok := TrackBehavior(agent, t, m);
      if !ok {
        return MalformedBody;
      }
      Conclude(newState, now);
      return Applied;
    }

    /** The append, and the terms of an opening message. */
    method Append(m: Envelope, t: MessageType) returns (ok: bool)
      requires TypeOf(m) == Some(t)
      modifies `transcript, `terms
      ensures ok == (t == Open ==> BodyOf(m).Some?)
      ensures Value() == old(Value()).(
                transcript := old(transcript) + [m],
                terms := if t == Open && ok then Get(BodyOf(m).value, TERMS) else old(terms))
    {
      transcript := transcript + [m];
      if t == Open {
        var body := BodyOf(m);
        if body.None? {
          return false;
        }
        terms := Get(body.value, TERMS);
      }
      return true;
    }

    method Conclude(newState: State, now: int)
      modifies this
      ensures Value() == Settle(old(Value()), newState, now)
    {
      var oldState := state;
      state := newState;
      if (newState == Agreed || newState == Rejected) && oldState != newState {
        concludedAt := Some(now);
        FireTerminal();
      }
    }

    /** The checks of `apply_message`, in order. */
    method Admit(env: Env, resolve: Resolver, m: Envelope) returns (refusal: Option<Outcome>)
      ensures refusal == Refusal(env, Value(), resolve, m)
    {
      var from := Get(m, FROM);
      if from.Some? && !from.value.Obj? {
        return Some(Crashed);
      }
      var agent, signature := AgentOf(m), SignatureOf(m);
      if agent.None? || signature.None? {
        return Some(InvalidSignature);
      }
      var key := resolve(agent.value);
      if key.None? || !env.verify(m, signature.value, key.value) {
        return Some(InvalidSignature);
      }
      if Carries(m, SESSION_ID) && Get(m, SESSION_ID) != Some(Str(sessionId)) {
        return Some(WrongSession);
      }
      if Carries(m, PREV_HASH) {
        var tip := Tip(env.hash, transcript);
        if tip.None? {
          return Some(Crashed);
        }
        if PrevHash(m) != Some(Str(tip.value)) {
          return Some(BrokenChain);
        }
      }
      var t := TypeOf(m);
      if t.None? {
        return Some(UnknownType);
      }
      if Transition(state, t.value).None? {
        return Some(InvalidTransition);
      }
      if t.value == Offer || t.value == Counter {
        if roundCount >= maxRounds {
          return Some(MaxRoundsExceeded);
        }
      }
      return None;
    }

    /** `_track_behavior` */
    method TrackBehavior(agent: Text, t: MessageType, m: Envelope) returns (ok: bool)
      requires TypeOf(m) == Some(t)
      modifies `roundCount, `behaviors, `lastOffers
      ensures (Tracked(), ok) == Track(old(Tracked()), agent, m)
    {
      Register(agent);
      if t == Offer || t == Counter {
        ok := TrackOfferOf(agent, m);
        if !ok {
          return false;
        }
      } else {
        NoteOther(agent, t);
      }
      UpdateReasoning(agent, m);
      return true;
    }

    /** Give an agent a record unless it has one. */
    method Register(agent: Text)
      modifies `behaviors
      ensures Tracked() == Known(old(Tracked()), agent)
    {
      if agent !in behaviors {
        behaviors := behaviors[agent := NEW_BEHAVIOR];
      }
      assert behaviors == old(behaviors)[agent := Record(old(behaviors), agent)];
    }

    /** The branches of `_track_behavior` for signals, constraints and withdrawals. */
    method NoteOther(agent: Text, t: MessageType)
      requires agent in behaviors
      modifies `behaviors
      ensures Tracked() == Note(old(Tracked()), agent, t)
    {
      var b := behaviors[agent];
      if t == Signal {
        behaviors := behaviors[agent := b.(signalsShared := b.signalsShared + 1)];
      } else if t == Constrain {
        behaviors := behaviors[agent := b.(constraintsDeclared := b.constraintsDeclared + 1)];
      } else if t == Withdraw {
        behaviors := behaviors[agent := b.(withdrawal := true)];
      }
      assert behaviors == old(behaviors)[agent := Noted(b, t)];
    }

    method UpdateReasoning(agent: Text, m: Envelope)
      requires agent in behaviors
      modifies `behaviors
      ensures Tracked() == NoteReasoning(old(Tracked()), agent, m)
    {
      if Reasons(m) {
        behaviors := behaviors[agent := behaviors[agent].(reasoningProvided := true)];
      }
      assert behaviors == old(behaviors)[agent := Reasoned(old(behaviors)[agent], m)];
    }

    /** The offer branch of `_track_behavior`. */
    method TrackOfferOf(agent: Text, m: Envelope) returns (ok: bool)
      requires agent in behaviors
      modifies `roundCount, `behaviors, `lastOffers
      ensures (Tracked(), ok) == TrackOffer(old(Tracked()), agent, m)
    {
      var b := behaviors[agent];
      b := b.(offersMade := b.offersMade + 1);
      behaviors := behaviors[agent := b];
      roundCount := roundCount + 1;
      var currentTerms := OfferTerms(m);
      if currentTerms.None? {
        return false;
      }
      if agent in lastOffers && Truthy(currentTerms.value) {
        var concession := Concession(lastOffers[agent], currentTerms.value);
        if concession.None? {
          return false;
        }
        if concession.value > 0.0 {
          var n := b.concessions + 1;
          b := b.(concessions := n, concessionMagnitude := RunningMean(b.concessionMagnitude, n, concession.value));
        }
      }
      behaviors := behaviors[agent := b];
      assert Write(Counted(old(Tracked()), agent), agent, b).behaviors == behaviors;
      if Truthy(currentTerms.value) {
        lastOffers := lastOffers[agent := currentTerms.value];
      }
      return true;
    }

    /** `_fire_terminal`; the callback itself is informational and changes nothing here. */
    method FireTerminal()
      modifies this
      ensures Value() == Fire(old(Value()))
    {
      if terminalFired || !callback {
        return;
      }
      terminalFired := true;
      fired := fired + 1;
    }

    method ExpireNow(now: int) returns (ok: bool)
      modifies this
      ensures Expire(old(Value()), now) == if ok then Some(Value()) else None
      ensures !ok ==> unchanged(this)
    {
      if state != Proposed && state != Active {
        return false;
      }
      state := Expired;
      concludedAt := Some(now);
      FireTerminal();
      return true;
    }

    method Sleep() returns (ok: bool)
      modifies this
      ensures MakeDormant(old(Value())) == if ok then Some(Value()) else None
      ensures !ok ==> unchanged(this)
    {
      if state != Rejected && state != Expired {
        return false;
      }
      state := Dormant;
      reactivatable := true;
      return true;
    }
  }

  function Fresh(sessionId: Text, maxRounds: int, callback: bool): Snapshot {
    Snapshot(sessionId, maxRounds, Proposed, [], None, Tracking(0, map[], map[]), callback, false, 0, None, false)
  }
}
