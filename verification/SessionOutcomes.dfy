/** Which messages a session admits, and how it ends: agreement, rejection, expiry. */
module SessionOutcomes {
  import opened Wrappers
  import opened Unicode
  import opened PythonValues
  import opened Message
  import opened Negotiation
  import opened Session
  import opened SessionRuns
  import Envelopes

  // ---------------------------------------------------------------- types by name

  /** `message["type"]` is this. */
  predicate Is(m: Envelope, name: string) {
    Get(m, Lit("type")) == Some(Str(Lit(name)))
  }

  function NameOf(t: MessageType): string {
    match t
    case Open => "negotiate.open"
    case AcceptSession => "negotiate.accept_session"
    case DeclineSession => "negotiate.decline_session"
    case Offer => "negotiate.offer"
    case Counter => "negotiate.counter"
    case Accept => "negotiate.accept"
    case Reject => "negotiate.reject"
    case Inquire => "negotiate.inquire"
    case Constrain => "negotiate.constrain"
    case Signal => "negotiate.signal"
    case Withdraw => "negotiate.withdraw"
    case ProposeMediator => "negotiate.propose_mediator"
    case Resolve => "negotiate.resolve"
    case Commit => "negotiate.commit"
  }

  lemma {:induction false} NamedIs(t: Text, among: seq<MessageType>)
    ensures TypeNamed(t, among).Some? ==> TypeText(TypeNamed(t, among).value) == t
  {
    if among != [] {
      NamedIs(t, among[1..]);
    }
  }

  lemma TypeIff(m: Envelope, t: MessageType)
    ensures TypeOf(m) == Some(t) <==> Is(m, NameOf(t))
  {
    match Get(m, TYPE)
    case Some(Str(name)) =>
      NamedIs(name, ALL_TYPES);
      if name == TypeText(t) {
        Envelopes.TypeTextRoundTrip(t, m);
      }
    case _ =>
  }

  /** It accepts or commits. */
  predicate Agrees(m: Envelope) {
    Is(m, "negotiate.accept") || Is(m, "negotiate.commit")
  }

  /** It declines, rejects or withdraws. */
  predicate Refuses(m: Envelope) {
    Is(m, "negotiate.decline_session") || Is(m, "negotiate.reject") || Is(m, "negotiate.withdraw")
  }

  predicate AcceptsSession(m: Envelope) {
    Is(m, "negotiate.accept_session")
  }

  predicate Opens(m: Envelope) {
    Is(m, "negotiate.open")
  }

  /** It goes on talking. */
  predicate Continues(m: Envelope) {
    || Is(m, "negotiate.offer") || Is(m, "negotiate.counter") || Is(m, "negotiate.signal")
    || Is(m, "negotiate.inquire") || Is(m, "negotiate.constrain") || Is(m, "negotiate.propose_mediator")
    || Is(m, "negotiate.resolve")
  }

  lemma AllTypes(m: Envelope)
    ensures Agrees(m) <==> TypeOf(m) == Some(Accept) || TypeOf(m) == Some(Commit)
    ensures Refuses(m) <==>
            TypeOf(m) == Some(DeclineSession) || TypeOf(m) == Some(Reject) || TypeOf(m) == Some(Withdraw)
    ensures AcceptsSession(m) <==> TypeOf(m) == Some(AcceptSession)
    ensures Opens(m) <==> TypeOf(m) == Some(Open)
    ensures Continues(m) <==>
            TypeOf(m).Some? && TypeOf(m).value in [Offer, Counter, Signal, Inquire, Constrain, ProposeMediator, Resolve]
  {
    ConcludingTypes(m);
    TypeIff(m, AcceptSession);
    TypeIff(m, Open);
    ContinuingTypes(m);
  }

  lemma ConcludingTypes(m: Envelope)
    ensures Agrees(m) <==> TypeOf(m) == Some(Accept) || TypeOf(m) == Some(Commit)
    ensures Refuses(m) <==>
            TypeOf(m) == Some(DeclineSession) || TypeOf(m) == Some(Reject) || TypeOf(m) == Some(Withdraw)
  {
    TypeIff(m, Accept);
    TypeIff(m, Commit);
    TypeIff(m, DeclineSession);
    TypeIff(m, Reject);
    TypeIff(m, Withdraw);
  }

  lemma ContinuingTypes(m: Envelope)
    ensures Continues(m) <==>
            TypeOf(m).Some? && TypeOf(m).value in [Offer, Counter, Signal, Inquire, Constrain, ProposeMediator, Resolve]
  {
    TypeIff(m, Offer);
    TypeIff(m, Counter);
    TypeIff(m, Signal);
    TypeIff(m, Inquire);
    TypeIff(m, Constrain);
    TypeIff(m, ProposeMediator);
    TypeIff(m, Resolve);
  }

  // ---------------------------------------------------------------- admission

  /** What a state lets through: talk while active, an opening or an answer before, a new offer when dormant. */
  predicate StateAdmits(state: State, m: Envelope) {
    match state
    case Proposed => Opens(m) || AcceptsSession(m) || Is(m, "negotiate.decline_session")
    case Active => Continues(m) || Agrees(m) || Is(m, "negotiate.reject") || Is(m, "negotiate.withdraw")
    case Dormant => Is(m, "negotiate.offer")
    case _ => false
  }

  lemma StateAdmitsIff(state: State, m: Envelope)
    ensures StateAdmits(state, m) <==> TypeOf(m).Some? && Transition(state, TypeOf(m).value).Some?
  {
    match state
    case Proposed =>
      AllTypes(m);
      TypeIff(m, DeclineSession);
    case Active => ActiveAdmitsIff(m);
    case Dormant => TypeIff(m, Offer);
    case _ =>
  }

  lemma ActiveAdmitsIff(m: Envelope)
    ensures StateAdmits(Active, m) <==> TypeOf(m).Some? && Transition(Active, TypeOf(m).value).Some?
  {
    ConcludingTypes(m);
    ContinuingTypes(m);
    TypeIff(m, Reject);
    TypeIff(m, Withdraw);
    if TypeOf(m).Some? {
      ActiveTable(TypeOf(m).value);
    }
  }

  lemma ActiveTable(t: MessageType)
    ensures Transition(Active, t).Some? <==>
            || t in [Offer, Counter, Signal, Inquire, Constrain, ProposeMediator, Resolve]
            || t == Accept || t == Commit || t == Reject || t == Withdraw
  {
  }

  /** The message has this sender and signature, neither empty. */
  predicate From(m: Envelope, agent: Text, signature: Text) {
    && agent != [] && signature != []
    && Get(m, Lit("from")).Some? && Get(m, Lit("from")).value.Obj?
    && Get(Get(m, Lit("from")).value.members, Lit("agent_id")) == Some(Str(agent))
    && Get(m, Lit("signature")) == Some(Str(signature))
  }

  /** Absent, null, or this text. */
  predicate AbsentOr(m: Envelope, key: string, text: Option<Text>) {
    match Get(m, Lit(key))
    case None => true
    case Some(Null) => true
    case Some(v) => text.Some? && v == Str(text.value)
  }

  /**
   A message is admitted exactly when the key resolved for its sender verifies it, it names
   no other session and no other predecessor, its state lets its type through, and an offer
   or counter finds a round left.
   */
  lemma AdmittedIff(env: Env, s: Snapshot, resolve: Resolver, m: Envelope)
    ensures Refusal(env, s, resolve, m).None? <==>
            && (exists agent, signature ::
                  From(m, agent, signature) && resolve(agent).Some? && env.verify(m, signature, resolve(agent).value))
            && AbsentOr(m, "session_id", Some(s.sessionId)) && AbsentOr(m, "prev_hash", Tip(env.hash, s.transcript))
            && StateAdmits(s.state, m)
            && (Is(m, "negotiate.offer") || Is(m, "negotiate.counter") ==> s.tracking.roundCount < s.maxRounds)
  {
    StateAdmitsIff(s.state, m);
    TypeIff(m, Offer);
    TypeIff(m, Counter);
    AuthenticIff(env, resolve, m);
  }

  lemma AuthenticIff(env: Env, resolve: Resolver, m: Envelope)
    ensures !FromRaises(m) && Authentic(env.verify, resolve, m) <==>
            exists agent, signature ::
              From(m, agent, signature) && resolve(agent).Some? && env.verify(m, signature, resolve(agent).value)
  {
    if AgentOf(m).Some? && SignatureOf(m).Some? {
      assert From(m, AgentOf(m).value, SignatureOf(m).value);
    }
  }

  // ---------------------------------------------------------------- one message

  /** Where an applied message leaves the session. */
  ghost predicate LandsIn(m: Envelope, state: State) {
    || (Opens(m) && state == Proposed)
    || ((AcceptsSession(m) || Continues(m)) && state == Active)
    || (Agrees(m) && state == Agreed)
    || (Refuses(m) && state == Rejected)
  }

  lemma AppliedIs(env: Env, s: Snapshot, resolve: Resolver, m: Envelope, now: int)
    requires ApplyMessage(env, s, resolve, m, now).1 == Applied
    ensures Refusal(env, s, resolve, m).None? && Admissible(s.state, m)
    ensures ApplyMessage(env, s, resolve, m, now) == Advance(s, m, now)
    ensures Advance(s, m, now).0.state == Transition(s.state, TypeOf(m).value).value
  {
  }

  lemma TargetByName(state: State, m: Envelope)
    requires TypeOf(m).Some? && Transition(state, TypeOf(m).value).Some?
    ensures LandsIn(m, Transition(state, TypeOf(m).value).value)
  {
    AllTypes(m);
  }

  lemma AppliedLands(env: Env, s: Snapshot, resolve: Resolver, m: Envelope, now: int)
    requires ApplyMessage(env, s, resolve, m, now).1 == Applied
    ensures LandsIn(m, ApplyMessage(env, s, resolve, m, now).0.state)
  {
    AppliedIs(env, s, resolve, m, now);
    TargetByName(s.state, m);
  }

  lemma OthersNeverMalformed(s: Snapshot, m: Envelope, now: int)
    requires Admissible(s.state, m) && !IsOffer(m) && TypeOf(m) != Some(Open)
    ensures Advance(s, m, now).1 == Applied
  {
  }

  /** An admitted acceptance or commitment concludes in agreement: state, time and callback. */
  lemma AcceptanceAgrees(env: Env, s: Snapshot, resolve: Resolver, m: Envelope, now: int)
    requires Refusal(env, s, resolve, m).None? && Agrees(m)
    ensures var (next, outcome) := ApplyMessage(env, s, resolve, m, now);
            && outcome == Applied && next.state == Agreed && next.concludedAt == Some(now)
            && next.transcript == s.transcript + [m]
            && (if s.callback && !s.terminalFired then next.fired == s.fired + 1 && next.terminalFired
                else next.fired == s.fired && next.terminalFired == s.terminalFired)
  {
    AdmittedIs(env, s, resolve, m);
    AgreeingTarget(s.state, m);
    AdvanceFrame(s, m, now);
    OthersNeverMalformed(s, m, now);
    Concluded(s, m, now, Agreed);
  }

  /** An admitted refusal concludes in rejection, in the same way. */
  lemma RefusalRejects(env: Env, s: Snapshot, resolve: Resolver, m: Envelope, now: int)
    requires Refusal(env, s, resolve, m).None? && Refuses(m)
    ensures var (next, outcome) := ApplyMessage(env, s, resolve, m, now);
            && outcome == Applied && next.state == Rejected && next.concludedAt == Some(now)
            && next.transcript == s.transcript + [m]
            && (if s.callback && !s.terminalFired then next.fired == s.fired + 1 && next.terminalFired
                else next.fired == s.fired && next.terminalFired == s.terminalFired)
  {
    AdmittedIs(env, s, resolve, m);
    RefusingTarget(s.state, m);
    AdvanceFrame(s, m, now);
    OthersNeverMalformed(s, m, now);
    Concluded(s, m, now, Rejected);
  }

  lemma AgreeingTarget(state: State, m: Envelope)
    requires Admissible(state, m) && Agrees(m)
    ensures Transition(state, TypeOf(m).value) == Some(Agreed) && !IsOffer(m) && TypeOf(m) != Some(Open)
  {
    TypeIff(m, Accept);
    TypeIff(m, Commit);
  }

  lemma RefusingTarget(state: State, m: Envelope)
    requires Admissible(state, m) && Refuses(m)
    ensures Transition(state, TypeOf(m).value) == Some(Rejected) && !IsOffer(m) && TypeOf(m) != Some(Open)
  {
    TypeIff(m, DeclineSession);
    TypeIff(m, Reject);
    TypeIff(m, Withdraw);
  }

  lemma Concluded(s: Snapshot, m: Envelope, now: int, to: State)
    requires Admissible(s.state, m) && Advance(s, m, now).1 == Applied
    requires Transition(s.state, TypeOf(m).value) == Some(to) && (to == Agreed || to == Rejected)
    ensures var next := Advance(s, m, now).0;
            && next.state == to && next.concludedAt == Some(now)
            && (if s.callback && !s.terminalFired then next.fired == s.fired + 1 && next.terminalFired
                else next.fired == s.fired && next.terminalFired == s.terminalFired)
  {
  }

  // ---------------------------------------------------------------- whole runs

  /** What a call did to the state of a session, if it did anything. */
  datatype Cause = Said(m: Envelope, at: int) | RanOut(at: int) | FellAsleep

  function CauseOf(env: Env, s: Snapshot, e: Event): Option<Cause> {
    match e
    case Deliver(m, resolve, now) =>
      if ApplyMessage(env, s, resolve, m, now).1 == Applied then Some(Said(m, now)) else None
    case ExpireAt(now) => if s.state == Proposed || s.state == Active then Some(RanOut(now)) else None
    case Sleep => if s.state == Rejected || s.state == Expired then Some(FellAsleep) else None
    case _ => None
  }

  /** The last call of a run that did something to the state. */
  function LastCause(env: Env, s: Snapshot, events: seq<Event>): Option<Cause> {
    if events == [] then None
    else
      var init, e := events[..|events| - 1], events[|events| - 1];
      var cause := CauseOf(env, Run(env, s, init), e);
      if cause.Some? then cause else LastCause(env, s, init)
  }

  /** The state that the last cause explains, with its time. */
  ghost predicate Explains(cause: Option<Cause>, s: Snapshot) {
    match cause
    case None => s.state == Proposed
    case Some(Said(m, at)) => LandsIn(m, s.state) && (Agrees(m) || Refuses(m) ==> s.concludedAt == Some(at))
    case Some(RanOut(at)) => s.state == Expired && s.concludedAt == Some(at)
    case Some(FellAsleep) => s.state == Dormant && s.reactivatable
  }

  lemma MessageExplained(env: Env, s: Snapshot, resolve: Resolver, m: Envelope, now: int, cause: Option<Cause>)
    requires Explains(cause, s)
    ensures var (next, outcome) := ApplyMessage(env, s, resolve, m, now);
            Explains(if outcome == Applied then Some(Said(m, now)) else cause, next)
  {
    if ApplyMessage(env, s, resolve, m, now).1 == Applied {
      AppliedLands(env, s, resolve, m, now);
      if Agrees(m) || Refuses(m) {
        AppliedStamps(env, s, resolve, m, now);
      }
    } else {
      FailedKeepsState(env, s, resolve, m, now);
    }
  }

  lemma StepExplained(env: Env, s: Snapshot, e: Event, cause: Option<Cause>)
    requires Explains(cause, s)
    ensures Explains(if CauseOf(env, s, e).Some? then CauseOf(env, s, e) else cause, Step(env, s, e))
  {
    match e
    case Deliver(m, resolve, now) => MessageExplained(env, s, resolve, m, now, cause);
    case ExpireAt(now) =>
    case Sleep =>
    case Join(agent) =>
    case Attach(callback) =>
  }

  lemma AppliedStamps(env: Env, s: Snapshot, resolve: Resolver, m: Envelope, now: int)
    requires ApplyMessage(env, s, resolve, m, now).1 == Applied && (Agrees(m) || Refuses(m))
    ensures ApplyMessage(env, s, resolve, m, now).0.concludedAt == Some(now)
  {
    AppliedIs(env, s, resolve, m, now);
    if Agrees(m) {
      AcceptanceAgrees(env, s, resolve, m, now);
    } else {
      RefusalRejects(env, s, resolve, m, now);
    }
  }

  lemma FailedKeepsState(env: Env, s: Snapshot, resolve: Resolver, m: Envelope, now: int)
    requires ApplyMessage(env, s, resolve, m, now).1 != Applied
    ensures var next := ApplyMessage(env, s, resolve, m, now).0;
            next.state == s.state && next.concludedAt == s.concludedAt && next.reactivatable == s.reactivatable
  {
  }

  lemma {:induction false} RunExplained(env: Env, sessionId: Text, maxRounds: int, callback: bool, events: seq<Event>)
    ensures Explains(LastCause(env, Fresh(sessionId, maxRounds, callback), events),
                     Run(env, Fresh(sessionId, maxRounds, callback), events))
    decreases |events|
  {
    if events != [] {
      var start, init := Fresh(sessionId, maxRounds, callback), events[..|events| - 1];
      RunExplained(env, sessionId, maxRounds, callback, init);
      StepExplained(env, Run(env, start, init), events[|events| - 1], LastCause(env, start, init));
    }
  }

  ghost predicate AgreedBy(cause: Option<Cause>, at: int) {
    cause.Some? && cause.value.Said? && Agrees(cause.value.m) && cause.value.at == at
  }

  ghost predicate RefusedBy(cause: Option<Cause>, at: int) {
    cause.Some? && cause.value.Said? && Refuses(cause.value.m) && cause.value.at == at
  }

  lemma KindsDiffer(m: Envelope)
    ensures !(Agrees(m) && Refuses(m)) && !(Agrees(m) && Opens(m)) && !(Agrees(m) && AcceptsSession(m))
    ensures !(Agrees(m) && Continues(m)) && !(Refuses(m) && Opens(m)) && !(Refuses(m) && AcceptsSession(m))
    ensures !(Refuses(m) && Continues(m))
  {
    AllTypes(m);
  }

  /** State and end as the cause has them. */
  ghost predicate Outcome(cause: Option<Cause>, s: Snapshot) {
    && (s.state == Agreed <==> exists at :: AgreedBy(cause, at))
    && (s.state == Rejected <==> exists at :: RefusedBy(cause, at))
    && (s.state == Expired <==> exists at :: cause == Some(RanOut(at)))
    && (s.state == Dormant <==> cause == Some(FellAsleep))
    && (forall at :: AgreedBy(cause, at) || RefusedBy(cause, at) || cause == Some(RanOut(at)) ==>
          s.concludedAt == Some(at))
  }

  lemma ExplainedOutcome(cause: Option<Cause>, s: Snapshot)
    requires Explains(cause, s)
    ensures Outcome(cause, s)
  {
    match cause
    case Some(Said(m, at)) =>
      KindsDiffer(m);
      assert Agrees(m) ==> AgreedBy(cause, at);
      assert Refuses(m) ==> RefusedBy(cause, at);
    case Some(RanOut(at)) => assert cause == Some(RanOut(at));
    case Some(FellAsleep) =>
    case None =>
  }

  /**
   How a session ends, over every run: it is AGREED, REJECTED, EXPIRED or DORMANT exactly
   when the last call that did anything was an acceptance or commitment; a decline, rejection
   or withdrawal; an expiry; a falling asleep. The time of the end is the time of that call.
   */
  lemma OutcomeIff(env: Env, sessionId: Text, maxRounds: int, callback: bool, events: seq<Event>)
    ensures var start := Fresh(sessionId, maxRounds, callback);
            Outcome(LastCause(env, start, events), Run(env, start, events))
  {
    var start := Fresh(sessionId, maxRounds, callback);
    RunExplained(env, sessionId, maxRounds, callback, events);
    ExplainedOutcome(LastCause(env, start, events), Run(env, start, events));
  }

  /** A registered party has a record from then on, and whoever had one keeps it. */
  lemma JoiningRegisters(env: Env, s: Snapshot, agent: Text)
    ensures var next := Step(env, s, Join(agent));
            && agent in next.tracking.behaviors
            && (forall a :: a in s.tracking.behaviors ==>
                  a in next.tracking.behaviors && next.tracking.behaviors[a] == s.tracking.behaviors[a])
            && (agent !in s.tracking.behaviors ==>
                  next.tracking.behaviors[agent] == Behavior(0, 0, 0.0, 0, 0, false, false))
            && next.state == s.state && next.transcript == s.transcript
  {
  }
}
