/** The CMPC chain-session state machine and its hashed transition log (`cmpc/chain_session.py`). */
module ChainSession {
  import opened Wrappers
  import opened Unicode
  import opened PythonValues
  import opened Signing
  import opened CanonicalParser
  import opened Hashing

  datatype State = Proposed | Open | Activated | Dissolved | Expired

  /** `LEGAL_TRANSITIONS` */
  function LegalFrom(s: State): set<State> {
    match s
    case Proposed => {Open}
    case Open => {Activated, Dissolved, Expired}
    case _ => {}
  }

  /** A datetime and its `isoformat()` text. */
  datatype Stamp = Stamp(instant: int, iso: Text)

  /** The hashed fields of a TransitionRecord; absent evidence is `Null`. */
  datatype Body = Body(from: State, to: State, at: Stamp, evidence: Json, prev: Option<Text>)

  datatype Record = Record(body: Body, hash: Option<Text>)

  /** `TransitionRecord.compute_hash`; `None` when the evidence has no canonical form. */
  type BodyHash = Body -> Option<Text>

  // ---------------------------------------------------------------- the log

  function PrevOf(log: seq<Record>, i: nat): Option<Text>
    requires i <= |log|
  {
    if i == 0 then None else log[i - 1].hash
  }

  predicate RecordValid(f: BodyHash, log: seq<Record>, i: nat)
    requires i < |log|
  {
    log[i].body.prev == PrevOf(log, i) && log[i].hash.Some? && log[i].hash == f(log[i].body)
  }

  ghost predicate LogValid(f: BodyHash, log: seq<Record>) {
    forall i :: 0 <= i < |log| ==> RecordValid(f, log, i)
  }

  /** `verify_transcript`; `None` when a record cannot be hashed. */
  method VerifyTranscript(f: BodyHash, log: seq<Record>) returns (valid: Option<bool>)
    ensures valid == Some(true) <==> LogValid(f, log)
  {
    var prev: Option<Text> := None;
    for i := 0 to |log|
      invariant prev == PrevOf(log, i)
      invariant forall k :: 0 <= k < i ==> RecordValid(f, log, k)
    {
      var record := log[i];
      if record.body.prev != prev {
        assert !RecordValid(f, log, i);
        return Some(false);
      }
      var computed := f(record.body);
      if computed.None? {
        assert !RecordValid(f, log, i);
        return None;
      }
      if record.hash != computed {
        assert !RecordValid(f, log, i);
        return Some(false);
      }
      prev := record.hash;
    }
    return Some(true);
  }

  // ---------------------------------------------------------------- transitions

  /** All the fields of a ChainSession that transitions read or write. */
  datatype Chain = Chain(
    participants: seq<Text>,
    activationDeadline: int,
    state: State,
    commitments: seq<Text>,
    activationProofId: Option<Text>,
    unwindRecordId: Option<Text>,
    transitions: seq<Record>,
    activatedAt: Option<Stamp>,
    dissolvedAt: Option<Stamp>)

  /** `_validate_transition_preconditions` passes. */
  predicate PreconditionsHold(c: Chain, to: State, now: Stamp) {
    match (c.state, to)
    case (Proposed, Open) => |c.commitments| == |c.participants|
    case (Open, Activated) => c.activationProofId.Some? && now.instant < c.activationDeadline
    case (Open, Dissolved) => c.unwindRecordId.Some?
    case (Open, Expired) => now.instant >= c.activationDeadline && c.activationProofId.None?
    case _ => true
  }

  /** `transition_to` on values; `None` when it raises. */
  function Transition(f: BodyHash, c: Chain, to: State, evidence: Json, now: Stamp): Option<Chain> {
    if to !in LegalFrom(c.state) || !PreconditionsHold(c, to, now) then None
    else
      var body := Body(c.state, to, now, evidence, PrevOf(c.transitions, |c.transitions|));
      var hash :- f(body);
      Some(c.(state := to,
              transitions := c.transitions + [Record(body, Some(hash))],
              activatedAt := if to == Activated then Some(now) else c.activatedAt,
              dissolvedAt := if to == Dissolved || to == Expired then Some(now) else c.dissolvedAt))
  }

  /** What a transition takes: the four that there are, each with its condition. */
  predicate Allowed(c: Chain, to: State, now: int) {
    || (c.state == Proposed && to == Open && |c.commitments| == |c.participants|)
    || (c.state == Open && to == Activated && c.activationProofId.Some? && now < c.activationDeadline)
    || (c.state == Open && to == Dissolved && c.unwindRecordId.Some?)
    || (c.state == Open && to == Expired && c.activationProofId.None? && now >= c.activationDeadline)
  }

  /** The hashed fields of the record that a transition adds. */
  function NextBody(c: Chain, to: State, evidence: Json, now: Stamp): Body {
    Body(c.state, to, now, evidence, if c.transitions == [] then None else c.transitions[|c.transitions| - 1].hash)
  }

  /** A transition happens exactly when it is allowed and its record can be hashed; what it changes is all stated. */
  lemma TransitionIff(f: BodyHash, c: Chain, to: State, evidence: Json, now: Stamp)
    ensures Transition(f, c, to, evidence, now).Some? <==>
            Allowed(c, to, now.instant) && f(NextBody(c, to, evidence, now)).Some?
    ensures Transition(f, c, to, evidence, now).Some? ==>
            var next := Transition(f, c, to, evidence, now).value;
            && next.state == to
            && next.transitions == c.transitions + [Record(NextBody(c, to, evidence, now),
                                                           f(NextBody(c, to, evidence, now)))]
            && next.activatedAt == (if to == Activated then Some(now) else c.activatedAt)
            && next.dissolvedAt == (if to == Dissolved || to == Expired then Some(now) else c.dissolvedAt)
            && next.participants == c.participants && next.activationDeadline == c.activationDeadline
            && next.commitments == c.commitments && next.activationProofId == c.activationProofId
            && next.unwindRecordId == c.unwindRecordId
  {
  }

  class ChainSession {
    var participants: seq<Text>
    var activationDeadline: int
    var state: State
    var commitments: seq<Text>
    var activationProofId: Option<Text>
    var unwindRecordId: Option<Text>
    var transitions: seq<Record>
    var activatedAt: Option<Stamp>
    var dissolvedAt: Option<Stamp>

    constructor (participants: seq<Text>, activationDeadline: int)
      ensures Snapshot() == Fresh(participants, activationDeadline)
    {
      this.participants, this.activationDeadline := participants, activationDeadline;
      state, commitments := Proposed, [];
      activationProofId, unwindRecordId := None, None;
      transitions := [];
      activatedAt, dissolvedAt := None, None;
    }

    function Snapshot(): Chain
      reads this
    {
      Chain(participants, activationDeadline, state, commitments, activationProofId, unwindRecordId,
            transitions, activatedAt, dissolvedAt)
    }

    /** `transition_to`; a refused transition leaves every field alone. */
    method TransitionTo(f: BodyHash, newState: State, evidence: Json, now: Stamp) returns (ok: bool)
      modifies this
      ensures Transition(f, old(Snapshot()), newState, evidence, now) == if ok then Some(Snapshot()) else None
      ensures !ok ==> unchanged(this)
    {
      if newState !in LegalFrom(state) {
        return false;
      }
      var allowed := ValidateTransitionPreconditions(newState, now);
      if !allowed {
        return false;
      }
      var prev := if transitions == [] then None else transitions[|transitions| - 1].hash;
      var body := Body(state, newState, now, evidence, prev);
      var hash := f(body);
      if hash.None? {
        return false;
      }
      transitions := transitions + [Record(body, hash)];
      state := newState;
      if newState == Activated {
        activatedAt := Some(now);
      } else if newState == Dissolved || newState == Expired {
        dissolvedAt := Some(now);
      }
      return true;
    }

    /** `_validate_transition_preconditions`; false when it raises. */
    method ValidateTransitionPreconditions(newState: State, now: Stamp) returns (ok: bool)
      ensures ok <==> PreconditionsHold(Snapshot(), newState, now)
    {
      if state == Proposed && newState == Open {
        if |commitments| != |participants| {
          return false;
        }
      }
      if state == Open && newState == Activated {
        if activationProofId.None? || now.instant >= activationDeadline {
          return false;
        }
      }
      if state == Open && newState == Dissolved {
        if unwindRecordId.None? {
          return false;
        }
      }
      if state == Open && newState == Expired {
        if now.instant < activationDeadline || activationProofId.Some? {
          return false;
        }
      }
      return true;
    }
  }

  function Fresh(participants: seq<Text>, activationDeadline: int): Chain {
    Chain(participants, activationDeadline, Proposed, [], None, None, [], None, None)
  }

  // ---------------------------------------------------------------- runs

  /** Transition attempts, and the fields callers assign between them. */
  datatype Event =
    | Attempt(to: State, evidence: Json, now: Stamp)
    | SetCommitments(commitments: seq<Text>)
    | SetActivationProof(proof: Option<Text>)
    | SetUnwindRecord(record: Option<Text>)

  function Apply(f: BodyHash, c: Chain, e: Event): Chain {
    match e
    case Attempt(to, evidence, now) =>
      (match Transition(f, c, to, evidence, now) case Some(next) => next case None => c)
    case SetCommitments(commitments) => c.(commitments := commitments)
    case SetActivationProof(proof) => c.(activationProofId := proof)
    case SetUnwindRecord(record) => c.(unwindRecordId := record)
  }

  /** What callers assign is what is then there, and nothing else changes. */
  lemma AssignmentsAre(f: BodyHash, c: Chain, commitments: seq<Text>, id: Option<Text>)
    ensures Apply(f, c, SetCommitments(commitments)).commitments == commitments
    ensures Apply(f, c, SetActivationProof(id)).activationProofId == id
    ensures Apply(f, c, SetUnwindRecord(id)).unwindRecordId == id
    ensures forall e :: e in [SetCommitments(commitments), SetActivationProof(id), SetUnwindRecord(id)] ==>
              var next := Apply(f, c, e);
              && next.state == c.state && next.transitions == c.transitions
              && next.participants == c.participants && next.activationDeadline == c.activationDeadline
              && next.activatedAt == c.activatedAt && next.dissolvedAt == c.dissolvedAt
              && (e.SetCommitments? || next.commitments == c.commitments)
              && (e.SetActivationProof? || next.activationProofId == c.activationProofId)
              && (e.SetUnwindRecord? || next.unwindRecordId == c.unwindRecordId)
  {
  }

  function Run(f: BodyHash, c: Chain, events: seq<Event>): Chain {
    if events == [] then c else Apply(f, Run(f, c, events[..|events| - 1]), events[|events| - 1])
  }

  /** The state that the first `i` records lead to. */
  function StateAfter(log: seq<Record>, i: nat): State
    requires i <= |log|
  {
    if i == 0 then Proposed else log[i - 1].body.to
  }

  predicate LegalStep(log: seq<Record>, i: nat)
    requires i < |log|
  {
    log[i].body.from == StateAfter(log, i) && log[i].body.to in LegalFrom(log[i].body.from)
  }

  /** The log is a legal path from PROPOSED to the current state. */
  ghost predicate LegalPath(c: Chain) {
    && c.state == StateAfter(c.transitions, |c.transitions|)
    && forall i :: 0 <= i < |c.transitions| ==> LegalStep(c.transitions, i)
  }

  /** Each terminal state was entered on its own side of the deadline, and is stamped. */
  ghost predicate Timely(c: Chain) {
    && (c.activatedAt.Some? <==> c.state == Activated)
    && (c.dissolvedAt.Some? <==> c.state == Dissolved || c.state == Expired)
    && (c.activatedAt.Some? ==> c.activatedAt.value.instant < c.activationDeadline)
    && (c.state == Expired ==> c.dissolvedAt.value.instant >= c.activationDeadline)
  }

  ghost predicate Inv(f: BodyHash, c: Chain) {
    && LogValid(f, c.transitions) && LegalPath(c) && Timely(c)
    && |c.transitions| == (match c.state case Proposed => 0 case Open => 1 case _ => 2)
  }

  lemma LogAppend(f: BodyHash, log: seq<Record>, r: Record)
    requires LogValid(f, log)
    requires r.body.prev == PrevOf(log, |log|) && r.hash.Some? && r.hash == f(r.body)
    ensures LogValid(f, log + [r])
  {
    forall i | 0 <= i < |log + [r]|
      ensures RecordValid(f, log + [r], i)
    {
      assert i < |log| ==> RecordValid(f, log, i);
    }
  }

  lemma PathAppend(c: Chain, next: Chain, r: Record)
    requires LegalPath(c) && next.transitions == c.transitions + [r] && next.state == r.body.to
    requires r.body.from == c.state && r.body.to in LegalFrom(c.state)
    ensures LegalPath(next)
  {
    var log, longer := c.transitions, next.transitions;
    forall i | 0 <= i < |longer|
      ensures LegalStep(longer, i)
    {
      assert i < |log| ==> LegalStep(log, i);
    }
  }

  lemma TransitionKeepsInv(f: BodyHash, c: Chain, to: State, evidence: Json, now: Stamp)
    requires Inv(f, c) && Transition(f, c, to, evidence, now).Some?
    ensures Inv(f, Transition(f, c, to, evidence, now).value)
  {
    var next := Transition(f, c, to, evidence, now).value;
    var r := next.transitions[|c.transitions|];
    assert next.transitions == c.transitions + [r];
    LogAppend(f, c.transitions, r);
    PathAppend(c, next, r);
    assert |next.transitions| == |c.transitions| + 1;
    assert (c.state == Proposed && to == Open) || (c.state == Open && to != Proposed && to != Open);
  }

  lemma ApplyKeepsInv(f: BodyHash, c: Chain, e: Event)
    requires Inv(f, c)
    ensures Inv(f, Apply(f, c, e))
  {
    if e.Attempt? && Transition(f, c, e.to, e.evidence, e.now).Some? {
      TransitionKeepsInv(f, c, e.to, e.evidence, e.now);
    }
  }

  /**
   Every run from an empty log keeps a valid transcript along a legal path, opens before
   it closes, closes once, and never activates after or expires before the deadline.
   */
  lemma {:induction false} RunKeepsInv(f: BodyHash, participants: seq<Text>, deadline: int, events: seq<Event>)
    ensures Inv(f, Run(f, Fresh(participants, deadline), events))
  {
    if events != [] {
      RunKeepsInv(f, participants, deadline, events[..|events| - 1]);
      ApplyKeepsInv(f, Run(f, Fresh(participants, deadline), events[..|events| - 1]), events[|events| - 1]);
    }
  }

  /** A closed session never changes its state or its log again. */
  lemma {:induction false} TerminalIsAbsorbing(f: BodyHash, c: Chain, events: seq<Event>)
    requires c.state == Activated || c.state == Dissolved || c.state == Expired
    ensures Run(f, c, events).state == c.state && Run(f, c, events).transitions == c.transitions
  {
    if events != [] {
      TerminalIsAbsorbing(f, c, events[..|events| - 1]);
    }
  }

  /** Call `k` of a run is the transition to `to`, made from the right state and with what it takes. */
  predicate Earned(f: BodyHash, start: Chain, events: seq<Event>, k: int, to: State) {
    && 0 <= k < |events| && events[k].Attempt? && events[k].to == to
    && var before, now := Run(f, start, events[..k]), events[k].now.instant;
       match to
       case Proposed => false
       case Open => before.state == Proposed && |before.commitments| == |before.participants|
       case Activated => before.state == Open && before.activationProofId.Some? && now < before.activationDeadline
       case Dissolved => before.state == Open && before.unwindRecordId.Some?
       case Expired => before.state == Open && before.activationProofId.None? && now >= before.activationDeadline
  }

  lemma EarnedEarlier(f: BodyHash, start: Chain, events: seq<Event>, n: nat, k: int, to: State)
    requires n <= |events| && Earned(f, start, events[..n], k, to)
    ensures Earned(f, start, events, k, to)
  {
    assert events[..n][..k] == events[..k];
  }

  /**
   In every run the state was reached by a call with what it takes: a complete set of
   commitments to open, a proof before the deadline to activate, an unwind record to
   dissolve, a passed deadline without any proof to expire; and what closed had opened.
   */
  lemma {:induction false} EveryStateWasEarned(f: BodyHash, participants: seq<Text>, deadline: int, events: seq<Event>)
    ensures var start := Fresh(participants, deadline);
            var s := Run(f, start, events).state;
            && (s != Proposed ==> exists k :: Earned(f, start, events, k, s))
            && (s != Proposed ==> exists k :: Earned(f, start, events, k, Open))
    decreases |events|
  {
    if events != [] {
      var start, n := Fresh(participants, deadline), |events| - 1;
      var before, s := Run(f, start, events[..n]).state, Run(f, start, events).state;
      EveryStateWasEarned(f, participants, deadline, events[..n]);
      if before != Proposed {
        var k :| Earned(f, start, events[..n], k, before);
        EarnedEarlier(f, start, events, n, k, before);
        var j :| Earned(f, start, events[..n], j, Open);
        EarnedEarlier(f, start, events, n, j, Open);
      }
      if s != before {
        assert Earned(f, start, events, n, s);
      }
    }
  }

  // ---------------------------------------------------------------- the last hash pins the log

  ghost predicate HashIdentifies(f: BodyHash, same: (Body, Body) -> bool, xs: seq<Record>, ys: seq<Record>) {
    forall i, j :: 0 <= i < |xs| && 0 <= j < |ys| && f(xs[i].body).Some? && f(xs[i].body) == f(ys[j].body) ==>
      same(xs[i].body, ys[j].body) && xs[i].body.prev == ys[j].body.prev
  }

  lemma {:induction false} PinnedLogs(f: BodyHash, same: (Body, Body) -> bool, xs: seq<Record>, ys: seq<Record>,
                                      m: nat, n: nat)
    requires 0 < m <= |xs| && 0 < n <= |ys| && HashIdentifies(f, same, xs, ys)
    requires LogValid(f, xs) && LogValid(f, ys) && xs[m - 1].hash == ys[n - 1].hash
    ensures m == n && forall i :: 0 <= i < m ==> same(xs[i].body, ys[i].body)
  {
    assert RecordValid(f, xs, m - 1) && RecordValid(f, ys, n - 1);
    if m > 1 {
      assert RecordValid(f, xs, m - 2);
    }
    if n > 1 {
      assert RecordValid(f, ys, n - 2);
    }
    if m > 1 && n > 1 {
      PinnedLogs(f, same, xs, ys, m - 1, n - 1);
    }
  }

  // ---------------------------------------------------------------- canonical hashing of records

  const FROM_STATE: Text := Lit("from_state")
  const TO_STATE: Text := Lit("to_state")
  const TRANSITIONED_AT: Text := Lit("transitioned_at")
  const EVIDENCE: Text := Lit("evidence")
  const PREV_TRANSITION_HASH: Text := Lit("prev_transition_hash")

  function StateText(s: State): Text {
    match s
    case Proposed => Lit("PROPOSED")
    case Open => Lit("OPEN")
    case Activated => Lit("ACTIVATED")
    case Dissolved => Lit("DISSOLVED")
    case Expired => Lit("EXPIRED")
  }

  function OptionalText(t: Option<Text>): Json {
    match t
    case Some(s) => Str(s)
    case None => Null
  }

  /** `canonical_bytes_excl_hash` before canonicalization. */
  function BodyMembers(b: Body): seq<Member> {
    [ Member(FROM_STATE, Str(StateText(b.from))),
      Member(TO_STATE, Str(StateText(b.to))),
      Member(TRANSITIONED_AT, Str(b.at.iso)),
      Member(EVIDENCE, b.evidence),
      Member(PREV_TRANSITION_HASH, OptionalText(b.prev)) ]
  }

  function StateName(s: State): string {
    match s
    case Proposed => "PROPOSED"
    case Open => "OPEN"
    case Activated => "ACTIVATED"
    case Dissolved => "DISSOLVED"
    case Expired => "EXPIRED"
  }

  /** What is hashed of a record: both states by name, the time, the evidence and the previous hash. */
  lemma HashedMembersAre(b: Body)
    ensures var ms := BodyMembers(b);
            && |ms| == 5
            && Get(ms, Lit("from_state")) == Some(Str(Lit(StateName(b.from))))
            && Get(ms, Lit("to_state")) == Some(Str(Lit(StateName(b.to))))
            && Get(ms, Lit("transitioned_at")) == Some(Str(b.at.iso)) && Get(ms, Lit("evidence")) == Some(b.evidence)
            && Get(ms, Lit("prev_transition_hash")) == Some(if b.prev.Some? then Str(b.prev.value) else Null)
  {
    NamesDiffer();
    var ms := BodyMembers(b);
    assert DistinctNames(ms);
    GetIs(ms, 0);
    GetIs(ms, 1);
    GetIs(ms, 2);
    GetIs(ms, 3);
    GetIs(ms, 4);
  }

  function BodyText(b: Body): Option<Text> {
    CanonicalText(Obj(BodyMembers(b)))
  }

  /** The text that is hashed for a record. */
  type Encoding = Body -> Option<Text>

  function HashWith(h: Hash, text: Encoding): BodyHash {
    (b: Body) =>
      var t :- text(b);
      Some(h(t))
  }

  ghost predicate SameBody(x: Body, y: Body) {
    && x.from == y.from && x.to == y.to && x.at.iso == y.at.iso && x.prev == y.prev
    && SameValue(x.evidence, y.evidence)
  }

  lemma NamesDiffer()
    ensures |FROM_STATE| == 10 && |TO_STATE| == 8 && |TRANSITIONED_AT| == 15 && |EVIDENCE| == 8
    ensures |PREV_TRANSITION_HASH| == 20 && TO_STATE != EVIDENCE
  {
    assert TO_STATE[0] == 't' as int && EVIDENCE[0] == 'e' as int;
  }

  lemma StateTextInjective(s: State, t: State)
    requires StateText(s) == StateText(t)
    ensures s == t
  {
    assert Lit("ACTIVATED")[0] == 'A' as int && Lit("DISSOLVED")[0] == 'D' as int;
  }

  lemma SameKeySamePlace(x: Body, y: Body, i: nat, k: nat)
    requires i < 5 && k < 5 && BodyMembers(x)[i].key == BodyMembers(y)[k].key
    ensures i == k
  {
    NamesDiffer();
  }

  lemma MemberValueSame(x: Body, y: Body, i: nat)
    requires SameValue(Obj(BodyMembers(x)), Obj(BodyMembers(y))) && i < 5
    ensures SameValue(BodyMembers(x)[i].value, BodyMembers(y)[i].value)
  {
    var ms, ns := BodyMembers(x), BodyMembers(y);
    var k :| 0 <= k < |ns| && ms[i].key == ns[k].key && SameValue(ms[i].value, ns[k].value);
    SameKeySamePlace(x, y, i, k);
  }

  lemma MembersDetermineBody(x: Body, y: Body)
    requires SameValue(Obj(BodyMembers(x)), Obj(BodyMembers(y)))
    ensures SameBody(x, y)
  {
    MemberValueSame(x, y, 0);
    MemberValueSame(x, y, 1);
    MemberValueSame(x, y, 2);
    MemberValueSame(x, y, 3);
    MemberValueSame(x, y, 4);
    ValuesDetermineBody(x, y);
  }

  lemma ValuesDetermineBody(x: Body, y: Body)
    requires SameValue(Str(StateText(x.from)), Str(StateText(y.from)))
    requires SameValue(Str(StateText(x.to)), Str(StateText(y.to)))
    requires SameValue(Str(x.at.iso), Str(y.at.iso))
    requires SameValue(x.evidence, y.evidence)
    requires SameValue(OptionalText(x.prev), OptionalText(y.prev))
    ensures SameBody(x, y)
  {
    StateTextInjective(x.from, y.from);
    StateTextInjective(x.to, y.to);
  }

  lemma BodyIsPython(b: Body)
    requires IsPython(b.evidence)
    ensures IsPython(Obj(BodyMembers(b)))
  {
    NamesDiffer();
  }

  lemma SameTextSameBody(x: Body, y: Body)
    requires IsPython(x.evidence) && BodyText(x).Some? && BodyText(x) == BodyText(y)
    ensures SameBody(x, y)
  {
    BodyIsPython(x);
    SameBytesIffSameValue(Obj(BodyMembers(x)), Obj(BodyMembers(y)));
    MembersDetermineBody(x, y);
  }

  function HashedTexts(text: Encoding, log: seq<Record>): set<Text> {
    set i | 0 <= i < |log| && text(log[i].body).Some? :: text(log[i].body).value
  }

  ghost predicate PythonEvidence(log: seq<Record>) {
    forall i :: 0 <= i < |log| ==> IsPython(log[i].body.evidence)
  }

  ghost predicate SameLog(xs: seq<Record>, ys: seq<Record>) {
    |xs| == |ys| && forall i :: 0 <= i < |xs| ==> SameBody(xs[i].body, ys[i].body)
  }

  /** Records of the two logs with one text have one body. */
  ghost predicate TextIdentifies(text: Encoding, same: (Body, Body) -> bool, xs: seq<Record>, ys: seq<Record>) {
    forall i, j :: 0 <= i < |xs| && 0 <= j < |ys| && text(xs[i].body).Some? && text(xs[i].body) == text(ys[j].body) ==>
      same(xs[i].body, ys[j].body) && xs[i].body.prev == ys[j].body.prev
  }

  lemma TextsIdentify(h: Hash, text: Encoding, same: (Body, Body) -> bool,
                      xs: seq<Record>, ys: seq<Record>, pool: set<Text>)
    requires TextIdentifies(text, same, xs, ys)
    requires CollisionFree(h, pool) && HashedTexts(text, xs) <= pool && HashedTexts(text, ys) <= pool
    ensures HashIdentifies(HashWith(h, text), same, xs, ys)
  {
    forall i, j | 0 <= i < |xs| && 0 <= j < |ys| && text(xs[i].body).Some? && text(ys[j].body).Some?
                  && h(text(xs[i].body).value) == h(text(ys[j].body).value)
      ensures text(xs[i].body) == text(ys[j].body)
    {
      assert text(xs[i].body).value in HashedTexts(text, xs);
      assert text(ys[j].body).value in HashedTexts(text, ys);
      SameDigestSameText(h, pool, text(xs[i].body).value, text(ys[j].body).value);
    }
  }

  /** Two valid logs that end in the same hash. */
  ghost predicate SameEnd(f: BodyHash, xs: seq<Record>, ys: seq<Record>) {
    && xs != [] && ys != [] && LogValid(f, xs) && LogValid(f, ys)
    && xs[|xs| - 1].hash == ys[|ys| - 1].hash
  }

  ghost predicate Agree(same: (Body, Body) -> bool, xs: seq<Record>, ys: seq<Record>) {
    |xs| == |ys| && forall i :: 0 <= i < |xs| ==> same(xs[i].body, ys[i].body)
  }

  lemma PinnedAll(f: BodyHash, same: (Body, Body) -> bool, xs: seq<Record>, ys: seq<Record>)
    requires SameEnd(f, xs, ys) && HashIdentifies(f, same, xs, ys)
    ensures Agree(same, xs, ys)
  {
    PinnedLogs(f, same, xs, ys, |xs|, |ys|);
  }

  lemma PinnedOrCollision(h: Hash, text: Encoding, same: (Body, Body) -> bool, xs: seq<Record>, ys: seq<Record>)
    returns (a: Text, b: Text)
    requires SameEnd(HashWith(h, text), xs, ys) && TextIdentifies(text, same, xs, ys)
    ensures Agree(same, xs, ys) || CollisionIn(h, BothTexts(text, xs, ys), a, b)
  {
    a, b := FindCollision(h, BothTexts(text, xs, ys));
    if CollisionFree(h, BothTexts(text, xs, ys)) {
      PinnedWithoutCollision(h, text, same, xs, ys);
    }
  }

  function BothTexts(text: Encoding, xs: seq<Record>, ys: seq<Record>): set<Text> {
    HashedTexts(text, xs) + HashedTexts(text, ys)
  }

  lemma PinnedWithoutCollision(h: Hash, text: Encoding, same: (Body, Body) -> bool,
                               xs: seq<Record>, ys: seq<Record>)
    requires SameEnd(HashWith(h, text), xs, ys) && TextIdentifies(text, same, xs, ys)
    requires CollisionFree(h, BothTexts(text, xs, ys))
    ensures Agree(same, xs, ys)
  {
    TextsIdentify(h, text, same, xs, ys, BothTexts(text, xs, ys));
    PinnedAll(HashWith(h, text), same, xs, ys);
  }

  lemma BodyTextIdentifies(xs: seq<Record>, ys: seq<Record>)
    requires PythonEvidence(xs)
    ensures TextIdentifies(BodyText, (x, y) => SameBody(x, y), xs, ys)
  {
    forall i, j | 0 <= i < |xs| && 0 <= j < |ys| && BodyText(xs[i].body).Some?
                  && BodyText(xs[i].body) == BodyText(ys[j].body)
      ensures SameBody(xs[i].body, ys[j].body)
    {
      SameTextSameBody(xs[i].body, ys[j].body);
    }
  }

  /**
   The last hash alone pins a transition log, length included: two valid logs that end in
   the same hash agree record by record, or two hashed texts collide.
   */
  lemma LastHashPinsLog(h: Hash, xs: seq<Record>, ys: seq<Record>) returns (a: Text, b: Text)
    requires SameEnd(HashWith(h, BodyText), xs, ys) && PythonEvidence(xs)
    ensures SameLog(xs, ys) || CollisionIn(h, BothTexts(BodyText, xs, ys), a, b)
  {
    BodyTextIdentifies(xs, ys);
    a, b := PinnedOrCollision(h, BodyText, (x, y) => SameBody(x, y), xs, ys);
  }
}
