/**
 The store-and-forward relay (`concordia/relay.py`). A message object is shared between
 its session's transcript and its recipient's mailbox: here the transcript holds the
 message and a mailbox holds its position, so that a status change is seen by both.
 */
module Relay {
  import opened Wrappers
  import opened Unicode
  import opened PythonValues
  import opened FloatRange

  const MAX_SESSIONS := 10_000
  const MAX_ARCHIVES := 50_000
  const MAX_MAILBOX_SIZE := 1_000
  const MAX_TRANSCRIPT_SIZE := 10_000
  const MAX_LIVE_PER_INITIATOR := 100
  const MAX_TTL_SECONDS := 7 * 24 * 60 * 60

  datatype SessionState = Pending | Active | Concluded | Archived | TimedOut

  datatype Status = Queued | Delivered | Expired

  datatype Message = Message(
    id: Text, from: Text, to: Text, kind: Text, payload: Json,
    createdAt: int, ttl: int, status: Status, deliveredAt: Option<int>)

  datatype Participant = Participant(agentId: Text, confirmed: bool, sent: nat, received: nat)

  /** A lifetime that can be added to a clock reading, which is a float. */
  type Seconds = t: int | FitsFloat(t)
    witness (LimitIsLarge(); 0)

  datatype Session = Session(
    concordiaId: Option<Text>,
    initiator: Participant,
    responder: Option<Participant>,
    state: SessionState,
    transcript: seq<Message>,
    createdAt: int,
    ttl: Seconds,
    concludedAt: Option<int>,
    reason: Option<Text>,
    autoAttest: bool,
    autoAttestSkipped: bool)

  /** A message object: its session and its place in the transcript. */
  datatype Ref = Ref(session: Text, index: nat)

  datatype Archive = Archive(
    session: Text, concordiaId: Option<Text>, parties: seq<Text>, messages: seq<Message>,
    reason: Option<Text>, retentionDays: int)

  /** The relay's dictionaries, and the history of what left the mailboxes. */
  datatype State = State(
    sessions: map<Text, Session>,
    mailboxes: map<Text, seq<Ref>>,
    archives: map<Text, Archive>,
    index: map<Text, Text>,
    delivered: map<Text, seq<Ref>>,
    expired: set<Ref>,
    dropped: set<Ref>)

  const EMPTY := State(map[], map[], map[], map[], map[], {}, {})

  // ---------------------------------------------------------------- sessions

  predicate Live(x: Session) {
    x.state == Pending || x.state == Active
  }

  predicate IsTimedOut(x: Session, now: int) {
    now > x.createdAt + x.ttl
  }

  /** `_record_auto_attest_skip_if_unconfirmed` */
  function RecordSkip(x: Session): Session {
    if x.autoAttest && x.responder.Some? && !x.responder.value.confirmed then x.(autoAttestSkipped := true) else x
  }

  function Conclude(x: Session, reason: Text, now: int): Session {
    RecordSkip(x.(state := Concluded, concludedAt := Some(now), reason := Some(reason)))
  }

  function Timeout(x: Session, now: int): Session {
    RecordSkip(x.(state := TimedOut, concludedAt := Some(now), reason := Some(Lit("session_timeout"))))
  }

  /** A session as any reader sees it at `now`. */
  function Observed(x: Session, now: int): Session {
    if Live(x) && IsTimedOut(x, now) then Timeout(x, now) else x
  }

  function ObserveAll(sessions: map<Text, Session>, now: int): map<Text, Session> {
    map id | id in sessions :: Observed(sessions[id], now)
  }

  function ParticipantOf(x: Session, agent: Text): Option<Participant> {
    if x.initiator.agentId == agent then Some(x.initiator)
    else if x.responder.Some? && x.responder.value.agentId == agent then x.responder
    else None
  }

  function UpdateParticipant(x: Session, p: Participant): Session {
    if x.initiator.agentId == p.agentId then x.(initiator := p) else x.(responder := Some(p))
  }

  /** `_get_counterparty` */
  function Counterparty(x: Session, agent: Text): Option<Text> {
    if x.initiator.agentId == agent then
      if x.responder.Some? && x.responder.value.confirmed then Some(x.responder.value.agentId) else None
    else if x.responder.Some? && x.responder.value.agentId == agent && x.responder.value.confirmed then
      Some(x.initiator.agentId)
    else None
  }

  /** The live, not yet timed out sessions that an agent initiated. */
  function LiveFor(sessions: map<Text, Session>, initiator: Text, now: int): set<Text> {
    set id | id in sessions && sessions[id].initiator.agentId == initiator && Live(sessions[id])
             && !IsTimedOut(sessions[id], now)
  }

  function Present(t: Option<Text>): Option<Text> {
    if t == Some([]) then None else t
  }

  /** The arguments of `create_session`, with the id it generates and the clock readings it makes. */
  datatype Opening = Opening(
    id: Text, initiator: Text, responder: Option<Text>, concordiaId: Option<Text>, ttl: Seconds, autoAttest: bool,
    sweptAt: int, countedAt: int, createdAt: int)

  datatype CreateError = SelfSession | TtlTooLong | LimitReached

  function NewSession(o: Opening): Session {
    Session(o.concordiaId, Participant(o.initiator, true, 0, 0),
            if Present(o.responder).Some? then Some(Participant(o.responder.value, false, 0, 0)) else None,
            Pending, [], o.createdAt, o.ttl, None, None, o.autoAttest, false)
  }

  /** `create_session`; a refusal on the limits still leaves overdue sessions timed out. */
  function Create(st: State, o: Opening): (State, Option<CreateError>) {
    if Present(o.responder) == Some(o.initiator) then (st, Some(SelfSession))
    else if o.ttl > MAX_TTL_SECONDS then (st, Some(TtlTooLong))
    else
      var swept := st.(sessions := ObserveAll(st.sessions, o.sweptAt));
      if |swept.sessions| >= MAX_SESSIONS
         || |LiveFor(swept.sessions, o.initiator, o.countedAt)| >= MAX_LIVE_PER_INITIATOR
      then (swept, Some(LimitReached))
      else
        (swept.(sessions := swept.sessions[o.id := NewSession(o)],
                index := if Present(o.concordiaId).Some? then st.index[o.concordiaId.value := o.id] else st.index),
         None)
  }

  /** `join_session` on an observed session; `None` when the agent may not join. */
  function Joined(x: Session, agent: Text): Option<Session> {
    if x.state != Pending then None
    else
      match x.responder
      case Some(p) =>
        if p.agentId != agent then None
        else Some(x.(responder := Some(p.(confirmed := true)), state := Active))
      case None => Some(x.(responder := Some(Participant(agent, true, 0, 0)), state := Active))
  }

  function Join(st: State, id: Text, agent: Text, now: int): (State, bool) {
    if id !in st.sessions then (st, false)
    else
      var x := Observed(st.sessions[id], now);
      match Joined(x, agent)
      case Some(y) => (st.(sessions := st.sessions[id := y]), true)
      case None => (st.(sessions := st.sessions[id := x]), false)
  }

  /** `get_session` */
  function Look(st: State, id: Text, now: int): State {
    if id !in st.sessions then st else st.(sessions := st.sessions[id := Observed(st.sessions[id], now)])
  }

  /** `link_concordia_session` */
  function Link(st: State, id: Text, concordiaId: Text): (State, bool) {
    if id !in st.sessions then (st, false)
    else (st.(sessions := st.sessions[id := st.sessions[id].(concordiaId := Some(concordiaId))],
              index := st.index[concordiaId := id]), true)
  }

  // ---------------------------------------------------------------- sending

  function Box(st: State, agent: Text): seq<Ref> {
    if agent in st.mailboxes then st.mailboxes[agent] else []
  }

  function Log(st: State, agent: Text): seq<Ref> {
    if agent in st.delivered then st.delivered[agent] else []
  }

  predicate Concluding(kind: Text) {
    kind == Lit("negotiate.accept") || kind == Lit("negotiate.reject") ||
    kind == Lit("negotiate.withdraw") || kind == Lit("negotiate.commit")
  }

  /** Why a send is refused outright, or the recipient. */
  function Recipient(x: Session, from: Text): Option<Text> {
    var sender := ParticipantOf(x, from);
    if sender.None? || !sender.value.confirmed || !Live(x) then None
    else if |x.transcript| >= MAX_TRANSCRIPT_SIZE then None
    else Counterparty(x, from)
  }

  datatype Post = Post(id: Text, from: Text, kind: Text, payload: Json, ttl: int, createdAt: int)

  function MessageOf(p: Post, to: Text): Message {
    Message(p.id, p.from, to, p.kind, p.payload, p.createdAt, p.ttl, Queued, None)
  }

  /** The session once the message is in its transcript and its sender's count. */
  function Appended(x: Session, m: Message): Session {
    var longer := x.(transcript := x.transcript + [m]);
    match ParticipantOf(x, m.from)
    case Some(p) => UpdateParticipant(longer, p.(sent := p.sent + 1))
    case None => longer
  }

  /** A session that a participant may still use, but whose time is up. */
  predicate Overdue(x: Session, from: Text, now: int) {
    && ParticipantOf(x, from).Some? && ParticipantOf(x, from).value.confirmed
    && Live(x) && IsTimedOut(x, now)
  }

  /** `send_message`; a full mailbox drops a message that is already in the transcript. */
  function Send(st: State, id: Text, p: Post, now: int): (State, Option<Ref>) {
    if id !in st.sessions then (st, None)
    else
      var x := st.sessions[id];
      if Overdue(x, p.from, now) then (st.(sessions := st.sessions[id := Timeout(x, now)]), None)
      else
        match Recipient(x, p.from)
        case None => (st, None)
        case Some(to) =>
          var y, ref := Appended(x, MessageOf(p, to)), Ref(id, |x.transcript|);
          if |Box(st, to)| >= MAX_MAILBOX_SIZE then
            (st.(sessions := st.sessions[id := y], dropped := st.dropped + {ref}), None)
          else
            (st.(sessions := st.sessions[id := if Concluding(p.kind) then Conclude(y, p.kind, now) else y],
                 mailboxes := st.mailboxes[to := Box(st, to) + [ref]]), Some(ref))
  }

  // ---------------------------------------------------------------- receiving

  predicate Valid(sessions: map<Text, Session>, r: Ref) {
    r.session in sessions && r.index < |sessions[r.session].transcript|
  }

  function At(sessions: map<Text, Session>, r: Ref): Message
    requires Valid(sessions, r)
  {
    sessions[r.session].transcript[r.index]
  }

  predicate IsExpired(m: Message, now: int) {
    now > m.createdAt + m.ttl
  }

  function SetStatus(sessions: map<Text, Session>, r: Ref, status: Status, at: Option<int>): map<Text, Session>
    requires Valid(sessions, r)
  {
    var x := sessions[r.session];
    var m := x.transcript[r.index].(status := status, deliveredAt := at);
    sessions[r.session := x.(transcript := x.transcript[r.index := m])]
  }

  function CountReceived(sessions: map<Text, Session>, id: Text, agent: Text): map<Text, Session>
    requires id in sessions
  {
    match ParticipantOf(sessions[id], agent)
    case Some(p) => sessions[id := UpdateParticipant(sessions[id], p.(received := p.received + 1))]
    case None => sessions
  }

  function RemoveAt(box: seq<Ref>, p: nat): seq<Ref>
    requires p < |box|
  {
    box[..p] + box[p + 1..]
  }

  predicate Filtered(filter: Option<Text>, r: Ref) {
    Present(filter).Some? && r.session != filter.value
  }

  function MarkExpired(st: State, r: Ref): State
    requires Valid(st.sessions, r)
  {
    st.(sessions := SetStatus(st.sessions, r, Expired, At(st.sessions, r).deliveredAt), expired := st.expired + {r})
  }

  function MarkDelivered(st: State, r: Ref, agent: Text, now: int): State
    requires Valid(st.sessions, r)
  {
    st.(sessions := CountReceived(SetStatus(st.sessions, r, Delivered, Some(now)), r.session, agent))
  }

  /** Drop the message at `p` of a mailbox because its time is up. */
  function Lapse(st: State, agent: Text, p: nat): State
    requires p < |Box(st, agent)| && Valid(st.sessions, Box(st, agent)[p])
  {
    MarkExpired(st, Box(st, agent)[p]).(mailboxes := st.mailboxes[agent := RemoveAt(Box(st, agent), p)])
  }

  /** Hand over the message at `p` of a mailbox. */
  function Deliver(st: State, agent: Text, p: nat, now: int): State
    requires p < |Box(st, agent)| && Valid(st.sessions, Box(st, agent)[p])
  {
    MarkDelivered(st, Box(st, agent)[p], agent, now).(
      mailboxes := st.mailboxes[agent := RemoveAt(Box(st, agent), p)],
      delivered := st.delivered[agent := Log(st, agent) + [Box(st, agent)[p]]])
  }

  /** A poll: who asks, for which session, for how many messages, and when. */
  datatype Poll = Poll(agent: Text, filter: Option<Text>, limit: int, now: int)

  predicate BoxOk(st: State, agent: Text) {
    forall i :: 0 <= i < |Box(st, agent)| ==> Valid(st.sessions, Box(st, agent)[i])
  }

  lemma StatusKeepsBoxes(st: State, next: State, agent: Text, r: Ref, status: Status, at: Option<int>)
    requires BoxOk(st, agent) && Valid(st.sessions, r)
    requires next.sessions == SetStatus(st.sessions, r, status, at)
          || next.sessions == CountReceived(SetStatus(st.sessions, r, status, at), r.session, agent)
    requires forall q :: q in Box(next, agent) ==> q in Box(st, agent)
    ensures BoxOk(next, agent)
  {
    forall i | 0 <= i < |Box(next, agent)|
      ensures Valid(next.sessions, Box(next, agent)[i])
    {
      var q := Box(next, agent)[i];
      assert q in Box(st, agent);
    }
  }

  lemma LapseKeepsBox(st: State, agent: Text, p: nat)
    requires BoxOk(st, agent) && p < |Box(st, agent)|
    ensures BoxOk(Lapse(st, agent, p), agent)
  {
    var r := Box(st, agent)[p];
    StatusKeepsBoxes(st, Lapse(st, agent, p), agent, r, Expired, At(st.sessions, r).deliveredAt);
  }

  lemma DeliverKeepsBox(st: State, agent: Text, p: nat, now: int)
    requires BoxOk(st, agent) && p < |Box(st, agent)|
    ensures BoxOk(Deliver(st, agent, p, now), agent)
  {
    StatusKeepsBoxes(st, Deliver(st, agent, p, now), agent, Box(st, agent)[p], Delivered, Some(now));
  }

  /** What is left of a poll that kept `p` messages and delivered `d`. */
  function ReceiveFrom(st: State, q: Poll, p: nat, d: nat): State
    requires BoxOk(st, q.agent) && p <= |Box(st, q.agent)|
    decreases |Box(st, q.agent)| - p
  {
    if p == |Box(st, q.agent)| then st
    else
      var r := Box(st, q.agent)[p];
      if IsExpired(At(st.sessions, r), q.now) then
        LapseKeepsBox(st, q.agent, p);
        ReceiveFrom(Lapse(st, q.agent, p), q, p, d)
      else if Filtered(q.filter, r) || d >= q.limit then ReceiveFrom(st, q, p + 1, d)
      else
        DeliverKeepsBox(st, q.agent, p, q.now);
        ReceiveFrom(Deliver(st, q.agent, p, q.now), q, p, d + 1)
  }

  /** Every poll leaves its agent with a mailbox. */
  function WithBox(st: State, agent: Text): State {
    st.(mailboxes := st.mailboxes[agent := Box(st, agent)], delivered := st.delivered[agent := Log(st, agent)])
  }

  /** `receive_messages` */
  function Receive(st: State, q: Poll): State
    requires BoxOk(st, q.agent)
  {
    ReceiveFrom(WithBox(st, q.agent), q, 0, 0)
  }

  /** A poll in progress: what it kept, what it has yet to see, and what it handed over. */
  function Midway(s: State, agent: Text, kept: seq<Ref>, rest: seq<Ref>, log: seq<Ref>): State {
    s.(mailboxes := s.mailboxes[agent := kept + rest], delivered := s.delivered[agent := log])
  }

  lemma MidwayValid(s: State, agent: Text, kept: seq<Ref>, r: Ref, rest: seq<Ref>, log: seq<Ref>)
    requires BoxOk(Midway(s, agent, kept, [r] + rest, log), agent)
    ensures Valid(s.sessions, r)
    ensures Box(Midway(s, agent, kept, [r] + rest, log), agent)[|kept|] == r
    ensures RemoveAt(kept + ([r] + rest), |kept|) == kept + rest
  {
    var st := Midway(s, agent, kept, [r] + rest, log);
    assert Valid(st.sessions, Box(st, agent)[|kept|]);
  }

  /** A poll that kept and handed over so much will end in `result`. */
  ghost predicate Polling(s: State, q: Poll, kept: seq<Ref>, rest: seq<Ref>, log: seq<Ref>, d: nat, result: State) {
    && BoxOk(Midway(s, q.agent, kept, rest, log), q.agent)
    && ReceiveFrom(Midway(s, q.agent, kept, rest, log), q, |kept|, d) == result
  }

  lemma LapseStep(s: State, q: Poll, kept: seq<Ref>, r: Ref, rest: seq<Ref>, log: seq<Ref>, d: nat, result: State)
    requires Polling(s, q, kept, [r] + rest, log, d, result)
    requires Valid(s.sessions, r) && IsExpired(At(s.sessions, r), q.now)
    ensures Polling(MarkExpired(s, r), q, kept, rest, log, d, result)
  {
    var st := Midway(s, q.agent, kept, [r] + rest, log);
    MidwayValid(s, q.agent, kept, r, rest, log);
    LapseKeepsBox(st, q.agent, |kept|);
    assert Lapse(st, q.agent, |kept|).mailboxes == Midway(MarkExpired(s, r), q.agent, kept, rest, log).mailboxes;
  }

  lemma KeepStep(s: State, q: Poll, kept: seq<Ref>, r: Ref, rest: seq<Ref>, log: seq<Ref>, d: nat, result: State)
    requires Polling(s, q, kept, [r] + rest, log, d, result)
    requires Valid(s.sessions, r) && !IsExpired(At(s.sessions, r), q.now) && (Filtered(q.filter, r) || d >= q.limit)
    ensures Polling(s, q, kept + [r], rest, log, d, result)
  {
    MidwayValid(s, q.agent, kept, r, rest, log);
    assert kept + ([r] + rest) == kept + [r] + rest;
  }

  lemma MidwayReads(s: State, agent: Text, kept: seq<Ref>, rest: seq<Ref>, log: seq<Ref>)
    ensures Box(Midway(s, agent, kept, rest, log), agent) == kept + rest
    ensures Log(Midway(s, agent, kept, rest, log), agent) == log
    ensures Midway(s, agent, kept, rest, log).sessions == s.sessions
  {
  }

  lemma OverwrittenTwice<T>(m: map<Text, T>, k: Text, v: T, w: T)
    ensures m[k := v][k := w] == m[k := w]
  {
  }

  lemma DeliverMidway(s: State, q: Poll, kept: seq<Ref>, r: Ref, rest: seq<Ref>, log: seq<Ref>)
    requires BoxOk(Midway(s, q.agent, kept, [r] + rest, log), q.agent) && Valid(s.sessions, r)
    ensures Deliver(Midway(s, q.agent, kept, [r] + rest, log), q.agent, |kept|, q.now)
         == Midway(MarkDelivered(s, r, q.agent, q.now), q.agent, kept, rest, log + [r])
  {
    MidwayReads(s, q.agent, kept, [r] + rest, log);
    MidwayValid(s, q.agent, kept, r, rest, log);
    OverwrittenTwice(s.mailboxes, q.agent, kept + ([r] + rest), kept + rest);
    OverwrittenTwice(s.delivered, q.agent, log, log + [r]);
  }

  lemma DeliverStep(s: State, q: Poll, kept: seq<Ref>, r: Ref, rest: seq<Ref>, log: seq<Ref>, d: nat, result: State)
    requires Polling(s, q, kept, [r] + rest, log, d, result)
    requires Valid(s.sessions, r) && !IsExpired(At(s.sessions, r), q.now) && !Filtered(q.filter, r) && d < q.limit
    ensures Polling(MarkDelivered(s, r, q.agent, q.now), q, kept, rest, log + [r], d + 1, result)
  {
    MidwayValid(s, q.agent, kept, r, rest, log);
    DeliverKeepsBox(Midway(s, q.agent, kept, [r] + rest, log), q.agent, |kept|, q.now);
    DeliverMidway(s, q, kept, r, rest, log);
  }

  lemma PollStarts(st: State, q: Poll)
    requires BoxOk(st, q.agent)
    ensures Polling(st, q, [], Box(st, q.agent), Log(st, q.agent), 0, Receive(st, q))
  {
    assert [] + Box(st, q.agent) == Box(st, q.agent);
  }

  lemma SplitAt(s: seq<Ref>, k: nat)
    requires k < |s|
    ensures s[k..] == [s[k]] + s[k + 1..]
  {
  }

  lemma DropAll(s: seq<Ref>)
    ensures s[|s|..] == [] && s[0..] == s
  {
  }

  lemma AddNone(s: seq<Ref>)
    ensures s + [] == s
  {
  }

  lemma AddLast(s: seq<Ref>, t: seq<Ref>, r: Ref)
    ensures s + t + [r] == s + (t + [r])
  {
  }

  lemma PollEnds(s: State, q: Poll, kept: seq<Ref>, log: seq<Ref>, d: nat, result: State)
    requires Polling(s, q, kept, [], log, d, result)
    ensures result == s.(mailboxes := s.mailboxes[q.agent := kept], delivered := s.delivered[q.agent := log])
  {
    assert kept + [] == kept;
  }

  // ---------------------------------------------------------------- a poll that raises

  /** Asking whether the message has expired raises. */
  predicate NoFloat(m: Message) {
    !FitsFloat(m.ttl)
  }

  predicate AllValid(sessions: map<Text, Session>, refs: seq<Ref>) {
    forall i :: 0 <= i < |refs| ==> Valid(sessions, refs[i])
  }

  predicate SomeNoFloat(sessions: map<Text, Session>, refs: seq<Ref>)
    requires AllValid(sessions, refs)
  {
    exists i :: 0 <= i < |refs| && NoFloat(At(sessions, refs[i]))
  }

  /** A poll of this agent raises. */
  predicate PollRaises(st: State, agent: Text)
    requires BoxOk(st, agent)
  {
    SomeNoFloat(st.sessions, Box(st, agent))
  }

  /** The messages keep their places and lifetimes. */
  ghost predicate KeepsMessages(before: map<Text, Session>, after: map<Text, Session>) {
    forall r :: Valid(before, r) ==> Valid(after, r) && At(after, r).ttl == At(before, r).ttl
  }

  lemma StatusKeepsMessages(sessions: map<Text, Session>, r: Ref, status: Status, at: Option<int>)
    requires Valid(sessions, r)
    ensures KeepsMessages(sessions, SetStatus(sessions, r, status, at))
  {
  }

  lemma CountKeepsMessages(before: map<Text, Session>, after: map<Text, Session>, id: Text, agent: Text)
    requires KeepsMessages(before, after) && id in after
    ensures KeepsMessages(before, CountReceived(after, id, agent))
  {
  }

  lemma MarksKeepMessages(s: State, r: Ref, agent: Text, now: int)
    requires Valid(s.sessions, r)
    ensures KeepsMessages(s.sessions, MarkExpired(s, r).sessions)
    ensures KeepsMessages(s.sessions, MarkDelivered(s, r, agent, now).sessions)
  {
    StatusKeepsMessages(s.sessions, r, Expired, At(s.sessions, r).deliveredAt);
    StatusKeepsMessages(s.sessions, r, Delivered, Some(now));
    CountKeepsMessages(s.sessions, SetStatus(s.sessions, r, Delivered, Some(now)), r.session, agent);
  }

  lemma KeptStillValid(before: map<Text, Session>, after: map<Text, Session>, refs: seq<Ref>)
    requires KeepsMessages(before, after) && AllValid(before, refs)
    ensures AllValid(after, refs) && SomeNoFloat(after, refs) == SomeNoFloat(before, refs)
  {
    forall i | 0 <= i < |refs|
      ensures Valid(after, refs[i]) && NoFloat(At(after, refs[i])) == NoFloat(At(before, refs[i]))
    {
    }
  }

  /**
   What a poll leaves when it raises: messages before the one it raises on are marked as
   expired, or marked and counted as delivered, but the mailbox stays as it was.
   */
  function Interrupted(s: State, q: Poll, rest: seq<Ref>, d: nat): State
    requires AllValid(s.sessions, rest)
    decreases |rest|
  {
    if rest == [] || NoFloat(At(s.sessions, rest[0])) then s
    else
      var r := rest[0];
      MarksKeepMessages(s, r, q.agent, q.now);
      if IsExpired(At(s.sessions, r), q.now) then Interrupted(MarkExpired(s, r), q, rest[1..], d)
      else if Filtered(q.filter, r) || d >= q.limit then Interrupted(s, q, rest[1..], d)
      else Interrupted(MarkDelivered(s, r, q.agent, q.now), q, rest[1..], d + 1)
  }

  /** `receive_messages`, and whether it returned. */
  function Polled(st: State, q: Poll): (State, bool)
    requires BoxOk(st, q.agent)
  {
    if PollRaises(st, q.agent) then (Interrupted(st, q, Box(st, q.agent), 0), false) else (Receive(st, q), true)
  }

  /** A poll that has yet to see `rest` raises on it if it raises at all, and will then leave `outcome`. */
  ghost predicate Heading(s: State, q: Poll, rest: seq<Ref>, d: nat, raises: bool, outcome: State) {
    && AllValid(s.sessions, rest) && SomeNoFloat(s.sessions, rest) == raises
    && Interrupted(s, q, rest, d) == outcome
  }

  lemma HeadingTail(s: State, q: Poll, r: Ref, rest: seq<Ref>, d: nat, raises: bool, outcome: State)
    requires Heading(s, q, [r] + rest, d, raises, outcome)
    ensures Valid(s.sessions, r) && AllValid(s.sessions, rest)
    ensures NoFloat(At(s.sessions, r)) ==> raises && outcome == s
    ensures !NoFloat(At(s.sessions, r)) ==> SomeNoFloat(s.sessions, rest) == raises
  {
    var all := [r] + rest;
    assert all[0] == r && all[1..] == rest;
    forall i | 0 <= i < |rest|
      ensures Valid(s.sessions, rest[i])
    {
      assert all[i + 1] == rest[i];
    }
    if i :| 0 <= i < |all| && NoFloat(At(s.sessions, all[i])) {
      assert i > 0 ==> rest[i - 1] == all[i];
    }
    if i :| 0 <= i < |rest| && NoFloat(At(s.sessions, rest[i])) {
      assert all[i + 1] == rest[i];
    }
  }

  /** One message of a poll: the state, what is kept and what is taken afterwards. */
  function PollStep(s: State, q: Poll, r: Ref, kept: seq<Ref>, taken: seq<Ref>): (State, seq<Ref>, seq<Ref>)
    requires Valid(s.sessions, r)
  {
    if IsExpired(At(s.sessions, r), q.now) then (MarkExpired(s, r), kept, taken)
    else if Filtered(q.filter, r) || |taken| >= q.limit then (s, kept + [r], taken)
    else (MarkDelivered(s, r, q.agent, q.now), kept, taken + [r])
  }

  lemma StepPolls(s: State, q: Poll, r: Ref, kept: seq<Ref>, taken: seq<Ref>, rest: seq<Ref>, log: seq<Ref>,
                  result: State)
    requires Polling(s, q, kept, [r] + rest, log + taken, |taken|, result) && Valid(s.sessions, r)
    ensures var (next, kept', taken') := PollStep(s, q, r, kept, taken);
            Polling(next, q, kept', rest, log + taken', |taken'|, result)
  {
    if IsExpired(At(s.sessions, r), q.now) {
      LapseStep(s, q, kept, r, rest, log + taken, |taken|, result);
    } else if Filtered(q.filter, r) || |taken| >= q.limit {
      KeepStep(s, q, kept, r, rest, log + taken, |taken|, result);
    } else {
      DeliverStep(s, q, kept, r, rest, log + taken, |taken|, result);
      AddLast(log, taken, r);
    }
  }

  lemma StepHeads(s: State, q: Poll, r: Ref, kept: seq<Ref>, taken: seq<Ref>, rest: seq<Ref>, raises: bool,
                  outcome: State)
    requires Heading(s, q, [r] + rest, |taken|, raises, outcome)
    requires Valid(s.sessions, r) && !NoFloat(At(s.sessions, r))
    ensures var (next, kept', taken') := PollStep(s, q, r, kept, taken);
            Heading(next, q, rest, |taken'|, raises, outcome)
  {
    HeadingTail(s, q, r, rest, |taken|, raises, outcome);
    MarksKeepMessages(s, r, q.agent, q.now);
    KeptStillValid(s.sessions, PollStep(s, q, r, kept, taken).0.sessions, rest);
    assert ([r] + rest)[1..] == rest;
  }

  // ---------------------------------------------------------------- conclusion and archival

  /** `conclude_session`; whether the caller may see the session. */
  function ConcludeBy(st: State, id: Text, reason: Text, agent: Text, now: int): (State, bool) {
    if id !in st.sessions then (st, false)
    else
      var x := st.sessions[id];
      var p := ParticipantOf(x, agent);
      if p.None? || !p.value.confirmed then (st, false)
      else if x.state == Concluded || x.state == Archived then (st, true)
      else (st.(sessions := st.sessions[id := Conclude(x, reason, now)]), true)
  }

  function ArchiveOf(id: Text, x: Session, days: int): Archive {
    Archive(id, x.concordiaId,
            [x.initiator.agentId] + (if x.responder.Some? then [x.responder.value.agentId] else []),
            x.transcript, x.reason, days)
  }

  datatype ArchiveOutcome = Stored | NotConcluded | ArchiveFull

  /** `archive_session` */
  function ArchiveSession(st: State, id: Text, archiveId: Text, days: int): (State, ArchiveOutcome) {
    if id !in st.sessions || !(st.sessions[id].state == Concluded || st.sessions[id].state == TimedOut)
    then (st, NotConcluded)
    else if |st.archives| >= MAX_ARCHIVES then (st, ArchiveFull)
    else
      (st.(archives := st.archives[archiveId := ArchiveOf(id, st.sessions[id], days)],
           sessions := st.sessions[id := st.sessions[id].(state := Archived)]), Stored)
  }

  // ---------------------------------------------------------------- the class

  class NegotiationRelay {
    var sessions: map<Text, Session>
    var mailboxes: map<Text, seq<Ref>>
    var archives: map<Text, Archive>
    var index: map<Text, Text>
    ghost var delivered: map<Text, seq<Ref>>
    ghost var expired: set<Ref>
    ghost var dropped: set<Ref>

    ghost function Value(): State
      reads this
    {
      State(sessions, mailboxes, archives, index, delivered, expired, dropped)
    }

    constructor ()
      ensures Value() == EMPTY
    {
      sessions, mailboxes, archives, index := map[], map[], map[], map[];
      delivered, expired, dropped := map[], {}, {};
    }

    method CreateSession(o: Opening) returns (error: Option<CreateError>)
      modifies `sessions, `index
      ensures (Value(), error) == Create(old(Value()), o)
    {
      if Present(o.responder).Some? && o.initiator == o.responder.value {
        return Some(SelfSession);
      }
      if o.ttl > MAX_TTL_SECONDS {
        return Some(TtlTooLong);
      }
      ExpireTimedOutSessions(o.sweptAt);
      if |sessions| >= MAX_SESSIONS {
        return Some(LimitReached);
      }
      if |LiveFor(sessions, o.initiator, o.countedAt)| >= MAX_LIVE_PER_INITIATOR {
        return Some(LimitReached);
      }
      sessions := sessions[o.id := NewSession(o)];
      if Present(o.concordiaId).Some? {
        index := index[o.concordiaId.value := o.id];
      }
      return None;
    }

    /** `_expire_timed_out_sessions` */
    method ExpireTimedOutSessions(now: int)
      modifies `sessions
      ensures sessions == ObserveAll(old(sessions), now)
    {
      var todo := sessions.Keys;
      while todo != {}
        invariant sessions.Keys == old(sessions).Keys && todo <= sessions.Keys
        invariant forall id :: id in sessions ==>
                    sessions[id] == if id in todo then old(sessions)[id] else Observed(old(sessions)[id], now)
        decreases |todo|
      {
        var id :| id in todo;
        if (sessions[id].state == Pending || sessions[id].state == Active) && IsTimedOut(sessions[id], now) {
          sessions := sessions[id := Timeout(sessions[id], now)];
        }
        todo := todo - {id};
      }
    }

    method JoinSession(id: Text, agent: Text, now: int) returns (joined: bool)
      modifies `sessions
      ensures (Value(), joined) == Join(old(Value()), id, agent, now)
    {
      if id !in sessions {
        return false;
      }
      ObserveSession(id, now);
      var x := sessions[id];
      if x.state != Pending {
        return false;
      }
      if x.responder.Some? {
        if x.responder.value.agentId != agent {
          return false;
        }
        x := x.(responder := Some(x.responder.value.(confirmed := true)));
      } else {
        x := x.(responder := Some(Participant(agent, true, 0, 0)));
      }
      sessions := sessions[id := x.(state := Active)];
      assert sessions == old(sessions)[id := x.(state := Active)];
      return true;
    }

    method GetSession(id: Text, now: int) returns (r: Option<Session>)
      modifies `sessions
      ensures Value() == Look(old(Value()), id, now)
      ensures r == if id in sessions then Some(sessions[id]) else None
    {
      if id !in sessions {
        return None;
      }
      ObserveSession(id, now);
      return Some(sessions[id]);
    }

    method ObserveSession(id: Text, now: int)
      requires id in sessions
      modifies `sessions
      ensures sessions == old(sessions)[id := Observed(old(sessions)[id], now)]
    {
      if IsTimedOut(sessions[id], now) && Live(sessions[id]) {
        sessions := sessions[id := Timeout(sessions[id], now)];
      }
      assert sessions == old(sessions)[id := sessions[id]];
    }

    method LinkConcordiaSession(id: Text, concordiaId: Text) returns (linked: bool)
      modifies `sessions, `index
      ensures (Value(), linked) == Link(old(Value()), id, concordiaId)
    {
      if id !in sessions {
        return false;
      }
      sessions := sessions[id := sessions[id].(concordiaId := Some(concordiaId))];
      index := index[concordiaId := id];
      return true;
    }

    method SendMessage(id: Text, p: Post, now: int) returns (sent: Option<Ref>)
      modifies this
      ensures (Value(), sent) == Send(old(Value()), id, p, now)
    {
      if id !in sessions {
        return None;
      }
      var x := sessions[id];
      var sender := ParticipantOf(x, p.from);
      if sender.None? || !sender.value.confirmed {
        return None;
      }
      if x.state != Active && x.state != Pending {
        return None;
      }
      if IsTimedOut(x, now) {
        sessions := sessions[id := Timeout(x, now)];
        return None;
      }
      if |x.transcript| >= MAX_TRANSCRIPT_SIZE {
        return None;
      }
      var to := Counterparty(x, p.from);
      if to.None? {
        return None;
      }
      sent := Route(id, p, to.value, now);
    }

    /** `send_message` from the append on. */
    method Route(id: Text, p: Post, to: Text, now: int) returns (sent: Option<Ref>)
      requires id in sessions && Recipient(sessions[id], p.from) == Some(to) && !Overdue(sessions[id], p.from, now)
      modifies this
      ensures (Value(), sent) == Send(old(Value()), id, p, now)
    {
      var x := sessions[id];
      var ref := Ref(id, |x.transcript|);
      x := x.(transcript := x.transcript + [MessageOf(p, to)]);
      var sender := ParticipantOf(x, p.from).value;
      x := UpdateParticipant(x, sender.(sent := sender.sent + 1));
      assert x == Appended(sessions[id], MessageOf(p, to));
      var box := if to in mailboxes then mailboxes[to] else [];
      if |box| >= MAX_MAILBOX_SIZE {
        sessions := sessions[id := x];
        dropped := dropped + {ref};
        return None;
      }
      mailboxes := mailboxes[to := box + [ref]];
      if Concluding(p.kind) {
        x := Conclude(x, p.kind, now);
      }
      sessions := sessions[id := x];
      return Some(ref);
    }

    method ConcludeSession(id: Text, reason: Text, agent: Text, now: int) returns (visible: bool)
      modifies `sessions
      ensures (Value(), visible) == ConcludeBy(old(Value()), id, reason, agent, now)
    {
      if id !in sessions {
        return false;
      }
      var participant := ParticipantOf(sessions[id], agent);
      if participant.None? || !participant.value.confirmed {
        return false;
      }
      if sessions[id].state == Concluded || sessions[id].state == Archived {
        return true;
      }
      sessions := sessions[id := Conclude(sessions[id], reason, now)];
      return true;
    }

    method Archive(id: Text, archiveId: Text, days: int) returns (outcome: ArchiveOutcome)
      modifies `sessions, `archives
      ensures (Value(), outcome) == ArchiveSession(old(Value()), id, archiveId, days)
    {
      if id !in sessions {
        return NotConcluded;
      }
      var x := sessions[id];
      if x.state != Concluded && x.state != TimedOut {
        return NotConcluded;
      }
      if |archives| >= MAX_ARCHIVES {
        return ArchiveFull;
      }
      archives := archives[archiveId := ArchiveOf(id, x, days)];
      sessions := sessions[id := x.(state := Archived)];
      return Stored;
    }

    /** `receive_messages`: one pass that sorts a mailbox into delivered and remaining; `None` when it raises. */
    method ReceiveMessages(q: Poll) returns (result: Option<seq<Ref>>)
      requires BoxOk(Value(), q.agent)
      modifies this
      ensures (Value(), result.Some?) == Polled(old(Value()), q)
      ensures result.Some? ==> Log(Value(), q.agent) == Log(old(Value()), q.agent) + result.value
    {
      var mailbox := if q.agent in mailboxes then mailboxes[q.agent] else [];
      var taken: seq<Ref> := [];
      var remaining: seq<Ref> := [];
      ghost var log, outcome := Log(Value(), q.agent), Receive(Value(), q);
      ghost var raises, broken := PollRaises(Value(), q.agent), Interrupted(Value(), q, mailbox, 0);
      PollStarts(Value(), q);
      AddNone(log);
      DropAll(mailbox);
      for k := 0 to |mailbox|
        invariant Polling(Value(), q, remaining, mailbox[k..], log + taken, |taken|, outcome)
        invariant Heading(Value(), q, mailbox[k..], |taken|, raises, broken)
      {
        SplitAt(mailbox, k);
        HeadingTail(Value(), q, mailbox[k], mailbox[k + 1..], |taken|, raises, broken);
        if NoFloat(At(sessions, mailbox[k])) {
          return None;
        }
        StepPolls(Value(), q, mailbox[k], remaining, taken, mailbox[k + 1..], log, outcome);
        StepHeads(Value(), q, mailbox[k], remaining, taken, mailbox[k + 1..], raises, broken);
        remaining, taken := PollOne(q, mailbox[k], remaining, taken);
      }
      DropAll(mailbox);
      PollEnds(Value(), q, remaining, log + taken, |taken|, outcome);
      mailboxes := mailboxes[q.agent := remaining];
      delivered := delivered[q.agent := log + taken];
      return Some(taken);
    }

    /** The body of the polling loop. */
    method PollOne(q: Poll, r: Ref, remaining: seq<Ref>, taken: seq<Ref>)
      returns (remaining': seq<Ref>, taken': seq<Ref>)
      requires Valid(sessions, r)
      modifies `sessions, `expired
      ensures (Value(), remaining', taken') == PollStep(old(Value()), q, r, remaining, taken)
    {
      remaining', taken' := remaining, taken;
      if IsExpired(At(sessions, r), q.now) {
        SetExpired(r);
      } else if Filtered(q.filter, r) || |taken| >= q.limit {
        remaining' := remaining + [r];
      } else {
        SetDelivered(r, q.agent, q.now);
        taken' := taken + [r];
      }
    }

    method SetExpired(r: Ref)
      requires Valid(sessions, r)
      modifies `sessions, `expired
      ensures Value() == MarkExpired(old(Value()), r)
    {
      sessions := SetStatus(sessions, r, Expired, At(sessions, r).deliveredAt);
      expired := expired + {r};
    }

    /** Mark a message as delivered and count it for its receiver. */
    method SetDelivered(r: Ref, agent: Text, now: int)
      requires Valid(sessions, r)
      modifies `sessions
      ensures Value() == MarkDelivered(old(Value()), r, agent, now)
    {
      sessions := SetStatus(sessions, r, Delivered, Some(now));
      sessions := CountReceived(sessions, r.session, agent);
    }
  }
}
