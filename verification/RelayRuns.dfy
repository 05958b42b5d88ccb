/** What every run of the relay keeps. */
module RelayRuns {
  import opened Wrappers
  import Sequences
  import opened Unicode
  import opened FloatRange
  import opened Relay
  import opened RelayMail

  // ---------------------------------------------------------------- sessions

  function SentTotal(x: Session): nat {
    x.initiator.sent + if x.responder.Some? then x.responder.value.sent else 0
  }

  function ReceivedTotal(x: Session): nat {
    x.initiator.received + if x.responder.Some? then x.responder.value.received else 0
  }

  function DeliveredCount(ms: seq<Message>): nat {
    if ms == [] then 0
    else DeliveredCount(ms[..|ms| - 1]) + if ms[|ms| - 1].status == Delivered then 1 else 0
  }

  predicate Confirmed(x: Session) {
    x.responder.Some? && x.responder.value.confirmed
  }

  /** A message between the parties, of a lifetime that a float holds. */
  predicate Proper(x: Session, m: Message) {
    ParticipantOf(x, m.from).Some? && ParticipantOf(x, m.to).Some? && !NoFloat(m)
  }

  /** One session: nobody talks before the responder confirms, and the counters are right. */
  ghost predicate SessionOk(x: Session) {
    && (x.state == Active ==> Confirmed(x))
    && (x.state == Pending ==> x.transcript == [] && !Confirmed(x))
    && (x.transcript != [] ==> Confirmed(x))
    && x.initiator.confirmed
    && SentTotal(x) == |x.transcript| <= MAX_TRANSCRIPT_SIZE
    && ReceivedTotal(x) == DeliveredCount(x.transcript)
    && forall i :: 0 <= i < |x.transcript| ==> Proper(x, x.transcript[i])
  }

  ghost predicate SessionsOk(sessions: map<Text, Session>) {
    forall id :: id in sessions ==> SessionOk(sessions[id])
  }

  lemma ConcludedOk(x: Session, y: Session)
    requires SessionOk(x) && y.state != Pending && y.state != Active
    requires y.initiator == x.initiator && y.responder == x.responder && y.transcript == x.transcript
    ensures SessionOk(y)
  {
    forall i | 0 <= i < |y.transcript|
      ensures Proper(y, y.transcript[i])
    {
      assert Proper(x, x.transcript[i]);
    }
  }

  lemma ObservedOk(x: Session, now: int)
    requires SessionOk(x)
    ensures SessionOk(Observed(x, now))
  {
    if Live(x) && IsTimedOut(x, now) {
      ConcludedOk(x, Timeout(x, now));
    }
  }

  lemma JoinedOk(x: Session, agent: Text)
    requires SessionOk(x) && Joined(x, agent).Some?
    ensures SessionOk(Joined(x, agent).value)
  {
  }

  lemma AppendedOk(x: Session, m: Message)
    requires SessionOk(x) && Live(x) && m.status == Queued && Recipient(x, m.from) == Some(m.to) && !NoFloat(m)
    ensures SessionOk(Appended(x, m)) && Confirmed(Appended(x, m))
  {
    var y := Appended(x, m);
    AppendedProper(x, m);
    assert y.transcript[..|y.transcript| - 1] == x.transcript;
  }

  lemma AppendedProper(x: Session, m: Message)
    requires SessionOk(x) && !NoFloat(m) && ParticipantOf(x, m.from).Some? && ParticipantOf(x, m.to).Some?
    ensures var y := Appended(x, m);
            forall i :: 0 <= i < |y.transcript| ==> Proper(y, y.transcript[i])
  {
    var y := Appended(x, m);
    forall i | 0 <= i < |y.transcript|
      ensures Proper(y, y.transcript[i])
    {
      assert i < |x.transcript| ==> Proper(x, x.transcript[i]);
    }
  }

  lemma {:induction false} DeliveredCountUpdate(ms: seq<Message>, i: nat, m: Message)
    requires i < |ms| && ms[i].status == Queued
    ensures DeliveredCount(ms[i := m]) == DeliveredCount(ms) + if m.status == Delivered then 1 else 0
  {
    var next := ms[i := m];
    if i == |ms| - 1 {
      assert next[..|ms| - 1] == ms[..|ms| - 1];
    } else {
      assert next[..|ms| - 1] == ms[..|ms| - 1][i := m];
      DeliveredCountUpdate(ms[..|ms| - 1], i, m);
    }
  }

  /** The session of a message once its status is `status`. */
  function WithStatus(x: Session, i: nat, status: Status, at: Option<int>): Session
    requires i < |x.transcript|
  {
    x.(transcript := x.transcript[i := x.transcript[i].(status := status, deliveredAt := at)])
  }

  lemma StatusParties(x: Session, i: nat, status: Status, at: Option<int>)
    requires i < |x.transcript| && forall k :: 0 <= k < |x.transcript| ==> Proper(x, x.transcript[k])
    ensures forall k :: 0 <= k < |x.transcript| ==>
            Proper(WithStatus(x, i, status, at), WithStatus(x, i, status, at).transcript[k])
  {
    var y := WithStatus(x, i, status, at);
    forall k | 0 <= k < |x.transcript|
      ensures Proper(y, y.transcript[k])
    {
      assert Proper(x, x.transcript[k]);
    }
  }

  lemma LapsedOk(x: Session, i: nat, at: Option<int>)
    requires SessionOk(x) && i < |x.transcript| && x.transcript[i].status == Queued
    ensures SessionOk(WithStatus(x, i, Expired, at))
  {
    DeliveredCountUpdate(x.transcript, i, x.transcript[i].(status := Expired, deliveredAt := at));
    StatusParties(x, i, Expired, at);
  }

  function Counted(x: Session, agent: Text): Session {
    match ParticipantOf(x, agent)
    case Some(p) => UpdateParticipant(x, p.(received := p.received + 1))
    case None => x
  }

  lemma CountedParties(x: Session, agent: Text)
    requires ParticipantOf(x, agent).Some?
    ensures var y := Counted(x, agent);
            && y.transcript == x.transcript && y.state == x.state && Confirmed(y) == Confirmed(x)
            && y.initiator.confirmed == x.initiator.confirmed
            && SentTotal(y) == SentTotal(x) && ReceivedTotal(y) == ReceivedTotal(x) + 1
            && forall m :: Proper(x, m) ==> Proper(y, m)
  {
  }

  lemma DeliveredOk(x: Session, i: nat, at: Option<int>, agent: Text)
    requires SessionOk(x) && i < |x.transcript| && x.transcript[i].status == Queued && x.transcript[i].to == agent
    ensures SessionOk(Counted(WithStatus(x, i, Delivered, at), agent))
  {
    var y := WithStatus(x, i, Delivered, at);
    assert Proper(x, x.transcript[i]);
    DeliveredCountUpdate(x.transcript, i, x.transcript[i].(status := Delivered, deliveredAt := at));
    StatusParties(x, i, Delivered, at);
    CountedParties(y, agent);
  }

  // ---------------------------------------------------------------- what later states keep

  predicate SameText(m: Message, n: Message) {
    m.(status := n.status, deliveredAt := n.deliveredAt) == n
  }

  predicate Continues(ms: seq<Message>, ns: seq<Message>) {
    |ms| <= |ns| && forall i :: 0 <= i < |ms| ==> SameText(ms[i], ns[i])
  }

  /** A session goes forward: it never comes back to life, and a dead transcript is frozen. */
  predicate Forward(x: Session, y: Session) {
    && Continues(x.transcript, y.transcript)
    && (Live(y) ==> Live(x)) && (y.state == Pending ==> x.state == Pending)
    && (!Live(x) ==> |y.transcript| == |x.transcript|)
    && (x.state == Concluded ==> y.state == Concluded || y.state == Archived)
    && (x.state == Archived ==> y.state == Archived)
    && y.initiator.agentId == x.initiator.agentId && y.createdAt == x.createdAt && y.ttl == x.ttl
    && (Confirmed(x) ==> Confirmed(y) && y.responder.value.agentId == x.responder.value.agentId)
  }

  ghost predicate Later(st: State, next: State) {
    && (forall id :: id in st.sessions ==> id in next.sessions && Forward(st.sessions[id], next.sessions[id]))
    && (forall a :: a in st.archives ==> a in next.archives && next.archives[a] == st.archives[a])
  }

  lemma ContinuesTransitive(a: seq<Message>, b: seq<Message>, c: seq<Message>)
    requires Continues(a, b) && Continues(b, c)
    ensures Continues(a, c)
  {
    forall i | 0 <= i < |a|
      ensures SameText(a[i], c[i])
    {
      assert SameText(a[i], b[i]) && SameText(b[i], c[i]);
    }
  }

  lemma ForwardTransitive(x: Session, y: Session, z: Session)
    requires Forward(x, y) && Forward(y, z)
    ensures Forward(x, z)
  {
    ContinuesTransitive(x.transcript, y.transcript, z.transcript);
  }

  lemma LaterTransitive(a: State, b: State, c: State)
    requires Later(a, b) && Later(b, c)
    ensures Later(a, c)
  {
    forall id | id in a.sessions
      ensures id in c.sessions && Forward(a.sessions[id], c.sessions[id])
    {
      ForwardTransitive(a.sessions[id], b.sessions[id], c.sessions[id]);
    }
  }

  // ---------------------------------------------------------------- the invariant

  predicate ArchiveOk(st: State, a: Archive) {
    && a.session in st.sessions && st.sessions[a.session].state == Archived
    && |a.messages| == |st.sessions[a.session].transcript| && Continues(a.messages, st.sessions[a.session].transcript)
  }

  /** Archives agree with their frozen transcripts, one archive a session. */
  ghost predicate ArchivesOk(st: State) {
    && (forall a :: a in st.archives ==> ArchiveOk(st, st.archives[a]))
    && (forall a, b :: a in st.archives && b in st.archives && st.archives[a].session == st.archives[b].session ==>
       a == b)
  }

  predicate Capped(st: State) {
    |st.sessions| <= MAX_SESSIONS && |st.archives| <= MAX_ARCHIVES
  }

  ghost predicate IndexOk(st: State) {
    forall c :: c in st.index ==> st.index[c] in st.sessions
  }

  ghost predicate Inv(st: State) {
    SessionsOk(st.sessions) && MailInv(st) && ArchivesOk(st) && Capped(st) && IndexOk(st)
  }

  // ---------------------------------------------------------------- one session changes

  lemma ArchivesForward(st: State, next: State)
    requires ArchivesOk(st) && Later(st, next) && next.archives == st.archives
    ensures ArchivesOk(next)
  {
    forall a | a in st.archives
      ensures ArchiveOk(next, st.archives[a])
    {
      var arch := st.archives[a];
      assert ArchiveOk(st, arch);
      assert Forward(st.sessions[arch.session], next.sessions[arch.session]);
      ContinuesTransitive(arch.messages, st.sessions[arch.session].transcript, next.sessions[arch.session].transcript);
    }
  }

  lemma ForwardRefl(x: Session)
    ensures Forward(x, x)
  {
  }

  /** `next` differs from `st` in the session `id`, which is now `y`, and in its mail. */
  predicate Replaced(st: State, next: State, id: Text, y: Session) {
    && id in st.sessions && next.sessions == st.sessions[id := y]
    && next.archives == st.archives
  }

  lemma ReplaceIsLater(st: State, next: State, id: Text, y: Session)
    requires Replaced(st, next, id, y) && Forward(st.sessions[id], y)
    ensures Later(st, next)
  {
    forall k | k in st.sessions
      ensures k in next.sessions && Forward(st.sessions[k], next.sessions[k])
    {
      ForwardRefl(st.sessions[k]);
    }
  }

  lemma SessionsInsert(sessions: map<Text, Session>, id: Text, y: Session)
    requires SessionsOk(sessions) && SessionOk(y)
    ensures SessionsOk(sessions[id := y])
  {
    var next := sessions[id := y];
    forall k | k in next
      ensures SessionOk(next[k])
    {
      assert k != id ==> SessionOk(sessions[k]);
    }
  }

  lemma SizeInsert<T>(m: map<Text, T>, id: Text, v: T)
    ensures |m[id := v]| == |m| + if id in m then 0 else 1
  {
    assert m[id := v].Keys == m.Keys + {id};
    assert |m[id := v]| == |m[id := v].Keys| && |m| == |m.Keys|;
  }

  lemma ReplaceKeepsInv(st: State, next: State, id: Text, y: Session)
    requires Inv(st) && Replaced(st, next, id, y) && SessionOk(y) && Forward(st.sessions[id], y)
    requires MailInv(next) && IndexOk(next)
    ensures Inv(next) && Later(st, next)
  {
    ReplaceIsLater(st, next, id, y);
    ArchivesForward(st, next);
    SizeInsert(st.sessions, id, y);
    SessionsInsert(st.sessions, id, y);
  }

  /** A session changes, but not its transcript, and no mail moves. */
  lemma UpdateKeepsInv(st: State, next: State, id: Text, y: Session)
    requires Inv(st) && Replaced(st, next, id, y) && SessionOk(y) && Forward(st.sessions[id], y)
    requires SameMail(st, next) && y.transcript == st.sessions[id].transcript && IndexOk(next)
    ensures Inv(next) && Later(st, next)
  {
    FrameMail(st, next);
    ReplaceKeepsInv(st, next, id, y);
  }

  lemma SameTextsContinue(ms: seq<Message>)
    ensures Continues(ms, ms)
  {
  }

  // ---------------------------------------------------------------- the operations

  lemma SweepSessions(sessions: map<Text, Session>, now: int)
    requires SessionsOk(sessions)
    ensures SessionsOk(ObserveAll(sessions, now)) && |ObserveAll(sessions, now)| == |sessions|
    ensures forall id :: id in sessions ==> Forward(sessions[id], ObserveAll(sessions, now)[id])
  {
    var next := ObserveAll(sessions, now);
    forall id | id in sessions
      ensures SessionOk(next[id]) && Forward(sessions[id], next[id])
    {
      SweptOk(sessions[id], now);
    }
    SweepSize(sessions, now);
  }

  lemma SweepSize(sessions: map<Text, Session>, now: int)
    ensures |ObserveAll(sessions, now)| == |sessions|
  {
    var next := ObserveAll(sessions, now);
    assert next.Keys == sessions.Keys;
    assert |next| == |next.Keys| && |sessions| == |sessions.Keys|;
  }

  lemma SweptOk(x: Session, now: int)
    requires SessionOk(x)
    ensures SessionOk(Observed(x, now)) && Forward(x, Observed(x, now))
  {
    ObservedOk(x, now);
    SameTextsContinue(x.transcript);
  }

  lemma SweepKeepsInv(st: State, now: int)
    requires Inv(st)
    ensures var next := st.(sessions := ObserveAll(st.sessions, now));
            Inv(next) && Later(st, next)
  {
    var next := st.(sessions := ObserveAll(st.sessions, now));
    SweepSessions(st.sessions, now);
    FrameMail(st, next);
    ArchivesForward(st, next);
  }

  lemma NewSessionOk(o: Opening)
    ensures SessionOk(NewSession(o)) && NewSession(o).transcript == []
  {
  }

  lemma InsertIsLater(st: State, next: State, id: Text, x: Session)
    requires id !in st.sessions && next.sessions == st.sessions[id := x] && next.archives == st.archives
    ensures Later(st, next)
  {
    forall k | k in st.sessions
      ensures k in next.sessions && Forward(st.sessions[k], next.sessions[k])
    {
      ForwardRefl(st.sessions[k]);
    }
  }

  lemma InsertKeepsInv(st: State, next: State, id: Text, x: Session)
    requires Inv(st) && id !in st.sessions && next.sessions == st.sessions[id := x] && SessionOk(x)
            && x.transcript == []
    requires SameMail(st, next) && next.archives == st.archives && |st.sessions| < MAX_SESSIONS && IndexOk(next)
    ensures Inv(next) && Later(st, next)
  {
    InsertIsLater(st, next, id, x);
    assert SameTranscripts(st.sessions, next.sessions);
    FrameMail(st, next);
    ArchivesForward(st, next);
    SizeInsert(st.sessions, id, x);
    SessionsInsert(st.sessions, id, x);
  }

  lemma CreateKeepsInv(st: State, o: Opening)
    requires Inv(st) && o.id !in st.sessions && Create(st, o).0 != st
    ensures Inv(Create(st, o).0) && Later(st, Create(st, o).0)
  {
    var next := Create(st, o).0;
    var swept := st.(sessions := ObserveAll(st.sessions, o.sweptAt));
    SweepKeepsInv(st, o.sweptAt);
    if Create(st, o).1.None? {
      OpenedKeepsInv(swept, next, o);
      LaterTransitive(st, swept, next);
    }
  }

  lemma OpenedKeepsInv(st: State, next: State, o: Opening)
    requires Inv(st) && o.id !in st.sessions && |st.sessions| < MAX_SESSIONS
    requires next == st.(sessions := st.sessions[o.id := NewSession(o)], index := next.index)
    requires next.index == (if Present(o.concordiaId).Some? then st.index[o.concordiaId.value := o.id] else st.index)
    ensures Inv(next) && Later(st, next)
  {
    NewSessionOk(o);
    OpenedIndex(st, next, o);
    InsertKeepsInv(st, next, o.id, NewSession(o));
  }

  lemma OpenedIndex(st: State, next: State, o: Opening)
    requires IndexOk(st) && next.sessions == st.sessions[o.id := NewSession(o)]
    requires next.index == (if Present(o.concordiaId).Some? then st.index[o.concordiaId.value := o.id] else st.index)
    ensures IndexOk(next)
  {
  }

  lemma LookKeepsInv(st: State, id: Text, now: int)
    requires Inv(st) && id in st.sessions
    ensures Inv(Look(st, id, now)) && Later(st, Look(st, id, now))
  {
    var x := st.sessions[id];
    ObservedOk(x, now);
    SameTextsContinue(x.transcript);
    UpdateKeepsInv(st, Look(st, id, now), id, Observed(x, now));
  }

  lemma JoinKeepsInv(st: State, id: Text, agent: Text, now: int)
    requires Inv(st) && id in st.sessions
    ensures Inv(Join(st, id, agent, now).0) && Later(st, Join(st, id, agent, now).0)
  {
    var x := Observed(st.sessions[id], now);
    LookKeepsInv(st, id, now);
    if Joined(x, agent).Some? {
      ObservedOk(st.sessions[id], now);
      JoinedOk(x, agent);
      SameTextsContinue(x.transcript);
      UpdateKeepsInv(st, Join(st, id, agent, now).0, id, Joined(x, agent).value);
    }
  }

  lemma LinkKeepsInv(st: State, id: Text, concordiaId: Text)
    requires Inv(st) && id in st.sessions
    ensures Inv(Link(st, id, concordiaId).0) && Later(st, Link(st, id, concordiaId).0)
  {
    var x := st.sessions[id];
    LinkedOk(x, concordiaId);
    UpdateKeepsInv(st, Link(st, id, concordiaId).0, id, x.(concordiaId := Some(concordiaId)));
  }

  lemma LinkedOk(x: Session, concordiaId: Text)
    requires SessionOk(x)
    ensures var y := x.(concordiaId := Some(concordiaId)); SessionOk(y) && Forward(x, y)
  {
    var y := x.(concordiaId := Some(concordiaId));
    SameTextsContinue(x.transcript);
    forall i | 0 <= i < |x.transcript|
      ensures Proper(y, x.transcript[i])
    {
      assert Proper(x, x.transcript[i]);
    }
  }

  lemma ConcludeKeepsInv(st: State, id: Text, reason: Text, agent: Text, now: int)
    requires Inv(st) && id in st.sessions && ConcludeBy(st, id, reason, agent, now).0 != st
    ensures var next := ConcludeBy(st, id, reason, agent, now).0; Inv(next) && Later(st, next)
  {
    var x := st.sessions[id];
    ConcludedOk(x, Conclude(x, reason, now));
    SameTextsContinue(x.transcript);
    UpdateKeepsInv(st, ConcludeBy(st, id, reason, agent, now).0, id, Conclude(x, reason, now));
  }

  lemma AppendContinues(ms: seq<Message>, m: Message)
    ensures Continues(ms, ms + [m])
  {
  }

  lemma AppendedForward(x: Session, m: Message)
    requires Live(x) && ParticipantOf(x, m.from).Some?
    ensures Forward(x, Appended(x, m)) && Appended(x, m).transcript == x.transcript + [m]
            && Appended(x, m).state == x.state
  {
    AppendContinues(x.transcript, m);
  }

  /** The session a routed message leaves behind. */
  function RoutedSession(x: Session, p: Post, to: Text, box: nat, now: int): Session {
    var y := Appended(x, MessageOf(p, to));
    if box < MAX_MAILBOX_SIZE && Concluding(p.kind) then Conclude(y, p.kind, now) else y
  }

  lemma RoutedOk(x: Session, p: Post, to: Text, box: nat, now: int)
    requires SessionOk(x) && Recipient(x, p.from) == Some(to) && FitsFloat(p.ttl)
    ensures var z := RoutedSession(x, p, to, box, now);
            SessionOk(z) && Forward(x, z) && z.transcript == x.transcript + [MessageOf(p, to)]
  {
    var m := MessageOf(p, to);
    var y := Appended(x, m);
    AppendedOk(x, m);
    AppendedForward(x, m);
    if Concluding(p.kind) {
      ConcludedOk(y, Conclude(y, p.kind, now));
      ForwardConclude(x, y, Conclude(y, p.kind, now));
    }
  }

  lemma ForwardConclude(x: Session, y: Session, z: Session)
    requires Forward(x, y) && Live(x) && z.state == Concluded && z.transcript == y.transcript
    requires z.initiator == y.initiator && z.responder == y.responder && z.createdAt == y.createdAt && z.ttl == y.ttl
    ensures Forward(x, z)
  {
  }

  lemma SendKeepsInv(st: State, id: Text, p: Post, now: int)
    requires Inv(st) && id in st.sessions && Send(st, id, p, now).0 != st && FitsFloat(p.ttl)
    ensures Inv(Send(st, id, p, now).0) && Later(st, Send(st, id, p, now).0)
  {
    var x, next := st.sessions[id], Send(st, id, p, now).0;
    if Overdue(x, p.from, now) {
      ConcludedOk(x, Timeout(x, now));
      SameTextsContinue(x.transcript);
      UpdateKeepsInv(st, next, id, Timeout(x, now));
    } else {
      RouteKeepsInv(st, id, p, now, Recipient(x, p.from).value);
    }
  }

  lemma RouteIs(st: State, id: Text, p: Post, now: int, to: Text)
    requires id in st.sessions && !Overdue(st.sessions[id], p.from, now)
    requires Recipient(st.sessions[id], p.from) == Some(to)
    ensures var x, next := st.sessions[id], Send(st, id, p, now).0;
            && Replaced(st, next, id, RoutedSession(x, p, to, |Box(st, to)|, now))
            && Sent(st, next, Ref(id, |x.transcript|), to) && next.index == st.index
  {
  }

  lemma RouteKeepsInv(st: State, id: Text, p: Post, now: int, to: Text)
    requires Inv(st) && id in st.sessions && !Overdue(st.sessions[id], p.from, now)
    requires Recipient(st.sessions[id], p.from) == Some(to) && FitsFloat(p.ttl)
    ensures Inv(Send(st, id, p, now).0) && Later(st, Send(st, id, p, now).0)
  {
    var x, next := st.sessions[id], Send(st, id, p, now).0;
    var z := RoutedSession(x, p, to, |Box(st, to)|, now);
    RoutedOk(x, p, to, |Box(st, to)|, now);
    RouteIs(st, id, p, now, to);
    RoutedKeepsInv(st, next, id, z, MessageOf(p, to));
  }

  lemma RoutedKeepsInv(st: State, next: State, id: Text, z: Session, m: Message)
    requires Inv(st) && Replaced(st, next, id, z) && SessionOk(z) && Forward(st.sessions[id], z)
    requires z.transcript == st.sessions[id].transcript + [m] && m.status == Queued
    requires Sent(st, next, Ref(id, |st.sessions[id].transcript|), m.to) && next.index == st.index
    ensures Inv(next) && Later(st, next)
  {
    SendKeepsMail(st, next, Ref(id, |st.sessions[id].transcript|), m);
    ReplaceKeepsInv(st, next, id, z);
  }

  lemma ArchiveKeepsInv(st: State, id: Text, archiveId: Text, days: int)
    requires Inv(st) && id in st.sessions && archiveId !in st.archives
            && ArchiveSession(st, id, archiveId, days).1 == Stored
    ensures var next := ArchiveSession(st, id, archiveId, days).0; Inv(next) && Later(st, next)
  {
    var x, next := st.sessions[id], ArchiveSession(st, id, archiveId, days).0;
    var y := x.(state := Archived);
    var middle := st.(sessions := next.sessions);
    ConcludedOk(x, y);
    SameTextsContinue(x.transcript);
    UpdateKeepsInv(st, middle, id, y);
    assert next == middle.(archives := st.archives[archiveId := ArchiveOf(id, x, days)]);
    NotYetArchived(st, id);
    StoreKeepsInv(middle, next, archiveId, ArchiveOf(id, x, days));
    StoreIsLater(st, middle, next, archiveId, ArchiveOf(id, x, days));
  }

  lemma NotYetArchived(st: State, id: Text)
    requires ArchivesOk(st) && id in st.sessions && st.sessions[id].state != Archived
    ensures forall a :: a in st.archives ==> st.archives[a].session != id
  {
    forall a | a in st.archives
      ensures st.archives[a].session != id
    {
      assert ArchiveOk(st, st.archives[a]);
    }
  }

  lemma StoreArchivesOk(st: State, next: State, archiveId: Text, a: Archive)
    requires ArchivesOk(st) && next == st.(archives := st.archives[archiveId := a])
    requires archiveId !in st.archives && ArchiveOk(st, a)
    requires forall b :: b in st.archives ==> st.archives[b].session != a.session
    ensures ArchivesOk(next)
  {
    forall b | b in next.archives
      ensures ArchiveOk(next, next.archives[b])
    {
      assert b != archiveId ==> ArchiveOk(st, st.archives[b]);
    }
  }

  lemma StoreKeepsInv(st: State, next: State, archiveId: Text, a: Archive)
    requires Inv(st) && next == st.(archives := st.archives[archiveId := a])
    requires archiveId !in st.archives && ArchiveOk(st, a) && |st.archives| < MAX_ARCHIVES
    requires forall b :: b in st.archives ==> st.archives[b].session != a.session
    ensures Inv(next)
  {
    assert SameTranscripts(st.sessions, next.sessions);
    FrameMail(st, next);
    StoreArchivesOk(st, next, archiveId, a);
    SizeInsert(st.archives, archiveId, a);
  }

  lemma StoreIsLater(st: State, middle: State, next: State, archiveId: Text, a: Archive)
    requires Later(st, middle) && middle.archives == st.archives && archiveId !in st.archives
    requires next == middle.(archives := middle.archives[archiveId := a])
    ensures Later(st, next)
  {
  }

  // ---------------------------------------------------------------- polls

  lemma RestatusForward(x: Session, i: nat, status: Status, at: Option<int>)
    requires i < |x.transcript|
    ensures Forward(x, WithStatus(x, i, status, at))
  {
  }

  lemma CountedForward(x: Session, agent: Text)
    requires ParticipantOf(x, agent).Some?
    ensures Forward(x, Counted(x, agent))
  {
    SameTextsContinue(x.transcript);
  }

  lemma LapseKeepsInv(st: State, agent: Text, p: nat)
    requires Inv(st) && BoxOk(st, agent) && p < |Box(st, agent)|
    ensures Inv(Lapse(st, agent, p)) && Later(st, Lapse(st, agent, p))
  {
    var r := Box(st, agent)[p];
    assert Placed(st, agent) && Waiting(st, agent, r);
    var x, at := st.sessions[r.session], At(st.sessions, r).deliveredAt;
    LapseKeepsMail(st, agent, p);
    LapsedOk(x, r.index, at);
    RestatusForward(x, r.index, Expired, at);
    ReplaceKeepsInv(st, Lapse(st, agent, p), r.session, WithStatus(x, r.index, Expired, at));
  }

  lemma DeliverIs(st: State, q: Poll, p: nat)
    requires BoxOk(st, q.agent) && p < |Box(st, q.agent)|
    ensures var r := Box(st, q.agent)[p];
            Replaced(st, Deliver(st, q.agent, p, q.now), r.session,
                     Counted(WithStatus(st.sessions[r.session], r.index, Delivered, Some(q.now)), q.agent))
    ensures Deliver(st, q.agent, p, q.now).index == st.index
  {
  }

  lemma DeliveredForward(x: Session, i: nat, at: Option<int>, agent: Text)
    requires i < |x.transcript| && ParticipantOf(x, agent).Some?
    ensures Forward(x, Counted(WithStatus(x, i, Delivered, at), agent))
  {
    var y := WithStatus(x, i, Delivered, at);
    RestatusForward(x, i, Delivered, at);
    CountedForward(y, agent);
    ForwardTransitive(x, y, Counted(y, agent));
  }

  lemma WaitingParty(st: State, agent: Text, r: Ref)
    requires Inv(st) && r in Box(st, agent)
    ensures Waiting(st, agent, r) && SessionOk(st.sessions[r.session])
    ensures ParticipantOf(st.sessions[r.session], agent).Some?
  {
    assert Placed(st, agent) && Waiting(st, agent, r);
    var x := st.sessions[r.session];
    assert SessionOk(x) && Proper(x, x.transcript[r.index]);
  }

  lemma DeliverKeepsInv(st: State, q: Poll, p: nat, d: nat)
    requires Inv(st) && BoxOk(st, q.agent) && p < |Box(st, q.agent)|
    requires PassedOver(st, q, p, d) && d < q.limit && !Filtered(q.filter, Box(st, q.agent)[p])
    ensures Inv(Deliver(st, q.agent, p, q.now)) && Later(st, Deliver(st, q.agent, p, q.now))
  {
    var r := Box(st, q.agent)[p];
    var x := st.sessions[r.session];
    WaitingParty(st, q.agent, r);
    DeliverKeepsMail(st, q, p, d);
    DeliveredOk(x, r.index, Some(q.now), q.agent);
    DeliveredForward(x, r.index, Some(q.now), q.agent);
    DeliverIs(st, q, p);
    ReplaceKeepsInv(st, Deliver(st, q.agent, p, q.now), r.session,
                    Counted(WithStatus(x, r.index, Delivered, Some(q.now)), q.agent));
  }

  lemma LaterRefl(st: State)
    ensures Later(st, st)
  {
    forall id | id in st.sessions
      ensures Forward(st.sessions[id], st.sessions[id])
    {
      ForwardRefl(st.sessions[id]);
    }
  }

  lemma PassedOn(st: State, q: Poll, p: nat, d: nat)
    requires PassedOver(st, q, p, d) && p < |Box(st, q.agent)|
    requires Filtered(q.filter, Box(st, q.agent)[p]) || d >= q.limit
    ensures PassedOver(st, q, p + 1, d)
  {
  }

  lemma {:induction false} ReceiveFromKeepsInv(st: State, q: Poll, p: nat, d: nat)
    requires Inv(st) && BoxOk(st, q.agent) && p <= |Box(st, q.agent)| && PassedOver(st, q, p, d)
    ensures Inv(ReceiveFrom(st, q, p, d)) && Later(st, ReceiveFrom(st, q, p, d))
    decreases |Box(st, q.agent)| - p
  {
    if p == |Box(st, q.agent)| {
      LaterRefl(st);
    } else {
      var r := Box(st, q.agent)[p];
      if IsExpired(At(st.sessions, r), q.now) {
        LapseThenKeepsInv(st, q, p, d);
      } else if Filtered(q.filter, r) || d >= q.limit {
        PassedOn(st, q, p, d);
        ReceiveFromKeepsInv(st, q, p + 1, d);
      } else {
        DeliverThenKeepsInv(st, q, p, d);
      }
    }
  }

  lemma {:induction false} LapseThenKeepsInv(st: State, q: Poll, p: nat, d: nat)
    requires Inv(st) && BoxOk(st, q.agent) && p < |Box(st, q.agent)| && PassedOver(st, q, p, d)
    requires IsExpired(At(st.sessions, Box(st, q.agent)[p]), q.now)
    ensures Inv(ReceiveFrom(st, q, p, d)) && Later(st, ReceiveFrom(st, q, p, d))
    decreases |Box(st, q.agent)| - p, 0
  {
    var next := Lapse(st, q.agent, p);
    LapseKeepsBox(st, q.agent, p);
    LapseKeepsInv(st, q.agent, p);
    ReceiveFromKeepsInv(next, q, p, d);
    LaterTransitive(st, next, ReceiveFrom(next, q, p, d));
  }

  lemma DeliverPasses(st: State, q: Poll, p: nat, d: nat)
    requires BoxOk(st, q.agent) && p < |Box(st, q.agent)| && PassedOver(st, q, p, d) && d < q.limit
    ensures var next := Deliver(st, q.agent, p, q.now);
            |Box(next, q.agent)| == |Box(st, q.agent)| - 1 && PassedOver(next, q, p, d + 1)
  {
  }

  lemma {:induction false} DeliverThenKeepsInv(st: State, q: Poll, p: nat, d: nat)
    requires Inv(st) && BoxOk(st, q.agent) && p < |Box(st, q.agent)| && PassedOver(st, q, p, d) && d < q.limit
    requires !IsExpired(At(st.sessions, Box(st, q.agent)[p]), q.now) && !Filtered(q.filter, Box(st, q.agent)[p])
    ensures Inv(ReceiveFrom(st, q, p, d)) && Later(st, ReceiveFrom(st, q, p, d))
    decreases |Box(st, q.agent)| - p, 0
  {
    var next := Deliver(st, q.agent, p, q.now);
    DeliverKeepsBox(st, q.agent, p, q.now);
    DeliverKeepsInv(st, q, p, d);
    DeliverPasses(st, q, p, d);
    ReceiveFromKeepsInv(next, q, p, d + 1);
    LaterTransitive(st, next, ReceiveFrom(next, q, p, d + 1));
  }

  lemma ReceiveKeepsInv(st: State, q: Poll)
    requires Inv(st) && BoxOk(st, q.agent)
    ensures Inv(Receive(st, q)) && Later(st, Receive(st, q))
  {
    var start := WithBox(st, q.agent);
    WithBoxKeepsMail(st, q.agent);
    assert forall a :: a in st.archives ==> ArchiveOk(st, st.archives[a]) && ArchiveOk(start, st.archives[a]);
    MailBoxesOk(start, q.agent);
    LaterRefl(st);
    ReceiveFromKeepsInv(start, q, 0, 0);
    LaterTransitive(st, start, Receive(st, q));
  }

  // ---------------------------------------------------------------- runs

  datatype Event =
    | Opens(o: Opening)
    | Joins(id: Text, agent: Text, now: int)
    | Looks(id: Text, now: int)
    | Links(id: Text, concordiaId: Text)
    | Sends(id: Text, p: Post, now: int)
    | Polls(q: Poll)
    | Concludes(id: Text, reason: Text, agent: Text, now: int)
    | Archives(id: Text, archiveId: Text, days: int)

  /** Generated identifiers are new, and floats hold the lifetimes of messages; no other call is ever made. */
  predicate Fresh(st: State, e: Event) {
    && (e.Opens? ==> e.o.id !in st.sessions)
    && (e.Sends? ==> FitsFloat(e.p.ttl))
    && (e.Archives? ==> e.archiveId !in st.archives)
  }

  ghost function Step(st: State, e: Event): State
    requires Inv(st)
  {
    if !Fresh(st, e) then st
    else
      match e
      case Opens(o) => Create(st, o).0
      case Joins(id, agent, now) => Join(st, id, agent, now).0
      case Looks(id, now) => Look(st, id, now)
      case Links(id, concordiaId) => Link(st, id, concordiaId).0
      case Sends(id, p, now) => Send(st, id, p, now).0
      case Polls(q) => MailBoxesOk(st, q.agent); Polled(st, q).0
      case Concludes(id, reason, agent, now) => ConcludeBy(st, id, reason, agent, now).0
      case Archives(id, archiveId, days) => ArchiveSession(st, id, archiveId, days).0
  }

  /** With lifetimes that floats hold no poll raises. */
  lemma PollReturns(st: State, q: Poll)
    requires Inv(st) && BoxOk(st, q.agent)
    ensures Polled(st, q) == (Receive(st, q), true)
  {
    forall i | 0 <= i < |Box(st, q.agent)|
      ensures !NoFloat(At(st.sessions, Box(st, q.agent)[i]))
    {
      var r := Box(st, q.agent)[i];
      assert SessionOk(st.sessions[r.session]) && Proper(st.sessions[r.session], At(st.sessions, r));
    }
  }

  lemma PolledKeepsInv(st: State, q: Poll)
    requires Inv(st)
    ensures BoxOk(st, q.agent) && Inv(Polled(st, q).0) && Later(st, Polled(st, q).0)
  {
    MailBoxesOk(st, q.agent);
    PollReturns(st, q);
    ReceiveKeepsInv(st, q);
  }

  lemma StepKeepsInv(st: State, e: Event)
    requires Inv(st)
    ensures Inv(Step(st, e)) && Later(st, Step(st, e))
  {
    LaterRefl(st);
    if Fresh(st, e) && Step(st, e) != st {
      match e
      case Opens(o) => CreateKeepsInv(st, o);
      case Joins(id, agent, now) => JoinKeepsInv(st, id, agent, now);
      case Looks(id, now) => LookKeepsInv(st, id, now);
      case Links(id, concordiaId) => LinkKeepsInv(st, id, concordiaId);
      case Sends(id, p, now) => SendKeepsInv(st, id, p, now);
      case Polls(q) => PolledKeepsInv(st, q);
      case Concludes(id, reason, agent, now) => ConcludeKeepsInv(st, id, reason, agent, now);
      case Archives(id, archiveId, days) => ArchiveKeepsInv(st, id, archiveId, days);
    }
  }

  /** Every run from a state that satisfies the invariant stays in it and goes forward. */
  ghost function Run(st: State, events: seq<Event>): (last: State)
    requires Inv(st)
    ensures Inv(last) && Later(st, last)
    decreases |events|
  {
    if events == [] then
      LaterRefl(st);
      st
    else
      var before := Run(st, events[..|events| - 1]);
      StepKeepsInv(before, events[|events| - 1]);
      LaterTransitive(st, before, Step(before, events[|events| - 1]));
      Step(before, events[|events| - 1])
  }

  lemma EmptyInv()
    ensures Inv(EMPTY)
  {
    forall agent
      ensures Placed(EMPTY, agent)
    {
    }
  }

  /** The relay after some calls. */
  ghost function Reached(events: seq<Event>): (st: State)
    ensures Inv(st)
  {
    EmptyInv();
    Run(EMPTY, events)
  }

  /** Every session of every reachable state, and the caps on what the relay holds. */
  lemma EverySessionInEveryRun(events: seq<Event>, id: Text)
    requires id in Reached(events).sessions
    ensures var x := Reached(events).sessions[id];
            && (x.state == Active ==> Confirmed(x)) && (x.state == Pending ==> x.transcript == [])
            && SentTotal(x) == |x.transcript| <= MAX_TRANSCRIPT_SIZE
            && ReceivedTotal(x) == DeliveredCount(x.transcript)
    ensures |Reached(events).sessions| <= MAX_SESSIONS && |Reached(events).archives| <= MAX_ARCHIVES
    ensures forall agent :: |Box(Reached(events), agent)| <= MAX_MAILBOX_SIZE
  {
    var st := Reached(events);
    assert SessionOk(st.sessions[id]);
    forall agent
      ensures |Box(st, agent)| <= MAX_MAILBOX_SIZE
    {
      assert Placed(st, agent);
    }
  }

  // ---------------------------------------------------------------- the cap on live sessions

  /** No initiator has too many live sessions at `clock`. */
  ghost predicate CapAt(sessions: map<Text, Session>, clock: int) {
    forall agent :: |LiveFor(sessions, agent, clock)| <= MAX_LIVE_PER_INITIATOR
  }

  /** The clock readings of a call, from `clock` on. */
  predicate InTime(clock: int, e: Event) {
    match e
    case Opens(o) => clock <= o.sweptAt <= o.countedAt <= o.createdAt
    case Joins(_, _, now) => clock <= now
    case Looks(_, now) => clock <= now
    case Sends(_, _, now) => clock <= now
    case Polls(q) => clock <= q.now
    case Concludes(_, _, _, now) => clock <= now
    case _ => true
  }

  function After(clock: int, e: Event): int {
    match e
    case Opens(o) => o.createdAt
    case Joins(_, _, now) => now
    case Looks(_, now) => now
    case Sends(_, _, now) => now
    case Polls(q) => q.now
    case Concludes(_, _, _, now) => now
    case _ => clock
  }

  function ClockAfter(start: int, events: seq<Event>): int {
    if events == [] then start else After(ClockAfter(start, events[..|events| - 1]), events[|events| - 1])
  }

  /** The clock never goes back. */
  predicate Monotone(start: int, events: seq<Event>) {
    events == [] ||
    (Monotone(start, events[..|events| - 1]) && InTime(ClockAfter(start, events[..|events| - 1]), events[|events| - 1]))
  }

  lemma LiveShrinks(st: State, next: State, agent: Text, clock: int, now: int)
    requires Later(st, next) && next.sessions.Keys == st.sessions.Keys && clock <= now
    ensures LiveFor(next.sessions, agent, now) <= LiveFor(st.sessions, agent, clock)
  {
    forall id | id in LiveFor(next.sessions, agent, now)
      ensures id in LiveFor(st.sessions, agent, clock)
    {
      assert Forward(st.sessions[id], next.sessions[id]);
    }
  }

  lemma CapKept(st: State, next: State, clock: int, now: int)
    requires Later(st, next) && next.sessions.Keys == st.sessions.Keys && clock <= now && CapAt(st.sessions, clock)
    ensures CapAt(next.sessions, now)
  {
    forall agent
      ensures |LiveFor(next.sessions, agent, now)| <= MAX_LIVE_PER_INITIATOR
    {
      LiveShrinks(st, next, agent, clock, now);
      Sequences.SubsetSize(LiveFor(next.sessions, agent, now), LiveFor(st.sessions, agent, clock));
    }
  }

  lemma LapseKeys(st: State, agent: Text, p: nat)
    requires p < |Box(st, agent)| && Valid(st.sessions, Box(st, agent)[p])
    ensures Lapse(st, agent, p).sessions.Keys == st.sessions.Keys
    ensures |Box(Lapse(st, agent, p), agent)| == |Box(st, agent)| - 1
  {
  }

  lemma DeliverKeys(st: State, agent: Text, p: nat, now: int)
    requires p < |Box(st, agent)| && Valid(st.sessions, Box(st, agent)[p])
    ensures Deliver(st, agent, p, now).sessions.Keys == st.sessions.Keys
    ensures |Box(Deliver(st, agent, p, now), agent)| == |Box(st, agent)| - 1
  {
  }

  lemma {:induction false} ReceiveFromKeys(st: State, q: Poll, p: nat, d: nat)
    requires BoxOk(st, q.agent) && p <= |Box(st, q.agent)|
    ensures ReceiveFrom(st, q, p, d).sessions.Keys == st.sessions.Keys
    decreases |Box(st, q.agent)| - p
  {
    if p < |Box(st, q.agent)| {
      var r := Box(st, q.agent)[p];
      if IsExpired(At(st.sessions, r), q.now) {
        LapseKeepsBox(st, q.agent, p);
        LapseKeys(st, q.agent, p);
        ReceiveFromKeys(Lapse(st, q.agent, p), q, p, d);
      } else if Filtered(q.filter, r) || d >= q.limit {
        ReceiveFromKeys(st, q, p + 1, d);
      } else {
        DeliverKeepsBox(st, q.agent, p, q.now);
        DeliverKeys(st, q.agent, p, q.now);
        ReceiveFromKeys(Deliver(st, q.agent, p, q.now), q, p, d + 1);
      }
    }
  }

  /** Only a created session adds to the dictionary. */
  lemma SendKeys(st: State, id: Text, p: Post, now: int)
    ensures Send(st, id, p, now).0.sessions.Keys == st.sessions.Keys
  {
    if id in st.sessions && !Overdue(st.sessions[id], p.from, now) && Recipient(st.sessions[id], p.from).Some? {
      RouteIs(st, id, p, now, Recipient(st.sessions[id], p.from).value);
    }
  }

  lemma JoinKeys(st: State, id: Text, agent: Text, now: int)
    ensures Join(st, id, agent, now).0.sessions.Keys == st.sessions.Keys
  {
  }

  lemma ConcludeKeys(st: State, id: Text, reason: Text, agent: Text, now: int)
    ensures ConcludeBy(st, id, reason, agent, now).0.sessions.Keys == st.sessions.Keys
  {
  }

  lemma ArchiveKeys(st: State, id: Text, archiveId: Text, days: int)
    ensures ArchiveSession(st, id, archiveId, days).0.sessions.Keys == st.sessions.Keys
  {
  }

  lemma LookKeys(st: State, id: Text, now: int)
    ensures Look(st, id, now).sessions.Keys == st.sessions.Keys
  {
  }

  lemma LinkKeys(st: State, id: Text, concordiaId: Text)
    ensures Link(st, id, concordiaId).0.sessions.Keys == st.sessions.Keys
  {
  }

  lemma StepKeys(st: State, e: Event)
    requires Inv(st) && !e.Opens?
    ensures Step(st, e).sessions.Keys == st.sessions.Keys
  {
    match e
    case Sends(id, p, now) => SendKeys(st, id, p, now);
    case Joins(id, agent, now) => JoinKeys(st, id, agent, now);
    case Concludes(id, reason, agent, now) => ConcludeKeys(st, id, reason, agent, now);
    case Archives(id, archiveId, days) => ArchiveKeys(st, id, archiveId, days);
    case Looks(id, now) => LookKeys(st, id, now);
    case Links(id, concordiaId) => LinkKeys(st, id, concordiaId);
    case Polls(q) => PollKeys(st, q);
  }

  lemma PollKeys(st: State, q: Poll)
    requires Inv(st)
    ensures BoxOk(st, q.agent) && Polled(st, q).0.sessions.Keys == st.sessions.Keys
  {
    MailBoxesOk(st, q.agent);
    PollReturns(st, q);
    ReceiveFromKeys(WithBox(st, q.agent), q, 0, 0);
  }

  lemma SweptKeepsCap(st: State, at: int, clock: int, now: int)
    requires Inv(st) && CapAt(st.sessions, clock) && clock <= now
    ensures CapAt(ObserveAll(st.sessions, at), now)
  {
    SweepKeepsInv(st, at);
    CapKept(st, st.(sessions := ObserveAll(st.sessions, at)), clock, now);
  }

  lemma CreateKeepsCap(st: State, o: Opening, clock: int)
    requires Inv(st) && o.id !in st.sessions && CapAt(st.sessions, clock) && InTime(clock, Opens(o))
    ensures CapAt(Create(st, o).0.sessions, o.createdAt)
  {
    var swept := st.(sessions := ObserveAll(st.sessions, o.sweptAt));
    if Create(st, o).0 == st {
      LaterRefl(st);
      CapKept(st, st, clock, o.createdAt);
    } else {
      SweptKeepsCap(st, o.sweptAt, clock, o.createdAt);
      if Create(st, o).1.None? {
        OpenedKeepsCap(swept, o);
      }
    }
  }

  lemma OpenedKeepsCap(st: State, o: Opening)
    requires CapAt(st.sessions, o.createdAt) && o.countedAt <= o.createdAt && o.id !in st.sessions
    requires |LiveFor(st.sessions, o.initiator, o.countedAt)| < MAX_LIVE_PER_INITIATOR
    ensures CapAt(st.sessions[o.id := NewSession(o)], o.createdAt)
  {
    var next := st.sessions[o.id := NewSession(o)];
    forall agent
      ensures |LiveFor(next, agent, o.createdAt)| <= MAX_LIVE_PER_INITIATOR
    {
      if agent == o.initiator {
        LaterRefl(st);
        LiveShrinks(st, st, agent, o.countedAt, o.createdAt);
        var before := LiveFor(st.sessions, agent, o.countedAt);
        assert LiveFor(next, agent, o.createdAt) <= before + {o.id};
        Sequences.SubsetSize(LiveFor(next, agent, o.createdAt), before + {o.id});
      } else {
        assert LiveFor(next, agent, o.createdAt) == LiveFor(st.sessions, agent, o.createdAt);
      }
    }
  }

  lemma StepKeepsCap(st: State, e: Event, clock: int)
    requires Inv(st) && CapAt(st.sessions, clock) && InTime(clock, e)
    ensures CapAt(Step(st, e).sessions, After(clock, e))
  {
    StepKeepsInv(st, e);
    if e.Opens? && Fresh(st, e) {
      CreateKeepsCap(st, e.o, clock);
    } else if e.Opens? {
      LaterRefl(st);
      CapKept(st, st, clock, After(clock, e));
    } else {
      StepKeys(st, e);
      CapKept(st, Step(st, e), clock, After(clock, e));
    }
  }

  /** Under a clock that never goes back, nobody has more than a hundred live sessions. */
  lemma {:induction false} RunKeepsCap(start: int, events: seq<Event>)
    requires Monotone(start, events)
    ensures CapAt(Reached(events).sessions, ClockAfter(start, events))
  {
    EmptyInv();
    if events == [] {
      forall agent
        ensures |LiveFor(EMPTY.sessions, agent, start)| <= MAX_LIVE_PER_INITIATOR
      {
        assert LiveFor(EMPTY.sessions, agent, start) == {};
      }
    } else {
      var init := events[..|events| - 1];
      RunKeepsCap(start, init);
      StepKeepsCap(Run(EMPTY, init), events[|events| - 1], ClockAfter(start, init));
    }
  }

  // ---------------------------------------------------------------- the main statements

  /** Conservation, for every run: each message in a transcript has exactly one fate. */
  lemma ConservationInEveryRun(events: seq<Event>, r: Ref)
    requires Valid(Reached(events).sessions, r)
    ensures var st := Reached(events);
            var to := At(st.sessions, r).to;
            multiset(Box(st, to))[r] + multiset(Log(st, to))[r] + Times(r in st.expired) + Times(r in st.dropped) == 1
  {
    EveryMessageHasOneFate(Reached(events), r);
  }

  /** Deliveries in every run: per recipient and session in send order, whatever the filters and limits. */
  lemma DeliveryOrderInEveryRun(events: seq<Event>, agent: Text, i: nat, j: nat)
    requires i < j < |Log(Reached(events), agent)|
    requires Log(Reached(events), agent)[i].session == Log(Reached(events), agent)[j].session
    ensures Log(Reached(events), agent)[i].index < Log(Reached(events), agent)[j].index
  {
    DeliveriesInSendOrder(Reached(events), agent, i, j);
  }

  /** A session that is over stays over, and its transcript keeps every text it had. */
  lemma TerminalSessionsStayFrozen(st: State, events: seq<Event>, id: Text)
    requires Inv(st) && id in st.sessions && !Live(st.sessions[id])
    ensures id in Run(st, events).sessions && !Live(Run(st, events).sessions[id])
    ensures var before, after := st.sessions[id].transcript, Run(st, events).sessions[id].transcript;
            |after| == |before| && Continues(before, after)
  {
    assert Forward(st.sessions[id], Run(st, events).sessions[id]);
  }

  /** A relayed message is never lost from, or altered in, the transcript that a later reader sees. */
  lemma TranscriptsOnlyGrow(st: State, events: seq<Event>, id: Text)
    requires Inv(st) && id in st.sessions
    ensures id in Run(st, events).sessions
    ensures Continues(st.sessions[id].transcript, Run(st, events).sessions[id].transcript)
  {
    assert Forward(st.sessions[id], Run(st, events).sessions[id]);
  }
}
