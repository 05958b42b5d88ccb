/** What the relay's operations do to a session, member by member. */
module RelayMeaning {
  import opened Wrappers
  import opened Unicode
  import opened Relay

  // ---------------------------------------------------------------- time

  /** Pending or active, and its time is up. */
  predicate RunOut(x: Session, now: int) {
    (x.state == Pending || x.state == Active) && x.createdAt + x.ttl < now
  }

  /** A responder is there who never confirmed, and an attestation was wanted. */
  predicate SkipsAttestation(x: Session) {
    x.autoAttest && x.responder.Some? && !x.responder.value.confirmed
  }

  /** `y` is `x`, ended so: nothing else has changed. */
  predicate Ended(x: Session, y: Session, state: SessionState, reason: Text, now: int) {
    && y.state == state && y.concludedAt == Some(now) && y.reason == Some(reason)
    && y.autoAttestSkipped == (x.autoAttestSkipped || SkipsAttestation(x))
    && y.transcript == x.transcript && y.initiator == x.initiator && y.responder == x.responder
    && y.createdAt == x.createdAt && y.ttl == x.ttl && y.concordiaId == x.concordiaId && y.autoAttest == x.autoAttest
  }

  /** A session that is looked at has timed out exactly when it was live and its time is up. */
  lemma ObservedIs(x: Session, now: int)
    ensures if RunOut(x, now) then Ended(x, Observed(x, now), TimedOut, Lit("session_timeout"), now)
            else Observed(x, now) == x
  {
  }

  /** The sweep does that to every session, and leaves each where it is. */
  lemma SweptIs(sessions: map<Text, Session>, now: int, id: Text)
    ensures ObserveAll(sessions, now).Keys == sessions.Keys
    ensures id in sessions ==>
              if RunOut(sessions[id], now)
              then Ended(sessions[id], ObserveAll(sessions, now)[id], TimedOut, Lit("session_timeout"), now)
              else ObserveAll(sessions, now)[id] == sessions[id]
  {
    if id in sessions {
      ObservedIs(sessions[id], now);
    }
  }

  // ---------------------------------------------------------------- creation

  /** No id, or an empty one. */
  predicate Absent(t: Option<Text>) {
    t.None? || t.value == []
  }

  /** A pending session with nothing in it, its responder reserved if one was named. */
  predicate JustOpened(x: Session, o: Opening) {
    && x.state == Pending && x.transcript == [] && x.createdAt == o.createdAt && x.ttl == o.ttl
    && x.initiator.agentId == o.initiator && x.initiator.confirmed && x.initiator.sent == x.initiator.received == 0
    && (if Absent(o.responder) then x.responder.None?
        else x.responder == Some(Participant(o.responder.value, false, 0, 0)))
    && x.concordiaId == o.concordiaId && x.autoAttest == o.autoAttest && !x.autoAttestSkipped
    && x.concludedAt.None? && x.reason.None?
  }

  /** The agent's sessions that are live and in time. */
  function LiveIds(sessions: map<Text, Session>, agent: Text, now: int): set<Text> {
    set id | id in sessions && sessions[id].initiator.agentId == agent
             && (sessions[id].state == Pending || sessions[id].state == Active)
             && now <= sessions[id].createdAt + sessions[id].ttl
  }

  /** What stands in the way of an opening, in the order in which it is looked for. */
  ghost predicate Hindered(st: State, o: Opening, error: CreateError) {
    var swept := ObserveAll(st.sessions, o.sweptAt);
    match error
    case SelfSession => o.responder == Some(o.initiator) && o.initiator != []
    case TtlTooLong => o.ttl > 604800
    case LimitReached => |swept| >= 10000 || |LiveIds(swept, o.initiator, o.countedAt)| >= 100
  }

  lemma RefusedIff(st: State, o: Opening)
    ensures Create(st, o).1.None? <==> forall error :: !Hindered(st, o, error)
    ensures Create(st, o).1.Some? ==> Hindered(st, o, Create(st, o).1.value)
  {
    var swept := ObserveAll(st.sessions, o.sweptAt);
    assert LiveFor(swept, o.initiator, o.countedAt) == LiveIds(swept, o.initiator, o.countedAt);
    if Create(st, o).1.None? {
      forall error
        ensures !Hindered(st, o, error)
      {
      }
    } else {
      assert Hindered(st, o, Create(st, o).1.value);
    }
  }

  /** A session is created exactly when nothing stands in the way; it is just opened, and found by its own id. */
  lemma CreateIff(st: State, o: Opening)
    ensures Create(st, o).1.None? <==> forall error :: !Hindered(st, o, error)
    ensures Create(st, o).1.Some? ==> Hindered(st, o, Create(st, o).1.value)
    ensures Create(st, o).1.None? ==>
              var next := Create(st, o).0;
              && o.id in next.sessions && JustOpened(next.sessions[o.id], o)
              && (forall id :: id in st.sessions && id != o.id ==>
                    id in next.sessions && next.sessions[id] == Observed(st.sessions[id], o.sweptAt))
              && next.index == (if Absent(o.concordiaId) then st.index else st.index[o.concordiaId.value := o.id])
              && next.mailboxes == st.mailboxes && next.archives == st.archives
  {
    RefusedIff(st, o);
  }

  // ---------------------------------------------------------------- joining and concluding

  /** The agent may join: the session is pending and in time, and open to it. */
  predicate MayJoin(x: Session, agent: Text, now: int) {
    && x.state == Pending && now <= x.createdAt + x.ttl
    && (x.responder.None? || x.responder.value.agentId == agent)
  }

  /** Joining happens exactly then, and makes the agent the confirmed responder of an active session. */
  lemma JoinIff(st: State, id: Text, agent: Text, now: int)
    ensures Join(st, id, agent, now).1 <==> id in st.sessions && MayJoin(st.sessions[id], agent, now)
    ensures Join(st, id, agent, now).1 ==>
              var x, next := st.sessions[id], Join(st, id, agent, now).0;
              && id in next.sessions
              && var y := next.sessions[id];
                 && y.state == Active && y.responder.Some?
                 && y.responder.value.agentId == agent && y.responder.value.confirmed
                 && (x.responder.None? ==> y.responder.value.sent == y.responder.value.received == 0)
                 && y.initiator == x.initiator && y.transcript == x.transcript
                 && y.createdAt == x.createdAt && y.ttl == x.ttl
  {
  }

  /** The agent is a party of the session, and confirmed. */
  predicate IsConfirmed(x: Session, agent: Text) {
    if x.initiator.agentId == agent then x.initiator.confirmed
    else x.responder.Some? && x.responder.value.agentId == agent && x.responder.value.confirmed
  }

  /** A confirmed party concludes what is not yet concluded or archived; everybody else changes nothing. */
  lemma ConcludeIff(st: State, id: Text, reason: Text, agent: Text, now: int)
    ensures ConcludeBy(st, id, reason, agent, now).1 <==> id in st.sessions && IsConfirmed(st.sessions[id], agent)
    ensures var next := ConcludeBy(st, id, reason, agent, now).0;
            if id in st.sessions && IsConfirmed(st.sessions[id], agent)
               && st.sessions[id].state != Concluded && st.sessions[id].state != Archived
            then && id in next.sessions && Ended(st.sessions[id], next.sessions[id], Concluded, reason, now)
                 && next == st.(sessions := st.sessions[id := next.sessions[id]])
            else next == st
  {
  }

  /** What an archive holds, and that archiving marks the session and does nothing else. */
  lemma ArchiveIs(st: State, id: Text, archiveId: Text, days: int)
    ensures ArchiveSession(st, id, archiveId, days).1 == Stored <==>
            && id in st.sessions && (st.sessions[id].state == Concluded || st.sessions[id].state == TimedOut)
            && |st.archives| < 50000
    ensures ArchiveSession(st, id, archiveId, days).1 == Stored ==>
              var x, next := st.sessions[id], ArchiveSession(st, id, archiveId, days).0;
              && archiveId in next.archives
              && var a := next.archives[archiveId];
                 && a.session == id && a.messages == x.transcript && a.reason == x.reason
                 && a.concordiaId == x.concordiaId && a.retentionDays == days
                 && a.parties == [x.initiator.agentId] + (if x.responder.None? then [] else [x.responder.value.agentId])
                 && next.sessions == st.sessions[id := x.(state := Archived)]
  {
  }

  // ---------------------------------------------------------------- sending

  /** Nothing keeps the agent from sending: confirmed, live, in time, with room, and the other party confirmed. */
  predicate MaySendNow(x: Session, from: Text, now: int) {
    && IsConfirmed(x, from) && (x.state == Pending || x.state == Active) && now <= x.createdAt + x.ttl
    && |x.transcript| < 10000 && x.responder.Some? && x.responder.value.confirmed
  }

  /** The party that gets what `from` sends. */
  function OtherParty(x: Session, from: Text): Text
    requires x.responder.Some?
  {
    if x.initiator.agentId == from then x.responder.value.agentId else x.initiator.agentId
  }

  /** A send is confirmed exactly when the agent may send and the other party's mailbox has room. */
  lemma SendIff(st: State, id: Text, p: Post, now: int)
    ensures Send(st, id, p, now).1.Some? <==>
            && id in st.sessions && MaySendNow(st.sessions[id], p.from, now)
            && |Box(st, OtherParty(st.sessions[id], p.from))| < 1000
  {
    if id in st.sessions {
      RecipientIff(st.sessions[id], p.from);
    }
  }

  lemma RecipientIff(x: Session, from: Text)
    ensures Recipient(x, from).Some? <==>
            && IsConfirmed(x, from) && (x.state == Pending || x.state == Active) && |x.transcript| < 10000
            && x.responder.Some? && x.responder.value.confirmed
    ensures Recipient(x, from).Some? ==> Recipient(x, from).value == OtherParty(x, from)
  {
  }
}
