/** What is relayed is what was sent: contents, parties and times of relayed messages. */
module RelayContents {
  import opened Wrappers
  import opened Unicode
  import opened Relay
  import opened RelayMail
  import opened RelayRuns

  /** The message carries what was posted. */
  predicate Contents(m: Message, p: Post) {
    && m.id == p.id && m.from == p.from && m.kind == p.kind && m.payload == p.payload
    && m.createdAt == p.createdAt && m.ttl == p.ttl
  }

  /** From one party of the session to the other. */
  predicate BetweenParties(x: Session, m: Message) {
    && x.responder.Some?
    && if m.from == x.initiator.agentId then m.to == x.responder.value.agentId
       else m.from == x.responder.value.agentId && m.to == x.initiator.agentId
  }

  /** What a send leaves at the end of the transcript, and in the recipient's mailbox. */
  lemma SentIsPosted(st: State, id: Text, p: Post, now: int)
    requires Send(st, id, p, now).1.Some?
    ensures id in st.sessions && id in Send(st, id, p, now).0.sessions
    ensures var (next, sent) := Send(st, id, p, now);
            var before, after := st.sessions[id], next.sessions[id];
            && sent == Some(Ref(id, |before.transcript|)) && |after.transcript| == |before.transcript| + 1
            && after.transcript[..|before.transcript|] == before.transcript
            && var m := after.transcript[|before.transcript|];
               && Contents(m, p) && BetweenParties(before, m) && m.status == Queued && m.deliveredAt.None?
               && Box(next, m.to) == Box(st, m.to) + [sent.value]
               && (forall agent :: agent != m.to ==> Box(next, agent) == Box(st, agent))
  {
  }

  /** A post that is accepted concludes the session exactly for the four closing kinds, for that reason. */
  lemma SendConcludesIff(st: State, id: Text, p: Post, now: int)
    requires Send(st, id, p, now).1.Some?
    ensures id in Send(st, id, p, now).0.sessions && id in st.sessions
    ensures var before, after := st.sessions[id], Send(st, id, p, now).0.sessions[id];
            if p.kind in [Lit("negotiate.accept"), Lit("negotiate.reject"), Lit("negotiate.withdraw"),
                          Lit("negotiate.commit")]
            then after.state == Concluded && after.concludedAt == Some(now) && after.reason == Some(p.kind)
            else after.state == before.state && after.concludedAt == before.concludedAt && after.reason == before.reason
  {
  }

  // ---------------------------------------------------------------- what was posted, by message

  type Posts = map<Ref, Post>

  /** The history of posts after one more event: a post that lengthened its transcript is recorded there. */
  function Recorded(st: State, next: State, e: Event, posts: Posts): Posts {
    if e.Sends? && e.id in st.sessions && e.id in next.sessions
       && |next.sessions[e.id].transcript| > |st.sessions[e.id].transcript|
    then posts[Ref(e.id, |st.sessions[e.id].transcript|) := e.p]
    else posts
  }

  ghost function PostsAfter(events: seq<Event>): Posts
    decreases |events|
  {
    if events == [] then map[]
    else
      var init, e := events[..|events| - 1], events[|events| - 1];
      Recorded(Reached(init), Step(Reached(init), e), e, PostsAfter(init))
  }

  /** Every message of every transcript is one of the posts, sent from party to party. */
  ghost predicate Faithful(st: State, posts: Posts) {
    forall r :: Valid(st.sessions, r) ==> Posted(st, posts, r)
  }

  predicate Posted(st: State, posts: Posts, r: Ref) {
    && Valid(st.sessions, r) && r in posts
    && Contents(At(st.sessions, r), posts[r]) && BetweenParties(st.sessions[r.session], At(st.sessions, r))
  }

  // ---------------------------------------------------------------- only sends add messages

  ghost predicate NoneAdded(before: map<Text, Session>, after: map<Text, Session>) {
    forall r :: Valid(after, r) ==> Valid(before, r)
  }

  lemma MarksAddNothing(s: State, r: Ref, agent: Text, now: int)
    requires Valid(s.sessions, r)
    ensures NoneAdded(s.sessions, MarkExpired(s, r).sessions)
    ensures NoneAdded(s.sessions, MarkDelivered(s, r, agent, now).sessions)
  {
    StatusAddsNothing(s.sessions, r, Expired, At(s.sessions, r).deliveredAt);
    StatusAddsNothing(s.sessions, r, Delivered, Some(now));
    CountAddsNothing(SetStatus(s.sessions, r, Delivered, Some(now)), r.session, agent);
  }

  lemma StatusAddsNothing(sessions: map<Text, Session>, r: Ref, status: Status, at: Option<int>)
    requires Valid(sessions, r)
    ensures NoneAdded(sessions, SetStatus(sessions, r, status, at))
  {
  }

  lemma CountAddsNothing(sessions: map<Text, Session>, id: Text, agent: Text)
    requires id in sessions
    ensures NoneAdded(sessions, CountReceived(sessions, id, agent))
  {
  }

  lemma {:induction false} ReceiveAddsNothing(st: State, q: Poll, p: nat, d: nat)
    requires BoxOk(st, q.agent) && p <= |Box(st, q.agent)|
    ensures NoneAdded(st.sessions, ReceiveFrom(st, q, p, d).sessions)
    decreases |Box(st, q.agent)| - p
  {
    if p < |Box(st, q.agent)| {
      var r := Box(st, q.agent)[p];
      MarksAddNothing(st, r, q.agent, q.now);
      if IsExpired(At(st.sessions, r), q.now) {
        LapseKeepsBox(st, q.agent, p);
        LapseKeys(st, q.agent, p);
        ReceiveAddsNothing(Lapse(st, q.agent, p), q, p, d);
      } else if Filtered(q.filter, r) || d >= q.limit {
        ReceiveAddsNothing(st, q, p + 1, d);
      } else {
        DeliverKeepsBox(st, q.agent, p, q.now);
        DeliverKeys(st, q.agent, p, q.now);
        ReceiveAddsNothing(Deliver(st, q.agent, p, q.now), q, p, d + 1);
      }
    }
  }

  lemma CreateAddsNothing(st: State, o: Opening)
    requires o.id !in st.sessions
    ensures NoneAdded(st.sessions, Create(st, o).0.sessions)
  {
  }

  lemma JoinAddsNothing(st: State, id: Text, agent: Text, now: int)
    ensures NoneAdded(st.sessions, Join(st, id, agent, now).0.sessions)
  {
  }

  lemma ConcludeAddsNothing(st: State, id: Text, reason: Text, agent: Text, now: int)
    ensures NoneAdded(st.sessions, ConcludeBy(st, id, reason, agent, now).0.sessions)
  {
  }

  lemma ArchiveAddsNothing(st: State, id: Text, archiveId: Text, days: int)
    ensures NoneAdded(st.sessions, ArchiveSession(st, id, archiveId, days).0.sessions)
  {
  }

  lemma LookAddsNothing(st: State, id: Text, now: int)
    ensures NoneAdded(st.sessions, Look(st, id, now).sessions)
  {
  }

  lemma LinkAddsNothing(st: State, id: Text, concordiaId: Text)
    ensures NoneAdded(st.sessions, Link(st, id, concordiaId).0.sessions)
  {
  }

  lemma PollAddsNothing(st: State, q: Poll)
    requires Inv(st)
    ensures BoxOk(st, q.agent) && NoneAdded(st.sessions, Polled(st, q).0.sessions)
  {
    MailBoxesOk(st, q.agent);
    PollReturns(st, q);
    ReceiveAddsNothing(WithBox(st, q.agent), q, 0, 0);
  }

  lemma FirstKindsAddNothing(st: State, e: Event)
    requires Inv(st) && Fresh(st, e) && (e.Opens? || e.Joins? || e.Looks?)
    ensures NoneAdded(st.sessions, Step(st, e).sessions)
  {
    match e
    case Opens(o) => CreateAddsNothing(st, o);
    case Joins(id, agent, now) => JoinAddsNothing(st, id, agent, now);
    case Looks(id, now) => LookAddsNothing(st, id, now);
  }

  lemma LinkStepAddsNothing(st: State, e: Event)
    requires Inv(st) && Fresh(st, e) && e.Links?
    ensures NoneAdded(st.sessions, Step(st, e).sessions)
  {
    LinkAddsNothing(st, e.id, e.concordiaId);
  }

  lemma ConcludeStepAddsNothing(st: State, e: Event)
    requires Inv(st) && Fresh(st, e) && e.Concludes?
    ensures NoneAdded(st.sessions, Step(st, e).sessions)
  {
    ConcludeAddsNothing(st, e.id, e.reason, e.agent, e.now);
  }

  lemma ArchiveStepAddsNothing(st: State, e: Event)
    requires Inv(st) && Fresh(st, e) && e.Archives?
    ensures NoneAdded(st.sessions, Step(st, e).sessions)
  {
    ArchiveAddsNothing(st, e.id, e.archiveId, e.days);
  }

  lemma OthersAddNothing(st: State, e: Event)
    requires Inv(st) && !e.Sends?
    ensures NoneAdded(st.sessions, Step(st, e).sessions)
  {
    if Fresh(st, e) {
      if e.Polls? {
        PollAddsNothing(st, e.q);
      } else if e.Opens? || e.Joins? || e.Looks? {
        FirstKindsAddNothing(st, e);
      } else if e.Links? {
        LinkStepAddsNothing(st, e);
      } else if e.Concludes? {
        ConcludeStepAddsNothing(st, e);
      } else {
        ArchiveStepAddsNothing(st, e);
      }
    }
  }

  lemma RoutedIsPosted(x: Session, p: Post, to: Text, box: nat, now: int)
    requires Recipient(x, p.from) == Some(to)
    ensures var y, m := RoutedSession(x, p, to, box, now), MessageOf(p, to);
            Contents(m, p) && BetweenParties(y, m) && y.transcript == x.transcript + [m]
  {
  }

  lemma ReplacedAdds(st: State, next: State, id: Text, y: Session, m: Message, r: Ref)
    requires Replaced(st, next, id, y) && y.transcript == st.sessions[id].transcript + [m]
    requires Valid(next.sessions, r) && !Valid(st.sessions, r)
    ensures r == Ref(id, |st.sessions[id].transcript|) && At(next.sessions, r) == m && next.sessions[id] == y
  {
  }

  lemma UnroutedAdds(st: State, id: Text, p: Post, now: int)
    requires id !in st.sessions || Overdue(st.sessions[id], p.from, now) || Recipient(st.sessions[id], p.from).None?
    ensures NoneAdded(st.sessions, Send(st, id, p, now).0.sessions)
  {
  }

  /** A send adds nothing or, at the end of its session, the message posted. */
  lemma SendAdds(st: State, id: Text, p: Post, now: int, r: Ref)
    requires Valid(Send(st, id, p, now).0.sessions, r) && !Valid(st.sessions, r)
    ensures id in st.sessions && r == Ref(id, |st.sessions[id].transcript|)
    ensures var next := Send(st, id, p, now).0;
            && |next.sessions[id].transcript| > |st.sessions[id].transcript|
            && Contents(At(next.sessions, r), p) && BetweenParties(next.sessions[id], At(next.sessions, r))
  {
    if id !in st.sessions || Overdue(st.sessions[id], p.from, now) || Recipient(st.sessions[id], p.from).None? {
      UnroutedAdds(st, id, p, now);
    } else {
      var x, next, to := st.sessions[id], Send(st, id, p, now).0, Recipient(st.sessions[id], p.from).value;
      RouteIs(st, id, p, now, to);
      RoutedIsPosted(x, p, to, |Box(st, to)|, now);
      ReplacedAdds(st, next, id, RoutedSession(x, p, to, |Box(st, to)|, now), MessageOf(p, to), r);
    }
  }

  // ---------------------------------------------------------------- every run

  lemma OldStayPosted(st: State, next: State, posts: Posts, r: Ref)
    requires Inv(st) && Later(st, next) && Valid(st.sessions, r) && Posted(st, posts, r)
    ensures Posted(next, posts, r)
  {
    var x, y := st.sessions[r.session], next.sessions[r.session];
    assert SessionOk(x) && Forward(x, y);
    assert SameText(x.transcript[r.index], y.transcript[r.index]);
  }

  lemma SendKeepsFaithful(st: State, next: State, e: Event, posts: Posts)
    requires Inv(st) && Faithful(st, posts) && Later(st, next) && e.Sends? && next == Send(st, e.id, e.p, e.now).0
    ensures Faithful(next, Recorded(st, next, e, posts))
  {
    var more := Recorded(st, next, e, posts);
    forall r | Valid(next.sessions, r)
      ensures Posted(next, more, r)
    {
      if Valid(st.sessions, r) {
        OldStayPosted(st, next, posts, r);
      } else {
        SendAdds(st, e.id, e.p, e.now, r);
      }
    }
  }

  lemma OthersKeepFaithful(st: State, next: State, posts: Posts)
    requires Inv(st) && Faithful(st, posts) && Later(st, next) && NoneAdded(st.sessions, next.sessions)
    ensures Faithful(next, posts)
  {
    forall r | Valid(next.sessions, r)
      ensures Posted(next, posts, r)
    {
      OldStayPosted(st, next, posts, r);
    }
  }

  lemma StepKeepsFaithful(st: State, e: Event, posts: Posts)
    requires Inv(st) && Faithful(st, posts)
    ensures Faithful(Step(st, e), Recorded(st, Step(st, e), e, posts))
  {
    StepKeepsInv(st, e);
    if !e.Sends? {
      OthersAddNothing(st, e);
      OthersKeepFaithful(st, Step(st, e), posts);
    } else if Fresh(st, e) {
      SendKeepsFaithful(st, Step(st, e), e, posts);
    }
  }

  lemma {:induction false} RunIsFaithful(events: seq<Event>)
    ensures Faithful(Reached(events), PostsAfter(events))
    decreases |events|
  {
    if events != [] {
      var init, e := events[..|events| - 1], events[|events| - 1];
      RunIsFaithful(init);
      StepKeepsFaithful(Reached(init), e, PostsAfter(init));
    }
  }

  // ---------------------------------------------------------------- what a poll hands over

  /** The message was handed over by this poll. */
  predicate HandedBy(st: State, q: Poll, r: Ref) {
    && Valid(st.sessions, r)
    && var m := At(st.sessions, r);
       && m.to == q.agent && m.status == Delivered && m.deliveredAt == Some(q.now)
       && q.now <= m.createdAt + m.ttl
       && (q.filter.None? || q.filter.value == [] || r.session == q.filter.value)
  }

  /** So was everything beyond the first `n` deliveries. */
  ghost predicate AllHandedBy(st: State, q: Poll, n: nat) {
    n <= |Log(st, q.agent)| && forall k :: n <= k < |Log(st, q.agent)| ==> HandedBy(st, q, Log(st, q.agent)[k])
  }

  lemma LapseKeepsHanded(st: State, q: Poll, p: nat, n: nat)
    requires MailInv(st) && BoxOk(st, q.agent) && p < |Box(st, q.agent)| && AllHandedBy(st, q, n)
    ensures AllHandedBy(Lapse(st, q.agent, p), q, n)
  {
    var next := Lapse(st, q.agent, p);
    assert Placed(st, q.agent);
    InOrderRemove(Log(st, q.agent), Box(st, q.agent), p);
    forall k | n <= k < |Log(next, q.agent)|
      ensures HandedBy(next, q, Log(next, q.agent)[k])
    {
      assert HandedBy(st, q, Log(st, q.agent)[k]) && Log(st, q.agent)[k] in Log(st, q.agent);
    }
  }

  lemma DeliverHands(st: State, q: Poll, p: nat, n: nat)
    requires MailInv(st) && BoxOk(st, q.agent) && p < |Box(st, q.agent)| && AllHandedBy(st, q, n)
    requires var r := Box(st, q.agent)[p]; !IsExpired(At(st.sessions, r), q.now) && !Filtered(q.filter, r)
    ensures AllHandedBy(Deliver(st, q.agent, p, q.now), q, n)
  {
    var next, r := Deliver(st, q.agent, p, q.now), Box(st, q.agent)[p];
    assert Placed(st, q.agent) && Waiting(st, q.agent, r);
    InOrderRemove(Log(st, q.agent), Box(st, q.agent), p);
    assert Log(next, q.agent) == Log(st, q.agent) + [r];
    DeliveredHanded(st, q, p);
    forall k | n <= k < |Log(st, q.agent)|
      ensures HandedBy(next, q, Log(st, q.agent)[k])
    {
      var other := Log(st, q.agent)[k];
      assert HandedBy(st, q, other) && other in Log(st, q.agent);
      OtherStaysHanded(st, q, p, other);
    }
  }

  lemma DeliveredHanded(st: State, q: Poll, p: nat)
    requires p < |Box(st, q.agent)| && Waiting(st, q.agent, Box(st, q.agent)[p])
    requires var r := Box(st, q.agent)[p]; !IsExpired(At(st.sessions, r), q.now) && !Filtered(q.filter, r)
    ensures HandedBy(Deliver(st, q.agent, p, q.now), q, Box(st, q.agent)[p])
  {
  }

  lemma OtherStaysHanded(st: State, q: Poll, p: nat, r: Ref)
    requires p < |Box(st, q.agent)| && Valid(st.sessions, Box(st, q.agent)[p]) && r != Box(st, q.agent)[p]
    requires HandedBy(st, q, r)
    ensures HandedBy(Deliver(st, q.agent, p, q.now), q, r)
  {
  }

  lemma {:induction false} ReceiveHands(st: State, q: Poll, p: nat, d: nat, n: nat)
    requires MailInv(st) && BoxOk(st, q.agent) && p <= |Box(st, q.agent)| && PassedOver(st, q, p, d)
    requires AllHandedBy(st, q, n)
    ensures AllHandedBy(ReceiveFrom(st, q, p, d), q, n)
    decreases |Box(st, q.agent)| - p
  {
    if p < |Box(st, q.agent)| {
      var r := Box(st, q.agent)[p];
      if IsExpired(At(st.sessions, r), q.now) {
        LapseKeepsHanded(st, q, p, n);
        LapseThenHands(st, q, p, d, n);
      } else if Filtered(q.filter, r) || d >= q.limit {
        PassedOn(st, q, p, d);
        ReceiveHands(st, q, p + 1, d, n);
      } else {
        DeliverHands(st, q, p, n);
        DeliverThenHands(st, q, p, d, n);
      }
    }
  }

  lemma {:induction false} LapseThenHands(st: State, q: Poll, p: nat, d: nat, n: nat)
    requires MailInv(st) && BoxOk(st, q.agent) && p < |Box(st, q.agent)| && PassedOver(st, q, p, d)
    requires IsExpired(At(st.sessions, Box(st, q.agent)[p]), q.now) && AllHandedBy(Lapse(st, q.agent, p), q, n)
    ensures AllHandedBy(ReceiveFrom(st, q, p, d), q, n)
    decreases |Box(st, q.agent)| - p, 0
  {
    LapseKeepsBox(st, q.agent, p);
    LapseKeys(st, q.agent, p);
    LapseKeepsMail(st, q.agent, p);
    LapsePasses(st, q, p, d);
    ReceiveHands(Lapse(st, q.agent, p), q, p, d, n);
  }

  lemma LapsePasses(st: State, q: Poll, p: nat, d: nat)
    requires BoxOk(st, q.agent) && p < |Box(st, q.agent)| && PassedOver(st, q, p, d)
    ensures PassedOver(Lapse(st, q.agent, p), q, p, d)
  {
  }

  lemma {:induction false} DeliverThenHands(st: State, q: Poll, p: nat, d: nat, n: nat)
    requires MailInv(st) && BoxOk(st, q.agent) && p < |Box(st, q.agent)| && PassedOver(st, q, p, d) && d < q.limit
    requires !IsExpired(At(st.sessions, Box(st, q.agent)[p]), q.now) && !Filtered(q.filter, Box(st, q.agent)[p])
    requires AllHandedBy(Deliver(st, q.agent, p, q.now), q, n)
    ensures AllHandedBy(ReceiveFrom(st, q, p, d), q, n)
    decreases |Box(st, q.agent)| - p, 0
  {
    DeliverKeepsBox(st, q.agent, p, q.now);
    DeliverKeys(st, q.agent, p, q.now);
    DeliverKeepsMail(st, q, p, d);
    DeliverPasses(st, q, p, d);
    ReceiveHands(Deliver(st, q.agent, p, q.now), q, p, d + 1, n);
  }

  /** Everything a poll hands over is addressed to the caller, in time, of the session asked for, and marked. */
  lemma PollHandsOver(st: State, q: Poll)
    requires MailInv(st) && BoxOk(st, q.agent)
    ensures AllHandedBy(Receive(st, q), q, |Log(st, q.agent)|)
  {
    WithBoxKeepsMail(st, q.agent);
    ReceiveHands(WithBox(st, q.agent), q, 0, 0, |Log(st, q.agent)|);
  }

  /**
   The promise of the relay, over every run: each message that a poll hands over has the
   contents of the post that made it, and went from the sender to the other party, who polls.
   */
  lemma HandedOverIsPosted(events: seq<Event>, q: Poll, k: nat)
    ensures BoxOk(Reached(events), q.agent)
    ensures var next := Polled(Reached(events), q).0;
            |Log(Reached(events), q.agent)| <= k < |Log(next, q.agent)| ==>
            var r := Log(next, q.agent)[k];
            && HandedBy(next, q, r) && r in PostsAfter(events) && Contents(At(next.sessions, r), PostsAfter(events)[r])
            && BetweenParties(next.sessions[r.session], At(next.sessions, r))
  {
    var st := Reached(events);
    PollAddsNothing(st, q);
    PollReturns(st, q);
    PollHandsOver(st, q);
    PolledKeepsInv(st, q);
    RunIsFaithful(events);
    var next := Polled(st, q).0;
    if |Log(st, q.agent)| <= k < |Log(next, q.agent)| {
      var r := Log(next, q.agent)[k];
      assert HandedBy(next, q, r);
      OldStayPosted(st, next, PostsAfter(events), r);
    }
  }
}
