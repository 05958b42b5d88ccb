/** Messages that stay in a transcript though their sender is told that nothing was sent. */
module RelayDrops {
  import opened Wrappers
  import opened Unicode
  import opened PythonValues
  import opened FloatRange
  import opened Relay
  import RelayRuns

  /** The session's transcript has one message more than before. */
  predicate Grew(st: State, next: State, id: Text) {
    id in st.sessions && id in next.sessions
    && |next.sessions[id].transcript| == |st.sessions[id].transcript| + 1
  }

  /** The sender may send to `to` now: nothing but the recipient's mailbox can be in the way. */
  predicate MaySend(st: State, id: Text, from: Text, to: Text, now: int) {
    && id in st.sessions
    && var x := st.sessions[id];
       && Live(x) && !IsTimedOut(x, now) && |x.transcript| < MAX_TRANSCRIPT_SIZE
       && ParticipantOf(x, from).Some? && ParticipantOf(x, from).value.confirmed && Counterparty(x, from) == Some(to)
  }

  /** A send is kept and denied exactly when only the recipient's full mailbox stops it. */
  lemma KeptAndDeniedIff(st: State, id: Text, p: Post, now: int)
    ensures var (next, sent) := Send(st, id, p, now);
            (sent.None? && Grew(st, next, id) <==>
             exists to :: MaySend(st, id, p.from, to, now) && |Box(st, to)| >= MAX_MAILBOX_SIZE)
  {
    if id in st.sessions && !Overdue(st.sessions[id], p.from, now) {
      match Recipient(st.sessions[id], p.from)
      case Some(to) => assert MaySend(st, id, p.from, to, now);
      case None =>
    }
  }

  /** Such a message is dropped for good: it is in the transcript, and in no mailbox. */
  lemma KeptAndDeniedIsDropped(st: State, id: Text, p: Post, to: Text, now: int)
    requires MaySend(st, id, p.from, to, now) && |Box(st, to)| >= MAX_MAILBOX_SIZE
    ensures var next := Send(st, id, p, now).0;
            && next.mailboxes == st.mailboxes && next.dropped == st.dropped + {Ref(id, |st.sessions[id].transcript|)}
            && Grew(st, next, id)
            && next.sessions[id].transcript[|st.sessions[id].transcript|] == MessageOf(p, to)
  {
  }

  // ---------------------------------------------------------------- a run that fills a mailbox

  const SESSION: Text := Lit("s")
  const SENDER: Text := Lit("a")
  const RECIPIENT: Text := Lit("b")
  const OPENING := (LimitIsLarge(); Opening(SESSION, SENDER, None, None, 60, false, 0, 0, 0))
  const POST := Post(Lit("m"), SENDER, Lit("negotiate.offer"), Null, 3600, 0)

  /** A session is opened and joined, and `n` offers are sent in it. */
  function Offers(n: nat): seq<RelayRuns.Event> {
    if n == 0 then [RelayRuns.Opens(OPENING)] + [RelayRuns.Joins(SESSION, RECIPIENT, 0)]
    else Offers(n - 1) + [RelayRuns.Sends(SESSION, POST, 0)]
  }

  /** The session is under way, with `n` offers in its transcript and in the recipient's mailbox. */
  predicate Holds(st: State, n: nat) {
    && SESSION in st.sessions
    && var x := st.sessions[SESSION];
       && x.state == Active && x.createdAt == 0 && x.ttl == 60
       && x.initiator.agentId == SENDER && x.initiator.confirmed
       && x.responder.Some? && x.responder.value.agentId == RECIPIENT && x.responder.value.confirmed
       && |x.transcript| == n && |Box(st, RECIPIENT)| == n
  }

  lemma NamesDiffer()
    ensures SENDER != RECIPIENT && !Concluding(POST.kind)
  {
    assert SENDER[0] == 'a' as int && RECIPIENT[0] == 'b' as int;
    assert |Lit("negotiate.offer")| == 15 && |Lit("negotiate.accept")| == |Lit("negotiate.reject")| == 16;
    assert |Lit("negotiate.withdraw")| == 18 && |Lit("negotiate.commit")| == 16;
  }

  lemma HoldingMaySend(st: State, n: nat)
    requires Holds(st, n) && n <= MAX_MAILBOX_SIZE
    ensures MaySend(st, SESSION, SENDER, RECIPIENT, 0)
  {
    NamesDiffer();
  }

  lemma OneMoreOffer(st: State, n: nat)
    requires Holds(st, n) && n < MAX_MAILBOX_SIZE
    ensures Holds(Send(st, SESSION, POST, 0).0, n + 1)
  {
    NamesDiffer();
    HoldingMaySend(st, n);
    assert Recipient(st.sessions[SESSION], SENDER) == Some(RECIPIENT);
  }

  lemma Opened()
    ensures Holds(Join(Create(EMPTY, OPENING).0, SESSION, RECIPIENT, 0).0, 0)
  {
    NamesDiffer();
    var swept := EMPTY.(sessions := ObserveAll(EMPTY.sessions, 0));
    assert LiveFor(swept.sessions, SENDER, 0) == {};
    var st := Create(EMPTY, OPENING).0;
    assert st.sessions[SESSION] == NewSession(OPENING);
  }

  lemma ReachedNext(events: seq<RelayRuns.Event>, e: RelayRuns.Event)
    ensures RelayRuns.Reached(events + [e]) == RelayRuns.Step(RelayRuns.Reached(events), e)
  {
    assert (events + [e])[..|events|] == events;
  }

  lemma OffersStart()
    ensures Holds(RelayRuns.Reached(Offers(0)), 0)
  {
    assert [] + [RelayRuns.Opens(OPENING)] == [RelayRuns.Opens(OPENING)];
    ReachedNext([], RelayRuns.Opens(OPENING));
    ReachedNext([RelayRuns.Opens(OPENING)], RelayRuns.Joins(SESSION, RECIPIENT, 0));
    assert RelayRuns.Reached([]) == EMPTY;
    Opened();
  }

  lemma OfferNext(events: seq<RelayRuns.Event>, n: nat)
    requires Holds(RelayRuns.Reached(events), n) && n < MAX_MAILBOX_SIZE
    ensures Holds(RelayRuns.Reached(events + [RelayRuns.Sends(SESSION, POST, 0)]), n + 1)
  {
    ReachedNext(events, RelayRuns.Sends(SESSION, POST, 0));
    StepSends(RelayRuns.Reached(events));
    OneMoreOffer(RelayRuns.Reached(events), n);
  }

  lemma StepSends(st: State)
    requires RelayRuns.Inv(st)
    ensures RelayRuns.Step(st, RelayRuns.Sends(SESSION, POST, 0)) == Send(st, SESSION, POST, 0).0
  {
    LimitIsLarge();
  }

  lemma {:induction false} OffersHold(n: nat)
    requires n <= MAX_MAILBOX_SIZE
    ensures Holds(RelayRuns.Reached(Offers(n)), n)
  {
    if n == 0 {
      OffersStart();
    } else {
      OffersHold(n - 1);
      OfferNext(Offers(n - 1), n - 1);
    }
  }

  /** A reachable relay in which the next offer is kept and denied: a thousand offers nobody has collected. */
  lemma FullMailboxIsReached()
    ensures var st := RelayRuns.Reached(Offers(MAX_MAILBOX_SIZE));
            var (next, sent) := Send(st, SESSION, POST, 0);
            sent.None? && Grew(st, next, SESSION)
  {
    var st := RelayRuns.Reached(Offers(MAX_MAILBOX_SIZE));
    OffersHold(MAX_MAILBOX_SIZE);
    HoldingMaySend(st, MAX_MAILBOX_SIZE);
    KeptAndDeniedIff(st, SESSION, POST, 0);
  }
}
