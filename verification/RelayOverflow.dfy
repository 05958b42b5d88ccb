/**
 Messages whose lifetime no float holds. Asking whether such a message has expired raises,
 in the middle of the poll that meets it, and in every later poll of that mailbox.
 */
module RelayOverflow {
  import opened Wrappers
  import opened FloatRange
  import opened Relay
  import opened RelayRuns
  import opened RelayDrops

  lemma {:induction false} InterruptedKeeps(s: State, q: Poll, rest: seq<Ref>, d: nat)
    requires AllValid(s.sessions, rest)
    ensures var next := Interrupted(s, q, rest, d);
            && next.mailboxes == s.mailboxes && next.delivered == s.delivered
            && KeepsMessages(s.sessions, next.sessions)
    decreases |rest|
  {
    if rest != [] && !NoFloat(At(s.sessions, rest[0])) {
      var r := rest[0];
      MarksKeepMessages(s, r, q.agent, q.now);
      if IsExpired(At(s.sessions, r), q.now) {
        InterruptedKeeps(MarkExpired(s, r), q, rest[1..], d);
      } else if Filtered(q.filter, r) || d >= q.limit {
        InterruptedKeeps(s, q, rest[1..], d);
      } else {
        InterruptedKeeps(MarkDelivered(s, r, q.agent, q.now), q, rest[1..], d + 1);
      }
    }
  }

  /** A poll that raises hands nothing over and empties nothing, and every later poll of that mailbox raises too. */
  lemma RaisingPollRepeats(st: State, q: Poll)
    requires BoxOk(st, q.agent) && PollRaises(st, q.agent)
    ensures var (next, returned) := Polled(st, q);
            && !returned && next.mailboxes == st.mailboxes && next.delivered == st.delivered
            && BoxOk(next, q.agent) && PollRaises(next, q.agent)
  {
    var box := Box(st, q.agent);
    assert AllValid(st.sessions, box);
    InterruptedKeeps(st, q, box, 0);
    KeptStillValid(st.sessions, Interrupted(st, q, box, 0).sessions, box);
  }

  // ---------------------------------------------------------------- two offers, the second with a huge lifetime

  const FIRST := Ref(SESSION, 0)
  const SECOND := Ref(SESSION, 1)
  const POLL := Poll(RECIPIENT, None, 50, 0)

  lemma OfferSent(st: State, n: nat, p: Post)
    requires Holds(st, n) && n < MAX_MAILBOX_SIZE && p.from == SENDER && p.kind == POST.kind
    ensures var x, next := st.sessions[SESSION], Send(st, SESSION, p, 0).0;
            && next.sessions == st.sessions[SESSION := Appended(x, MessageOf(p, RECIPIENT))]
            && next.delivered == st.delivered && Box(next, RECIPIENT) == Box(st, RECIPIENT) + [Ref(SESSION, n)]
            && Holds(next, n + 1)
  {
    NamesDiffer();
    assert Recipient(st.sessions[SESSION], SENDER) == Some(RECIPIENT);
  }

  /** The relay after two offers that nobody has collected, the second of lifetime `ttl`. */
  function Poisoned(ttl: int): State {
    var joined := Join(Create(EMPTY, OPENING).0, SESSION, RECIPIENT, 0).0;
    Send(Send(joined, SESSION, POST, 0).0, SESSION, POST.(ttl := ttl), 0).0
  }

  /** Two messages wait, and the recipient has been counted `received` times. */
  predicate Waits(st: State, first: Message, second: Message, received: nat) {
    && SESSION in st.sessions && st.sessions[SESSION].transcript == [first, second]
    && st.sessions[SESSION].initiator.agentId == SENDER && st.sessions[SESSION].initiator.received == 0
    && st.sessions[SESSION].responder == Some(Participant(RECIPIENT, true, 0, received))
    && Box(st, RECIPIENT) == [FIRST, SECOND] && Log(st, RECIPIENT) == []
  }

  lemma PoisonedWaits(ttl: int)
    ensures Waits(Poisoned(ttl), MessageOf(POST, RECIPIENT), MessageOf(POST.(ttl := ttl), RECIPIENT), 0)
  {
    Opened();
    var joined := Join(Create(EMPTY, OPENING).0, SESSION, RECIPIENT, 0).0;
    JoinedPlain();
    OfferSent(joined, 0, POST);
    OfferSent(Send(joined, SESSION, POST, 0).0, 1, POST.(ttl := ttl));
    NamesDiffer();
  }

  lemma JoinedPlain()
    ensures var joined := Join(Create(EMPTY, OPENING).0, SESSION, RECIPIENT, 0).0;
            && SESSION in joined.sessions && joined.sessions[SESSION].transcript == []
            && joined.sessions[SESSION].initiator.received == 0
            && joined.sessions[SESSION].responder == Some(Participant(RECIPIENT, true, 0, 0))
            && Box(joined, RECIPIENT) == [] && Log(joined, RECIPIENT) == []
  {
    Opened();
  }

  /** One poll of the poisoned mailbox: the first message is marked and counted, then the second raises. */
  lemma PoisonedPoll(st: State, first: Message, second: Message, received: nat)
    requires Waits(st, first, second, received) && NoFloat(second) && !NoFloat(first) && !IsExpired(first, 0)
    ensures BoxOk(st, RECIPIENT) && !Polled(st, POLL).1
    ensures Waits(Polled(st, POLL).0, first.(status := Delivered, deliveredAt := Some(0)), second, received + 1)
  {
    NamesDiffer();
    var box := Box(st, RECIPIENT);
    assert Valid(st.sessions, FIRST) && Valid(st.sessions, SECOND);
    assert BoxOk(st, RECIPIENT);
    assert NoFloat(At(st.sessions, box[1]));
    assert box[1..] == [SECOND];
    var marked := MarkDelivered(st, FIRST, RECIPIENT, 0);
    assert Interrupted(st, POLL, box, 0) == Interrupted(marked, POLL, [SECOND], 1) == marked;
  }

  /** The first offer counts as delivered, twice even, and was never handed over. */
  predicate Miscounted(st: State) {
    && FIRST in Box(st, RECIPIENT) && FIRST !in Log(st, RECIPIENT)
    && Valid(st.sessions, FIRST) && At(st.sessions, FIRST).status == Delivered
    && ReceivedTotal(st.sessions[SESSION]) == 2 && DeliveredCount(st.sessions[SESSION].transcript) == 1
  }

  lemma WaitsMiscounted(st: State, first: Message, second: Message)
    requires Waits(st, first, second, 2) && first.status == Delivered && second.status == Queued
    ensures Miscounted(st)
  {
    assert [first, second][..1] == [first] && [first][..0] == [];
    assert DeliveredCount([first]) == 1 && DeliveredCount([first, second]) == 1;
  }

  lemma PollTwice(st: State, first: Message, second: Message)
    requires Waits(st, first, second, 0) && NoFloat(second) && !NoFloat(first) && !IsExpired(first, 0)
    requires second.status == Queued
    ensures BoxOk(st, RECIPIENT) && !Polled(st, POLL).1
    ensures var once := Polled(st, POLL).0;
            BoxOk(once, RECIPIENT) && !Polled(once, POLL).1 && Miscounted(Polled(once, POLL).0)
  {
    var marked := first.(status := Delivered, deliveredAt := Some(0));
    PoisonedPoll(st, first, second, 0);
    PoisonedPoll(Polled(st, POLL).0, marked, second, 1);
    WaitsMiscounted(Polled(Polled(st, POLL).0, POLL).0, marked, second);
  }

  /**
   With a lifetime beyond the floats conservation fails: two polls of one mailbox raise, the first offer
   is marked delivered and counted twice as received, and it was never handed over and still waits.
   */
  lemma HugeLifetimeBreaksPolls(ttl: int)
    requires ttl >= FLOAT_LIMIT
    ensures var st := Poisoned(ttl);
            && BoxOk(st, RECIPIENT) && !Polled(st, POLL).1
            && var once := Polled(st, POLL).0;
               BoxOk(once, RECIPIENT) && !Polled(once, POLL).1 && Miscounted(Polled(once, POLL).0)
  {
    LimitIsLarge();
    PoisonedWaits(ttl);
    PollTwice(Poisoned(ttl), MessageOf(POST, RECIPIENT), MessageOf(POST.(ttl := ttl), RECIPIENT));
  }
}
