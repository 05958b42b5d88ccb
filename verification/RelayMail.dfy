/** Conservation and order of relayed mail. */
module RelayMail {
  import opened Wrappers
  import opened Unicode
  import opened Order
  import opened Relay

  /** Within each session, references come in transcript order, each at most once. */
  ghost predicate InOrder(s: seq<Ref>) {
    forall i, j :: 0 <= i < j < |s| && s[i].session == s[j].session ==> s[i].index < s[j].index
  }

  predicate Waiting(st: State, agent: Text, r: Ref) {
    Valid(st.sessions, r) && At(st.sessions, r).to == agent && At(st.sessions, r).status == Queued && r !in st.dropped
  }

  predicate HandedOver(st: State, agent: Text, r: Ref) {
    Valid(st.sessions, r) && At(st.sessions, r).to == agent && At(st.sessions, r).status == Delivered
  }

  /** One agent's mail: what it was given, then what waits for it, all its own and in order. */
  ghost predicate Placed(st: State, agent: Text) {
    && InOrder(Log(st, agent) + Box(st, agent))
    && (forall r :: r in Log(st, agent) ==> HandedOver(st, agent, r))
    && (forall r :: r in Box(st, agent) ==> Waiting(st, agent, r))
    && |Box(st, agent)| <= MAX_MAILBOX_SIZE
  }

  /** A message is somewhere, and its status says where. */
  predicate Accounted(st: State, r: Ref)
    requires Valid(st.sessions, r)
  {
    var m := At(st.sessions, r);
    match m.status
    case Delivered => r in Log(st, m.to)
    case Expired => r in st.expired
    case Queued => r in Box(st, m.to) || r in st.dropped
  }

  predicate MarkedExpired(st: State, r: Ref) {
    Valid(st.sessions, r) && At(st.sessions, r).status == Expired
  }

  predicate MarkedDropped(st: State, r: Ref) {
    Valid(st.sessions, r) && At(st.sessions, r).status == Queued
  }

  ghost predicate Marked(st: State) {
    && (forall r :: r in st.expired ==> MarkedExpired(st, r))
    && (forall r :: r in st.dropped ==> MarkedDropped(st, r))
  }

  ghost predicate MailInv(st: State) {
    && (forall agent :: Placed(st, agent))
    && (forall r :: Valid(st.sessions, r) ==> Accounted(st, r))
    && Marked(st)
  }

  // ---------------------------------------------------------------- exactly one fate

  lemma {:induction false} CountOnce(s: seq<Ref>, r: Ref)
    requires InOrder(s)
    ensures multiset(s)[r] == if r in s then 1 else 0
  {
    if s != [] {
      var init, last := s[..|s| - 1], s[|s| - 1];
      assert s == init + [last];
      assert forall i :: 0 <= i < |init| ==> init[i] == s[i];
      CountOnce(init, r);
      assert last !in init;
    }
  }

  function Times(b: bool): nat {
    if b then 1 else 0
  }

  /**
   Conservation: every message in a transcript is in exactly one of its recipient's mailbox,
   its recipient's deliveries, the expired and the dropped, once; and nobody else has it.
   */
  lemma EveryMessageHasOneFate(st: State, r: Ref)
    requires MailInv(st) && Valid(st.sessions, r)
    ensures var to := At(st.sessions, r).to;
            && multiset(Box(st, to))[r] + multiset(Log(st, to))[r]
               + Times(r in st.expired) + Times(r in st.dropped) == 1
            && (forall agent :: agent != to ==> r !in Box(st, agent) && r !in Log(st, agent))
  {
    var to := At(st.sessions, r).to;
    assert Placed(st, to) && Accounted(st, r);
    var log, box := Log(st, to), Box(st, to);
    CountOnce(log + box, r);
    assert multiset(log + box)[r] == multiset(log)[r] + multiset(box)[r];
    assert r in log ==> HandedOver(st, to, r);
    assert r in box ==> Waiting(st, to, r);
    assert r in st.expired ==> MarkedExpired(st, r);
    assert r in st.dropped ==> MarkedDropped(st, r);
    forall agent | agent != to
      ensures r !in Box(st, agent) && r !in Log(st, agent)
    {
      assert Placed(st, agent);
    }
  }

  /** Deliveries to one agent from one session come in send order, never twice. */
  lemma DeliveriesInSendOrder(st: State, agent: Text, i: nat, j: nat)
    requires MailInv(st) && i < j < |Log(st, agent)|
    requires Log(st, agent)[i].session == Log(st, agent)[j].session
    ensures Log(st, agent)[i].index < Log(st, agent)[j].index
  {
    assert Placed(st, agent);
    var all := Log(st, agent) + Box(st, agent);
    assert all[i] == Log(st, agent)[i] && all[j] == Log(st, agent)[j];
  }

  // ---------------------------------------------------------------- sequences

  lemma RemoveAtAll(box: seq<Ref>, p: nat)
    requires p < |box|
    ensures |RemoveAt(box, p)| == |box| - 1
    ensures forall k :: 0 <= k < |box| - 1 ==> RemoveAt(box, p)[k] == box[if k < p then k else k + 1]
  {
  }

  lemma InOrderRemove(log: seq<Ref>, box: seq<Ref>, p: nat)
    requires InOrder(log + box) && p < |box|
    ensures InOrder(log + RemoveAt(box, p))
    ensures box[p] !in log && box[p] !in RemoveAt(box, p)
  {
    RemoveAtAll(box, p);
    var all, less := log + box, log + RemoveAt(box, p);
    forall i, j | 0 <= i < j < |less| && less[i].session == less[j].session
      ensures less[i].index < less[j].index
    {
      var i0 := if i < |log| + p then i else i + 1;
      var j0 := if j < |log| + p then j else j + 1;
      assert less[i] == all[i0] && less[j] == all[j0];
    }
    assert all[|log| + p] == box[p];
    forall i | 0 <= i < |less|
      ensures less[i] != box[p]
    {
      var i0 := if i < |log| + p then i else i + 1;
      assert less[i] == all[i0];
    }
    assert forall i :: 0 <= i < |log| ==> less[i] == log[i];
    assert forall i :: 0 <= i < |box| - 1 ==> less[|log| + i] == RemoveAt(box, p)[i];
  }

  /** The message at `p` may be handed over when nothing before it is from its session. */
  lemma InOrderDeliver(log: seq<Ref>, box: seq<Ref>, p: nat)
    requires InOrder(log + box) && p < |box|
    requires forall i :: 0 <= i < p ==> box[i].session != box[p].session
    ensures InOrder(log + [box[p]] + RemoveAt(box, p))
  {
    InOrderRemove(log, box, p);
    RemoveAtAll(box, p);
    var all, next := log + box, log + [box[p]] + RemoveAt(box, p);
    assert all[|log| + p] == box[p];
    assert forall k :: 0 <= k < p ==> all[|log| + k] == box[k];
    forall i, j | 0 <= i < j < |next| && next[i].session == next[j].session
      ensures next[i].index < next[j].index
    {
      assert next[i] == all[Origin(|log|, p, i)] && next[j] == all[Origin(|log|, p, j)];
    }
  }

  /** Where an element was before the element at `p` of the mailbox moved to the end of the log. */
  function Origin(n: nat, p: nat, i: nat): nat {
    if i < n then i else if i == n then n + p else if i - 1 < n + p then i - 1 else i
  }

  // ---------------------------------------------------------------- steps that move no mail

  /** Every transcript is as it was, and new sessions have none. */
  ghost predicate SameTranscripts(before: map<Text, Session>, after: map<Text, Session>) {
    && (forall id :: id in before ==> id in after && after[id].transcript == before[id].transcript)
    && (forall id :: id in after && id !in before ==> after[id].transcript == [])
  }

  predicate SameMail(st: State, next: State) {
    && next.mailboxes == st.mailboxes && next.delivered == st.delivered
    && next.expired == st.expired && next.dropped == st.dropped
  }

  lemma FrameMail(st: State, next: State)
    requires MailInv(st) && SameMail(st, next) && SameTranscripts(st.sessions, next.sessions)
    ensures MailInv(next)
  {
    forall r
      ensures Valid(st.sessions, r) <==> Valid(next.sessions, r)
      ensures Valid(st.sessions, r) ==> At(st.sessions, r) == At(next.sessions, r)
    {
    }
    forall agent
      ensures Placed(next, agent)
    {
      FramePlaced(st, next, agent);
    }
    forall r | Valid(next.sessions, r)
      ensures Accounted(next, r)
    {
      assert Accounted(st, r);
    }
    FrameMarked(st, next);
  }

  lemma FramePlaced(st: State, next: State, agent: Text)
    requires Placed(st, agent) && SameMail(st, next) && SameTranscripts(st.sessions, next.sessions)
    ensures Placed(next, agent)
  {
    forall r | r in Log(st, agent)
      ensures HandedOver(next, agent, r)
    {
    }
    forall r | r in Box(st, agent)
      ensures Waiting(next, agent, r)
    {
    }
  }

  lemma FrameMarked(st: State, next: State)
    requires Marked(st) && SameMail(st, next) && SameTranscripts(st.sessions, next.sessions)
    ensures Marked(next)
  {
    forall r | r in next.expired
      ensures MarkedExpired(next, r)
    {
    }
    forall r | r in next.dropped
      ensures MarkedDropped(next, r)
    {
    }
  }

  // ---------------------------------------------------------------- sending

  /** `next` has one more message, `m`, at `r`. */
  ghost predicate OneMore(before: map<Text, Session>, after: map<Text, Session>, r: Ref, m: Message) {
    && r.session in before && r.index == |before[r.session].transcript| && after.Keys == before.Keys
    && after[r.session].transcript == before[r.session].transcript + [m]
    && forall id :: id in before && id != r.session ==> after[id].transcript == before[id].transcript
  }

  /** The mail after a send: `r` waits for its recipient, or was dropped. */
  predicate Sent(st: State, next: State, r: Ref, to: Text) {
    && next.delivered == st.delivered && next.expired == st.expired
    && if |Box(st, to)| >= MAX_MAILBOX_SIZE then next.mailboxes == st.mailboxes && next.dropped == st.dropped + {r}
       else next.mailboxes == st.mailboxes[to := Box(st, to) + [r]] && next.dropped == st.dropped
  }

  lemma SendPlaced(st: State, next: State, r: Ref, m: Message, agent: Text)
    requires MailInv(st) && OneMore(st.sessions, next.sessions, r, m) && Sent(st, next, r, m.to)
    requires m.status == Queued
    ensures Placed(next, agent)
  {
    assert Placed(st, agent);
    forall q | q in Log(next, agent)
      ensures HandedOver(next, agent, q)
    {
      assert HandedOver(st, agent, q);
    }
    forall q | q in Box(st, agent)
      ensures Waiting(next, agent, q)
    {
      assert Waiting(st, agent, q);
    }
    if agent == m.to && |Box(st, agent)| < MAX_MAILBOX_SIZE {
      SendInOrder(st, r, agent);
    }
  }

  lemma SendInOrder(st: State, r: Ref, agent: Text)
    requires Placed(st, agent) && r.session in st.sessions && r.index == |st.sessions[r.session].transcript|
    ensures InOrder(Log(st, agent) + (Box(st, agent) + [r]))
  {
    var log, box := Log(st, agent), Box(st, agent);
    var all := log + box;
    forall i | 0 <= i < |all| && all[i].session == r.session
      ensures all[i].index < r.index
    {
      var q := all[i];
      assert q in log || q in box;
      assert Valid(st.sessions, q);
    }
    Assoc(log, box, [r]);
  }

  lemma SendKeepsMail(st: State, next: State, r: Ref, m: Message)
    requires MailInv(st) && OneMore(st.sessions, next.sessions, r, m) && Sent(st, next, r, m.to)
    requires m.status == Queued
    ensures MailInv(next)
  {
    forall agent
      ensures Placed(next, agent)
    {
      SendPlaced(st, next, r, m, agent);
    }
    forall q | Valid(next.sessions, q)
      ensures Accounted(next, q)
    {
      assert q != r ==> Accounted(st, q);
    }
    forall q | q in next.expired
      ensures MarkedExpired(next, q)
    {
      assert MarkedExpired(st, q);
    }
    forall q | q in next.dropped
      ensures MarkedDropped(next, q)
    {
      assert q != r ==> MarkedDropped(st, q);
    }
  }

  // ---------------------------------------------------------------- receiving

  /** Only the status of the message at `r` changed. */
  ghost predicate Restatused(before: map<Text, Session>, after: map<Text, Session>, r: Ref, status: Status) {
    && Valid(before, r) && after.Keys == before.Keys
    && (forall q: Ref :: Valid(after, q) <==> Valid(before, q))
    && (forall q: Ref :: Valid(before, q) && q != r ==> At(after, q) == At(before, q))
    && At(after, r).to == At(before, r).to && At(after, r).status == status
  }

  lemma DeliverRestatuses(sessions: map<Text, Session>, r: Ref, agent: Text, at: Option<int>)
    requires Valid(sessions, r)
    ensures Restatused(sessions, CountReceived(SetStatus(sessions, r, Delivered, at), r.session, agent), r, Delivered)
  {
    var middle := SetStatus(sessions, r, Delivered, at);
    assert SameTranscripts(middle, CountReceived(middle, r.session, agent));
    forall q
      ensures Valid(middle, q) <==> Valid(CountReceived(middle, r.session, agent), q)
      ensures Valid(middle, q) ==> At(middle, q) == At(CountReceived(middle, r.session, agent), q)
    {
    }
  }

  /** The message at `p` of a mailbox leaves it, with a new status. */
  ghost predicate Leaves(st: State, next: State, agent: Text, p: nat, status: Status) {
    && p < |Box(st, agent)| && next.dropped == st.dropped
    && Restatused(st.sessions, next.sessions, Box(st, agent)[p], status)
    && next.mailboxes == st.mailboxes[agent := RemoveAt(Box(st, agent), p)]
    && match status
       case Expired => next.expired == st.expired + {Box(st, agent)[p]} && next.delivered == st.delivered
       case Delivered =>
         && next.expired == st.expired
         && next.delivered == st.delivered[agent := Log(st, agent) + [Box(st, agent)[p]]]
         && forall i :: 0 <= i < p ==> Box(st, agent)[i].session != Box(st, agent)[p].session
       case Queued => false
  }

  lemma LeavesPlacedSelf(st: State, next: State, agent: Text, p: nat, status: Status)
    requires MailInv(st) && Leaves(st, next, agent, p, status)
    ensures Placed(next, agent)
  {
    var r := Box(st, agent)[p];
    assert Placed(st, agent) && Waiting(st, agent, r);
    InOrderRemove(Log(st, agent), Box(st, agent), p);
    if status == Delivered {
      InOrderDeliver(Log(st, agent), Box(st, agent), p);
    }
    forall q | q in Log(next, agent)
      ensures HandedOver(next, agent, q)
    {
      assert q != r ==> HandedOver(st, agent, q);
    }
    RemoveAtAll(Box(st, agent), p);
    forall q | q in Box(next, agent)
      ensures Waiting(next, agent, q)
    {
      assert q != r && q in Box(st, agent);
      assert Waiting(st, agent, q);
    }
  }

  lemma LeavesPlacedOther(st: State, next: State, agent: Text, p: nat, status: Status, other: Text)
    requires MailInv(st) && Leaves(st, next, agent, p, status) && other != agent
    ensures Placed(next, other)
  {
    var r := Box(st, agent)[p];
    assert Placed(st, agent) && Waiting(st, agent, r) && Placed(st, other);
    forall q | q in Log(next, other)
      ensures HandedOver(next, other, q)
    {
      assert HandedOver(st, other, q);
    }
    forall q | q in Box(next, other)
      ensures Waiting(next, other, q)
    {
      assert Waiting(st, other, q);
    }
  }

  lemma OthersRemain(box: seq<Ref>, p: nat, q: Ref)
    requires p < |box| && q in box && q != box[p]
    ensures q in RemoveAt(box, p)
  {
    var i :| 0 <= i < |box| && box[i] == q;
    assert RemoveAt(box, p)[if i < p then i else i - 1] == q;
  }

  lemma LeavesAccounted(st: State, next: State, agent: Text, p: nat, status: Status, q: Ref)
    requires MailInv(st) && Leaves(st, next, agent, p, status) && Valid(next.sessions, q)
    ensures Accounted(next, q)
  {
    var r := Box(st, agent)[p];
    assert Placed(st, agent) && Waiting(st, agent, r) && Accounted(st, q);
    if q != r && q in Box(st, agent) {
      OthersRemain(Box(st, agent), p, q);
    }
  }

  lemma LeavingKeepsMail(st: State, next: State, agent: Text, p: nat, status: Status)
    requires MailInv(st) && Leaves(st, next, agent, p, status)
    ensures MailInv(next)
  {
    var r := Box(st, agent)[p];
    assert Placed(st, agent) && Waiting(st, agent, r);
    forall other
      ensures Placed(next, other)
    {
      if other == agent {
        LeavesPlacedSelf(st, next, agent, p, status);
      } else {
        LeavesPlacedOther(st, next, agent, p, status, other);
      }
    }
    forall q | Valid(next.sessions, q)
      ensures Accounted(next, q)
    {
      LeavesAccounted(st, next, agent, p, status, q);
    }
    forall q | q in next.expired
      ensures MarkedExpired(next, q)
    {
      assert q != r ==> MarkedExpired(st, q);
    }
    forall q | q in next.dropped
      ensures MarkedDropped(next, q)
    {
      assert MarkedDropped(st, q);
    }
  }

  // ---------------------------------------------------------------- polls

  /** Everything a poll has passed over so far it may pass over again. */
  ghost predicate PassedOver(st: State, q: Poll, p: nat, d: nat) {
    d >= q.limit || (p <= |Box(st, q.agent)| && forall i :: 0 <= i < p ==> Filtered(q.filter, Box(st, q.agent)[i]))
  }

  lemma LapseKeepsMail(st: State, agent: Text, p: nat)
    requires MailInv(st) && BoxOk(st, agent) && p < |Box(st, agent)|
    ensures MailInv(Lapse(st, agent, p))
  {
    var r := Box(st, agent)[p];
    LeavingKeepsMail(st, Lapse(st, agent, p), agent, p, Expired);
  }

  lemma DeliverKeepsMail(st: State, q: Poll, p: nat, d: nat)
    requires MailInv(st) && BoxOk(st, q.agent) && p < |Box(st, q.agent)|
    requires PassedOver(st, q, p, d) && d < q.limit && !Filtered(q.filter, Box(st, q.agent)[p])
    ensures MailInv(Deliver(st, q.agent, p, q.now))
  {
    var r := Box(st, q.agent)[p];
    DeliverRestatuses(st.sessions, r, q.agent, Some(q.now));
    LeavingKeepsMail(st, Deliver(st, q.agent, p, q.now), q.agent, p, Delivered);
  }

  lemma {:induction false} ReceiveFromKeepsMail(st: State, q: Poll, p: nat, d: nat)
    requires MailInv(st) && BoxOk(st, q.agent) && p <= |Box(st, q.agent)| && PassedOver(st, q, p, d)
    ensures MailInv(ReceiveFrom(st, q, p, d))
    decreases |Box(st, q.agent)| - p
  {
    if p < |Box(st, q.agent)| {
      var r := Box(st, q.agent)[p];
      RemoveAtAll(Box(st, q.agent), p);
      if IsExpired(At(st.sessions, r), q.now) {
        LapseKeepsBox(st, q.agent, p);
        LapseKeepsMail(st, q.agent, p);
        ReceiveFromKeepsMail(Lapse(st, q.agent, p), q, p, d);
      } else if Filtered(q.filter, r) || d >= q.limit {
        ReceiveFromKeepsMail(st, q, p + 1, d);
      } else {
        DeliverKeepsBox(st, q.agent, p, q.now);
        DeliverKeepsMail(st, q, p, d);
        ReceiveFromKeepsMail(Deliver(st, q.agent, p, q.now), q, p, d + 1);
      }
    }
  }

  lemma WithBoxKeepsMail(st: State, agent: Text)
    requires MailInv(st)
    ensures MailInv(WithBox(st, agent))
  {
    var next := WithBox(st, agent);
    forall other
      ensures Placed(next, other)
    {
      assert Placed(st, other);
      assert Log(next, other) == Log(st, other) && Box(next, other) == Box(st, other);
      assert forall r :: r in Log(st, other) ==> HandedOver(st, other, r);
      assert forall r :: r in Box(st, other) ==> Waiting(st, other, r);
    }
    forall r | Valid(next.sessions, r)
      ensures Accounted(next, r)
    {
      assert Accounted(st, r);
    }
    assert forall r :: r in st.expired ==> MarkedExpired(st, r);
    assert forall r :: r in st.dropped ==> MarkedDropped(st, r);
  }

  lemma MailBoxesOk(st: State, agent: Text)
    requires MailInv(st)
    ensures BoxOk(st, agent)
  {
    assert Placed(st, agent);
    forall i | 0 <= i < |Box(st, agent)|
      ensures Valid(st.sessions, Box(st, agent)[i])
    {
      assert Waiting(st, agent, Box(st, agent)[i]);
    }
  }

  lemma ReceiveKeepsMail(st: State, q: Poll)
    requires MailInv(st) && BoxOk(st, q.agent)
    ensures MailInv(Receive(st, q))
  {
    WithBoxKeepsMail(st, q.agent);
    MailBoxesOk(WithBox(st, q.agent), q.agent);
    ReceiveFromKeepsMail(WithBox(st, q.agent), q, 0, 0);
  }

  // ---------------------------------------------------------------- what a poll returns

  /** The messages that a poll is after: of its session, and not expired. */
  function Wanted(box: seq<Ref>, late: Ref -> bool, filter: Option<Text>): seq<Ref> {
    if box == [] then []
    else if late(box[0]) || Filtered(filter, box[0]) then Wanted(box[1..], late, filter)
    else [box[0]] + Wanted(box[1..], late, filter)
  }

  function FirstN(s: seq<Ref>, n: int): seq<Ref> {
    if n <= 0 then [] else if n >= |s| then s else s[..n]
  }

  /** `late` says which messages of a mailbox have expired. */
  ghost predicate Late(st: State, q: Poll, late: Ref -> bool) {
    forall r :: r in Box(st, q.agent) && Valid(st.sessions, r) ==> late(r) == IsExpired(At(st.sessions, r), q.now)
  }

  lemma LateKept(st: State, next: State, q: Poll, p: nat, late: Ref -> bool)
    requires BoxOk(st, q.agent) && p < |Box(st, q.agent)| && Late(st, q, late)
    requires next == Lapse(st, q.agent, p) || next == Deliver(st, q.agent, p, q.now)
    ensures Late(next, q, late)
    ensures Box(next, q.agent)[p..] == Box(st, q.agent)[p + 1..] && |Box(next, q.agent)| == |Box(st, q.agent)| - 1
  {
    RemoveAtAll(Box(st, q.agent), p);
    var r := Box(st, q.agent)[p];
    var middle := SetStatus(st.sessions, r, Delivered, Some(q.now));
    forall k | k in Box(next, q.agent) && Valid(next.sessions, k)
      ensures late(k) == IsExpired(At(next.sessions, k), q.now)
    {
      assert k in Box(st, q.agent);
      assert At(next.sessions, k).createdAt == At(st.sessions, k).createdAt;
      assert At(next.sessions, k).ttl == At(st.sessions, k).ttl;
    }
  }

  lemma WantedStep(box: seq<Ref>, p: nat, late: Ref -> bool, filter: Option<Text>)
    requires p < |box|
    ensures Wanted(box[p..], late, filter)
         == if late(box[p]) || Filtered(filter, box[p]) then Wanted(box[p + 1..], late, filter)
            else [box[p]] + Wanted(box[p + 1..], late, filter)
  {
    assert box[p..][0] == box[p] && box[p..][1..] == box[p + 1..];
  }

  lemma {:induction false} ReceiveFromTakes(st: State, q: Poll, p: nat, d: nat, late: Ref -> bool)
    requires BoxOk(st, q.agent) && p <= |Box(st, q.agent)| && Late(st, q, late)
    ensures Log(ReceiveFrom(st, q, p, d), q.agent)
         == Log(st, q.agent) + FirstN(Wanted(Box(st, q.agent)[p..], late, q.filter), q.limit - d)
    decreases |Box(st, q.agent)| - p
  {
    if p == |Box(st, q.agent)| {
      NothingWanted(Box(st, q.agent), late, q.filter, q.limit - d, Log(st, q.agent));
    } else {
      var r := Box(st, q.agent)[p];
      if IsExpired(At(st.sessions, r), q.now) {
        LapseTakes(st, q, p, d, late);
      } else if Filtered(q.filter, r) || d >= q.limit {
        KeepTakes(st, q, p, d, late);
      } else {
        DeliverTakes(st, q, p, d, late);
      }
    }
  }

  lemma NothingWanted(box: seq<Ref>, late: Ref -> bool, filter: Option<Text>, n: int, log: seq<Ref>)
    ensures log + FirstN(Wanted(box[|box|..], late, filter), n) == log
  {
  }

  lemma {:induction false} KeepTakes(st: State, q: Poll, p: nat, d: nat, late: Ref -> bool)
    requires BoxOk(st, q.agent) && p < |Box(st, q.agent)| && Late(st, q, late)
    requires !IsExpired(At(st.sessions, Box(st, q.agent)[p]), q.now)
    requires Filtered(q.filter, Box(st, q.agent)[p]) || d >= q.limit
    ensures Log(ReceiveFrom(st, q, p, d), q.agent)
         == Log(st, q.agent) + FirstN(Wanted(Box(st, q.agent)[p..], late, q.filter), q.limit - d)
    decreases |Box(st, q.agent)| - p, 0
  {
    var r := Box(st, q.agent)[p];
    assert r in Box(st, q.agent);
    WantedStep(Box(st, q.agent), p, late, q.filter);
    ReceiveFromTakes(st, q, p + 1, d, late);
    assert ReceiveFrom(st, q, p, d) == ReceiveFrom(st, q, p + 1, d);
  }

  lemma LapseUnfolds(st: State, q: Poll, p: nat, d: nat)
    requires BoxOk(st, q.agent) && p < |Box(st, q.agent)| && IsExpired(At(st.sessions, Box(st, q.agent)[p]), q.now)
    ensures BoxOk(Lapse(st, q.agent, p), q.agent) && p <= |Box(Lapse(st, q.agent, p), q.agent)|
    ensures ReceiveFrom(st, q, p, d) == ReceiveFrom(Lapse(st, q.agent, p), q, p, d)
    ensures Log(Lapse(st, q.agent, p), q.agent) == Log(st, q.agent)
  {
    LapseKeepsBox(st, q.agent, p);
  }

  lemma {:induction false} LapseTakes(st: State, q: Poll, p: nat, d: nat, late: Ref -> bool)
    requires BoxOk(st, q.agent) && p < |Box(st, q.agent)| && Late(st, q, late)
    requires IsExpired(At(st.sessions, Box(st, q.agent)[p]), q.now)
    ensures Log(ReceiveFrom(st, q, p, d), q.agent)
         == Log(st, q.agent) + FirstN(Wanted(Box(st, q.agent)[p..], late, q.filter), q.limit - d)
    decreases |Box(st, q.agent)| - p, 0
  {
    var r := Box(st, q.agent)[p];
    var next := Lapse(st, q.agent, p);
    assert r in Box(st, q.agent);
    LapseUnfolds(st, q, p, d);
    LateKept(st, next, q, p, late);
    ReceiveFromTakes(next, q, p, d, late);
    WantedStep(Box(st, q.agent), p, late, q.filter);
  }

  lemma FirstNCons(r: Ref, rest: seq<Ref>, n: int)
    requires n > 0
    ensures FirstN([r] + rest, n) == [r] + FirstN(rest, n - 1)
  {
  }

  lemma DeliverUnfolds(st: State, q: Poll, p: nat, d: nat)
    requires BoxOk(st, q.agent) && p < |Box(st, q.agent)| && d < q.limit
    requires var r := Box(st, q.agent)[p]; !IsExpired(At(st.sessions, r), q.now) && !Filtered(q.filter, r)
    ensures BoxOk(Deliver(st, q.agent, p, q.now), q.agent) && p <= |Box(Deliver(st, q.agent, p, q.now), q.agent)|
    ensures ReceiveFrom(st, q, p, d) == ReceiveFrom(Deliver(st, q.agent, p, q.now), q, p, d + 1)
    ensures Log(Deliver(st, q.agent, p, q.now), q.agent) == Log(st, q.agent) + [Box(st, q.agent)[p]]
  {
    DeliverKeepsBox(st, q.agent, p, q.now);
  }

  lemma {:induction false} DeliverTakes(st: State, q: Poll, p: nat, d: nat, late: Ref -> bool)
    requires BoxOk(st, q.agent) && p < |Box(st, q.agent)| && Late(st, q, late) && d < q.limit
    requires var r := Box(st, q.agent)[p]; !IsExpired(At(st.sessions, r), q.now) && !Filtered(q.filter, r)
    ensures Log(ReceiveFrom(st, q, p, d), q.agent)
         == Log(st, q.agent) + FirstN(Wanted(Box(st, q.agent)[p..], late, q.filter), q.limit - d)
    decreases |Box(st, q.agent)| - p, 0
  {
    var r := Box(st, q.agent)[p];
    var next := Deliver(st, q.agent, p, q.now);
    var rest := Wanted(Box(st, q.agent)[p + 1..], late, q.filter);
    assert r in Box(st, q.agent);
    DeliverUnfolds(st, q, p, d);
    LateKept(st, next, q, p, late);
    ReceiveFromTakes(next, q, p, d + 1, late);
    WantedStep(Box(st, q.agent), p, late, q.filter);
    FirstNCons(r, rest, q.limit - d);
    Assoc(Log(st, q.agent), [r], FirstN(rest, q.limit - d - 1));
  }

  /** Which messages have expired at some time. */
  function ExpiredAt(sessions: map<Text, Session>, now: int): Ref -> bool {
    r => Valid(sessions, r) && IsExpired(At(sessions, r), now)
  }

  /** A poll hands over the first `limit` unexpired messages of its session, in mailbox order. */
  lemma PollReturnsFirstWanted(st: State, q: Poll)
    requires BoxOk(st, q.agent)
    ensures Log(Receive(st, q), q.agent)
         == Log(st, q.agent) + FirstN(Wanted(Box(st, q.agent), ExpiredAt(st.sessions, q.now), q.filter), q.limit)
  {
    assert Box(st, q.agent)[0..] == Box(st, q.agent);
    ReceiveFromTakes(WithBox(st, q.agent), q, 0, 0, ExpiredAt(st.sessions, q.now));
  }

  lemma {:induction false} UnfilteredEmpties(st: State, q: Poll, d: nat)
    requires BoxOk(st, q.agent) && Present(q.filter).None? && q.limit - d >= |Box(st, q.agent)|
    ensures Box(ReceiveFrom(st, q, 0, d), q.agent) == []
    decreases |Box(st, q.agent)|
  {
    if Box(st, q.agent) != [] {
      RemoveAtAll(Box(st, q.agent), 0);
      if IsExpired(At(st.sessions, Box(st, q.agent)[0]), q.now) {
        LapseKeepsBox(st, q.agent, 0);
        UnfilteredEmpties(Lapse(st, q.agent, 0), q, d);
      } else {
        DeliverKeepsBox(st, q.agent, 0, q.now);
        UnfilteredEmpties(Deliver(st, q.agent, 0, q.now), q, d + 1);
      }
    }
  }

  /** An unfiltered poll with room for the whole mailbox leaves nothing behind. */
  lemma UnfilteredPollEmptiesMailbox(st: State, q: Poll)
    requires BoxOk(st, q.agent) && Present(q.filter).None? && q.limit >= |Box(st, q.agent)|
    ensures Box(Receive(st, q), q.agent) == []
  {
    UnfilteredEmpties(WithBox(st, q.agent), q, 0);
  }
}
