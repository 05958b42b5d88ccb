/** What one admitted message does to the behavioural record of its sender (`_track_behavior`). */
module BehaviorMeaning {
  import opened Wrappers
  import opened Unicode
  import opened Numbers
  import opened PythonValues
  import opened Hashing
  import opened Signing
  import opened Message
  import opened Negotiation
  import opened Session
  import opened SessionOutcomes

  // ---------------------------------------------------------------- links

  /** A message's hash is the digest of its canonical text behind `sha256:`, the first link 64 zeros. */
  lemma LinkIs(h: Hash, before: seq<Envelope>, link: Text)
    ensures Tip(ComputeHash(h), before) == Some(link) <==>
            && |link| == 71 && link[..7] == Lit("sha256:")
            && (before == [] ==> forall i :: 7 <= i < 71 ==> link[i] == '0' as int)
            && (before != [] ==> exists t :: CanonicalText(Obj(before[|before| - 1])) == Some(t) && link[7..] == h(t))
  {
    if before == [] {
      ZerosAreZeros(64);
      assert Tip(ComputeHash(h), before) == Some(GENESIS_HASH);
      if |link| == 71 && link[..7] == Lit("sha256:") && forall i :: 7 <= i < 71 ==> link[i] == '0' as int {
        assert link == GENESIS_HASH;
      }
    } else {
      var text := CanonicalText(Obj(before[|before| - 1]));
      if text.Some? && |link| == 71 && link[..7] == Lit("sha256:") && link[7..] == h(text.value) {
        assert link == link[..7] + link[7..];
      }
    }
  }

  lemma {:induction false} ZerosAreZeros(n: nat)
    ensures forall i :: 0 <= i < n ==> Zeros(n)[i] == 0
  {
    if n > 0 {
      ZerosAreZeros(n - 1);
    }
  }

  // ---------------------------------------------------------------- records

  predicate Offers(m: Envelope) {
    Is(m, "negotiate.offer") || Is(m, "negotiate.counter")
  }

  /** The terms that the body of an offer names. */
  predicate OffersTerms(m: Envelope, terms: Json) {
    && Offers(m) && Truthy(terms)
    && Get(m, Lit("body")).Some? && Get(m, Lit("body")).value.Obj?
    && Get(Get(m, Lit("body")).value.members, Lit("terms")) == Some(terms)
  }

  /** These terms give way against the last ones the agent offered. */
  predicate GivesWay(t: Tracking, agent: Text, terms: Json) {
    && agent in t.lastOffers
    && Concession(t.lastOffers[agent], terms).Some? && Concession(t.lastOffers[agent], terms).value > 0.0
  }

  predicate HasReasoning(m: Envelope) {
    Get(m, Lit("reasoning")).Some? && Truthy(Get(m, Lit("reasoning")).value)
  }

  /** The record of an agent, or the blank one. */
  function RecordOf(t: Tracking, agent: Text): Behavior {
    if agent in t.behaviors then t.behaviors[agent] else Behavior(0, 0, 0.0, 0, 0, false, false)
  }

  function OneIf(b: bool): nat {
    if b then 1 else 0
  }

  lemma OfferIff(m: Envelope)
    requires TypeOf(m).Some?
    ensures Offers(m) <==> IsOffer(m)
    ensures Is(m, "negotiate.signal") <==> TypeOf(m) == Some(Signal)
    ensures Is(m, "negotiate.constrain") <==> TypeOf(m) == Some(Constrain)
    ensures Is(m, "negotiate.withdraw") <==> TypeOf(m) == Some(Withdraw)
  {
    TypeIff(m, Offer);
    TypeIff(m, Counter);
    TypeIff(m, Signal);
    TypeIff(m, Constrain);
    TypeIff(m, Withdraw);
  }

  lemma TermsIff(m: Envelope, terms: Json)
    requires TypeOf(m).Some?
    ensures OffersTerms(m, terms) <==> IsOffer(m) && OfferTerms(m) == Some(terms) && Truthy(terms)
  {
    OfferIff(m);
  }

  lemma TermsIffEach(m: Envelope)
    requires TypeOf(m).Some?
    ensures forall terms ::
              OffersTerms(m, terms) <==> IsOffer(m) && OfferTerms(m) == Some(terms) && Truthy(terms)
  {
    forall terms {
      TermsIff(m, terms);
    }
  }

  predicate Concedes(t: Tracking, agent: Text, m: Envelope) {
    && IsOffer(m) && OfferTerms(m).Some? && Truthy(OfferTerms(m).value)
    && GivesWay(t, agent, OfferTerms(m).value)
  }

  /** The record that an offer leaves before its reasoning is noted. */
  lemma OfferRecord(t: Tracking, agent: Text, m: Envelope)
    requires agent in t.behaviors && IsOffer(m) && TrackOffer(t, agent, m).1
    ensures var was, next := t.behaviors[agent], TrackOffer(t, agent, m).0;
            && agent in next.behaviors && OfferTerms(m).Some?
            && Some(next.behaviors[agent]) == Offered(was.(offersMade := was.offersMade + 1),
                                                      LastOffer(t.lastOffers, agent), OfferTerms(m).value)
            && next.behaviors == t.behaviors[agent := next.behaviors[agent]]
            && next.roundCount == t.roundCount + 1
            && next.lastOffers ==
               if Truthy(OfferTerms(m).value) then t.lastOffers[agent := OfferTerms(m).value] else t.lastOffers
  {
  }

  /** The counters and flags that an offer changes. */
  lemma OfferCounts(b: Behavior, last: Option<Json>, terms: Json)
    requires Offered(b, last, terms).Some?
    ensures var now := Offered(b, last, terms).value;
            && now.offersMade == b.offersMade && now.signalsShared == b.signalsShared
            && now.constraintsDeclared == b.constraintsDeclared && now.withdrawal == b.withdrawal
            && now.reasoningProvided == b.reasoningProvided
            && now.concessions == b.concessions +
                 OneIf(last.Some? && Truthy(terms) && Concession(last.value, terms).Some?
                       && Concession(last.value, terms).value > 0.0)
  {
  }

  /** Sender's record before and after, by what the message turned out to be. */
  predicate Recorded(was: Behavior, now: Behavior, offer: bool, signal: bool, constrain: bool, withdraw: bool,
                     reasons: bool, concedes: bool)
  {
    && now.offersMade == was.offersMade + OneIf(offer) && now.signalsShared == was.signalsShared + OneIf(signal)
    && now.constraintsDeclared == was.constraintsDeclared + OneIf(constrain)
    && (now.withdrawal <==> was.withdrawal || withdraw)
    && (now.reasoningProvided <==> was.reasoningProvided || reasons)
    && now.concessions == was.concessions + OneIf(concedes)
  }

  lemma OfferRecorded(t: Tracking, agent: Text, m: Envelope)
    requires IsOffer(m) && Track(t, agent, m).1
    ensures Recorded(RecordOf(t, agent), RecordOf(Track(t, agent, m).0, agent), true, false, false, false, Reasons(m),
                     Concedes(t, agent, m))
  {
    var b := RecordOf(t, agent);
    OfferRecord(Known(t, agent), agent, m);
    OfferCounts(b.(offersMade := b.offersMade + 1), LastOffer(t.lastOffers, agent), OfferTerms(m).value);
  }

  lemma OtherRecorded(t: Tracking, agent: Text, m: Envelope)
    requires TypeOf(m).Some? && !IsOffer(m)
    ensures var kind := TypeOf(m).value;
            Recorded(RecordOf(t, agent), RecordOf(Track(t, agent, m).0, agent), false, kind == Signal,
                     kind == Constrain, kind == Withdraw, Reasons(m), false)
  {
  }

  /** The counters and flags of the sender after a message that was tracked. */
  lemma RecordIs(t: Tracking, agent: Text, m: Envelope)
    requires TypeOf(m).Some? && Track(t, agent, m).1
    ensures Recorded(RecordOf(t, agent), RecordOf(Track(t, agent, m).0, agent), Offers(m),
                     Is(m, "negotiate.signal"), Is(m, "negotiate.constrain"), Is(m, "negotiate.withdraw"),
                     HasReasoning(m), exists terms :: OffersTerms(m, terms) && GivesWay(t, agent, terms))
  {
    OfferIff(m);
    TermsIffEach(m);
    assert Concedes(t, agent, m) <==> exists terms :: OffersTerms(m, terms) && GivesWay(t, agent, terms);
    if IsOffer(m) {
      OfferRecorded(t, agent, m);
    } else {
      OtherRecorded(t, agent, m);
    }
  }

  /** An offer uses up a round and, unless it is empty, is remembered; nobody else's record changes. */
  lemma TrackedIs(t: Tracking, agent: Text, m: Envelope)
    requires TypeOf(m).Some? && Track(t, agent, m).1
    ensures var next := Track(t, agent, m).0;
            && next.roundCount == t.roundCount + OneIf(Offers(m))
            && next.behaviors.Keys == t.behaviors.Keys + {agent}
            && (forall a :: a in t.behaviors && a != agent ==> next.behaviors[a] == t.behaviors[a])
            && (forall terms :: OffersTerms(m, terms) ==> next.lastOffers == t.lastOffers[agent := terms])
            && ((forall terms :: !OffersTerms(m, terms)) ==> next.lastOffers == t.lastOffers)
  {
    OfferIff(m);
    TermsIffEach(m);
    if IsOffer(m) {
      OfferRecord(Known(t, agent), agent, m);
    }
  }
}
