/**
 What the summary of a valid bundle is worth: which figures `verify_bundle` vouches for,
 and bundles it accepts with figures that are wrong.
 */
module BundleClaims {
  import opened Wrappers
  import opened Sequences
  import opened Unicode
  import opened PythonValues
  import opened FloatRange
  import opened Crypto
  import opened ReceiptBundle
  import opened CompetenceProof
  import opened BundleVerification
  import AttestationVersion
  import CompetenceIssue
  import Cosign
  import Merkle
  import SetBinding

  /** A claim that says nothing, within the tolerance of the comparison. */
  predicate NearlyEmpty(claimed: Summary) {
    && claimed.total == 0 && claimed.agreements == 0 && claimed.counterparties == 0 && claimed.categories == []
    && Near(claimed.agreementRate, 0.0) && Near(claimed.avgConcession, 0.0) && Near(claimed.reasoningRate, 0.0)
  }

  lemma EmptySummary(s: Setting, agent: Text)
    ensures Summarize(s.round, agent, []) == Some(NO_SUMMARY)
  {
    assert AllFacts(agent, []) == Some([]);
  }

  lemma MatchesNothingIff(claimed: Summary)
    ensures SummaryMatches(NO_SUMMARY, claimed) <==> NearlyEmpty(claimed)
  {
    LimitIsLarge();
    Merkle.SortIdsPermutes(claimed.categories);
    Merkle.SortIdsPermutes([]);
  }

  /**
   What validity says of the claimed summary. It agrees with the recomputed one in every
   field exactly when there are attestations, or nothing is claimed, and the three fields
   that are never compared happen to be right.
   */
  lemma ValidSummaryIsTrueIff(s: Setting, b: Bundle)
    requires ValidBundle(s, b)
    ensures var claimed, actual := b.content.summary, Summarize(s.round, b.content.agentId, b.content.atts).value;
            ClaimsAgree(actual, claimed) <==>
            && (b.content.atts != [] || NearlyEmpty(claimed))
            && Near(claimed.fulfillmentRate, actual.fulfillmentRate)
            && claimed.earliest == actual.earliest && claimed.latest == actual.latest
  {
    if b.content.atts == [] {
      EmptySummary(s, b.content.agentId);
      MatchesNothingIff(b.content.summary);
    }
  }

  /** A signed bundle without attestations is valid whatever its summary claims. */
  lemma EmptyBundleClaimsAnything(s: Setting, key: SecretKey, b: Content)
    requires Correct(s.c) && s.resolve(b.agentId) == Some(s.c.publicOf(key))
    requires b.atts == [] && Signed(s, key, b).Some?
    ensures ValidBundle(s, Signed(s, key, b).value)
  {
    SignedVerifies(s, key, b);
    EmptySummary(s, b.agentId);
    assert ReadAll(s, []) == Some([]);
  }

  /** The content with other values for the fields that the comparison skips. */
  function Restated(b: Content, rate: real, earliest: Text, latest: Text): Content {
    b.(summary := b.summary.(fulfillmentRate := rate, earliest := earliest, latest := latest))
  }

  /** Signing other values for these fields makes no difference to validity. */
  lemma RestatedIsValidIff(s: Setting, key: SecretKey, b: Content, rate: real, earliest: Text, latest: Text)
    requires Correct(s.c) && s.resolve(b.agentId) == Some(s.c.publicOf(key))
    requires Signed(s, key, b).Some? && Signed(s, key, Restated(b, rate, earliest, latest)).Some?
    ensures ValidBundle(s, Signed(s, key, b).value) <==>
            ValidBundle(s, Signed(s, key, Restated(b, rate, earliest, latest)).value)
  {
    SignedVerifies(s, key, b);
    SignedVerifies(s, key, Restated(b, rate, earliest, latest));
  }

  // ---------------------------------------------------------------- a valid bundle with a wrong figure

  /** The party entry of an agent whose key nobody resolves. */
  function UnknownParty(agent: Text): seq<Member> {
    [Member(Cosign.AGENT_ID, Str(agent)), Member(SIGNATURE, Str(Lit("unknown")))]
  }

  /** An attestation of a version that binds nothing. */
  function LegacyAttestation(agent: Text): Attestation {
    [Member(CONCORDIA_ATTESTATION, Str(Lit("0.1.0"))),
     Member(Cosign.PARTIES, Arr(false, [Obj(UnknownParty(agent))]))]
  }

  lemma GetOfTwo(a: Member, b: Member, key: Text)
    ensures Get([a, b], key) == if a.key == key then Some(a.value) else if b.key == key then Some(b.value) else None
  {
    assert [a, b][1..] == [b] && [b][1..] == [];
  }

  lemma LegacyFields(agent: Text)
    ensures var att := LegacyAttestation(agent);
            && Get(att, CONCORDIA_ATTESTATION) == Some(att[0].value) && Get(att, Cosign.PARTIES) == Some(att[1].value)
            && Get(att, ATTESTATION_ID).None? && Get(att, SESSION_ID).None? && Get(att, OUTCOME).None?
            && Get(att, FULFILLMENT).None? && Get(att, META).None? && Get(att, TIMESTAMP).None?
  {
    var att := LegacyAttestation(agent);
    assert |CONCORDIA_ATTESTATION| == 21 && |Cosign.PARTIES| == |OUTCOME| == 7 && |ATTESTATION_ID| == 14;
    assert |SESSION_ID| == 10 && |FULFILLMENT| == 11 && |META| == 4 && |TIMESTAMP| == 9;
    assert Cosign.PARTIES[0] == 'p' as int && OUTCOME[0] == 'o' as int;
    GetOfTwo(att[0], att[1], CONCORDIA_ATTESTATION);
    GetOfTwo(att[0], att[1], Cosign.PARTIES);
    GetOfTwo(att[0], att[1], ATTESTATION_ID);
    GetOfTwo(att[0], att[1], SESSION_ID);
    GetOfTwo(att[0], att[1], OUTCOME);
    GetOfTwo(att[0], att[1], FULFILLMENT);
    GetOfTwo(att[0], att[1], META);
    GetOfTwo(att[0], att[1], TIMESTAMP);
  }

  lemma PartyFields(agent: Text)
    ensures Get(UnknownParty(agent), Cosign.AGENT_ID) == Some(Str(agent))
    ensures Get(UnknownParty(agent), SIGNATURE) == Some(Str(Lit("unknown")))
    ensures Get(UnknownParty(agent), BEHAVIOR).None?
  {
    var party := UnknownParty(agent);
    assert |Cosign.AGENT_ID| == |BEHAVIOR| == 8 && |SIGNATURE| == 9;
    assert Cosign.AGENT_ID[0] == 'a' as int && BEHAVIOR[0] == 'b' as int;
    GetOfTwo(party[0], party[1], Cosign.AGENT_ID);
    GetOfTwo(party[0], party[1], SIGNATURE);
    GetOfTwo(party[0], party[1], BEHAVIOR);
  }

  lemma LegacyVersion()
    ensures AttestationVersion.Parse(Some(Str(Lit("0.1.0")))) == Some(AttestationVersion.Version(0, 1, 0))
  {
    assert Lit("0.1.0") == AttestationVersion.ShortText(0, 1, 0);
    AttestationVersion.ShortParses(0, 1, 0);
  }

  lemma LegacyParties(agent: Text)
    ensures PartiesOf(LegacyAttestation(agent)) == Some([UnknownParty(agent)])
    ensures HeadingOf(LegacyAttestation(agent)) == Some(Heading([], [], [UnknownParty(agent)], [agent]))
  {
    LegacyFields(agent);
    PartyFields(agent);
    EachOne(AsDict, Obj(UnknownParty(agent)));
    EachOne(PartyId, UnknownParty(agent));
  }

  lemma LegacyReading(s: Setting, agent: Text)
    requires s.keyFor(agent, []).None?
    ensures Read(s, LegacyAttestation(agent))
         == Some(Reading([], [], [CheckedParty(agent, Unresolved)], Unbound, SetBinding.LegacySetUnbound))
  {
    LegacyFields(agent);
    PartyFields(agent);
    LegacyParties(agent);
    LegacyVersion();
    var h := HeadingOf(LegacyAttestation(agent)).value;
    assert |Lit("unknown")| == 7;
    assert PartiesChecked(s.c, InSession(s.keyFor, []), h) == [CheckedParty(agent, Unresolved)];
  }

  lemma LegacyFacts(agent: Text)
    ensures FactsOf(agent, LegacyAttestation(agent))
         == Some(Facts(false, [PartyFacts(None, None, false)], None, None, None))
  {
    LegacyFields(agent);
    PartyFields(agent);
    LegacyParties(agent);
    assert FactsOfParty(agent, UnknownParty(agent)) == Some(PartyFacts(None, None, false));
    EachOne(p => FactsOfParty(agent, p), UnknownParty(agent));
  }

  lemma LegacyTally()
    ensures var t := TallyOf([Facts(false, [PartyFacts(None, None, false)], None, None, None)]);
            && t.total == 1 && t.agreed == [] && t.concessions == [] && t.reasoned == []
            && t.fulfilled == [] && t.rated == []
  {
    var p, f := PartyFacts(None, None, false), Facts(false, [PartyFacts(None, None, false)], None, None, None);
    TallyAppend([], f);
    assert [] + [f] == [f];
    assert [p][..0] == [] && ConcessionsIn(f) == [] && Reasoned(f) == [];
  }

  /** The rates of such an attestation's summary are zero before rounding. */
  lemma LegacySummary(s: Setting, agent: Text)
    ensures Summarize(s.round, agent, [LegacyAttestation(agent)]).Some?
    ensures var m := Summarize(s.round, agent, [LegacyAttestation(agent)]).value;
            m.agreementRate == m.avgConcession == m.fulfillmentRate == m.reasoningRate == s.round(0.0)
  {
    LegacyFacts(agent);
    LegacyTally();
    EachOne(a => FactsOf(agent, a), LegacyAttestation(agent));
  }

  /** The only attestation is old, and the summary is the one that `create` computes. */
  predicate IsLegacy(s: Setting, b: Content) {
    && b.atts == [LegacyAttestation(b.agentId)] && Summarize(s.round, b.agentId, b.atts) == Some(b.summary)
    && RatesInRange(b.summary)
  }

  lemma LegacySound(s: Setting, agent: Text)
    requires s.keyFor(agent, []).None?
    ensures ReadAll(s, [LegacyAttestation(agent)]).Some?
    ensures var rs := ReadAll(s, [LegacyAttestation(agent)]).value;
            AllSound(rs) && NoRepeats(ReadingIds(rs)) && NoRepeats(Sessions(rs))
    ensures CompetenceIssue.PartyInAll(agent, [LegacyAttestation(agent)])
  {
    LegacyReading(s, agent);
    LegacyParties(agent);
    EachOne(a => Read(s, a), LegacyAttestation(agent));
    EachOne(PartyId, UnknownParty(agent));
  }

  lemma LegacyIsCreated(s: Setting, key: SecretKey, b: Content)
    requires IsLegacy(s, b) && s.keyFor(b.agentId, []).None?
    ensures Create(s, key, b.bundleId, b.createdAt, b.agentId, b.atts) == Signed(s, key, b)
  {
    LegacySound(s, b.agentId);
  }

  lemma LegacyIsValid(s: Setting, key: SecretKey, b: Content)
    requires Correct(s.c) && s.resolve(b.agentId) == Some(s.c.publicOf(key)) && s.keyFor(b.agentId, []).None?
    requires IsLegacy(s, b) && Signed(s, key, b).Some?
    ensures ValidBundle(s, Signed(s, key, b).value)
  {
    LegacySound(s, b.agentId);
    LegacyIsCreated(s, key, b);
    CreatedBundleValidIff(s, key, b.bundleId, b.createdAt, b.agentId, b.atts);
  }

  /** One old attestation suffices: with the right rate and with a wrong one the bundle is valid. */
  lemma WrongRateAccepted(s: Setting, key: SecretKey, b: Content, wrong: Content)
    requires Correct(s.c) && s.resolve(b.agentId) == Some(s.c.publicOf(key)) && s.keyFor(b.agentId, []).None?
    requires IsLegacy(s, b)
    requires wrong == Restated(b, b.summary.fulfillmentRate + 1.0, b.summary.earliest, b.summary.latest)
    requires Signed(s, key, b).Some? && Signed(s, key, wrong).Some?
    ensures ValidBundle(s, Signed(s, key, b).value) && ValidBundle(s, Signed(s, key, wrong).value)
    ensures !Near(wrong.summary.fulfillmentRate, Summarize(s.round, wrong.agentId, wrong.atts).value.fulfillmentRate)
  {
    LegacyIsValid(s, key, b);
    RestatedIsValidIff(s, key, b, b.summary.fulfillmentRate + 1.0, b.summary.earliest, b.summary.latest);
  }

  /** Every agent has such a bundle, as long as rounding zero gives a float. */
  lemma LegacyBundleExists(s: Setting, bundleId: Text, createdAt: Text, agent: Text) returns (b: Content)
    requires InFloatRange(s.round(0.0))
    ensures IsLegacy(s, b) && b.agentId == agent && b.bundleId == bundleId && b.createdAt == createdAt
  {
    LegacySummary(s, agent);
    b := Content(bundleId, agent, createdAt, [LegacyAttestation(agent)],
                 Summarize(s.round, agent, [LegacyAttestation(agent)]).value);
  }
}
