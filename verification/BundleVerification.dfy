/** Making and verifying receipt bundles (`concordia/receipt_bundle.py`). */
module BundleVerification {
  import opened Wrappers
  import opened Sequences
  import opened Unicode
  import opened PythonValues
  import opened FloatRange
  import opened Crypto
  import opened ReceiptBundle
  import opened CompetenceProof
  import CompetenceIssue
  import Merkle
  import Message
  import SetBinding

  const SESSION_ID: Text := Lit("session_id")

  /** The signed fields of a bundle. */
  datatype Content = Content(
    bundleId: Text, agentId: Text, createdAt: Text, atts: seq<Attestation>, summary: Summary)

  datatype Bundle = Bundle(content: Content, signature: Text)

  /** `resolve_attestation_key(agent_id, session_id)` */
  type SessionKeys = (Text, Text) -> Option<PublicKey>

  /** Signing, key resolution, `round(x, 4)`, and the canonical bytes of the signed fields. */
  datatype Setting = Setting(
    c: Scheme, resolve: KeyResolver, keyFor: SessionKeys, round: Rounding, payload: Content -> Option<Bytes>)

  // ---------------------------------------------------------------- one attestation

  datatype CheckedParty = CheckedParty(id: Text, check: PartyCheck)

  /** Everything the verifier learns from one attestation. */
  datatype Reading = Reading(
    id: Text, session: Text, parties: seq<CheckedParty>, binding: Binding, setState: SetBinding.BindingState)

  function InSession(keyFor: SessionKeys, session: Text): KeyResolver {
    pid => keyFor(pid, session)
  }

  /** No transcript is at hand, so nothing is ever hashed. */
  function Unhashed(m: Message.Envelope): Option<Text> {
    None
  }

  function Paired(ids: seq<Text>, checks: seq<PartyCheck>): (r: seq<CheckedParty>)
    requires |ids| == |checks|
    ensures |r| == |ids| && forall i :: 0 <= i < |ids| ==> r[i] == CheckedParty(ids[i], checks[i])
  {
    seq(|ids|, i requires 0 <= i < |ids| => CheckedParty(ids[i], checks[i]))
  }

  /** What is taken out of an attestation before anything is checked. */
  datatype Heading = Heading(id: Text, session: Text, parties: seq<seq<Member>>, ids: seq<Text>)

  function HeadingOf(att: Attestation): (h: Option<Heading>)
    ensures h.Some? ==> |h.value.ids| == |h.value.parties|
  {
    var parties :- PartiesOf(att);
    var ids :- Each(PartyId, parties);
    var id :- IdOf(att);
    var session :- TextAt(att, SESSION_ID);
    Some(Heading(id, session, parties, ids))
  }

  function PartiesChecked(c: Scheme, keys: KeyResolver, h: Heading): seq<CheckedParty>
    requires |h.ids| == |h.parties|
  {
    Paired(h.ids, CheckParties(c, keys, h.parties, h.ids))
  }

  function SetState(att: Attestation): SetBinding.BindingState {
    SetBinding.Evaluate(Unhashed, att, None)
  }

  /** `None` when looking at the attestation raises. */
  function Read(s: Setting, att: Attestation): Option<Reading> {
    var h :- HeadingOf(att);
    var keys := InSession(s.keyFor, h.session);
    var binding :- OutcomeBinding(s.c, keys, att);
    Some(Reading(h.id, h.session, PartiesChecked(s.c, keys, h), binding, SetState(att)))
  }

  function ReadAll(s: Setting, atts: seq<Attestation>): (rs: Option<seq<Reading>>)
    ensures rs.Some? ==> |rs.value| == |atts|
  {
    Each(a => Read(s, a), atts)
  }

  predicate IsParty(agent: Text, parties: seq<CheckedParty>) {
    exists p :: p in parties && p.id == agent
  }

  predicate NoBadSignature(parties: seq<CheckedParty>) {
    forall p :: p in parties ==> p.check != BadSignature
  }

  /** The attestation alone gives no error, whoever presents it. */
  predicate Sound(r: Reading) {
    NoBadSignature(r.parties) && r.binding != BindingError && r.setState != SetBinding.Error
  }

  // ---------------------------------------------------------------- all attestations

  function PartiesIn(r: Reading): seq<CheckedParty> {
    r.parties
  }

  function AllParties(rs: seq<Reading>): seq<CheckedParty> {
    FlatMap(PartiesIn, rs)
  }

  /** Counterparties one of whose signatures verified. */
  function Confirmed(agent: Text, parties: seq<CheckedParty>): set<Text> {
    set p | p in parties && p.check == Verified && p.id != agent :: p.id
  }

  /** Counterparties one of whose signatures did not. */
  function Doubted(agent: Text, parties: seq<CheckedParty>): set<Text> {
    set p | p in parties && p.check != Verified && p.id != agent :: p.id
  }

  function BoundFlag(r: Reading): seq<bool> {
    Flag(r.binding == Bound)
  }

  function UnboundId(r: Reading): seq<Text> {
    if r.binding == Bound then [] else [r.id]
  }

  function ReadingIds(rs: seq<Reading>): (ids: seq<Text>)
    ensures |ids| == |rs| && forall i :: 0 <= i < |rs| ==> ids[i] == rs[i].id
  {
    seq(|rs|, i requires 0 <= i < |rs| => rs[i].id)
  }

  function Sessions(rs: seq<Reading>): (ids: seq<Text>)
    ensures |ids| == |rs| && forall i :: 0 <= i < |rs| ==> ids[i] == rs[i].session
  {
    seq(|rs|, i requires 0 <= i < |rs| => rs[i].session)
  }

  predicate AllSound(rs: seq<Reading>) {
    forall i :: 0 <= i < |rs| ==> Sound(rs[i])
  }

  predicate PartyOfAll(agent: Text, rs: seq<Reading>) {
    forall i :: 0 <= i < |rs| ==> IsParty(agent, rs[i].parties)
  }

  /** What the loops over the attestations collect. */
  datatype Findings = Findings(
    clean: bool, verified: set<Text>, doubted: set<Text>, bound: nat, unbound: seq<Text>, setUnbound: seq<Text>)

  function FindingsOf(agent: Text, rs: seq<Reading>): Findings {
    Findings(AllSound(rs) && PartyOfAll(agent, rs), Confirmed(agent, AllParties(rs)), Doubted(agent, AllParties(rs)),
             |FlatMap(BoundFlag, rs)|, FlatMap(UnboundId, rs), ReadingIds(rs))
  }

  // ---------------------------------------------------------------- the verdict

  /** The comparison of a recomputed summary with the claimed one, which skips three fields. */
  predicate SummaryMatches(s: Summary, claimed: Summary) {
    && claimed.total == s.total && claimed.agreements == s.agreements && claimed.counterparties == s.counterparties
    && Near(claimed.agreementRate, s.agreementRate) && NearMean(claimed.avgConcession, s.avgConcession)
    && Near(claimed.reasoningRate, s.reasoningRate)
    && Merkle.SortIds(claimed.categories) == Merkle.SortIds(s.categories)
  }

  predicate SummaryAccurate(s: Setting, b: Content)
    requires Summarize(s.round, b.agentId, b.atts).Some?
  {
    b.atts == [] || SummaryMatches(Summarize(s.round, b.agentId, b.atts).value, b.summary)
  }

  predicate BundleSigned(s: Setting, b: Bundle) {
    match (s.resolve(b.content.agentId), s.payload(b.content))
    case (Some(key), Some(payload)) => VerifyText(s.c, key, payload, b.signature)
    case _ => false
  }

  /** The claimed rates can be compared with floats. */
  predicate ClaimsComparable(claimed: Summary) {
    InFloatRange(claimed.agreementRate) && InFloatRange(claimed.avgConcession) && InFloatRange(claimed.reasoningRate)
  }

  /** Whether `verify_bundle` returns at all. */
  predicate Returns(s: Setting, b: Content) {
    && ReadAll(s, b.atts).Some? && Summarize(s.round, b.agentId, b.atts).Some?
    && (b.atts != [] ==> ClaimsComparable(b.summary))
  }

  /** What a valid bundle promises. */
  ghost predicate ValidBundle(s: Setting, b: Bundle) {
    && Returns(s, b.content) && BundleSigned(s, b) && SummaryAccurate(s, b.content)
    && var rs := ReadAll(s, b.content.atts).value;
       && AllSound(rs) && PartyOfAll(b.content.agentId, rs) && NoRepeats(ReadingIds(rs)) && NoRepeats(Sessions(rs))
  }

  datatype Verdict = Verdict(
    valid: bool, summaryAccurate: bool, verified: nat, unverified: set<Text>, overclaims: bool,
    bound: nat, unbound: seq<Text>, setUnbound: seq<Text>)

  // ---------------------------------------------------------------- the verifier

  /** What the loop over the parties of one attestation gives. */
  datatype Signatures = Signatures(clean: bool, present: bool, verified: set<Text>, doubted: set<Text>)

  /** After the parties `now`, the parties of earlier attestations being `before`. */
  function SignaturesOf(agent: Text, before: seq<CheckedParty>, now: seq<CheckedParty>): Signatures {
    Signatures(NoBadSignature(now), IsParty(agent, now), Confirmed(agent, before + now), Doubted(agent, before + now))
  }

  function AddSignature(agent: Text, g: Signatures, p: CheckedParty): Signatures {
    Signatures(g.clean && p.check != BadSignature, g.present || p.id == agent,
               if p.id != agent && p.check == Verified then g.verified + {p.id} else g.verified,
               if p.id != agent && p.check != Verified then g.doubted + {p.id} else g.doubted)
  }

  lemma CollectAppend(agent: Text, parties: seq<CheckedParty>, p: CheckedParty)
    ensures Confirmed(agent, parties + [p])
         == Confirmed(agent, parties) + if p.id != agent && p.check == Verified then {p.id} else {}
    ensures Doubted(agent, parties + [p])
         == Doubted(agent, parties) + if p.id != agent && p.check != Verified then {p.id} else {}
  {
    assert forall q :: q in parties + [p] <==> q in parties || q == p;
  }

  lemma SignaturesAppend(agent: Text, before: seq<CheckedParty>, now: seq<CheckedParty>, p: CheckedParty)
    ensures SignaturesOf(agent, before, now + [p]) == AddSignature(agent, SignaturesOf(agent, before, now), p)
  {
    assert before + (now + [p]) == before + now + [p];
    CollectAppend(agent, before + now, p);
    assert forall q :: q in now + [p] <==> q in now || q == p;
  }

  /** The loop over the parties of one attestation. */
  method CheckSignatures(c: Scheme, keys: KeyResolver, agent: Text, h: Heading,
                         ghost before: seq<CheckedParty>, verified: set<Text>, doubted: set<Text>)
    returns (g: Signatures)
    requires |h.ids| == |h.parties| && verified == Confirmed(agent, before) && doubted == Doubted(agent, before)
    ensures g == SignaturesOf(agent, before, PartiesChecked(c, keys, h))
  {
    g := Signatures(true, false, verified, doubted);
    ghost var now := PartiesChecked(c, keys, h);
    assert before + now[..0] == before;
    for j := 0 to |h.parties|
      invariant g == SignaturesOf(agent, before, now[..j])
    {
      assert now[..j + 1] == now[..j] + [now[j]];
      SignaturesAppend(agent, before, now[..j], now[j]);
      var check := CheckParty(c, keys, h.parties[j], h.ids[j]);
      if h.ids[j] == agent {
        g := g.(present := true);
      } else if check == Verified {
        g := g.(verified := g.verified + {h.ids[j]});
      } else {
        g := g.(doubted := g.doubted + {h.ids[j]});
      }
      if check == BadSignature {
        g := g.(clean := false);
      }
    }
    assert now[..|h.parties|] == now;
  }

  /** The findings after one more attestation. */
  function Noted(f: Findings, id: Text, g: Signatures, binding: Binding, setState: SetBinding.BindingState): Findings {
    Findings(f.clean && g.clean && g.present && binding != BindingError && setState != SetBinding.Error,
             g.verified, g.doubted, f.bound + |Flag(binding == Bound)|,
             f.unbound + (if binding == Bound then [] else [id]), f.setUnbound + [id])
  }

  /** The same, for an attestation whose parties come after `before`. */
  function Added(agent: Text, f: Findings, before: seq<CheckedParty>, r: Reading): Findings {
    Noted(f, r.id, SignaturesOf(agent, before, r.parties), r.binding, r.setState)
  }

  lemma FindingsAppend(agent: Text, rs: seq<Reading>, r: Reading)
    ensures FindingsOf(agent, rs + [r]) == Added(agent, FindingsOf(agent, rs), AllParties(rs), r)
  {
    var longer := rs + [r];
    assert longer[|rs|] == r && longer[..|rs|] == rs;
    assert forall i :: 0 <= i < |rs| ==> longer[i] == rs[i];
    assert AllSound(longer) <==> AllSound(rs) && Sound(longer[|rs|]);
    assert PartyOfAll(agent, longer) <==> PartyOfAll(agent, rs) && IsParty(agent, longer[|rs|].parties);
    assert ReadingIds(longer) == ReadingIds(rs) + [r.id];
  }

  /** The part of the loops that looks at one attestation; `None` when it raises. */
  method CheckAttestation(s: Setting, agent: Text, att: Attestation, f: Findings, ghost rs: seq<Reading>)
    returns (next: Option<Findings>, id: Text, session: Text)
    requires f.verified == Confirmed(agent, AllParties(rs)) && f.doubted == Doubted(agent, AllParties(rs))
    ensures next == match Read(s, att)
                    case None => None
                    case Some(r) => Some(Added(agent, f, AllParties(rs), r))
    ensures next.Some? ==> id == Read(s, att).value.id && session == Read(s, att).value.session
  {
    id, session := [], [];
    var heading := HeadingOf(att);
    if heading.None? {
      return None, id, session;
    }
    var h := heading.value;
    id, session := h.id, h.session;
    var keys := InSession(s.keyFor, session);
    var g := CheckSignatures(s.c, keys, agent, h, AllParties(rs), f.verified, f.doubted);
    var binding := EvaluateOutcomeBinding(s.c, keys, att);
    if binding.None? {
      return None, id, session;
    }
    var noted := Note(f, id, g, binding.value, SetState(att));
    ReadIs(s, att, h, binding.value);
    next := Some(noted);
  }

  lemma ReadIs(s: Setting, att: Attestation, h: Heading, binding: Binding)
    requires HeadingOf(att) == Some(h) && OutcomeBinding(s.c, InSession(s.keyFor, h.session), att) == Some(binding)
    ensures Read(s, att)
         == Some(Reading(h.id, h.session, PartiesChecked(s.c, InSession(s.keyFor, h.session), h), binding,
             SetState(att)))
  {
  }

  method Note(f: Findings, id: Text, g: Signatures, binding: Binding, setState: SetBinding.BindingState)
    returns (next: Findings)
    ensures next == Noted(f, id, g, binding, setState)
  {
    next := f.(clean := f.clean && g.clean && g.present, verified := g.verified, doubted := g.doubted);
    if binding == Bound {
      next := next.(bound := f.bound + 1);
      assert f.unbound + [] == f.unbound;
    } else {
      next := next.(clean := next.clean && binding == Unbound, unbound := f.unbound + [id]);
    }
    next := next.(clean := next.clean && setState != SetBinding.Error, setUnbound := f.setUnbound + [id]);
  }

  /** `len(set(ids)) == len(ids)` */
  method CheckDistinct(ids: seq<Text>) returns (distinct: bool)
    ensures distinct <==> NoRepeats(ids)
  {
    var one := set id | id in ids;
    assert one == IdsAt(ids, Indices(|ids|));
    IndexCount(|ids|);
    if NoRepeats(ids) {
      DistinctIdsCount(ids, Indices(|ids|));
    } else if |one| == |ids| {
      FullSetMeansDistinct(ids, Indices(|ids|));
    }
    return |one| == |ids|;
  }

  /** The loops over the attestations; `None` when one raises. */
  method CheckAttestations(s: Setting, agent: Text, atts: seq<Attestation>)
    returns (found: Option<Findings>, ids: seq<Text>, sessions: seq<Text>)
    ensures found == match ReadAll(s, atts)
                     case None => None
                     case Some(rs) => Some(FindingsOf(agent, rs))
    ensures found.Some? ==> ids == ReadingIds(ReadAll(s, atts).value) && sessions == Sessions(ReadAll(s, atts).value)
  {
    ids, sessions := [], [];
    var f := Findings(true, {}, {}, 0, [], []);
    ghost var rs: seq<Reading> := [];
    TakeAll(atts);
    for k := 0 to |atts|
      invariant ReadAll(s, atts[..k]) == Some(rs) && f == FindingsOf(agent, rs)
      invariant ids == ReadingIds(rs) && sessions == Sessions(rs)
    {
      EachPrefix(a => Read(s, a), atts, k);
      var next, id, session := CheckAttestation(s, agent, atts[k], f, rs);
      if next.None? {
        return None, ids, sessions;
      }
      FindingsAppend(agent, rs, Read(s, atts[k]).value);
      rs := rs + [Read(s, atts[k]).value];
      f, ids, sessions := next.value, ids + [id], sessions + [session];
    }
    return Some(f), ids, sessions;
  }

  /** `verify_bundle`; `None` when it raises. */
  method VerifyBundle(s: Setting, b: Bundle) returns (verdict: Option<Verdict>)
    ensures verdict.Some? <==> Returns(s, b.content)
    ensures verdict.Some? ==>
              var v, f := verdict.value, FindingsOf(b.content.agentId, ReadAll(s, b.content.atts).value);
              && (v.valid <==> ValidBundle(s, b)) && (v.summaryAccurate <==> SummaryAccurate(s, b.content))
              && v.verified == |f.verified| && v.unverified == f.doubted - f.verified
              && (v.overclaims <==> b.content.summary.counterparties > v.verified)
              && v.bound == f.bound && v.unbound == f.unbound && v.setUnbound == f.setUnbound
  {
    var content := b.content;
    var found, ids, sessions := CheckAttestations(s, content.agentId, content.atts);
    if found.None? {
      return None;
    }
    var distinctIds := CheckDistinct(ids);
    var distinctSessions := CheckDistinct(sessions);
    var recomputed := ComputeSummary(s.round, content.agentId, content.atts);
    if recomputed.None? || (content.atts != [] && !ClaimsComparable(content.summary)) {
      return None;
    }
    var f := found.value;
    var accurate := content.atts == [] || SummaryMatches(recomputed.value, content.summary);
    return Some(Verdict(
      BundleSigned(s, b) && f.clean && distinctIds && distinctSessions && accurate, accurate,
      |f.verified|, f.doubted - f.verified, content.summary.counterparties > |f.verified|,
      f.bound, f.unbound, f.setUnbound));
  }

  // ---------------------------------------------------------------- who is credited

  lemma {:induction false} FlatMapHolds<S, T>(f: S -> seq<T>, xs: seq<S>, x: T)
    ensures x in FlatMap(f, xs) <==> exists i :: 0 <= i < |xs| && x in f(xs[i])
    decreases |xs|
  {
    if xs != [] {
      var init, last := xs[..|xs| - 1], xs[|xs| - 1];
      FlatMapHolds(f, init, x);
      if i :| 0 <= i < |xs| && x in f(xs[i]) {
        assert i < |init| ==> init[i] == xs[i];
      }
      if i :| 0 <= i < |init| && x in f(init[i]) {
        assert xs[i] == init[i];
      }
    }
  }

  /** Entry `j` of an attestation names `pid` and carries its verifying signature. */
  predicate SignedBy(s: Setting, att: Attestation, j: nat, pid: Text) {
    && HeadingOf(att).Some? && j < |HeadingOf(att).value.parties|
    && var h := HeadingOf(att).value;
       var signature, key := Get(h.parties[j], SIGNATURE), s.keyFor(pid, h.session);
       && h.ids[j] == pid && signature.Some? && signature.value.Str? && signature.value.s != [] && key.Some?
       && PartySignatureVerifies(s.c, h.parties[j], signature.value, key.value)
  }

  lemma CheckedIs(s: Setting, att: Attestation, j: nat)
    requires Read(s, att).Some? && j < |Read(s, att).value.parties|
    ensures HeadingOf(att).Some? && j < |HeadingOf(att).value.parties|
    ensures Read(s, att).value.parties[j].id == HeadingOf(att).value.ids[j]
    ensures Read(s, att).value.parties[j].check == Verified <==> SignedBy(s, att, j, HeadingOf(att).value.ids[j])
  {
    var h := HeadingOf(att).value;
    var p := Read(s, att).value.parties[j];
    assert p == CheckedParty(h.ids[j], CheckParty(s.c, InSession(s.keyFor, h.session), h.parties[j], h.ids[j]));
  }

  lemma ReadingsAre(s: Setting, atts: seq<Attestation>)
    requires ReadAll(s, atts).Some?
    ensures forall i :: 0 <= i < |atts| ==> Read(s, atts[i]) == Some(ReadAll(s, atts).value[i])
  {
    EachFails(a => Read(s, a), atts);
  }

  lemma PartyOfReading(rs: seq<Reading>, p: CheckedParty)
    ensures p in AllParties(rs) <==> exists i, j :: 0 <= i < |rs| && 0 <= j < |rs[i].parties| && rs[i].parties[j] == p
  {
    FlatMapHolds(PartiesIn, rs, p);
    if i :| 0 <= i < |rs| && p in PartiesIn(rs[i]) {
      var j :| 0 <= j < |rs[i].parties| && rs[i].parties[j] == p;
    }
    if i, j :| 0 <= i < |rs| && 0 <= j < |rs[i].parties| && rs[i].parties[j] == p {
      assert p in PartiesIn(rs[i]);
    }
  }

  lemma ConfirmedInReadings(agent: Text, rs: seq<Reading>, pid: Text)
    ensures pid in Confirmed(agent, AllParties(rs)) <==>
            pid != agent && exists i, j ::
              0 <= i < |rs| && 0 <= j < |rs[i].parties| && rs[i].parties[j] == CheckedParty(pid, Verified)
  {
    PartyOfReading(rs, CheckedParty(pid, Verified));
  }

  lemma MentionedInReadings(agent: Text, rs: seq<Reading>, pid: Text)
    ensures pid in Confirmed(agent, AllParties(rs)) + Doubted(agent, AllParties(rs)) <==>
            pid != agent && exists i, j :: 0 <= i < |rs| && 0 <= j < |rs[i].parties| && rs[i].parties[j].id == pid
  {
    PartyOfReading(rs, CheckedParty(pid, Verified));
    PartyOfReading(rs, CheckedParty(pid, Unresolved));
    PartyOfReading(rs, CheckedParty(pid, BadSignature));
    if i, j :| 0 <= i < |rs| && 0 <= j < |rs[i].parties| && rs[i].parties[j].id == pid {
      assert rs[i].parties[j] == CheckedParty(pid, rs[i].parties[j].check);
    }
  }

  /** A counterparty is credited exactly when its signature verifies on some attestation. */
  lemma ConfirmedIff(s: Setting, agent: Text, atts: seq<Attestation>, pid: Text)
    requires ReadAll(s, atts).Some?
    ensures pid in Confirmed(agent, AllParties(ReadAll(s, atts).value)) <==>
            pid != agent && exists i, j: nat :: 0 <= i < |atts| && SignedBy(s, atts[i], j, pid)
  {
    var rs := ReadAll(s, atts).value;
    ReadingsAre(s, atts);
    ConfirmedInReadings(agent, rs, pid);
    if i, j :| 0 <= i < |rs| && 0 <= j < |rs[i].parties| && rs[i].parties[j] == CheckedParty(pid, Verified) {
      CheckedIs(s, atts[i], j);
    }
    if i, j: nat :| 0 <= i < |atts| && SignedBy(s, atts[i], j, pid) {
      CheckedIs(s, atts[i], j);
      assert rs[i].parties[j] == CheckedParty(pid, Verified);
    }
  }

  // ---------------------------------------------------------------- counterparties add up

  lemma NoRepeatsSize(xs: seq<Text>)
    requires NoRepeats(xs)
    ensures |set x | x in xs| == |xs|
  {
    assert (set x | x in xs) == IdsAt(xs, Indices(|xs|));
    IndexCount(|xs|);
    DistinctIdsCount(xs, Indices(|xs|));
  }

  lemma SplitSize(xs: seq<Text>, a: set<Text>, b: set<Text>)
    requires forall x :: x in xs <==> x in a + b
    ensures |Distinct(xs)| == |a| + |b - a|
  {
    DistinctIs(xs);
    NoRepeatsSize(Distinct(xs));
    assert (set x | x in Distinct(xs)) == a + (b - a);
  }

  lemma CounterpartyOf(agent: Text, party: seq<Member>, f: PartyFacts, x: Text)
    requires FactsOfParty(agent, party) == Some(f)
    ensures x in Few(f.counterparty) <==> x != agent && PartyId(party) == Some(x)
  {
  }

  /** The summary counts as counterparties of one attestation whom the verifier checks. */
  lemma CounterpartiesChecked(s: Setting, agent: Text, att: Attestation, x: Text)
    requires Read(s, att).Some? && FactsOf(agent, att).Some?
    ensures x in Counterparties(FactsOf(agent, att).value) <==>
            x != agent && exists j :: 0 <= j < |Read(s, att).value.parties| && Read(s, att).value.parties[j].id == x
  {
    var parties := PartiesOf(att).value;
    var facts := FactsOf(agent, att).value.parties;
    var r := Read(s, att).value;
    EachFails(p => FactsOfParty(agent, p), parties);
    EachFails(PartyId, parties);
    FlatMapHolds((p: PartyFacts) => Few(p.counterparty), facts, x);
    forall j | 0 <= j < |facts|
      ensures x in Few(facts[j].counterparty) <==> x != agent && r.parties[j].id == x
    {
      CheckedIs(s, att, j);
      CounterpartyOf(agent, parties[j], facts[j], x);
    }
  }

  lemma FactsAre(agent: Text, atts: seq<Attestation>)
    requires AllFacts(agent, atts).Some?
    ensures forall i :: 0 <= i < |atts| ==> FactsOf(agent, atts[i]) == Some(AllFacts(agent, atts).value[i])
  {
    EachFails(a => FactsOf(agent, a), atts);
  }

  lemma CountedIsChecked(s: Setting, agent: Text, atts: seq<Attestation>, x: Text)
    requires ReadAll(s, atts).Some? && AllFacts(agent, atts).Some?
    ensures x in FlatMap(Counterparties, AllFacts(agent, atts).value) <==>
            var all := AllParties(ReadAll(s, atts).value); x in Confirmed(agent, all) + Doubted(agent, all)
  {
    var rs, fs := ReadAll(s, atts).value, AllFacts(agent, atts).value;
    ReadingsAre(s, atts);
    FactsAre(agent, atts);
    FlatMapHolds(Counterparties, fs, x);
    MentionedInReadings(agent, rs, x);
    forall i | 0 <= i < |fs|
      ensures x in Counterparties(fs[i]) <==>
              x != agent && exists j :: 0 <= j < |rs[i].parties| && rs[i].parties[j].id == x
    {
      CounterpartiesChecked(s, agent, atts[i], x);
    }
  }

  /** Every counterparty the summary counts is either credited or listed as unverified, and never both. */
  lemma CounterpartiesAddUp(s: Setting, b: Content)
    requires Returns(s, b)
    ensures var f := FindingsOf(b.agentId, ReadAll(s, b.atts).value);
            |f.verified| + |f.doubted - f.verified| == Summarize(s.round, b.agentId, b.atts).value.counterparties
  {
    var f := FindingsOf(b.agentId, ReadAll(s, b.atts).value);
    var all := FlatMap(Counterparties, AllFacts(b.agentId, b.atts).value);
    forall x
      ensures x in all <==> x in f.verified + f.doubted
    {
      CountedIsChecked(s, b.agentId, b.atts, x);
    }
    SplitSize(all, f.verified, f.doubted);
  }

  /**
   In a valid bundle with attestations the claimed counterparties exceed the credited ones
   exactly when someone is unverified; without attestations any positive claim does.
   */
  lemma OverclaimMeansUnverified(s: Setting, b: Bundle)
    requires ValidBundle(s, b)
    ensures var f := FindingsOf(b.content.agentId, ReadAll(s, b.content.atts).value);
            b.content.summary.counterparties > |f.verified| <==>
            if b.content.atts == [] then b.content.summary.counterparties > 0 else f.doubted - f.verified != {}
  {
    CounterpartiesAddUp(s, b.content);
  }

  /** An attestation is counted as bound or listed as unbound. */
  lemma {:induction false} BoundOrListed(rs: seq<Reading>)
    ensures |FlatMap(BoundFlag, rs)| + |FlatMap(UnboundId, rs)| == |rs|
  {
    if rs != [] {
      BoundOrListed(rs[..|rs| - 1]);
    }
  }

  // ---------------------------------------------------------------- creation

  function Signed(s: Setting, key: SecretKey, b: Content): Option<Bundle> {
    var payload :- s.payload(b);
    Some(Bundle(b, SignText(s.c, key, payload)))
  }

  /**
   `ReceiptBundle.create` on values, with the id and the time it generates; `None` when it
   raises. An infinite mean has no canonical form.
   */
  function Create(s: Setting, key: SecretKey, bundleId: Text, createdAt: Text, agent: Text, atts: seq<Attestation>):
    Option<Bundle>
  {
    if !CompetenceIssue.PartyInAll(agent, atts) then None
    else
      var summary :- Summarize(s.round, agent, atts);
      if !RatesInRange(summary) then None
      else Signed(s, key, Content(bundleId, agent, createdAt, atts, summary))
  }

  /** `ReceiptBundle.create` */
  method CreateBundle(s: Setting, key: SecretKey, bundleId: Text, createdAt: Text, agent: Text, atts: seq<Attestation>)
    returns (b: Option<Bundle>)
    ensures b == Create(s, key, bundleId, createdAt, agent, atts)
  {
    var member := CompetenceIssue.CheckPartyInAll(agent, atts);
    if !member {
      return None;
    }
    var summary := ComputeSummary(s.round, agent, atts);
    if summary.None? || !RatesInRange(summary.value) {
      return None;
    }
    return Signed(s, key, Content(bundleId, agent, createdAt, atts, summary.value));
  }

  lemma PartyIsRead(s: Setting, agent: Text, att: Attestation)
    requires CompetenceIssue.PartyIn(agent, att) && Read(s, att).Some?
    ensures IsParty(agent, Read(s, att).value.parties)
  {
    var h := HeadingOf(att).value;
    var j :| 0 <= j < |h.ids| && h.ids[j] == agent;
    CheckedIs(s, att, j);
    assert Read(s, att).value.parties[j] in Read(s, att).value.parties;
  }

  lemma PartiesAreRead(s: Setting, agent: Text, atts: seq<Attestation>)
    requires CompetenceIssue.PartyInAll(agent, atts) && ReadAll(s, atts).Some?
    ensures PartyOfAll(agent, ReadAll(s, atts).value)
  {
    ReadingsAre(s, atts);
    forall i | 0 <= i < |atts|
      ensures IsParty(agent, ReadAll(s, atts).value[i].parties)
    {
      PartyIsRead(s, agent, atts[i]);
    }
  }

  lemma SignedVerifies(s: Setting, key: SecretKey, b: Content)
    requires Correct(s.c) && s.resolve(b.agentId) == Some(s.c.publicOf(key)) && Signed(s, key, b).Some?
    ensures BundleSigned(s, Signed(s, key, b).value)
  {
    SignedTextVerifies(s.c, key, s.payload(b).value);
  }

  /**
   A bundle from `create` is valid exactly when its attestations and sessions are distinct
   and none of them is an error by itself: membership, summary and signature are in order.
   */
  lemma CreatedBundleValidIff(s: Setting, key: SecretKey, bundleId: Text, createdAt: Text, agent: Text,
                              atts: seq<Attestation>)
    requires Correct(s.c) && s.resolve(agent) == Some(s.c.publicOf(key))
    requires Create(s, key, bundleId, createdAt, agent, atts).Some?
    requires ReadAll(s, atts).Some?
    ensures var rs := ReadAll(s, atts).value;
            ValidBundle(s, Create(s, key, bundleId, createdAt, agent, atts).value) <==>
            AllSound(rs) && NoRepeats(ReadingIds(rs)) && NoRepeats(Sessions(rs))
  {
    var b := Create(s, key, bundleId, createdAt, agent, atts).value;
    SignedVerifies(s, key, b.content);
    PartiesAreRead(s, agent, atts);
    assert SummaryAccurate(s, b.content);
  }
}
