/** Competence proofs and their aggregate gate (`concordia/competence_proof.py`). */
module CompetenceProof {
  import opened Wrappers
  import opened Sequences
  import opened Unicode
  import opened PythonValues
  import opened FloatRange
  import opened Signing
  import opened Hashing
  import opened Crypto
  import opened ReceiptBundle
  import Merkle
  import Negotiation

  const ATTESTATION_ID: Text := Lit("attestation_id")
  const SIGNATURE: Text := Lit("signature")

  /** One entry of `merkle_proofs`. */
  datatype Entry = Entry(id: Text, proof: Merkle.InclusionProof)

  /** The signed fields of a CompetenceProof. */
  datatype Body = Body(
    proofId: Text, createdAt: Text, agentId: Text, claims: Summary, root: Text, count: int,
    entries: seq<Entry>, revealed: seq<Attestation>)

  datatype Proof = Proof(body: Body, signature: Text)

  /** Hashing, signing, `round(x, 4)`, and the canonical bytes of the signed fields. */
  datatype Env = Env(h: Hash, c: Scheme, resolve: KeyResolver, round: Rounding, payload: Body -> Option<Bytes>)

  function IdOf(att: Attestation): Option<Text> {
    TextAt(att, ATTESTATION_ID)
  }

  // ---------------------------------------------------------------- one revealed attestation

  datatype PartyCheck = Verified | Unresolved | BadSignature

  /** `verify_signature(party minus signature, ...)` */
  predicate PartySignatureVerifies(c: Scheme, party: seq<Member>, signature: Json, key: PublicKey) {
    signature.Str? &&
    match CanonicalJson(Obj(Without(party, SIGNATURE)))
    case Some(payload) => VerifyText(c, key, payload, signature.s)
    case None => false
  }

  function CheckParty(c: Scheme, resolve: KeyResolver, party: seq<Member>, pid: Text): PartyCheck {
    match Get(party, SIGNATURE)
    case None => BadSignature
    case Some(signature) =>
      if !Negotiation.Truthy(signature) then BadSignature
      else
        match resolve(pid)
        case None => Unresolved
        case Some(key) => if PartySignatureVerifies(c, party, signature, key) then Verified else BadSignature
  }

  /** Everything the verifier learns about one revealed attestation. */
  datatype RevealCheck = RevealCheck(
    id: Text, membership: Option<bool>, parties: seq<PartyCheck>, partyIds: seq<Text>, binding: Binding)

  function FindEntry(entries: seq<Entry>, id: Text): Option<Entry> {
    if entries == [] then None else if entries[0].id == id then Some(entries[0]) else FindEntry(entries[1..], id)
  }

  function Membership(env: Env, b: Body, id: Text): Option<bool> {
    var entry :- FindEntry(b.entries, id);
    Some(Merkle.Accepts(env.h, id, entry.proof, b.root))
  }

  function CheckParties(c: Scheme, resolve: KeyResolver, parties: seq<seq<Member>>, ids: seq<Text>):
    (r: seq<PartyCheck>)
    requires |ids| == |parties|
    ensures |r| == |parties|
    ensures forall i :: 0 <= i < |parties| ==> r[i] == CheckParty(c, resolve, parties[i], ids[i])
  {
    seq(|parties|, i requires 0 <= i < |parties| => CheckParty(c, resolve, parties[i], ids[i]))
  }

  /** `None` when looking at the attestation raises. */
  function CheckReveal(env: Env, b: Body, att: Attestation): Option<RevealCheck> {
    var id :- IdOf(att);
    var parties :- PartiesOf(att);
    var ids :- Each(PartyId, parties);
    var binding :- OutcomeBinding(env.c, env.resolve, att);
    Some(RevealCheck(id, Membership(env, b, id), CheckParties(env.c, env.resolve, parties, ids), ids, binding))
  }

  function CheckAll(env: Env, b: Body, atts: seq<Attestation>): (r: Option<seq<RevealCheck>>)
    ensures r.Some? ==> |r.value| == |atts|
  {
    Each(a => CheckReveal(env, b, a), atts)
  }

  /** The check adds nothing to the verifier's errors. */
  predicate Clean(agent: Text, rc: RevealCheck) {
    rc.membership != Some(false) && BadSignature !in rc.parties && rc.binding != BindingError && agent in rc.partyIds
  }

  // ---------------------------------------------------------------- claims

  predicate Near(a: real, b: real) {
    Negotiation.Abs(a - b) <= 0.001
  }

  /** `float(claim)` does not raise for any of the rates. */
  predicate RatesInRange(claims: Summary) {
    && InFloatRange(claims.agreementRate) && InFloatRange(claims.avgConcession)
    && InFloatRange(claims.fulfillmentRate) && InFloatRange(claims.reasoningRate)
  }

  /** A finite recomputed mean, near the claimed one. */
  predicate NearMean(claimed: real, actual: real) {
    InFloatRange(actual) && Near(claimed, actual)
  }

  /** The comparison of a recomputed summary with the signed claims. */
  ghost predicate ClaimsAgree(s: Summary, claims: Summary) {
    && claims.total == s.total && claims.agreements == s.agreements && claims.counterparties == s.counterparties
    && claims.earliest == s.earliest && claims.latest == s.latest
    && Near(claims.agreementRate, s.agreementRate) && NearMean(claims.avgConcession, s.avgConcession)
    && Near(claims.fulfillmentRate, s.fulfillmentRate) && Near(claims.reasoningRate, s.reasoningRate)
    && Merkle.SortIds(claims.categories) == Merkle.SortIds(s.categories)
  }

  method CompareClaims(s: Summary, claims: Summary) returns (agree: bool)
    ensures agree <==> ClaimsAgree(s, claims)
  {
    agree := claims.total == s.total && claims.agreements == s.agreements && claims.counterparties == s.counterparties
          && claims.earliest == s.earliest && claims.latest == s.latest
          && Near(claims.agreementRate, s.agreementRate) && NearMean(claims.avgConcession, s.avgConcession)
          && Near(claims.fulfillmentRate, s.fulfillmentRate) && Near(claims.reasoningRate, s.reasoningRate)
          && Merkle.SortIds(claims.categories) == Merkle.SortIds(s.categories);
  }

  // ---------------------------------------------------------------- the verdict

  predicate SignatureOk(env: Env, p: Proof) {
    match (env.resolve(p.body.agentId), env.payload(p.body))
    case (Some(key), Some(payload)) => VerifyText(env.c, key, payload, p.signature)
    case _ => false
  }

  /** Ids whose membership proof was accepted. */
  function Members(checks: seq<RevealCheck>): set<Text> {
    set i | 0 <= i < |checks| && checks[i].membership == Some(true) :: checks[i].id
  }

  /** Ids whose outcome is bound. */
  function BoundIds(checks: seq<RevealCheck>): set<Text> {
    set i | 0 <= i < |checks| && checks[i].binding == Bound :: checks[i].id
  }

  predicate MerkleValid(checks: seq<RevealCheck>) {
    forall i :: 0 <= i < |checks| ==> checks[i].membership == Some(true)
  }

  predicate AllClean(agent: Text, checks: seq<RevealCheck>) {
    forall i :: 0 <= i < |checks| ==> Clean(agent, checks[i])
  }

  /** A full, distinct-membership reveal. */
  predicate FullReveal(b: Body, checks: seq<RevealCheck>) {
    b.count > 0 && |b.revealed| == b.count && |Members(checks)| == b.count && MerkleValid(checks)
  }

  function RevealedIds(b: Body): Option<seq<Text>> {
    Each(IdOf, b.revealed)
  }

  /** The errors a full reveal can add: claims that do not recompute, or a root over other ids. */
  ghost predicate Recomputes(env: Env, b: Body) {
    && RevealedIds(b).Some? && b.root != [] && Merkle.Root(env.h, RevealedIds(b).value) == b.root
    && Summarize(env.round, b.agentId, b.revealed).Some? && RatesInRange(b.claims)
    && ClaimsAgree(Summarize(env.round, b.agentId, b.revealed).value, b.claims)
  }

  ghost predicate NoErrors(env: Env, p: Proof, checks: seq<RevealCheck>) {
    && SignatureOk(env, p) && p.body.count == p.body.claims.total && AllClean(p.body.agentId, checks)
    && (FullReveal(p.body, checks) ==> Recomputes(env, p.body))
  }

  /** The five conditions and the absence of errors, as `verify_competence_proof` computes them. */
  ghost predicate AggregateVerified(env: Env, p: Proof, checks: seq<RevealCheck>) {
    NoErrors(env, p, checks) && FullReveal(p.body, checks) && |BoundIds(checks)| == p.body.count
  }

  // ---------------------------------------------------------------- what the gate means

  /** A revealed attestation that carries its full weight. */
  predicate FullyVerified(agent: Text, rc: RevealCheck) {
    && rc.membership == Some(true) && rc.binding == Bound && BadSignature !in rc.parties && agent in rc.partyIds
  }

  /** What a verified aggregate promises, condition by condition. */
  ghost predicate Gate(env: Env, p: Proof) {
    var b := p.body;
    && SignatureOk(env, p) && b.count == b.claims.total && b.count == |b.revealed| && b.count > 0
    && CheckAll(env, b, b.revealed).Some?
    && (forall i :: 0 <= i < |b.revealed| ==> FullyVerified(b.agentId, CheckAll(env, b, b.revealed).value[i]))
    && Recomputes(env, b) && NoRepeats(RevealedIds(b).value)
  }

  lemma CheckHasId(env: Env, b: Body, att: Attestation)
    requires CheckReveal(env, b, att).Some?
    ensures IdOf(att) == Some(CheckReveal(env, b, att).value.id)
  {
  }

  lemma ChecksHaveIds(env: Env, b: Body, atts: seq<Attestation>)
    requires CheckAll(env, b, atts).Some?
    ensures Each(IdOf, atts).Some?
    ensures forall i :: 0 <= i < |atts| ==> CheckAll(env, b, atts).value[i].id == Each(IdOf, atts).value[i]
  {
    var check := (a: Attestation) => CheckReveal(env, b, a);
    forall i | 0 <= i < |atts| && check(atts[i]).Some?
      ensures IdOf(atts[i]) == Some(check(atts[i]).value.id)
    {
      CheckHasId(env, b, atts[i]);
    }
    EachVia(check, IdOf, (rc: RevealCheck) => rc.id, atts);
  }

  function Indices(n: nat): (r: set<nat>)
    ensures forall i: nat :: i in r <==> i < n
  {
    if n == 0 then {} else Indices(n - 1) + {n - 1}
  }

  lemma IndexCount(n: nat)
    ensures |Indices(n)| == n
  {
    if n > 0 {
      IndexCount(n - 1);
    }
  }

  /** The ids at some places of a list. */
  function IdsAt(ids: seq<Text>, at: set<nat>): set<Text>
    requires forall i :: i in at ==> i < |ids|
  {
    set i | i in at :: ids[i]
  }

  lemma {:induction false} IdsAtFewer(ids: seq<Text>, at: set<nat>)
    requires forall i :: i in at ==> i < |ids|
    ensures |IdsAt(ids, at)| <= |at|
    ensures |IdsAt(ids, at)| == |at| ==> forall i, j :: i in at && j in at && i != j ==> ids[i] != ids[j]
  {
    if at != {} {
      var k :| k in at;
      var rest := at - {k};
      IdsAtFewer(ids, rest);
      assert IdsAt(ids, at) == IdsAt(ids, rest) + {ids[k]};
    }
  }

  /** As many different ids as places: all places count, and no id comes twice. */
  lemma FullSetMeansDistinct(ids: seq<Text>, at: set<nat>)
    requires (forall i :: i in at ==> i < |ids|) && |IdsAt(ids, at)| == |ids|
    ensures NoRepeats(ids) && at == Indices(|ids|)
  {
    IdsAtFewer(ids, at);
    IndexCount(|ids|);
    assert at <= Indices(|ids|);
    SubsetOfSameSize(at, Indices(|ids|));
  }

  lemma SubsetOfSameSize(a: set<nat>, b: set<nat>)
    requires a <= b && |a| >= |b|
    ensures a == b
  {
    if a != b {
      var x :| x in b && x !in a;
      SubsetSize(a, b - {x});
    }
  }

  function IdsOfChecks(checks: seq<RevealCheck>): (ids: seq<Text>)
    ensures |ids| == |checks| && forall i :: 0 <= i < |checks| ==> ids[i] == checks[i].id
  {
    seq(|checks|, i requires 0 <= i < |checks| => checks[i].id)
  }

  lemma AllMembersDistinct(checks: seq<RevealCheck>)
    requires |Members(checks)| == |checks|
    ensures NoRepeats(IdsOfChecks(checks)) && MerkleValid(checks)
  {
    var at := set i: nat | i < |checks| && checks[i].membership == Some(true);
    assert IdsAt(IdsOfChecks(checks), at) == Members(checks);
    FullSetMeansDistinct(IdsOfChecks(checks), at);
    forall i | 0 <= i < |checks|
      ensures checks[i].membership == Some(true)
    {
      assert i in Indices(|checks|);
    }
  }

  lemma AllBound(checks: seq<RevealCheck>)
    requires |BoundIds(checks)| == |checks|
    ensures forall i :: 0 <= i < |checks| ==> checks[i].binding == Bound
  {
    var at := set i: nat | i < |checks| && checks[i].binding == Bound;
    assert IdsAt(IdsOfChecks(checks), at) == BoundIds(checks);
    FullSetMeansDistinct(IdsOfChecks(checks), at);
    forall i | 0 <= i < |checks|
      ensures checks[i].binding == Bound
    {
      assert i in Indices(|checks|);
    }
  }

  lemma {:induction false} DistinctIdsCount(ids: seq<Text>, at: set<nat>)
    requires NoRepeats(ids) && forall i :: i in at ==> i < |ids|
    ensures |IdsAt(ids, at)| == |at|
  {
    if at != {} {
      var k :| k in at;
      var rest := at - {k};
      DistinctIdsCount(ids, rest);
      assert IdsAt(ids, at) == IdsAt(ids, rest) + {ids[k]};
      assert ids[k] !in IdsAt(ids, rest);
    }
  }

  lemma EveryoneCounts(checks: seq<RevealCheck>)
    requires NoRepeats(IdsOfChecks(checks)) && MerkleValid(checks)
    requires forall i :: 0 <= i < |checks| ==> checks[i].binding == Bound
    ensures |Members(checks)| == |checks| && |BoundIds(checks)| == |checks|
  {
    var all := Indices(|checks|);
    IndexCount(|checks|);
    DistinctIdsCount(IdsOfChecks(checks), all);
    assert Members(checks) == IdsAt(IdsOfChecks(checks), all);
    assert BoundIds(checks) == IdsAt(IdsOfChecks(checks), all);
  }

  predicate AllFullyVerified(agent: Text, checks: seq<RevealCheck>) {
    forall i :: 0 <= i < |checks| ==> FullyVerified(agent, checks[i])
  }

  /** Counting distinct ids proves distinctness. */
  lemma CountsIff(agent: Text, checks: seq<RevealCheck>)
    ensures AllClean(agent, checks) && MerkleValid(checks)
            && |Members(checks)| == |checks| && |BoundIds(checks)| == |checks|
       <==> AllFullyVerified(agent, checks) && NoRepeats(IdsOfChecks(checks))
  {
    if AllClean(agent, checks) && |Members(checks)| == |checks| && |BoundIds(checks)| == |checks| {
      AllMembersDistinct(checks);
      AllBound(checks);
      forall i | 0 <= i < |checks|
        ensures FullyVerified(agent, checks[i])
      {
        assert Clean(agent, checks[i]);
      }
    }
    if AllFullyVerified(agent, checks) && NoRepeats(IdsOfChecks(checks)) {
      forall i | 0 <= i < |checks|
        ensures checks[i].membership == Some(true) && checks[i].binding == Bound && Clean(agent, checks[i])
      {
        assert FullyVerified(agent, checks[i]);
      }
      EveryoneCounts(checks);
    }
  }

  /** The computed verdict is exactly the promise. */
  lemma AggregateVerifiedIff(env: Env, p: Proof, checks: seq<RevealCheck>)
    requires CheckAll(env, p.body, p.body.revealed) == Some(checks)
    ensures AggregateVerified(env, p, checks) <==> Gate(env, p)
  {
    ChecksHaveIds(env, p.body, p.body.revealed);
    assert IdsOfChecks(checks) == RevealedIds(p.body).value;
    CountsIff(p.body.agentId, checks);
  }

  // ---------------------------------------------------------------- the verifier

  method CheckRevealed(env: Env, b: Body, att: Attestation) returns (rc: Option<RevealCheck>)
    ensures rc == CheckReveal(env, b, att)
  {
    var id, parties := IdOf(att), PartiesOf(att);
    if id.None? || parties.None? {
      return None;
    }
    var ids := Each(PartyId, parties.value);
    if ids.None? {
      return None;
    }
    var membership := CheckMembership(env, b, id.value);
    var checks := CheckPartySignatures(env.c, env.resolve, parties.value, ids.value);
    var binding := EvaluateOutcomeBinding(env.c, env.resolve, att);
    if binding.None? {
      return None;
    }
    return Some(RevealCheck(id.value, membership, checks, ids.value, binding.value));
  }

  lemma {:induction false} FindEntryAt(entries: seq<Entry>, id: Text, k: nat)
    requires k < |entries| && entries[k].id == id && forall i :: 0 <= i < k ==> entries[i].id != id
    ensures FindEntry(entries, id) == Some(entries[k])
  {
    if k > 0 {
      assert forall i :: 0 <= i < k - 1 ==> entries[1..][i] == entries[i + 1];
      FindEntryAt(entries[1..], id, k - 1);
    }
  }

  lemma {:induction false} FindEntryNone(entries: seq<Entry>, id: Text)
    requires forall i :: 0 <= i < |entries| ==> entries[i].id != id
    ensures FindEntry(entries, id).None?
  {
    if entries != [] {
      FindEntryNone(entries[1..], id);
    }
  }

  /** The search for the Merkle proof of an id, and its check. */
  method CheckMembership(env: Env, b: Body, id: Text) returns (membership: Option<bool>)
    ensures membership == Membership(env, b, id)
  {
    for k := 0 to |b.entries|
      invariant forall i :: 0 <= i < k ==> b.entries[i].id != id
    {
      if b.entries[k].id == id {
        FindEntryAt(b.entries, id, k);
        var accepted := Merkle.VerifyMerkleProof(env.h, id, b.entries[k].proof, b.root);
        return Some(accepted);
      }
    }
    FindEntryNone(b.entries, id);
    return None;
  }

  method CheckPartySignatures(c: Scheme, resolve: KeyResolver, parties: seq<seq<Member>>, ids: seq<Text>)
    returns (checks: seq<PartyCheck>)
    requires |ids| == |parties|
    ensures checks == CheckParties(c, resolve, parties, ids)
  {
    checks := [];
    for j := 0 to |parties|
      invariant |checks| == j && forall i :: 0 <= i < j ==> checks[i] == CheckParty(c, resolve, parties[i], ids[i])
    {
      checks := checks + [CheckParty(c, resolve, parties[j], ids[j])];
    }
  }

  /** The accumulators of the loop over revealed attestations. */
  datatype Progress = Progress(
    clean: bool, merkleValid: bool, members: set<Text>, bound: set<Text>)

  function ProgressOf(agent: Text, checks: seq<RevealCheck>): Progress {
    Progress(AllClean(agent, checks), MerkleValid(checks), Members(checks), BoundIds(checks))
  }

  /** The effect of one reveal on the verifier's accumulators. */
  function Count(agent: Text, t: Progress, rc: RevealCheck): Progress {
    Progress(t.clean && Clean(agent, rc), t.merkleValid && rc.membership == Some(true),
             if rc.membership == Some(true) then t.members + {rc.id} else t.members,
             if rc.binding == Bound then t.bound + {rc.id} else t.bound)
  }

  lemma ProgressAppend(agent: Text, checks: seq<RevealCheck>, rc: RevealCheck)
    ensures ProgressOf(agent, checks + [rc]) == Count(agent, ProgressOf(agent, checks), rc)
  {
    var longer := checks + [rc];
    assert longer[|checks|] == rc;
    assert forall i :: 0 <= i < |checks| ==> longer[i] == checks[i];
    assert Clean(agent, longer[|checks|]) == Clean(agent, rc);
    MembersAppend(checks, rc);
    BoundIdsAppend(checks, rc);
  }

  lemma MembersAppend(checks: seq<RevealCheck>, rc: RevealCheck)
    ensures Members(checks + [rc]) == if rc.membership == Some(true) then Members(checks) + {rc.id} else Members(checks)
  {
    var longer := checks + [rc];
    assert longer[|checks|] == rc;
    forall id
      ensures id in Members(longer) <==> id in Members(checks) || (rc.membership == Some(true) && id == rc.id)
    {
      if i :| 0 <= i < |checks| && checks[i].membership == Some(true) && checks[i].id == id {
        assert longer[i] == checks[i];
      }
    }
  }

  lemma BoundIdsAppend(checks: seq<RevealCheck>, rc: RevealCheck)
    ensures BoundIds(checks + [rc]) == if rc.binding == Bound then BoundIds(checks) + {rc.id} else BoundIds(checks)
  {
    var longer := checks + [rc];
    assert longer[|checks|] == rc;
    forall id
      ensures id in BoundIds(longer) <==> id in BoundIds(checks) || (rc.binding == Bound && id == rc.id)
    {
      if i :| 0 <= i < |checks| && checks[i].binding == Bound && checks[i].id == id {
        assert longer[i] == checks[i];
      }
    }
  }

  lemma CheckAllStep(env: Env, b: Body, k: nat)
    requires k < |b.revealed| && CheckAll(env, b, b.revealed[..k]).Some?
    ensures var rc := CheckReveal(env, b, b.revealed[k]);
            if rc.None? then CheckAll(env, b, b.revealed).None?
            else CheckAll(env, b, b.revealed[..k + 1]) == Some(CheckAll(env, b, b.revealed[..k]).value + [rc.value])
  {
    EachPrefix(a => CheckReveal(env, b, a), b.revealed, k);
  }

  lemma TakeAll<T>(s: seq<T>)
    ensures s[..|s|] == s && s[..0] == []
  {
  }

  /** The loop over revealed attestations; `None` when it raises. */
  method CheckReveals(env: Env, b: Body) returns (g: Option<Progress>)
    ensures g == match CheckAll(env, b, b.revealed)
                 case None => None
                 case Some(checks) => Some(ProgressOf(b.agentId, checks))
  {
    var t := Progress(true, true, {}, {});
    ghost var checks: seq<RevealCheck> := [];
    TakeAll(b.revealed);
    for k := 0 to |b.revealed|
      invariant CheckAll(env, b, b.revealed[..k]) == Some(checks)
      invariant t == ProgressOf(b.agentId, checks)
    {
      CheckAllStep(env, b, k);
      var rc := CheckRevealed(env, b, b.revealed[k]);
      if rc.None? {
        return None;
      }
      ProgressAppend(b.agentId, checks, rc.value);
      checks := checks + [rc.value];
      t := Count(b.agentId, t, rc.value);
    }
    return Some(t);
  }

  datatype Result = Result(valid: bool, merkleProofsValid: bool, aggregateVerified: bool)

  /** Whether `verify_competence_proof` returns at all. */
  ghost predicate Returns(env: Env, p: Proof, checkRevealed: bool) {
    checkRevealed ==>
      var checks := CheckAll(env, p.body, p.body.revealed);
      checks.Some? &&
      (FullReveal(p.body, checks.value) ==>
         Summarize(env.round, p.body.agentId, p.body.revealed).Some? && RatesInRange(p.body.claims))
  }

  /** The checks made on the revealed attestations. */
  ghost function ChecksMade(env: Env, p: Proof, checkRevealed: bool): seq<RevealCheck>
    requires Returns(env, p, checkRevealed)
  {
    if checkRevealed then CheckAll(env, p.body, p.body.revealed).value else []
  }

  /** The recomputations of a full reveal; `None` when the summary or the comparison raises. */
  method CheckRecompute(env: Env, b: Body) returns (ok: Option<bool>)
    requires RevealedIds(b).Some?
    ensures ok.None? <==> Summarize(env.round, b.agentId, b.revealed).None? || !RatesInRange(b.claims)
    ensures ok.Some? ==> (ok.value <==> Recomputes(env, b))
  {
    var summary := ComputeSummary(env.round, b.agentId, b.revealed);
    if summary.None? || !RatesInRange(b.claims) {
      return None;
    }
    var agree := CompareClaims(summary.value, b.claims);
    var root, _ := Merkle.BuildMerkleTree(env.h, RevealedIds(b).value);
    return Some(agree && root == b.root && root != []);
  }

  /** `verify_competence_proof`; `None` when it raises. */
  method VerifyCompetenceProof(env: Env, p: Proof, checkRevealed: bool) returns (result: Option<Result>)
    ensures result.Some? <==> Returns(env, p, checkRevealed)
    ensures result.Some? ==>
              var checks := ChecksMade(env, p, checkRevealed);
              && result.value.merkleProofsValid == MerkleValid(checks)
              && (result.value.valid <==> NoErrors(env, p, checks))
              && (result.value.aggregateVerified <==> AggregateVerified(env, p, checks))
    ensures result.Some? ==> (result.value.aggregateVerified <==> checkRevealed && Gate(env, p))
  {
    var signed, counted := SignatureOk(env, p), p.body.count == p.body.claims.total;
    if !checkRevealed {
      return Some(Result(signed && counted, true, false));
    }
    result := VerifyRevealed(env, p, signed && counted);
  }

  /** The rest of the verification, when revealed attestations are to be checked. */
  method VerifyRevealed(env: Env, p: Proof, soFar: bool) returns (result: Option<Result>)
    requires soFar <==> SignatureOk(env, p) && p.body.count == p.body.claims.total
    ensures result.Some? <==> Returns(env, p, true)
    ensures result.Some? ==>
              var checks := CheckAll(env, p.body, p.body.revealed).value;
              && result.value.merkleProofsValid == MerkleValid(checks)
              && (result.value.valid <==> NoErrors(env, p, checks))
              && (result.value.aggregateVerified <==> AggregateVerified(env, p, checks))
              && (result.value.aggregateVerified <==> Gate(env, p))
  {
    var b := p.body;
    var progress := CheckReveals(env, b);
    if progress.None? {
      return None;
    }
    var g := progress.value;
    ghost var checks := CheckAll(env, b, b.revealed).value;
    var valid := soFar && g.clean;
    var fullReveal := b.count > 0 && |b.revealed| == b.count && |g.members| == b.count && g.merkleValid;
    if fullReveal {
      ChecksHaveIds(env, b, b.revealed);
      var recomputed := CheckRecompute(env, b);
      if recomputed.None? {
        return None;
      }
      valid := valid && recomputed.value;
    }
    AggregateVerifiedIff(env, p, checks);
    return Some(Result(valid, g.merkleValid, valid && fullReveal && |g.bound| == b.count));
  }
}
