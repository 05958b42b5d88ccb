/** Making competence proofs, and what a verified aggregate is worth. */
module CompetenceIssue {
  import opened Wrappers
  import opened Sequences
  import opened Unicode
  import opened PythonValues
  import opened Hashing
  import opened Crypto
  import opened ReceiptBundle
  import opened CompetenceProof
  import Merkle
  import Cosign
  import AttestationVersion

  // ---------------------------------------------------------------- what the gate commits to

  /**
   A verified aggregate hides nothing: whatever duplicate-free list of ids the signed root
   was built from is a permutation of the revealed ids, or two hashed texts collide.
   */
  lemma GateCommitsToRevealedIds(env: Env, p: Proof, committed: seq<Text>) returns (a: Text, b: Text)
    requires Gate(env, p) && NoRepeats(committed) && Merkle.Root(env.h, committed) == p.body.root
    requires forall x :: x in committed ==> |x| != 128
    requires forall x :: x in RevealedIds(p.body).value ==> |x| != 128
    ensures SameItems(committed, RevealedIds(p.body).value)
         || CollisionIn(env.h, Merkle.TreeInputs(env.h, committed)
                               + Merkle.TreeInputs(env.h, RevealedIds(p.body).value), a, b)
  {
    a, b := Merkle.RootCommitsToIds(env.h, committed, RevealedIds(p.body).value);
  }

  lemma IdentifiableIff(ids: seq<Text>)
    ensures Identifiable(ids) <==> exists pid :: pid in ids && pid != []
  {
    if pid :| pid in ids && pid != [] {
      var i :| 0 <= i < |ids| && ids[i] == pid;
    }
    if Identifiable(ids) {
      var i :| 0 <= i < |ids| && ids[i] != [];
      assert ids[i] in ids;
    }
  }

  lemma EveryoneIsEachMember(c: Scheme, resolve: KeyResolver, att: Attestation, ids: seq<Text>)
    ensures EveryoneCountersigned(c, resolve, att, ids) <==>
            forall pid :: pid in ids && pid != [] ==> Countersigned(c, resolve, att, pid)
  {
    if EveryoneCountersigned(c, resolve, att, ids) {
      forall pid | pid in ids && pid != []
        ensures Countersigned(c, resolve, att, pid)
      {
        var i :| 0 <= i < |ids| && ids[i] == pid;
      }
    } else {
      var i :| 0 <= i < |ids| && ids[i] != [] && !Countersigned(c, resolve, att, ids[i]);
      assert ids[i] in ids;
    }
  }

  /** A bound outcome: an accepted version, and every listed party countersigned what stands there. */
  lemma BoundIff(c: Scheme, resolve: KeyResolver, att: Attestation)
    requires PartyIds(att).Some?
    ensures OutcomeBinding(c, resolve, att) == Some(Bound) <==>
            var v := AttestationVersion.Parse(Get(att, ReceiptBundle.CONCORDIA_ATTESTATION));
            && v.Some? && !AttestationVersion.ExceedsImplemented(v.value)
            && !AttestationVersion.BelowFloor(v.value, 0, 2)
            && (exists pid :: pid in PartyIds(att).value && pid != [])
            && forall pid :: pid in PartyIds(att).value && pid != [] ==> Countersigned(c, resolve, att, pid)
  {
    var ids := PartyIds(att).value;
    IdentifiableIff(ids);
    EveryoneIsEachMember(c, resolve, att, ids);
    if pid :| pid in ids && pid != [] && Countersigned(c, resolve, att, pid) {
      assert Cosign.CountersignatureIn(att, pid).Some?;
      assert HasCountersignatures(att);
    }
  }

  // ---------------------------------------------------------------- creation

  function IdsOf(atts: seq<Attestation>): (ids: Option<seq<Text>>)
    ensures ids.Some? ==> |ids.value| == |atts|
  {
    Each(IdOf, atts)
  }

  predicate PartyIn(agent: Text, att: Attestation) {
    PartyIds(att).Some? && agent in PartyIds(att).value
  }

  predicate PartyInAll(agent: Text, atts: seq<Attestation>) {
    forall i :: 0 <= i < |atts| ==> PartyIn(agent, atts[i])
  }

  /** The first attestation with an id. */
  function FirstWith(atts: seq<Attestation>, id: Text): Option<Attestation> {
    if atts == [] then None else if IdOf(atts[0]) == Some(id) then Some(atts[0]) else FirstWith(atts[1..], id)
  }

  function Chosen(atts: seq<Attestation>, ids: seq<Text>): (r: Option<seq<Attestation>>)
    ensures r.Some? ==> |r.value| == |ids|
  {
    Each(id => FirstWith(atts, id), ids)
  }

  function EntryFor(h: Hash, ids: seq<Text>, id: Text): Option<Entry> {
    var sorted := Merkle.SortIds(ids);
    if id !in sorted then None
    else
      var i := Merkle.FirstIndex(id, sorted);
      Some(Entry(id, Merkle.InclusionProof(i, Merkle.Path(h, Merkle.Leaves(h, sorted), i))))
  }

  function Entries(h: Hash, ids: seq<Text>, wanted: seq<Text>): (r: Option<seq<Entry>>)
    ensures r.Some? ==> |r.value| == |wanted|
  {
    Each(id => EntryFor(h, ids, id), wanted)
  }

  /** The arguments of `create`, with the id and the time it generates. */
  datatype Request = Request(proofId: Text, createdAt: Text, agent: Text, atts: seq<Attestation>, revealIds: seq<Text>)

  /** The proof that `create` assembles; `None` when it raises. */
  function BodyFor(env: Env, q: Request): Option<Body> {
    if !PartyInAll(q.agent, q.atts) then None
    else
      var summary :- Summarize(env.round, q.agent, q.atts);
      var ids :- IdsOf(q.atts);
      var entries :- Entries(env.h, ids, q.revealIds);
      var revealed :- Chosen(q.atts, q.revealIds);
      Some(Body(q.proofId, q.createdAt, q.agent, summary, Merkle.Root(env.h, ids), |ids|, entries, revealed))
  }

  function SignedProof(env: Env, key: SecretKey, b: Body): Option<Proof> {
    var payload :- env.payload(b);
    Some(Proof(b, SignText(env.c, key, payload)))
  }

  /** `CompetenceProof.create` on values; an infinite mean has no canonical form. */
  function Create(env: Env, key: SecretKey, q: Request): Option<Proof> {
    var b :- BodyFor(env, q);
    if RatesInRange(b.claims) then SignedProof(env, key, b) else None
  }

  lemma {:induction false} FirstWithAt(atts: seq<Attestation>, id: Text, k: nat)
    requires k < |atts| && IdOf(atts[k]) == Some(id) && forall i :: 0 <= i < k ==> IdOf(atts[i]) != Some(id)
    ensures FirstWith(atts, id) == Some(atts[k])
  {
    if k > 0 {
      assert forall i :: 0 <= i < k - 1 ==> atts[1..][i] == atts[i + 1];
      FirstWithAt(atts[1..], id, k - 1);
    }
  }

  lemma {:induction false} FirstWithNone(atts: seq<Attestation>, id: Text)
    requires forall i :: 0 <= i < |atts| ==> IdOf(atts[i]) != Some(id)
    ensures FirstWith(atts, id).None?
  {
    if atts != [] {
      FirstWithNone(atts[1..], id);
    }
  }

  /** The search loop for a revealed attestation. */
  method FindAttestation(atts: seq<Attestation>, id: Text) returns (found: Option<Attestation>)
    ensures found == FirstWith(atts, id)
  {
    for k := 0 to |atts|
      invariant forall i :: 0 <= i < k ==> IdOf(atts[i]) != Some(id)
    {
      if IdOf(atts[k]) == Some(id) {
        FirstWithAt(atts, id, k);
        return Some(atts[k]);
      }
    }
    FirstWithNone(atts, id);
    return None;
  }

  /** `generate_merkle_proof` for one id, as an entry. */
  method MakeEntry(h: Hash, ids: seq<Text>, layers: seq<seq<Text>>, id: Text) returns (entry: Option<Entry>)
    requires layers == if ids == [] then [] else Merkle.Layers(h, Merkle.Leaves(h, Merkle.SortIds(ids)))
    ensures entry == EntryFor(h, ids, id)
  {
    Merkle.SortIdsPermutes(ids);
    var sorted := Merkle.SortIds(ids);
    var proof := Merkle.GenerateMerkleProof(h, id, sorted, layers);
    if proof.None? {
      return None;
    }
    return Some(Entry(id, proof.value));
  }

  method RevealAll(h: Hash, ids: seq<Text>, layers: seq<seq<Text>>, q: Request)
    returns (entries: Option<seq<Entry>>, revealed: Option<seq<Attestation>>)
    requires layers == if ids == [] then [] else Merkle.Layers(h, Merkle.Leaves(h, Merkle.SortIds(ids)))
    requires IdsOf(q.atts) == Some(ids)
    ensures entries == Entries(h, ids, q.revealIds)
    ensures entries.Some? ==> revealed == Chosen(q.atts, q.revealIds) && revealed.Some?
  {
    var proofs: seq<Entry> := [];
    var chosen: seq<Attestation> := [];
    TakeAll(q.revealIds);
    for k := 0 to |q.revealIds|
      invariant Entries(h, ids, q.revealIds[..k]) == Some(proofs) && Chosen(q.atts, q.revealIds[..k]) == Some(chosen)
    {
      EntriesStep(h, ids, q.revealIds, k);
      ChosenStep(q.atts, q.revealIds, k);
      var entry := MakeEntry(h, ids, layers, q.revealIds[k]);
      if entry.None? {
        return None, None;
      }
      CommittedIsFound(h, q.atts, ids, q.revealIds[k]);
      var att := FindAttestation(q.atts, q.revealIds[k]);
      proofs := proofs + [entry.value];
      chosen := chosen + [att.value];
    }
    return Some(proofs), Some(chosen);
  }

  lemma EntriesStep(h: Hash, ids: seq<Text>, wanted: seq<Text>, k: nat)
    requires k < |wanted| && Entries(h, ids, wanted[..k]).Some?
    ensures var e := EntryFor(h, ids, wanted[k]);
            if e.None? then Entries(h, ids, wanted).None?
            else Entries(h, ids, wanted[..k + 1]) == Some(Entries(h, ids, wanted[..k]).value + [e.value])
  {
    EachPrefix(id => EntryFor(h, ids, id), wanted, k);
  }

  lemma ChosenStep(atts: seq<Attestation>, wanted: seq<Text>, k: nat)
    requires k < |wanted| && Chosen(atts, wanted[..k]).Some?
    ensures var a := FirstWith(atts, wanted[k]);
            if a.None? then Chosen(atts, wanted).None?
            else Chosen(atts, wanted[..k + 1]) == Some(Chosen(atts, wanted[..k]).value + [a.value])
  {
    EachPrefix(id => FirstWith(atts, id), wanted, k);
  }

  /** An id among the committed ones belongs to an attestation. */
  lemma CommittedIsFound(h: Hash, atts: seq<Attestation>, ids: seq<Text>, id: Text)
    requires IdsOf(atts) == Some(ids) && EntryFor(h, ids, id).Some?
    ensures FirstWith(atts, id).Some? && IdOf(FirstWith(atts, id).value) == Some(id)
  {
    Merkle.SortIdsMembers(ids);
    EachFails(IdOf, atts);
    var i :| 0 <= i < |ids| && ids[i] == id;
    FirstWithFinds(atts, id, i);
  }

  lemma {:induction false} FirstWithFinds(atts: seq<Attestation>, id: Text, i: nat)
    requires i < |atts| && IdOf(atts[i]) == Some(id)
    ensures FirstWith(atts, id).Some? && IdOf(FirstWith(atts, id).value) == Some(id)
  {
    if i > 0 && IdOf(atts[0]) != Some(id) {
      FirstWithFinds(atts[1..], id, i - 1);
    }
  }

  method CheckPartyInAll(agent: Text, atts: seq<Attestation>) returns (ok: bool)
    ensures ok == PartyInAll(agent, atts)
  {
    for k := 0 to |atts|
      invariant forall i :: 0 <= i < k ==> PartyIn(agent, atts[i])
    {
      if !PartyIn(agent, atts[k]) {
        return false;
      }
    }
    return true;
  }

  method AssembleBody(env: Env, q: Request) returns (b: Option<Body>)
    ensures b == BodyFor(env, q)
  {
    var member := CheckPartyInAll(q.agent, q.atts);
    if !member {
      return None;
    }
    var summary := ComputeSummary(env.round, q.agent, q.atts);
    if summary.None? {
      return None;
    }
    var ids := IdsOf(q.atts);
    if ids.None? {
      return None;
    }
    var root, layers := Merkle.BuildMerkleTree(env.h, ids.value);
    var entries, revealed := RevealAll(env.h, ids.value, layers, q);
    if entries.None? {
      return None;
    }
    return Some(Body(q.proofId, q.createdAt, q.agent, summary.value, root, |ids.value|, entries.value, revealed.value));
  }

  /** `CompetenceProof.create` */
  method CreateProof(env: Env, key: SecretKey, q: Request) returns (proof: Option<Proof>)
    ensures proof == Create(env, key, q)
  {
    var b := AssembleBody(env, q);
    if b.None? || !RatesInRange(b.value.claims) {
      return None;
    }
    return SignedProof(env, key, b.value);
  }

  // ---------------------------------------------------------------- a full reveal passes the gate

  /** An attestation that the verifier can hold nothing against. */
  ghost predicate FullyBound(env: Env, agent: Text, att: Attestation) {
    && PartyIn(agent, att) && PartiesOf(att).Some? && IdOf(att).Some?
    && OutcomeBinding(env.c, env.resolve, att) == Some(Bound)
    && BadSignature !in CheckParties(env.c, env.resolve, PartiesOf(att).value, PartyIds(att).value)
  }

  lemma {:induction false} FirstWithDistinct(atts: seq<Attestation>, ids: seq<Text>, i: nat)
    requires IdsOf(atts) == Some(ids) && NoRepeats(ids) && i < |atts|
    ensures FirstWith(atts, ids[i]) == Some(atts[i])
  {
    EachFails(IdOf, atts);
    FirstWithAt(atts, ids[i], i);
  }

  /** Choosing every id, in any order, reveals every attestation, in that order. */
  lemma ChosenIsAll(atts: seq<Attestation>, ids: seq<Text>, wanted: seq<Text>)
    requires IdsOf(atts) == Some(ids) && NoRepeats(ids) && SameItems(ids, wanted)
    ensures Chosen(atts, wanted).Some? && SameItems(Chosen(atts, wanted).value, atts)
  {
    var f := (id: Text) => FirstWith(atts, id);
    EachFails(f, ids);
    forall i | 0 <= i < |ids|
      ensures f(ids[i]) == Some(atts[i])
    {
      FirstWithDistinct(atts, ids, i);
    }
    assert Each(f, ids).Some? && Each(f, ids).value == atts;
    EachPermuted(f, ids, wanted);
  }

  lemma ChosenIds(atts: seq<Attestation>, ids: seq<Text>, wanted: seq<Text>)
    requires IdsOf(atts) == Some(ids) && Chosen(atts, wanted).Some?
    ensures IdsOf(Chosen(atts, wanted).value) == Some(wanted)
  {
    var f := (id: Text) => FirstWith(atts, id);
    var chosen := Chosen(atts, wanted).value;
    EachFails(f, wanted);
    forall i | 0 <= i < |wanted|
      ensures IdOf(chosen[i]) == Some(wanted[i])
    {
      FirstWithIs(atts, wanted[i]);
    }
    EachFails(IdOf, chosen);
    assert Each(IdOf, chosen).value == wanted;
  }

  lemma {:induction false} FirstWithIs(atts: seq<Attestation>, id: Text)
    requires FirstWith(atts, id).Some?
    ensures IdOf(FirstWith(atts, id).value) == Some(id)
  {
    if IdOf(atts[0]) != Some(id) {
      FirstWithIs(atts[1..], id);
    }
  }

  lemma RootReordered(h: Hash, ids: seq<Text>, wanted: seq<Text>)
    requires SameItems(ids, wanted)
    ensures Merkle.Root(h, ids) == Merkle.Root(h, wanted)
  {
    SortIdsReordered(ids, wanted);
  }

  lemma {:induction false} EntriesFind(h: Hash, ids: seq<Text>, wanted: seq<Text>, id: Text)
    requires Entries(h, ids, wanted).Some? && id in wanted
    ensures FindEntry(Entries(h, ids, wanted).value, id) == EntryFor(h, ids, id)
  {
    var f := (x: Text) => EntryFor(h, ids, x);
    EachFails(f, wanted);
    var entries := Entries(h, ids, wanted).value;
    var k := FirstPlace(wanted, id);
    assert forall i :: 0 <= i < |wanted| ==> entries[i].id == wanted[i];
    FindEntryAt(entries, id, k);
  }

  lemma {:induction false} FirstPlace(xs: seq<Text>, x: Text) returns (k: nat)
    requires x in xs
    ensures k < |xs| && xs[k] == x && forall i :: 0 <= i < k ==> xs[i] != x
  {
    if xs[0] == x {
      k := 0;
    } else {
      k := FirstPlace(xs[1..], x);
      k := k + 1;
      assert forall i :: 0 < i < k ==> xs[i] == xs[1..][i - 1];
    }
  }

  lemma EntryAccepted(h: Hash, ids: seq<Text>, id: Text)
    requires id in ids
    ensures EntryFor(h, ids, id).Some?
    ensures Merkle.Accepts(h, id, EntryFor(h, ids, id).value.proof, Merkle.Root(h, ids))
  {
    Merkle.GeneratedProofAccepted(h, ids, id);
  }

  lemma MembershipAccepted(env: Env, b: Body, ids: seq<Text>, wanted: seq<Text>, id: Text)
    requires id in ids && id in wanted && b.root == Merkle.Root(env.h, ids)
    requires Entries(env.h, ids, wanted) == Some(b.entries)
    ensures Membership(env, b, id) == Some(true)
  {
    EntriesFind(env.h, ids, wanted, id);
    EntryAccepted(env.h, ids, id);
  }

  lemma RevealFullyVerified(env: Env, b: Body, att: Attestation)
    requires FullyBound(env, b.agentId, att) && Membership(env, b, IdOf(att).value) == Some(true)
    ensures CheckReveal(env, b, att).Some? && FullyVerified(b.agentId, CheckReveal(env, b, att).value)
  {
  }

  /**
   A request to reveal everything, over attestations that are distinct and fully bound, and
   whose concession magnitudes have one sum in every order.
   */
  ghost predicate FullRequest(env: Env, q: Request) {
    && q.atts != [] && IdsOf(q.atts).Some? && NoRepeats(IdsOf(q.atts).value)
    && SameItems(IdsOf(q.atts).value, q.revealIds)
    && AllFullyBound(env, q.agent, q.atts) && ConcessionsSettled(q.agent, q.atts)
  }

  /** What `create` puts into a proof. */
  ghost predicate Assembled(env: Env, q: Request, ids: seq<Text>, b: Body) {
    && b.agentId == q.agent && b.root == Merkle.Root(env.h, ids) && b.count == |ids|
    && Entries(env.h, ids, q.revealIds) == Some(b.entries) && Chosen(q.atts, q.revealIds) == Some(b.revealed)
    && Summarize(env.round, q.agent, q.atts) == Some(b.claims)
  }

  lemma BodyIsAssembled(env: Env, q: Request, b: Body)
    requires BodyFor(env, q) == Some(b)
    ensures IdsOf(q.atts).Some? && Assembled(env, q, IdsOf(q.atts).value, b)
  {
  }

  lemma RevealPasses(env: Env, b: Body, ids: seq<Text>, wanted: seq<Text>, att: Attestation, id: Text)
    requires FullyBound(env, b.agentId, att) && IdOf(att) == Some(id) && id in ids && id in wanted
    requires b.root == Merkle.Root(env.h, ids) && Entries(env.h, ids, wanted) == Some(b.entries)
    ensures CheckReveal(env, b, att).Some? && FullyVerified(b.agentId, CheckReveal(env, b, att).value)
  {
    MembershipAccepted(env, b, ids, wanted, id);
    RevealFullyVerified(env, b, att);
  }

  ghost predicate AllFullyBound(env: Env, agent: Text, atts: seq<Attestation>) {
    forall i :: 0 <= i < |atts| ==> FullyBound(env, agent, atts[i])
  }

  lemma FullyBoundReordered(env: Env, agent: Text, atts: seq<Attestation>, others: seq<Attestation>)
    requires SameItems(atts, others) && AllFullyBound(env, agent, atts)
    ensures AllFullyBound(env, agent, others)
  {
    forall i | 0 <= i < |others|
      ensures FullyBound(env, agent, others[i])
    {
      SameItemsContain(atts, others, others[i]);
      var k :| 0 <= k < |atts| && atts[k] == others[i];
    }
  }

  lemma RevealsPass(env: Env, b: Body, ids: seq<Text>, wanted: seq<Text>)
    requires AllFullyBound(env, b.agentId, b.revealed) && IdsOf(b.revealed) == Some(wanted) && SameItems(ids, wanted)
    requires b.root == Merkle.Root(env.h, ids) && Entries(env.h, ids, wanted) == Some(b.entries)
    ensures CheckAll(env, b, b.revealed).Some?
    ensures forall i :: 0 <= i < |b.revealed| ==> FullyVerified(b.agentId, CheckAll(env, b, b.revealed).value[i])
  {
    var check := (a: Attestation) => CheckReveal(env, b, a);
    IdsAreOf(b.revealed, wanted);
    forall i | 0 <= i < |b.revealed|
      ensures check(b.revealed[i]).Some? && FullyVerified(b.agentId, check(b.revealed[i]).value)
    {
      assert FullyBound(env, b.agentId, b.revealed[i]);
      SameItemsContain(ids, wanted, wanted[i]);
      RevealPasses(env, b, ids, wanted, b.revealed[i], wanted[i]);
    }
    EachAll(check, (rc: RevealCheck) => FullyVerified(b.agentId, rc), b.revealed);
  }

  lemma IdsAreOf(atts: seq<Attestation>, ids: seq<Text>)
    requires IdsOf(atts) == Some(ids)
    ensures forall i :: 0 <= i < |atts| ==> IdOf(atts[i]) == Some(ids[i])
  {
    EachFails(IdOf, atts);
  }

  lemma RecomputesAgain(env: Env, b: Body, ids: seq<Text>, wanted: seq<Text>, atts: seq<Attestation>)
    requires SameItems(b.revealed, atts) && Summarize(env.round, b.agentId, atts) == Some(b.claims)
    requires IdsOf(b.revealed) == Some(wanted) && SameItems(ids, wanted) && ids != []
    requires b.root == Merkle.Root(env.h, ids) && ConcessionsSettled(b.agentId, atts) && RatesInRange(b.claims)
    ensures Recomputes(env, b)
  {
    RootReordered(env.h, ids, wanted);
    Merkle.EmptyRoot(env.h, ids);
    SummarizeReordered(env.round, b.agentId, atts, b.revealed);
  }

  /** Everything but the signature. */
  lemma AssembledPasses(env: Env, q: Request, ids: seq<Text>, b: Body)
    requires IdsOf(q.atts) == Some(ids) && Assembled(env, q, ids, b)
    requires NoRepeats(ids) && SameItems(ids, q.revealIds) && ids != [] && AllFullyBound(env, q.agent, q.atts)
    requires ConcessionsSettled(q.agent, q.atts) && RatesInRange(b.claims)
    ensures CheckAll(env, b, b.revealed).Some?
    ensures forall i :: 0 <= i < |b.revealed| ==> FullyVerified(b.agentId, CheckAll(env, b, b.revealed).value[i])
    ensures Recomputes(env, b) && NoRepeats(RevealedIds(b).value)
    ensures b.count == |b.revealed| == b.claims.total > 0
  {
    ChosenIsAll(q.atts, ids, q.revealIds);
    ChosenIds(q.atts, ids, q.revealIds);
    SameItemsLength(b.revealed, q.atts);
    FullyBoundReordered(env, q.agent, q.atts, b.revealed);
    NoRepeatsReordered(ids, q.revealIds);
    RevealsPass(env, b, ids, q.revealIds);
    RecomputesAgain(env, b, ids, q.revealIds, q.atts);
  }

  /**
   Completeness of the gate: a proof that `create` makes over distinct, fully bound
   attestations, revealing all of them in whatever order, is verified in aggregate.
   */
  lemma FullRevealPassesGate(env: Env, key: SecretKey, q: Request)
    requires Correct(env.c) && env.resolve(q.agent) == Some(env.c.publicOf(key))
    requires FullRequest(env, q) && Create(env, key, q).Some?
    ensures Gate(env, Create(env, key, q).value)
  {
    var b := BodyFor(env, q).value;
    BodyIsAssembled(env, q, b);
    AssembledPasses(env, q, IdsOf(q.atts).value, b);
    SignedIsOk(env, key, b);
    GateFromParts(env, Create(env, key, q).value);
  }

  lemma SignedIsOk(env: Env, key: SecretKey, b: Body)
    requires Correct(env.c) && env.resolve(b.agentId) == Some(env.c.publicOf(key)) && SignedProof(env, key, b).Some?
    ensures SignedProof(env, key, b).value.body == b && SignatureOk(env, SignedProof(env, key, b).value)
  {
    SignedTextVerifies(env.c, key, env.payload(b).value);
  }

  lemma GateFromParts(env: Env, p: Proof)
    requires SignatureOk(env, p)
    requires CheckAll(env, p.body, p.body.revealed).Some?
    requires forall i :: 0 <= i < |p.body.revealed| ==>
            FullyVerified(p.body.agentId, CheckAll(env, p.body, p.body.revealed).value[i])
    requires Recomputes(env, p.body) && NoRepeats(RevealedIds(p.body).value)
    requires p.body.count == |p.body.revealed| == p.body.claims.total > 0
    ensures Gate(env, p)
  {
  }
}
