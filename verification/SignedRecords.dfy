/**
 The dicts that stand behind the signatures of bundles and competence proofs: what
 `create` signs is what the verifier recovers from the record it receives, and the
 signed bytes bind the fields.
 */
module SignedRecords {
  import opened Wrappers
  import opened Unicode
  import opened Numbers
  import opened PythonValues
  import opened Signing
  import opened CanonicalParser
  import opened ReceiptBundle
  import opened CompetenceProof
  import RealValues
  import BundleVerification
  import Envelopes

  const AGENT_SIGNATURE: Text := Lit("agent_signature")
  const BUNDLE_VERSION: Text := Lit("concordia_receipt_bundle")
  const PROOF_VERSION: Text := Lit("concordia_competence_proof")

  /** How Python holds a figure of a summary. */
  type Holding = real -> Number

  function TextArray(ts: seq<Text>): (j: Json)
    ensures j.Arr? && |j.elems| == |ts|
  {
    Arr(false, seq(|ts|, i requires 0 <= i < |ts| => Str(ts[i])))
  }

  function Dicts(atts: seq<Attestation>): (j: Json)
    ensures j.Arr? && |j.elems| == |atts| && forall i :: 0 <= i < |atts| ==> j.elems[i] == Obj(atts[i])
  {
    Arr(false, seq(|atts|, i requires 0 <= i < |atts| => Obj(atts[i])))
  }

  /** `BundleSummary.to_dict` */
  function SummaryDict(hold: Holding, m: Summary): Json {
    Obj([Member(Lit("total_negotiations"), Num(Int(m.total))),
         Member(Lit("agreements"), Num(Int(m.agreements))),
         Member(Lit("agreement_rate"), Num(hold(m.agreementRate))),
         Member(Lit("avg_concession_magnitude"), Num(hold(m.avgConcession))),
         Member(Lit("fulfillment_rate"), Num(hold(m.fulfillmentRate))),
         Member(Lit("unique_counterparties"), Num(Int(m.counterparties))),
         Member(Lit("categories"), TextArray(m.categories)),
         Member(Lit("earliest"), Str(m.earliest)),
         Member(Lit("latest"), Str(m.latest)),
         Member(Lit("reasoning_rate"), Num(hold(m.reasoningRate)))])
  }

  /** The dict that `ReceiptBundle.create` signs. */
  function BundleDict(hold: Holding, b: BundleVerification.Content): seq<Member> {
    [Member(Lit("bundle_id"), Str(b.bundleId)),
     Member(Lit("agent_id"), Str(b.agentId)),
     Member(Lit("created_at"), Str(b.createdAt)),
     Member(Lit("attestations"), Dicts(b.atts)),
     Member(Lit("summary"), SummaryDict(hold, b.summary))]
  }

  function EntryDict(e: Entry): Json {
    Obj([Member(Lit("attestation_id"), Str(e.id)),
         Member(Lit("index"), Num(Int(e.proof.index))),
         Member(Lit("proof"), TextArray(e.proof.siblings))])
  }

  function EntryDicts(es: seq<Entry>): Json {
    Arr(false, seq(|es|, i requires 0 <= i < |es| => EntryDict(es[i])))
  }

  /** `to_dict_for_signing` */
  function ProofDict(hold: Holding, b: Body): seq<Member> {
    [Member(Lit("proof_id"), Str(b.proofId)),
     Member(Lit("agent_id"), Str(b.agentId)),
     Member(Lit("created_at"), Str(b.createdAt)),
     Member(Lit("claims"), SummaryDict(hold, b.claims)),
     Member(Lit("attestation_merkle_root"), Str(b.root)),
     Member(Lit("attestation_count"), Num(Int(b.count))),
     Member(Lit("merkle_proofs"), EntryDicts(b.entries)),
     Member(Lit("revealed_attestations"), Dicts(b.revealed))]
  }

  /** `to_dict` of a signed record: a version in front, the signature behind. */
  function Wire(version: Text, record: seq<Member>, signature: Text): seq<Member> {
    [Member(version, Str(Lit("0.1.0")))] + record + [Member(AGENT_SIGNATURE, Str(signature))]
  }

  /** The dict comprehension of the verifiers, which drops the version and the signature. */
  function Recovered(version: Text, wire: seq<Member>): seq<Member> {
    Without(Without(wire, version), AGENT_SIGNATURE)
  }

  /** The bytes under a signature made by `sign_message`. */
  function Payload(record: seq<Member>): Option<Bytes> {
    CanonicalJson(Obj(Without(record, SIGNATURE)))
  }

  // ---------------------------------------------------------------- what is signed is what is checked

  predicate Lacks(ms: seq<Member>, key: Text) {
    forall i :: 0 <= i < |ms| ==> ms[i].key != key
  }

  lemma {:induction false} WithoutLacking(ms: seq<Member>, key: Text)
    requires Lacks(ms, key)
    ensures Without(ms, key) == ms
  {
    if ms != [] {
      WithoutLacking(ms[1..], key);
      assert ms == [ms[0]] + ms[1..];
    }
  }

  lemma RecoveredIsSigned(version: Text, record: seq<Member>, signature: Text)
    requires version != AGENT_SIGNATURE && Lacks(record, version) && Lacks(record, AGENT_SIGNATURE)
    ensures Recovered(version, Wire(version, record, signature)) == record
  {
    var wire := Wire(version, record, signature);
    var rest := record + [Member(AGENT_SIGNATURE, Str(signature))];
    assert wire == [Member(version, Str(Lit("0.1.0")))] + rest;
    assert wire[1..] == rest;
    assert forall i :: 0 <= i < |rest| ==> rest[i] == if i < |record| then record[i]
        else Member(AGENT_SIGNATURE, Str(signature));
    WithoutLacking(rest, version);
    assert Get(record, AGENT_SIGNATURE).None?;
    Envelopes.WithoutAbsent(record, AGENT_SIGNATURE, Str(signature));
  }

  lemma BundleNames(hold: Holding, b: BundleVerification.Content)
    ensures DistinctNames(BundleDict(hold, b)) && BUNDLE_VERSION != AGENT_SIGNATURE
    ensures Lacks(BundleDict(hold, b), BUNDLE_VERSION) && Lacks(BundleDict(hold, b), AGENT_SIGNATURE)
    ensures Lacks(BundleDict(hold, b), SIGNATURE)
  {
    var d := BundleDict(hold, b);
    assert |d[0].key| == 9 && |d[1].key| == 8 && |d[2].key| == 10 && |d[3].key| == 12 && |d[4].key| == 7;
    assert |BUNDLE_VERSION| == 24 && |AGENT_SIGNATURE| == 15 && |SIGNATURE| == 9;
    assert d[0].key[0] == 'b' as int && SIGNATURE[0] == 's' as int;
  }

  lemma ProofNames(hold: Holding, b: Body)
    ensures DistinctNames(ProofDict(hold, b)) && PROOF_VERSION != AGENT_SIGNATURE
    ensures Lacks(ProofDict(hold, b), PROOF_VERSION) && Lacks(ProofDict(hold, b), AGENT_SIGNATURE)
    ensures Lacks(ProofDict(hold, b), SIGNATURE)
  {
    var d := ProofDict(hold, b);
    assert |d[0].key| == |d[1].key| == 8 && |d[2].key| == 10 && |d[3].key| == 6;
    assert |d[4].key| == 23 && |d[5].key| == 17 && |d[6].key| == 13 && |d[7].key| == 21;
    assert d[0].key[0] == 'p' as int && d[1].key[0] == 'a' as int;
    assert |PROOF_VERSION| == 26 && |AGENT_SIGNATURE| == 15 && |SIGNATURE| == 9;
  }

  /** The bytes that `create` signs for a bundle. */
  function BundlePayload(hold: Holding): BundleVerification.Content -> Option<Bytes> {
    (b: BundleVerification.Content) => Payload(BundleDict(hold, b))
  }

  /** The bytes that `create` signs for a proof. */
  function ProofPayload(hold: Holding): Body -> Option<Bytes> {
    (b: Body) => Payload(ProofDict(hold, b))
  }

  /** The check of a bundle's signature is `verify_signature` on what is left of the received dict. */
  lemma BundleSignatureCheck(s: BundleVerification.Setting, hold: Holding, b: BundleVerification.Bundle)
    requires s.payload == BundlePayload(hold)
    ensures var received := Wire(BUNDLE_VERSION, BundleDict(hold, b.content), b.signature);
            BundleVerification.BundleSigned(s, b) <==>
            && s.resolve(b.content.agentId).Some?
            && Envelopes.VerifySignature(s.c)(Recovered(BUNDLE_VERSION, received), b.signature,
               s.resolve(b.content.agentId).value)
  {
    BundleNames(hold, b.content);
    RecoveredIsSigned(BUNDLE_VERSION, BundleDict(hold, b.content), b.signature);
  }

  /** The check of a proof's signature is `verify_signature` on what is left of the received dict. */
  lemma ProofSignatureCheck(env: Env, hold: Holding, p: Proof)
    requires env.payload == ProofPayload(hold)
    ensures var received := Wire(PROOF_VERSION, ProofDict(hold, p.body), p.signature);
            SignatureOk(env, p) <==>
            && env.resolve(p.body.agentId).Some?
            && Envelopes.VerifySignature(env.c)(Recovered(PROOF_VERSION, received), p.signature,
               env.resolve(p.body.agentId).value)
  {
    ProofNames(hold, p.body);
    RecoveredIsSigned(PROOF_VERSION, ProofDict(hold, p.body), p.signature);
  }

  // ---------------------------------------------------------------- what a signature binds

  ghost predicate AllPython(atts: seq<Attestation>) {
    forall i :: 0 <= i < |atts| ==> IsPython(Obj(atts[i]))
  }

  /** One attestation each, of the same value. */
  ghost predicate SameAttestations(xs: seq<Attestation>, ys: seq<Attestation>) {
    |xs| == |ys| && forall i :: 0 <= i < |xs| ==> SameValue(Obj(xs[i]), Obj(ys[i]))
  }

  lemma SummaryIsPython(hold: Holding, m: Summary)
    ensures IsPython(SummaryDict(hold, m))
  {
    var d := SummaryDict(hold, m).members;
    assert |d[0].key| == 18 && |d[1].key| == |d[6].key| == 10 && |d[2].key| == |d[9].key| == 14 && |d[3].key| == 24;
    assert |d[4].key| == 16 && |d[5].key| == 21 && |d[7].key| == 8 && |d[8].key| == 6;
    assert d[1].key[0] == d[2].key[0] == 'a' as int && d[6].key[0] == 'c' as int && d[9].key[0] == 'r' as int;
    assert DistinctNames(d);
    assert forall i :: 0 <= i < |m.categories| ==> IsPython(TextArray(m.categories).elems[i]);
  }

  lemma EntryIsPython(e: Entry)
    ensures IsPython(EntryDict(e))
  {
    var d := EntryDict(e).members;
    assert |d[0].key| == 14 && |d[1].key| == |d[2].key| == 5;
    assert d[1].key[0] == 'i' as int && d[2].key[0] == 'p' as int;
  }

  lemma EntriesArePython(es: seq<Entry>)
    ensures IsPython(EntryDicts(es))
  {
    forall i | 0 <= i < |es|
      ensures IsPython(EntryDicts(es).elems[i])
    {
      EntryIsPython(es[i]);
    }
  }

  lemma BundleIsPython(hold: Holding, b: BundleVerification.Content)
    requires AllPython(b.atts)
    ensures IsPython(Obj(BundleDict(hold, b)))
  {
    var d := BundleDict(hold, b);
    BundleNames(hold, b);
    SummaryIsPython(hold, b.summary);
    assert IsPython(d[3].value);
    assert forall i :: 0 <= i < |d| ==> IsPython(d[i].value);
  }

  lemma ProofIsPython(hold: Holding, b: Body)
    requires AllPython(b.revealed)
    ensures IsPython(Obj(ProofDict(hold, b)))
  {
    var d := ProofDict(hold, b);
    ProofNames(hold, b);
    SummaryIsPython(hold, b.claims);
    EntriesArePython(b.entries);
    assert IsPython(d[7].value);
    assert forall i :: 0 <= i < |d| ==> IsPython(d[i].value);
  }

  /** Dicts of one value with the same names in the same places agree place by place. */
  lemma SameField(xs: seq<Member>, ys: seq<Member>, i: nat)
    requires SameValue(Obj(xs), Obj(ys)) && DistinctNames(ys) && i < |xs| && xs[i].key == ys[i].key
    ensures SameValue(xs[i].value, ys[i].value)
  {
    var k :| 0 <= k < |ys| && xs[i].key == ys[k].key && SameValue(xs[i].value, ys[k].value);
    assert k == i;
  }

  lemma SameDicts(xs: seq<Attestation>, ys: seq<Attestation>)
    requires SameValue(Dicts(xs), Dicts(ys))
    ensures SameAttestations(xs, ys)
  {
    forall i | 0 <= i < |xs|
      ensures SameValue(Obj(xs[i]), Obj(ys[i]))
    {
      assert SameValue(Dicts(xs).elems[i], Dicts(ys).elems[i]);
    }
  }

  // ---------------------------------------------------------------- what the bytes say of a summary

  /** Two figures that Python holds as one number. */
  predicate SameFigure(hold: Holding, x: real, y: real) {
    RealValues.Reading(hold(x)) == RealValues.Reading(hold(y))
  }

  predicate SameSummary(hold: Holding, m: Summary, n: Summary) {
    && m.total == n.total && m.agreements == n.agreements && m.counterparties == n.counterparties
    && m.categories == n.categories && m.earliest == n.earliest && m.latest == n.latest
    && SameFigure(hold, m.agreementRate, n.agreementRate) && SameFigure(hold, m.avgConcession, n.avgConcession)
    && SameFigure(hold, m.fulfillmentRate, n.fulfillmentRate) && SameFigure(hold, m.reasoningRate, n.reasoningRate)
  }

  lemma SameInts(j: Json, k: Json, x: int, y: int)
    requires SameValue(j, k) && j == Num(Int(x)) && k == Num(Int(y))
    ensures x == y
  {
    RealValues.IntReading(x);
    RealValues.IntReading(y);
  }

  lemma SameFigures(hold: Holding, x: real, y: real)
    requires SameValue(Num(hold(x)), Num(hold(y)))
    ensures SameFigure(hold, x, y)
  {
    RealValues.ValueIsReading(hold(x));
    RealValues.ValueIsReading(hold(y));
  }

  lemma SameTexts(xs: seq<Text>, ys: seq<Text>)
    requires SameValue(TextArray(xs), TextArray(ys))
    ensures xs == ys
  {
    forall i | 0 <= i < |xs|
      ensures xs[i] == ys[i]
    {
      assert SameValue(TextArray(xs).elems[i], TextArray(ys).elems[i]);
    }
  }

  lemma SummaryFieldAt(hold: Holding, m: Summary, n: Summary, i: nat)
    requires SameValue(SummaryDict(hold, m), SummaryDict(hold, n)) && i < 10
    ensures SameValue(SummaryDict(hold, m).members[i].value, SummaryDict(hold, n).members[i].value)
  {
    SummaryIsPython(hold, n);
    SameField(SummaryDict(hold, m).members, SummaryDict(hold, n).members, i);
  }

  /** The three counts, by their place in the dict. */
  function CountAt(m: Summary, i: nat): int {
    if i == 0 then m.total else if i == 1 then m.agreements else m.counterparties
  }

  lemma CountBinds(hold: Holding, m: Summary, n: Summary, i: nat)
    requires SameValue(SummaryDict(hold, m), SummaryDict(hold, n)) && (i == 0 || i == 1 || i == 5)
    ensures CountAt(m, i) == CountAt(n, i)
  {
    SummaryFieldAt(hold, m, n, i);
    var xs, ys := SummaryDict(hold, m).members, SummaryDict(hold, n).members;
    SameInts(xs[i].value, ys[i].value, CountAt(m, i), CountAt(n, i));
  }

  lemma CountsBind(hold: Holding, m: Summary, n: Summary)
    requires SameValue(SummaryDict(hold, m), SummaryDict(hold, n))
    ensures m.total == n.total && m.agreements == n.agreements && m.counterparties == n.counterparties
  {
    CountBinds(hold, m, n, 0);
    CountBinds(hold, m, n, 1);
    CountBinds(hold, m, n, 5);
  }

  lemma TextsBind(hold: Holding, m: Summary, n: Summary)
    requires SameValue(SummaryDict(hold, m), SummaryDict(hold, n))
    ensures m.categories == n.categories && m.earliest == n.earliest && m.latest == n.latest
  {
    SummaryFieldAt(hold, m, n, 6);
    SameTexts(m.categories, n.categories);
    SummaryFieldAt(hold, m, n, 7);
    SummaryFieldAt(hold, m, n, 8);
  }

  lemma FiguresBind(hold: Holding, m: Summary, n: Summary)
    requires SameValue(SummaryDict(hold, m), SummaryDict(hold, n))
    ensures SameFigure(hold, m.agreementRate, n.agreementRate) && SameFigure(hold, m.avgConcession, n.avgConcession)
    ensures SameFigure(hold, m.fulfillmentRate, n.fulfillmentRate)
    ensures SameFigure(hold, m.reasoningRate, n.reasoningRate)
  {
    SummaryFieldAt(hold, m, n, 2);
    SameFigures(hold, m.agreementRate, n.agreementRate);
    SummaryFieldAt(hold, m, n, 3);
    SameFigures(hold, m.avgConcession, n.avgConcession);
    SummaryFieldAt(hold, m, n, 4);
    SameFigures(hold, m.fulfillmentRate, n.fulfillmentRate);
    SummaryFieldAt(hold, m, n, 9);
    SameFigures(hold, m.reasoningRate, n.reasoningRate);
  }

  lemma SummaryBinds(hold: Holding, m: Summary, n: Summary)
    requires SameValue(SummaryDict(hold, m), SummaryDict(hold, n))
    ensures SameSummary(hold, m, n)
  {
    CountsBind(hold, m, n);
    TextsBind(hold, m, n);
    FiguresBind(hold, m, n);
  }

  lemma EntryBinds(e: Entry, f: Entry)
    requires SameValue(EntryDict(e), EntryDict(f))
    ensures e == f
  {
    var xs, ys := EntryDict(e).members, EntryDict(f).members;
    EntryIsPython(f);
    SameField(xs, ys, 0);
    SameField(xs, ys, 1);
    SameField(xs, ys, 2);
    SameInts(xs[1].value, ys[1].value, e.proof.index, f.proof.index);
    SameTexts(e.proof.siblings, f.proof.siblings);
  }

  lemma EntriesBind(es: seq<Entry>, fs: seq<Entry>)
    requires SameValue(EntryDicts(es), EntryDicts(fs))
    ensures es == fs
  {
    forall i | 0 <= i < |es|
      ensures es[i] == fs[i]
    {
      assert SameValue(EntryDicts(es).elems[i], EntryDicts(fs).elems[i]);
      EntryBinds(es[i], fs[i]);
    }
  }

  /** The bytes under a bundle's signature determine its fields, its summary and every attestation. */
  lemma BundleBytesBind(hold: Holding, a: BundleVerification.Content, b: BundleVerification.Content)
    requires AllPython(a.atts)
    requires BundlePayload(hold)(a).Some? && BundlePayload(hold)(a) == BundlePayload(hold)(b)
    ensures a.bundleId == b.bundleId && a.agentId == b.agentId && a.createdAt == b.createdAt
    ensures SameAttestations(a.atts, b.atts) && SameSummary(hold, a.summary, b.summary)
  {
    var xs, ys := BundleDict(hold, a), BundleDict(hold, b);
    BundleNames(hold, a);
    BundleNames(hold, b);
    WithoutLacking(xs, SIGNATURE);
    WithoutLacking(ys, SIGNATURE);
    BundleIsPython(hold, a);
    SameBytesIffSameValue(Obj(xs), Obj(ys));
    SameField(xs, ys, 0);
    SameField(xs, ys, 1);
    SameField(xs, ys, 2);
    SameField(xs, ys, 3);
    SameField(xs, ys, 4);
    SameDicts(a.atts, b.atts);
    SummaryBinds(hold, a.summary, b.summary);
  }

  /** The bytes under a proof's signature determine its root, its claims and everything it reveals. */
  lemma ProofBytesBind(hold: Holding, a: Body, b: Body)
    requires AllPython(a.revealed)
    requires ProofPayload(hold)(a).Some? && ProofPayload(hold)(a) == ProofPayload(hold)(b)
    ensures a.proofId == b.proofId && a.agentId == b.agentId && a.createdAt == b.createdAt && a.root == b.root
    ensures a.count == b.count && a.entries == b.entries
    ensures SameAttestations(a.revealed, b.revealed) && SameSummary(hold, a.claims, b.claims)
  {
    var xs, ys := ProofDict(hold, a), ProofDict(hold, b);
    ProofNames(hold, a);
    ProofNames(hold, b);
    WithoutLacking(xs, SIGNATURE);
    WithoutLacking(ys, SIGNATURE);
    ProofIsPython(hold, a);
    SameBytesIffSameValue(Obj(xs), Obj(ys));
    SameField(xs, ys, 0);
    SameField(xs, ys, 1);
    SameField(xs, ys, 2);
    SameField(xs, ys, 3);
    SameField(xs, ys, 4);
    SameField(xs, ys, 5);
    SameField(xs, ys, 6);
    SameField(xs, ys, 7);
    SameDicts(a.revealed, b.revealed);
    SummaryBinds(hold, a.claims, b.claims);
    SameInts(xs[5].value, ys[5].value, a.count, b.count);
    EntriesBind(a.entries, b.entries);
  }
}
