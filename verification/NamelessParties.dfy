/** Party entries without an id, which outcome binding passes over (`concordia/receipt_bundle.py`). */
module NamelessParties {
  import opened Wrappers
  import opened Sequences
  import opened Unicode
  import opened PythonValues
  import opened Signing
  import opened Crypto
  import opened Cosign
  import opened ReceiptBundle
  import AttestationVersion
  import CompetenceIssue

  /** The version is one that outcome binding covers. */
  predicate VersionCovered(att: Attestation) {
    var v := AttestationVersion.Parse(Get(att, CONCORDIA_ATTESTATION));
    v.Some? && !AttestationVersion.ExceedsImplemented(v.value) && !AttestationVersion.BelowFloor(v.value, 0, 2)
  }

  /** Every entry of the party list has an id, and that party countersigned. */
  ghost predicate EveryEntryCountersigned(c: Scheme, resolve: KeyResolver, att: Attestation) {
    && PartyIds(att).Some? && PartyIds(att).value != []
    && forall pid :: pid in PartyIds(att).value ==> pid != [] && Countersigned(c, resolve, att, pid)
  }

  /**
   What the documentation promises of a bound outcome, the countersignature of every
   listed party, holds exactly when no entry of the party list lacks an id.
   */
  lemma EveryEntryIff(c: Scheme, resolve: KeyResolver, att: Attestation)
    requires PartyIds(att).Some?
    ensures VersionCovered(att) && EveryEntryCountersigned(c, resolve, att) <==>
            OutcomeBinding(c, resolve, att) == Some(Bound) && [] !in PartyIds(att).value
  {
    CompetenceIssue.BoundIff(c, resolve, att);
    var ids := PartyIds(att).value;
    if ids != [] && forall pid :: pid in ids ==> pid != [] {
      assert ids[0] in ids;
    }
  }

  // ---------------------------------------------------------------- an entry without an id

  function Entry(id: Text): Json {
    Obj([Member(AGENT_ID, Str(id))])
  }

  /** An attestation with one named entry and one without a name. */
  function HalfNamed(p: Text): Attestation {
    [Member(CONCORDIA_ATTESTATION, Str(Lit("0.2.0"))), Member(PARTIES, Arr(false, [Entry(p), Entry([])]))]
  }

  lemma NamesDiffer()
    ensures CONCORDIA_ATTESTATION != PARTIES && CONCORDIA_ATTESTATION != COUNTERSIGNATURES
    ensures PARTIES != COUNTERSIGNATURES
  {
    assert |CONCORDIA_ATTESTATION| == 21 && |PARTIES| == 7 && |COUNTERSIGNATURES| == 17;
  }

  lemma {:induction false} GetPutOther(ms: seq<Member>, key: Text, v: Json, other: Text)
    requires key != other
    ensures Get(Put(ms, key, v), other) == Get(ms, other)
  {
    if ms == [] {
      assert [Member(key, v)][1..] == [];
    } else if ms[0].key == key {
      assert ([Member(key, v)] + ms[1..])[1..] == ms[1..];
    } else {
      GetPutOther(ms[1..], key, v, other);
      assert Put(ms, key, v)[1..] == Put(ms[1..], key, v);
    }
  }

  lemma HalfNamedFields(p: Text)
    ensures Get(HalfNamed(p), CONCORDIA_ATTESTATION) == Some(Str(Lit("0.2.0")))
    ensures Get(HalfNamed(p), PARTIES) == Some(Arr(false, [Entry(p), Entry([])]))
  {
    NamesDiffer();
    assert HalfNamed(p)[1..][0] == HalfNamed(p)[1];
  }

  lemma HalfNamedIds(att: Attestation, p: Text)
    requires Get(att, PARTIES) == Some(Arr(false, [Entry(p), Entry([])]))
    ensures PartyIds(att) == Some([p, []])
  {
    var first, second := Entry(p).members, Entry([]).members;
    EachOne(AsDict, Entry([]));
    EachCons(AsDict, Entry(p), [Entry([])]);
    assert [Entry(p)] + [Entry([])] == [Entry(p), Entry([])] && [first] + [second] == [first, second];
    EachOne(PartyId, second);
    EachCons(PartyId, first, [second]);
    assert [p] + [[]] == [p, []];
  }

  lemma VersionIsCovered(att: Attestation)
    requires Get(att, CONCORDIA_ATTESTATION) == Some(Str(Lit("0.2.0")))
    ensures VersionCovered(att)
  {
    assert Lit("0.2.0") == AttestationVersion.ShortText(0, 2, 0);
    AttestationVersion.ShortParses(0, 2, 0);
  }

  lemma HalfNamedPrints(p: Text)
    requires Encodable(p)
    ensures CountersignPayload(HalfNamed(p)).Some?
  {
    var att := HalfNamed(p);
    assert Canonicalizable(Entry(p)) && Canonicalizable(Entry([]));
    assert Canonicalizable(att[1].value);
    assert forall i :: 0 <= i < |att| ==> Encodable(att[i].key) && Canonicalizable(att[i].value);
    PrintableHasPayload(att);
  }

  /** The issued attestation: the holder alone countersigns. */
  function Issued(c: Scheme, p: Text, key: SecretKey): Attestation
    requires Encodable(p)
  {
    HalfNamedIssues(c, p, key);
    Issue(c, HalfNamed(p), [p], map[p := key]).value
  }

  lemma HalfNamedIssues(c: Scheme, p: Text, key: SecretKey)
    requires Encodable(p)
    ensures Issue(c, HalfNamed(p), [p], map[p := key]).Some?
  {
    HalfNamedPrints(p);
    assert [p][1..] == [];
    assert Countersignatures(c, HalfNamed(p), [p][1..], map[p := key]) == Some([]);
  }

  lemma IssuedFields(c: Scheme, p: Text, key: SecretKey)
    requires Encodable(p)
    ensures Get(Issued(c, p, key), CONCORDIA_ATTESTATION) == Some(Str(Lit("0.2.0")))
    ensures Get(Issued(c, p, key), PARTIES) == Some(Arr(false, [Entry(p), Entry([])]))
  {
    HalfNamedFields(p);
    NamesDiffer();
    HalfNamedIssues(c, p, key);
    var ms := Countersignatures(c, HalfNamed(p), [p], map[p := key]).value;
    GetPutOther(HalfNamed(p), COUNTERSIGNATURES, Obj(ms), PARTIES);
    GetPutOther(HalfNamed(p), COUNTERSIGNATURES, Obj(ms), CONCORDIA_ATTESTATION);
  }

  lemma IssuedCountersigned(c: Scheme, resolve: KeyResolver, p: Text, key: SecretKey)
    requires Correct(c) && Encodable(p) && resolve(p) == Some(c.publicOf(key))
    ensures Countersigned(c, resolve, Issued(c, p, key), p)
  {
    HalfNamedIssues(c, p, key);
    IssuedCountersignature(c, HalfNamed(p), [p], map[p := key], p);
    SignedTextVerifies(c, key, CountersignPayload(HalfNamed(p)).value);
    assert |c.sign(key, CountersignPayload(HalfNamed(p)).value)| == 64;
  }

  lemma BoundByOne(c: Scheme, resolve: KeyResolver, att: Attestation, p: Text)
    requires p != [] && PartyIds(att) == Some([p, []]) && VersionCovered(att) && Countersigned(c, resolve, att, p)
    ensures OutcomeBinding(c, resolve, att) == Some(Bound) && !EveryEntryCountersigned(c, resolve, att)
  {
    CompetenceIssue.BoundIff(c, resolve, att);
    assert p in [p, []] && [] in PartyIds(att).value;
  }

  /**
   An outcome bound by one party alone: the other entry has no id, so nobody else's
   countersignature is asked for, and no other key need resolve.
   */
  lemma HalfNamedIsBound(c: Scheme, resolve: KeyResolver, p: Text, key: SecretKey)
    requires Correct(c) && p != [] && Encodable(p) && resolve(p) == Some(c.publicOf(key))
    ensures var att := Issued(c, p, key);
            && PartyIds(att) == Some([p, []]) && OutcomeBinding(c, resolve, att) == Some(Bound)
            && !EveryEntryCountersigned(c, resolve, att)
  {
    IssuedFields(c, p, key);
    HalfNamedIds(Issued(c, p, key), p);
    VersionIsCovered(Issued(c, p, key));
    IssuedCountersigned(c, resolve, p, key);
    BoundByOne(c, resolve, Issued(c, p, key), p);
  }
}
