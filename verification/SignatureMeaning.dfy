/**
 What every signature check amounts to, down to the scheme: the text decodes, and the
 scheme verifies the decoded octets under the resolved key over the bytes in question.
 */
module SignatureMeaning {
  import opened Wrappers
  import opened Order
  import opened Sequences
  import opened Unicode
  import opened PythonValues
  import opened Signing
  import opened CanonicalParser
  import opened Crypto
  import opened ReceiptBundle
  import opened CompetenceProof
  import AttestationVersion
  import BundleVerification
  import CompetenceIssue
  import Cosign
  import Envelopes
  import Merkle
  import Negotiation

  /** The octets that `text` encodes verify under `key` over `payload`, which exists. */
  predicate Verifies(c: Scheme, key: Option<PublicKey>, payload: Option<Bytes>, text: Option<Json>) {
    && key.Some? && payload.Some? && text.Some? && text.value.Str? && c.decode(text.value.s).Some?
    && c.verify(key.value, payload.value, c.decode(text.value.s).value)
  }

  // ---------------------------------------------------------------- what the bytes are

  /** Stripping drops the members named `signature` and strips the values of the others. */
  lemma {:induction false} StrippedMembers(ms: seq<Member>, m: Member)
    ensures m in Cosign.StripMembers(ms) <==>
            m.key != Lit("signature")
            && exists i :: 0 <= i < |ms| && m == Member(ms[i].key, Cosign.StripSignatures(ms[i].value))
  {
    if ms != [] {
      StrippedMembers(ms[1..], m);
      if i :| 0 <= i < |ms[1..]| && m == Member(ms[1..][i].key, Cosign.StripSignatures(ms[1..][i].value)) {
        assert ms[i + 1] == ms[1..][i];
      }
      if i :| 0 <= i < |ms| && m == Member(ms[i].key, Cosign.StripSignatures(ms[i].value)) && i > 0 {
        assert ms[1..][i - 1] == ms[i];
      }
    }
  }

  /** The value under `ms[key]`, stripped. */
  function StrippedAt(ms: seq<Member>, key: Text): Option<Json> {
    match Get(ms, key)
    case Some(v) => Some(Cosign.StripSignatures(v))
    case None => None
  }

  ghost predicate SameOrAbsent(a: Option<Json>, b: Option<Json>) {
    a.Some? == b.Some? && (a.Some? ==> SameValue(a.value, b.value))
  }

  lemma {:induction false} GetWithout(ms: seq<Member>, name: Text, key: Text)
    ensures Get(Without(ms, name), key) == if key == name then None else Get(ms, key)
  {
    if ms != [] {
      GetWithout(ms[1..], name, key);
      if ms[0].key != name {
        assert Without(ms, name)[1..] == Without(ms[1..], name);
      }
    }
  }

  lemma {:induction false} GetStripped(ms: seq<Member>, key: Text)
    ensures Get(Cosign.StripMembers(ms), key) == if key == Lit("signature") then None else StrippedAt(ms, key)
  {
    if ms != [] {
      GetStripped(ms[1..], key);
      if ms[0].key != Cosign.SIGNATURE {
        assert Cosign.StripMembers(ms)[1..] == Cosign.StripMembers(ms[1..]);
      }
    }
  }

  lemma SameObjectsSameMembers(xs: seq<Member>, ys: seq<Member>, key: Text)
    requires DistinctNames(xs) && DistinctNames(ys) && SameValue(Obj(xs), Obj(ys))
    ensures Get(xs, key).Some? ==> SameOrAbsent(Get(xs, key), Get(ys, key))
  {
    if Get(xs, key).Some? {
      var i :| 0 <= i < |xs| && xs[i].key == key;
      GetIs(xs, i);
      var k :| 0 <= k < |ys| && xs[i].key == ys[k].key && SameValue(xs[i].value, ys[k].value);
      GetIs(ys, k);
    }
  }

  /**
   Countersigned bytes fix every field of an attestation but two: whatever the name, other
   than `signature` and `countersignatures`, both have it or neither, with one value up to
   the signatures inside it.
   */
  lemma PayloadFixesEveryField(a: seq<Member>, b: seq<Member>, key: Text)
    requires IsPython(Obj(a)) && IsPython(Obj(b))
    requires Cosign.CountersignPayload(a).Some? && Cosign.CountersignPayload(a) == Cosign.CountersignPayload(b)
    requires key != Lit("signature") && key != Lit("countersignatures")
    ensures SameOrAbsent(StrippedAt(a, key), StrippedAt(b, key))
  {
    var x, y := Without(a, Cosign.COUNTERSIGNATURES), Without(b, Cosign.COUNTERSIGNATURES);
    WithoutKeepsPython(a, Cosign.COUNTERSIGNATURES);
    WithoutKeepsPython(b, Cosign.COUNTERSIGNATURES);
    Cosign.StripKeepsPython(Obj(x));
    Cosign.StripKeepsPython(Obj(y));
    SameBytesIffSameValue(Cosign.StripSignatures(Obj(x)), Cosign.StripSignatures(Obj(y)));
    SameBytesIffSameValue(Cosign.StripSignatures(Obj(y)), Cosign.StripSignatures(Obj(x)));
    SameObjectsSameMembers(Cosign.StripMembers(x), Cosign.StripMembers(y), key);
    SameObjectsSameMembers(Cosign.StripMembers(y), Cosign.StripMembers(x), key);
    GetStripped(x, key);
    GetStripped(y, key);
    GetWithout(a, Cosign.COUNTERSIGNATURES, key);
    GetWithout(b, Cosign.COUNTERSIGNATURES, key);
  }

  lemma {:induction false} WithoutKeepsPython(ms: seq<Member>, name: Text)
    requires IsPython(Obj(ms))
    ensures IsPython(Obj(Without(ms, name)))
  {
    if ms != [] {
      WithoutKeepsPython(ms[1..], name);
      var rest := Without(ms[1..], name);
      forall i | 0 <= i < |rest|
        ensures rest[i].key != ms[0].key
      {
        WithoutMembers(ms[1..], name, rest[i]);
        var k :| 0 <= k < |ms[1..]| && ms[1..][k] == rest[i];
        assert ms[k + 1] == rest[i];
      }
    }
  }

  // ---------------------------------------------------------------- countersignatures

  /** The text under `pid` in `att["countersignatures"]`. */
  function CountersignatureAt(att: Attestation, pid: Text): Option<Json> {
    match Get(att, Lit("countersignatures"))
    case Some(Obj(ms)) => Get(ms, pid)
    case _ => None
  }

  /** The canonical bytes of the attestation without its map and its signatures. */
  function SnapshotBytes(att: Attestation): Option<Bytes> {
    CanonicalJson(Cosign.StripSignatures(Obj(Without(att, Lit("countersignatures")))))
  }

  predicate CountersignatureVerifies(c: Scheme, resolve: KeyResolver, att: Attestation, pid: Text) {
    && CountersignatureAt(att, pid) != Some(Str([]))
    && Verifies(c, resolve(pid), SnapshotBytes(att), CountersignatureAt(att, pid))
  }

  lemma CountersignedIff(c: Scheme, resolve: KeyResolver, att: Attestation, pid: Text)
    ensures Countersigned(c, resolve, att, pid) <==> CountersignatureVerifies(c, resolve, att, pid)
  {
  }

  /** From version 0.2 up to 0.6.0. */
  predicate CoveredVersion(att: Attestation) {
    match AttestationVersion.Parse(Get(att, Lit("concordia_attestation")))
    case Some(v) => v.major == 0 && v.minor >= 2 && (v.minor < 6 || (v.minor == 6 && v.patch == 0))
    case None => false
  }

  lemma CoveredVersionIff(att: Attestation)
    ensures var v := AttestationVersion.Parse(Get(att, CONCORDIA_ATTESTATION));
            CoveredVersion(att) <==>
            v.Some? && !AttestationVersion.ExceedsImplemented(v.value) && !AttestationVersion.BelowFloor(v.value, 0, 2)
  {
    match AttestationVersion.Parse(Get(att, CONCORDIA_ATTESTATION))
    case Some(v) => TupleAbove(v);
    case None =>
  }

  lemma TupleAbove(v: AttestationVersion.Version)
    ensures AttestationVersion.ExceedsImplemented(v) <==>
            v.major > 0 || v.minor > 6 || (v.minor == 6 && v.patch > 0)
  {
    var a: seq<int> := [0, 6, 0];
    var b: seq<int> := [v.major, v.minor, v.patch];
    assert a == AttestationVersion.AsTuple(AttestationVersion.IMPLEMENTED) && b == AttestationVersion.AsTuple(v);
    LexTail(a, b);
    LexTail(a[1..], b[1..]);
    LexTail(a[1..][1..], b[1..][1..]);
  }

  lemma LexTail(a: seq<int>, b: seq<int>)
    requires |a| == |b| > 0
    ensures LexLess(a, b) <==> a[0] < b[0] || (a[0] == b[0] && LexLess(a[1..], b[1..]))
    ensures |a| == 1 ==> (LexLess(a, b) <==> a[0] < b[0])
  {
  }

  /** A bound outcome, down to the scheme. */
  lemma BoundIffVerified(c: Scheme, resolve: KeyResolver, att: Attestation)
    requires PartyIds(att).Some?
    ensures OutcomeBinding(c, resolve, att) == Some(Bound) <==>
            && CoveredVersion(att) && (exists pid :: pid in PartyIds(att).value && pid != [])
            && forall pid :: pid in PartyIds(att).value && pid != [] ==> CountersignatureVerifies(c, resolve, att, pid)
  {
    CoveredVersionIff(att);
    CompetenceIssue.BoundIff(c, resolve, att);
    forall pid
      ensures Countersigned(c, resolve, att, pid) <==> CountersignatureVerifies(c, resolve, att, pid)
    {
      CountersignedIff(c, resolve, att, pid);
    }
  }

  /** One countersignature that the scheme refuses, or that is missing, and nothing is bound. */
  lemma OneRefusalUnbinds(c: Scheme, resolve: KeyResolver, att: Attestation, pid: Text)
    requires PartyIds(att).Some? && pid in PartyIds(att).value && pid != []
    requires !Verifies(c, resolve(pid), SnapshotBytes(att), CountersignatureAt(att, pid))
    ensures OutcomeBinding(c, resolve, att) != Some(Bound)
  {
    BoundIffVerified(c, resolve, att);
  }

  // ---------------------------------------------------------------- signatures of party entries

  /** The party's own signature, over its entry without the signature. */
  predicate PartySigned(c: Scheme, key: Option<PublicKey>, party: seq<Member>) {
    Verifies(c, key, CanonicalJson(Obj(Without(party, Lit("signature")))), Get(party, Lit("signature")))
  }

  /** Absent, or falsy as Python sees it. */
  predicate NoSignature(party: seq<Member>) {
    match Get(party, Lit("signature"))
    case Some(v) => !Negotiation.Truthy(v)
    case None => true
  }

  /** The three results of checking a party entry, down to the scheme. */
  lemma CheckPartyIs(c: Scheme, resolve: KeyResolver, party: seq<Member>, pid: Text)
    ensures var check := CheckParty(c, resolve, party, pid);
            && (check == Verified <==> !NoSignature(party) && PartySigned(c, resolve(pid), party))
            && (check == Unresolved <==> !NoSignature(party) && resolve(pid).None?)
            && (check == BadSignature <==>
                NoSignature(party) || (resolve(pid).Some? && !PartySigned(c, resolve(pid), party)))
  {
  }

  // ---------------------------------------------------------------- the gate

  /** One revealed attestation in a verified aggregate. */
  ghost predicate RevealHolds(env: Env, b: Body, att: Attestation) {
    && IdOf(att).Some? && PartiesOf(att).Some? && PartyIds(att).Some?
    && (exists k :: 0 <= k < |b.entries| && FirstFor(b.entries, IdOf(att).value, k)
                    && Merkle.Accepts(env.h, IdOf(att).value, b.entries[k].proof, b.root))
    && CoveredVersion(att) && b.agentId in PartyIds(att).value
    && (exists pid :: pid in PartyIds(att).value && pid != [])
    && (forall pid :: pid in PartyIds(att).value && pid != [] ==>
          CountersignatureVerifies(env.c, env.resolve, att, pid))
    && forall i :: 0 <= i < |PartiesOf(att).value| ==>
         var party, key := PartiesOf(att).value[i], env.resolve(PartyIds(att).value[i]);
         !NoSignature(party) && (key.Some? ==> PartySigned(env.c, key, party))
  }

  /** Entry `k` is the first one listed for `id`. */
  ghost predicate FirstFor(entries: seq<Entry>, id: Text, k: nat) {
    k < |entries| && entries[k].id == id && forall i :: 0 <= i < k ==> entries[i].id != id
  }

  lemma {:induction false} FindEntryIs(entries: seq<Entry>, id: Text)
    ensures match FindEntry(entries, id)
            case Some(e) => exists k :: 0 <= k < |entries| && FirstFor(entries, id, k) && entries[k] == e
            case None => forall i :: 0 <= i < |entries| ==> entries[i].id != id
  {
    if entries != [] {
      if entries[0].id == id {
        assert FirstFor(entries, id, 0);
      } else {
        FindEntryIs(entries[1..], id);
        if FindEntry(entries[1..], id).Some? {
          var k :| 0 <= k < |entries[1..]| && FirstFor(entries[1..], id, k)
                   && entries[1..][k] == FindEntry(entries[1..], id).value;
          assert forall i :: 0 < i < k + 1 ==> entries[i] == entries[1..][i - 1];
          assert FirstFor(entries, id, k + 1);
        } else {
          assert forall i :: 0 < i < |entries| ==> entries[i] == entries[1..][i - 1];
        }
      }
    }
  }

  lemma MembershipIff(env: Env, b: Body, id: Text)
    ensures Membership(env, b, id) == Some(true) <==>
            exists k :: 0 <= k < |b.entries| && FirstFor(b.entries, id, k)
                        && Merkle.Accepts(env.h, id, b.entries[k].proof, b.root)
  {
    FindEntryIs(b.entries, id);
    if k :| 0 <= k < |b.entries| && FirstFor(b.entries, id, k)
            && Merkle.Accepts(env.h, id, b.entries[k].proof, b.root) {
      var j :| 0 <= j < |b.entries| && FirstFor(b.entries, id, j) && Some(b.entries[j]) == FindEntry(b.entries, id);
      assert j == k;
    }
  }

  lemma NoBadPartyIff(c: Scheme, resolve: KeyResolver, parties: seq<seq<Member>>, ids: seq<Text>)
    requires |ids| == |parties|
    ensures BadSignature !in CheckParties(c, resolve, parties, ids) <==>
            forall i :: 0 <= i < |parties| ==>
              !NoSignature(parties[i]) && (resolve(ids[i]).Some? ==> PartySigned(c, resolve(ids[i]), parties[i]))
  {
    forall i | 0 <= i < |parties|
      ensures CheckParties(c, resolve, parties, ids)[i] == BadSignature <==>
              NoSignature(parties[i]) || (resolve(ids[i]).Some? && !PartySigned(c, resolve(ids[i]), parties[i]))
    {
      CheckPartyIs(c, resolve, parties[i], ids[i]);
    }
  }

  lemma RevealIff(env: Env, b: Body, att: Attestation)
    ensures CheckReveal(env, b, att).Some? && FullyVerified(b.agentId, CheckReveal(env, b, att).value) <==>
            RevealHolds(env, b, att)
  {
    if IdOf(att).Some? && PartiesOf(att).Some? && PartyIds(att).Some? {
      MembershipIff(env, b, IdOf(att).value);
      BoundIffVerified(env.c, env.resolve, att);
      NoBadPartyIff(env.c, env.resolve, PartiesOf(att).value, PartyIds(att).value);
    }
  }

  /** The prover's signature over the signed fields. */
  predicate ProverSigned(env: Env, p: Proof) {
    Verifies(env.c, env.resolve(p.body.agentId), env.payload(p.body), Some(Str(p.signature)))
  }

  /** The gate of a verified aggregate, down to the scheme. */
  lemma GateIff(env: Env, p: Proof)
    ensures Gate(env, p) <==>
            var b := p.body;
            && ProverSigned(env, p) && b.count == b.claims.total && b.count == |b.revealed| && b.count > 0
            && (forall i :: 0 <= i < |b.revealed| ==> RevealHolds(env, b, b.revealed[i]))
            && Recomputes(env, b) && NoRepeats(RevealedIds(b).value)
  {
    RevealsIff(env, p.body);
    ProverSignedIff(env, p);
  }

  lemma ProverSignedIff(env: Env, p: Proof)
    ensures SignatureOk(env, p) <==> ProverSigned(env, p)
  {
  }

  lemma RevealsIff(env: Env, b: Body)
    ensures CheckAll(env, b, b.revealed).Some?
            && (forall i :: 0 <= i < |b.revealed| ==> FullyVerified(b.agentId, CheckAll(env, b, b.revealed).value[i]))
            <==> forall i :: 0 <= i < |b.revealed| ==> RevealHolds(env, b, b.revealed[i])
  {
    var f := (a: Attestation) => CheckReveal(env, b, a);
    EachFails(f, b.revealed);
    forall i | 0 <= i < |b.revealed|
      ensures f(b.revealed[i]).Some? && FullyVerified(b.agentId, f(b.revealed[i]).value) <==>
              RevealHolds(env, b, b.revealed[i])
    {
      RevealIff(env, b, b.revealed[i]);
    }
  }

  /** One refused countersignature in one revealed attestation, and the aggregate is not verified. */
  lemma OneRefusalClosesGate(env: Env, p: Proof, i: nat, pid: Text)
    requires i < |p.body.revealed| && PartyIds(p.body.revealed[i]).Some?
    requires pid in PartyIds(p.body.revealed[i]).value && pid != []
    requires !Verifies(env.c, env.resolve(pid), SnapshotBytes(p.body.revealed[i]),
                       CountersignatureAt(p.body.revealed[i], pid))
    ensures !Gate(env, p)
  {
    GateIff(env, p);
  }

  // ---------------------------------------------------------------- messages, bundles and proofs

  /** `verify_signature`, down to the scheme. */
  lemma MessageSignatureIff(c: Scheme, m: seq<Member>, signature: Text, key: PublicKey)
    ensures Envelopes.VerifySignature(c)(m, signature, key) <==>
            Verifies(c, Some(key), CanonicalJson(Obj(Without(m, Lit("signature")))), Some(Str(signature)))
  {
  }

  lemma BundleSignatureIff(s: BundleVerification.Setting, b: BundleVerification.Bundle)
    ensures BundleVerification.BundleSigned(s, b) <==>
            Verifies(s.c, s.resolve(b.content.agentId), s.payload(b.content), Some(Str(b.signature)))
  {
  }

  /** Entry `j` names `pid` and verifies under the key for the attestation's session. */
  ghost predicate EntryVerifies(s: BundleVerification.Setting, att: Attestation, j: nat, pid: Text) {
    && PartiesOf(att).Some? && PartyIds(att).Some? && IdOf(att).Some? && TextAt(att, Lit("session_id")).Some?
    && j < |PartiesOf(att).value| && PartyIds(att).value[j] == pid
    && var party := PartiesOf(att).value[j];
       !NoSignature(party) && PartySigned(s.c, s.keyFor(pid, TextAt(att, Lit("session_id")).value), party)
  }

  /** Which counterparties a bundle is credited with, down to the scheme. */
  lemma CreditedIff(s: BundleVerification.Setting, agent: Text, atts: seq<Attestation>, pid: Text)
    requires BundleVerification.ReadAll(s, atts).Some?
    ensures var rs := BundleVerification.ReadAll(s, atts).value;
            pid in BundleVerification.Confirmed(agent, BundleVerification.AllParties(rs)) <==>
            pid != agent && exists i, j: nat :: 0 <= i < |atts| && EntryVerifies(s, atts[i], j, pid)
  {
    BundleVerification.ConfirmedIff(s, agent, atts, pid);
    forall i, j: nat | 0 <= i < |atts|
      ensures BundleVerification.SignedBy(s, atts[i], j, pid) <==> EntryVerifies(s, atts[i], j, pid)
    {
      SignedByIff(s, atts[i], j, pid);
    }
  }

  lemma SignedByIff(s: BundleVerification.Setting, att: Attestation, j: nat, pid: Text)
    ensures BundleVerification.SignedBy(s, att, j, pid) <==> EntryVerifies(s, att, j, pid)
  {
  }

  // ---------------------------------------------------------------- placing a co-signature

  /** The entry names this participant. */
  predicate NamesParty(p: Json, did: Text) {
    p.Obj? && Get(p.members, Lit("agent_id")) == Some(Str(did))
  }

  /** It is the only entry of the party list that does. */
  predicate OnlyParty(receipt: seq<Member>, parties: seq<Json>, i: nat, did: Text) {
    && Get(receipt, Lit("parties")) == Some(Arr(false, parties)) && i < |parties|
    && forall k :: 0 <= k < |parties| ==> (NamesParty(parties[k], did) <==> k == i)
  }

  lemma {:induction false} GetUpdated(ms: seq<Member>, at: nat, v: Json, key: Text)
    requires at < |ms| && at == Cosign.Position(ms, ms[at].key)
    ensures Get(ms[at := Member(ms[at].key, v)], key) == if key == ms[at].key then Some(v) else Get(ms, key)
  {
    var updated := ms[at := Member(ms[at].key, v)];
    if at > 0 {
      assert updated[1..] == ms[1..][at - 1 := Member(ms[at].key, v)];
      GetUpdated(ms[1..], at - 1, v, key);
    } else {
      assert updated[1..] == ms[1..];
    }
  }

  lemma FirstTwo(ks: seq<nat>)
    requires forall k, l :: 0 <= k < l < |ks| ==> ks[k] < ks[l]
    ensures |ks| <= 1 || ks[0] < ks[1]
  {
  }

  lemma OneMatch(receipt: seq<Member>, parties: seq<Json>, i: nat, did: Text)
    requires OnlyParty(receipt, parties, i, did)
    ensures Cosign.Matches(parties, did, 0) == [i]
  {
    var matches := Cosign.Matches(parties, did, 0);
    assert i in matches && forall k :: 0 <= k < |matches| ==> matches[k] in matches;
    FirstTwo(matches);
    assert forall k :: 0 <= k < |matches| ==> matches[k] == i;
  }

  /** The signature goes into the one entry that names the participant; nothing else in the receipt changes. */
  lemma PlacementIs(receipt: seq<Member>, parties: seq<Json>, i: nat, did: Text, signature: Text)
    requires OnlyParty(receipt, parties, i, did) && signature != []
    ensures var placed := Cosign.PlaceCosignature(receipt, did, signature);
            && placed.Placed? && placed.receipt.Obj?
            && var signed := Obj(Put(parties[i].members, Lit("signature"), Str(signature)));
               && Get(placed.receipt.members, Lit("parties")) == Some(Arr(false, parties[i := signed]))
               && forall key :: key != Lit("parties") ==> Get(placed.receipt.members, key) == Get(receipt, key)
  {
    OneMatch(receipt, parties, i, did);
    var at := Cosign.Position(receipt, Cosign.PARTIES);
    var signed := Obj(Put(parties[i].members, Lit("signature"), Str(signature)));
    PositionGets(receipt, Cosign.PARTIES);
    EditedEntry(parties, i, signature);
    assert [Cosign.Key(Cosign.PARTIES), Cosign.Index(i)][1..] == [Cosign.Index(i)];
    forall key
      ensures Get(receipt[at := Member(Cosign.PARTIES, Arr(false, parties[i := signed]))], key) ==
              if key == Cosign.PARTIES then Some(Arr(false, parties[i := signed])) else Get(receipt, key)
    {
      GetUpdated(receipt, at, Arr(false, parties[i := signed]), key);
    }
  }

  lemma {:induction false} PositionGets(ms: seq<Member>, key: Text)
    ensures Cosign.Position(ms, key) < |ms| <==> Get(ms, key).Some?
    ensures Cosign.Position(ms, key) < |ms| ==> Get(ms, key) == Some(ms[Cosign.Position(ms, key)].value)
  {
    if ms != [] && ms[0].key != key {
      PositionGets(ms[1..], key);
    }
  }

  lemma EditedEntry(parties: seq<Json>, i: nat, signature: Text)
    requires i < |parties| && parties[i].Obj?
    ensures Cosign.EditAt(Arr(false, parties), [Cosign.Index(i)], Some(Str(signature)))
         == Arr(false, parties[i := Obj(Put(parties[i].members, Lit("signature"), Str(signature)))])
  {
    assert [Cosign.Index(i)][1..] == [];
  }
}
