/**
 Signature-independent payloads: `strip_signatures` and co-signature placement from
 `concordia/cosign.py`, and the issuance countersignatures of `concordia/attestation.py`.
 */
module Cosign {
  import opened Wrappers
  import opened Unicode
  import opened PythonValues
  import opened Signing
  import opened CanonicalParser
  import opened Crypto
  import opened Base64Url

  const SIGNATURE: Text := Lit("signature")
  const COUNTERSIGNATURES: Text := Lit("countersignatures")
  const PARTIES: Text := Lit("parties")
  const AGENT_ID: Text := Lit("agent_id")

  /** `strip_signatures` */
  function StripSignatures(j: Json): Json {
    match j
    case Obj(ms) => Obj(StripMembers(ms))
    case Arr(_, elems) => Arr(false, StripAll(elems))
    case _ => j
  }

  function StripMembers(ms: seq<Member>): seq<Member> {
    if ms == [] then []
    else if ms[0].key == SIGNATURE then StripMembers(ms[1..])
    else [Member(ms[0].key, StripSignatures(ms[0].value))] + StripMembers(ms[1..])
  }

  function StripAll(elems: seq<Json>): (r: seq<Json>)
    ensures |r| == |elems|
    ensures forall i :: 0 <= i < |elems| ==> r[i] == StripSignatures(elems[i])
  {
    if elems == [] then [] else [StripSignatures(elems[0])] + StripAll(elems[1..])
  }

  /** `canonical_cosign_bytes` */
  function CosignBytes(j: Json): Option<Bytes> {
    CanonicalJson(StripSignatures(j))
  }

  /** `_countersign_payload` */
  function CountersignPayload(att: seq<Member>): Option<Bytes> {
    CosignBytes(Obj(Without(att, COUNTERSIGNATURES)))
  }

  // ---------------------------------------------------------------- edits to signatures

  datatype PathStep = Key(k: Text) | Index(i: nat)

  /**
   The value with the `signature` member of the object at `path` set to `sig`, or removed;
   a path that leads nowhere changes nothing.
   */
  function EditAt(j: Json, path: seq<PathStep>, sig: Option<Json>): Json
    decreases |path|
  {
    if path == [] then
      match j
      case Obj(ms) =>
        if sig.Some? then Obj(Put(ms, SIGNATURE, sig.value)) else Obj(Without(ms, SIGNATURE))
      case _ => j
    else
      match (j, path[0])
      case (Obj(ms), Key(k)) =>
        var at := Position(ms, k);
        if at == |ms| then j
        else Obj(ms[at := Member(k, EditAt(ms[at].value, path[1..], sig))])
      case (Arr(tuple, elems), Index(i)) =>
        if i < |elems| then Arr(tuple, elems[i := EditAt(elems[i], path[1..], sig)]) else j
      case _ => j
  }

  function Position(ms: seq<Member>, key: Text): (i: nat)
    ensures i <= |ms| && (i < |ms| ==> ms[i].key == key)
    ensures forall k :: 0 <= k < i ==> ms[k].key != key
  {
    if ms == [] || ms[0].key == key then 0 else 1 + Position(ms[1..], key)
  }

  lemma {:induction false} StripPut(ms: seq<Member>, sig: Json)
    ensures StripMembers(Put(ms, SIGNATURE, sig)) == StripMembers(ms)
  {
    if ms != [] {
      var put := Put(ms, SIGNATURE, sig);
      if ms[0].key == SIGNATURE {
        assert put[1..] == ms[1..];
      } else {
        assert put[1..] == Put(ms[1..], SIGNATURE, sig);
        StripPut(ms[1..], sig);
      }
    } else {
      assert Put(ms, SIGNATURE, sig)[1..] == [];
    }
  }

  lemma {:induction false} StripWithout(ms: seq<Member>)
    ensures StripMembers(Without(ms, SIGNATURE)) == StripMembers(ms)
  {
    if ms != [] {
      StripWithout(ms[1..]);
      if ms[0].key != SIGNATURE {
        assert Without(ms, SIGNATURE)[1..] == Without(ms[1..], SIGNATURE);
      }
    }
  }

  lemma {:induction false} StripUpdate(ms: seq<Member>, at: nat, v: Json)
    requires at < |ms| && StripSignatures(v) == StripSignatures(ms[at].value)
    ensures StripMembers(ms[at := Member(ms[at].key, v)]) == StripMembers(ms)
  {
    var updated := ms[at := Member(ms[at].key, v)];
    if at == 0 {
      assert updated[1..] == ms[1..];
    } else {
      assert updated[1..] == ms[1..][at - 1 := Member(ms[at].key, v)];
      StripUpdate(ms[1..], at - 1, v);
    }
  }

  /** Adding, replacing or removing a signature at any depth is invisible after stripping. */
  lemma {:induction false} EditIsStripped(j: Json, path: seq<PathStep>, sig: Option<Json>)
    ensures StripSignatures(EditAt(j, path, sig)) == StripSignatures(j)
    decreases |path|
  {
    if path == [] {
      if j.Obj? && sig.Some? {
        StripPut(j.members, sig.value);
      } else if j.Obj? {
        StripWithout(j.members);
      }
    } else {
      match (j, path[0])
      case (Obj(ms), Key(k)) =>
        var at := Position(ms, k);
        if at < |ms| {
          EditIsStripped(ms[at].value, path[1..], sig);
          StripUpdate(ms, at, EditAt(ms[at].value, path[1..], sig));
        }
      case (Arr(tuple, elems), Index(i)) =>
        if i < |elems| {
          var edited := elems[i := EditAt(elems[i], path[1..], sig)];
          EditIsStripped(elems[i], path[1..], sig);
          assert StripAll(edited) == StripAll(elems);
        }
      case _ =>
    }
  }

  // ---------------------------------------------------------------- the map of countersignatures

  lemma {:induction false} WithoutPut(ms: seq<Member>, key: Text, v: Json)
    ensures Without(Put(ms, key, v), key) == Without(ms, key)
  {
    if ms == [] {
      assert Put(ms, key, v)[1..] == [];
    } else {
      var put := Put(ms, key, v);
      if ms[0].key == key {
        assert put[1..] == ms[1..];
      } else {
        assert put[1..] == Put(ms[1..], key, v);
        WithoutPut(ms[1..], key, v);
      }
    }
  }

  lemma {:induction false} WithoutUpdate(ms: seq<Member>, at: nat, v: Json, key: Text)
    requires at < |ms| && StripSignatures(v) == StripSignatures(ms[at].value)
    ensures StripMembers(Without(ms[at := Member(ms[at].key, v)], key)) == StripMembers(Without(ms, key))
  {
    var updated := ms[at := Member(ms[at].key, v)];
    if at == 0 {
      assert updated[1..] == ms[1..];
      if ms[0].key != key {
        assert Without(ms, key)[1..] == Without(ms[1..], key);
        assert Without(updated, key)[1..] == Without(ms[1..], key);
      }
    } else {
      assert updated[1..] == ms[1..][at - 1 := Member(ms[at].key, v)];
      WithoutUpdate(ms[1..], at - 1, v, key);
      if ms[0].key != key {
        assert Without(ms, key)[1..] == Without(ms[1..], key);
        assert Without(updated, key)[1..] == Without(updated[1..], key);
      }
    }
  }

  /** Filtering two different keys commutes. */
  lemma {:induction false} WithoutCommutes(ms: seq<Member>, a: Text, b: Text)
    ensures Without(Without(ms, a), b) == Without(Without(ms, b), a)
  {
    if ms != [] {
      WithoutCommutes(ms[1..], a, b);
      if ms[0].key != a {
        assert Without(ms, a)[1..] == Without(ms[1..], a);
      }
      if ms[0].key != b {
        assert Without(ms, b)[1..] == Without(ms[1..], b);
      }
    }
  }

  lemma {:induction false} WithoutPutOther(ms: seq<Member>, key: Text, v: Json, other: Text)
    requires key != other
    ensures Without(Put(ms, key, v), other) == Put(Without(ms, other), key, v)
  {
    if ms == [] {
      assert Put(ms, key, v)[1..] == [];
    } else {
      var put := Put(ms, key, v);
      if ms[0].key == key {
        assert put[1..] == ms[1..];
        assert Without(ms, other)[1..] == Without(ms[1..], other);
      } else {
        assert put[1..] == Put(ms[1..], key, v);
        WithoutPutOther(ms[1..], key, v, other);
        if ms[0].key != other {
          assert Without(ms, other)[1..] == Without(ms[1..], other);
        }
      }
    }
  }

  lemma KeysDiffer()
    ensures SIGNATURE != COUNTERSIGNATURES
  {
    assert |SIGNATURE| == 9 && |COUNTERSIGNATURES| == 17;
  }

  /**
   The countersigned bytes do not depend on any signature inside the attestation nor on
   the map of countersignatures, so parties may sign in any order.
   */
  lemma PayloadIgnoresSignatures(att: seq<Member>, path: seq<PathStep>, sig: Option<Json>)
    ensures EditAt(Obj(att), path, sig).Obj?
    ensures CountersignPayload(EditAt(Obj(att), path, sig).members) == CountersignPayload(att)
  {
    KeysDiffer();
    if path == [] {
      if sig.Some? {
        WithoutPutOther(att, SIGNATURE, sig.value, COUNTERSIGNATURES);
        StripPut(Without(att, COUNTERSIGNATURES), sig.value);
      } else {
        WithoutCommutes(att, SIGNATURE, COUNTERSIGNATURES);
        StripWithout(Without(att, COUNTERSIGNATURES));
      }
    } else if path[0].Key? && Position(att, path[0].k) < |att| {
      var at := Position(att, path[0].k);
      EditIsStripped(att[at].value, path[1..], sig);
      WithoutUpdate(att, at, EditAt(att[at].value, path[1..], sig), COUNTERSIGNATURES);
    }
  }

  lemma PayloadIgnoresMap(att: seq<Member>, countersignatures: Json)
    ensures CountersignPayload(Put(att, COUNTERSIGNATURES, countersignatures)) == CountersignPayload(att)
  {
    WithoutPut(att, COUNTERSIGNATURES, countersignatures);
  }

  lemma {:induction false} StripKeepsPython(j: Json)
    requires IsPython(j)
    ensures IsPython(StripSignatures(j))
  {
    match j
    case Obj(ms) => StripMembersKeepsPython(ms);
    case Arr(_, elems) =>
      forall i | 0 <= i < |elems|
        ensures IsPython(StripAll(elems)[i])
      {
        StripKeepsPython(elems[i]);
      }
    case _ =>
  }

  lemma {:induction false} StripMembersKeepsPython(ms: seq<Member>)
    requires DistinctNames(ms) && forall i :: 0 <= i < |ms| ==> IsPython(ms[i].value)
    ensures IsPython(Obj(StripMembers(ms)))
    ensures forall i :: 0 <= i < |StripMembers(ms)| ==>
            exists k :: 0 <= k < |ms| && ms[k].key == StripMembers(ms)[i].key
  {
    if ms != [] {
      StripKeepsPython(ms[0].value);
      StripMembersKeepsPython(ms[1..]);
      var tail := StripMembers(ms[1..]);
      forall i | 0 <= i < |tail|
        ensures tail[i].key != ms[0].key
        ensures exists k :: 0 <= k < |ms| && ms[k].key == tail[i].key
      {
        var k :| 0 <= k < |ms[1..]| && ms[1..][k].key == tail[i].key;
        assert ms[k + 1].key == tail[i].key;
      }
    }
  }

  lemma {:induction false} StripKeepsCanonical(j: Json)
    requires Canonicalizable(j)
    ensures Canonicalizable(StripSignatures(j))
  {
    match j
    case Obj(ms) => StripMembersKeepCanonical(ms);
    case Arr(_, elems) =>
      forall i | 0 <= i < |elems|
        ensures Canonicalizable(StripAll(elems)[i])
      {
        StripKeepsCanonical(elems[i]);
      }
    case _ =>
  }

  lemma {:induction false} StripMembersKeepCanonical(ms: seq<Member>)
    requires forall i :: 0 <= i < |ms| ==> Encodable(ms[i].key) && Canonicalizable(ms[i].value)
    ensures Canonicalizable(Obj(StripMembers(ms)))
  {
    if ms != [] {
      StripKeepsCanonical(ms[0].value);
      StripMembersKeepCanonical(ms[1..]);
    }
  }

  /** What can be printed can be countersigned. */
  lemma PrintableHasPayload(att: seq<Member>)
    requires Canonicalizable(Obj(att))
    ensures CountersignPayload(att).Some?
  {
    var rest := Without(att, COUNTERSIGNATURES);
    forall i | 0 <= i < |rest|
      ensures Encodable(rest[i].key) && Canonicalizable(rest[i].value)
    {
      WithoutMembers(att, COUNTERSIGNATURES, rest[i]);
      var k :| 0 <= k < |att| && att[k] == rest[i];
    }
    StripKeepsCanonical(Obj(rest));
    PrinterDomain(StripSignatures(Obj(rest)));
  }

  /** Everything else is bound: equal payloads mean equal values once signatures are gone. */
  lemma PayloadBindsTheRest(a: seq<Member>, b: seq<Member>)
    requires IsPython(Obj(Without(a, COUNTERSIGNATURES)))
    requires CountersignPayload(a).Some? && CountersignPayload(b).Some?
    ensures CountersignPayload(a) == CountersignPayload(b) <==>
            SameValue(StripSignatures(Obj(Without(a, COUNTERSIGNATURES))),
                      StripSignatures(Obj(Without(b, COUNTERSIGNATURES))))
  {
    StripKeepsPython(Obj(Without(a, COUNTERSIGNATURES)));
    SameBytesIffSameValue(StripSignatures(Obj(Without(a, COUNTERSIGNATURES))),
                          StripSignatures(Obj(Without(b, COUNTERSIGNATURES))));
  }

  // ---------------------------------------------------------------- issuance

  /** `countersign_attestation`; `None` when the snapshot has no canonical form. */
  function Countersign(c: Scheme, att: seq<Member>, key: SecretKey): Option<Text> {
    var payload :- CountersignPayload(att);
    Some(SignText(c, key, payload))
  }

  /** `verify_attestation_countersignature` */
  predicate VerifyCountersignature(c: Scheme, att: seq<Member>, signature: Text, key: PublicKey) {
    match CountersignPayload(att)
    case Some(payload) => VerifyText(c, key, payload, signature)
    case None => false
  }

  /** One countersignature per listed party, over the snapshot without the map. */
  function Countersignatures(c: Scheme, att: seq<Member>, parties: seq<Text>, keys: map<Text, SecretKey>):
    Option<seq<Member>>
  {
    if parties == [] then Some([])
    else if parties[0] !in keys then None
    else
      var signature :- Countersign(c, att, keys[parties[0]]);
      var rest :- Countersignatures(c, att, parties[1..], keys);
      Some([Member(parties[0], Str(signature))] + rest)
  }

  /** The end of `generate_attestation`: sign the assembled snapshot, then attach the map. */
  function Issue(c: Scheme, att: seq<Member>, parties: seq<Text>, keys: map<Text, SecretKey>): Option<seq<Member>> {
    var ms :- Countersignatures(c, att, parties, keys);
    Some(Put(att, COUNTERSIGNATURES, Obj(ms)))
  }

  lemma {:induction false} CountersignatureOf(c: Scheme, att: seq<Member>, parties: seq<Text>,
                                              keys: map<Text, SecretKey>, p: Text)
    requires Countersignatures(c, att, parties, keys).Some? && p in parties
    ensures p in keys && Countersign(c, att, keys[p]).Some?
    ensures Get(Countersignatures(c, att, parties, keys).value, p) == Some(Str(Countersign(c, att, keys[p]).value))
  {
    var ms := Countersignatures(c, att, parties, keys).value;
    assert ms[1..] == Countersignatures(c, att, parties[1..], keys).value;
    if parties[0] != p {
      CountersignatureOf(c, att, parties[1..], keys, p);
    }
  }

  lemma {:induction false} GetPut(ms: seq<Member>, key: Text, v: Json)
    ensures Get(Put(ms, key, v), key) == Some(v)
  {
    if ms != [] && ms[0].key != key {
      assert Put(ms, key, v)[1..] == Put(ms[1..], key, v);
      GetPut(ms[1..], key, v);
    }
  }

  /** `att["countersignatures"].get(p)`, when both are there and it is a string. */
  function CountersignatureIn(att: seq<Member>, p: Text): Option<Text> {
    match Get(att, COUNTERSIGNATURES)
    case Some(Obj(ms)) => (match Get(ms, p) case Some(Str(s)) => Some(s) case _ => None)
    case _ => None
  }

  lemma IssuedCountersignature(c: Scheme, att: seq<Member>, parties: seq<Text>, keys: map<Text, SecretKey>, p: Text)
    requires Issue(c, att, parties, keys).Some? && p in parties
    ensures p in keys && Countersign(c, att, keys[p]).Some?
    ensures var issued := Issue(c, att, parties, keys).value;
            && CountersignatureIn(issued, p) == Countersign(c, att, keys[p])
            && CountersignPayload(issued) == CountersignPayload(att)
  {
    var ms := Countersignatures(c, att, parties, keys).value;
    CountersignatureOf(c, att, parties, keys, p);
    GetPut(att, COUNTERSIGNATURES, Obj(ms));
    PayloadIgnoresMap(att, Obj(ms));
  }

  /**
   Every countersignature attached at issuance verifies on the finished attestation, and
   goes on verifying whatever signatures are later added, replaced or removed in it.
   */
  lemma IssuedCountersignaturesVerify(c: Scheme, att: seq<Member>, parties: seq<Text>, keys: map<Text, SecretKey>,
                                      p: Text, path: seq<PathStep>, sig: Option<Json>)
    requires Correct(c) && Issue(c, att, parties, keys).Some? && p in parties
    ensures p in keys
    ensures var issued := Issue(c, att, parties, keys).value;
            var edited := EditAt(Obj(issued), path, sig);
            && edited.Obj? && CountersignatureIn(issued, p).Some?
            && VerifyCountersignature(c, issued, CountersignatureIn(issued, p).value, c.publicOf(keys[p]))
            && VerifyCountersignature(c, edited.members, CountersignatureIn(issued, p).value, c.publicOf(keys[p]))
  {
    IssuedCountersignature(c, att, parties, keys, p);
    PayloadIgnoresSignatures(Issue(c, att, parties, keys).value, path, sig);
    SignedTextVerifies(c, keys[p], CountersignPayload(att).value);
  }

  // ---------------------------------------------------------------- co-signature placement

  datatype CosignError = EmptySignature | NoParties | NoMatch | Ambiguous

  datatype Placement = Placed(receipt: Json) | Refused(error: CosignError)

  predicate IsParty(p: Json, did: Text) {
    p.Obj? && Get(p.members, AGENT_ID) == Some(Str(did))
  }

  /** Positions of the entries that name `did`. */
  function Matches(parties: seq<Json>, did: Text, from: nat): (r: seq<nat>)
    requires from <= |parties|
    ensures forall i :: i in r <==> from <= i < |parties| && IsParty(parties[i], did)
    ensures forall k, l :: 0 <= k < l < |r| ==> r[k] < r[l]
    decreases |parties| - from
  {
    if from == |parties| then []
    else
      var rest := Matches(parties, did, from + 1);
      assert forall k :: 0 <= k < |rest| ==> rest[k] in rest;
      if IsParty(parties[from], did) then [from] + rest else rest
  }

  /** `place_counterparty_cosignature` on a receipt dict. */
  function PlaceCosignature(receipt: seq<Member>, did: Text, signature: Text): Placement {
    if signature == [] then Refused(EmptySignature)
    else
      match Get(receipt, PARTIES)
      case Some(Arr(false, parties)) =>
        var matches := Matches(parties, did, 0);
        if |matches| == 0 then Refused(NoMatch)
        else if |matches| > 1 then Refused(Ambiguous)
        else Placed(EditAt(Obj(receipt), [Key(PARTIES), Index(matches[0])], Some(Str(signature))))
      case _ => Refused(NoParties)
  }

  ghost predicate ExactlyOneParty(receipt: seq<Member>, did: Text) {
    exists parties, i ::
      && Get(receipt, PARTIES) == Some(Arr(false, parties)) && 0 <= i < |parties| && IsParty(parties[i], did)
      && forall k :: 0 <= k < |parties| && IsParty(parties[k], did) ==> k == i
  }

  /** Placement succeeds exactly for a real signature and one unambiguous counterparty entry. */
  lemma PlacementDomain(receipt: seq<Member>, did: Text, signature: Text)
    ensures PlaceCosignature(receipt, did, signature).Placed? <==> signature != [] && ExactlyOneParty(receipt, did)
  {
    match Get(receipt, PARTIES)
    case Some(Arr(false, parties)) =>
      var matches := Matches(parties, did, 0);
      if |matches| == 1 {
        assert matches[0] in matches;
        forall k | 0 <= k < |parties| && IsParty(parties[k], did)
          ensures k == matches[0]
        {
          assert k in matches;
        }
      } else if |matches| > 1 {
        assert matches[0] in matches && matches[1] in matches;
      }
    case _ =>
  }

  /** `cosign_receipt`: an unpadded signature over the receipt without its signatures. */
  function CosignReceipt(c: Scheme, receipt: Json, key: SecretKey): Option<Text> {
    var payload :- CosignBytes(receipt);
    Some(StripPadding(SignText(c, key, payload)))
  }

  /**
   The counterparty's signature is valid for the receipt that carries it, once decoders
   have restored its padding; as it stands, the strict decoder refuses it.
   */
  lemma PlacedSignatureVerifies(c: Scheme, receipt: seq<Member>, did: Text, key: SecretKey, s: Text)
    requires Correct(c) && CosignReceipt(c, Obj(receipt), key) == Some(s)
    requires ExactlyOneParty(receipt, did)
    ensures PlaceCosignature(receipt, did, s).Placed?
    ensures var placed := PlaceCosignature(receipt, did, s).receipt;
            && CosignBytes(placed) == CosignBytes(Obj(receipt))
            && VerifyText(c, c.publicOf(key), CosignBytes(placed).value, RestorePadding(s))
    ensures DecodeStrictSignature(RestorePadding(s)).Some? && DecodeStrictSignature(s).None?
  {
    var payload := CosignBytes(Obj(receipt)).value;
    RestoreAfterStrip(c.sign(key, payload));
    StrictDecoderInvertsEncoder(SignText(c, key, payload), c.sign(key, payload));
    UnpaddedIsRefused(SignText(c, key, payload));
    SignedTextVerifies(c, key, payload);
    assert s != [];
    PlacementDomain(receipt, did, s);
    var parties := Get(receipt, PARTIES).value.elems;
    EditIsStripped(Obj(receipt), [Key(PARTIES), Index(Matches(parties, did, 0)[0])], Some(Str(s)));
  }
}
