/** When bundles, proofs and set-bindings are valid, in terms of their members and down to the signature scheme. */
module BundleMeaning {
  import opened Wrappers
  import opened Sequences
  import opened Unicode
  import opened Numbers
  import opened PythonValues
  import opened FloatRange
  import opened Crypto
  import opened ReceiptBundle
  import opened CompetenceProof
  import opened SignatureMeaning
  import AttestationVersion
  import BundleVerification
  import Merkle
  import Message
  import SetBinding

  // ---------------------------------------------------------------- party lists

  /** The party list can be gone through: it is absent, an empty text or dict, or a list of dicts. */
  predicate PartiesReadable(att: Attestation) {
    match Get(att, Lit("parties"))
    case None => true
    case Some(Str(t)) => t == []
    case Some(Obj(ms)) => ms == []
    case Some(Arr(_, elems)) => forall j :: 0 <= j < |elems| ==> elems[j].Obj?
    case _ => false
  }

  /** When the parties can be read, and that they are the entries of the list. */
  lemma PartiesIff(att: Attestation)
    ensures PartiesOf(att).Some? <==> PartiesReadable(att)
    ensures PartiesOf(att).Some? ==>
              match Get(att, Lit("parties"))
              case Some(Arr(_, elems)) =>
                |PartiesOf(att).value| == |elems|
                && forall j :: 0 <= j < |elems| ==> elems[j] == Obj(PartiesOf(att).value[j])
              case _ => PartiesOf(att).value == []
  {
    match Get(att, Lit("parties"))
    case Some(Arr(_, elems)) =>
      EachFails(AsDict, elems);
      forall j | 0 <= j < |elems| && PartiesOf(att).Some?
        ensures elems[j] == Obj(PartiesOf(att).value[j])
      {
        assert AsDict(elems[j]) == Some(PartiesOf(att).value[j]);
      }
    case _ =>
  }

  // ---------------------------------------------------------------- outcome binding

  /** A version before 0.2, which binds no outcome and is no error. */
  predicate OldVersion(att: Attestation) {
    match AttestationVersion.Parse(Get(att, Lit("concordia_attestation")))
    case Some(v) => v.major == 0 && v.minor < 2
    case None => false
  }

  /** Everything a bound outcome takes. */
  ghost predicate IsBound(c: Scheme, resolve: KeyResolver, att: Attestation) {
    && CoveredVersion(att) && PartyIds(att).Some? && (exists pid :: pid in PartyIds(att).value && pid != [])
    && forall pid :: pid in PartyIds(att).value && pid != [] ==> CountersignatureVerifies(c, resolve, att, pid)
  }

  lemma OldVersionIff(att: Attestation)
    ensures var v := AttestationVersion.Parse(Get(att, CONCORDIA_ATTESTATION));
            OldVersion(att) <==>
            v.Some? && !AttestationVersion.ExceedsImplemented(v.value) && AttestationVersion.BelowFloor(v.value, 0, 2)
  {
    match AttestationVersion.Parse(Get(att, CONCORDIA_ATTESTATION))
    case Some(v) => TupleAbove(v);
    case None =>
  }

  /** The three states of outcome binding: bound, too old to be bound, and otherwise an error. */
  lemma BindingIff(c: Scheme, resolve: KeyResolver, att: Attestation)
    requires PartyIds(att).Some?
    ensures OutcomeBinding(c, resolve, att) == Some(Bound) <==> IsBound(c, resolve, att)
    ensures OutcomeBinding(c, resolve, att) == Some(Unbound) <==> OldVersion(att)
    ensures OutcomeBinding(c, resolve, att).Some?
  {
    BoundIffVerified(c, resolve, att);
    OldVersionIff(att);
  }

  // ---------------------------------------------------------------- set-binding

  predicate LowerHexText(t: Text) {
    forall i :: 0 <= i < |t| ==> '0' as int <= t[i] <= '9' as int || 'a' as int <= t[i] <= 'f' as int
  }

  /** The head of the chain, `sha256:` and 64 lower-case hex digits. */
  predicate HeadIs(att: Attestation, head: Text) {
    && Get(att, Lit("chain_head")) == Some(Str(head))
    && |head| == 71 && head[..7] == Lit("sha256:") && LowerHexText(head[7..])
  }

  predicate CountIs(att: Attestation, n: int) {
    Get(att, Lit("message_count")) == Some(Num(Int(n))) && n >= 1
  }

  /** A version from 0.3 up to 0.6.0. */
  predicate BindsSets(att: Attestation) {
    match AttestationVersion.Parse(Get(att, Lit("concordia_attestation")))
    case Some(v) => v.major == 0 && v.minor >= 3 && (v.minor < 6 || (v.minor == 6 && v.patch == 0))
    case None => false
  }

  predicate BeforeSets(att: Attestation) {
    match AttestationVersion.Parse(Get(att, Lit("concordia_attestation")))
    case Some(v) => v.major == 0 && v.minor < 3
    case None => false
  }

  lemma HeadIff(att: Attestation, head: Text)
    ensures SetBinding.ChainHead(att) == Some(head) <==> HeadIs(att, head)
  {
    if |head| == 71 {
      assert forall i :: 7 <= i < 71 ==> head[i] == head[7..][i - 7];
    }
  }

  lemma CountIff(att: Attestation, n: nat)
    ensures SetBinding.MessageCount(att) == Some(n) <==> CountIs(att, n)
  {
  }

  lemma SetVersions(att: Attestation)
    ensures var v := AttestationVersion.Parse(Get(att, SetBinding.CONCORDIA_ATTESTATION));
            && (BeforeSets(att) <==> v.Some? && !AttestationVersion.ExceedsImplemented(v.value)
                                     && AttestationVersion.BelowFloor(v.value, 0, 3))
            && (BindsSets(att) <==> v.Some? && !AttestationVersion.ExceedsImplemented(v.value)
                                    && !AttestationVersion.BelowFloor(v.value, 0, 3))
  {
    match AttestationVersion.Parse(Get(att, SetBinding.CONCORDIA_ATTESTATION))
    case Some(v) => TupleAbove(v);
    case None =>
  }

  /** The four states of set-binding, from the receipt's own fields and the transcript. */
  lemma SetBindingIff(hash: Message.MessageHash, att: Attestation, transcript: Option<seq<Message.Envelope>>)
    ensures var state := SetBinding.Evaluate(hash, att, transcript);
            && (state == SetBinding.LegacySetUnbound <==> BeforeSets(att))
            && (state == SetBinding.FieldsPresentUnverified <==>
                BindsSets(att) && (exists head :: HeadIs(att, head)) && (exists n :: CountIs(att, n))
                && transcript.None?)
            && (state == SetBinding.Bound <==>
                && BindsSets(att) && transcript.Some? && transcript.value != []
                && hash(transcript.value[|transcript.value| - 1]).Some?
                && HeadIs(att, hash(transcript.value[|transcript.value| - 1]).value)
                && CountIs(att, |transcript.value|))
  {
    SetVersions(att);
    if SetBinding.ChainHead(att).Some? {
      HeadIff(att, SetBinding.ChainHead(att).value);
    }
    if SetBinding.MessageCount(att).Some? {
      CountIff(att, SetBinding.MessageCount(att).value);
    }
    if head :| HeadIs(att, head) {
      HeadIff(att, head);
    }
    if n :| CountIs(att, n) {
      CountIff(att, n);
    }
  }

  // ---------------------------------------------------------------- claims

  predicate Close(x: real, y: real) {
    -0.001 <= x - y <= 0.001
  }

  lemma SameCategoriesIff(xs: seq<Text>, ys: seq<Text>)
    ensures Merkle.SortIds(xs) == Merkle.SortIds(ys) <==> SameItems(xs, ys)
  {
    Merkle.SortIdsPermutes(xs);
    Merkle.SortIdsPermutes(ys);
    if SameItems(xs, ys) {
      SortIdsReordered(xs, ys);
    }
  }

  /** The claims of a proof agree with a summary: counts, names and times exactly, rates to a thousandth. */
  ghost predicate ClaimsClose(s: Summary, claims: Summary) {
    && claims.total == s.total && claims.agreements == s.agreements && claims.counterparties == s.counterparties
    && claims.earliest == s.earliest && claims.latest == s.latest
    && Close(claims.agreementRate, s.agreementRate) && Close(claims.fulfillmentRate, s.fulfillmentRate)
    && Close(claims.reasoningRate, s.reasoningRate)
    && InFloatRange(s.avgConcession) && Close(claims.avgConcession, s.avgConcession)
    && SameItems(claims.categories, s.categories)
  }

  lemma ClaimsIff(s: Summary, claims: Summary)
    ensures ClaimsAgree(s, claims) <==> ClaimsClose(s, claims)
  {
    SameCategoriesIff(claims.categories, s.categories);
  }

  /** What a bundle's verifier compares: neither the fulfillment rate nor the extreme timestamps. */
  ghost predicate ComparedClose(s: Summary, claimed: Summary) {
    && claimed.total == s.total && claimed.agreements == s.agreements && claimed.counterparties == s.counterparties
    && Close(claimed.agreementRate, s.agreementRate) && Close(claimed.reasoningRate, s.reasoningRate)
    && InFloatRange(s.avgConcession) && Close(claimed.avgConcession, s.avgConcession)
    && SameItems(claimed.categories, s.categories)
  }

  lemma ComparedIff(s: Summary, claimed: Summary)
    ensures BundleVerification.SummaryMatches(s, claimed) <==> ComparedClose(s, claimed)
  {
    SameCategoriesIff(claimed.categories, s.categories);
  }

  // ---------------------------------------------------------------- proofs

  /** One revealed attestation that adds no error. */
  ghost predicate RevealClean(env: Env, b: Body, att: Attestation) {
    && IdOf(att).Some? && PartiesOf(att).Some? && PartyIds(att).Some?
    && (forall k: nat :: FirstFor(b.entries, IdOf(att).value, k) ==>
          Merkle.Accepts(env.h, IdOf(att).value, b.entries[k].proof, b.root))
    && (OldVersion(att) || IsBound(env.c, env.resolve, att)) && b.agentId in PartyIds(att).value
    && PartiesClean(env.c, env.resolve, PartiesOf(att).value, PartyIds(att).value)
  }

  /** Every party entry is signed, and verifies where its key can be resolved. */
  ghost predicate PartiesClean(c: Scheme, resolve: KeyResolver, parties: seq<seq<Member>>, ids: seq<Text>)
    requires |ids| == |parties|
  {
    forall i :: 0 <= i < |parties| ==>
      !NoSignature(parties[i]) && (resolve(ids[i]).Some? ==> PartySigned(c, resolve(ids[i]), parties[i]))
  }

  lemma NotRefusedIff(env: Env, b: Body, id: Text)
    ensures Membership(env, b, id) != Some(false) <==>
            forall k: nat :: FirstFor(b.entries, id, k) ==> Merkle.Accepts(env.h, id, b.entries[k].proof, b.root)
  {
    FindEntryIs(b.entries, id);
    if FindEntry(b.entries, id).Some? {
      var j :| 0 <= j < |b.entries| && FirstFor(b.entries, id, j) && b.entries[j] == FindEntry(b.entries, id).value;
      assert forall k: nat :: FirstFor(b.entries, id, k) ==> k == j;
    }
  }

  lemma RevealCleanIff(env: Env, b: Body, att: Attestation)
    ensures CheckReveal(env, b, att).Some? && Clean(b.agentId, CheckReveal(env, b, att).value) <==>
            RevealClean(env, b, att)
  {
    if IdOf(att).Some? && PartiesOf(att).Some? && PartyIds(att).Some? {
      NotRefusedIff(env, b, IdOf(att).value);
      BindingIff(env.c, env.resolve, att);
      NoBadPartyIff(env.c, env.resolve, PartiesOf(att).value, PartyIds(att).value);
    }
  }

  /** A proof whose reveals are checked is valid: signed, counted, each reveal clean, a full reveal recomputed. */
  lemma ValidProofIff(env: Env, p: Proof, checks: seq<RevealCheck>)
    requires CheckAll(env, p.body, p.body.revealed) == Some(checks)
    ensures NoErrors(env, p, checks) <==>
            var b := p.body;
            && ProverSigned(env, p) && b.count == b.claims.total
            && (forall i :: 0 <= i < |b.revealed| ==> RevealClean(env, b, b.revealed[i]))
            && (FullReveal(b, checks) ==> Recomputes(env, b))
  {
    ProverSignedIff(env, p);
    var f := (a: Attestation) => CheckReveal(env, p.body, a);
    EachFails(f, p.body.revealed);
    forall i | 0 <= i < |p.body.revealed|
      ensures Clean(p.body.agentId, checks[i]) <==> RevealClean(env, p.body, p.body.revealed[i])
    {
      assert f(p.body.revealed[i]) == Some(checks[i]);
      RevealCleanIff(env, p.body, p.body.revealed[i]);
    }
  }

  // ---------------------------------------------------------------- bundles

  /** One attestation that is no error by itself, its keys being those for its session. */
  ghost predicate AttestationSound(s: BundleVerification.Setting, att: Attestation) {
    && IdOf(att).Some? && PartiesOf(att).Some? && PartyIds(att).Some? && TextAt(att, Lit("session_id")).Some?
    && var keys := BundleVerification.InSession(s.keyFor, TextAt(att, Lit("session_id")).value);
       && PartiesClean(s.c, keys, PartiesOf(att).value, PartyIds(att).value)
       && (OldVersion(att) || IsBound(s.c, keys, att))
       && (BeforeSets(att) || (BindsSets(att) && (exists head :: HeadIs(att, head)) && exists n :: CountIs(att, n)))
  }

  lemma SetStateIff(att: Attestation)
    ensures BundleVerification.SetState(att) != SetBinding.Error <==>
            BeforeSets(att) || (BindsSets(att) && (exists head :: HeadIs(att, head)) && exists n :: CountIs(att, n))
  {
    SetBindingIff(BundleVerification.Unhashed, att, None);
  }

  lemma PartiesCleanIff(c: Scheme, keys: KeyResolver, h: BundleVerification.Heading)
    requires |h.ids| == |h.parties|
    ensures BundleVerification.NoBadSignature(BundleVerification.PartiesChecked(c, keys, h)) <==>
            PartiesClean(c, keys, h.parties, h.ids)
  {
    NoBadPartyIff(c, keys, h.parties, h.ids);
    var checks := CheckParties(c, keys, h.parties, h.ids);
    var checked := BundleVerification.PartiesChecked(c, keys, h);
    if BadSignature in checks {
      var i :| 0 <= i < |checks| && checks[i] == BadSignature;
      assert checked[i] in checked && checked[i].check == BadSignature;
    }
    if !BundleVerification.NoBadSignature(checked) {
      var p :| p in checked && p.check == BadSignature;
      var i :| 0 <= i < |checked| && checked[i] == p;
      assert checks[i] == BadSignature;
    }
  }

  lemma SoundIff(s: BundleVerification.Setting, att: Attestation)
    ensures var r := BundleVerification.Read(s, att);
            r.Some? && BundleVerification.Sound(r.value) <==> AttestationSound(s, att)
  {
    if BundleVerification.HeadingOf(att).Some? {
      var h := BundleVerification.HeadingOf(att).value;
      var keys := BundleVerification.InSession(s.keyFor, h.session);
      BindingIff(s.c, keys, att);
      SetStateIff(att);
      PartiesCleanIff(s.c, keys, h);
    }
  }

  ghost predicate AgentAmong(agent: Text, att: Attestation) {
    PartyIds(att).Some? && agent in PartyIds(att).value
  }

  lemma AmongIff(s: BundleVerification.Setting, agent: Text, att: Attestation)
    requires BundleVerification.Read(s, att).Some?
    ensures BundleVerification.IsParty(agent, BundleVerification.Read(s, att).value.parties) <==> AgentAmong(agent, att)
    ensures IdOf(att) == Some(BundleVerification.Read(s, att).value.id)
    ensures TextAt(att, Lit("session_id")) == Some(BundleVerification.Read(s, att).value.session)
  {
    var h := BundleVerification.HeadingOf(att).value;
    var checked := BundleVerification.Read(s, att).value.parties;
    if agent in h.ids {
      var i :| 0 <= i < |h.ids| && h.ids[i] == agent;
      assert checked[i] in checked && checked[i].id == agent;
    }
    if p :| p in checked && p.id == agent {
      var i :| 0 <= i < |checked| && checked[i] == p;
      assert h.ids[i] == agent;
    }
  }

  /** Two attestations of the bundle share no id and no session. */
  ghost predicate AllDifferent(atts: seq<Attestation>) {
    forall i, k :: 0 <= i < k < |atts| ==>
      IdOf(atts[i]) != IdOf(atts[k]) && TextAt(atts[i], Lit("session_id")) != TextAt(atts[k], Lit("session_id"))
  }

  /**
   A valid bundle, in full and down to the scheme: signed by its agent, every attestation
   sound and naming the agent, no id or session twice, and the summary as compared.
   */
  lemma ValidBundleIff(s: BundleVerification.Setting, b: BundleVerification.Bundle)
    requires BundleVerification.Returns(s, b.content)
    ensures BundleVerification.ValidBundle(s, b) <==>
            var content := b.content;
            && Verifies(s.c, s.resolve(content.agentId), s.payload(content), Some(Str(b.signature)))
            && (forall i :: 0 <= i < |content.atts| ==>
                  AttestationSound(s, content.atts[i]) && AgentAmong(content.agentId, content.atts[i]))
            && AllDifferent(content.atts)
            && (content.atts == []
                || ComparedClose(Summarize(s.round, content.agentId, content.atts).value, content.summary))
  {
    BundleSignatureIff(s, b);
    ReadingsMean(s, b.content.agentId, b.content.atts);
    ComparedIff(Summarize(s.round, b.content.agentId, b.content.atts).value, b.content.summary);
  }

  lemma ReadingsMean(s: BundleVerification.Setting, agent: Text, atts: seq<Attestation>)
    requires BundleVerification.ReadAll(s, atts).Some?
    ensures var rs := BundleVerification.ReadAll(s, atts).value;
            && (BundleVerification.AllSound(rs) && BundleVerification.PartyOfAll(agent, rs) <==>
                forall i :: 0 <= i < |atts| ==> AttestationSound(s, atts[i]) && AgentAmong(agent, atts[i]))
            && (NoRepeats(BundleVerification.ReadingIds(rs)) && NoRepeats(BundleVerification.Sessions(rs)) <==>
                AllDifferent(atts))
  {
    var rs := BundleVerification.ReadAll(s, atts).value;
    BundleVerification.ReadingsAre(s, atts);
    forall i | 0 <= i < |atts|
      ensures BundleVerification.Sound(rs[i]) <==> AttestationSound(s, atts[i])
      ensures BundleVerification.IsParty(agent, rs[i].parties) <==> AgentAmong(agent, atts[i])
      ensures IdOf(atts[i]) == Some(rs[i].id) && TextAt(atts[i], Lit("session_id")) == Some(rs[i].session)
    {
      assert BundleVerification.Read(s, atts[i]) == Some(rs[i]);
      SoundIff(s, atts[i]);
      AmongIff(s, agent, atts[i]);
    }
  }
}
