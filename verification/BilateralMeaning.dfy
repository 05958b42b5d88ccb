/** What the bilateral closure profile reads and promises, in terms of the parameters and commitments themselves. */
module BilateralMeaning {
  import opened Wrappers
  import opened Sequences
  import opened Unicode
  import opened PythonValues
  import opened FloatRange
  import opened Predicates
  import opened PredicateMeaning
  import opened PredicateLaws
  import opened Bilateral
  import Negotiation

  // ---------------------------------------------------------------- parameters

  /** A list of texts, none empty. */
  predicate Names(j: Json, names: seq<Text>) {
    && j.Arr? && !j.tuple && |j.elems| == |names|
    && forall i :: 0 <= i < |names| ==> j.elems[i] == Str(names[i]) && names[i] != []
  }

  predicate NumberUnderKey(ms: seq<Member>, key: string, x: real) {
    Get(ms, Lit(key)).Some? && IsNumber(Get(ms, Lit(key)).value, x)
  }

  predicate InstantUnderKey(parse: ParseIso, ms: seq<Member>, key: string, t: int) {
    Get(ms, Lit(key)).Some? && IsInstant(parse, Get(ms, Lit(key)).value, t)
  }

  /** The parameters say what the policy says: the tolerance is zero and no mandate is checked unless they say so. */
  predicate Declares(parse: ParseIso, ms: seq<Member>, p: Policy) {
    && Get(ms, Lit("expected_participants")).Some?
    && Names(Get(ms, Lit("expected_participants")).value, p.expected) && p.expected != []
    && NumberUnderKey(ms, "aggregate_quantity_required", p.required)
    && (if Get(ms, Lit("match_tolerance")).None? then p.tolerance == 0.0
        else NumberUnderKey(ms, "match_tolerance", p.tolerance) && p.tolerance >= 0.0)
    && InstantUnderKey(parse, ms, "activation_deadline_iso", p.deadline)
    && (if Get(ms, Lit("mandate_check_required")).None? then !p.mandate
        else Get(ms, Lit("mandate_check_required")) == Some(Bool(p.mandate)))
  }

  lemma FiniteNumberIff(j: Json, x: real)
    ensures FiniteNumber(j) == Some(x) <==> IsNumber(j, x)
  {
  }

  lemma TooLargeIsNoNumber(j: Json, x: real)
    ensures Negotiation.TooLarge(j) ==> !IsNumber(j, x)
  {
  }

  lemma NamesIff(j: Json, names: seq<Text>)
    requires j.Arr? && !j.tuple
    ensures Each(NonEmptyText, j.elems) == Some(names) <==> Names(j, names)
  {
    EachFails(NonEmptyText, j.elems);
    if Names(j, names) {
      assert forall i :: 0 <= i < |names| ==> NonEmptyText(j.elems[i]) == Some(names[i]);
      assert Each(NonEmptyText, j.elems).value == names;
    }
    if Each(NonEmptyText, j.elems) == Some(names) {
      forall i | 0 <= i < |names|
        ensures j.elems[i] == Str(names[i]) && names[i] != []
      {
        assert NonEmptyText(j.elems[i]) == Some(names[i]);
      }
    }
  }

  lemma NumberParamIff(ms: seq<Member>, key: Text, x: real)
    ensures Get(ms, key).Some? ==> (NumberParam(ms, key, None) == Some(x) <==> IsNumber(Get(ms, key).value, x))
    ensures Get(ms, key).Some? ==> (NumberParam(ms, key, Some(0.0)) == Some(x) <==> IsNumber(Get(ms, key).value, x))
    ensures NoFloat(ms, key) ==> !IsNumber(Get(ms, key).value, x)
  {
    if Get(ms, key).Some? {
      FiniteNumberIff(Get(ms, key).value, x);
      TooLargeIsNoNumber(Get(ms, key).value, x);
    }
  }

  lemma ReadIsDeclared(parse: ParseIso, ms: seq<Member>, p: Policy)
    requires ReadPolicy(parse, Obj(ms)) == Ok(p)
    ensures Declares(parse, ms, p)
  {
    NumberParamIff(ms, AGGREGATE_QUANTITY_REQUIRED, p.required);
    NumberParamIff(ms, MATCH_TOLERANCE, p.tolerance);
    match Get(ms, EXPECTED_PARTICIPANTS)
    case Some(Arr(false, raw)) => NamesIff(Arr(false, raw), p.expected);
    case _ =>
  }

  lemma DeclaredIsRead(parse: ParseIso, ms: seq<Member>, p: Policy)
    requires Declares(parse, ms, p)
    ensures ReadPolicy(parse, Obj(ms)) == Ok(p)
  {
    NumberParamIff(ms, AGGREGATE_QUANTITY_REQUIRED, p.required);
    NumberParamIff(ms, MATCH_TOLERANCE, p.tolerance);
    match Get(ms, EXPECTED_PARTICIPANTS)
    case Some(Arr(false, raw)) => NamesIff(Arr(false, raw), p.expected);
    case _ =>
  }

  /** The policy that is read is the one the parameters declare; what declares none is refused. */
  lemma PolicyIff(parse: ParseIso, ms: seq<Member>, p: Policy)
    ensures ReadPolicy(parse, Obj(ms)) == Ok(p) <==> Declares(parse, ms, p)
  {
    if ReadPolicy(parse, Obj(ms)) == Ok(p) {
      ReadIsDeclared(parse, ms, p);
    }
    if Declares(parse, ms, p) {
      DeclaredIsRead(parse, ms, p);
    }
  }

  // ---------------------------------------------------------------- commitments

  /** The commitment is by this participant. */
  predicate CommittedBy(j: Json, did: Text) {
    j.Obj? && did != [] && Get(j.members, Lit("committer_did")) == Some(Str(did))
  }

  /** It commits to this quantity. */
  predicate Commits(j: Json, x: real) {
    && j.Obj? && Get(j.members, Lit("commitment_terms")).Some? && Get(j.members, Lit("commitment_terms")).value.Obj?
    && NumberUnderKey(Get(j.members, Lit("commitment_terms")).value.members, "quantity", x)
  }

  /** It names a mandate proof. */
  predicate Mandated(j: Json) {
    && j.Obj? && Get(j.members, Lit("mandate_proof_id")).Some?
    && Negotiation.Truthy(Get(j.members, Lit("mandate_proof_id")).value)
  }

  /** These are the committers: as many, each once, the expected ones and no others. */
  ghost predicate Committers(expected: seq<Text>, cs: seq<Json>, dids: seq<Text>) {
    && |dids| == |cs| && (forall i :: 0 <= i < |cs| ==> CommittedBy(cs[i], dids[i]))
    && (forall i, k :: 0 <= i < k < |dids| ==> dids[i] != dids[k])
    && (forall i :: 0 <= i < |dids| ==> dids[i] in expected) && (forall did :: did in expected ==> did in dids)
  }

  /** These are the quantities: their running total stays finite, and ends near what is required. */
  ghost predicate Quantities(p: Policy, cs: seq<Json>, qs: seq<real>) {
    && |qs| == |cs| && (forall i :: 0 <= i < |cs| ==> Commits(cs[i], qs[i]))
    && (forall k :: 0 < k <= |qs| ==> InFloatRange(PlainSum(qs[..k])))
    && p.required - p.tolerance <= PlainSum(qs) <= p.required + p.tolerance
  }

  lemma CommitterIff(j: Json, did: Text)
    ensures CommitterOf(j) == Some(did) <==> CommittedBy(j, did)
  {
  }

  lemma CommitsIff(j: Json, x: real)
    ensures QuantityCommitted(j) == Some(x) <==> Commits(j, x)
  {
    if HasTerms(j) && Get(Get(j.members, COMMITMENT_TERMS).value.members, QUANTITY_KEY).Some? {
      FiniteNumberIff(Get(Get(j.members, COMMITMENT_TERMS).value.members, QUANTITY_KEY).value, x);
    }
  }

  lemma CommittersAre(cs: seq<Json>, dids: seq<Text>)
    ensures Each(CommitterOf, cs) == Some(dids) <==>
            |dids| == |cs| && forall i :: 0 <= i < |cs| ==> CommittedBy(cs[i], dids[i])
  {
    EachFails(CommitterOf, cs);
    forall i | 0 <= i < |cs| && |dids| == |cs|
      ensures CommitterOf(cs[i]) == Some(dids[i]) <==> CommittedBy(cs[i], dids[i])
    {
      CommitterIff(cs[i], dids[i]);
    }
    if |dids| == |cs| && forall i :: 0 <= i < |cs| ==> CommitterOf(cs[i]) == Some(dids[i]) {
      assert Each(CommitterOf, cs).value == dids;
    }
  }

  lemma QuantitiesAre(cs: seq<Json>, qs: seq<real>)
    ensures Each(QuantityCommitted, cs) == Some(qs) <==>
            |qs| == |cs| && forall i :: 0 <= i < |cs| ==> Commits(cs[i], qs[i])
  {
    EachFails(QuantityCommitted, cs);
    forall i | 0 <= i < |cs| && |qs| == |cs|
      ensures QuantityCommitted(cs[i]) == Some(qs[i]) <==> Commits(cs[i], qs[i])
    {
      CommitsIff(cs[i], qs[i]);
    }
    if |qs| == |cs| && forall i :: 0 <= i < |cs| ==> QuantityCommitted(cs[i]) == Some(qs[i]) {
      assert Each(QuantityCommitted, cs).value == qs;
    }
  }

  lemma ExpectedIff(expected: seq<Text>, cs: seq<Json>)
    ensures ExactlyTheExpected(expected, cs) <==> exists dids :: Committers(expected, cs, dids)
  {
    if ExactlyTheExpected(expected, cs) {
      var dids := Each(CommitterOf, cs).value;
      CommittersAre(cs, dids);
      assert forall i :: 0 <= i < |dids| ==> dids[i] in dids;
      assert Committers(expected, cs, dids);
    }
    if dids :| Committers(expected, cs, dids) {
      CommittersAre(cs, dids);
    }
  }

  lemma QuantityIff(p: Policy, cs: seq<Json>)
    ensures QuantityMatches(p, cs) <==> exists qs :: Quantities(p, cs, qs)
  {
    if QuantityMatches(p, cs) {
      var qs := Each(QuantityCommitted, cs).value;
      QuantitiesAre(cs, qs);
      SumIff(qs, PlainSum(qs));
      assert Quantities(p, cs, qs);
    }
    if qs :| Quantities(p, cs, qs) {
      QuantitiesAre(cs, qs);
      SumIff(qs, PlainSum(qs));
    }
  }

  /** What closing a bilateral deal takes, in full and down to the commitments' members. */
  ghost predicate DealCloses(p: Policy, cs: seq<Json>, now: int) {
    && cs != [] && (exists dids :: Committers(p.expected, cs, dids)) && (exists qs :: Quantities(p, cs, qs))
    && now < p.deadline && (p.mandate ==> forall i :: 0 <= i < |cs| ==> Mandated(cs[i]))
  }

  lemma ClosesIff(p: Policy, cs: seq<Json>, now: int)
    ensures Closes(p, cs, now) <==> DealCloses(p, cs, now)
  {
    ExpectedIff(p.expected, cs);
    QuantityIff(p, cs);
    forall i | 0 <= i < |cs|
      ensures HasMandateProof(cs[i]) <==> Mandated(cs[i])
    {
    }
  }

  // ---------------------------------------------------------------- both profiles

  /** The tree is sound in every Boolean position, and its classical reading is true. */
  ghost predicate TreeHolds(c: Context, j: Json) {
    (forall path: seq<nat> :: !BrokenAt(c, j, path)) && Classical(c, j)
  }

  ghost predicate BilateralHolds(c: Context, parameters: Json, now: int) {
    parameters.Obj? && exists p :: Declares(c.parse, parameters.members, p) && DealCloses(p, c.commitments, now)
  }

  ghost predicate ExpressionHolds(c: Context, parameters: Json) {
    && parameters.Obj? && Get(parameters.members, Lit("expression")).Some?
    && TreeHolds(c, Get(parameters.members, Lit("expression")).value)
  }

  /**
   What `satisfied` means: the predicate has one of two types, and its parameters declare a
   policy that the commitments close, or an expression that holds of them.
   */
  lemma SatisfiedByIff(c: Context, typeUrn: Json, parameters: Json, now: int)
    ensures SatisfiedBy(c, typeUrn, parameters, now) <==>
            || (typeUrn == Str(Lit("urn:concordia:predicate-type:bilateral_chain_closure:v1"))
                && BilateralHolds(c, parameters, now))
            || (typeUrn == Str(Lit("urn:concordia:predicate-type:closure_language:v1"))
                && ExpressionHolds(c, parameters))
  {
    if parameters.Obj? {
      if Get(parameters.members, EXPRESSION).Some? {
        SatisfiedIff(c, Get(parameters.members, EXPRESSION).value);
      }
      BilateralSatisfied(c, parameters.members, now);
    }
  }

  lemma BilateralSatisfied(c: Context, ms: seq<Member>, now: int)
    ensures ReadPolicy(c.parse, Obj(ms)).Ok? && Closes(ReadPolicy(c.parse, Obj(ms)).policy, c.commitments, now) <==>
            exists p :: Declares(c.parse, ms, p) && DealCloses(p, c.commitments, now)
  {
    if ReadPolicy(c.parse, Obj(ms)).Ok? {
      var p := ReadPolicy(c.parse, Obj(ms)).policy;
      PolicyIff(c.parse, ms, p);
      ClosesIff(p, c.commitments, now);
    }
    if p :| Declares(c.parse, ms, p) && DealCloses(p, c.commitments, now) {
      PolicyIff(c.parse, ms, p);
      ClosesIff(p, c.commitments, now);
    }
  }
}
