/** The bilateral closure profile and the profile dispatch of `concordia/cmpc/predicate.py`. */
module Bilateral {
  import opened Wrappers
  import opened Sequences
  import opened Unicode
  import opened PythonValues
  import opened RangedSums
  import Negotiation
  import opened Predicates
  import opened PredicateOrder

  const EXPECTED_PARTICIPANTS: Text := Lit("expected_participants")
  const AGGREGATE_QUANTITY_REQUIRED: Text := Lit("aggregate_quantity_required")
  const MATCH_TOLERANCE: Text := Lit("match_tolerance")
  const ACTIVATION_DEADLINE_ISO: Text := Lit("activation_deadline_iso")
  const MANDATE_CHECK_REQUIRED: Text := Lit("mandate_check_required")
  const COMMITTER_DID: Text := Lit("committer_did")
  const COMMITMENT_TERMS: Text := Lit("commitment_terms")
  const QUANTITY_KEY: Text := Lit("quantity")
  const MANDATE_PROOF_ID: Text := Lit("mandate_proof_id")

  datatype Reason =
    | MalformedPredicate | UnknownPredicateType | MissingExpression | ExpressionNotSatisfied
    | MalformedParameters | MalformedExpectedParticipants | MissingQuantity | MalformedQuantity
    | MalformedTolerance | NegativeTolerance | MalformedDeadline | MalformedMandateCheck
    | NoCommitments | MalformedCommitment | MissingCommitter | DuplicateParticipant
    | UnexpectedParticipant | MissingParticipant | MalformedTerms | NonNumericQuantity
    | QuantityMismatch | PastDeadline | MissingMandateProof

  // ---------------------------------------------------------------- parameters

  datatype Policy = Policy(expected: seq<Text>, required: real, tolerance: real, deadline: int, mandate: bool)

  datatype PolicyResult = Ok(policy: Policy) | Refused(reason: Reason)

  function NonEmptyText(j: Json): Option<Text> {
    match j
    case Str(t) => if t == [] then None else Some(t)
    case _ => None
  }

  /** `params.get(key, default)` as a finite number. */
  function NumberParam(params: seq<Member>, key: Text, default: Option<real>): Option<real> {
    match Get(params, key)
    case Some(j) => FiniteNumber(j)
    case None => default
  }

  /** The value is an int that no float holds: `math.isfinite` raises, and the backstop answers. */
  predicate NoFloat(ms: seq<Member>, key: Text) {
    Get(ms, key).Some? && Negotiation.TooLarge(Get(ms, key).value)
  }

  /** The parameter checks, in order. */
  function ReadPolicy(parse: ParseIso, parameters: Json): PolicyResult {
    if !parameters.Obj? then Refused(MalformedParameters)
    else
      var params := parameters.members;
      match Get(params, EXPECTED_PARTICIPANTS)
      case Some(Arr(false, raw)) =>
        if raw == [] || Each(NonEmptyText, raw).None? then Refused(MalformedExpectedParticipants)
        else if Get(params, AGGREGATE_QUANTITY_REQUIRED).None? then Refused(MissingQuantity)
        else if NoFloat(params, AGGREGATE_QUANTITY_REQUIRED) then Refused(MalformedPredicate)
        else if NumberParam(params, AGGREGATE_QUANTITY_REQUIRED, None).None? then Refused(MalformedQuantity)
        else if NoFloat(params, MATCH_TOLERANCE) then Refused(MalformedPredicate)
        else if NumberParam(params, MATCH_TOLERANCE, Some(0.0)).None? then Refused(MalformedTolerance)
        else if NumberParam(params, MATCH_TOLERANCE, Some(0.0)).value < 0.0 then Refused(NegativeTolerance)
        else if Get(params, ACTIVATION_DEADLINE_ISO).None? then Refused(MalformedDeadline)
        else if ParseTime(parse, Get(params, ACTIVATION_DEADLINE_ISO).value).None? then Refused(MalformedDeadline)
        else
          var mandate := match Get(params, MANDATE_CHECK_REQUIRED) case Some(j) => j case None => Bool(false);
          if !mandate.Bool? then Refused(MalformedMandateCheck)
          else Ok(Policy(Each(NonEmptyText, raw).value,
                         NumberParam(params, AGGREGATE_QUANTITY_REQUIRED, None).value,
                         NumberParam(params, MATCH_TOLERANCE, Some(0.0)).value,
                         ParseTime(parse, Get(params, ACTIVATION_DEADLINE_ISO).value).value,
                         mandate.b))
      case _ => Refused(MalformedExpectedParticipants)
  }

  // ---------------------------------------------------------------- what closes a deal

  function CommitterOf(j: Json): Option<Text> {
    if !j.Obj? then None
    else match Get(j.members, COMMITTER_DID) case Some(did) => NonEmptyText(did) case None => None
  }

  predicate HasTerms(j: Json) {
    j.Obj? && Get(j.members, COMMITMENT_TERMS).Some? && Get(j.members, COMMITMENT_TERMS).value.Obj?
  }

  function QuantityCommitted(j: Json): Option<real> {
    if !HasTerms(j) then None
    else
      match Get(Get(j.members, COMMITMENT_TERMS).value.members, QUANTITY_KEY)
      case Some(q) => FiniteNumber(q)
      case None => None
  }

  /** The quantity is an int that no float holds. */
  predicate QuantityTooLarge(j: Json) {
    HasTerms(j) && NoFloat(Get(j.members, COMMITMENT_TERMS).value.members, QUANTITY_KEY)
  }

  predicate HasMandateProof(j: Json) {
    j.Obj? && Get(j.members, MANDATE_PROOF_ID).Some? && Negotiation.Truthy(Get(j.members, MANDATE_PROOF_ID).value)
  }

  /** The committers are exactly the expected participants, each once. */
  ghost predicate ExactlyTheExpected(expected: seq<Text>, commitments: seq<Json>) {
    var dids := Each(CommitterOf, commitments);
    dids.Some? && NoRepeats(dids.value) && forall did :: did in dids.value <==> did in expected
  }

  /** A finite total within the tolerance. */
  predicate WithinTolerance(p: Policy, total: Option<real>) {
    total.Some? && Negotiation.Abs(total.value - p.required) <= p.tolerance
  }

  ghost predicate QuantityMatches(p: Policy, commitments: seq<Json>) {
    var quantities := Each(QuantityCommitted, commitments);
    quantities.Some? && WithinTolerance(p, RangedTotal(quantities.value))
  }

  /** The profile's promise, in full. */
  ghost predicate Closes(p: Policy, commitments: seq<Json>, now: int) {
    && commitments != []
    && ExactlyTheExpected(p.expected, commitments)
    && QuantityMatches(p, commitments)
    && now < p.deadline
    && (p.mandate ==> forall i :: 0 <= i < |commitments| ==> HasMandateProof(commitments[i]))
  }

  /** What each reason for refusing the commitments says about them. */
  ghost predicate Justified(reason: Reason, p: Policy, commitments: seq<Json>, now: int) {
    match reason
    case NoCommitments => commitments == []
    case MalformedCommitment => exists i :: 0 <= i < |commitments| && !commitments[i].Obj?
    case MissingCommitter =>
      exists i :: 0 <= i < |commitments| && commitments[i].Obj? && CommitterOf(commitments[i]).None?
    case DuplicateParticipant =>
      exists i, k :: 0 <= i < k < |commitments| && CommitterOf(commitments[i]).Some?
                     && CommitterOf(commitments[i]) == CommitterOf(commitments[k])
    case UnexpectedParticipant =>
      exists i :: 0 <= i < |commitments| && CommitterOf(commitments[i]).Some?
                  && CommitterOf(commitments[i]).value !in p.expected
    case MissingParticipant =>
      exists did :: did in p.expected && forall i :: 0 <= i < |commitments| ==> CommitterOf(commitments[i]) != Some(did)
    case MalformedTerms => exists i :: 0 <= i < |commitments| && !HasTerms(commitments[i])
    case NonNumericQuantity =>
      exists i :: 0 <= i < |commitments| && HasTerms(commitments[i]) && QuantityCommitted(commitments[i]).None?
    case MalformedPredicate => exists i :: 0 <= i < |commitments| && QuantityTooLarge(commitments[i])
    case QuantityMismatch =>
      Each(QuantityCommitted, commitments).Some? && !QuantityMatches(p, commitments)
    case PastDeadline => now >= p.deadline
    case MissingMandateProof => p.mandate && exists i :: 0 <= i < |commitments| && !HasMandateProof(commitments[i])
    case _ => false
  }

  // ---------------------------------------------------------------- the evaluation

  /** The committers, or the first commitment that has none or repeats one. */
  method CollectParticipants(commitments: seq<Json>) returns (dids: seq<Text>, reason: Option<Reason>)
    ensures reason.None? ==> Each(CommitterOf, commitments) == Some(dids) && NoRepeats(dids)
    ensures reason.Some? ==> forall p, now :: Justified(reason.value, p, commitments, now)
    ensures reason.Some? ==> Each(CommitterOf, commitments).None? || !NoRepeats(Each(CommitterOf, commitments).value)
  {
    dids, reason := [], None;
    for k := 0 to |commitments|
      invariant Each(CommitterOf, commitments[..k]) == Some(dids) && NoRepeats(dids)
    {
      EachPrefix(CommitterOf, commitments, k);
      if !commitments[k].Obj? {
        EachFails(CommitterOf, commitments);
        return dids, Some(MalformedCommitment);
      }
      var did := CommitterOf(commitments[k]);
      if did.None? {
        EachFails(CommitterOf, commitments);
        return dids, Some(MissingCommitter);
      }
      if did.value in dids {
        RepeatFound(commitments, dids, k);
        return dids, Some(DuplicateParticipant);
      }
      dids := dids + [did.value];
    }
    assert commitments[..|commitments|] == commitments;
  }

  lemma RepeatFound(commitments: seq<Json>, dids: seq<Text>, k: nat)
    requires k < |commitments| && Each(CommitterOf, commitments[..k]) == Some(dids)
    requires CommitterOf(commitments[k]).Some? && CommitterOf(commitments[k]).value in dids
    ensures exists i :: 0 <= i < k && CommitterOf(commitments[i]) == CommitterOf(commitments[k])
    ensures Each(CommitterOf, commitments).None? || !NoRepeats(Each(CommitterOf, commitments).value)
  {
    EachFails(CommitterOf, commitments[..k]);
    EachFails(CommitterOf, commitments);
    var i :| 0 <= i < |dids| && dids[i] == CommitterOf(commitments[k]).value;
    assert commitments[..k][i] == commitments[i];
  }

  lemma TooLargeHasNoQuantity(j: Json)
    requires QuantityTooLarge(j)
    ensures QuantityCommitted(j).None?
  {
  }

  /** The total quantity, which is no number once it is infinite, or why there is none. */
  method TotalQuantity(commitments: seq<Json>) returns (total: Option<real>, reason: Option<Reason>)
    ensures reason.None? ==>
              && Each(QuantityCommitted, commitments).Some?
              && total == RangedTotal(Each(QuantityCommitted, commitments).value)
    ensures reason.Some? ==> Each(QuantityCommitted, commitments).None?
    ensures reason.Some? ==> forall p, now :: Justified(reason.value, p, commitments, now)
  {
    total, reason := Some(0.0), None;
    ghost var quantities: seq<real> := [];
    for k := 0 to |commitments|
      invariant Each(QuantityCommitted, commitments[..k]) == Some(quantities) && total == RangedTotal(quantities)
    {
      EachPrefix(QuantityCommitted, commitments, k);
      if !HasTerms(commitments[k]) {
        return total, Some(MalformedTerms);
      }
      if QuantityTooLarge(commitments[k]) {
        TooLargeHasNoQuantity(commitments[k]);
        return total, Some(MalformedPredicate);
      }
      var quantity := QuantityCommitted(commitments[k]);
      if quantity.None? {
        return total, Some(NonNumericQuantity);
      }
      RangedSnoc(quantities, quantity.value);
      total := Plus(total, quantity.value);
      quantities := quantities + [quantity.value];
    }
    assert commitments[..|commitments|] == commitments;
  }

  lemma SetMismatch(p: Policy, commitments: seq<Json>, dids: seq<Text>, now: int)
    requires Each(CommitterOf, commitments) == Some(dids) && !SameMembers(dids, p.expected)
    ensures !ExactlyTheExpected(p.expected, commitments)
    ensures if exists did :: did in dids && did !in p.expected
            then Justified(UnexpectedParticipant, p, commitments, now)
            else Justified(MissingParticipant, p, commitments, now)
  {
    EachFails(CommitterOf, commitments);
    if did :| did in dids && did !in p.expected {
      var i :| 0 <= i < |dids| && dids[i] == did;
      assert CommitterOf(commitments[i]) == Some(did);
    } else {
      var did :| did in p.expected && did !in dids;
      assert forall i :: 0 <= i < |commitments| ==> CommitterOf(commitments[i]) == Some(dids[i]) && dids[i] in dids;
    }
  }

  /** The commitment checks of `evaluate_bilateral_chain_closure_v1`. */
  method EvaluateCommitments(p: Policy, commitments: seq<Json>, now: int) returns (reason: Option<Reason>)
    ensures reason.None? <==> Closes(p, commitments, now)
    ensures reason.Some? ==> Justified(reason.value, p, commitments, now)
  {
    if commitments == [] {
      return Some(NoCommitments);
    }
    var dids, refusal := CollectParticipants(commitments);
    if refusal.Some? {
      return refusal;
    }
    EachFails(CommitterOf, commitments);
    if !SameMembers(dids, p.expected) {
      SetMismatch(p, commitments, dids, now);
      if exists did :: did in dids && did !in p.expected {
        return Some(UnexpectedParticipant);
      }
      return Some(MissingParticipant);
    }
    var total, refused := TotalQuantity(commitments);
    if refused.Some? {
      return refused;
    }
    reason := FinalChecks(p, commitments, total, now);
  }

  /** The checks once the total is known. */
  method FinalChecks(p: Policy, commitments: seq<Json>, total: Option<real>, now: int) returns (reason: Option<Reason>)
    requires Each(QuantityCommitted, commitments).Some?
    requires total == RangedTotal(Each(QuantityCommitted, commitments).value)
    ensures reason.None? <==>
            && QuantityMatches(p, commitments) && now < p.deadline
            && (p.mandate ==> forall i :: 0 <= i < |commitments| ==> HasMandateProof(commitments[i]))
    ensures reason.Some? ==> Justified(reason.value, p, commitments, now)
  {
    if !WithinTolerance(p, total) {
      return Some(QuantityMismatch);
    }
    if now >= p.deadline {
      return Some(PastDeadline);
    }
    if p.mandate {
      var proven := AllHaveMandateProofs(commitments);
      if !proven {
        return Some(MissingMandateProof);
      }
    }
    return None;
  }

  method AllHaveMandateProofs(commitments: seq<Json>) returns (proven: bool)
    ensures proven <==> forall i :: 0 <= i < |commitments| ==> HasMandateProof(commitments[i])
  {
    for k := 0 to |commitments|
      invariant forall i :: 0 <= i < k ==> HasMandateProof(commitments[i])
    {
      if !HasMandateProof(commitments[k]) {
        return false;
      }
    }
    return true;
  }

  // ---------------------------------------------------------------- dispatch

  const BILATERAL_CHAIN_CLOSURE_V1: Text := Lit("urn:concordia:predicate-type:bilateral_chain_closure:v1")
  const CLOSURE_LANGUAGE_V1: Text := Lit("urn:concordia:predicate-type:closure_language:v1")
  const EXPRESSION: Text := Lit("expression")

  /** What `satisfied` means for each profile; there is no other way to be satisfied. */
  ghost predicate SatisfiedBy(c: Context, typeUrn: Json, parameters: Json, now: int) {
    || (&& typeUrn == Str(BILATERAL_CHAIN_CLOSURE_V1)
        && ReadPolicy(c.parse, parameters).Ok? && Closes(ReadPolicy(c.parse, parameters).policy, c.commitments, now))
    || (&& typeUrn == Str(CLOSURE_LANGUAGE_V1)
        && parameters.Obj? && Get(parameters.members, EXPRESSION).Some?
        && Eval(c, Get(parameters.members, EXPRESSION).value) == Truth(true))
  }

  /** `evaluate_predicate`; no reason means `satisfied`. */
  method EvaluatePredicate(c: Context, typeUrn: Json, parameters: Json, now: int) returns (reason: Option<Reason>)
    ensures reason.None? <==> SatisfiedBy(c, typeUrn, parameters, now)
  {
    if !typeUrn.Str? {
      return Some(MalformedPredicate);
    }
    if typeUrn.s == BILATERAL_CHAIN_CLOSURE_V1 {
      match ReadPolicy(c.parse, parameters) {
        case Refused(refusal) =>
          return Some(refusal);
        case Ok(policy) =>
          reason := EvaluateCommitments(policy, c.commitments, now);
      }
    } else if typeUrn.s == CLOSURE_LANGUAGE_V1 {
      reason := EvaluateExpression(c, parameters);
    } else {
      return Some(UnknownPredicateType);
    }
  }

  /** `evaluate_closure_language_v1` */
  method EvaluateExpression(c: Context, parameters: Json) returns (reason: Option<Reason>)
    ensures reason.None? <==> parameters.Obj? && Get(parameters.members, EXPRESSION).Some?
                              && Eval(c, Get(parameters.members, EXPRESSION).value) == Truth(true)
  {
    if !parameters.Obj? {
      return Some(MalformedPredicate);
    }
    var node := Get(parameters.members, EXPRESSION);
    if node.None? || !node.value.Obj? {
      return Some(MissingExpression);
    }
    var value := Eval(c, node.value);
    if !value.Truth? {
      return Some(MalformedPredicate);
    }
    return if value.b then None else Some(ExpressionNotSatisfied);
  }

  // ---------------------------------------------------------------- order of commitments

  lemma ExpectedReordered(expected: seq<Text>, xs: seq<Json>, ys: seq<Json>)
    requires SameItems(xs, ys) && ExactlyTheExpected(expected, xs)
    ensures ExactlyTheExpected(expected, ys)
  {
    EachPermuted(CommitterOf, xs, ys);
    var ds, es := Each(CommitterOf, xs).value, Each(CommitterOf, ys).value;
    NoRepeatsReordered(ds, es);
    forall did
      ensures did in ds <==> did in es
    {
      SameItemsContain(ds, es, did);
    }
  }

  /** The quantities, if all are numbers, add up to one total in every order. */
  ghost predicate QuantitiesSettled(commitments: seq<Json>) {
    Each(QuantityCommitted, commitments).Some? ==> Settled(Each(QuantityCommitted, commitments).value)
  }

  lemma QuantityReordered(p: Policy, xs: seq<Json>, ys: seq<Json>)
    requires SameItems(xs, ys) && QuantitiesSettled(xs)
    ensures QuantityMatches(p, xs) == QuantityMatches(p, ys)
  {
    EachPermuted(QuantityCommitted, xs, ys);
    if Each(QuantityCommitted, xs).Some? {
      SettledReordered(Each(QuantityCommitted, xs).value, Each(QuantityCommitted, ys).value);
    }
  }

  lemma ClosesAfterReordering(p: Policy, xs: seq<Json>, ys: seq<Json>, now: int)
    requires SameItems(xs, ys) && Closes(p, xs, now) && QuantityMatches(p, ys)
    ensures Closes(p, ys, now)
  {
    SameItemsLength(xs, ys);
    ExpectedReordered(p.expected, xs, ys);
    forall i | 0 <= i < |ys|
      ensures p.mandate ==> HasMandateProof(ys[i])
    {
      SameItemsContain(xs, ys, ys[i]);
    }
  }

  /** What the order of commitments could change is left out: mixed classes, and sums that overflow in some orders. */
  ghost predicate OrderIrrelevant(c: Context, typeUrn: Json, parameters: Json) {
    && (typeUrn == Str(BILATERAL_CHAIN_CLOSURE_V1) ==> QuantitiesSettled(c.commitments))
    && (typeUrn == Str(CLOSURE_LANGUAGE_V1) && parameters.Obj? && Get(parameters.members, EXPRESSION).Some? ==>
          && OneClassEach(c, Get(parameters.members, EXPRESSION).value)
          && SumsSettled(c, Get(parameters.members, EXPRESSION).value))
  }

  /**
   Neither profile's outcome depends on the order of commitments, given one class per
   compared field and sums that no order pushes out of the floats unless all do.
   */
  lemma OutcomeReordered(c: Context, d: Context, typeUrn: Json, parameters: Json, now: int)
    requires Reordered(c, d) && OrderIrrelevant(c, typeUrn, parameters)
    ensures SatisfiedBy(c, typeUrn, parameters, now) == SatisfiedBy(d, typeUrn, parameters, now)
  {
    if typeUrn == Str(CLOSURE_LANGUAGE_V1) && parameters.Obj? && Get(parameters.members, EXPRESSION).Some? {
      EvalReordered(c, d, Get(parameters.members, EXPRESSION).value);
    }
    if typeUrn == Str(BILATERAL_CHAIN_CLOSURE_V1) && ReadPolicy(c.parse, parameters).Ok? {
      var p := ReadPolicy(c.parse, parameters).policy;
      QuantityReordered(p, c.commitments, d.commitments);
      if Closes(p, c.commitments, now) {
        ClosesAfterReordering(p, c.commitments, d.commitments, now);
      }
      if Closes(p, d.commitments, now) {
        ClosesAfterReordering(p, d.commitments, c.commitments, now);
      }
    }
  }

  // ---------------------------------------------------------------- orders of quantities that disagree

  /** No order overflows unless all do, or the exact total is outside the tolerance anyway. */
  predicate OrderCannotDecide(p: Policy, qs: seq<real>) {
    Settled(qs) || !WithinTolerance(p, Some(Gains(qs) - Losses(qs)))
  }

  ghost predicate QuantityOrderFree(p: Policy, xs: seq<Json>) {
    forall ys :: SameItems(xs, ys) ==> QuantityMatches(p, ys) == QuantityMatches(p, xs)
  }

  lemma QuantitiesInRange(xs: seq<Json>)
    requires Each(QuantityCommitted, xs).Some?
    ensures AllInRange(Each(QuantityCommitted, xs).value)
  {
    EachFails(QuantityCommitted, xs);
  }

  lemma QuantityOrdersDisagree(p: Policy, xs: seq<Json>, qs: seq<real>)
    requires Each(QuantityCommitted, xs) == Some(qs) && !OrderCannotDecide(p, qs)
    ensures !QuantityOrderFree(p, xs)
  {
    QuantitiesInRange(xs);
    var over := SomeOrderOverflows(qs);
    var ys := EachLifted(QuantityCommitted, xs, over);
    assert SameItems(xs, ys) && !QuantityMatches(p, ys);
    var within := SomeOrderStays(qs);
    var zs := EachLifted(QuantityCommitted, xs, within);
    assert SameItems(xs, zs) && QuantityMatches(p, zs);
  }

  lemma NoOrderMatches(p: Policy, xs: seq<Json>, qs: seq<real>, ys: seq<Json>)
    requires Each(QuantityCommitted, xs) == Some(qs) && !WithinTolerance(p, Some(Gains(qs) - Losses(qs)))
    requires SameItems(xs, ys)
    ensures !QuantityMatches(p, ys)
  {
    EachPermuted(QuantityCommitted, xs, ys);
    var vs := Each(QuantityCommitted, ys).value;
    if RangedTotal(vs).Some? {
      BalancedTotal(qs, vs);
    }
  }

  /**
   The exact condition, on the quantities alone, under which the order of commitments
   cannot decide whether the quantity matches.
   */
  lemma QuantityOrderFreeIff(p: Policy, xs: seq<Json>)
    requires Each(QuantityCommitted, xs).Some?
    ensures QuantityOrderFree(p, xs) <==> OrderCannotDecide(p, Each(QuantityCommitted, xs).value)
  {
    var qs := Each(QuantityCommitted, xs).value;
    if OrderCannotDecide(p, qs) {
      OrdersAgree(p, xs, qs);
    } else {
      QuantityOrdersDisagree(p, xs, qs);
    }
  }

  lemma OrdersAgree(p: Policy, xs: seq<Json>, qs: seq<real>)
    requires Each(QuantityCommitted, xs) == Some(qs) && OrderCannotDecide(p, qs)
    ensures QuantityOrderFree(p, xs)
  {
    if Settled(qs) {
      SettledIsFree(p, xs);
    } else {
      OutsideIsFree(p, xs, qs);
    }
  }

  lemma SettledIsFree(p: Policy, xs: seq<Json>)
    requires QuantitiesSettled(xs)
    ensures QuantityOrderFree(p, xs)
  {
    forall ys | SameItems(xs, ys)
      ensures QuantityMatches(p, ys) == QuantityMatches(p, xs)
    {
      QuantityReordered(p, xs, ys);
    }
  }

  lemma OutsideIsFree(p: Policy, xs: seq<Json>, qs: seq<real>)
    requires Each(QuantityCommitted, xs) == Some(qs) && !WithinTolerance(p, Some(Gains(qs) - Losses(qs)))
    ensures QuantityOrderFree(p, xs)
  {
    NoOrderMatches(p, xs, qs, xs);
    forall ys | SameItems(xs, ys)
      ensures QuantityMatches(p, ys) == QuantityMatches(p, xs)
    {
      NoOrderMatches(p, xs, qs, ys);
    }
  }

  /** A closed deal: one commitment an expected participant, on time, in tolerance, with its mandates. */
  lemma ClosedDealIsComplete(p: Policy, commitments: seq<Json>, now: int, did: Text)
    requires Closes(p, commitments, now) && did in p.expected
    ensures exists i :: (
              && 0 <= i < |commitments| && CommitterOf(commitments[i]) == Some(did)
              && forall k :: 0 <= k < |commitments| && CommitterOf(commitments[k]) == Some(did) ==> k == i)
  {
    EachFails(CommitterOf, commitments);
    var dids := Each(CommitterOf, commitments).value;
    var i :| 0 <= i < |dids| && dids[i] == did;
  }
}
