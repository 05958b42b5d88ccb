/** Outcome binding and bundle summaries (`concordia/receipt_bundle.py`). */
module ReceiptBundle {
  import opened Wrappers
  import opened Order
  import opened Sequences
  import opened Unicode
  import opened PythonValues
  import opened FloatRange
  import opened RangedSums
  import opened Crypto
  import opened AttestationVersion
  import opened Cosign
  import Merkle
  import Negotiation

  /** An attestation dict. */
  type Attestation = seq<Member>

  type KeyResolver = Text -> Option<PublicKey>

  const CONCORDIA_ATTESTATION: Text := Lit("concordia_attestation")
  const OUTCOME: Text := Lit("outcome")
  const STATUS: Text := Lit("status")
  const BEHAVIOR: Text := Lit("behavior")
  const CONCESSION_MAGNITUDE: Text := Lit("concession_magnitude")
  const REASONING_PROVIDED: Text := Lit("reasoning_provided")
  const FULFILLMENT: Text := Lit("fulfillment")
  const META: Text := Lit("meta")
  const CATEGORY: Text := Lit("category")
  const TIMESTAMP: Text := Lit("timestamp")

  // ---------------------------------------------------------------- parties

  function AsDict(j: Json): Option<seq<Member>> {
    if j.Obj? then Some(j.members) else None
  }

  /** The dicts in `att.get("parties", [])`; `None` when going through them raises. */
  function PartiesOf(att: Attestation): Option<seq<seq<Member>>> {
    match Get(att, PARTIES)
    case None => Some([])
    case Some(Arr(_, elems)) => Each(AsDict, elems)
    case Some(Str(t)) => if t == [] then Some([]) else None
    case Some(Obj(ms)) => if ms == [] then Some([]) else None
    case _ => None
  }

  /** `att.get(key, "")` as text. */
  function TextAt(ms: seq<Member>, key: Text): Option<Text> {
    match Get(ms, key)
    case None => Some([])
    case Some(Str(t)) => Some(t)
    case _ => None
  }

  function PartyId(party: seq<Member>): Option<Text> {
    TextAt(party, AGENT_ID)
  }

  function PartyIds(att: Attestation): Option<seq<Text>> {
    var parties :- PartiesOf(att);
    Each(PartyId, parties)
  }

  // ---------------------------------------------------------------- outcome binding

  datatype Binding = Bound | Unbound | BindingError

  /** A party has a countersignature, and it verifies under the party's key. */
  predicate Countersigned(c: Scheme, resolve: KeyResolver, att: Attestation, pid: Text) {
    var signature, key := CountersignatureIn(att, pid), resolve(pid);
    && signature.Some? && signature.value != [] && key.Some?
    && VerifyCountersignature(c, att, signature.value, key.value)
  }

  /** `isinstance(cs, dict) and cs` */
  predicate HasCountersignatures(att: Attestation) {
    match Get(att, COUNTERSIGNATURES)
    case Some(Obj(ms)) => ms != []
    case _ => false
  }

  predicate EveryoneCountersigned(c: Scheme, resolve: KeyResolver, att: Attestation, ids: seq<Text>) {
    forall i :: 0 <= i < |ids| && ids[i] != [] ==> Countersigned(c, resolve, att, ids[i])
  }

  predicate Identifiable(ids: seq<Text>) {
    exists i :: 0 <= i < |ids| && ids[i] != []
  }

  /** The state of `evaluate_outcome_binding`; `None` when it raises. */
  function OutcomeBinding(c: Scheme, resolve: KeyResolver, att: Attestation): Option<Binding> {
    match Parse(Get(att, CONCORDIA_ATTESTATION))
    case None => Some(BindingError)
    case Some(version) =>
      if ExceedsImplemented(version) then Some(BindingError)
      else if BelowFloor(version, 0, 2) then Some(Unbound)
      else
        var ids :- PartyIds(att);
        Some(if HasCountersignatures(att) && Identifiable(ids) && EveryoneCountersigned(c, resolve, att, ids)
             then Bound else BindingError)
  }

  /** `evaluate_outcome_binding` */
  method EvaluateOutcomeBinding(c: Scheme, resolve: KeyResolver, att: Attestation) returns (state: Option<Binding>)
    ensures state == OutcomeBinding(c, resolve, att)
  {
    var version := Parse(Get(att, CONCORDIA_ATTESTATION));
    if version.None? || ExceedsImplemented(version.value) {
      return Some(BindingError);
    }
    if BelowFloor(version.value, 0, 2) {
      return Some(Unbound);
    }
    var ids := PartyIds(att);
    if ids.None? {
      return None;
    }
    if !HasCountersignatures(att) {
      return Some(BindingError);
    }
    if !Identifiable(ids.value) {
      return Some(BindingError);
    }
    var everyone := CheckCountersignatures(c, resolve, att, ids.value);
    return Some(if everyone then Bound else BindingError);
  }

  /** The loop of `evaluate_outcome_binding` over the listed parties. */
  method CheckCountersignatures(c: Scheme, resolve: KeyResolver, att: Attestation, ids: seq<Text>) returns (ok: bool)
    ensures ok == EveryoneCountersigned(c, resolve, att, ids)
  {
    for k := 0 to |ids|
      invariant EveryoneCountersigned(c, resolve, att, ids[..k])
    {
      assert ids[..k + 1] == ids[..k] + [ids[k]];
      var pid := ids[k];
      if pid != [] {
        var signature := CountersignatureIn(att, pid);
        if signature.None? || signature.value == [] {
          return false;
        }
        var key := resolve(pid);
        if key.None? {
          return false;
        }
        if !VerifyCountersignature(c, att, signature.value, key.value) {
          return false;
        }
      }
    }
    assert ids[..|ids|] == ids;
    return true;
  }

  // ---------------------------------------------------------------- facts

  /** What `_compute_summary` reads from one party entry. */
  datatype PartyFacts = PartyFacts(counterparty: Option<Text>, concession: Option<real>, reasoned: bool)

  /** What it reads from one attestation. */
  datatype Facts = Facts(
    agreed: bool,
    parties: seq<PartyFacts>,
    fulfilled: Option<bool>,
    category: Option<Text>,
    timestamp: Option<Text>)

  /** `ms.get(key, {})`; `None` when it is no dict. */
  function DictAt(ms: seq<Member>, key: Text): Option<seq<Member>> {
    match Get(ms, key)
    case None => Some([])
    case Some(j) => AsDict(j)
  }

  /** A text that is present and not empty; the outer `None` for other truthy values. */
  function TruthyText(j: Option<Json>): Option<Option<Text>> {
    match j
    case None => Some(None)
    case Some(Str(t)) => Some(if t == [] then None else Some(t))
    case Some(v) => if Negotiation.Truthy(v) then None else Some(None)
  }

  function ConcessionIn(behavior: seq<Member>): Option<real> {
    var v :- Get(behavior, CONCESSION_MAGNITUDE);
    Negotiation.Numeric(v)
  }

  /** `float(cm)` raises: the magnitude is an int that no float holds. */
  predicate ConcessionTooLarge(behavior: seq<Member>) {
    Get(behavior, CONCESSION_MAGNITUDE).Some? && Negotiation.TooLarge(Get(behavior, CONCESSION_MAGNITUDE).value)
  }

  predicate TruthyAt(ms: seq<Member>, key: Text) {
    Get(ms, key).Some? && Negotiation.Truthy(Get(ms, key).value)
  }

  function FactsOfParty(agent: Text, party: seq<Member>): Option<PartyFacts> {
    var pid :- PartyId(party);
    if pid != agent then Some(PartyFacts(Some(pid), None, false))
    else
      var behavior :- DictAt(party, BEHAVIOR);
      if ConcessionTooLarge(behavior) then None
      else Some(PartyFacts(None, ConcessionIn(behavior), TruthyAt(behavior, REASONING_PROVIDED)))
  }

  function FactsOfParties(agent: Text, parties: seq<seq<Member>>): Option<seq<PartyFacts>> {
    Each(p => FactsOfParty(agent, p), parties)
  }

  function FulfillmentOf(att: Attestation): Option<Option<bool>> {
    match Get(att, FULFILLMENT)
    case None => Some(None)
    case Some(Null) => Some(None)
    case Some(Obj(ms)) =>
      Some(Some(Get(ms, STATUS) == Some(Str(Lit("fulfilled"))) || Get(ms, STATUS) == Some(Str(Lit("complete")))))
    case _ => None
  }

  /** What is read outside the parties. */
  function OutsideParties(att: Attestation): Option<Facts> {
    var outcome :- DictAt(att, OUTCOME);
    var fulfilled :- FulfillmentOf(att);
    var meta :- DictAt(att, META);
    var category :- TruthyText(Get(meta, CATEGORY));
    var timestamp :- TruthyText(Get(att, TIMESTAMP));
    Some(Facts(Get(outcome, STATUS) == Some(Str(Lit("agreed"))), [], fulfilled, category, timestamp))
  }

  /** `None` when reading the attestation raises. */
  function FactsOf(agent: Text, att: Attestation): Option<Facts> {
    var parties :- PartiesOf(att);
    var facts :- FactsOfParties(agent, parties);
    var outside :- OutsideParties(att);
    Some(outside.(parties := facts))
  }

  // ---------------------------------------------------------------- summaries

  datatype Summary = Summary(
    total: nat, agreements: nat, agreementRate: real, avgConcession: real, fulfillmentRate: real,
    counterparties: nat, categories: seq<Text>, earliest: Text, latest: Text, reasoningRate: real)

  const NO_SUMMARY := Summary(0, 0, 0.0, 0.0, 0.0, 0, [], [], [], 0.0)

  /** The elements that each item contributes. */
  function FlatMap<S, T>(f: S -> seq<T>, xs: seq<S>): seq<T> {
    if xs == [] then [] else FlatMap(f, xs[..|xs| - 1]) + f(xs[|xs| - 1])
  }

  function Few<T>(x: Option<T>): seq<T> {
    if x.Some? then [x.value] else []
  }

  function Flag(b: bool): seq<bool> {
    if b then [true] else []
  }

  /** One of each. */
  function Distinct(xs: seq<Text>): seq<Text> {
    if xs == [] then []
    else
      var d, last := Distinct(xs[..|xs| - 1]), xs[|xs| - 1];
      if last in d then d else d + [last]
  }

  function Counterparties(f: Facts): seq<Text> {
    FlatMap((p: PartyFacts) => Few(p.counterparty), f.parties)
  }

  function ConcessionsIn(f: Facts): seq<real> {
    FlatMap((p: PartyFacts) => Few(p.concession), f.parties)
  }

  function Reasoned(f: Facts): seq<bool> {
    FlatMap((p: PartyFacts) => Flag(p.reasoned), f.parties)
  }

  /** Everything the summary is computed from. */
  datatype Tally = Tally(
    total: nat, agreed: seq<bool>, counterparties: seq<Text>, concessions: seq<real>, reasoned: seq<bool>,
    rated: seq<bool>, fulfilled: seq<bool>, categories: seq<Text>, timestamps: seq<Text>)

  function TallyOf(fs: seq<Facts>): Tally {
    Tally(|fs|,
          FlatMap((f: Facts) => Flag(f.agreed), fs),
          FlatMap(Counterparties, fs),
          FlatMap(ConcessionsIn, fs),
          FlatMap(Reasoned, fs),
          FlatMap((f: Facts) => Flag(f.fulfilled.Some?), fs),
          FlatMap((f: Facts) => Flag(f.fulfilled == Some(true)), fs),
          FlatMap((f: Facts) => Few(f.category), fs),
          FlatMap((f: Facts) => Few(f.timestamp), fs))
  }

  function Ratio(a: nat, b: nat): real {
    if b == 0 then 0.0 else a as real / b as real
  }

  /** `round(x, 4)` */
  type Rounding = real -> real

  /** Stands for an infinite float, which no finite float equals. */
  const INFINITE: real := FLOAT_LIMIT as real

  /** `round(sum(xs) / len(xs), 4)`, and zero for no items; an infinite sum has an infinite mean. */
  function RoundedMean(round: Rounding, xs: seq<real>): real {
    if xs == [] then round(0.0)
    else
      match RangedTotal(xs)
      case Some(total) => round(total / |xs| as real)
      case None => INFINITE
  }

  function First(xs: seq<Text>): Text {
    if xs == [] then [] else xs[0]
  }

  function Final(xs: seq<Text>): Text {
    if xs == [] then [] else xs[|xs| - 1]
  }

  function SummaryOf(round: Rounding, t: Tally): Summary {
    if t.total == 0 then NO_SUMMARY
    else
      Summary(t.total, |t.agreed|, round(Ratio(|t.agreed|, t.total)), RoundedMean(round, t.concessions),
              round(Ratio(|t.fulfilled|, |t.rated|)), |Distinct(t.counterparties)|,
              Merkle.SortIds(Distinct(t.categories)), First(Merkle.SortIds(t.timestamps)),
              Final(Merkle.SortIds(t.timestamps)), round(Ratio(|t.reasoned|, t.total)))
  }

  function AllFacts(agent: Text, atts: seq<Attestation>): (fs: Option<seq<Facts>>)
    ensures fs.Some? ==> |fs.value| == |atts|
  {
    Each(a => FactsOf(agent, a), atts)
  }

  /** `_compute_summary` on values; `None` when it raises. */
  function Summarize(round: Rounding, agent: Text, atts: seq<Attestation>): Option<Summary> {
    var fs :- AllFacts(agent, atts);
    Some(SummaryOf(round, TallyOf(fs)))
  }

  // ---------------------------------------------------------------- the loop

  lemma DistinctAppend(xs: seq<Text>, x: Text)
    ensures Distinct(xs + [x]) == if x in Distinct(xs) then Distinct(xs) else Distinct(xs) + [x]
  {
    assert (xs + [x])[..|xs|] == xs;
  }

  /** What the loop over the parties of one attestation gathers. */
  datatype PartyTally = PartyTally(counterparties: seq<Text>, concessions: seq<real>, reasoned: nat)

  /** The gathered values after some parties, on top of the counterparties seen `before`. */
  function Gathered(before: seq<Text>, parties: seq<PartyFacts>): PartyTally {
    PartyTally(Distinct(before + FlatMap((p: PartyFacts) => Few(p.counterparty), parties)),
               FlatMap((p: PartyFacts) => Few(p.concession), parties),
               |FlatMap((p: PartyFacts) => Flag(p.reasoned), parties)|)
  }

  lemma GatheredAppend(before: seq<Text>, parties: seq<PartyFacts>, p: PartyFacts)
    ensures var g, next := Gathered(before, parties), Gathered(before, parties + [p]);
            && next.counterparties == (if p.counterparty.None? || p.counterparty.value in g.counterparties
                                       then g.counterparties else g.counterparties + [p.counterparty.value])
            && next.concessions == g.concessions + Few(p.concession)
            && next.reasoned == g.reasoned + if p.reasoned then 1 else 0
  {
    var seen := FlatMap((q: PartyFacts) => Few(q.counterparty), parties);
    if p.counterparty.Some? {
      Assoc(before, seen, [p.counterparty.value]);
      DistinctAppend(before + seen, p.counterparty.value);
    } else {
      assert before + (seen + []) == before + seen;
    }
  }

  method GatherParties(agent: Text, parties: seq<seq<Member>>, ghost before: seq<Text>, known: seq<Text>)
    returns (tally: Option<PartyTally>)
    requires known == Distinct(before)
    ensures tally == match FactsOfParties(agent, parties)
                     case None => None
                     case Some(facts) => Some(Gathered(before, facts))
  {
    var t := PartyTally(known, [], 0);
    ghost var facts: seq<PartyFacts> := [];
    assert before + [] == before;
    for k := 0 to |parties|
      invariant FactsOfParties(agent, parties[..k]) == Some(facts) && t == Gathered(before, facts)
    {
      EachPrefix(p => FactsOfParty(agent, p), parties, k);
      var pid := PartyId(parties[k]);
      if pid.None? {
        return None;
      }
      if pid.value != agent {
        GatheredAppend(before, facts, PartyFacts(Some(pid.value), None, false));
        facts := facts + [PartyFacts(Some(pid.value), None, false)];
        if pid.value !in t.counterparties {
          t := t.(counterparties := t.counterparties + [pid.value]);
        }
      } else {
        var behavior := DictAt(parties[k], BEHAVIOR);
        if behavior.None? || ConcessionTooLarge(behavior.value) {
          return None;
        }
        var concession, reasoned := ConcessionIn(behavior.value), TruthyAt(behavior.value, REASONING_PROVIDED);
        GatheredAppend(before, facts, PartyFacts(None, concession, reasoned));
        facts := facts + [PartyFacts(None, concession, reasoned)];
        if concession.Some? {
          t := t.(concessions := t.concessions + [concession.value]);
        }
        if reasoned {
          t := t.(reasoned := t.reasoned + 1);
        }
      }
    }
    assert parties[..|parties|] == parties;
    return Some(t);
  }

  /** The local variables of `_compute_summary`. */
  datatype Totals = Totals(
    agreements: nat, counterparties: seq<Text>, concessions: seq<real>, reasoned: nat,
    fulfillmentTotal: nat, fulfillmentCount: nat, categories: seq<Text>, timestamps: seq<Text>)

  function TotalsOf(t: Tally): Totals {
    Totals(|t.agreed|, Distinct(t.counterparties), t.concessions, |t.reasoned|, |t.rated|, |t.fulfilled|,
           Distinct(t.categories), t.timestamps)
  }

  lemma TallyAppend(fs: seq<Facts>, f: Facts)
    ensures var t, next := TallyOf(fs), TallyOf(fs + [f]);
            && next.agreed == t.agreed + Flag(f.agreed) && next.counterparties == t.counterparties + Counterparties(f)
            && next.concessions == t.concessions + ConcessionsIn(f) && next.reasoned == t.reasoned + Reasoned(f)
            && next.rated == t.rated + Flag(f.fulfilled.Some?)
            && next.fulfilled == t.fulfilled + Flag(f.fulfilled == Some(true))
            && next.categories == t.categories + Few(f.category) && next.timestamps == t.timestamps + Few(f.timestamp)
  {
  }

  /** The totals after one more attestation. */
  function Counted(t: Totals, f: Facts, g: PartyTally): Totals {
    Totals(t.agreements + (if f.agreed then 1 else 0), g.counterparties, t.concessions + g.concessions,
           t.reasoned + g.reasoned, t.fulfillmentTotal + (if f.fulfilled.Some? then 1 else 0),
           t.fulfillmentCount + (if f.fulfilled == Some(true) then 1 else 0),
           if f.category.Some? && f.category.value !in t.categories then t.categories + [f.category.value]
               else t.categories,
           t.timestamps + Few(f.timestamp))
  }

  lemma CountedIs(fs: seq<Facts>, f: Facts)
    ensures TotalsOf(TallyOf(fs + [f]))
         == Counted(TotalsOf(TallyOf(fs)), f, Gathered(TallyOf(fs).counterparties, f.parties))
  {
    TallyAppend(fs, f);
    var t := TallyOf(fs);
    if f.category.Some? {
      DistinctAppend(t.categories, f.category.value);
    } else {
      assert t.categories + [] == t.categories;
    }
  }

  function SummaryFrom(round: Rounding, total: nat, t: Totals): Summary {
    if total == 0 then NO_SUMMARY
    else
      Summary(total, t.agreements, round(Ratio(t.agreements, total)), RoundedMean(round, t.concessions),
              round(Ratio(t.fulfillmentCount, t.fulfillmentTotal)), |t.counterparties|,
              Merkle.SortIds(t.categories), First(Merkle.SortIds(t.timestamps)),
              Final(Merkle.SortIds(t.timestamps)), round(Ratio(t.reasoned, total)))
  }

  /** `_compute_summary` */
  method ComputeSummary(round: Rounding, agent: Text, atts: seq<Attestation>) returns (s: Option<Summary>)
    ensures s == Summarize(round, agent, atts)
  {
    if atts == [] {
      return Some(NO_SUMMARY);
    }
    var t := Totals(0, [], [], 0, 0, 0, [], []);
    ghost var fs: seq<Facts> := [];
    for k := 0 to |atts|
      invariant AllFacts(agent, atts[..k]) == Some(fs) && t == TotalsOf(TallyOf(fs))
    {
      EachPrefix(a => FactsOf(agent, a), atts, k);
      var next := CountOne(agent, atts[k], t, TallyOf(fs).counterparties);
      if next.None? {
        return None;
      }
      CountedIs(fs, FactsOf(agent, atts[k]).value);
      t := next.value;
      fs := fs + [FactsOf(agent, atts[k]).value];
    }
    assert atts[..|atts|] == atts;
    return Some(SummaryFrom(round, |atts|, t));
  }

  /** The body of the loop over attestations. */
  method CountOne(agent: Text, att: Attestation, t: Totals, ghost seen: seq<Text>) returns (next: Option<Totals>)
    requires t.counterparties == Distinct(seen)
    ensures next == match FactsOf(agent, att)
                    case None => None
                    case Some(f) => Some(Counted(t, f, Gathered(seen, f.parties)))
  {
    var parties := PartiesOf(att);
    if parties.None? {
      return None;
    }
    var gathered := GatherParties(agent, parties.value, seen, t.counterparties);
    if gathered.None? {
      return None;
    }
    var f := OutsideParties(att);
    if f.None? {
      return None;
    }
    var total := AddOutside(t, f.value, gathered.value);
    return Some(total);
  }

  /** The counters that one attestation moves. */
  method AddOutside(t: Totals, f: Facts, g: PartyTally) returns (next: Totals)
    ensures next == Counted(t, f, g)
  {
    next := t.(counterparties := g.counterparties, concessions := t.concessions + g.concessions,
               reasoned := t.reasoned + g.reasoned, timestamps := t.timestamps + Few(f.timestamp));
    if f.agreed {
      next := next.(agreements := t.agreements + 1);
    }
    if f.fulfilled.Some? {
      next := next.(fulfillmentTotal := t.fulfillmentTotal + 1);
      if f.fulfilled.value {
        next := next.(fulfillmentCount := t.fulfillmentCount + 1);
      }
    }
    if f.category.Some? && f.category.value !in t.categories {
      next := next.(categories := t.categories + [f.category.value]);
    }
  }

  // ---------------------------------------------------------------- the order of attestations

  lemma {:induction false} FlatMapConcat<S, T>(f: S -> seq<T>, xs: seq<S>, ys: seq<S>)
    ensures FlatMap(f, xs + ys) == FlatMap(f, xs) + FlatMap(f, ys)
    decreases |ys|
  {
    if ys == [] {
      assert xs + ys == xs;
      assert FlatMap(f, xs) + [] == FlatMap(f, xs);
    } else {
      var init, last := ys[..|ys| - 1], ys[|ys| - 1];
      assert (xs + ys)[..|xs + ys| - 1] == xs + init;
      FlatMapConcat(f, xs, init);
      Assoc(FlatMap(f, xs), FlatMap(f, init), f(last));
    }
  }

  /** Reordering the items reorders what they contribute. */
  lemma {:induction false} FlatMapReordered<S, T>(f: S -> seq<T>, xs: seq<S>, ys: seq<S>)
    requires SameItems(xs, ys)
    ensures SameItems(FlatMap(f, xs), FlatMap(f, ys))
    decreases |xs|
  {
    if xs == [] {
      SameItemsLength(xs, ys);
    } else {
      var k := SameItemsTail(xs, ys);
      FlatMapReordered(f, xs[1..], Removed(ys, k));
      FlatMapAround(f, ys, k);
      assert xs == [xs[0]] + xs[1..];
      FlatMapConcat(f, [xs[0]], xs[1..]);
    }
  }

  lemma FlatMapAround<S, T>(f: S -> seq<T>, ys: seq<S>, k: nat)
    requires k < |ys|
    ensures multiset(FlatMap(f, ys)) == multiset(f(ys[k])) + multiset(FlatMap(f, Removed(ys, k)))
  {
    SplitAround(ys, k);
    FlatMapConcat(f, ys[..k], [ys[k]] + ys[k + 1..]);
    FlatMapConcat(f, [ys[k]], ys[k + 1..]);
    FlatMapConcat(f, ys[..k], ys[k + 1..]);
  }

  lemma {:induction false} DistinctIs(xs: seq<Text>)
    ensures NoRepeats(Distinct(xs)) && forall x :: x in Distinct(xs) <==> x in xs
  {
    if xs != [] {
      DistinctIs(xs[..|xs| - 1]);
      assert xs == xs[..|xs| - 1] + [xs[|xs| - 1]];
    }
  }

  lemma DistinctReordered(xs: seq<Text>, ys: seq<Text>)
    requires SameItems(xs, ys)
    ensures SameItems(Distinct(xs), Distinct(ys)) && |Distinct(xs)| == |Distinct(ys)|
  {
    DistinctIs(xs);
    DistinctIs(ys);
    forall x
      ensures x in Distinct(xs) <==> x in Distinct(ys)
    {
      SameItemsContain(xs, ys, x);
    }
    Merkle.DuplicateFreeMultiset(Distinct(xs), Distinct(ys));
    SameItemsLength(Distinct(xs), Distinct(ys));
  }

  // ---- sorted texts

  predicate SelfKeyed(ks: seq<Keyed<Text>>) {
    forall i :: 0 <= i < |ks| ==> ks[i].key == ks[i].item
  }

  lemma SelfKeyedPermute(xs: seq<Keyed<Text>>, ys: seq<Keyed<Text>>)
    requires SelfKeyed(xs) && SameItems(xs, ys)
    ensures SelfKeyed(ys)
  {
    forall i | 0 <= i < |ys|
      ensures ys[i].key == ys[i].item
    {
      SameItemsContain(xs, ys, ys[i]);
    }
  }

  lemma SortedHead(xs: seq<Keyed<Text>>, ys: seq<Keyed<Text>>)
    requires Sorted(xs) && Sorted(ys) && SelfKeyed(xs) && SelfKeyed(ys) && SameItems(xs, ys) && xs != [] && ys != []
    ensures xs[0] == ys[0]
  {
    SameItemsContain(xs, ys, xs[0]);
    SameItemsContain(xs, ys, ys[0]);
    assert xs[0] in xs && ys[0] in ys;
    LexTotal(xs[0].key, ys[0].key);
  }

  lemma {:induction false} SortedSelfKeyedUnique(xs: seq<Keyed<Text>>, ys: seq<Keyed<Text>>)
    requires Sorted(xs) && Sorted(ys) && SelfKeyed(xs) && SelfKeyed(ys) && SameItems(xs, ys)
    ensures xs == ys
  {
    SameItemsLength(xs, ys);
    if xs != [] {
      SortedHead(xs, ys);
      assert xs == [xs[0]] + xs[1..] && ys == [ys[0]] + ys[1..];
      assert multiset(xs[1..]) == multiset(xs) - multiset{xs[0]};
      assert multiset(ys[1..]) == multiset(ys) - multiset{ys[0]};
      SortedSelfKeyedUnique(xs[1..], ys[1..]);
    }
  }

  lemma {:induction false} KeyedIdsPermute(xs: seq<Text>, ys: seq<Text>)
    requires SameItems(xs, ys)
    ensures SameItems(Merkle.KeyedIds(xs), Merkle.KeyedIds(ys))
  {
    if xs == [] {
      SameItemsLength(xs, ys);
      assert Merkle.KeyedIds(xs) == [] == Merkle.KeyedIds(ys);
    } else {
      var k := SameItemsTail(xs, ys);
      KeyedIdsPermute(xs[1..], Removed(ys, k));
      var a, b := Merkle.KeyedIds(xs), Merkle.KeyedIds(ys);
      assert a == [a[0]] + Merkle.KeyedIds(xs[1..]);
      SplitItems(b, k);
      assert Merkle.KeyedIds(Removed(ys, k)) == Removed(b, k);
    }
  }

  /** `sorted` forgets the order it was given. */
  lemma SortIdsReordered(xs: seq<Text>, ys: seq<Text>)
    requires SameItems(xs, ys)
    ensures Merkle.SortIds(xs) == Merkle.SortIds(ys)
  {
    var a, b := Merkle.KeyedIds(xs), Merkle.KeyedIds(ys);
    KeyedIdsPermute(xs, ys);
    SortPermutes(a);
    SortPermutes(b);
    SortSorts(a);
    SortSorts(b);
    SelfKeyedPermute(a, Sort(a));
    SelfKeyedPermute(b, Sort(b));
    SortedSelfKeyedUnique(Sort(a), Sort(b));
  }

  // ---- the summary

  ghost predicate SameTally(t: Tally, u: Tally) {
    && t.total == u.total && SameItems(t.agreed, u.agreed) && SameItems(t.counterparties, u.counterparties)
    && SameItems(t.concessions, u.concessions) && SameItems(t.reasoned, u.reasoned)
    && SameItems(t.rated, u.rated) && SameItems(t.fulfilled, u.fulfilled)
    && SameItems(t.categories, u.categories) && SameItems(t.timestamps, u.timestamps)
  }

  lemma TallyReordered(fs: seq<Facts>, gs: seq<Facts>)
    requires SameItems(fs, gs)
    ensures SameTally(TallyOf(fs), TallyOf(gs))
  {
    SameItemsLength(fs, gs);
    FlatMapReordered((g: Facts) => Flag(g.agreed), fs, gs);
    FlatMapReordered(Counterparties, fs, gs);
    FlatMapReordered(ConcessionsIn, fs, gs);
    FlatMapReordered(Reasoned, fs, gs);
    FlatMapReordered((g: Facts) => Flag(g.fulfilled.Some?), fs, gs);
    FlatMapReordered((g: Facts) => Flag(g.fulfilled == Some(true)), fs, gs);
    FlatMapReordered((g: Facts) => Few(g.category), fs, gs);
    FlatMapReordered((g: Facts) => Few(g.timestamp), fs, gs);
  }

  lemma SummaryReordered(round: Rounding, t: Tally, u: Tally)
    requires SameTally(t, u) && Settled(t.concessions)
    ensures SummaryOf(round, t) == SummaryOf(round, u)
  {
    SameItemsLength(t.agreed, u.agreed);
    SameItemsLength(t.concessions, u.concessions);
    SameItemsLength(t.reasoned, u.reasoned);
    SameItemsLength(t.rated, u.rated);
    SameItemsLength(t.fulfilled, u.fulfilled);
    SettledReordered(t.concessions, u.concessions);
    DistinctReordered(t.counterparties, u.counterparties);
    DistinctReordered(t.categories, u.categories);
    SortIdsReordered(Distinct(t.categories), Distinct(u.categories));
    SortIdsReordered(t.timestamps, u.timestamps);
  }

  /** The concession magnitudes have one sum in every order; magnitudes of one sign always have. */
  ghost predicate ConcessionsSettled(agent: Text, atts: seq<Attestation>) {
    AllFacts(agent, atts).Some? ==> Settled(TallyOf(AllFacts(agent, atts).value).concessions)
  }

  /** The summary does not depend on the order of the attestations. */
  lemma SummarizeReordered(round: Rounding, agent: Text, atts: seq<Attestation>, others: seq<Attestation>)
    requires SameItems(atts, others) && ConcessionsSettled(agent, atts)
    ensures Summarize(round, agent, atts) == Summarize(round, agent, others)
  {
    EachPermuted(a => FactsOf(agent, a), atts, others);
    assert AllFacts(agent, atts).Some? == AllFacts(agent, others).Some?;
    if AllFacts(agent, atts).Some? {
      TallyReordered(AllFacts(agent, atts).value, AllFacts(agent, others).value);
      SummaryReordered(round, TallyOf(AllFacts(agent, atts).value), TallyOf(AllFacts(agent, others).value));
    }
  }
}
