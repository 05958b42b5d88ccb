/** Matching of wants and haves (`concordia/want_registry.py`). */
module Matching {
  import opened Wrappers
  import opened Unicode
  import opened Numbers
  import opened PythonValues
  import opened FloatRange
  import Negotiation

  /** `str.lower`, and the great-circle distance in kilometres. */
  datatype Tools = Tools(lower: Text -> Text, distance: (real, real, real, real) -> real)

  ghost predicate NonNegativeDistance(tools: Tools) {
    forall a: real, b: real, c: real, d: real :: tools.distance(a, b, c, d) >= 0.0
  }

  type Terms = map<Text, Json>

  const MAX: Text := Lit("max")
  const MIN: Text := Lit("min")
  const VALUE: Text := Lit("value")
  const ENUM: Text := Lit("enum")
  const MATCH: Text := Lit("match")
  const CURRENCY: Text := Lit("currency")
  const LAT: Text := Lit("lat")
  const LNG: Text := Lit("lng")
  const COORDINATES: Text := Lit("coordinates")
  const OF: Text := Lit("of")
  const WITHIN_KM: Text := Lit("within_km")

  // ---------------------------------------------------------------- categories

  predicate StartsWith(t: Text, prefix: Text) {
    |prefix| <= |t| && t[..|prefix|] == prefix
  }

  /** `categories_compatible` */
  predicate CategoriesCompatible(want: Text, have: Text) {
    want == have || StartsWith(want, have + ['.' as int]) || StartsWith(have, want + ['.' as int])
  }

  // ---------------------------------------------------------------- values

  /** Python's `==`, which compares numbers and truth values across their types. */
  predicate PyEqual(a: Json, b: Json)
    decreases a
  {
    match (a, b)
    case (Null, Null) => true
    case (Str(x), Str(y)) => x == y
    case (Arr(t, xs), Arr(u, ys)) =>
      t == u && |xs| == |ys| && forall i :: 0 <= i < |xs| ==> PyEqual(xs[i], ys[i])
    case (Obj(xs), Obj(ys)) =>
      |xs| == |ys| && forall i :: 0 <= i < |xs| ==>
        Get(ys, xs[i].key).Some? && PyEqual(xs[i].value, Get(ys, xs[i].key).value)
    case (Time(x), Time(y)) => x == y
    case _ => Negotiation.Numeric(a).Some? && Negotiation.Numeric(a) == Negotiation.Numeric(b)
  }

  function NumberAt(ms: seq<Member>, key: Text): Option<real> {
    var v :- Get(ms, key);
    Negotiation.PlainNumber(v)
  }

  /** The number is an int that no float holds. */
  predicate TooLargeAt(ms: seq<Member>, key: Text) {
    Get(ms, key).Some? && Negotiation.TooLarge(Get(ms, key).value)
  }

  predicate IntAt(ms: seq<Member>, key: Text) {
    Get(ms, key).Some? && Negotiation.IsInt(Get(ms, key).value)
  }

  /** `_condition_rank`; `None` for a value that is no string. */
  function ConditionRank(tools: Tools, j: Json): Option<int> {
    match j
    case Str(t) =>
      var l := tools.lower(t);
      Some(if l == Lit("poor") then 0
           else if l == Lit("fair") then 1
           else if l == Lit("good") then 2
           else if l == Lit("like_new") then 3
           else if l == Lit("new") then 4
           else -1)
    case _ => None
  }

  // ---------------------------------------------------------------- one term

  datatype Overlap =
    | Range(lo: real, hi: real, currency: Option<Json>)
    | Condition(value: Option<Json>, meetsMinimum: Option<bool>)
    | Fuzzy(want: Json, have: Json)
    | Same(both: Json)
    | Different(want: Json, have: Json)
    | Unrecognised(want: Json, have: Json)

  /** What one shared key does: nothing, end the matching, raise, or contribute. */
  datatype Outcome = Skip | Conflict | Raises | Scored(overlap: Overlap, score: real)

  function MinReal(a: real, b: real): real {
    if a <= b then a else b
  }

  function MaxReal(a: real, b: real): real {
    if a >= b then a else b
  }

  /** `a or b` for two optional members. */
  function FirstTruthy(a: Option<Json>, b: Option<Json>): Option<Json> {
    if a.Some? && Negotiation.Truthy(a.value) then a
    else if b.Some? && Negotiation.Truthy(b.value) then b
    else None
  }

  function PriceOutcome(wt: seq<Member>, ht: seq<Member>, hi: real, lo: real): Outcome {
    if hi < lo then Conflict
    else if SpreadOverflows(wt, ht, hi, lo) then Raises
    else
      Scored(Range(lo, hi, FirstTruthy(Get(wt, CURRENCY), Get(ht, CURRENCY))),
             1.0 - MinReal((hi - lo) / MaxReal(hi, 1.0), 1.0) * 0.5)
  }

  /** The quotient of the spread and the span raises: a quotient of ints, or an int beside a float, is out of range. */
  predicate SpreadOverflows(wt: seq<Member>, ht: seq<Member>, hi: real, lo: real) {
    if IntAt(wt, MAX) && IntAt(ht, MIN) then !InFloatRange((hi - lo) / MaxReal(hi, 1.0))
    else TooLargeAt(wt, MAX) || TooLargeAt(ht, MIN)
  }

  function OrEmpty(j: Option<Json>): Json {
    match j
    case Some(v) => v
    case None => Str([])
  }

  function ConditionOutcome(tools: Tools, wanted: Json, value: Option<Json>): Outcome {
    match (ConditionRank(tools, wanted), ConditionRank(tools, OrEmpty(value)))
    case (Some(w), Some(h)) =>
      if w >= 0 && h >= 0 then
        if h >= w then Scored(Condition(value, Some(true)), MinReal(1.0, h as real / MaxReal(w as real, 1.0)))
        else Conflict
      else Scored(Condition(value, None), 0.5)
    case _ => Raises
  }

  predicate IsFuzzy(ms: seq<Member>) {
    Get(ms, MATCH) == Some(Str(Lit("fuzzy")))
  }

  /** The branches of `compute_term_overlap` for one shared key. */
  function TermOutcome(tools: Tools, wt: Json, ht: Json): Outcome {
    if !wt.Obj? || !ht.Obj? then Skip
    else
      var w, h := wt.members, ht.members;
      match (NumberAt(w, MAX), NumberAt(h, MIN))
      case (Some(hi), Some(lo)) => PriceOutcome(w, h, hi, lo)
      case _ =>
        if Get(w, MIN).Some? && (Get(h, VALUE).Some? || Get(w, ENUM).Some?) then
          ConditionOutcome(tools, Get(w, MIN).value, Get(h, VALUE))
        else if IsFuzzy(w) || IsFuzzy(h) then
          Scored(Fuzzy(OrEmpty(Get(w, VALUE)), OrEmpty(Get(h, VALUE))), 0.7)
        else if Get(w, VALUE).Some? && Get(h, VALUE).Some? then
          if PyEqual(Get(w, VALUE).value, Get(h, VALUE).value) then Scored(Same(Get(w, VALUE).value), 1.0)
          else Scored(Different(Get(w, VALUE).value, Get(h, VALUE).value), 0.3)
        else Scored(Unrecognised(wt, ht), 0.5)
  }

  lemma PriceScoreInUnit(wt: seq<Member>, ht: seq<Member>, hi: real, lo: real)
    ensures PriceOutcome(wt, ht, hi, lo).Scored? ==> 0.5 <= PriceOutcome(wt, ht, hi, lo).score <= 1.0
  {
    if hi >= lo {
      QuotientNonNegative(hi - lo, MaxReal(hi, 1.0));
    }
  }

  lemma QuotientNonNegative(a: real, b: real)
    requires a >= 0.0 && b > 0.0
    ensures a / b >= 0.0
  {
  }

  lemma ConditionScoreInUnit(tools: Tools, wanted: Json, value: Option<Json>)
    ensures var o := ConditionOutcome(tools, wanted, value); o.Scored? ==> 0.0 <= o.score <= 1.0
  {
    match (ConditionRank(tools, wanted), ConditionRank(tools, OrEmpty(value)))
    case (Some(w), Some(h)) =>
      if h >= 0 {
        QuotientNonNegative(h as real, MaxReal(w as real, 1.0));
      }
    case _ =>
  }

  lemma TermScoreInUnit(tools: Tools, wt: Json, ht: Json)
    ensures TermOutcome(tools, wt, ht).Scored? ==> 0.0 <= TermOutcome(tools, wt, ht).score <= 1.0
  {
    if wt.Obj? && ht.Obj? {
      var w, h := wt.members, ht.members;
      if NumberAt(w, MAX).Some? && NumberAt(h, MIN).Some? {
        PriceScoreInUnit(w, h, NumberAt(w, MAX).value, NumberAt(h, MIN).value);
      } else if Get(w, MIN).Some? {
        ConditionScoreInUnit(tools, Get(w, MIN).value, Get(h, VALUE));
      }
    }
  }

  // ---------------------------------------------------------------- all terms

  /** The outcomes of the shared keys. */
  type Outcomes = map<Text, Outcome>

  ghost predicate Conflicting(os: Outcomes) {
    exists k :: k in os && os[k] == Conflict
  }

  ghost predicate Raising(os: Outcomes) {
    exists k :: k in os && os[k] == Raises
  }

  function ScoredKeys(os: Outcomes, keys: set<Text>): set<Text>
    requires keys <= os.Keys
  {
    set k | k in keys && os[k].Scored?
  }

  function Overlaps(os: Outcomes, keys: set<Text>): map<Text, Overlap>
    requires keys <= os.Keys
  {
    map k | k in ScoredKeys(os, keys) :: os[k].overlap
  }

  function ScoreOf(o: Outcome): real {
    if o.Scored? then o.score else 0.0
  }

  ghost function ScoreSum(os: Outcomes, keys: set<Text>): real
    requires keys <= os.Keys
  {
    if keys == {} then 0.0
    else
      var k :| k in keys;
      ScoreOf(os[k]) + ScoreSum(os, keys - {k})
  }

  lemma {:induction false} ScoreSumSplit(os: Outcomes, keys: set<Text>, k: Text)
    requires keys <= os.Keys && k in keys
    ensures ScoreSum(os, keys) == ScoreOf(os[k]) + ScoreSum(os, keys - {k})
  {
    var x :| x in keys && ScoreSum(os, keys) == ScoreOf(os[x]) + ScoreSum(os, keys - {x});
    if x != k {
      ScoreSumSplit(os, keys - {x}, k);
      ScoreSumSplit(os, keys - {k}, x);
      assert keys - {x} - {k} == keys - {k} - {x};
    }
  }

  function MeanScore(total: real, count: nat): real {
    total / MaxReal(count as real, 1.0)
  }

  /** The score when nothing conflicts: the mean of the term scores, an unmatched key counting 0.4. */
  ghost function FinalScore(os: Outcomes, unmatched: nat): real {
    MeanScore(ScoreSum(os, os.Keys) + 0.4 * unmatched as real, |ScoredKeys(os, os.Keys)| + unmatched)
  }

  /** What `compute_term_overlap` returns. */
  datatype TermMatch = TermMatch(overlaps: map<Text, Overlap>, score: real)

  /** The possible results of `compute_term_overlap`, which goes through a set of keys. */
  ghost predicate TermResult(os: Outcomes, unmatched: nat, r: Option<TermMatch>) {
    && (r.None? ==> Raising(os))
    && (r.Some? ==> Conflicting(os) || !Raising(os))
    && (r.Some? && Conflicting(os) ==> r.value == TermMatch(map[], 0.0))
    && (r.Some? && !Conflicting(os) ==> r.value == TermMatch(Overlaps(os, os.Keys), FinalScore(os, unmatched)))
  }

  /** The accumulators after the keys in `done`, none of which ended the loop. */
  ghost predicate Folded(os: Outcomes, done: set<Text>, overlaps: map<Text, Overlap>, total: real, count: nat) {
    && done <= os.Keys && (forall k :: k in done ==> os[k] != Conflict && os[k] != Raises)
    && overlaps == Overlaps(os, done) && total == ScoreSum(os, done) && count == |ScoredKeys(os, done)|
  }

  lemma FoldKey(os: Outcomes, done: set<Text>, key: Text, overlaps: map<Text, Overlap>, total: real, count: nat)
    requires Folded(os, done, overlaps, total, count) && key in os && key !in done
    ensures os[key] == Skip ==> Folded(os, done + {key}, overlaps, total, count)
    ensures os[key].Scored? ==>
              Folded(os, done + {key}, overlaps[key := os[key].overlap], total + os[key].score, count + 1)
  {
    AddKey(os, done, key);
  }

  lemma FoldedAll(os: Outcomes, unmatched: nat, overlaps: map<Text, Overlap>, total: real, count: nat)
    requires Folded(os, os.Keys, overlaps, total, count)
    ensures TermResult(os, unmatched,
                       Some(TermMatch(overlaps, MeanScore(total + 0.4 * unmatched as real, count + unmatched))))
  {
  }

  /** The loop over shared keys, in whatever order the set gives them. */
  method FoldOutcomes(os: Outcomes, unmatched: nat) returns (r: Option<TermMatch>)
    ensures TermResult(os, unmatched, r)
  {
    var todo := os.Keys;
    var overlaps: map<Text, Overlap> := map[];
    var total, count := 0.0, 0;
    ghost var done: set<Text> := {};
    while todo != {}
      invariant todo <= os.Keys && done == os.Keys - todo
      invariant Folded(os, done, overlaps, total, count)
      decreases |todo|
    {
      var key :| key in todo;
      FoldKey(os, done, key, overlaps, total, count);
      match os[key] {
        case Conflict =>
          return Some(TermMatch(map[], 0.0));
        case Raises =>
          return None;
        case Skip =>
        case Scored(overlap, score) =>
          overlaps := overlaps[key := overlap];
          total := total + score;
          count := count + 1;
      }
      todo := todo - {key};
      done := done + {key};
    }
    assert done == os.Keys;
    FoldedAll(os, unmatched, overlaps, total, count);
    return Some(TermMatch(overlaps, MeanScore(total + 0.4 * unmatched as real, count + unmatched)));
  }

  lemma AddedSum(os: Outcomes, done: set<Text>, key: Text)
    requires done <= os.Keys && key in os && key !in done
    ensures ScoreSum(os, done + {key}) == ScoreSum(os, done) + ScoreOf(os[key])
  {
    ScoreSumSplit(os, done + {key}, key);
    assert done + {key} - {key} == done;
  }

  lemma AddedKeys(os: Outcomes, done: set<Text>, key: Text)
    requires done <= os.Keys && key in os && key !in done
    ensures ScoredKeys(os, done + {key}) == ScoredKeys(os, done) + (if os[key].Scored? then {key} else {})
    ensures |ScoredKeys(os, done + {key})| == |ScoredKeys(os, done)| + (if os[key].Scored? then 1 else 0)
  {
    assert key !in ScoredKeys(os, done);
  }

  lemma AddKey(os: Outcomes, done: set<Text>, key: Text)
    requires done <= os.Keys && key in os && key !in done
    ensures var more := done + {key};
            && ScoreSum(os, more) == ScoreSum(os, done) + ScoreOf(os[key])
            && |ScoredKeys(os, more)| == |ScoredKeys(os, done)| + (if os[key].Scored? then 1 else 0)
            && Overlaps(os, more) == if os[key].Scored? then Overlaps(os, done)[key := os[key].overlap]
               else Overlaps(os, done)
  {
    AddedSum(os, done, key);
    AddedKeys(os, done, key);
  }

  // ---------------------------------------------------------------- two entries

  datatype Pair = Pair(tools: Tools, want: Terms, have: Terms)

  function OutcomesOf(p: Pair): Outcomes {
    map k | k in p.want.Keys * p.have.Keys :: TermOutcome(p.tools, p.want[k], p.have[k])
  }

  function Unmatched(p: Pair): set<Text> {
    p.want.Keys + p.have.Keys - p.want.Keys * p.have.Keys
  }

  /** `compute_term_overlap` */
  method ComputeTermOverlap(p: Pair) returns (r: Option<TermMatch>)
    ensures TermResult(OutcomesOf(p), |Unmatched(p)|, r)
  {
    r := FoldOutcomes(OutcomesOf(p), |Unmatched(p)|);
  }

  /** Every term score is in [0, 1]. */
  ghost predicate UnitScores(os: Outcomes) {
    forall k :: k in os && os[k].Scored? ==> 0.0 <= os[k].score <= 1.0
  }

  lemma OutcomesInUnit(p: Pair)
    ensures UnitScores(OutcomesOf(p))
  {
    forall k | k in OutcomesOf(p)
      ensures OutcomesOf(p)[k].Scored? ==> 0.0 <= OutcomesOf(p)[k].score <= 1.0
    {
      TermScoreInUnit(p.tools, p.want[k], p.have[k]);
    }
  }

  // ---------------------------------------------------------------- the score

  lemma {:induction false} ScoreSumInRange(os: Outcomes, keys: set<Text>)
    requires keys <= os.Keys && UnitScores(os)
    ensures 0.0 <= ScoreSum(os, keys) <= |ScoredKeys(os, keys)| as real
    ensures ScoreSum(os, keys) == 0.0 <==> forall k :: k in keys ==> ScoreOf(os[k]) == 0.0
  {
    if keys != {} {
      var k :| k in keys;
      var rest := keys - {k};
      ScoreSumInRange(os, rest);
      ScoreSumSplit(os, keys, k);
      AddKey(os, rest, k);
      assert rest + {k} == keys;
    }
  }

  lemma QuotientAtMostOne(a: real, b: real)
    requires 0.0 <= a <= b && b > 0.0
    ensures 0.0 <= a / b <= 1.0 && (a / b == 0.0 <==> a == 0.0)
  {
    QuotientNonNegative(a, b);
    QuotientNonNegative(b - a, b);
    assert a / b + (b - a) / b == 1.0;
    assert a / b * b == a;
  }

  lemma MeanInUnit(total: real, count: nat)
    requires 0.0 <= total <= count as real
    ensures 0.0 <= MeanScore(total, count) <= 1.0
    ensures MeanScore(total, count) == 0.0 <==> total == 0.0
  {
    QuotientAtMostOne(total, MaxReal(count as real, 1.0));
  }

  lemma WithUnmatched(total: real, scored: nat, unmatched: nat)
    requires 0.0 <= total <= scored as real
    ensures 0.0 <= total + 0.4 * unmatched as real <= (scored + unmatched) as real
    ensures total + 0.4 * unmatched as real == 0.0 <==> total == 0.0 && unmatched == 0
  {
  }

  /** The score of any outcomes is in [0, 1], and zero exactly when everything in it is zero. */
  lemma ScoreInUnit(os: Outcomes, unmatched: nat)
    requires UnitScores(os)
    ensures 0.0 <= FinalScore(os, unmatched) <= 1.0
    ensures FinalScore(os, unmatched) == 0.0 <==> unmatched == 0 && forall k :: k in os ==> ScoreOf(os[k]) == 0.0
  {
    ScoreSumInRange(os, os.Keys);
    var total, scored := ScoreSum(os, os.Keys), |ScoredKeys(os, os.Keys)|;
    WithUnmatched(total, scored, unmatched);
    MeanInUnit(total + 0.4 * unmatched as real, scored + unmatched);
  }

  // ---------------------------------------------------------------- raising terms

  /** The term pair is compared as a condition. */
  predicate ComparesConditions(w: seq<Member>, h: seq<Member>) {
    && (NumberAt(w, MAX).None? || NumberAt(h, MIN).None?)
    && Get(w, MIN).Some? && (Get(h, VALUE).Some? || Get(w, ENUM).Some?)
  }

  /** A condition that is no string. */
  predicate OddCondition(w: seq<Member>, h: seq<Member>) {
    ComparesConditions(w, h) && !(Get(w, MIN).value.Str? && OrEmpty(Get(h, VALUE)).Str?)
  }

  /** Prices that overlap, and whose relative spread no float holds. */
  predicate OddPrices(w: seq<Member>, h: seq<Member>) {
    && NumberAt(w, MAX).Some? && NumberAt(h, MIN).Some? && NumberAt(w, MAX).value >= NumberAt(h, MIN).value
    && SpreadOverflows(w, h, NumberAt(w, MAX).value, NumberAt(h, MIN).value)
  }

  /** A term raises exactly when a condition compared is no string, or prices are too far apart for a float. */
  lemma RaisesIff(tools: Tools, wt: Json, ht: Json)
    ensures TermOutcome(tools, wt, ht) == Raises <==>
            wt.Obj? && ht.Obj? && (OddCondition(wt.members, ht.members) || OddPrices(wt.members, ht.members))
  {
  }

  /** No shared term has an odd condition or odd prices. */
  predicate OrdinaryTerms(p: Pair) {
    forall k :: k in p.want && k in p.have && p.want[k].Obj? && p.have[k].Obj? ==>
      !OddCondition(p.want[k].members, p.have[k].members) && !OddPrices(p.want[k].members, p.have[k].members)
  }

  lemma OrdinaryNeverRaise(p: Pair)
    ensures OrdinaryTerms(p) <==> !Raising(OutcomesOf(p))
  {
    forall k | k in p.want && k in p.have
      ensures k in OutcomesOf(p)
      ensures OutcomesOf(p)[k] == Raises <==>
              && p.want[k].Obj? && p.have[k].Obj?
              && (OddCondition(p.want[k].members, p.have[k].members) || OddPrices(p.want[k].members, p.have[k].members))
    {
      RaisesIff(p.tools, p.want[k], p.have[k]);
    }
  }

  /** For ordinary terms the result is one in every order of keys, and scores in [0, 1]. */
  lemma TermResultUnique(p: Pair, r: Option<TermMatch>, s: Option<TermMatch>)
    requires OrdinaryTerms(p)
    requires TermResult(OutcomesOf(p), |Unmatched(p)|, r) && TermResult(OutcomesOf(p), |Unmatched(p)|, s)
    ensures r.Some? && r == s && 0.0 <= r.value.score <= 1.0
  {
    OrdinaryNeverRaise(p);
    ResultInUnit(p, r);
  }

  lemma ResultInUnit(p: Pair, r: Option<TermMatch>)
    requires TermResult(OutcomesOf(p), |Unmatched(p)|, r)
    ensures r.Some? ==> 0.0 <= r.value.score <= 1.0
  {
    OutcomesInUnit(p);
    ScoreInUnit(OutcomesOf(p), |Unmatched(p)|);
  }

  // ---------------------------------------------------------------- compatible terms that score zero

  /** A pair of terms that is not compared at all, or a condition of rank zero on both sides. */
  predicate ContributesNothing(tools: Tools, wt: Json, ht: Json) {
    || !wt.Obj? || !ht.Obj?
    || (ComparesConditions(wt.members, ht.members)
        && ConditionRank(tools, Get(wt.members, MIN).value) == Some(0)
        && ConditionRank(tools, OrEmpty(Get(ht.members, VALUE))) == Some(0))
  }

  lemma RankScoreZeroIff(w: int, h: int)
    requires 0 <= w <= h
    ensures MinReal(1.0, h as real / MaxReal(w as real, 1.0)) == 0.0 <==> h == 0
  {
    var b := MaxReal(w as real, 1.0);
    QuotientNonNegative(h as real, b);
    assert h as real / b * b == h as real;
  }

  lemma ConditionZeroIff(tools: Tools, wanted: Json, value: Option<Json>)
    ensures var o := ConditionOutcome(tools, wanted, value);
            o.Scored? ==>
              (o.score == 0.0 <==>
               ConditionRank(tools, wanted) == Some(0) && ConditionRank(tools, OrEmpty(value)) == Some(0))
  {
    match (ConditionRank(tools, wanted), ConditionRank(tools, OrEmpty(value)))
    case (Some(w), Some(h)) =>
      if 0 <= w <= h {
        RankScoreZeroIff(w, h);
      }
    case _ =>
  }

  lemma TermZeroIff(tools: Tools, wt: Json, ht: Json)
    requires TermOutcome(tools, wt, ht) != Conflict && TermOutcome(tools, wt, ht) != Raises
    ensures ScoreOf(TermOutcome(tools, wt, ht)) == 0.0 <==> ContributesNothing(tools, wt, ht)
  {
    if wt.Obj? && ht.Obj? {
      var w, h := wt.members, ht.members;
      if NumberAt(w, MAX).Some? && NumberAt(h, MIN).Some? {
        PriceScoreInUnit(w, h, NumberAt(w, MAX).value, NumberAt(h, MIN).value);
      } else if ComparesConditions(w, h) {
        ConditionZeroIff(tools, Get(w, MIN).value, Get(h, VALUE));
      }
    }
  }

  /** The two entries have the same keys, and no key contributes to the score. */
  predicate NothingScored(p: Pair) {
    p.want.Keys == p.have.Keys && forall k :: k in p.want && k in p.have ==>
        ContributesNothing(p.tools, p.want[k], p.have[k])
  }

  /** Exactly which terms score zero though nothing in them conflicts. */
  lemma ZeroScoreIff(p: Pair)
    requires !Conflicting(OutcomesOf(p)) && !Raising(OutcomesOf(p))
    ensures FinalScore(OutcomesOf(p), |Unmatched(p)|) == 0.0 <==> NothingScored(p)
  {
    var os := OutcomesOf(p);
    OutcomesInUnit(p);
    ScoreInUnit(os, |Unmatched(p)|);
    assert |Unmatched(p)| == 0 <==> p.want.Keys == p.have.Keys by {
      if |Unmatched(p)| == 0 {
        assert Unmatched(p) == {};
        assert forall k :: k in p.want.Keys + p.have.Keys ==> k !in Unmatched(p);
      }
    }
    forall k | k in p.want && k in p.have
      ensures k in os && (ScoreOf(os[k]) == 0.0 <==> ContributesNothing(p.tools, p.want[k], p.have[k]))
    {
      assert os[k] != Conflict && os[k] != Raises;
      TermZeroIff(p.tools, p.want[k], p.have[k]);
    }
  }

  // ---------------------------------------------------------------- locations

  type Location = Option<seq<Member>>

  /** Coordinates, if there are any and `float` takes them. */
  datatype Coords = Nowhere | At(lat: real, lng: real) | NoFloat

  /** `_extract_coords` */
  function ExtractCoords(loc: seq<Member>): Coords {
    var candidate :=
      if Get(loc, COORDINATES).Some? then Get(loc, COORDINATES).value
      else if Get(loc, OF).Some? then Get(loc, OF).value
      else if Get(loc, LAT).Some? && Get(loc, LNG).Some? then Obj(loc)
      else Null;
    if !candidate.Obj? then Nowhere
    else
      match (NumberAt(candidate.members, LAT), NumberAt(candidate.members, LNG))
      case (Some(lat), Some(lng)) =>
        if TooLargeAt(candidate.members, LAT) || TooLargeAt(candidate.members, LNG) then NoFloat else At(lat, lng)
      case _ => Nowhere
  }

  /** `locations_compatible`; `None` when it raises. */
  function LocationsCompatible(tools: Tools, want: Location, have: Location): Option<(bool, Option<real>)> {
    if want.None? || have.None? then Some((true, None))
    else
      match (ExtractCoords(want.value), ExtractCoords(have.value))
      case (NoFloat, _) => None
      case (_, NoFloat) => None
      case (At(wlat, wlng), At(hlat, hlng)) =>
        var dist := tools.distance(wlat, wlng, hlat, hlng);
        (match NumberAt(want.value, WITHIN_KM)
         case Some(radius) => Some((dist <= radius, Some(dist)))
         case None => Some((true, Some(dist))))
      case _ => Some((true, None))
  }

  // ---------------------------------------------------------------- matches

  /** A Want or a Have. */
  datatype Entry = Entry(agent: Text, category: Text, terms: Terms, location: Location, expiresAt: int)

  predicate IsExpired(e: Entry, now: int) {
    now > e.expiresAt
  }

  datatype MatchResult =
    | NoMatch
    | MatchRaises
    | Found(overlaps: map<Text, Overlap>, distance: Option<real>, score: real)

  predicate Eligible(want: Entry, have: Entry, now: int) {
    && CategoriesCompatible(want.category, have.category) && want.agent != have.agent
    && !IsExpired(want, now) && !IsExpired(have, now)
  }

  /** `compute_match` once the terms are compared. */
  function Finish(tools: Tools, want: Entry, have: Entry, r: Option<TermMatch>): MatchResult {
    match r
    case None => MatchRaises
    case Some(tm) =>
      if tm.score == 0.0 then NoMatch
      else
        match LocationsCompatible(tools, want.location, have.location)
        case None => MatchRaises
        case Some((ok, distance)) =>
          if !ok then NoMatch
          else if distance.Some? && RadiusTooLarge(want.location) then MatchRaises
          else Found(tm.overlaps, distance, Adjusted(tm.score, want.location, distance))
  }

  /** Dividing a distance by the radius raises. */
  predicate RadiusTooLarge(want: Location) {
    && want.Some? && NumberAt(want.value, WITHIN_KM).Some? && NumberAt(want.value, WITHIN_KM).value > 0.0
    && TooLargeAt(want.value, WITHIN_KM)
  }

  /** Coordinates and radius that floats hold. */
  predicate OrdinaryLocation(loc: Location) {
    loc.Some? ==> !ExtractCoords(loc.value).NoFloat? && !RadiusTooLarge(loc)
  }

  /** The score, moved towards the proximity when there is a radius. */
  function Adjusted(score: real, want: Location, distance: Option<real>): real {
    if distance.None? || want.None? then score
    else
      match NumberAt(want.value, WITHIN_KM)
      case Some(radius) =>
        if radius > 0.0 then score * 0.8 + (1.0 - distance.value / radius) * 0.2 else score
      case None => score
  }

  /** The possible results of `compute_match`. */
  ghost predicate MatchPossible(tools: Tools, want: Entry, have: Entry, now: int, m: MatchResult) {
    var p := Pair(tools, want.terms, have.terms);
    if !Eligible(want, have, now) then m == NoMatch
    else
      exists r: Option<TermMatch> ::
        TermResult(OutcomesOf(p), |Unmatched(p)|, r) && m == Finish(tools, want, have, r)
  }

  /** `compute_match` */
  method ComputeMatch(tools: Tools, want: Entry, have: Entry, now: int) returns (m: MatchResult)
    ensures MatchPossible(tools, want, have, now, m)
  {
    if !CategoriesCompatible(want.category, have.category) {
      return NoMatch;
    }
    if want.agent == have.agent {
      return NoMatch;
    }
    if IsExpired(want, now) || IsExpired(have, now) {
      return NoMatch;
    }
    var r := ComputeTermOverlap(Pair(tools, want.terms, have.terms));
    return Finish(tools, want, have, r);
  }

  lemma ProximityInUnit(score: real, dist: real, radius: real)
    requires 0.0 < score <= 1.0 && 0.0 <= dist <= radius && radius > 0.0
    ensures 0.0 < score * 0.8 + (1.0 - dist / radius) * 0.2 <= 1.0
  {
    QuotientAtMostOne(dist, radius);
  }

  /** Every match scores in (0, 1], proximity included. */
  lemma MatchScoreInUnit(tools: Tools, want: Entry, have: Entry, now: int, m: MatchResult)
    requires NonNegativeDistance(tools) && MatchPossible(tools, want, have, now, m) && m.Found?
    ensures 0.0 < m.score <= 1.0
  {
    var p := Pair(tools, want.terms, have.terms);
    var r: Option<TermMatch> :| TermResult(OutcomesOf(p), |Unmatched(p)|, r) && m == Finish(tools, want, have, r);
    ResultInUnit(p, r);
    FinishInUnit(tools, want, have, r);
  }

  lemma FinishInUnit(tools: Tools, want: Entry, have: Entry, r: Option<TermMatch>)
    requires NonNegativeDistance(tools) && r.Some? && 0.0 <= r.value.score <= 1.0 && Finish(tools, want, have, r).Found?
    ensures 0.0 < Finish(tools, want, have, r).score <= 1.0
  {
    var distance := LocationsCompatible(tools, want.location, have.location).value.1;
    if distance.Some? && want.location.Some? && NumberAt(want.location.value, WITHIN_KM).Some? {
      var radius := NumberAt(want.location.value, WITHIN_KM).value;
      if radius > 0.0 {
        ProximityInUnit(r.value.score, distance.value, radius);
      }
    }
  }

  /** For ordinary terms `compute_match` has one result, and does not raise if the locations are ordinary too. */
  lemma MatchUnique(tools: Tools, want: Entry, have: Entry, now: int, m: MatchResult, n: MatchResult)
    requires OrdinaryTerms(Pair(tools, want.terms, have.terms))
    requires MatchPossible(tools, want, have, now, m) && MatchPossible(tools, want, have, now, n)
    ensures m == n
    ensures OrdinaryLocation(want.location) && OrdinaryLocation(have.location) ==> m != MatchRaises
  {
    if Eligible(want, have, now) {
      var p := Pair(tools, want.terms, have.terms);
      var r: Option<TermMatch> :| TermResult(OutcomesOf(p), |Unmatched(p)|, r) && m == Finish(tools, want, have, r);
      var s: Option<TermMatch> :| TermResult(OutcomesOf(p), |Unmatched(p)|, s) && n == Finish(tools, want, have, s);
      TermResultUnique(p, r, s);
    }
  }

  /** An int that no float holds as radius makes every comparison raise that gets to the distance. */
  lemma HugeRadiusRaises(tools: Tools, want: Entry, have: Entry, now: int, m: MatchResult)
    requires OrdinaryTerms(Pair(tools, want.terms, have.terms)) && MatchPossible(tools, want, have, now, m)
    requires Eligible(want, have, now) && want.location.Some? && have.location.Some?
    requires ExtractCoords(want.location.value).At? && ExtractCoords(have.location.value).At?
    requires NumberAt(want.location.value, WITHIN_KM).Some? && TooLargeAt(want.location.value, WITHIN_KM)
    requires var w, h := ExtractCoords(want.location.value), ExtractCoords(have.location.value);
             0.0 <= tools.distance(w.lat, w.lng, h.lat, h.lng) < FLOAT_LIMIT as real
    requires NumberAt(want.location.value, WITHIN_KM).value > 0.0
    ensures m == MatchRaises || m == NoMatch
    ensures var p := Pair(tools, want.terms, have.terms);
            !Conflicting(OutcomesOf(p)) && !NothingScored(p) ==> m == MatchRaises
  {
    var p := Pair(tools, want.terms, have.terms);
    var r: Option<TermMatch> :| TermResult(OutcomesOf(p), |Unmatched(p)|, r) && m == Finish(tools, want, have, r);
    OrdinaryNeverRaise(p);
    if !Conflicting(OutcomesOf(p)) && !NothingScored(p) {
      ZeroScoreIff(p);
    }
  }

  // ---------------------------------------------------------------- compatible entries that do not match

  /** Terms without any score never match, whatever else fits. */
  lemma NothingScoredNeverMatches(tools: Tools, want: Entry, have: Entry, now: int, m: MatchResult)
    requires var p := Pair(tools, want.terms, have.terms);
             !Conflicting(OutcomesOf(p)) && !Raising(OutcomesOf(p)) && NothingScored(p)
    requires MatchPossible(tools, want, have, now, m)
    ensures m == NoMatch
  {
    if Eligible(want, have, now) {
      var p := Pair(tools, want.terms, have.terms);
      var r: Option<TermMatch> :| TermResult(OutcomesOf(p), |Unmatched(p)|, r) && m == Finish(tools, want, have, r);
      ZeroScoreIff(p);
    }
  }

  /** Two entries without terms never match. */
  lemma EmptyTermsNeverMatch(tools: Tools, want: Entry, have: Entry, now: int, m: MatchResult)
    requires want.terms == map[] && have.terms == map[]
    requires MatchPossible(tools, want, have, now, m)
    ensures m == NoMatch
  {
    NothingScoredNeverMatches(tools, want, have, now, m);
  }

  const POOR: Json := Str(Lit("poor"))

  lemma PoorTerm(tools: Tools)
    requires tools.lower(Lit("poor")) == Lit("poor")
    ensures var wt, ht := Obj([Member(MIN, POOR)]), Obj([Member(VALUE, POOR)]);
            TermOutcome(tools, wt, ht) == Scored(Condition(Some(POOR), Some(true)), 0.0)
                && ContributesNothing(tools, wt, ht)
  {
    var w, h := [Member(MIN, POOR)], [Member(VALUE, POOR)];
    assert w[1..] == [] && h[1..] == [];
    assert |MIN| == |MAX| == 3 && MIN[1] == 'i' as int && MAX[1] == 'a' as int && |VALUE| == 5;
    assert Get(w, MAX).None? && Get(w, MIN) == Some(POOR) && Get(h, VALUE) == Some(POOR);
    assert ConditionRank(tools, POOR) == Some(0);
    assert 0 as real / MaxReal(0 as real, 1.0) == 0.0;
  }

  /** A want of at least `poor` and a have in `poor` condition satisfy each other, and never match. */
  lemma PoorNeverMatchesPoor(tools: Tools, want: Entry, have: Entry, key: Text, now: int, m: MatchResult)
    requires tools.lower(Lit("poor")) == Lit("poor")
    requires want.terms == map[key := Obj([Member(MIN, POOR)])] && have.terms == map[key := Obj([Member(VALUE, POOR)])]
    requires MatchPossible(tools, want, have, now, m)
    ensures m == NoMatch
  {
    PoorTerm(tools);
    NothingScoredNeverMatches(tools, want, have, now, m);
  }

  // ---------------------------------------------------------------- prices too far apart

  /** A want of at most one and a have of at least an int that far below zero overlap, and raise. */
  lemma HugeSpreadRaises(tools: Tools, v: int)
    requires v >= FLOAT_LIMIT
    ensures TermOutcome(tools, Obj([Member(MAX, Num(Int(1)))]), Obj([Member(MIN, Num(Int(-v)))])) == Raises
  {
    var w, h := [Member(MAX, Num(Int(1)))], [Member(MIN, Num(Int(-v)))];
    LimitIsLarge();
    assert Get(w, MAX) == Some(Num(Int(1))) && Get(h, MIN) == Some(Num(Int(-v)));
    assert NumberAt(w, MAX) == Some(1.0) && NumberAt(h, MIN) == Some((-v) as real);
    assert (1.0 - (-v) as real) / MaxReal(1.0, 1.0) == 1.0 + v as real;
    RaisesIff(tools, Obj(w), Obj(h));
  }
}
