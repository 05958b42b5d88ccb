/** What makes a want and a have match: categories, terms and places, in plain relations. */
module MatchingMeaning {
  import opened Wrappers
  import Sequences
  import opened Unicode
  import opened RealValues
  import opened PythonValues
  import opened Matching
  import Negotiation
  import opened FloatRange
  import ConcessionMeaning
  import PredicateMeaning
  import Predicates
  import Registry

  // ---------------------------------------------------------------- categories

  /** The segments between the dots of a category. */
  function Segments(t: Text): seq<Text> {
    Predicates.Split(t)
  }

  lemma SplitCons(c: CodePoint, t: Text)
    ensures Segments([c] + t)
         == if c == '.' as int then [[]] + Segments(t) else [[c] + Segments(t)[0]] + Segments(t)[1..]
  {
    assert ([c] + t)[1..] == t;
  }

  lemma HeadAndTail(a: seq<Text>, b: seq<Text>)
    requires a != []
    ensures (a + b)[0] == a[0] && (a + b)[1..] == a[1..] + b
  {
  }

  lemma Regrouped(x: Text, a: seq<Text>, b: seq<Text>)
    ensures [x] + (a + b) == [x] + a + b
  {
  }

  lemma {:induction false} SplitConcat(s: Text, t: Text)
    ensures Segments(s + (['.' as int] + t)) == Segments(s) + Segments(t)
  {
    var more := ['.' as int] + t;
    if s == [] {
      assert s + more == more;
      SplitCons('.' as int, t);
    } else {
      assert s + more == [s[0]] + (s[1..] + more) && s == [s[0]] + s[1..];
      SplitConcat(s[1..], t);
      SplitCons(s[0], s[1..] + more);
      SplitCons(s[0], s[1..]);
      HeadAndTail(Segments(s[1..]), Segments(t));
      if s[0] == '.' as int {
        Regrouped([], Segments(s[1..]), Segments(t));
      } else {
        Regrouped([s[0]] + Segments(s[1..])[0], Segments(s[1..])[1..], Segments(t));
      }
    }
  }

  lemma {:induction false} DottedConcat(a: seq<Text>, b: seq<Text>)
    requires a != [] && b != []
    ensures PredicateMeaning.Dotted(a + b) == PredicateMeaning.Dotted(a) + ['.' as int] + PredicateMeaning.Dotted(b)
  {
    assert (a + b)[1..] == a[1..] + b;
    if |a| > 1 {
      DottedConcat(a[1..], b);
    } else {
      assert a[1..] + b == b;
    }
  }

  /** A category starts with another one and a dot exactly when it has that one's segments, and more. */
  lemma UnderIff(t: Text, prefix: Text)
    ensures StartsWith(t, prefix + ['.' as int]) <==> Segments(prefix) < Segments(t)
  {
    var p := prefix + ['.' as int];
    if StartsWith(t, p) {
      assert t == prefix + (['.' as int] + t[|p|..]);
      SplitConcat(prefix, t[|p|..]);
    }
    if Segments(prefix) < Segments(t) {
      var a, b := Segments(prefix), Segments(t)[|Segments(prefix)|..];
      assert Segments(t) == a + b;
      DottedConcat(a, b);
      PredicateMeaning.SplitIs(t);
      PredicateMeaning.SplitIs(prefix);
    }
  }

  lemma {:induction false} SegmentsInjective(s: Text, t: Text)
    requires Segments(s) == Segments(t)
    ensures s == t
  {
    PredicateMeaning.SplitIs(s);
    PredicateMeaning.SplitIs(t);
  }

  /** Categories fit exactly when one's segments begin with the other's. */
  lemma CategoriesIff(want: Text, have: Text)
    ensures CategoriesCompatible(want, have) <==> Segments(want) <= Segments(have) || Segments(have) <= Segments(want)
  {
    UnderIff(want, have);
    UnderIff(have, want);
    if Segments(want) == Segments(have) {
      SegmentsInjective(want, have);
    }
  }

  // ---------------------------------------------------------------- conditions

  /** The standard conditions, the worst first. */
  const CONDITIONS: seq<string> := ["poor", "fair", "good", "like_new", "new"]

  lemma ConditionsDiffer()
    ensures forall i, k :: 0 <= i < k < 5 ==> Lit(CONDITIONS[i]) != Lit(CONDITIONS[k])
  {
    assert |Lit("poor")| == |Lit("fair")| == |Lit("good")| == 4 && |Lit("like_new")| == 8 && |Lit("new")| == 3;
    assert Lit("poor")[0] == 'p' as int && Lit("fair")[0] == 'f' as int && Lit("good")[0] == 'g' as int;
  }

  /** The rank of a condition is its place among them; any other text has none. */
  lemma RankIff(tools: Tools, t: Text, k: nat)
    ensures k < 5 ==> (ConditionRank(tools, Str(t)) == Some(k) <==> tools.lower(t) == Lit(CONDITIONS[k]))
    ensures ConditionRank(tools, Str(t)) == Some(-1) <==>
            forall i :: 0 <= i < 5 ==> tools.lower(t) != Lit(CONDITIONS[i])
    ensures ConditionRank(tools, Str(t)).Some? && ConditionRank(tools, Str(t)).value < 5
  {
    ConditionsDiffer();
    assert CONDITIONS[0] == "poor" && CONDITIONS[1] == "fair" && CONDITIONS[2] == "good";
    assert CONDITIONS[3] == "like_new" && CONDITIONS[4] == "new";
  }

  // ---------------------------------------------------------------- one term

  /** The member is a number, and not a bool. */
  predicate NumberIn(ms: seq<Member>, key: string, x: real) {
    match Get(ms, Lit(key))
    case Some(Num(num)) => Reading(num) == Some(x)
    case _ => false
  }

  predicate Has(ms: seq<Member>, key: string) {
    Get(ms, Lit(key)).Some?
  }

  /** Wanted at most, offered at least. */
  predicate Prices(w: seq<Member>, h: seq<Member>, hi: real, lo: real) {
    NumberIn(w, "max", hi) && NumberIn(h, "min", lo)
  }

  predicate Priced(w: seq<Member>, h: seq<Member>) {
    NumberAt(w, MAX).Some? && NumberAt(h, MIN).Some?
  }

  lemma PricedIff(w: seq<Member>, h: seq<Member>)
    ensures Priced(w, h) <==> exists hi, lo :: Prices(w, h, hi, lo)
    ensures Priced(w, h) ==> Prices(w, h, NumberAt(w, MAX).value, NumberAt(h, MIN).value)
  {
    if Priced(w, h) {
      assert Prices(w, h, NumberAt(w, MAX).value, NumberAt(h, MIN).value);
    }
  }

  /** The share of the range that the spread takes, halved and taken off a full score. */
  predicate PriceScore(hi: real, lo: real, score: real) {
    var span := if hi >= 1.0 then hi else 1.0;
    if hi - lo >= span then score == 0.5 else 2.0 * (1.0 - score) * span == hi - lo
  }

  lemma Scaled(x: real, y: real)
    requires y > 0.0
    ensures x / y * y == x && (x >= y <==> x / y >= 1.0)
  {
    var q := x / y;
    assert q * y == x;
  }

  lemma PriceScoreIs(hi: real, lo: real)
    ensures PriceScore(hi, lo, 1.0 - MinReal((hi - lo) / MaxReal(hi, 1.0), 1.0) * 0.5)
  {
    Scaled(hi - lo, MaxReal(hi, 1.0));
  }

  /** Prices: a conflict exactly when the most that is paid is below the least that is asked. */
  lemma PriceTermIs(tools: Tools, w: seq<Member>, h: seq<Member>, hi: real, lo: real)
    requires Prices(w, h, hi, lo)
    ensures var o := TermOutcome(tools, Obj(w), Obj(h));
            && (o == Conflict <==> hi < lo) && o != Skip
            && (o.Scored? ==>
                  o.overlap.Range? && o.overlap.lo == lo && o.overlap.hi == hi && PriceScore(hi, lo, o.score))
  {
    PriceScoreIs(hi, lo);
  }

  /** The member is an int. */
  predicate WholeIn(ms: seq<Member>, key: string) {
    Has(ms, key) && Get(ms, Lit(key)).value.Num? && Get(ms, Lit(key)).value.num.Int?
  }

  /** The member is an int that no float holds. */
  predicate HugeIn(ms: seq<Member>, key: string) {
    WholeIn(ms, key) && !FitsFloat(Get(ms, Lit(key)).value.num.v)
  }

  lemma HugeIff(ms: seq<Member>, key: string, x: real)
    requires NumberIn(ms, key, x)
    ensures TooLargeAt(ms, Lit(key)) <==> HugeIn(ms, key)
    ensures IntAt(ms, Lit(key)) <==> WholeIn(ms, key)
  {
  }

  /**
   Prices that overlap raise exactly when both are ints whose spread is the float limit times
   the span or more, or when one is an int that no float holds beside a float.
   */
  lemma PricesRaiseIff(tools: Tools, w: seq<Member>, h: seq<Member>, hi: real, lo: real)
    requires Prices(w, h, hi, lo)
    ensures TermOutcome(tools, Obj(w), Obj(h)) == Raises <==>
            && hi >= lo
            && if WholeIn(w, "max") && WholeIn(h, "min")
               then ConcessionMeaning.AtLeast(hi - lo, FLOAT_LIMIT as real, if hi >= 1.0 then hi else 1.0)
               else HugeIn(w, "max") || HugeIn(h, "min")
  {
    HugeIff(w, "max", hi);
    HugeIff(h, "min", lo);
    if hi >= lo {
      ConcessionMeaning.OutOfRangeIff(hi - lo, MaxReal(hi, 1.0), FLOAT_LIMIT as real);
    }
  }

  /** The terms state a least condition, and there is something to hold against it. */
  predicate Conditions(w: seq<Member>, h: seq<Member>) {
    Has(w, "min") && (Has(h, "value") || Has(w, "enum"))
  }

  function ValueOrEmpty(h: seq<Member>): Json {
    match Get(h, Lit("value"))
    case Some(v) => v
    case None => Str([])
  }

  lemma RankScore(a: int, b: int)
    requires 0 <= a <= b
    ensures MinReal(1.0, b as real / MaxReal(a as real, 1.0)) == if b == 0 then 0.0 else 1.0
  {
    Scaled(b as real, MaxReal(a as real, 1.0));
  }

  /**
   Conditions: a conflict exactly when both are standard and the offered one ranks below the
   wanted one; else a full score, unless the offered one is the lowest; half where one is unknown.
   */
  lemma ConditionTermIs(tools: Tools, w: seq<Member>, h: seq<Member>, a: int, b: int)
    requires Conditions(w, h) && !Priced(w, h)
    requires ConditionRank(tools, Get(w, Lit("min")).value) == Some(a)
    requires ConditionRank(tools, ValueOrEmpty(h)) == Some(b)
    ensures var o := TermOutcome(tools, Obj(w), Obj(h));
            && (o == Conflict <==> 0 <= b < a) && o != Skip && o != Raises
            && (o.Scored? ==> o.score == if a < 0 || b < 0 then 0.5 else if b == 0 then 0.0 else 1.0)
            && (o.Scored? ==> o.overlap == Condition(Get(h, Lit("value")), if a < 0 || b < 0 then None else Some(true)))
  {
    if 0 <= a <= b {
      RankScore(a, b);
    }
  }

  /** Either side asks for a fuzzy match. */
  predicate Fuzzily(w: seq<Member>, h: seq<Member>) {
    Get(w, Lit("match")) == Some(Str(Lit("fuzzy"))) || Get(h, Lit("match")) == Some(Str(Lit("fuzzy")))
  }

  /** Terms of other kinds never conflict, and score by kind: fuzzy, equal, different, unrecognised. */
  lemma OtherTermIs(tools: Tools, w: seq<Member>, h: seq<Member>)
    requires !Priced(w, h) && !Conditions(w, h)
    ensures var o := TermOutcome(tools, Obj(w), Obj(h));
            var both := Has(w, "value") && Has(h, "value");
            && o.Scored?
            && (Fuzzily(w, h) ==> o.score == 0.7 && o.overlap == Fuzzy(ValueOrEmpty(w), ValueOrEmpty(h)))
            && (!Fuzzily(w, h) && both ==>
                  var x, y := ValueOrEmpty(w), ValueOrEmpty(h);
                  if PyEqual(x, y) then o.score == 1.0 && o.overlap == Same(x)
                  else o.score == 0.3 && o.overlap == Different(x, y))
            && (!Fuzzily(w, h) && !both ==> o.score == 0.5 && o.overlap == Unrecognised(Obj(w), Obj(h)))
  {
  }

  /** What is no object on one side is passed over. */
  lemma NoObjectIsSkipped(tools: Tools, wt: Json, ht: Json)
    ensures TermOutcome(tools, wt, ht) == Skip <==> !wt.Obj? || !ht.Obj?
  {
  }

  /** Equal as Python compares them: numbers and bools by value, the rest by kind. */
  lemma EqualScalarsIff(a: Json, b: Json)
    requires !a.Arr? && !a.Obj?
    ensures PyEqual(a, b) <==>
            || (a == b && (a.Null? || a.Str? || a.Time?))
            || (exists x :: ConcessionMeaning.AsNumber(a, x) && ConcessionMeaning.AsNumber(b, x))
  {
    if PyEqual(a, b) && (a.Bool? || a.Num?) {
      assert ConcessionMeaning.AsNumber(a, Negotiation.Numeric(a).value);
    }
  }

  /** Equality does not depend on the sides, for values as Python builds them. */
  lemma {:induction false} EqualSymmetric(a: Json, b: Json)
    requires IsPython(a) && IsPython(b) && PyEqual(a, b)
    ensures PyEqual(b, a)
    decreases a
  {
    match (a, b)
    case (Arr(_, xs), Arr(_, ys)) =>
      forall i | 0 <= i < |xs|
        ensures PyEqual(ys[i], xs[i])
      {
        EqualSymmetric(xs[i], ys[i]);
      }
    case (Obj(xs), Obj(ys)) => EqualMembers(xs, ys);
    case _ =>
  }

  function KeysOf(ms: seq<Member>): set<Text> {
    set i | 0 <= i < |ms| :: ms[i].key
  }

  lemma {:induction false} KeysCounted(ms: seq<Member>)
    requires DistinctNames(ms)
    ensures |KeysOf(ms)| == |ms|
  {
    if ms != [] {
      var init, last := ms[..|ms| - 1], ms[|ms| - 1];
      KeysCounted(init);
      assert KeysOf(ms) == KeysOf(init) + {last.key} && last.key !in KeysOf(init);
    }
  }

  lemma SameKeys(xs: seq<Member>, ys: seq<Member>)
    requires DistinctNames(xs) && DistinctNames(ys) && |xs| == |ys|
    requires forall i :: 0 <= i < |xs| ==> Get(ys, xs[i].key).Some?
    ensures KeysOf(xs) == KeysOf(ys)
  {
    KeysCounted(xs);
    KeysCounted(ys);
    assert KeysOf(xs) <= KeysOf(ys);
    if KeysOf(xs) != KeysOf(ys) {
      var k :| k in KeysOf(ys) && k !in KeysOf(xs);
      Smaller(KeysOf(xs), KeysOf(ys), k);
    }
  }

  lemma Smaller(a: set<Text>, b: set<Text>, k: Text)
    requires a <= b && k in b && k !in a
    ensures |a| < |b|
  {
    assert a <= b - {k};
    Sequences.SubsetSize(a, b - {k});
  }

  lemma {:induction false} EqualMembers(xs: seq<Member>, ys: seq<Member>)
    requires IsPython(Obj(xs)) && IsPython(Obj(ys)) && PyEqual(Obj(xs), Obj(ys))
    ensures PyEqual(Obj(ys), Obj(xs))
    decreases Obj(xs), 0
  {
    SameKeys(xs, ys);
    forall k | 0 <= k < |ys|
      ensures Get(xs, ys[k].key).Some? && PyEqual(ys[k].value, Get(xs, ys[k].key).value)
    {
      assert ys[k].key in KeysOf(xs);
      var i :| 0 <= i < |xs| && xs[i].key == ys[k].key;
      GetIs(xs, i);
      GetIs(ys, k);
      EqualSymmetric(xs[i].value, ys[k].value);
    }
  }

  // ---------------------------------------------------------------- places

  /** The dict that holds the coordinates. */
  function PlaceDict(loc: seq<Member>): Option<Json> {
    if Has(loc, "coordinates") then Get(loc, Lit("coordinates"))
    else if Has(loc, "of") then Get(loc, Lit("of"))
    else if Has(loc, "lat") && Has(loc, "lng") then Some(Obj(loc))
    else None
  }

  predicate Places(loc: seq<Member>, lat: real, lng: real) {
    match PlaceDict(loc)
    case Some(Obj(ms)) => NumberIn(ms, "lat", lat) && NumberIn(ms, "lng", lng)
    case _ => false
  }

  lemma CoordsIff(loc: seq<Member>, lat: real, lng: real)
    ensures ExtractCoords(loc) == At(lat, lng) ==> Places(loc, lat, lng)
    ensures Places(loc, lat, lng) ==> ExtractCoords(loc) == At(lat, lng) || ExtractCoords(loc) == NoFloat
  {
  }

  lemma NoPlaceIff(loc: seq<Member>)
    ensures ExtractCoords(loc) == Nowhere <==> forall lat, lng :: !Places(loc, lat, lng)
  {
    if ExtractCoords(loc) != Nowhere {
      var ms := PlaceDict(loc).value.members;
      assert Places(loc, NumberAt(ms, LAT).value, NumberAt(ms, LNG).value);
    }
  }

  /** Both have places, the want has a radius, and they are further apart. */
  ghost predicate TooFar(tools: Tools, w: seq<Member>, h: seq<Member>) {
    exists a, b, c, d, r ::
      Places(w, a, b) && Places(h, c, d) && NumberIn(w, "within_km", r) && tools.distance(a, b, c, d) > r
  }

  /** Places stand in the way exactly when they are too far apart. */
  lemma PlacesIff(tools: Tools, w: seq<Member>, h: seq<Member>)
    requires LocationsCompatible(tools, Some(w), Some(h)).Some?
    ensures LocationsCompatible(tools, Some(w), Some(h)).value.0 <==> !TooFar(tools, w, h)
  {
    NoPlaceIff(w);
    NoPlaceIff(h);
    match (ExtractCoords(w), ExtractCoords(h))
    case (At(a, b), At(c, d)) =>
      CoordsIff(w, a, b);
      CoordsIff(h, c, d);
      OnePlace(w, a, b);
      OnePlace(h, c, d);
      if NumberAt(w, WITHIN_KM).Some? {
        assert NumberIn(w, "within_km", NumberAt(w, WITHIN_KM).value);
      }
    case _ =>
  }

  lemma OnePlace(loc: seq<Member>, lat: real, lng: real)
    requires Places(loc, lat, lng)
    ensures forall a, b :: Places(loc, a, b) ==> a == lat && b == lng
  {
  }

  /** Four fifths of the terms' score and one fifth of the nearness, which is one less `dist / r`. */
  predicate Nears(score: real, terms: real, dist: real, r: real) {
    score * r == (0.8 * terms + 0.2) * r - 0.2 * dist
  }

  /** Within a radius, four fifths of the score and one fifth of how near it is. */
  lemma AdjustedIs(score: real, want: seq<Member>, dist: real, r: real)
    requires NumberIn(want, "within_km", r) && r > 0.0
    ensures Nears(Adjusted(score, Some(want), Some(dist)), score, dist, r)
  {
    Scaled(dist, r);
    assert NumberAt(want, WITHIN_KM) == Some(r);
    AdjustedProduct(score, dist / r, r, dist);
  }

  lemma AdjustedProduct(score: real, q: real, r: real, dist: real)
    requires q * r == dist
    ensures (score * 0.8 + (1.0 - q) * 0.2) * r == (0.8 * score + 0.2) * r - 0.2 * dist
  {
  }

  // ---------------------------------------------------------------- matches

  /** Some term that both share keeps the two apart. */
  ghost predicate TermsConflict(tools: Tools, want: Entry, have: Entry) {
    exists k :: k in want.terms && k in have.terms && TermOutcome(tools, want.terms[k], have.terms[k]) == Conflict
  }

  lemma ConflictIff(tools: Tools, want: Entry, have: Entry)
    ensures Conflicting(OutcomesOf(Pair(tools, want.terms, have.terms))) <==> TermsConflict(tools, want, have)
  {
    var os := OutcomesOf(Pair(tools, want.terms, have.terms));
    if k :| k in want.terms && k in have.terms && TermOutcome(tools, want.terms[k], have.terms[k]) == Conflict {
      assert k in os && os[k] == Conflict;
    }
  }

  /** Places, if both entries have one, keep the two apart. */
  ghost predicate PlacesConflict(tools: Tools, want: Entry, have: Entry) {
    want.location.Some? && have.location.Some? && TooFar(tools, want.location.value, have.location.value)
  }

  lemma FoundIff(tools: Tools, want: Entry, have: Entry, tm: TermMatch)
    requires OrdinaryLocation(want.location) && OrdinaryLocation(have.location)
    ensures Finish(tools, want, have, Some(tm)).Found? <==> tm.score != 0.0 && !PlacesConflict(tools, want, have)
  {
    if want.location.Some? && have.location.Some? {
      PlacesIff(tools, want.location.value, have.location.value);
    }
  }

  /** A coordinate of the place is an int that no float holds. */
  ghost predicate HugePlace(loc: seq<Member>) {
    match PlaceDict(loc)
    case Some(Obj(ms)) =>
      (exists x, y :: NumberIn(ms, "lat", x) && NumberIn(ms, "lng", y)) && (HugeIn(ms, "lat") || HugeIn(ms, "lng"))
    case _ => false
  }

  ghost predicate Placed(loc: seq<Member>) {
    exists lat, lng :: Places(loc, lat, lng)
  }

  /** A positive radius that no float holds. */
  ghost predicate HugeRadius(loc: seq<Member>) {
    HugeIn(loc, "within_km") && exists r :: r > 0.0 && NumberIn(loc, "within_km", r)
  }

  lemma NumberAtIs(ms: seq<Member>, key: string)
    ensures forall x :: NumberIn(ms, key, x) <==> NumberAt(ms, Lit(key)) == Some(x)
    ensures NumberAt(ms, Lit(key)).Some? ==> (TooLargeAt(ms, Lit(key)) <==> HugeIn(ms, key))
  {
  }

  lemma HugePlaceIff(loc: seq<Member>)
    ensures ExtractCoords(loc) == NoFloat <==> HugePlace(loc)
  {
    match PlaceDict(loc)
    case Some(Obj(ms)) =>
      NumberAtIs(ms, "lat");
      NumberAtIs(ms, "lng");
      if ExtractCoords(loc) == NoFloat {
        assert NumberIn(ms, "lat", NumberAt(ms, LAT).value) && NumberIn(ms, "lng", NumberAt(ms, LNG).value);
      }
    case _ =>
  }

  lemma HugeRadiusIff(loc: seq<Member>)
    ensures RadiusTooLarge(Some(loc)) <==> HugeRadius(loc)
  {
    NumberAtIs(loc, "within_km");
    if RadiusTooLarge(Some(loc)) {
      assert NumberIn(loc, "within_km", NumberAt(loc, WITHIN_KM).value);
    }
  }

  /** Coordinates and radius are ordinary exactly when no float is exceeded. */
  lemma OrdinaryLocationIff(loc: Location)
    ensures OrdinaryLocation(loc) <==> loc.None? || (!HugePlace(loc.value) && !HugeRadius(loc.value))
  {
    if loc.Some? {
      HugePlaceIff(loc.value);
      HugeRadiusIff(loc.value);
    }
  }

  ghost predicate BothPlaced(want: Entry, have: Entry, dist: real, tools: Tools) {
    want.location.Some? && have.location.Some? &&
      exists a, b, c, d :: && Places(want.location.value, a, b) && Places(have.location.value, c, d)
                           && dist == tools.distance(a, b, c, d)
  }

  ghost predicate Within(want: Entry, r: real) {
    want.location.Some? && r > 0.0 && NumberIn(want.location.value, "within_km", r)
  }

  lemma FoundDistance(tools: Tools, want: Entry, have: Entry, tm: TermMatch)
    requires Finish(tools, want, have, Some(tm)).Found?
    ensures forall dist :: Finish(tools, want, have, Some(tm)).distance == Some(dist) <==>
                           BothPlaced(want, have, dist, tools)
  {
    if want.location.Some? && have.location.Some? {
      DistanceIs(tools, want.location.value, have.location.value);
    }
  }

  lemma FinishScore(tools: Tools, want: Entry, have: Entry, tm: TermMatch)
    requires Finish(tools, want, have, Some(tm)).Found?
    ensures var m := Finish(tools, want, have, Some(tm)); m.score == Adjusted(tm.score, want.location, m.distance)
  {
  }

  lemma NearScore(tools: Tools, want: Entry, have: Entry, tm: TermMatch, dist: real, r: real)
    requires Finish(tools, want, have, Some(tm)).Found? && Within(want, r)
    requires Finish(tools, want, have, Some(tm)).distance == Some(dist)
    ensures Nears(Finish(tools, want, have, Some(tm)).score, tm.score, dist, r)
  {
    FinishScore(tools, want, have, tm);
    AdjustedIs(tm.score, want.location.value, dist, r);
  }

  lemma PlainScore(tools: Tools, want: Entry, have: Entry, tm: TermMatch)
    requires Finish(tools, want, have, Some(tm)).Found?
    requires Finish(tools, want, have, Some(tm)).distance.None? || forall r :: !Within(want, r)
    ensures Finish(tools, want, have, Some(tm)).score == tm.score
  {
    if want.location.Some? {
      var w := want.location.value;
      NumberAtIs(w, "within_km");
      if NumberAt(w, WITHIN_KM).Some? && NumberAt(w, WITHIN_KM).value > 0.0 {
        assert Within(want, NumberAt(w, WITHIN_KM).value);
      }
    }
  }

  /**
   A match keeps the overlaps; it carries the distance exactly when both have places, and
   within a radius its score is moved towards how near they are.
   */
  lemma FoundIs(tools: Tools, want: Entry, have: Entry, tm: TermMatch)
    requires Finish(tools, want, have, Some(tm)).Found?
    ensures var m := Finish(tools, want, have, Some(tm));
            && m.overlaps == tm.overlaps
            && (forall dist :: m.distance == Some(dist) <==> BothPlaced(want, have, dist, tools))
            && (forall dist, r :: m.distance == Some(dist) && Within(want, r) ==> Nears(m.score, tm.score, dist, r))
            && (m.distance.None? || (forall r :: !Within(want, r)) ==> m.score == tm.score)
  {
    var m := Finish(tools, want, have, Some(tm));
    FoundDistance(tools, want, have, tm);
    forall dist, r | m.distance == Some(dist) && Within(want, r)
      ensures Nears(m.score, tm.score, dist, r)
    {
      NearScore(tools, want, have, tm, dist, r);
    }
    if m.distance.None? || forall r :: !Within(want, r) {
      PlainScore(tools, want, have, tm);
    }
  }

  lemma DistanceIs(tools: Tools, w: seq<Member>, h: seq<Member>)
    requires LocationsCompatible(tools, Some(w), Some(h)).Some?
    ensures forall dist ::
              LocationsCompatible(tools, Some(w), Some(h)).value.1 == Some(dist) <==>
              exists a, b, c, d :: Places(w, a, b) && Places(h, c, d) && dist == tools.distance(a, b, c, d)
  {
    NoPlaceIff(w);
    NoPlaceIff(h);
    match (ExtractCoords(w), ExtractCoords(h))
    case (At(a, b), At(c, d)) =>
      CoordsIff(w, a, b);
      CoordsIff(h, c, d);
      OnePlace(w, a, b);
      OnePlace(h, c, d);
    case _ =>
  }

  /** Places that a comparison cannot take: huge coordinates, or a huge radius that both lie within. */
  ghost predicate PlacesRaise(tools: Tools, want: Entry, have: Entry) {
    want.location.Some? && have.location.Some? &&
      var w, h := want.location.value, have.location.value;
      HugePlace(w) || HugePlace(h) || (Placed(w) && Placed(h) && HugeRadius(w) && !TooFar(tools, w, h))
  }

  /** Once the terms score, the places decide whether the comparison raises. */
  lemma FinishRaisesIff(tools: Tools, want: Entry, have: Entry, tm: TermMatch)
    requires tm.score != 0.0
    ensures Finish(tools, want, have, Some(tm)) == MatchRaises <==> PlacesRaise(tools, want, have)
  {
    if want.location.Some? && have.location.Some? {
      var w, h := want.location.value, have.location.value;
      HugePlaceIff(w);
      HugePlaceIff(h);
      HugeRadiusIff(w);
      NoPlaceIff(w);
      NoPlaceIff(h);
      if !HugePlace(w) && !HugePlace(h) {
        PlacesIff(tools, w, h);
      }
    }
  }

  /**
   When two entries match, terms and places being ordinary: their categories fit, they are
   of different agents and both in time, no shared term conflicts, something counts in their
   favour, and they are not too far apart.
   */
  lemma MatchIff(tools: Tools, want: Entry, have: Entry, now: int, m: MatchResult)
    requires OrdinaryTerms(Pair(tools, want.terms, have.terms))
    requires OrdinaryLocation(want.location) && OrdinaryLocation(have.location)
    requires MatchPossible(tools, want, have, now, m)
    ensures m.Found? <==>
            && (|| Segments(want.category) <= Segments(have.category)
                || Segments(have.category) <= Segments(want.category))
            && want.agent != have.agent && now <= want.expiresAt && now <= have.expiresAt
            && !TermsConflict(tools, want, have) && !NothingScored(Pair(tools, want.terms, have.terms))
            && !PlacesConflict(tools, want, have)
  {
    CategoriesIff(want.category, have.category);
    if Eligible(want, have, now) {
      var p := Pair(tools, want.terms, have.terms);
      var r: Option<TermMatch> :| TermResult(OutcomesOf(p), |Unmatched(p)|, r) && m == Finish(tools, want, have, r);
      OrdinaryNeverRaise(p);
      ConflictIff(tools, want, have);
      FoundIff(tools, want, have, r.value);
      if !Conflicting(OutcomesOf(p)) {
        ZeroScoreIff(p);
      }
    }
  }

  // ---------------------------------------------------------------- what is stored

  /** Absent, null, or a number. */
  predicate NumberOrNothing(ms: seq<Member>, key: string) {
    Has(ms, key) ==> Get(ms, Lit(key)).value.Null? || Get(ms, Lit(key)).value.Num?
  }

  predicate NumbersInside(ms: seq<Member>, key: string) {
    Has(ms, key) ==>
      && Get(ms, Lit(key)).value.Obj?
      && NumberOrNothing(Get(ms, Lit(key)).value.members, "lat")
      && NumberOrNothing(Get(ms, Lit(key)).value.members, "lng")
  }

  /** Which locations a post may carry. */
  lemma ValidLocationIff(location: Json)
    ensures Registry.ValidLocation(location) <==>
            || location.Null?
            || (&& location.Obj?
                && NumbersInside(location.members, "coordinates") && NumbersInside(location.members, "of")
                && NumberOrNothing(location.members, "lat") && NumberOrNothing(location.members, "lng")
                && NumberOrNothing(location.members, "within_km"))
  {
  }

  /** What a post stores: its arguments, to expire so many seconds after it was created. */
  lemma StoredEntryIs(q: Registry.Request)
    ensures var e := Registry.EntryOf(q);
            && e.agent == q.agent && e.category == q.category && e.terms == q.terms
            && e.expiresAt - q.createdAt == q.ttl
            && (e.location.Some? <==> q.location.Obj?) && (e.location.Some? ==> Obj(e.location.value) == q.location)
    ensures forall now :: IsExpired(Registry.EntryOf(q), now) <==> now - q.createdAt > q.ttl
  {
  }

  /** The store is full for an agent at fifty thousand entries, or at a hundred live ones of its own. */
  lemma FullIff(entries: map<Text, Entry>, q: Registry.Request)
    ensures Registry.Full(entries, q) <==>
            || |entries| >= 50000
            || |set id | id in entries && entries[id].agent == q.agent && q.countedAt <= entries[id].expiresAt| >= 100
  {
    assert Registry.LiveOf(entries, q.agent, q.countedAt) ==
           set id | id in entries && entries[id].agent == q.agent && q.countedAt <= entries[id].expiresAt;
  }

  /** A post enters the store exactly when its location and lifetime are in order and there is room. */
  lemma PlacedIff(s: Registry.Shelf, q: Registry.Request, next: Registry.Shelf)
    ensures var swept := map id | id in s.entries && q.sweptAt <= s.entries[id].expiresAt :: s.entries[id];
            Registry.Placed(s, q, next) <==>
            && Registry.ValidLocation(q.location) && q.ttl <= 7 * 86400 && FitsFloat(q.ttl)
            && !Registry.Full(swept, q) && next.entries == swept[q.id := Registry.EntryOf(q)]
  {
    assert s.entries - Registry.Expired(s, q.sweptAt) ==
           map id | id in s.entries && q.sweptAt <= s.entries[id].expiresAt :: s.entries[id];
  }

  /** Up to a hundred thousand matches are stored: all that were found, or as many as still fit. */
  lemma ExtendedIff(stored: seq<Registry.Match>, found: set<Registry.Match>, more: seq<Registry.Match>)
    ensures Registry.Extended(stored, stored + more, found) <==>
            && |stored + more| <= 100000 && multiset(more) <= multiset(found)
            && (|stored + more| < 100000 ==> multiset(more) == multiset(found))
  {
    assert (stored + more)[..|stored|] == stored && (stored + more)[|stored|..] == more;
  }
}
