/** What the concession measure compares, and when comparing raises, in terms of the offers' members. */
module ConcessionMeaning {
  import opened Wrappers
  import opened Unicode
  import opened Numbers
  import opened RealValues
  import opened PythonValues
  import opened FloatRange
  import opened Negotiation

  // ---------------------------------------------------------------- Python values

  /** A number, or a bool as Python counts it. */
  predicate AsNumber(j: Json, x: real) {
    match j
    case Bool(b) => x == if b then 1.0 else 0.0
    case Num(num) => Reading(num) == Some(x)
    case _ => false
  }

  /** What Python takes for false: nothing, false, every zero and everything empty. */
  lemma FalsyIff(j: Json)
    ensures !Truthy(j) <==> j == Null || j == Bool(false) || j == Str([]) || AsNumber(j, 0.0) || Empty(j)
  {
    if j.Num? && j.num.Float? && j.num.f.Finite? {
      FiniteIsNotZero(j.num.f.negative, j.num.f.repr);
    }
  }

  /** An empty list, tuple or dict. */
  predicate Empty(j: Json) {
    (j.Arr? && j.elems == []) || j == Obj([])
  }

  lemma FiniteIsNotZero(negative: bool, r: Repr)
    ensures Reading(Float(Finite(negative, r))) != Some(0.0)
  {
    var d := ValueOf(Float(Finite(negative, r))).value;
    SignificandIsEcma(negative, r);
    ValueIsReading(Float(Finite(negative, r)));
    ValuesAreNormal(Float(Finite(negative, r)));
    ScaledPositive(d);
  }

  /** A text has another one inside it. */
  predicate Inside(s: Text, t: Text) {
    exists i, k :: 0 <= i <= k <= |t| && t[i..k] == s
  }

  /** `key in j`, by kind: a dict's name, a list's element, a text within a text; nothing else can be asked. */
  lemma ContainsIff(j: Json, key: Text)
    ensures ContainsKey(j, key).Some? <==> j.Obj? || j.Arr? || j.Str?
    ensures ContainsKey(j, key) == Some(true) <==>
            || (j.Obj? && exists i :: 0 <= i < |j.members| && j.members[i].key == key)
            || (j.Arr? && exists i :: 0 <= i < |j.elems| && j.elems[i] == Str(key))
            || (j.Str? && Inside(key, j.s))
  {
    match j
    case Str(s) => InsideIff(key, s);
    case Arr(_, elems) =>
      if Str(key) in elems {
        var i :| 0 <= i < |elems| && elems[i] == Str(key);
      }
    case _ =>
  }

  lemma InsideIff(s: Text, t: Text)
    ensures Inside(s, t) <==> exists i :: 0 <= i <= |t| && s <= t[i..]
  {
    if i, k :| 0 <= i <= k <= |t| && t[i..k] == s {
      assert t[i..][..k - i] == t[i..k];
      assert s <= t[i..];
    }
    if i :| 0 <= i <= |t| && s <= t[i..] {
      assert t[i..i + |s|] == t[i..][..|s|];
    }
  }

  // ---------------------------------------------------------------- terms

  /** The term's `value` counts as this number. */
  predicate ValueIs(term: Json, x: real) {
    term.Obj? && Get(term.members, Lit("value")).Some? && AsNumber(Get(term.members, Lit("value")).value, x)
  }

  /** A term of the earlier offer has a counterpart in the later one; both have numbers, the earlier not zero. */
  predicate Pairs(term: Member, curr: Json, p: real, c: real) {
    && ValueIs(term.value, p) && p != 0.0
    && curr.Obj? && Get(curr.members, term.key).Some? && ValueIs(Get(curr.members, term.key).value, c)
  }

  lemma NumericIff(term: seq<Member>, x: real)
    ensures NumericMember(term) == Some(x) <==> ValueIs(Obj(term), x)
  {
  }

  /** Which terms are compared, and by which numbers. */
  lemma ComparedIff(term: Member, curr: Json)
    ensures Compared(term, curr) <==> exists p, c :: Pairs(term, curr, p, c)
    ensures Compared(term, curr) ==> Pairs(term, curr, Was(term, curr), Now(term, curr))
  {
    if p, c :| Pairs(term, curr, p, c) {
      NumericIff(term.value.members, p);
      NumericIff(Get(curr.members, term.key).value.members, c);
    }
    if Compared(term, curr) {
      NumericIff(term.value.members, Was(term, curr));
      NumericIff(Get(curr.members, term.key).value.members, Now(term, curr));
      assert term.value == Obj(term.value.members);
      assert Get(curr.members, term.key).value == Obj(Get(curr.members, term.key).value.members);
      assert Pairs(term, curr, Was(term, curr), Now(term, curr));
    }
  }

  /** A concession is the mean of the relative movements: as many times as terms are compared, their total. */
  lemma ConcessionIsMean(prev: Json, curr: Json)
    requires Concession(prev, curr).Some?
    ensures prev.Obj?
    ensures var n := ComparedCount(prev.members, curr);
            var x := Concession(prev, curr).value;
            (n == 0 ==> x == 0.0) && x * n as real == TotalMovement(prev.members, curr)
  {
    MovementsAreCompared(prev.members, curr);
    var xs := Movements(prev.members, curr).value;
    MeanTimesCount(xs, Concession(prev, curr).value, ComparedCount(prev.members, curr),
                   TotalMovement(prev.members, curr));
  }

  lemma MeanTimesCount(xs: seq<real>, x: real, n: nat, total: real)
    requires x == (if xs == [] then 0.0 else Sum(xs) / |xs| as real) && n == |xs| && total == Sum(xs)
    ensures (n == 0 ==> x == 0.0) && x * n as real == total
  {
    if xs != [] {
      Quotient(total, n as real);
    }
  }

  lemma Quotient(x: real, y: real)
    requires y > 0.0
    ensures x / y * y == x
  {
  }

  // ---------------------------------------------------------------- exceptions

  function Size(x: real): real {
    if x >= 0.0 then x else -x
  }

  lemma TimesKeepsOrder(a: real, b: real, y: real)
    requires y > 0.0
    ensures a < b <==> a * y < b * y
  {
    if a < b {
      assert (b - a) * y > 0.0;
    } else {
      assert (a - b) * y >= 0.0;
    }
  }

  lemma QuotientBelow(x: real, y: real, l: real)
    requires x >= 0.0 && y > 0.0 && l > 0.0
    ensures -l < x / y < l <==> x < l * y
  {
    Quotient(x, y);
    TimesKeepsOrder(x / y, l, y);
    TimesKeepsOrder(-l, x / y, y);
  }

  lemma RangeIs(l: real)
    requires l == FLOAT_LIMIT as real
    ensures l > 0.0 && forall x :: InFloatRange(x) <==> -l < x < l
  {
    LimitIsLarge();
  }

  /** An int, or a bool, of this value. */
  predicate IntOf(j: Json, x: real) {
    match j
    case Num(Int(v)) => x == v as real
    case Bool(b) => x == if b then 1.0 else 0.0
    case _ => false
  }

  lemma IntQuotientIff(was: Json, now: Json, x: real, y: real)
    requires IntOf(was, y) && IntOf(now, x) && y != 0.0
    ensures Numeric(was) == Some(y) && Numeric(now) == Some(x)
    ensures Overflows(was, now) <==> !InFloatRange(Size(x - y) / Size(y))
  {
  }

  /** `x` is so many times `y`, or more. */
  predicate AtLeast(x: real, times: real, y: real) {
    x >= times * y
  }

  /** Comparing ints overflows exactly when the change is the float limit times the earlier value, or more. */
  lemma IntsOverflowIff(was: Json, now: Json, p: real, c: real)
    requires IntOf(was, p) && IntOf(now, c) && p != 0.0
    ensures Numeric(was) == Some(p) && Numeric(now) == Some(c)
    ensures Overflows(was, now) <==> AtLeast(Size(c - p), FLOAT_LIMIT as real, Size(p))
  {
    IntQuotientIff(was, now, c, p);
    OutOfRangeIff(Size(c - p), Size(p), FLOAT_LIMIT as real);
  }

  lemma OutOfRangeIff(x: real, y: real, limit: real)
    requires x >= 0.0 && y > 0.0 && limit == FLOAT_LIMIT as real
    ensures !InFloatRange(x / y) <==> AtLeast(x, limit, y)
  {
    RangeIs(limit);
    QuotientBelow(x, y, limit);
  }

  /** The same, the value as an int. */
  predicate IntIs(j: Json, v: int) {
    j == Num(Int(v)) || (j.Bool? && v == if j.b then 1 else 0)
  }

  /** Beside a float, an int overflows exactly when no float holds it. */
  lemma MixedOverflowIff(was: Json, now: Json)
    requires Numeric(was).Some? && Numeric(now).Some? && Numeric(was).value != 0.0
    requires (was.Num? && was.num.Float?) || (now.Num? && now.num.Float?)
    ensures Overflows(was, now) <==> exists v :: (IntIs(was, v) || IntIs(now, v)) && !(-FLOAT_LIMIT < v < FLOAT_LIMIT)
  {
    LimitIsLarge();
    if TooLarge(was) && was.Num? {
      assert IntIs(was, was.num.v);
    }
    if TooLarge(now) && now.Num? {
      assert IntIs(now, now.num.v);
    }
  }
}
