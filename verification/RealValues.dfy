/**
 The real number that a decimal stands for. A decimal has neither leading nor trailing
 zeros, so two Python numbers have one decimal exactly when they are equal as reals.
 */
module RealValues {
  import opened Wrappers
  import opened Numbers

  /** `x * 10^e`: the decimal point moved by `e` places. */
  function Shift(x: real, e: int): real
    decreases if e < 0 then -e else e
  {
    if e == 0 then x else if e > 0 then 10.0 * Shift(x, e - 1) else Shift(x, e + 1) / 10.0
  }

  /** `0.ds * 10^point`, digit by digit. */
  function Scaled(ds: Digits, point: int): real {
    if ds == [] then 0.0
    else Scaled(ds[..|ds| - 1], point) + Shift(ds[|ds| - 1] as real, point - |ds|)
  }

  function WithSign(negative: bool, x: real): real {
    if negative then -x else x
  }

  function RealOf(d: Decimal): real {
    WithSign(d.negative, Scaled(d.digits, d.point))
  }

  /** A number as `int` and `repr` write it, read as a real; none for NaN and the infinities. */
  function Reading(num: Number): Option<real> {
    match num
    case Int(v) => Some(v as real)
    case Float(Zero(_)) => Some(0.0)
    case Float(Finite(negative, Positional(ip, fp))) =>
      Some(WithSign(negative, DigitsValue(ip) as real + Scaled(fp, 0)))
    case Float(Finite(negative, Scientific(lead, fp, exp))) =>
      Some(WithSign(negative, Shift(lead as real + Scaled(fp, 0), exp)))
    case _ => None
  }

  // ---------------------------------------------------------------- moving the point

  lemma ShiftNext(x: real, e: int)
    ensures Shift(x, e + 1) == 10.0 * Shift(x, e)
  {
  }

  lemma {:induction false} ShiftSum(x: real, y: real, e: int)
    ensures Shift(x + y, e) == Shift(x, e) + Shift(y, e)
    decreases if e < 0 then -e else e
  {
    if e > 0 {
      ShiftSum(x, y, e - 1);
    } else if e < 0 {
      ShiftSum(x, y, e + 1);
    }
  }

  lemma {:induction false} ShiftGrows(x: real, y: real, e: int)
    requires x <= y
    ensures Shift(x, e) <= Shift(y, e)
    decreases if e < 0 then -e else e
  {
    if e > 0 {
      ShiftGrows(x, y, e - 1);
    } else if e < 0 {
      ShiftGrows(x, y, e + 1);
    }
  }

  lemma {:induction false} ShiftSign(x: real, e: int)
    ensures Shift(x, e) == 0.0 <==> x == 0.0
    ensures Shift(x, e) > 0.0 <==> x > 0.0
    decreases if e < 0 then -e else e
  {
    if e > 0 {
      ShiftSign(x, e - 1);
    } else if e < 0 {
      ShiftSign(x, e + 1);
    }
  }

  lemma {:induction false} ShiftTen(x: real, e: int)
    ensures Shift(10.0 * x, e) == 10.0 * Shift(x, e)
    decreases if e < 0 then -e else e
  {
    if e > 0 {
      ShiftTen(x, e - 1);
    } else if e < 0 {
      ShiftTen(x, e + 1);
    }
  }

  lemma {:induction false} LaterPlace(e: int, n: nat)
    ensures Shift(1.0, e) <= Shift(1.0, e + n)
  {
    if n > 0 {
      LaterPlace(e, n - 1);
      ShiftNext(1.0, e + n - 1);
      ShiftSign(1.0, e + n - 1);
    }
  }

  // ---------------------------------------------------------------- digit strings

  lemma ScaledSnoc(ds: Digits, d: Digit, point: int)
    ensures Scaled(ds + [d], point) == Scaled(ds, point) + Shift(d as real, point - |ds| - 1)
  {
    assert (ds + [d])[..|ds|] == ds;
  }

  lemma {:induction false} ScaledAppend(ds: Digits, es: Digits, point: int)
    ensures Scaled(ds + es, point) == Scaled(ds, point) + Scaled(es, point - |ds|)
  {
    if es == [] {
      assert ds + es == ds;
    } else {
      var init, d := es[..|es| - 1], es[|es| - 1];
      ScaledAppend(ds, init, point);
      assert ds + es == ds + init + [d];
      ScaledSnoc(ds + init, d, point);
    }
  }

  lemma {:induction false} ScaledZeros(n: nat, point: int)
    ensures Scaled(Zeros(n), point) == 0.0
  {
    if n > 0 {
      ZerosSnoc(n - 1);
      ScaledZeros(n - 1, point);
      ScaledSnoc(Zeros(n - 1), 0, point);
      ShiftSign(0.0, point - n);
    }
  }

  lemma {:induction false} ScaledNext(ds: Digits, point: int)
    ensures Scaled(ds, point + 1) == 10.0 * Scaled(ds, point)
  {
    if ds != [] {
      ScaledNext(ds[..|ds| - 1], point);
      ShiftNext(ds[|ds| - 1] as real, point - |ds|);
    }
  }

  lemma {:induction false} ShiftScaled(ds: Digits, point: int, e: int)
    ensures Shift(Scaled(ds, point), e) == Scaled(ds, point + e)
    decreases if e < 0 then -e else e
  {
    if e > 0 {
      ShiftScaled(ds, point, e - 1);
      ScaledNext(ds, point + e - 1);
    } else if e < 0 {
      ShiftScaled(ds, point, e + 1);
      ScaledNext(ds, point + e);
    }
  }

  lemma {:induction false} WholeDigits(ds: Digits)
    ensures Scaled(ds, |ds|) == DigitsValue(ds) as real
  {
    if ds != [] {
      WholeDigits(ds[..|ds| - 1]);
      ScaledNext(ds[..|ds| - 1], |ds| - 1);
    }
  }

  lemma LeadingDropped(ds: Digits, z: nat, tail: Digits, point: int)
    requires ds == Zeros(z) + tail
    ensures Scaled(ds, point) == Scaled(tail, point - z)
  {
    ScaledAppend(Zeros(z), tail, point);
    ScaledZeros(z, point);
  }

  lemma TrailingDropped(ds: Digits, core: Digits, k: nat, point: int)
    requires ds == core + Zeros(k)
    ensures Scaled(ds, point) == Scaled(core, point)
  {
    ScaledAppend(core, Zeros(k), point);
    ScaledZeros(k, point - |core|);
  }

  /** Dropping idle zeros keeps the value. */
  lemma NormalKeepsValue(negative: bool, ds: Digits, point: int)
    ensures RealOf(Normal(negative, ds, point)) == WithSign(negative, Scaled(ds, point))
  {
    var z := LeadingZeros(ds);
    LeadingZerosAre(ds);
    var k := StripTrailingIs(ds[z..]);
    LeadingDropped(ds, z, ds[z..], point);
    TrailingDropped(ds[z..], StripTrailing(ds[z..]), k, point - z);
  }

  // ---------------------------------------------------------------- readings

  lemma PositionalReading(ip: Digits, fp: Digits)
    ensures Scaled(ip + fp, |ip|) == DigitsValue(ip) as real + Scaled(fp, 0)
  {
    ScaledAppend(ip, fp, |ip|);
    WholeDigits(ip);
  }

  lemma ScientificReading(lead: Digit, fp: Digits, exp: int)
    ensures Scaled([lead] + fp, exp + 1) == Shift(lead as real + Scaled(fp, 0), exp)
  {
    ScaledAppend([lead], fp, exp + 1);
    ShiftScaled(fp, 0, exp);
    ScaledSnoc([], lead, exp + 1);
    assert [] + [lead] == [lead];
    ShiftSum(lead as real, Scaled(fp, 0), exp);
  }

  lemma IntReading(v: int)
    ensures RealOf(ValueOf(Int(v)).value) == v as real
  {
    var n := if v < 0 then -v else v;
    NatDigitsValue(n);
    NormalKeepsValue(v < 0, NatDigits(n), |NatDigits(n)|);
    WholeDigits(NatDigits(n));
  }

  /** The decimal of a number is the real that its text denotes; for an int, the int itself. */
  lemma ValueIsReading(num: Number)
    ensures ValueOf(num).Some? <==> Reading(num).Some?
    ensures ValueOf(num).Some? ==> Reading(num) == Some(RealOf(ValueOf(num).value))
  {
    match num
    case Int(v) => IntReading(v);
    case Float(Finite(negative, Positional(ip, fp))) =>
      NormalKeepsValue(negative, ip + fp, |ip|);
      PositionalReading(ip, fp);
    case Float(Finite(negative, Scientific(lead, fp, exp))) =>
      NormalKeepsValue(negative, [lead] + fp, exp + 1);
      ScientificReading(lead, fp, exp);
    case _ =>
  }

  // ---------------------------------------------------------------- one decimal for one real

  /** Neither leading nor trailing zeros; one zero. */
  predicate IsNormal(d: Decimal) {
    if d.digits == [] then !d.negative && d.point == 0
    else d.digits[0] != 0 && d.digits[|d.digits| - 1] != 0
  }

  lemma NormalIsNormal(negative: bool, ds: Digits, point: int)
    ensures IsNormal(Normal(negative, ds, point))
  {
    var z := LeadingZeros(ds);
    LeadingZerosAre(ds);
    var k := StripTrailingIs(ds[z..]);
    assert ds[z..] != [] ==> ds[z..][0] != 0;
  }

  lemma ValuesAreNormal(num: Number)
    requires ValueOf(num).Some?
    ensures IsNormal(ValueOf(num).value)
  {
    match num
    case Int(v) =>
      var ds := NatDigits(if v < 0 then -v else v);
      NormalIsNormal(v < 0, ds, |ds|);
    case Float(Finite(negative, Positional(ip, fp))) => NormalIsNormal(negative, ip + fp, |ip|);
    case Float(Finite(negative, Scientific(lead, fp, exp))) => NormalIsNormal(negative, [lead] + fp, exp + 1);
    case _ =>
  }

  lemma PlaceBounds(d: Digit, e: int)
    ensures 0.0 <= Shift(d as real, e) <= Shift(1.0, e + 1) - Shift(1.0, e)
    ensures d != 0 ==> Shift(d as real, e) >= Shift(1.0, e)
  {
    ShiftSign(d as real, e);
    ShiftGrows(d as real, 9.0, e);
    ShiftSum(9.0, 1.0, e);
    ShiftTen(1.0, e);
    ShiftNext(1.0, e);
    if d != 0 {
      ShiftGrows(1.0, d as real, e);
    }
  }

  lemma {:induction false} ScaledBelow(ds: Digits, point: int)
    ensures 0.0 <= Scaled(ds, point) <= Shift(1.0, point) - Shift(1.0, point - |ds|)
  {
    if ds != [] {
      ScaledBelow(ds[..|ds| - 1], point);
      PlaceBounds(ds[|ds| - 1], point - |ds|);
    }
  }

  lemma {:induction false} ScaledFrom(ds: Digits, point: int)
    requires ds != [] && ds[0] != 0
    ensures Scaled(ds, point) >= Shift(1.0, point - 1)
  {
    PlaceBounds(ds[|ds| - 1], point - |ds|);
    if |ds| > 1 {
      ScaledFrom(ds[..|ds| - 1], point);
    }
  }

  lemma SamePoint(ds: Digits, m: int, es: Digits, n: int)
    requires es != [] && es[0] != 0 && Scaled(ds, m) == Scaled(es, n)
    ensures m >= n
  {
    if m < n {
      ScaledBelow(ds, m);
      ScaledFrom(es, n);
      ShiftSign(1.0, m - |ds|);
      LaterPlace(m, n - 1 - m);
    }
  }

  lemma {:induction false} SameDigits(ds: Digits, es: Digits)
    requires |ds| == |es| && DigitsValue(ds) == DigitsValue(es)
    ensures ds == es
  {
    if ds != [] {
      SameDigits(ds[..|ds| - 1], es[..|es| - 1]);
      assert ds == ds[..|ds| - 1] + [ds[|ds| - 1]] && es == es[..|es| - 1] + [es[|es| - 1]];
    }
  }

  lemma SameLength(ds: Digits, es: Digits, point: int)
    requires |ds| == |es| && Scaled(ds, point) == Scaled(es, point)
    ensures ds == es
  {
    ShiftScaled(ds, point, |ds| - point);
    ShiftScaled(es, point, |es| - point);
    WholeDigits(ds);
    WholeDigits(es);
    SameDigits(ds, es);
  }

  lemma PaddedSame(ds: Digits, es: Digits, point: int)
    requires |ds| <= |es| && es != [] && es[|es| - 1] != 0 && Scaled(ds, point) == Scaled(es, point)
    ensures ds == es
  {
    var n := |es| - |ds|;
    ScaledAppend(ds, Zeros(n), point);
    ScaledZeros(n, point - |ds|);
    SameLength(ds + Zeros(n), es, point);
    ZerosAre(n);
  }

  lemma SameScaled(d: Decimal, e: Decimal)
    requires IsNormal(d) && IsNormal(e) && d.digits != [] && e.digits != []
    requires Scaled(d.digits, d.point) == Scaled(e.digits, e.point)
    ensures d.point == e.point && d.digits == e.digits
  {
    SamePoint(d.digits, d.point, e.digits, e.point);
    SamePoint(e.digits, e.point, d.digits, d.point);
    if |d.digits| <= |e.digits| {
      PaddedSame(d.digits, e.digits, d.point);
    } else {
      PaddedSame(e.digits, d.digits, d.point);
    }
  }

  lemma ScaledPositive(d: Decimal)
    requires IsNormal(d)
    ensures Scaled(d.digits, d.point) > 0.0 <==> d.digits != []
    ensures Scaled(d.digits, d.point) >= 0.0
  {
    if d.digits != [] {
      ScaledFrom(d.digits, d.point);
      ShiftSign(1.0, d.point - 1);
    }
  }

  /** Equal reals have one decimal. */
  lemma OneNormalForm(d: Decimal, e: Decimal)
    requires IsNormal(d) && IsNormal(e) && RealOf(d) == RealOf(e)
    ensures d == e
  {
    ScaledPositive(d);
    ScaledPositive(e);
    if d.digits != [] && e.digits != [] {
      SameScaled(d, e);
    }
  }

  /** Two numbers have one decimal exactly when they are equal as reals. */
  lemma OneDecimalIffEqual(x: Number, y: Number)
    requires ValueOf(x).Some? && ValueOf(y).Some?
    ensures ValueOf(x) == ValueOf(y) <==> Reading(x) == Reading(y)
  {
    ValueIsReading(x);
    ValueIsReading(y);
    ValuesAreNormal(x);
    ValuesAreNormal(y);
    if Reading(x) == Reading(y) {
      OneNormalForm(ValueOf(x).value, ValueOf(y).value);
    }
  }
}
