/**
 Which numbers the printer writes alike. Python prints an int with `str`, which never
 uses exponent notation, so an int and a float of one value can have two texts.
 */
module NumberTexts {
  import opened Wrappers
  import opened Order
  import opened Unicode
  import opened Numbers

  /** The digits of an int are those of its decimal, filled up with zeros. */
  lemma IntDigits(v: int)
    requires v != 0
    ensures var d := ValueOf(Int(v)).value;
            && d.negative == (v < 0) && d.digits != [] && |d.digits| <= d.point
            && NatDigits(if v < 0 then -v else v) == d.digits + Zeros(d.point - |d.digits|)
  {
    var ds := NatDigits(if v < 0 then -v else v);
    NatDigitsValue(if v < 0 then -v else v);
    LargeSignificand(v < 0, ds, |ds|);
    var z := StripTrailingIs(ds);
    assert z == |ds| - |StripTrailing(ds)|;
  }

  lemma ZeroDecimal()
    ensures ValueOf(Int(0)) == Some(Decimal(false, [], 0)) && IntText(0) == Lit("0")
  {
    assert NatDigits(0) == [0] && [0][1..] == [];
    assert DigitText([0]) == Lit("0");
  }

  /** The digits filled up with zeros to the decimal point. */
  function WholeText(d: Decimal): Text {
    Signed(d.negative, DigitText(d.digits + Zeros(d.point - |d.digits|)))
  }

  /** An int's text follows from its decimal. */
  lemma IntTextIs(v: int)
    requires v != 0
    ensures IntText(v) == WholeText(ValueOf(Int(v)).value)
  {
    IntDigits(v);
  }

  lemma EqualIntsPrintAlike(v: int, w: int)
    requires ValueOf(Int(v)) == ValueOf(Int(w))
    ensures IntText(v) == IntText(w)
  {
    ZeroDecimal();
    if v != 0 && w != 0 {
      IntTextIs(v);
      IntTextIs(w);
    } else if v != 0 {
      IntDigits(v);
    } else if w != 0 {
      IntDigits(w);
    }
  }

  lemma DigitsHaveNoMark(negative: bool, ds: Digits)
    ensures 'e' as int !in Signed(negative, DigitText(ds))
  {
    assert forall i :: 0 <= i < |DigitText(ds)| ==> DigitText(ds)[i] != 'e' as int;
  }

  lemma FloatTextIs(f: PyFloat)
    requires f.Finite?
    ensures var d := ValueOf(Float(f)).value;
            d.digits != [] && FormatNumber(Float(f)) == Some(Signed(d.negative, Layout(d.digits, d.point)))
  {
    SignificandIsEcma(f.negative, f.repr);
  }

  lemma SignKeepsMark(negative: bool, t: Text)
    ensures 'e' as int in Signed(negative, t) <==> 'e' as int in t
  {
  }

  lemma WholeAgainstLayout(d: Decimal)
    requires d.digits != [] && |d.digits| <= d.point
    ensures WholeText(d) == Signed(d.negative, Layout(d.digits, d.point)) <==> d.point <= 21
  {
    if d.point > 21 {
      LayoutExponentMark(d.digits, d.point);
      SignKeepsMark(d.negative, Layout(d.digits, d.point));
      DigitsHaveNoMark(d.negative, d.digits + Zeros(d.point - |d.digits|));
    }
  }

  /** An int and a float of one decimal print alike exactly below the exponent threshold. */
  lemma IntBesideFloat(v: int, f: PyFloat)
    requires ValueOf(Float(f)) == ValueOf(Int(v))
    ensures FormatNumber(Int(v)) == FormatNumber(Float(f)) <==> ValueOf(Int(v)).value.point <= 21
  {
    ZeroDecimal();
    if v != 0 {
      IntDigits(v);
      IntTextIs(v);
      FloatTextIs(f);
      WholeAgainstLayout(ValueOf(Int(v)).value);
    } else if f.Finite? {
      FloatTextIs(f);
      assert false;
    }
  }

  /** One decimal, held in a way that lets the printer write it alike. */
  predicate SameNumber(x: Number, y: Number) {
    && ValueOf(x) == ValueOf(y)
    && ((x.Int? <==> y.Int?) || ValueOf(x).value.point <= 21)
  }

  /**
   Which numbers print alike: those of one decimal, except that an int and a float part
   ways from 10 to the power 21 on, where the float goes to exponent notation and the int
   does not.
   */
  lemma SameTextIff(x: Number, y: Number)
    ensures FormatNumber(x) == FormatNumber(y) <==> SameNumber(x, y)
  {
    NumberRoundTrip(x);
    NumberRoundTrip(y);
    if ValueOf(x) == ValueOf(y) && ValueOf(x).Some? {
      match (x, y)
      case (Int(v), Int(w)) => EqualIntsPrintAlike(v, w);
      case (Int(v), Float(f)) => IntBesideFloat(v, f);
      case (Float(f), Int(v)) => IntBesideFloat(v, f);
      case (Float(f), Float(g)) => EqualFloatsPrintAlike(f, g);
    }
  }

  function TenTo(n: nat): int {
    if n == 0 then 1 else 10 * TenTo(n - 1)
  }

  lemma {:induction false} TenToDigits(n: nat)
    ensures TenTo(n) > 0 && NatDigits(TenTo(n)) == [1] + Zeros(n)
  {
    if n > 0 {
      TenToDigits(n - 1);
      ZerosSnoc(n - 1);
      Assoc([1], Zeros(n - 1), [0]);
      assert TenTo(n) / 10 == TenTo(n - 1) && TenTo(n) % 10 == 0;
    } else {
      assert [1] + Zeros(0) == [1];
    }
  }

  /** From 10 to the power 21 on, the int and the float `1e+n` are one number with two texts. */
  lemma LargePowerPrintsTwice(n: nat)
    requires n >= 21
    ensures var x, y := Int(TenTo(n)), Float(Finite(false, Scientific(1, [], n)));
            ValueOf(x) == ValueOf(y) && FormatNumber(x) != FormatNumber(y)
  {
    TenToDecimal(n);
    OneScientific(n);
    SameTextIff(Int(TenTo(n)), Float(Finite(false, Scientific(1, [], n))));
  }

  lemma TenToDecimal(n: nat)
    ensures ValueOf(Int(TenTo(n))) == Some(Decimal(false, [1], n + 1))
  {
    TenToDigits(n);
    NormalIgnoresTrailing(false, [1], n, n + 1);
    TightIsNormal(false, [1], n + 1);
  }

  lemma OneScientific(n: nat)
    ensures ValueOf(Float(Finite(false, Scientific(1, [], n)))) == Some(Decimal(false, [1], n + 1))
  {
    TightIsNormal(false, [1], n + 1);
    assert [1] + [] == [1];
  }
}
