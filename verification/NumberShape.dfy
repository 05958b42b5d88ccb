/**
 The shape of a printed number: no idle zero anywhere, a sign on every exponent. There is
 one text of that shape for a decimal and a notation, so the printer can print no other.
 */
module NumberShape {
  import opened Wrappers
  import opened Order
  import opened Unicode
  import opened Numbers

  /** `[-]ip[.fp][e(+|-)exp]`; an empty part is not written. */
  datatype Pieces = Pieces(negative: bool, ip: Digits, fp: Digits, exp: Option<int>)

  function TextOf(p: Pieces): Text {
    Signed(p.negative, DigitText(p.ip) + FractionText(p.fp) + ExponentText(p.exp))
  }

  function FractionText(fp: Digits): Text {
    if fp == [] then [] else Point(fp)
  }

  function ExponentText(exp: Option<int>): Text {
    if exp.None? then [] else ['e' as int] + SignAndDigits(exp.value)
  }

  /** An exponent with its sign, which is written for positive ones too. */
  function SignAndDigits(e: int): Text {
    [if e < 0 then '-' as int else '+' as int] + DigitText(NatDigits(if e < 0 then -e else e))
  }

  predicate Tight(p: Pieces) {
    && p.ip != [] && (|p.ip| > 1 ==> p.ip[0] != 0)
    && (p.fp != [] ==> p.fp[|p.fp| - 1] != 0)
    && (p.exp.Some? ==> |p.ip| == 1 && p.ip[0] != 0)
  }

  /** The printed number has that shape. */
  lemma PrintedIsTight(num: Number) returns (p: Pieces)
    requires FormatNumber(num).Some?
    ensures Tight(p) && TextOf(p) == FormatNumber(num).value
  {
    match num
    case Int(v) =>
      var m := if v < 0 then -v else v;
      p := Pieces(v < 0, NatDigits(m), [], None);
      NatDigitsValue(m);
      NoMore(DigitText(p.ip));
    case Float(Zero(_)) =>
      p := Pieces(false, [0], [], None);
      NoMore(DigitText([0]));
      assert DigitText([0]) == Lit("0");
    case Float(Finite(negative, r)) =>
      SignificandIsEcma(negative, r);
      p := LayoutIsTight(negative, Significand(r).0, Significand(r).1);
  }

  lemma NoMore(t: Text)
    ensures t + [] == t
  {
  }

  lemma LayoutIsTight(negative: bool, ds: Digits, n: int) returns (p: Pieces)
    requires ds != [] && ds[0] != 0 && ds[|ds| - 1] != 0
    ensures Tight(p) && TextOf(p) == Signed(negative, Layout(ds, n))
  {
    if |ds| <= n <= 21 {
      p := Pieces(negative, ds + Zeros(n - |ds|), [], None);
      NoMore(DigitText(p.ip));
    } else if 0 < n <= 21 {
      p := Pieces(negative, ds[..n], ds[n..], None);
      NoMore(DigitText(ds[..n]) + Point(ds[n..]));
    } else if -6 < n <= 0 {
      p := SmallIsTightText(negative, ds, n);
    } else {
      p := ExponentIsTight(negative, ds, n);
    }
  }

  lemma SmallIsTightText(negative: bool, ds: Digits, n: int) returns (p: Pieces)
    requires ds != [] && ds[|ds| - 1] != 0 && -6 < n <= 0
    ensures Tight(p) && TextOf(p) == Signed(negative, Layout(ds, n))
  {
    p := Pieces(negative, [0], Zeros(-n) + ds, None);
    NoMore(DigitText([0]) + Point(Zeros(-n) + ds));
  }

  lemma ExponentIsTight(negative: bool, ds: Digits, n: int) returns (p: Pieces)
    requires ds != [] && ds[0] != 0 && ds[|ds| - 1] != 0 && !(-6 < n <= 21)
    ensures Tight(p) && TextOf(p) == Signed(negative, Layout(ds, n))
  {
    p := Pieces(negative, ds[..1], ds[1..], Some(n - 1));
    ExponentIs(n - 1);
    FractionIs(ds);
  }

  lemma ExponentIs(e: int)
    ensures Expo(e) == ExponentText(Some(e))
  {
  }

  lemma FractionIs(ds: Digits)
    requires ds != []
    ensures (if |ds| == 1 then [] else Point(ds[1..])) == FractionText(ds[1..])
  {
  }

  // ---------------------------------------------------------------- one text for one number

  /** What the pieces denote. */
  lemma TextReads(p: Pieces)
    requires Tight(p)
    ensures ReadNumber(TextOf(p))
         == Some(Normal(p.negative, p.ip + p.fp, |p.ip| + if p.exp.Some? then p.exp.value else 0))
  {
    var frac, expo := FractionText(p.fp), ExponentText(p.exp);
    ExponentTextReads(p.exp);
    ReadParts(p.negative, p.ip, frac, p.fp, expo, if p.exp.Some? then p.exp.value else 0);
    StartsWithDigit(p.ip, frac + expo);
    Assoc(DigitText(p.ip), frac, expo);
    ReadSigned(p.negative, DigitText(p.ip) + frac + expo);
  }

  lemma ExponentTextReads(exp: Option<int>)
    ensures exp.Some? ==> ExponentText(exp) != [] && ExponentText(exp)[0] == 'e' as int
    ensures exp.Some? ==> ReadInt(ExponentText(exp)[1..]) == Some(exp.value)
  {
    if exp.Some? {
      assert ExponentText(exp)[1..] == SignAndDigits(exp.value);
      ExponentReads(exp.value);
    }
  }

  lemma StartsWithDigit(ip: Digits, more: Text)
    requires ip != []
    ensures DigitText(ip) + more != [] && (DigitText(ip) + more)[0] != '-' as int
  {
    assert (DigitText(ip) + more)[0] == DigitText(ip)[0];
  }

  lemma ExponentReads(e: int)
    ensures ReadInt(SignAndDigits(e)) == Some(e)
  {
    var m := if e < 0 then -e else e;
    NatDigitsValue(m);
    ReadSignedDigits(if e < 0 then '-' as int else '+' as int, NatDigits(m));
  }

  /** The parts of a number without exponent, from its decimal. */
  function PlainParts(d: Decimal): (Digits, Digits) {
    if d.digits == [] then ([0], [])
    else if d.point <= 0 then ([0], Zeros(-d.point) + d.digits)
    else if |d.digits| <= d.point then (d.digits + Zeros(d.point - |d.digits|), [])
    else (d.digits[..d.point], d.digits[d.point..])
  }

  lemma WholeParts(negative: bool, ip: Digits)
    requires ip != [] && ip[0] != 0
    ensures PlainParts(Normal(negative, ip, |ip|)) == (ip, [])
  {
    var z := StripTrailingIs(ip);
    assert ip[0..] == ip;
  }

  lemma FractionParts(negative: bool, ip: Digits, fp: Digits)
    requires ip != [] && ip[0] != 0 && fp != [] && fp[|fp| - 1] != 0
    ensures PlainParts(Normal(negative, ip + fp, |ip|)) == (ip, fp)
  {
    TightIsNormal(negative, ip + fp, |ip|);
  }

  lemma SmallParts(negative: bool, fp: Digits)
    requires fp != [] && fp[|fp| - 1] != 0
    ensures PlainParts(Normal(negative, [0] + fp, 1)) == ([0], fp)
  {
    SmallCore(fp);
    SmallIsTight(negative, LeadingZeros(fp), fp[LeadingZeros(fp)..]);
  }

  lemma PlainPartsAre(negative: bool, ip: Digits, fp: Digits)
    requires Tight(Pieces(negative, ip, fp, None))
    ensures PlainParts(Normal(negative, ip + fp, |ip|)) == (ip, fp)
  {
    if ip[0] == 0 {
      assert ip == [0];
      if fp == [] {
        assert ip + fp == [0] && [0][1..] == [];
      } else {
        SmallParts(negative, fp);
      }
    } else if fp == [] {
      assert ip + fp == ip;
      WholeParts(negative, ip);
    } else {
      FractionParts(negative, ip, fp);
    }
  }

  lemma ExponentParts(p: Pieces)
    requires Tight(p) && p.exp.Some?
    ensures Normal(p.negative, p.ip + p.fp, 1 + p.exp.value)
         == Decimal(p.negative, p.ip + p.fp, 1 + p.exp.value)
  {
    TightIsNormal(p.negative, p.ip + p.fp, 1 + p.exp.value);
  }

  /** Two texts of that shape with one sign, one notation and one value are one text. */
  lemma OneTightText(p: Pieces, q: Pieces)
    requires Tight(p) && Tight(q) && p.negative == q.negative && p.exp.Some? == q.exp.Some?
    requires ReadNumber(TextOf(p)) == ReadNumber(TextOf(q))
    ensures p == q
  {
    TextReads(p);
    TextReads(q);
    if p.exp.None? {
      PlainPartsAre(p.negative, p.ip, p.fp);
      PlainPartsAre(q.negative, q.ip, q.fp);
    } else {
      OneExponentText(p, q);
    }
  }

  lemma OneExponentText(p: Pieces, q: Pieces)
    requires Tight(p) && Tight(q) && p.negative == q.negative && p.exp.Some? && q.exp.Some?
    requires Normal(p.negative, p.ip + p.fp, 1 + p.exp.value) == Normal(q.negative, q.ip + q.fp, 1 + q.exp.value)
    ensures p == q
  {
    ExponentParts(p);
    ExponentParts(q);
    SameSplit(p.ip, p.fp, q.ip, q.fp);
  }

  lemma SameSplit(a: Digits, b: Digits, c: Digits, d: Digits)
    requires |a| == |c| && a + b == c + d
    ensures a == c && b == d
  {
    assert a == (a + b)[..|a|] && c == (c + d)[..|c|];
    assert b == (a + b)[|a|..] && d == (c + d)[|c|..];
  }

  /**
   The printed text is the only text of that shape that has the number's value, its sign
   and its notation: shortest digits, no idle zero, and a sign on the exponent.
   */
  lemma PrintedIsOnlyTightText(num: Number, q: Pieces)
    requires FormatNumber(num).Some? && Tight(q) && ReadNumber(TextOf(q)) == ValueOf(num)
    requires q.exp.Some? <==> 'e' as int in FormatNumber(num).value
    requires q.negative <==> '-' as int == FormatNumber(num).value[0]
    ensures TextOf(q) == FormatNumber(num).value
  {
    var p := PrintedIsTight(num);
    NumberRoundTrip(num);
    MarksOf(p);
    OneTightText(p, q);
  }

  lemma MarksOf(p: Pieces)
    requires Tight(p)
    ensures TextOf(p) != [] && (TextOf(p)[0] == '-' as int <==> p.negative)
    ensures 'e' as int in TextOf(p) <==> p.exp.Some?
  {
    var ip, frac, expo := DigitText(p.ip), FractionText(p.fp), ExponentText(p.exp);
    assert ip[0] != '-' as int;
    if p.exp.Some? {
      assert expo[0] == 'e' as int && expo[0] in expo;
    }
    assert forall i :: 0 <= i < |ip| ==> ip[i] != 'e' as int;
    assert forall i :: 0 <= i < |frac| ==> frac[i] != 'e' as int;
  }
}
