/**
 Number layout of the canonical form: Python's shortest `repr` of a float rearranged
 into the text ECMAScript prints (section 6.1.6.1.20 of ECMA-262), and the decimal
 value that a printed number denotes.
 */
module Numbers {
  import opened Wrappers
  import opened Order
  import opened Unicode

  type Digit = d: int | 0 <= d < 10

  type Digits = seq<Digit>

  /** What `repr` of a positive finite float looks like: `ip.fp`, or `d[.fp]e<exp>`. */
  datatype RawRepr =
    | Positional(ip: Digits, fp: Digits)
    | Scientific(lead: Digit, fp: Digits, exp: int)

  /** Shortest round-trip digits: no idle zeros, and not zero as a whole. */
  predicate ReprShaped(r: RawRepr) {
    match r
    case Positional(ip, fp) =>
      && ip != [] && fp != []
      && (ip[0] == 0 ==> ip == [0] && fp[|fp| - 1] != 0)
      && (fp[|fp| - 1] == 0 ==> fp == [0])
    case Scientific(lead, fp, exp) =>
      lead != 0 && (fp != [] ==> fp[|fp| - 1] != 0)
  }

  type Repr = r: RawRepr | ReprShaped(r) witness Positional([1], [0])

  datatype PyFloat =
    | NaN
    | Infinity(negative: bool)
    | Zero(negative: bool)
    | Finite(negative: bool, repr: Repr)

  datatype Number = Int(v: int) | Float(f: PyFloat)

  // ---------------------------------------------------------------- values

  /** `+-0.d1d2...dk * 10^point` with neither leading nor trailing zeros; zero has no digits. */
  datatype Decimal = Decimal(negative: bool, digits: Digits, point: int)

  function Zeros(n: int): (ds: Digits)
    ensures |ds| == if n > 0 then n else 0
  {
    if n <= 0 then [] else [0] + Zeros(n - 1)
  }

  function StripTrailing(ds: Digits): Digits {
    if ds != [] && ds[|ds| - 1] == 0 then StripTrailing(ds[..|ds| - 1]) else ds
  }

  function LeadingZeros(ds: Digits): (n: nat)
    ensures n <= |ds|
  {
    if ds != [] && ds[0] == 0 then 1 + LeadingZeros(ds[1..]) else 0
  }

  /** The decimal `+-0.ds * 10^point` for any run of digits. */
  function Normal(negative: bool, ds: Digits, point: int): Decimal {
    var z := LeadingZeros(ds);
    var core := StripTrailing(ds[z..]);
    if core == [] then Decimal(false, [], 0) else Decimal(negative, core, point - z)
  }

  function DigitsValue(ds: Digits): nat {
    if ds == [] then 0 else 10 * DigitsValue(ds[..|ds| - 1]) + ds[|ds| - 1]
  }

  function NatDigits(n: nat): (ds: Digits)
    ensures ds != []
  {
    if n < 10 then [n] else NatDigits(n / 10) + [n % 10]
  }

  /** The decimal a Python number stands for; none for NaN and the infinities. */
  function ValueOf(num: Number): Option<Decimal> {
    match num
    case Int(v) =>
      var ds := NatDigits(if v < 0 then -v else v);
      Some(Normal(v < 0, ds, |ds|))
    case Float(Zero(_)) => Some(Decimal(false, [], 0))
    case Float(Finite(negative, Positional(ip, fp))) => Some(Normal(negative, ip + fp, |ip|))
    case Float(Finite(negative, Scientific(lead, fp, exp))) => Some(Normal(negative, [lead] + fp, exp + 1))
    case _ => None
  }

  // ---------------------------------------------------------------- printing

  function OrZero(ds: Digits): (r: Digits)
    ensures r != []
  {
    if ds == [] then [0] else ds
  }

  /** Significant digits and decimal point position, as parsed out of `repr`. */
  function Significand(r: Repr): (s: (Digits, int))
    ensures s.0 != []
  {
    match r
    case Scientific(lead, fp, exp) => ([lead] + fp, exp + 1)
    case Positional(ip, fp) =>
      if ip == [0] then
        var z: int := LeadingZeros(fp);
        (OrZero(StripTrailing(fp[z..])), -z)
      else (OrZero(StripTrailing(ip + fp)), |ip|)
  }

  function DigitText(ds: Digits): (t: Text)
    ensures |t| == |ds|
    ensures forall i :: 0 <= i < |ds| ==> t[i] == '0' as int + ds[i]
  {
    seq(|ds|, i requires 0 <= i < |ds| => '0' as int + ds[i])
  }

  /** `str(v)` */
  function IntText(v: int): Text {
    if v < 0 then ['-' as int] + DigitText(NatDigits(-v)) else DigitText(NatDigits(v))
  }

  function Point(fp: Digits): Text {
    ['.' as int] + DigitText(fp)
  }

  /** `("+" if e >= 0 else "") + str(e)` */
  function SignedText(e: int): Text {
    if e >= 0 then ['+' as int] + DigitText(NatDigits(e)) else IntText(e)
  }

  function Expo(e: int): Text {
    ['e' as int] + SignedText(e)
  }

  /** The four cases of Number::toString. */
  function Layout(ds: Digits, n: int): Text
    requires ds != []
  {
    var k := |ds|;
    if k <= n <= 21 then DigitText(ds + Zeros(n - k))
    else if 0 < n <= 21 then DigitText(ds[..n]) + Point(ds[n..])
    else if -6 < n <= 0 then DigitText([0]) + Point(Zeros(-n) + ds)
    else DigitText(ds[..1]) + (if k == 1 then [] else Point(ds[1..])) + Expo(n - 1)
  }

  function Signed(negative: bool, t: Text): Text {
    if negative then ['-' as int] + t else t
  }

  /**
   `_format_number_ecmascript`. NaN and the infinities have been refused before the
   printer reaches them; they have no text.
   */
  function FormatNumber(num: Number): Option<Text> {
    match num
    case Int(v) => Some(IntText(v))
    case Float(Zero(_)) => Some(Lit("0"))
    case Float(Finite(negative, repr)) =>
      var (ds, n) := Significand(repr);
      Some(Signed(negative, Layout(ds, n)))
    case Float(_) => None
  }

  // ---------------------------------------------------------------- reading

  /** The text before the first `c`, and the text after it if there is one. */
  function CutAt(c: CodePoint, t: Text): (Text, Option<Text>) {
    if t == [] then ([], None)
    else if t[0] == c then ([], Some(t[1..]))
    else
      var (before, after) := CutAt(c, t[1..]);
      ([t[0]] + before, after)
  }

  function ReadDigits(t: Text): Option<Digits> {
    if forall i :: 0 <= i < |t| ==> '0' as int <= t[i] <= '9' as int
    then Some(seq(|t|, i requires 0 <= i < |t| && '0' as int <= t[i] <= '9' as int => t[i] - '0' as int))
    else None
  }

  function ReadInt(t: Text): Option<int> {
    var negative := t != [] && t[0] == '-' as int;
    var body := if t != [] && (negative || t[0] == '+' as int) then t[1..] else t;
    if body == [] then None
    else
      var ds :- ReadDigits(body);
      Some(if negative then 0 - DigitsValue(ds) else DigitsValue(ds))
  }

  function ReadMantissa(negative: bool, t: Text, exp: int): Option<Decimal> {
    var (whole, part) := CutAt('.' as int, t);
    var ip :- ReadDigits(whole);
    var fp :- if part.None? then Some([]) else ReadDigits(part.value);
    if ip == [] then None else Some(Normal(negative, ip + fp, |ip| + exp))
  }

  /** The decimal denoted by `ip[.fp][e<exp>]`. */
  function ReadUnsigned(negative: bool, t: Text): Option<Decimal> {
    var (mantissa, expo) := CutAt('e' as int, t);
    var exp :- if expo.None? then Some(0) else ReadInt(expo.value);
    ReadMantissa(negative, mantissa, exp)
  }

  /** The decimal that a JSON number text denotes. */
  function ReadNumber(t: Text): Option<Decimal> {
    if t != [] && t[0] == '-' as int then ReadUnsigned(true, t[1..]) else ReadUnsigned(false, t)
  }

  // ---------------------------------------------------------------- zeros

  lemma {:induction false} ZerosAre(n: nat)
    ensures forall i :: 0 <= i < n ==> Zeros(n)[i] == 0
  {
    if n > 0 {
      ZerosAre(n - 1);
    }
  }

  lemma ZerosSnoc(z: nat)
    ensures Zeros(z) + [0] == Zeros(z + 1)
  {
    ZerosAre(z);
    ZerosAre(z + 1);
  }

  lemma {:induction false} StripZeros(ds: Digits, z: nat)
    ensures StripTrailing(ds + Zeros(z)) == StripTrailing(ds)
  {
    if z == 0 {
      assert ds + Zeros(0) == ds;
    } else {
      ZerosSnoc(z - 1);
      Assoc(ds, Zeros(z - 1), [0]);
      assert (ds + Zeros(z - 1) + [0])[..|ds| + z - 1] == ds + Zeros(z - 1);
      StripZeros(ds, z - 1);
    }
  }

  lemma {:induction false} SkipZeros(z: nat, ds: Digits)
    ensures LeadingZeros(Zeros(z) + ds) == z + LeadingZeros(ds)
  {
    if z == 0 {
      assert Zeros(0) + ds == ds;
    } else {
      assert (Zeros(z) + ds)[1..] == Zeros(z - 1) + ds;
      SkipZeros(z - 1, ds);
    }
  }

  lemma {:induction false} LeadingZerosAre(ds: Digits)
    ensures ds == Zeros(LeadingZeros(ds)) + ds[LeadingZeros(ds)..]
    ensures LeadingZeros(ds) < |ds| ==> ds[LeadingZeros(ds)] != 0
    ensures ds != [] && ds[|ds| - 1] != 0 ==> LeadingZeros(ds) < |ds|
  {
    if ds != [] && ds[0] == 0 {
      LeadingZerosAre(ds[1..]);
      assert ds == [0] + ds[1..];
    }
  }

  lemma {:induction false} StripTrailingIs(ds: Digits) returns (z: nat)
    ensures ds == StripTrailing(ds) + Zeros(z)
    ensures StripTrailing(ds) != [] ==> StripTrailing(ds)[|StripTrailing(ds)| - 1] != 0
    ensures StripTrailing(ds) <= ds
    ensures ds != [] && ds[0] != 0 ==> StripTrailing(ds) != []
    ensures ds != [] && ds[|ds| - 1] != 0 ==> z == 0
  {
    if ds != [] && ds[|ds| - 1] == 0 {
      var front := ds[..|ds| - 1];
      z := StripTrailingIs(front);
      ZerosSnoc(z);
      assert ds == front + [0] == StripTrailing(front) + (Zeros(z) + [0]);
      z := z + 1;
    } else {
      z := 0;
      assert ds + Zeros(0) == ds;
    }
  }

  /** Padding zeros on either side leave the decimal alone. */
  lemma NormalIgnoresPadding(negative: bool, a: nat, ds: Digits, b: nat, point: int)
    requires ds != [] && ds[0] != 0
    ensures Normal(negative, Zeros(a) + ds + Zeros(b), point) == Normal(negative, ds, point - a)
  {
    var padded := Zeros(a) + ds + Zeros(b);
    assert padded == Zeros(a) + (ds + Zeros(b));
    SkipZeros(a, ds + Zeros(b));
    assert padded[a..] == ds + Zeros(b);
    StripZeros(ds, b);
  }

  lemma NormalIgnoresTrailing(negative: bool, ds: Digits, b: nat, point: int)
    requires ds != [] && ds[0] != 0
    ensures Normal(negative, ds + Zeros(b), point) == Normal(negative, ds, point)
  {
    NormalIgnoresPadding(negative, 0, ds, b, point);
    assert Zeros(0) + ds + Zeros(b) == ds + Zeros(b);
  }

  lemma NormalIgnoresLeading(negative: bool, a: nat, ds: Digits, point: int)
    requires ds != [] && ds[0] != 0
    ensures Normal(negative, Zeros(a) + ds, point) == Normal(negative, ds, point - a)
  {
    NormalIgnoresPadding(negative, a, ds, 0, point);
    assert Zeros(a) + ds + Zeros(0) == Zeros(a) + ds;
  }

  // ---------------------------------------------------------------- significand

  /**
   How section 6.1.6.1.20 of ECMA-262 picks digits: `s * 10^(n-k)` with `k` as small as
   possible, which is the normal form of the decimal with its digits spelled out.
   */
  ghost predicate EcmaTriple(ds: Digits, n: int, x: Decimal) {
    ds != [] && ds[0] != 0 && ds[|ds| - 1] != 0 && x.digits == ds && x.point == n
  }

  lemma TightIsNormal(negative: bool, ds: Digits, n: int)
    requires ds != [] && ds[0] != 0 && ds[|ds| - 1] != 0
    ensures Normal(negative, ds, n) == Decimal(negative, ds, n)
  {
    assert ds[0..] == ds;
  }

  lemma SmallCore(fp: Digits)
    requires fp != [] && fp[|fp| - 1] != 0
    ensures var core := fp[LeadingZeros(fp)..];
            && core != [] && core[0] != 0 && core[|core| - 1] != 0
            && StripTrailing(core) == core
            && fp == Zeros(LeadingZeros(fp)) + core
  {
    LeadingZerosAre(fp);
  }

  lemma SmallSignificand(negative: bool, z: nat, core: Digits)
    requires core != [] && core[0] != 0
    ensures Normal(negative, [0] + (Zeros(z) + core), 1) == Normal(negative, core, 0 - z)
  {
    ZeroCons(z, core);
    NormalIgnoresLeading(negative, z + 1, core, 1);
  }

  lemma ZeroCons(z: nat, core: Digits)
    ensures [0] + (Zeros(z) + core) == Zeros(z + 1) + core
  {
    assert Zeros(z + 1) == [0] + Zeros(z);
  }

  lemma LargeSignificand(negative: bool, ds: Digits, n: int)
    requires ds != [] && ds[0] != 0
    ensures EcmaTriple(StripTrailing(ds), n, Normal(negative, ds, n))
    ensures Normal(negative, ds, n).negative == negative
  {
    var t := StripTrailingIs(ds);
    assert ds[0..] == ds;
  }

  lemma SmallIsTight(negative: bool, z: nat, core: Digits)
    requires core != [] && core[0] != 0 && core[|core| - 1] != 0
    ensures Normal(negative, [0] + (Zeros(z) + core), 1) == Decimal(negative, core, 0 - z)
  {
    SmallSignificand(negative, z, core);
    TightIsNormal(negative, core, 0 - z);
  }

  lemma PositionalIsEcma(negative: bool, ip: Digits, fp: Digits)
    requires ReprShaped(Positional(ip, fp))
    ensures var (ds, n) := Significand(Positional(ip, fp));
            EcmaTriple(ds, n, Normal(negative, ip + fp, |ip|)) && Normal(negative, ip + fp, |ip|).negative == negative
  {
    if ip == [0] {
      SmallCore(fp);
      SmallIsTight(negative, LeadingZeros(fp), fp[LeadingZeros(fp)..]);
    } else {
      LargeSignificand(negative, ip + fp, |ip|);
    }
  }

  /** The digits and position parsed out of `repr` are the ones ECMA-262 names. */
  lemma SignificandIsEcma(negative: bool, r: Repr)
    ensures EcmaTriple(Significand(r).0, Significand(r).1, ValueOf(Float(Finite(negative, r))).value)
    ensures ValueOf(Float(Finite(negative, r))).value.negative == negative
  {
    match r
    case Scientific(lead, fp, exp) => TightIsNormal(negative, [lead] + fp, exp + 1);
    case Positional(ip, fp) => PositionalIsEcma(negative, ip, fp);
  }

  // ---------------------------------------------------------------- round trip

  lemma ReadDigitText(ds: Digits)
    ensures ReadDigits(DigitText(ds)) == Some(ds)
  {
    var t := DigitText(ds);
    assert forall i :: 0 <= i < |t| ==> '0' as int <= t[i] <= '9' as int;
    assert ReadDigits(t).value == ds;
  }

  lemma {:induction false} NatDigitsValue(n: nat)
    ensures DigitsValue(NatDigits(n)) == n
    ensures n > 0 ==> NatDigits(n)[0] != 0
  {
    if n >= 10 {
      NatDigitsValue(n / 10);
      assert NatDigits(n)[..|NatDigits(n)| - 1] == NatDigits(n / 10);
    } else {
      assert NatDigits(n)[..0] == [];
    }
  }

  lemma ReadSignedDigits(sign: CodePoint, ds: Digits)
    requires (sign == '-' as int || sign == '+' as int) && ds != []
    ensures ReadInt([sign] + DigitText(ds))
         == Some(if sign == '-' as int then 0 - DigitsValue(ds) else DigitsValue(ds))
  {
    assert ([sign] + DigitText(ds))[1..] == DigitText(ds);
    ReadDigitText(ds);
  }

  lemma ReadIntText(e: int)
    ensures ReadInt(SignedText(e)) == Some(e)
  {
    var m := if e < 0 then -e else e;
    NatDigitsValue(m);
    ReadSignedDigits(if e < 0 then '-' as int else '+' as int, NatDigits(m));
  }

  lemma {:induction false} CutAtMarker(c: CodePoint, before: Text, after: Text)
    requires forall i :: 0 <= i < |before| ==> before[i] != c
    requires after == [] || after[0] == c
    ensures CutAt(c, before + after) == (before, if after == [] then None else Some(after[1..]))
  {
    if before == [] {
      assert before + after == after;
    } else {
      assert (before + after)[1..] == before[1..] + after;
      CutAtMarker(c, before[1..], after);
      assert before == [before[0]] + before[1..];
    }
  }

  lemma ReadMantissaParts(negative: bool, ip: Digits, frac: Text, fp: Digits, e: int)
    requires ip != []
    requires if frac == [] then fp == [] else frac == Point(fp)
    ensures ReadMantissa(negative, DigitText(ip) + frac, e) == Some(Normal(negative, ip + fp, |ip| + e))
  {
    CutAtMarker('.' as int, DigitText(ip), frac);
    assert frac != [] ==> frac[1..] == DigitText(fp);
    ReadDigitText(ip);
    ReadDigitText(fp);
  }

  /** Cutting `ip[.fp][e<exp>]` at its markers recovers the pieces. */
  lemma ReadParts(negative: bool, ip: Digits, frac: Text, fp: Digits, expo: Text, e: int)
    requires ip != []
    requires if frac == [] then fp == [] else frac == Point(fp)
    requires if expo == [] then e == 0 else expo[0] == 'e' as int && ReadInt(expo[1..]) == Some(e)
    ensures ReadUnsigned(negative, DigitText(ip) + frac + expo) == Some(Normal(negative, ip + fp, |ip| + e))
  {
    CutAtMarker('e' as int, DigitText(ip) + frac, expo);
    ReadMantissaParts(negative, ip, frac, fp, e);
  }

  /** Each of the four layouts denotes `0.ds * 10^n`. */
  lemma ReadLayout(negative: bool, ds: Digits, n: int)
    requires ds != [] && ds[0] != 0
    ensures ReadUnsigned(negative, Layout(ds, n)) == Some(Normal(negative, ds, n))
  {
    if |ds| <= n <= 21 {
      ReadPadded(negative, ds, n);
    } else if 0 < n <= 21 {
      ReadSplit(negative, ds, n);
    } else if -6 < n <= 0 {
      ReadSmall(negative, ds, n);
    } else {
      ReadExponential(negative, ds, n);
    }
  }

  lemma ReadWhole(negative: bool, ds: Digits)
    requires ds != []
    ensures ReadUnsigned(negative, DigitText(ds)) == Some(Normal(negative, ds, |ds|))
  {
    ReadParts(negative, ds, [], [], [], 0);
    assert DigitText(ds) + [] + [] == DigitText(ds) && ds + [] == ds;
  }

  lemma ReadFraction(negative: bool, ip: Digits, fp: Digits)
    requires ip != []
    ensures ReadUnsigned(negative, DigitText(ip) + Point(fp)) == Some(Normal(negative, ip + fp, |ip|))
  {
    ReadParts(negative, ip, Point(fp), fp, [], 0);
    assert DigitText(ip) + Point(fp) + [] == DigitText(ip) + Point(fp);
  }

  lemma ReadPadded(negative: bool, ds: Digits, n: int)
    requires ds != [] && ds[0] != 0 && |ds| <= n
    ensures ReadUnsigned(negative, DigitText(ds + Zeros(n - |ds|))) == Some(Normal(negative, ds, n))
  {
    ReadWhole(negative, ds + Zeros(n - |ds|));
    NormalIgnoresTrailing(negative, ds, n - |ds|, n);
  }

  lemma ReadSplit(negative: bool, ds: Digits, n: int)
    requires 0 < n < |ds|
    ensures ReadUnsigned(negative, DigitText(ds[..n]) + Point(ds[n..])) == Some(Normal(negative, ds, n))
  {
    ReadFraction(negative, ds[..n], ds[n..]);
    assert ds[..n] + ds[n..] == ds;
  }

  lemma ReadSmall(negative: bool, ds: Digits, n: int)
    requires ds != [] && ds[0] != 0 && n <= 0
    ensures ReadUnsigned(negative, DigitText([0]) + Point(Zeros(-n) + ds)) == Some(Normal(negative, ds, n))
  {
    ReadFraction(negative, [0], Zeros(-n) + ds);
    ZeroCons(-n, ds);
    NormalIgnoresLeading(negative, 1 - n, ds, 1);
  }

  lemma ExpoReads(e: int)
    ensures Expo(e)[0] == 'e' as int && ReadInt(Expo(e)[1..]) == Some(e)
  {
    ReadIntText(e);
    assert Expo(e)[1..] == SignedText(e);
  }

  lemma ReadExponential(negative: bool, ds: Digits, n: int)
    requires ds != []
    ensures ReadUnsigned(negative, DigitText(ds[..1]) + (if |ds| == 1 then [] else Point(ds[1..])) + Expo(n - 1))
         == Some(Normal(negative, ds, n))
  {
    ExpoReads(n - 1);
    ReadParts(negative, ds[..1], if |ds| == 1 then [] else Point(ds[1..]), ds[1..], Expo(n - 1), n - 1);
    assert ds[..1] + ds[1..] == ds;
  }

  /** Text that starts with a digit carries no sign. */
  lemma ReadSigned(negative: bool, body: Text)
    requires body != [] && body[0] != '-' as int
    ensures ReadNumber(Signed(negative, body)) == ReadUnsigned(negative, body)
  {
    assert (['-' as int] + body)[1..] == body;
  }

  lemma LayoutStartsWithDigit(ds: Digits, n: int)
    requires ds != []
    ensures Layout(ds, n) != [] && '0' as int <= Layout(ds, n)[0] <= '9' as int
  {
  }

  lemma IntRoundTrip(v: int)
    ensures ReadNumber(IntText(v)) == ValueOf(Int(v))
  {
    var m := if v < 0 then -v else v;
    ReadWhole(v < 0, NatDigits(m));
    ReadSigned(v < 0, DigitText(NatDigits(m)));
  }

  lemma ZeroRoundTrip()
    ensures ReadNumber(Lit("0")) == Some(Decimal(false, [], 0))
  {
    ReadWhole(false, [0]);
    ReadSigned(false, DigitText([0]));
    assert DigitText([0]) == Lit("0");
    assert [0][1..] == [];
  }

  lemma FiniteRoundTrip(negative: bool, r: Repr)
    ensures ReadNumber(Signed(negative, Layout(Significand(r).0, Significand(r).1)))
         == ValueOf(Float(Finite(negative, r)))
  {
    var (ds, n) := Significand(r);
    SignificandIsEcma(negative, r);
    ReadLayout(negative, ds, n);
    TightIsNormal(negative, ds, n);
    LayoutStartsWithDigit(ds, n);
    ReadSigned(negative, Layout(ds, n));
  }

  /**
   Reading a printed number gives back exactly the decimal it was printed from, so
   numbers with equal text are equal numbers.
   */
  lemma NumberRoundTrip(num: Number)
    ensures FormatNumber(num).Some? <==> ValueOf(num).Some?
    ensures FormatNumber(num).Some? ==> ReadNumber(FormatNumber(num).value) == ValueOf(num)
  {
    match num
    case Int(v) => IntRoundTrip(v);
    case Float(Zero(_)) => ZeroRoundTrip();
    case Float(Finite(negative, repr)) => FiniteRoundTrip(negative, repr);
    case Float(_) =>
  }

  lemma LayoutExponentMark(ds: Digits, n: int)
    requires ds != []
    ensures 'e' as int in Layout(ds, n) <==> !(-6 < n <= 21)
  {
    if !(-6 < n <= 21) {
      assert Expo(n - 1)[0] == 'e' as int;
    }
  }

  /**
   Exponent notation appears exactly below 1e-6 and from 1e21 on, as ECMA-262 requires,
   whatever notation `repr` had used; `0.d1d2... * 10^point` is below 1e-6 when
   `point <= -6` and at least 1e21 when `point > 21`.
   */
  lemma ExponentFormByMagnitude(negative: bool, r: Repr)
    ensures var f := Float(Finite(negative, r));
            FormatNumber(f).Some? && ValueOf(f).Some? &&
            ('e' as int in FormatNumber(f).value <==> ValueOf(f).value.point <= -6 || ValueOf(f).value.point > 21)
  {
    SignificandIsEcma(negative, r);
    LayoutExponentMark(Significand(r).0, Significand(r).1);
  }

  /** The text of a float depends on its decimal value alone, not on how `repr` wrote it. */
  lemma EqualFloatsPrintAlike(f: PyFloat, g: PyFloat)
    requires ValueOf(Float(f)).Some? && ValueOf(Float(f)) == ValueOf(Float(g))
    ensures FormatNumber(Float(f)) == FormatNumber(Float(g))
  {
    if f.Finite? {
      SignificandIsEcma(f.negative, f.repr);
    }
    if g.Finite? {
      SignificandIsEcma(g.negative, g.repr);
    }
  }
}
