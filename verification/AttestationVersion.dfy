/** The strict three-component version of an attestation and its ordering. */
module AttestationVersion {
  import opened Wrappers
  import opened Order
  import opened Unicode
  import opened Numbers
  import opened PythonValues

  const MAX_COMPONENT_DIGITS := 4300

  datatype Version = Version(major: nat, minor: nat, patch: nat)

  const IMPLEMENTED := Version(0, 6, 0)

  /** `0` or digits without a leading zero, within the length CPython converts. */
  function Component(t: Text): Option<nat> {
    var ds :- ReadDigits(t);
    if ds == [] || (ds[0] == 0 && |ds| > 1) || |ds| > MAX_COMPONENT_DIGITS then None
    else Some(DigitsValue(ds))
  }

  /** `_version_tuple`; `None` for both of its errors. */
  function Parse(value: Option<Json>): Option<Version> {
    match value
    case Some(Str(t)) =>
      var (first, rest) := CutAt('.' as int, t);
      var afterFirst :- rest;
      var (second, third) := CutAt('.' as int, afterFirst);
      var last :- third;
      var major :- Component(first);
      var minor :- Component(second);
      var patch :- Component(last);
      Some(Version(major, minor, patch))
    case _ => None
  }

  function AsTuple(v: Version): seq<int> {
    [v.major, v.minor, v.patch]
  }

  predicate ExceedsImplemented(v: Version) {
    LexLess(AsTuple(IMPLEMENTED), AsTuple(v))
  }

  /** `version[:2] < (major, minor)` */
  predicate BelowFloor(v: Version, major: nat, minor: nat) {
    v.major < major || (v.major == major && v.minor < minor)
  }

  /** The text of a version with one digit each. */
  function ShortText(a: Digit, b: Digit, c: Digit): Text {
    DigitText([a]) + (['.' as int] + (DigitText([b]) + Point([c])))
  }

  lemma OneDigit(d: Digit)
    ensures Component(DigitText([d])) == Some(d as nat)
  {
    ReadDigitText([d]);
    assert [d][..0] == [];
    assert DigitsValue([d]) == 10 * DigitsValue([]) + d;
  }

  lemma ShortParses(a: Digit, b: Digit, c: Digit)
    ensures Parse(Some(Str(ShortText(a, b, c)))) == Some(Version(a, b, c))
  {
    var rest := DigitText([b]) + Point([c]);
    CutAtMarker('.' as int, DigitText([a]), ['.' as int] + rest);
    CutAtMarker('.' as int, DigitText([b]), Point([c]));
    assert (['.' as int] + rest)[1..] == rest && Point([c])[1..] == DigitText([c]);
    OneDigit(a);
    OneDigit(b);
    OneDigit(c);
  }

  // ---------------------------------------------------------------- which texts are versions

  /** The decimal digits of a number are the only ones without an idle zero that have its value. */
  lemma {:induction false} DigitsAreNat(ds: Digits)
    requires ds != [] && (ds[0] != 0 || |ds| == 1)
    ensures NatDigits(DigitsValue(ds)) == ds
  {
    var init, last := ds[..|ds| - 1], ds[|ds| - 1];
    assert ds == init + [last];
    if init != [] {
      DigitsAreNat(init);
      FirstCounts(init);
    }
  }

  lemma {:induction false} FirstCounts(ds: Digits)
    requires ds != [] && ds[0] != 0
    ensures DigitsValue(ds) > 0
  {
    if |ds| > 1 {
      FirstCounts(ds[..|ds| - 1]);
    }
  }

  function NumberText(n: nat): Text {
    DigitText(NatDigits(n))
  }

  lemma ComponentIff(t: Text, n: nat)
    ensures Component(t) == Some(n) <==> t == NumberText(n) && |t| <= 4300
  {
    NatDigitsValue(n);
    ReadDigitText(NatDigits(n));
    if Component(t) == Some(n) {
      var ds := ReadDigits(t).value;
      DigitsAreNat(ds);
      assert DigitText(ds) == t;
    }
    if n < 10 {
      assert NatDigits(n) == [n];
    }
  }

  /** Three numbers with a dot between each two. */
  function VersionText(v: Version): Text {
    NumberText(v.major) + (['.' as int] + (NumberText(v.minor) + (['.' as int] + NumberText(v.patch))))
  }

  /** The length that CPython converts to an int. */
  predicate ShortEnough(n: nat) {
    |NumberText(n)| <= 4300
  }

  lemma {:induction false} CutIs(mark: CodePoint, t: Text)
    ensures var (before, after) := CutAt(mark, t);
            && mark !in before
            && t == before + match after case Some(rest) => [mark] + rest case None => []
  {
    if t != [] && t[0] != mark {
      CutIs(mark, t[1..]);
      assert t == [t[0]] + t[1..];
    } else if t != [] {
      assert t == [] + ([mark] + t[1..]);
    }
  }

  lemma CutVersion(n: nat, rest: Text)
    ensures CutAt('.' as int, NumberText(n) + (['.' as int] + rest)) == (NumberText(n), Some(rest))
  {
    CutAtMarker('.' as int, NumberText(n), ['.' as int] + rest);
    assert (['.' as int] + rest)[1..] == rest;
  }

  /** A text is read as a version exactly when it is that version's text: no idle zeros, no further parts. */
  lemma ParseIff(t: Text, v: Version)
    ensures Parse(Some(Str(t))) == Some(v) <==>
            t == VersionText(v) && ShortEnough(v.major) && ShortEnough(v.minor) && ShortEnough(v.patch)
  {
    if Parse(Some(Str(t))) == Some(v) {
      var (a, rest) := CutAt('.' as int, t);
      var (b, last) := CutAt('.' as int, rest.value);
      CutIs('.' as int, t);
      CutIs('.' as int, rest.value);
      ComponentIff(a, v.major);
      ComponentIff(b, v.minor);
      ComponentIff(last.value, v.patch);
    }
    if t == VersionText(v) {
      CutVersion(v.major, NumberText(v.minor) + (['.' as int] + NumberText(v.patch)));
      CutVersion(v.minor, NumberText(v.patch));
      ComponentIff(NumberText(v.major), v.major);
      ComponentIff(NumberText(v.minor), v.minor);
      ComponentIff(NumberText(v.patch), v.patch);
    }
  }
}
