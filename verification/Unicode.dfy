/**
 Python strings as sequences of code points, and the two encodings the repository
 relies on: UTF-16BE for property sorting and UTF-8 for signing and hashing.
 */
module Unicode {
  import opened Wrappers
  import opened Order

  // A Python `str` may hold any code point, surrogates included.
  type CodePoint = c: int | 0 <= c < 0x110000

  type Text = seq<CodePoint>

  type Byte = b: int | 0 <= b < 0x100

  type Bytes = seq<Byte>

  /** The text of a literal. */
  function Lit(s: string): (t: Text)
    ensures |t| == |s|
    ensures forall i :: 0 <= i < |s| ==> t[i] == s[i] as int
  {
    seq(|s|, i requires 0 <= i < |s| => s[i] as int)
  }

  predicate IsSurrogate(c: CodePoint) {
    0xD800 <= c <= 0xDFFF
  }

  /** No surrogate code point, so the text can be encoded in UTF-8 and UTF-16. */
  predicate Encodable(t: Text) {
    forall i :: 0 <= i < |t| ==> !IsSurrogate(t[i])
  }

  // ---------------------------------------------------------------- UTF-16

  type Unit16 = u: int | 0 <= u < 0x10000

  function UnitsOf(c: CodePoint): (us: seq<Unit16>)
    ensures us != []
  {
    if c < 0x10000 then [c]
    else [0xD800 + (c - 0x10000) / 0x400, 0xDC00 + (c - 0x10000) % 0x400]
  }

  function Utf16Units(t: Text): seq<Unit16> {
    if t == [] then [] else UnitsOf(t[0]) + Utf16Units(t[1..])
  }

  function BigEndian(us: seq<Unit16>): Bytes {
    if us == [] then [] else [us[0] / 0x100, us[0] % 0x100] + BigEndian(us[1..])
  }

  /** `value.encode("utf-16-be")` */
  function Utf16Be(t: Text): Bytes {
    BigEndian(Utf16Units(t))
  }

  lemma {:induction false} BigEndianKeepsOrder(us: seq<Unit16>, vs: seq<Unit16>)
    ensures LexLess(BigEndian(us), BigEndian(vs)) <==> LexLess(us, vs)
  {
    if us != [] && vs != [] {
      var x, y := BigEndian(us), BigEndian(vs);
      assert x[2..] == BigEndian(us[1..]) && y[2..] == BigEndian(vs[1..]);
      assert x[1..][1..] == x[2..] && y[1..][1..] == y[2..];
      BigEndianKeepsOrder(us[1..], vs[1..]);
      assert LexLess(x[1..], y[1..]) <==>
        x[1] < y[1] || (x[1] == y[1] && LexLess(x[1..][1..], y[1..][1..]));
    }
  }

  /**
   Sorting property names by their UTF-16BE bytes is the UTF-16 code-unit order that
   section 3.2.3 of RFC 8785 asks for.
   */
  lemma Utf16BeOrderIsCodeUnitOrder(s: Text, t: Text)
    ensures LexLess(Utf16Be(s), Utf16Be(t)) <==> LexLess(Utf16Units(s), Utf16Units(t))
  {
    BigEndianKeepsOrder(Utf16Units(s), Utf16Units(t));
  }

  /** It is not the code-point order in which Python compares `str`. */
  lemma CodeUnitOrderIsNotCodePointOrder()
    ensures LexLess([0xFFFF], [0x10000])
    ensures LexLess(Utf16Be([0x10000]), Utf16Be([0xFFFF]))
  {
    assert Utf16Units([0xFFFF]) == [0xFFFF];
    assert Utf16Units([0x10000]) == [0xD800, 0xDC00];
    Utf16BeOrderIsCodeUnitOrder([0x10000], [0xFFFF]);
  }

  lemma UnitsOfPrefixFree(c: CodePoint, d: CodePoint, x: seq<Unit16>, y: seq<Unit16>)
    requires !IsSurrogate(c) && !IsSurrogate(d)
    requires UnitsOf(c) + x == UnitsOf(d) + y
    ensures c == d && x == y
  {
    var l, r := UnitsOf(c) + x, UnitsOf(d) + y;
    assert l[0] == UnitsOf(c)[0] && r[0] == UnitsOf(d)[0];
    if c >= 0x10000 && d >= 0x10000 {
      assert l[1] == UnitsOf(c)[1] && r[1] == UnitsOf(d)[1];
    }
    assert c == d;
    assert x == l[|UnitsOf(c)|..] && y == r[|UnitsOf(d)|..];
  }

  lemma {:induction false} Utf16UnitsInjective(s: Text, t: Text)
    requires Encodable(s) && Encodable(t) && Utf16Units(s) == Utf16Units(t)
    ensures s == t
  {
    if s != [] && t != [] {
      UnitsOfPrefixFree(s[0], t[0], Utf16Units(s[1..]), Utf16Units(t[1..]));
      Utf16UnitsInjective(s[1..], t[1..]);
      assert s == [s[0]] + s[1..] && t == [t[0]] + t[1..];
    }
  }

  lemma {:induction false} BigEndianInjective(us: seq<Unit16>, vs: seq<Unit16>)
    requires BigEndian(us) == BigEndian(vs)
    ensures us == vs
  {
    if us != [] && vs != [] {
      var x, y := BigEndian(us), BigEndian(vs);
      assert x[0] == y[0] && x[1] == y[1];
      assert x[2..] == BigEndian(us[1..]) && y[2..] == BigEndian(vs[1..]);
      BigEndianInjective(us[1..], vs[1..]);
      assert us == [us[0]] + us[1..] && vs == [vs[0]] + vs[1..];
    }
  }

  /** Distinct property names never share a sort key. */
  lemma Utf16BeInjective(s: Text, t: Text)
    requires Encodable(s) && Encodable(t) && Utf16Be(s) == Utf16Be(t)
    ensures s == t
  {
    BigEndianInjective(Utf16Units(s), Utf16Units(t));
    Utf16UnitsInjective(s, t);
  }

  // ---------------------------------------------------------------- UTF-8

  function Utf8Of(c: CodePoint): (bs: Bytes)
    ensures bs != []
    ensures c < 0x80 ==> bs == [c]
    ensures c >= 0x80 ==> forall i :: 0 <= i < |bs| ==> bs[i] >= 0x80
  {
    if c < 0x80 then [c]
    else if c < 0x800 then [0xC0 + c / 0x40, 0x80 + c % 0x40]
    else if c < 0x10000 then [0xE0 + c / 0x1000, 0x80 + c / 0x40 % 0x40, 0x80 + c % 0x40]
    else [0xF0 + c / 0x40000, 0x80 + c / 0x1000 % 0x40, 0x80 + c / 0x40 % 0x40, 0x80 + c % 0x40]
  }

  /** `text.encode("utf-8")` */
  function Utf8(t: Text): Bytes {
    if t == [] then [] else Utf8Of(t[0]) + Utf8(t[1..])
  }

  function Utf8Length(lead: Byte): nat {
    if lead < 0x80 then 1 else if lead < 0xE0 then 2 else if lead < 0xF0 then 3 else 4
  }

  /** The code point at the head of a UTF-8 byte string, with the bytes after it. */
  function Utf8Head(bs: Bytes): Option<(CodePoint, Bytes)>
    requires bs != []
  {
    var n := Utf8Length(bs[0]);
    if |bs| < n then None
    else
      var b: seq<int> := bs[..n];
      var c: int :=
        if n == 1 then b[0]
        else if n == 2 then (b[0] - 0xC0) * 0x40 + (b[1] - 0x80)
        else if n == 3 then (b[0] - 0xE0) * 0x1000 + (b[1] - 0x80) * 0x40 + (b[2] - 0x80)
        else (b[0] - 0xF0) * 0x40000 + (b[1] - 0x80) * 0x1000 + (b[2] - 0x80) * 0x40 + (b[3] - 0x80);
      if 0 <= c < 0x110000 && Utf8Of(c) == bs[..n] then Some((c, bs[n..])) else None
  }

  /** `raw.decode("utf-8")`, refusing anything `Utf8` does not produce. */
  function Utf8Decode(bs: Bytes): Option<Text> {
    if bs == [] then Some([])
    else
      var (c, rest) :- Utf8Head(bs);
      var t :- Utf8Decode(rest);
      Some([c] + t)
  }

  lemma Utf8HeadDecodes(c: CodePoint, rest: Bytes)
    ensures Utf8Head(Utf8Of(c) + rest) == Some((c, rest))
  {
    var bs := Utf8Of(c) + rest;
    var n := |Utf8Of(c)|;
    assert bs[..n] == Utf8Of(c) && bs[n..] == rest;
    assert forall i :: 0 <= i < n ==> bs[i] == Utf8Of(c)[i];
    assert Utf8Length(bs[0]) == n;
    if 0x800 <= c < 0x10000 {
      assert c / 0x1000 == c / 0x40 / 0x40;
    } else if 0x10000 <= c {
      assert c / 0x1000 == c / 0x40 / 0x40 && c / 0x40000 == c / 0x1000 / 0x40;
    }
  }

  /** Decoding inverts encoding, so distinct texts have distinct bytes. */
  lemma {:induction false} Utf8RoundTrip(t: Text)
    ensures Utf8Decode(Utf8(t)) == Some(t)
  {
    if t != [] {
      Utf8HeadDecodes(t[0], Utf8(t[1..]));
      Utf8RoundTrip(t[1..]);
      assert t == [t[0]] + t[1..];
    }
  }

  lemma Utf8Injective(s: Text, t: Text)
    requires Utf8(s) == Utf8(t)
    ensures s == t
  {
    Utf8RoundTrip(s);
    Utf8RoundTrip(t);
  }
}
