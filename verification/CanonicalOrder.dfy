/** What canonical text looks like from outside: the order of names, and how strings are escaped. */
module CanonicalOrder {
  import opened Wrappers
  import opened Order
  import opened Unicode
  import opened PythonValues
  import opened Signing
  import opened CanonicalParser

  // ---------------------------------------------------------------- UTF-16

  /** One unit below the supplementary planes, and a high and a low surrogate from there on. */
  lemma UnitsAreUtf16(c: CodePoint)
    ensures var us := UnitsOf(c);
            if c < 0x10000 then us == [c]
            else && |us| == 2 && 0xD800 <= us[0] < 0xDC00 && 0xDC00 <= us[1] < 0xE000
                 && c == 0x10000 + (us[0] as int - 0xD800) * 0x400 + (us[1] as int - 0xDC00)
  {
  }

  /** The units of a text are those of its characters, in order. */
  lemma {:induction false} UnitsOfAppended(s: Text, t: Text)
    ensures Utf16Units(s + t) == Utf16Units(s) + Utf16Units(t)
  {
    if s == [] {
      assert s + t == t;
    } else {
      assert (s + t)[1..] == s[1..] + t;
      UnitsOfAppended(s[1..], t);
    }
  }

  // ---------------------------------------------------------------- names

  /** In every object, at any depth, the names stand in the order of their UTF-16 units. */
  ghost predicate NamesInOrder(v: Value) {
    match v
    case VArr(elems) => forall i :: 0 <= i < |elems| ==> NamesInOrder(elems[i])
    case VObj(ms) =>
      && (forall i, j :: 0 <= i < j < |ms| ==> Precedes(Utf16Units(ms[i].key), Utf16Units(ms[j].key)))
      && forall i :: 0 <= i < |ms| ==> NamesInOrder(ms[i].value)
    case _ => true
  }

  lemma NamesPrecede(s: Text, t: Text)
    requires Encodable(s) && Encodable(t) && s != t && !LexLess(Utf16Be(t), Utf16Be(s))
    ensures Precedes(Utf16Units(s), Utf16Units(t))
  {
    if Utf16Be(s) == Utf16Be(t) {
      Utf16BeInjective(s, t);
    }
    LexTotal(Utf16Be(s), Utf16Be(t));
    Utf16BeOrderIsCodeUnitOrder(s, t);
    LexLessIff(Utf16Units(s), Utf16Units(t));
  }

  ghost predicate KeyedByName(x: Keyed<VMember>) {
    Encodable(x.item.key) && x.key == Utf16Be(x.item.key)
  }

  lemma SortedNames(ms: seq<Member>)
    requires DistinctNames(ms) && forall i :: 0 <= i < |ms| ==> Encodable(ms[i].key)
    ensures var vs := CanonObject(ms);
            forall i, j :: 0 <= i < j < |vs| ==> Precedes(Utf16Units(vs[i].key), Utf16Units(vs[j].key))
  {
    var xs := CanonMembers(ms);
    var ys := Sort(xs);
    forall i, j | 0 <= i < j < |xs|
      ensures xs[i].key != xs[j].key
    {
      if Utf16Be(ms[i].key) == Utf16Be(ms[j].key) {
        Utf16BeInjective(ms[i].key, ms[j].key);
      }
    }
    SortPermutes(xs);
    SortSorts(xs);
    DistinctKeysPermute(xs, ys);
    forall i | 0 <= i < |ys|
      ensures KeyedByName(ys[i])
    {
      SortKeepsMembers(xs, ys[i]);
    }
    forall i, j | 0 <= i < j < |ys|
      ensures Precedes(Utf16Units(ys[i].item.key), Utf16Units(ys[j].item.key))
    {
      assert KeyedByName(ys[i]) && KeyedByName(ys[j]) && ys[i].key != ys[j].key;
      NamesPrecede(ys[i].item.key, ys[j].item.key);
    }
  }

  lemma {:induction false} CanonInOrder(j: Json)
    requires IsPython(j) && Canonicalizable(j)
    ensures NamesInOrder(Canon(j))
  {
    match j
    case Arr(_, elems) =>
      forall i | 0 <= i < |elems|
        ensures NamesInOrder(CanonAll(elems)[i])
      {
        CanonInOrder(elems[i]);
      }
    case Obj(ms) =>
      SortedNames(ms);
      var vs := CanonObject(ms);
      forall p | 0 <= p < |vs|
        ensures NamesInOrder(vs[p].value)
      {
        SortedCanonMember(ms, p);
        var k :| 0 <= k < |ms| && ms[k].key == vs[p].key && Canon(ms[k].value) == vs[p].value;
        CanonInOrder(ms[k].value);
      }
    case _ =>
  }

  /**
   Section 3.2.3 of RFC 8785, on the bytes: whatever dict is printed, the names in the
   output stand, at every depth, in the order of their UTF-16 units, a name before any
   longer name that it begins.
   */
  lemma PrintedNamesInOrder(j: Json)
    requires IsPython(j) && CanonicalJson(j).Some?
    ensures Parse(CanonicalJson(j).value).Some? && NamesInOrder(Parse(CanonicalJson(j).value).value)
  {
    PrinterDomain(j);
    ParserInvertsPrinter(j);
    CanonInOrder(j);
  }

  // ---------------------------------------------------------------- escapes

  /** The text stands for the one character `c` inside a string. */
  predicate StandsFor(t: Text, c: CodePoint) {
    ParseBody(t + ['"' as int]) == Some(([c], []))
  }

  lemma BodyEndsAtQuote(s: Text)
    requires ParseBody(s) == Some(([], []))
    ensures s == ['"' as int]
  {
    assert s == [s[0]] + s[1..];
  }

  /** A text for one character is what one step of the reader consumes. */
  lemma StandsForIsOneStep(t: Text, c: CodePoint)
    requires StandsFor(t, c)
    ensures t != [] && t[0] != '"' as int && ParseChar(t + ['"' as int]) == Some((c, ['"' as int]))
  {
    var s := t + ['"' as int];
    if t != [] {
      assert s[0] == t[0];
      assert |[c]| == 1;
      var (d, rest) := ParseChar(s).value;
      var (u, end) := ParseBody(rest).value;
      assert [c] == [d] + u;
      assert |u| == 0 && ([d] + u)[0] == d;
      assert u == [] && end == [];
      BodyEndsAtQuote(rest);
    }
  }

  lemma HexOfSmall(c: CodePoint, p: int, q: int, r: int, s: int)
    requires 0 <= p < 16 && 0 <= q < 16 && 0 <= r < 16 && 0 <= s < 16
    requires c == p * 0x1000 + q * 0x100 + r * 0x10 + s && c < 0x20
    ensures p == 0 && q == 0 && r == c / 16 && s == c % 16
  {
  }

  /** `json.dumps` writes each character in the one shortest way there is. */
  lemma EscapeIsShortest(c: CodePoint, t: Text)
    requires StandsFor(t, c)
    ensures StandsFor(EscapeChar(c), c) && (t == EscapeChar(c) || |EscapeChar(c)| < |t|)
  {
    var quote: Text := ['"' as int];
    ParseEscapedChar(c, quote);
    assert (EscapeChar(c) + quote)[0] == EscapeChar(c)[0];
    assert ParseBody(quote) == Some(([], []));
    StandsForIsOneStep(t, c);
    var s := t + quote;
    if t[0] != '\\' as int {
      assert s[1..] == quote;
      assert t == [c];
    } else if |s| >= 6 && s[1] == 'u' as int {
      assert s[6..] == quote;
      UnicodeEscape(t, c);
    } else {
      assert s[2..] == quote;
      assert t == [t[0], t[1]];
    }
  }

  lemma UnicodeEscape(t: Text, c: CodePoint)
    requires |t| == 6 && t[0] == '\\' as int && t[1] == 'u' as int
    requires ParseChar(t + ['"' as int]) == Some((c, ['"' as int]))
    ensures t == EscapeChar(c) || |EscapeChar(c)| < |t|
  {
    var s := t + ['"' as int];
    assert forall i :: 0 <= i < 6 ==> s[i] == t[i];
    if |EscapeChar(c)| == 6 {
      HexOfSmall(c, HexValue(t[2]).value, HexValue(t[3]).value, HexValue(t[4]).value, HexValue(t[5]).value);
      HexTextUnique(t[2], 0);
      HexTextUnique(t[3], 0);
      HexTextUnique(t[4], c / 16);
      HexTextUnique(t[5], c % 16);
    }
  }

  lemma HexTextUnique(x: CodePoint, d: int)
    requires HexValue(x) == Some(d) && 0 <= d < 16
    ensures x == HexDigit(d)
  {
  }
}
