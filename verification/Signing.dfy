/** The canonical JSON printer of `concordia/signing.py`. */
module Signing {
  import opened Wrappers
  import opened Order
  import opened Unicode
  import opened Numbers
  import opened NumberTexts
  import opened PythonValues

  // ---------------------------------------------------------------- strings

  function HexDigit(d: int): CodePoint
    requires 0 <= d < 16
  {
    if d < 10 then '0' as int + d else 'a' as int + d - 10
  }

  /** One character as `json.dumps(..., ensure_ascii=False)` writes it. */
  function EscapeChar(c: CodePoint): (t: Text)
    ensures t != []
  {
    if c == '"' as int then ['\\' as int, '"' as int]
    else if c == '\\' as int then ['\\' as int, '\\' as int]
    else if c == 0x08 then ['\\' as int, 'b' as int]
    else if c == 0x0C then ['\\' as int, 'f' as int]
    else if c == 0x0A then ['\\' as int, 'n' as int]
    else if c == 0x0D then ['\\' as int, 'r' as int]
    else if c == 0x09 then ['\\' as int, 't' as int]
    else if c < 0x20 then
      ['\\' as int, 'u' as int, '0' as int, '0' as int, HexDigit(c / 16), HexDigit(c % 16)]
    else [c]
  }

  function EscapeAll(t: Text): Text {
    if t == [] then [] else EscapeChar(t[0]) + EscapeAll(t[1..])
  }

  /** `json.dumps(s, ensure_ascii=False)` */
  function Quote(s: Text): Text {
    ['"' as int] + EscapeAll(s) + ['"' as int]
  }

  // ---------------------------------------------------------------- printer

  /** `",".join(parts)` */
  function Join(parts: seq<Text>): Text {
    if parts == [] then []
    else if |parts| == 1 then parts[0]
    else parts[0] + [',' as int] + Join(parts[1..])
  }

  /** `_stable_stringify`; `None` stands for the ValueError or TypeError it raises. */
  function Stringify(j: Json): Option<Text> {
    match j
    case Null => Some(Lit("null"))
    case Bool(b) => Some(if b then Lit("true") else Lit("false"))
    case Num(num) => FormatNumber(num)
    case Str(s) => if Encodable(s) then Some(Quote(s)) else None
    case Arr(_, elems) =>
      var parts :- StringifyAll(elems);
      Some(['[' as int] + Join(parts) + [']' as int])
    case Obj(ms) =>
      var pairs :- StringifyMembers(ms);
      Some(['{' as int] + Join(Items(Sort(pairs))) + ['}' as int])
    case Time(_) => None
  }

  function StringifyAll(elems: seq<Json>): (r: Option<seq<Text>>)
    ensures r.Some? ==> |r.value| == |elems|
  {
    if elems == [] then Some([])
    else
      var first :- Stringify(elems[0]);
      var rest :- StringifyAll(elems[1..]);
      Some([first] + rest)
  }

  /** Each member as `"key":value` text under its UTF-16BE sort key. */
  function StringifyMembers(ms: seq<Member>): (r: Option<seq<Keyed<Text>>>)
    ensures r.Some? ==> |r.value| == |ms|
  {
    if ms == [] then Some([])
    else if !Encodable(ms[0].key) then None
    else
      var value :- Stringify(ms[0].value);
      var rest :- StringifyMembers(ms[1..]);
      Some([Keyed(Utf16Be(ms[0].key), Quote(ms[0].key) + [':' as int] + value)] + rest)
  }

  /** `_check_no_special_floats` returns without raising. */
  predicate NoSpecialFloats(j: Json) {
    match j
    case Num(Float(f)) => !f.NaN? && !f.Infinity? && !(f.Zero? && f.negative)
    case Arr(_, elems) => forall i :: 0 <= i < |elems| ==> NoSpecialFloats(elems[i])
    case Obj(ms) => forall i :: 0 <= i < |ms| ==> NoSpecialFloats(ms[i].value)
    case _ => true
  }

  /** The text that `canonical_json` encodes, or `None` when it raises. */
  function CanonicalText(j: Json): Option<Text> {
    if NoSpecialFloats(j) then Stringify(j) else None
  }

  /** `canonical_json` */
  function CanonicalJson(j: Json): Option<Bytes> {
    var t :- CanonicalText(j);
    Some(Utf8(t))
  }

  // ---------------------------------------------------------------- acceptance

  /** What RFC 8785 can represent: finite numbers, no negative zero, no lone surrogate. */
  predicate Canonicalizable(j: Json) {
    match j
    case Num(Float(f)) => f.Finite? || f == Zero(false)
    case Str(s) => Encodable(s)
    case Arr(_, elems) => forall i :: 0 <= i < |elems| ==> Canonicalizable(elems[i])
    case Obj(ms) =>
      forall i :: 0 <= i < |ms| ==> Encodable(ms[i].key) && Canonicalizable(ms[i].value)
    case Time(_) => false
    case _ => true
  }

  lemma {:induction false} StringifyAllAccepts(elems: seq<Json>)
    ensures StringifyAll(elems).Some? <==> forall i :: 0 <= i < |elems| ==> Stringify(elems[i]).Some?
    ensures StringifyAll(elems).Some? ==>
              forall i :: 0 <= i < |elems| ==> StringifyAll(elems).value[i] == Stringify(elems[i]).value
  {
    if elems != [] {
      StringifyAllAccepts(elems[1..]);
      assert forall i :: 0 < i < |elems| ==> elems[i] == elems[1..][i - 1];
    }
  }

  lemma {:induction false} StringifyMembersAccepts(ms: seq<Member>)
    ensures StringifyMembers(ms).Some? <==>
            forall i :: 0 <= i < |ms| ==> Encodable(ms[i].key) && Stringify(ms[i].value).Some?
    ensures StringifyMembers(ms).Some? ==>
              forall i :: 0 <= i < |ms| ==>
                StringifyMembers(ms).value[i]
                == Keyed(Utf16Be(ms[i].key), Quote(ms[i].key) + [':' as int] + Stringify(ms[i].value).value)
  {
    if ms != [] {
      StringifyMembersAccepts(ms[1..]);
      assert forall i :: 0 < i < |ms| ==> ms[i] == ms[1..][i - 1];
    }
  }

  /** The printer raises on exactly the values that have no canonical form. */
  lemma {:induction false} PrinterDomain(j: Json)
    ensures CanonicalText(j).Some? <==> Canonicalizable(j)
    ensures CanonicalText(j).Some? ==> Stringify(j).Some?
  {
    match j
    case Arr(_, elems) =>
      StringifyAllAccepts(elems);
      forall i | 0 <= i < |elems| {
        PrinterDomain(elems[i]);
      }
    case Obj(ms) =>
      StringifyMembersAccepts(ms);
      forall i | 0 <= i < |ms| {
        PrinterDomain(ms[i].value);
      }
    case _ =>
  }

  // ---------------------------------------------------------------- insertion order

  /**
   Equal up to member order and list or tuple. Numbers are equal as decimals, but from 10
   to the power 21 on an int differs from a float.
   */
  ghost predicate SameValue(a: Json, b: Json) {
    match (a, b)
    case (Null, Null) => true
    case (Bool(x), Bool(y)) => x == y
    case (Num(x), Num(y)) => SameNumber(x, y)
    case (Str(x), Str(y)) => x == y
    case (Arr(_, xs), Arr(_, ys)) =>
      |xs| == |ys| && forall i :: 0 <= i < |xs| ==> SameValue(xs[i], ys[i])
    case (Obj(xs), Obj(ys)) =>
      && |xs| == |ys|
      && forall i :: 0 <= i < |xs| ==>
           exists k :: 0 <= k < |ys| && xs[i].key == ys[k].key && SameValue(xs[i].value, ys[k].value)
    case (Time(x), Time(y)) => x == y
    case _ => false
  }

  lemma SameElements<T>(xs: seq<T>, ys: seq<T>)
    requires |xs| == |ys|
    requires forall i, j :: 0 <= i < j < |xs| ==> xs[i] != xs[j]
    requires forall i :: 0 <= i < |xs| ==> xs[i] in ys
    ensures multiset(xs) == multiset(ys)
  {
    forall x
      ensures multiset(xs)[x] <= multiset(ys)[x]
    {
      if multiset(xs)[x] >= 2 {
        MultiplicityMeansRepeat(xs, x);
      } else if multiset(xs)[x] == 1 {
        assert x in xs;
      }
    }
    var extra := multiset(ys) - multiset(xs);
    assert multiset(ys) == multiset(xs) + extra;
    assert |multiset(ys)| == |ys| && |multiset(xs)| == |xs|;
  }

  lemma MemberPairsDistinct(ms: seq<Member>)
    requires DistinctNames(ms) && StringifyMembers(ms).Some?
    ensures DistinctKeys(StringifyMembers(ms).value)
  {
    StringifyMembersAccepts(ms);
    forall i, j | 0 <= i < j < |ms|
      ensures Utf16Be(ms[i].key) != Utf16Be(ms[j].key)
    {
      if Utf16Be(ms[i].key) == Utf16Be(ms[j].key) {
        Utf16BeInjective(ms[i].key, ms[j].key);
      }
    }
  }

  /** Values that differ only in order, list or tuple, and the way their numbers are held print alike. */
  lemma {:induction false} SameValuePrintsAlike(a: Json, b: Json)
    requires IsPython(a) && Stringify(a).Some? && Stringify(b).Some? && SameValue(a, b)
    ensures Stringify(a) == Stringify(b)
    decreases a
  {
    match a
    case Arr(_, xs) =>
      var ys := b.elems;
      StringifyAllAccepts(xs);
      StringifyAllAccepts(ys);
      forall i | 0 <= i < |xs| {
        SameValuePrintsAlike(xs[i], ys[i]);
      }
      assert StringifyAll(xs).value == StringifyAll(ys).value;
    case Obj(xs) =>
      var ys := b.members;
      StringifyMembersAccepts(xs);
      StringifyMembersAccepts(ys);
      var ps, qs := StringifyMembers(xs).value, StringifyMembers(ys).value;
      MemberPairsDistinct(xs);
      forall i | 0 <= i < |ps|
        ensures ps[i] in qs
      {
        var k :| 0 <= k < |ys| && xs[i].key == ys[k].key && SameValue(xs[i].value, ys[k].value);
        SameValuePrintsAlike(xs[i].value, ys[k].value);
        assert ps[i] == qs[k];
      }
      SameElements(ps, qs);
      SortCanonical(ps, qs);
    case Num(x) => SameTextIff(x, b.num);
    case _ =>
  }
}
