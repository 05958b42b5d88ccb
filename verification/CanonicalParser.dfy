/**
 A reader for canonical JSON and the proof that it inverts the printer: equal bytes
 mean equal values.
 */
module CanonicalParser {
  import opened Wrappers
  import opened Order
  import opened Unicode
  import opened Numbers
  import opened NumberTexts
  import opened PythonValues
  import opened Signing

  /** What `json.loads` makes of canonical text; a number is kept as its lexeme. */
  datatype Value =
    | VNull
    | VBool(b: bool)
    | VNum(lexeme: Text)
    | VStr(s: Text)
    | VArr(elems: seq<Value>)
    | VObj(members: seq<VMember>)

  datatype VMember = VMember(key: Text, value: Value)

  /** The canonical form of a Python value: lists only, members in UTF-16 order. */
  function Canon(j: Json): Value {
    match j
    case Null => VNull
    case Bool(b) => VBool(b)
    case Num(num) => VNum(match FormatNumber(num) case Some(t) => t case None => [])
    case Str(s) => VStr(s)
    case Arr(_, elems) => VArr(CanonAll(elems))
    case Obj(ms) => VObj(Items(Sort(CanonMembers(ms))))
    case Time(_) => VNull
  }

  function CanonAll(elems: seq<Json>): (vs: seq<Value>)
    ensures |vs| == |elems|
    ensures forall i :: 0 <= i < |elems| ==> vs[i] == Canon(elems[i])
  {
    if elems == [] then [] else [Canon(elems[0])] + CanonAll(elems[1..])
  }

  function CanonMembers(ms: seq<Member>): (vs: seq<Keyed<VMember>>)
    ensures |vs| == |ms|
    ensures forall i :: 0 <= i < |ms| ==>
              vs[i] == Keyed(Utf16Be(ms[i].key), VMember(ms[i].key, Canon(ms[i].value)))
  {
    if ms == [] then []
    else [Keyed(Utf16Be(ms[0].key), VMember(ms[0].key, Canon(ms[0].value)))] + CanonMembers(ms[1..])
  }

  // ---------------------------------------------------------------- reader

  function HexValue(c: CodePoint): Option<int> {
    if '0' as int <= c <= '9' as int then Some(c - '0' as int)
    else if 'a' as int <= c <= 'f' as int then Some(c - 'a' as int + 10)
    else None
  }

  /** One character of a string body, escape sequences resolved. */
  function ParseChar(s: Text): (r: Option<(CodePoint, Text)>)
    requires s != []
    ensures r.Some? ==> |r.value.1| < |s|
  {
    if s[0] < 0x20 then None
    else if s[0] != '\\' as int then Some((s[0], s[1..]))
    else if |s| < 2 then None
    else if s[1] == '"' as int || s[1] == '\\' as int then Some((s[1], s[2..]))
    else if s[1] == 'b' as int then Some((0x08, s[2..]))
    else if s[1] == 'f' as int then Some((0x0C, s[2..]))
    else if s[1] == 'n' as int then Some((0x0A, s[2..]))
    else if s[1] == 'r' as int then Some((0x0D, s[2..]))
    else if s[1] == 't' as int then Some((0x09, s[2..]))
    else if s[1] == 'u' as int && |s| >= 6 then
      var a :- HexValue(s[2]);
      var b :- HexValue(s[3]);
      var c :- HexValue(s[4]);
      var d :- HexValue(s[5]);
      Some((a * 0x1000 + b * 0x100 + c * 0x10 + d, s[6..]))
    else None
  }

  /** A string body up to and including its closing quote. */
  function ParseBody(s: Text): (r: Option<(Text, Text)>)
    ensures r.Some? ==> |r.value.1| < |s|
    decreases |s|
  {
    if s == [] then None
    else if s[0] == '"' as int then Some(([], s[1..]))
    else
      var (c, rest) :- ParseChar(s);
      var (t, end) :- ParseBody(rest);
      Some(([c] + t, end))
  }

  predicate NumberChar(c: CodePoint) {
    || '0' as int <= c <= '9' as int
    || c == '-' as int || c == '+' as int || c == '.' as int || c == 'e' as int
  }

  function NumberSpan(s: Text): (n: nat)
    ensures n <= |s|
  {
    if s != [] && NumberChar(s[0]) then 1 + NumberSpan(s[1..]) else 0
  }

  function ParseWord(s: Text): (r: Option<(Value, Text)>)
    ensures r.Some? ==> |r.value.1| < |s|
  {
    if Lit("null") <= s then Some((VNull, s[4..]))
    else if Lit("true") <= s then Some((VBool(true), s[4..]))
    else if Lit("false") <= s then Some((VBool(false), s[5..]))
    else None
  }

  function ParseNumber(s: Text): (r: Option<(Value, Text)>)
    requires s != [] && NumberChar(s[0])
    ensures r.Some? ==> |r.value.1| < |s|
  {
    var n := NumberSpan(s);
    if ReadNumber(s[..n]).None? then None else Some((VNum(s[..n]), s[n..]))
  }

  function ParseValue(s: Text): (r: Option<(Value, Text)>)
    ensures r.Some? ==> |r.value.1| < |s|
    decreases |s|, 0
  {
    if s == [] then None
    else if s[0] == '"' as int then
      var (t, rest) :- ParseBody(s[1..]);
      Some((VStr(t), rest))
    else if s[0] == '[' as int then
      var (vs, rest) :- ParseArray(s[1..]);
      Some((VArr(vs), rest))
    else if s[0] == '{' as int then
      var (ms, rest) :- ParseObject(s[1..]);
      Some((VObj(ms), rest))
    else if NumberChar(s[0]) then ParseNumber(s)
    else ParseWord(s)
  }

  /** The rest of an array after its opening bracket. */
  function ParseArray(s: Text): (r: Option<(seq<Value>, Text)>)
    ensures r.Some? ==> |r.value.1| < |s|
    decreases |s|, 2
  {
    if s != [] && s[0] == ']' as int then Some(([], s[1..])) else ParseElems(s)
  }

  /** The rest of an object after its opening brace. */
  function ParseObject(s: Text): (r: Option<(seq<VMember>, Text)>)
    ensures r.Some? ==> |r.value.1| < |s|
    decreases |s|, 3
  {
    if s != [] && s[0] == '}' as int then Some(([], s[1..])) else ParseMembers(s)
  }

  /** `value(,value)*]` */
  function ParseElems(s: Text): (r: Option<(seq<Value>, Text)>)
    ensures r.Some? ==> |r.value.1| < |s|
    decreases |s|, 1
  {
    var (v, rest) :- ParseValue(s);
    if rest == [] then None
    else if rest[0] == ']' as int then Some(([v], rest[1..]))
    else if rest[0] == ',' as int then
      var (vs, end) :- ParseElems(rest[1..]);
      Some(([v] + vs, end))
    else None
  }

  /** `"key":value` */
  function ParseMember(s: Text): (r: Option<(VMember, Text)>)
    ensures r.Some? ==> |r.value.1| < |s|
    decreases |s|, 1
  {
    if s == [] || s[0] != '"' as int then None
    else
      var (key, rest) :- ParseBody(s[1..]);
      if rest == [] || rest[0] != ':' as int then None
      else
        var (v, end) :- ParseValue(rest[1..]);
        Some((VMember(key, v), end))
  }

  /** `member(,member)*}` */
  function ParseMembers(s: Text): (r: Option<(seq<VMember>, Text)>)
    ensures r.Some? ==> |r.value.1| < |s|
    decreases |s|, 2
  {
    var (m, rest) :- ParseMember(s);
    if rest == [] then None
    else if rest[0] == '}' as int then Some(([m], rest[1..]))
    else if rest[0] == ',' as int then
      var (ms, end) :- ParseMembers(rest[1..]);
      Some(([m] + ms, end))
    else None
  }

  /** A whole document. */
  function Parse(raw: Bytes): Option<Value> {
    var t :- Utf8Decode(raw);
    var (v, rest) :- ParseValue(t);
    if rest == [] then Some(v) else None
  }

  // ---------------------------------------------------------------- strings and numbers

  lemma ParseEscapedChar(c: CodePoint, rest: Text)
    ensures EscapeChar(c)[0] != '"' as int
    ensures ParseChar(EscapeChar(c) + rest) == Some((c, rest))
  {
    var e := EscapeChar(c);
    var s := e + rest;
    assert s[|e|..] == rest;
    assert forall i :: 0 <= i < |e| ==> s[i] == e[i];
    if |e| == 6 {
      assert HexValue(s[4]) == Some(c / 16) && HexValue(s[5]) == Some(c % 16);
    }
  }

  lemma {:induction false} ParseQuoted(t: Text, rest: Text)
    ensures ParseBody(EscapeAll(t) + ['"' as int] + rest) == Some((t, rest))
  {
    var s := EscapeAll(t) + ['"' as int] + rest;
    if t == [] {
      assert s[1..] == rest;
    } else {
      var tail := EscapeAll(t[1..]) + ['"' as int] + rest;
      assert s == EscapeChar(t[0]) + tail;
      ParseEscapedChar(t[0], tail);
      ParseQuoted(t[1..], rest);
      assert t == [t[0]] + t[1..];
    }
  }

  lemma NumberTextChars(num: Number)
    requires FormatNumber(num).Some?
    ensures var t := FormatNumber(num).value;
            && t != [] && (t[0] == '-' as int || '0' as int <= t[0] <= '9' as int)
            && AllNumberChars(t)
  {
    match num
    case Int(v) => DigitChars(NatDigits(if v < 0 then -v else v));
    case Float(Finite(negative, repr)) =>
      var (ds, n) := Significand(repr);
      LayoutStartsWithDigit(ds, n);
      LayoutChars(ds, n);
    case Float(_) =>
  }

  ghost predicate AllNumberChars(t: Text) {
    forall i :: 0 <= i < |t| ==> NumberChar(t[i])
  }

  lemma DigitChars(ds: Digits)
    ensures AllNumberChars(DigitText(ds)) && AllNumberChars(Point(ds))
  {
  }

  lemma ExpoChars(e: int)
    ensures AllNumberChars(Expo(e))
  {
    DigitChars(NatDigits(if e < 0 then -e else e));
  }

  lemma LayoutChars(ds: Digits, n: int)
    requires ds != []
    ensures AllNumberChars(Layout(ds, n))
  {
    if |ds| <= n <= 21 {
      DigitChars(ds + Zeros(n - |ds|));
    } else if 0 < n <= 21 {
      DigitChars(ds[..n]);
      DigitChars(ds[n..]);
    } else if -6 < n <= 0 {
      DigitChars([0]);
      DigitChars(Zeros(-n) + ds);
    } else {
      var frac := if |ds| == 1 then [] else Point(ds[1..]);
      DigitChars(ds[..1]);
      DigitChars(ds[1..]);
      ExpoChars(n - 1);
    }
  }

  lemma {:induction false} SpanStops(t: Text, rest: Text)
    requires AllNumberChars(t) && Delimited(rest)
    ensures NumberSpan(t + rest) == |t|
  {
    if t == [] {
      assert t + rest == rest;
    } else {
      assert (t + rest)[1..] == t[1..] + rest;
      SpanStops(t[1..], rest);
    }
  }

  // ---------------------------------------------------------------- values

  /** What may follow a value: the end of the text or a structural character. */
  ghost predicate Delimited(rest: Text) {
    rest == [] || rest[0] == ',' as int || rest[0] == ']' as int || rest[0] == '}' as int
  }

  /** In any context the reader takes `t` for `v` and stops right after it. */
  ghost predicate Reads(t: Text, v: Value) {
    && t != [] && t[0] != ']' as int
    && forall rest: Text | Delimited(rest) :: ParseValue(t + rest) == Some((v, rest))
  }

  ghost predicate ReadsMember(t: Text, m: VMember) {
    && t != [] && t[0] != '}' as int
    && forall rest: Text | Delimited(rest) :: ParseMember(t + rest) == Some((m, rest))
  }

  lemma LastElem(s: Text, v: Value, rest: Text)
    requires ParseValue(s) == Some((v, [']' as int] + rest))
    ensures ParseElems(s) == Some(([v], rest))
  {
    assert ([']' as int] + rest)[1..] == rest;
  }

  lemma NextElem(s: Text, v: Value, more: Text, vs: seq<Value>, rest: Text)
    requires ParseValue(s) == Some((v, [',' as int] + more)) && ParseElems(more) == Some((vs, rest))
    ensures ParseElems(s) == Some(([v] + vs, rest))
  {
    assert ([',' as int] + more)[1..] == more;
  }

  lemma LastMember(s: Text, m: VMember, rest: Text)
    requires ParseMember(s) == Some((m, ['}' as int] + rest))
    ensures ParseMembers(s) == Some(([m], rest))
  {
    assert (['}' as int] + rest)[1..] == rest;
  }

  lemma NextMember(s: Text, m: VMember, more: Text, ms: seq<VMember>, rest: Text)
    requires ParseMember(s) == Some((m, [',' as int] + more)) && ParseMembers(more) == Some((ms, rest))
    ensures ParseMembers(s) == Some(([m] + ms, rest))
  {
    assert ([',' as int] + more)[1..] == more;
  }

  /** Where the first part of a join ends, and what follows it. */
  lemma JoinSplit(parts: seq<Text>, close: Text)
    requires parts != []
    ensures Join(parts) + close
         == parts[0] + (if |parts| == 1 then close else [',' as int] + (Join(parts[1..]) + close))
  {
    if |parts| > 1 {
      var more := Join(parts[1..]);
      Assoc(parts[0], [',' as int], more);
      Assoc(parts[0], [',' as int] + more, close);
      Assoc([',' as int], more, close);
    }
  }

  /** `(open body close) rest` regrouped for a reader that works from the left. */
  lemma Regroup(open: CodePoint, body: Text, close: CodePoint, rest: Text)
    ensures [open] + body + [close] + rest == [open] + (body + ([close] + rest))
  {
    Assoc([open] + body, [close], rest);
    Assoc([open], body, [close] + rest);
  }

  lemma {:induction false} JoinedElemsRead(parts: seq<Text>, vs: seq<Value>, rest: Text)
    requires |parts| == |vs| > 0
    requires forall i :: 0 <= i < |parts| ==> Reads(parts[i], vs[i])
    ensures ParseElems(Join(parts) + ([']' as int] + rest)) == Some((vs, rest))
  {
    var close: Text := [']' as int] + rest;
    JoinSplit(parts, close);
    assert Reads(parts[0], vs[0]);
    if |parts| == 1 {
      LastElem(parts[0] + close, vs[0], rest);
      assert vs == [vs[0]];
    } else {
      var more := Join(parts[1..]) + close;
      JoinedElemsRead(parts[1..], vs[1..], rest);
      NextElem(parts[0] + ([',' as int] + more), vs[0], more, vs[1..], rest);
      assert vs == [vs[0]] + vs[1..];
    }
  }

  lemma {:induction false} JoinedMembersRead(parts: seq<Text>, ms: seq<VMember>, rest: Text)
    requires |parts| == |ms| > 0
    requires forall i :: 0 <= i < |parts| ==> ReadsMember(parts[i], ms[i])
    ensures ParseMembers(Join(parts) + (['}' as int] + rest)) == Some((ms, rest))
  {
    var close: Text := ['}' as int] + rest;
    JoinSplit(parts, close);
    assert ReadsMember(parts[0], ms[0]);
    if |parts| == 1 {
      LastMember(parts[0] + close, ms[0], rest);
      assert ms == [ms[0]];
    } else {
      var more := Join(parts[1..]) + close;
      JoinedMembersRead(parts[1..], ms[1..], rest);
      NextMember(parts[0] + ([',' as int] + more), ms[0], more, ms[1..], rest);
      assert ms == [ms[0]] + ms[1..];
    }
  }

  function MemberText(m: Member): Text
    requires Stringify(m.value).Some?
  {
    Quote(m.key) + [':' as int] + Stringify(m.value).value
  }

  function First<A, B>(p: (A, B)): A { p.0 }

  function Second<A, B>(p: (A, B)): B { p.1 }

  /** Text and value of each member, side by side under one sort key. */
  function Zip(ms: seq<Member>): (zs: seq<Keyed<(Text, VMember)>>)
    requires StringifyMembers(ms).Some?
    ensures |zs| == |ms|
    ensures forall i :: 0 <= i < |ms| ==> Stringify(ms[i].value).Some? && zs[i] == ZipOne(ms[i])
  {
    if ms == [] then [] else [ZipOne(ms[0])] + Zip(ms[1..])
  }

  function ZipOne(m: Member): Keyed<(Text, VMember)>
    requires Stringify(m.value).Some?
  {
    Keyed(Utf16Be(m.key), (MemberText(m), VMember(m.key, Canon(m.value))))
  }

  ghost predicate ZippedFrom(ms: seq<Member>, item: (Text, VMember)) {
    exists m :: m in ms && Stringify(m.value).Some? && item == ZipOne(m).item
  }

  lemma SortedZip(ms: seq<Member>)
    requires StringifyMembers(ms).Some?
    ensures |Sort(Zip(ms))| == |ms|
    ensures forall i :: 0 <= i < |ms| ==> ZippedFrom(ms, Sort(Zip(ms))[i].item)
  {
    var zs := Zip(ms);
    SortPermutes(zs);
    forall i | 0 <= i < |ms|
      ensures ZippedFrom(ms, Sort(zs)[i].item)
    {
      assert Sort(zs)[i] in multiset(zs);
      var k :| 0 <= k < |zs| && zs[k] == Sort(zs)[i];
      assert ms[k] in ms;
    }
  }

  /** Printed members and canonical members end up in the same order. */
  lemma SortedTogether(ms: seq<Member>)
    requires StringifyMembers(ms).Some?
    ensures var ps, vs := Sort(StringifyMembers(ms).value), Sort(CanonMembers(ms));
            |ps| == |vs| == |ms| &&
            forall i :: 0 <= i < |ms| ==> ZippedFrom(ms, (ps[i].item, vs[i].item))
  {
    var zs := Zip(ms);
    StringifyMembersAccepts(ms);
    assert MapItems(First, zs) == StringifyMembers(ms).value;
    assert MapItems(Second, zs) == CanonMembers(ms);
    SortMapItems(First<Text, VMember>, zs);
    SortMapItems(Second<Text, VMember>, zs);
    SortedZip(ms);
  }

  lemma QuoteThen(s: Text, tail: Text)
    ensures (Quote(s) + tail)[0] == '"' as int
    ensures ParseBody((Quote(s) + tail)[1..]) == Some((s, tail))
  {
    ParseQuoted(s, tail);
    assert (Quote(s) + tail)[1..] == EscapeAll(s) + ['"' as int] + tail;
  }

  lemma StringReads(s: Text)
    ensures Reads(Quote(s), VStr(s))
  {
    forall rest: Text | Delimited(rest)
      ensures ParseValue(Quote(s) + rest) == Some((VStr(s), rest))
    {
      QuoteThen(s, rest);
    }
  }

  lemma ParseNumberText(t: Text, rest: Text)
    requires t != [] && AllNumberChars(t) && ReadNumber(t).Some? && Delimited(rest)
    ensures (t + rest)[0] == t[0] && ParseNumber(t + rest) == Some((VNum(t), rest))
  {
    SpanStops(t, rest);
    assert (t + rest)[..|t|] == t && (t + rest)[|t|..] == rest;
  }

  lemma NumberReads(num: Number)
    requires FormatNumber(num).Some?
    ensures Reads(FormatNumber(num).value, VNum(FormatNumber(num).value))
  {
    var t := FormatNumber(num).value;
    NumberTextChars(num);
    NumberRoundTrip(num);
    forall rest: Text | Delimited(rest)
      ensures ParseValue(t + rest) == Some((VNum(t), rest))
    {
      ParseNumberText(t, rest);
    }
  }

  lemma WordReads(word: Text, v: Value)
    requires || (word == Lit("null") && v == VNull)
             || (word == Lit("true") && v == VBool(true))
             || (word == Lit("false") && v == VBool(false))
    ensures Reads(word, v)
  {
    forall rest: Text | Delimited(rest)
      ensures ParseValue(word + rest) == Some((v, rest))
    {
      assert (word + rest)[|word|..] == rest;
      assert (word + rest)[0] == word[0];
    }
  }

  lemma MemberStep(key: Text, v: Value, text: Text, rest: Text)
    requires ParseValue(text) == Some((v, rest))
    ensures ParseMember(Quote(key) + ([':' as int] + text)) == Some((VMember(key, v), rest))
  {
    var tail := [':' as int] + text;
    QuoteThen(key, tail);
    assert tail[1..] == text;
  }

  lemma MemberReads(m: Member)
    requires Stringify(m.value).Some? && Reads(Stringify(m.value).value, Canon(m.value))
    ensures ReadsMember(MemberText(m), VMember(m.key, Canon(m.value)))
  {
    var v := Stringify(m.value).value;
    forall rest: Text | Delimited(rest)
      ensures ParseMember(MemberText(m) + rest) == Some((VMember(m.key, Canon(m.value)), rest))
    {
      MemberStep(m.key, Canon(m.value), v + rest, rest);
      Assoc(Quote(m.key), [':' as int], v);
      Assoc(Quote(m.key), [':' as int] + v, rest);
      Assoc([':' as int], v, rest);
    }
  }

  lemma ArrayStep(body: Text, vs: seq<Value>, rest: Text)
    requires ParseArray(body) == Some((vs, rest))
    ensures ParseValue(['[' as int] + body) == Some((VArr(vs), rest))
  {
    assert (['[' as int] + body)[1..] == body;
  }

  lemma ObjectStep(body: Text, ms: seq<VMember>, rest: Text)
    requires ParseObject(body) == Some((ms, rest))
    ensures ParseValue(['{' as int] + body) == Some((VObj(ms), rest))
  {
    assert (['{' as int] + body)[1..] == body;
  }

  lemma ArrayBody(parts: seq<Text>, vs: seq<Value>, rest: Text)
    requires |parts| == |vs| && forall i :: 0 <= i < |parts| ==> Reads(parts[i], vs[i])
    ensures ParseArray(Join(parts) + ([']' as int] + rest)) == Some((vs, rest))
  {
    var close: Text := [']' as int] + rest;
    if parts == [] {
      assert Join(parts) + close == close && close[1..] == rest;
    } else {
      assert Reads(parts[0], vs[0]);
      JoinSplit(parts, close);
      JoinedElemsRead(parts, vs, rest);
    }
  }

  lemma ArrayReads(parts: seq<Text>, vs: seq<Value>)
    requires |parts| == |vs| && forall i :: 0 <= i < |parts| ==> Reads(parts[i], vs[i])
    ensures Reads(['[' as int] + Join(parts) + [']' as int], VArr(vs))
  {
    var t := ['[' as int] + Join(parts) + [']' as int];
    forall rest: Text | Delimited(rest)
      ensures ParseValue(t + rest) == Some((VArr(vs), rest))
    {
      var body := Join(parts) + ([']' as int] + rest);
      ArrayBody(parts, vs, rest);
      ArrayStep(body, vs, rest);
      Regroup('[' as int, Join(parts), ']' as int, rest);
    }
  }

  lemma ObjectBody(parts: seq<Text>, ms: seq<VMember>, rest: Text)
    requires |parts| == |ms| && forall i :: 0 <= i < |parts| ==> ReadsMember(parts[i], ms[i])
    ensures ParseObject(Join(parts) + (['}' as int] + rest)) == Some((ms, rest))
  {
    var close: Text := ['}' as int] + rest;
    if parts == [] {
      assert Join(parts) + close == close && close[1..] == rest;
    } else {
      assert ReadsMember(parts[0], ms[0]);
      JoinSplit(parts, close);
      JoinedMembersRead(parts, ms, rest);
    }
  }

  lemma ObjectReads(parts: seq<Text>, ms: seq<VMember>)
    requires |parts| == |ms| && forall i :: 0 <= i < |parts| ==> ReadsMember(parts[i], ms[i])
    ensures Reads(['{' as int] + Join(parts) + ['}' as int], VObj(ms))
  {
    var t := ['{' as int] + Join(parts) + ['}' as int];
    forall rest: Text | Delimited(rest)
      ensures ParseValue(t + rest) == Some((VObj(ms), rest))
    {
      var body := Join(parts) + (['}' as int] + rest);
      ObjectBody(parts, ms, rest);
      ObjectStep(body, ms, rest);
      Regroup('{' as int, Join(parts), '}' as int, rest);
    }
  }

  /** Printed text reads back as the canonical form, in every context. */
  lemma {:induction false} PrintedReads(j: Json)
    requires Stringify(j).Some?
    ensures Reads(Stringify(j).value, Canon(j))
  {
    match j
    case Null => WordReads(Lit("null"), VNull);
    case Bool(b) => WordReads(Stringify(j).value, VBool(b));
    case Num(num) => NumberReads(num);
    case Str(s) => StringReads(s);
    case Arr(_, elems) =>
      StringifyAllAccepts(elems);
      forall i | 0 <= i < |elems| {
        PrintedReads(elems[i]);
      }
      ArrayReads(StringifyAll(elems).value, CanonAll(elems));
    case Obj(ms) =>
      StringifyMembersAccepts(ms);
      SortedTogether(ms);
      var ps, vs := Items(Sort(StringifyMembers(ms).value)), Items(Sort(CanonMembers(ms)));
      forall i | 0 <= i < |ms|
        ensures ReadsMember(ps[i], vs[i])
      {
        assert ZippedFrom(ms, (ps[i], vs[i]));
        var m :| m in ms && Stringify(m.value).Some? && (ps[i], vs[i]) == ZipOne(m).item;
        PrintedReads(m.value);
        MemberReads(m);
      }
      ObjectReads(ps, vs);
  }

  /** The parser inverts `canonical_json` on everything it accepts. */
  lemma ParserInvertsPrinter(j: Json)
    requires CanonicalJson(j).Some?
    ensures Parse(CanonicalJson(j).value) == Some(Canon(j))
  {
    var t := CanonicalText(j).value;
    Utf8RoundTrip(t);
    PrintedReads(j);
    assert t + [] == t;
  }

  // ---------------------------------------------------------------- injectivity

  function CanonObject(ms: seq<Member>): seq<VMember> {
    Items(Sort(CanonMembers(ms)))
  }

  lemma CanonObjectSize(ms: seq<Member>)
    ensures |CanonObject(ms)| == |ms|
  {
    SortPermutes(CanonMembers(ms));
  }

  lemma CanonObjectHolds(ms: seq<Member>, i: nat) returns (p: nat)
    requires i < |ms|
    ensures p < |CanonObject(ms)| && CanonObject(ms)[p] == VMember(ms[i].key, Canon(ms[i].value))
  {
    var vs := CanonMembers(ms);
    SortKeepsMembers(vs, vs[i]);
    p :| 0 <= p < |Sort(vs)| && Sort(vs)[p] == vs[i];
  }

  /** Objects with equal canonical form have, member by member, equal names and values. */
  lemma CanonMembersMatch(xs: seq<Member>, ys: seq<Member>)
    requires CanonObject(xs) == CanonObject(ys)
    ensures |xs| == |ys|
    ensures forall i :: 0 <= i < |xs| ==> HasMember(ys, xs[i].key, Canon(xs[i].value))
  {
    CanonObjectSize(xs);
    CanonObjectSize(ys);
    forall i | 0 <= i < |xs|
      ensures HasMember(ys, xs[i].key, Canon(xs[i].value))
    {
      var p := CanonObjectHolds(xs, i);
      SortedCanonMember(ys, p);
    }
  }

  lemma SortedCanonMember(ys: seq<Member>, p: nat)
    requires p < |CanonObject(ys)|
    ensures HasMember(ys, CanonObject(ys)[p].key, CanonObject(ys)[p].value)
  {
    var vs := CanonMembers(ys);
    SortKeepsMembers(vs, Sort(vs)[p]);
    var k :| 0 <= k < |vs| && vs[k] == Sort(vs)[p];
    assert CanonObject(ys)[p] == VMember(ys[k].key, Canon(ys[k].value));
  }

  ghost predicate HasMember(ms: seq<Member>, key: Text, v: Value) {
    exists k :: 0 <= k < |ms| && ms[k].key == key && Canon(ms[k].value) == v
  }

  lemma {:induction false} CanonDeterminesValue(a: Json, b: Json)
    requires Canonicalizable(a) && Canonicalizable(b) && Canon(a) == Canon(b)
    ensures SameValue(a, b)
    decreases a
  {
    match a
    case Num(num) =>
      PrinterDomain(a);
      PrinterDomain(b);
      SameTextIff(num, b.num);
    case Arr(_, xs) =>
      forall i | 0 <= i < |xs|
        ensures SameValue(xs[i], b.elems[i])
      {
        assert CanonAll(xs)[i] == CanonAll(b.elems)[i];
        CanonDeterminesValue(xs[i], b.elems[i]);
      }
    case Obj(xs) =>
      var ys := b.members;
      CanonMembersMatch(xs, ys);
      forall i | 0 <= i < |xs|
        ensures exists k :: 0 <= k < |ys| && xs[i].key == ys[k].key && SameValue(xs[i].value, ys[k].value)
      {
        var k :| 0 <= k < |ys| && ys[k].key == xs[i].key && Canon(ys[k].value) == Canon(xs[i].value);
        CanonDeterminesValue(xs[i].value, ys[k].value);
      }
    case _ =>
  }

  /**
   Canonical bytes identify a value: two accepted values have the same bytes exactly
   when they are equal up to member order and list or tuple, with numbers equal as decimals
   and not an int beside a float from 10 to the power 21 on.
   */
  lemma SameBytesIffSameValue(a: Json, b: Json)
    requires IsPython(a) && CanonicalJson(a).Some? && CanonicalJson(b).Some?
    ensures CanonicalJson(a) == CanonicalJson(b) <==> SameValue(a, b)
  {
    PrinterDomain(a);
    PrinterDomain(b);
    if SameValue(a, b) {
      SameValuePrintsAlike(a, b);
    }
    if CanonicalJson(a) == CanonicalJson(b) {
      ParserInvertsPrinter(a);
      ParserInvertsPrinter(b);
      CanonDeterminesValue(a, b);
    }
  }
}
