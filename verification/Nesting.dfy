/**
 The nesting guard of attestation parsing: a byte scanner that runs before the parser,
 an explicit-stack depth count that runs after it, and the proof that on canonical
 input both measure the same thing.
 */
module Nesting {
  import opened Wrappers
  import opened Order
  import opened Unicode
  import opened PythonValues
  import opened Signing
  import opened CanonicalParser

  const MAX_ATTESTATION_JSON_DEPTH := 16

  // ---------------------------------------------------------------- scanner

  /** The scanner's local variables, and the deepest level it has seen. */
  datatype ScanState = ScanState(depth: nat, inString: bool, escaped: bool, peak: nat)

  const START := ScanState(0, false, false, 0)

  function Step(st: ScanState, c: int): ScanState {
    if st.inString then
      if st.escaped then st.(escaped := false)
      else if c == 0x5C then st.(escaped := true)
      else if c == 0x22 then st.(inString := false)
      else st
    else if c == 0x22 then st.(inString := true)
    else if c == 0x5B || c == 0x7B then
      st.(depth := st.depth + 1, peak := if st.depth + 1 > st.peak then st.depth + 1 else st.peak)
    else if c == 0x5D || c == 0x7D then
      st.(depth := if st.depth == 0 then 0 else st.depth - 1)
    else st
  }

  function Scan(st: ScanState, cs: seq<int>): ScanState
    decreases |cs|
  {
    if cs == [] then st else Scan(Step(st, cs[0]), cs[1..])
  }

  lemma {:induction false} ScanConcat(st: ScanState, a: seq<int>, b: seq<int>)
    ensures Scan(st, a + b) == Scan(Scan(st, a), b)
    decreases |a|
  {
    if a == [] {
      assert a + b == b;
    } else {
      assert (a + b)[1..] == a[1..] + b;
      ScanConcat(Step(st, a[0]), a[1..], b);
    }
  }

  lemma {:induction false} PeakGrows(st: ScanState, cs: seq<int>)
    ensures st.peak <= Scan(st, cs).peak
    decreases |cs|
  {
    if cs != [] {
      PeakGrows(Step(st, cs[0]), cs[1..]);
    }
  }

  /** `_precheck_json_nesting`; `accepted` is false when it raises. */
  method PrecheckJsonNesting(raw: Bytes) returns (accepted: bool)
    ensures accepted <==> Scan(START, raw).peak <= MAX_ATTESTATION_JSON_DEPTH
  {
    var depth: nat := 0;
    var inString, escaped := false, false;
    ghost var peak: nat := 0;
    for i := 0 to |raw|
      invariant peak <= MAX_ATTESTATION_JSON_DEPTH
      invariant Scan(START, raw) == Scan(ScanState(depth, inString, escaped, peak), raw[i..])
    {
      var byte := raw[i];
      assert raw[i..][1..] == raw[i + 1..];
      if inString {
        if escaped {
          escaped := false;
        } else if byte == 0x5C {
          escaped := true;
        } else if byte == 0x22 {
          inString := false;
        }
      } else if byte == 0x22 {
        inString := true;
      } else if byte == 0x5B || byte == 0x7B {
        depth := depth + 1;
        peak := if depth > peak then depth else peak;
        if depth > MAX_ATTESTATION_JSON_DEPTH {
          PeakGrows(ScanState(depth, inString, escaped, peak), raw[i + 1..]);
          return false;
        }
      } else if byte == 0x5D || byte == 0x7D {
        depth := if depth == 0 then 0 else depth - 1;
      }
    }
    return true;
  }

  // ---------------------------------------------------------------- tree depth

  function Max(a: nat, b: nat): nat {
    if a < b then b else a
  }

  /** Containers on the longest path from the root. */
  function Depth(v: Value): nat {
    match v
    case VArr(elems) => 1 + DepthAll(elems)
    case VObj(ms) => 1 + DepthMembers(ms)
    case _ => 0
  }

  function DepthAll(vs: seq<Value>): nat {
    if vs == [] then 0 else Max(Depth(vs[0]), DepthAll(vs[1..]))
  }

  function DepthMembers(ms: seq<VMember>): nat {
    if ms == [] then 0 else Max(Depth(ms[0].value), DepthMembers(ms[1..]))
  }

  /** `current.values()` or the elements of a list. */
  function Children(v: Value): seq<Value> {
    match v
    case VArr(elems) => elems
    case VObj(ms) => MemberValues(ms)
    case _ => []
  }

  function MemberValues(ms: seq<VMember>): seq<Value> {
    if ms == [] then [] else [ms[0].value] + MemberValues(ms[1..])
  }

  function Size(v: Value): (n: nat)
    ensures n > 0
  {
    match v
    case VArr(elems) => 1 + SizeAll(elems)
    case VObj(ms) => 1 + SizeMembers(ms)
    case _ => 1
  }

  function SizeAll(vs: seq<Value>): nat {
    if vs == [] then 0 else Size(vs[0]) + SizeAll(vs[1..])
  }

  function SizeMembers(ms: seq<VMember>): nat {
    if ms == [] then 0 else Size(ms[0].value) + SizeMembers(ms[1..])
  }

  lemma {:induction false} MemberValuesMeasure(ms: seq<VMember>)
    ensures DepthAll(MemberValues(ms)) == DepthMembers(ms)
    ensures SizeAll(MemberValues(ms)) == SizeMembers(ms)
  {
    if ms != [] {
      MemberValuesMeasure(ms[1..]);
      assert MemberValues(ms)[1..] == MemberValues(ms[1..]);
    }
  }

  /** An entry of the explicit stack: a value and the depth of its parent. */
  datatype Entry = Entry(current: Value, parentDepth: nat)

  function StackDepth(stack: seq<Entry>): nat {
    if stack == [] then 0
    else
      var top := stack[|stack| - 1];
      Max(StackDepth(stack[..|stack| - 1]), top.parentDepth + Depth(top.current))
  }

  function StackSize(stack: seq<Entry>): nat {
    if stack == [] then 0
    else StackSize(stack[..|stack| - 1]) + Size(stack[|stack| - 1].current)
  }

  function Entries(vs: seq<Value>, depth: nat): (es: seq<Entry>)
    ensures |es| == |vs| && forall i :: 0 <= i < |vs| ==> es[i] == Entry(vs[i], depth)
  {
    seq(|vs|, i requires 0 <= i < |vs| => Entry(vs[i], depth))
  }

  lemma {:induction false} PushAll(stack: seq<Entry>, vs: seq<Value>, depth: nat)
    ensures StackSize(stack + Entries(vs, depth)) == StackSize(stack) + SizeAll(vs)
    ensures Max(StackDepth(stack + Entries(vs, depth)), depth) == Max(StackDepth(stack), depth + DepthAll(vs))
    decreases |vs|
  {
    if vs == [] {
      assert stack + Entries(vs, depth) == stack;
    } else {
      var first := Entry(vs[0], depth);
      var one := stack + [first];
      assert one[..|one| - 1] == stack;
      PushAll(one, vs[1..], depth);
      assert stack + Entries(vs, depth) == one + Entries(vs[1..], depth);
    }
  }

  lemma ContainerMeasure(v: Value)
    requires v.VArr? || v.VObj?
    ensures Depth(v) == 1 + DepthAll(Children(v)) && Size(v) == 1 + SizeAll(Children(v))
  {
    if v.VObj? {
      MemberValuesMeasure(v.members);
    }
  }

  /** What remains to be seen: the deepest level so far and the values on the stack. */
  ghost predicate Pending(maxDepth: nat, stack: seq<Entry>, goal: nat) {
    && (forall i :: 0 <= i < |stack| ==> stack[i].parentDepth <= maxDepth)
    && Max(maxDepth, StackDepth(stack)) == goal
  }

  /** Replacing a container on top of the stack by its children. */
  lemma Unfold(maxDepth: nat, stack: seq<Entry>, top: Entry, goal: nat)
    requires Pending(maxDepth, stack + [top], goal) && (top.current.VArr? || top.current.VObj?)
    ensures var depth := top.parentDepth + 1;
            var next := stack + Entries(Children(top.current), depth);
            StackSize(next) < StackSize(stack + [top]) && Pending(Max(maxDepth, depth), next, goal)
  {
    assert (stack + [top])[..|stack|] == stack;
    assert forall i :: 0 <= i < |stack| ==> stack[i] == (stack + [top])[i];
    ContainerMeasure(top.current);
    PushAll(stack, Children(top.current), top.parentDepth + 1);
  }

  lemma Discard(maxDepth: nat, stack: seq<Entry>, top: Entry, goal: nat)
    requires Pending(maxDepth, stack + [top], goal) && !top.current.VArr? && !top.current.VObj?
    ensures StackSize(stack) < StackSize(stack + [top]) && Pending(maxDepth, stack, goal)
  {
    assert (stack + [top])[..|stack|] == stack;
    assert (stack + [top])[|stack|] == top;
    assert forall i :: 0 <= i < |stack| ==> stack[i] == (stack + [top])[i];
  }

  lemma StackOfOne(value: Value)
    ensures Pending(0, [Entry(value, 0)], Depth(value))
  {
    assert [Entry(value, 0)][..0] == [];
  }

  /** `_json_depth` */
  method JsonDepth(value: Value) returns (maxDepth: nat)
    ensures maxDepth == Depth(value)
  {
    maxDepth := 0;
    var stack := [Entry(value, 0)];
    StackOfOne(value);
    while stack != []
      invariant Pending(maxDepth, stack, Depth(value))
      decreases StackSize(stack)
    {
      var top := stack[|stack| - 1];
      assert stack == stack[..|stack| - 1] + [top];
      stack := stack[..|stack| - 1];
      if top.current.VObj? || top.current.VArr? {
        Unfold(maxDepth, stack, top, Depth(value));
        var depth := top.parentDepth + 1;
        maxDepth := Max(maxDepth, depth);
        stack := stack + Entries(Children(top.current), depth);
      } else {
        Discard(maxDepth, stack, top, Depth(value));
      }
    }
  }

  // ---------------------------------------------------------------- agreement

  ghost predicate Outside(st: ScanState) {
    !st.inString && !st.escaped
  }

  function Deepen(st: ScanState, d: nat): ScanState {
    st.(peak := Max(st.peak, st.depth + d))
  }

  /** Scanning `t` outside a string returns to the same level, having gone `d` deeper. */
  ghost predicate Scans(t: Text, d: nat) {
    forall st | Outside(st) && st.depth <= st.peak :: Scan(st, t) == Deepen(st, d)
  }

  /** UTF-8 continuation and lead bytes are invisible to the scanner. */
  lemma {:induction false} ScanHighBytes(st: ScanState, bs: Bytes)
    requires forall i :: 0 <= i < |bs| ==> bs[i] >= 0x80
    ensures Scan(st, bs) == if bs == [] then st else st.(escaped := st.escaped && !st.inString)
    decreases |bs|
  {
    if bs != [] {
      ScanHighBytes(Step(st, bs[0]), bs[1..]);
    }
  }

  lemma {:induction false} ScanBytesIsScanText(st: ScanState, t: Text)
    requires st.escaped ==> st.inString
    ensures Scan(st, Utf8(t)) == Scan(st, t)
    decreases |t|
  {
    if t != [] {
      ScanConcat(st, Utf8Of(t[0]), Utf8(t[1..]));
      if t[0] < 0x80 {
        assert Scan(Step(st, t[0]), [t[0]][1..]) == Step(st, t[0]);
      } else {
        ScanHighBytes(st, Utf8Of(t[0]));
      }
      assert Scan(st, Utf8Of(t[0])) == Step(st, t[0]);
      ScanBytesIsScanText(Step(st, t[0]), t[1..]);
    }
  }

  lemma ScanEscaped(st: ScanState, c: CodePoint)
    requires st.inString && !st.escaped
    ensures Scan(st, EscapeChar(c)) == st
  {
    var e := EscapeChar(c);
    assert Scan(st, e) == Scan(Step(st, e[0]), e[1..]);
    if |e| > 1 {
      assert Scan(Step(st, e[0]), e[1..]) == Scan(Step(Step(st, e[0]), e[1]), e[2..]);
      assert Step(Step(st, e[0]), e[1]) == st;
      ScanPlain(st, e[2..]);
    }
  }

  lemma {:induction false} ScanPlain(st: ScanState, t: Text)
    requires !st.escaped
    requires forall i :: 0 <= i < |t| ==> t[i] !in {0x22, 0x5B, 0x5C, 0x5D, 0x7B, 0x7D}
    ensures Scan(st, t) == st
    decreases |t|
  {
    if t != [] {
      ScanPlain(st, t[1..]);
    }
  }

  lemma {:induction false} ScanBody(st: ScanState, s: Text)
    requires st.inString && !st.escaped
    ensures Scan(st, EscapeAll(s)) == st
    decreases |s|
  {
    if s != [] {
      ScanConcat(st, EscapeChar(s[0]), EscapeAll(s[1..]));
      ScanEscaped(st, s[0]);
      ScanBody(st, s[1..]);
    }
  }

  lemma QuotedScans(s: Text)
    ensures Scans(Quote(s), 0)
  {
    forall st | Outside(st) && st.depth <= st.peak
      ensures Scan(st, Quote(s)) == Deepen(st, 0)
    {
      var inside := st.(inString := true);
      assert Quote(s) == ['"' as int] + (EscapeAll(s) + ['"' as int]);
      assert Quote(s)[1..] == EscapeAll(s) + ['"' as int];
      ScanConcat(inside, EscapeAll(s), ['"' as int]);
      ScanBody(inside, s);
      ScanOne(inside, '"' as int);
    }
  }

  lemma PlainScans(t: Text)
    requires forall i :: 0 <= i < |t| ==> t[i] !in {0x22, 0x5B, 0x5C, 0x5D, 0x7B, 0x7D}
    ensures Scans(t, 0)
  {
    forall st | Outside(st) && st.depth <= st.peak
      ensures Scan(st, t) == Deepen(st, 0)
    {
      ScanPlain(st, t);
    }
  }

  lemma ConcatScans(a: Text, d: nat, b: Text, e: nat)
    requires Scans(a, d) && Scans(b, e)
    ensures Scans(a + b, Max(d, e))
  {
    forall st | Outside(st) && st.depth <= st.peak
      ensures Scan(st, a + b) == Deepen(st, Max(d, e))
    {
      ScanConcat(st, a, b);
    }
  }

  lemma ScanOne(st: ScanState, c: int)
    ensures Scan(st, [c]) == Step(st, c)
  {
    assert [c][1..] == [];
  }

  lemma BracketScan(st: ScanState, open: CodePoint, t: Text, d: nat, close: CodePoint)
    requires (open == 0x5B && close == 0x5D) || (open == 0x7B && close == 0x7D)
    requires Outside(st) && st.depth <= st.peak
    requires Scan(Step(st, open), t) == Deepen(Step(st, open), d)
    ensures Scan(st, [open] + t + [close]) == Deepen(st, 1 + d)
  {
    ScanConcat(st, [open] + t, [close]);
    ScanConcat(st, [open], t);
    ScanOne(st, open);
    ScanOne(Deepen(Step(st, open), d), close);
  }

  lemma BracketScans(open: CodePoint, t: Text, d: nat, close: CodePoint)
    requires (open == 0x5B && close == 0x5D) || (open == 0x7B && close == 0x7D)
    requires Scans(t, d)
    ensures Scans([open] + t + [close], 1 + d)
  {
    forall st | Outside(st) && st.depth <= st.peak
      ensures Scan(st, [open] + t + [close]) == Deepen(st, 1 + d)
    {
      BracketScan(st, open, t, d, close);
    }
  }

  lemma {:induction false} JoinedElemsScan(parts: seq<Text>, vs: seq<Value>)
    requires |parts| == |vs| && forall i :: 0 <= i < |parts| ==> Scans(parts[i], Depth(vs[i]))
    ensures Scans(Join(parts), DepthAll(vs))
    decreases |parts|
  {
    if parts == [] {
      PlainScans([]);
    } else if |parts| > 1 {
      JoinedElemsScan(parts[1..], vs[1..]);
      PlainScans([',' as int]);
      ConcatScans(parts[0], Depth(vs[0]), [',' as int], 0);
      ConcatScans(parts[0] + [',' as int], Depth(vs[0]), Join(parts[1..]), DepthAll(vs[1..]));
    }
  }

  lemma {:induction false} JoinedMembersScan(parts: seq<Text>, ms: seq<VMember>)
    requires |parts| == |ms| && forall i :: 0 <= i < |parts| ==> Scans(parts[i], Depth(ms[i].value))
    ensures Scans(Join(parts), DepthMembers(ms))
    decreases |parts|
  {
    if parts == [] {
      PlainScans([]);
    } else if |parts| > 1 {
      JoinedMembersScan(parts[1..], ms[1..]);
      PlainScans([',' as int]);
      ConcatScans(parts[0], Depth(ms[0].value), [',' as int], 0);
      ConcatScans(parts[0] + [',' as int], Depth(ms[0].value), Join(parts[1..]), DepthMembers(ms[1..]));
    }
  }

  lemma MemberScans(m: Member)
    requires Stringify(m.value).Some? && Scans(Stringify(m.value).value, Depth(Canon(m.value)))
    ensures Scans(MemberText(m), Depth(Canon(m.value)))
  {
    QuotedScans(m.key);
    PlainScans([':' as int]);
    ConcatScans(Quote(m.key), 0, [':' as int], 0);
    ConcatScans(Quote(m.key) + [':' as int], 0, Stringify(m.value).value, Depth(Canon(m.value)));
  }

  ghost predicate ValueScans(j: Json) {
    Stringify(j).Some? && Scans(Stringify(j).value, Depth(Canon(j)))
  }

  lemma ArrayScans(elems: seq<Json>)
    requires StringifyAll(elems).Some?
    requires forall i :: 0 <= i < |elems| ==> ValueScans(elems[i])
    ensures Scans(['[' as int] + Join(StringifyAll(elems).value) + [']' as int], 1 + DepthAll(CanonAll(elems)))
  {
    StringifyAllAccepts(elems);
    JoinedElemsScan(StringifyAll(elems).value, CanonAll(elems));
    BracketScans('[' as int, Join(StringifyAll(elems).value), DepthAll(CanonAll(elems)), ']' as int);
  }

  lemma SortedMembersScan(ms: seq<Member>, ps: seq<Text>, vs: seq<VMember>)
    requires |ps| == |vs| == |ms|
    requires forall i :: 0 <= i < |ms| ==> ValueScans(ms[i].value)
    requires forall i :: 0 <= i < |ms| ==> ZippedFrom(ms, (ps[i], vs[i]))
    ensures Scans(Join(ps), DepthMembers(vs))
  {
    forall i | 0 <= i < |ms|
      ensures Scans(ps[i], Depth(vs[i].value))
    {
      var m :| m in ms && Stringify(m.value).Some? && (ps[i], vs[i]) == ZipOne(m).item;
      MemberScans(m);
    }
    JoinedMembersScan(ps, vs);
  }

  lemma ObjectScans(ms: seq<Member>)
    requires StringifyMembers(ms).Some?
    requires forall i :: 0 <= i < |ms| ==> ValueScans(ms[i].value)
    ensures Scans(['{' as int] + Join(Items(Sort(StringifyMembers(ms).value))) + ['}' as int],
                  1 + DepthMembers(CanonObject(ms)))
  {
    var ps := Items(Sort(StringifyMembers(ms).value));
    SortedTogether(ms);
    SortedMembersScan(ms, ps, CanonObject(ms));
    BracketScans('{' as int, Join(ps), DepthMembers(CanonObject(ms)), '}' as int);
  }

  lemma ScalarScans(j: Json)
    requires Stringify(j).Some? && !j.Arr? && !j.Obj?
    ensures Scans(Stringify(j).value, 0)
  {
    match j
    case Null => PlainScans(Lit("null"));
    case Bool(b) => PlainScans(Stringify(j).value);
    case Num(num) =>
      NumberTextChars(num);
      PlainScans(Stringify(j).value);
    case Str(s) => QuotedScans(s);
  }

  lemma {:induction false} PrintedScans(j: Json)
    requires Stringify(j).Some?
    ensures Scans(Stringify(j).value, Depth(Canon(j)))
  {
    match j
    case Arr(_, elems) =>
      StringifyAllAccepts(elems);
      forall i | 0 <= i < |elems|
        ensures ValueScans(elems[i])
      {
        PrintedScans(elems[i]);
      }
      ArrayScans(elems);
    case Obj(ms) =>
      StringifyMembersAccepts(ms);
      forall i | 0 <= i < |ms|
        ensures ValueScans(ms[i].value)
      {
        PrintedScans(ms[i].value);
      }
      ObjectScans(ms);
    case _ => ScalarScans(j);
  }

  /**
   On canonical bytes the scanner's deepest level is the depth of the parsed value, so
   the check before parsing and the check after parsing accept the same documents.
   */
  lemma ScannerAgreesWithDepth(j: Json)
    requires CanonicalJson(j).Some?
    ensures Scan(START, CanonicalJson(j).value).peak == Depth(Canon(j))
    ensures Parse(CanonicalJson(j).value) == Some(Canon(j))
  {
    PrintedScans(j);
    ScanBytesIsScanText(START, CanonicalText(j).value);
    ParserInvertsPrinter(j);
  }
}
