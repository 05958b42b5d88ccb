/** The closure language of `concordia/cmpc/predicate.py`. */
module Predicates {
  import opened Wrappers
  import opened Sequences
  import opened Unicode
  import opened PythonValues
  import opened FloatRange
  import opened RangedSums
  import Negotiation

  /** `datetime.fromisoformat` after the `Z` replacement, as an instant; `None` when it raises. */
  type ParseIso = Text -> Option<int>

  datatype Context = Context(parse: ParseIso, commitments: seq<Json>)

  const OP: Text := Lit("op")
  const ARGS: Text := Lit("args")
  const ARG: Text := Lit("arg")
  const LEFT: Text := Lit("left")
  const VALUE: Text := Lit("value")
  const VALUES: Text := Lit("values")
  const FIELD: Text := Lit("field")

  datatype Comparator = Eq | Ne | Ge | Le | Gt | Lt

  datatype Aggregator = Sum | Min | Max | Count

  datatype Op = And | Or | Not | Compare(cmp: Comparator) | In | Before | After | Aggregate(agg: Aggregator)

  function OpNamed(t: Text): Option<Op> {
    if t == Lit("and") then Some(And)
    else if t == Lit("or") then Some(Or)
    else if t == Lit("not") then Some(Not)
    else if t == Lit("==") then Some(Compare(Eq))
    else if t == Lit("!=") then Some(Compare(Ne))
    else if t == Lit(">=") then Some(Compare(Ge))
    else if t == Lit("<=") then Some(Compare(Le))
    else if t == Lit(">") then Some(Compare(Gt))
    else if t == Lit("<") then Some(Compare(Lt))
    else if t == Lit("in") then Some(In)
    else if t == Lit("before") then Some(Before)
    else if t == Lit("after") then Some(After)
    else if t == Lit("sum") then Some(Aggregate(Sum))
    else if t == Lit("min") then Some(Aggregate(Min))
    else if t == Lit("max") then Some(Aggregate(Max))
    else if t == Lit("count") then Some(Aggregate(Count))
    else None
  }

  /** A node's operator; `None` for the unknown ones. */
  function OpOf(j: Json): Option<Op> {
    if !j.Obj? then None
    else match Get(j.members, OP) case Some(Str(t)) => OpNamed(t) case _ => None
  }

  // ---------------------------------------------------------------- comparands

  /** A value in its comparison class. */
  datatype Comparand = NumberOf(n: real) | TextOf(t: Text) | InstantOf(i: int)

  /** The finite numbers, which exclude `bool`; `math.isfinite` raises on an int that no float holds. */
  function FiniteNumber(j: Json): (r: Option<real>)
    ensures r.Some? ==> InFloatRange(r.value)
  {
    var n :- Negotiation.PlainNumber(j);
    if InFloatRange(n) then Some(n) else None
  }

  /** `_typed_comparand` */
  function TypedComparand(j: Json): Option<Comparand> {
    match j
    case Num(_) =>
      var n :- FiniteNumber(j);
      Some(NumberOf(n))
    case Str(t) => Some(TextOf(t))
    case Time(i) => Some(InstantOf(i))
    case _ => None
  }

  predicate SameClass(a: Comparand, b: Comparand) {
    (a.NumberOf? && b.NumberOf?) || (a.TextOf? && b.TextOf?) || (a.InstantOf? && b.InstantOf?)
  }

  predicate Ordering(cmp: Comparator) {
    cmp != Eq && cmp != Ne
  }

  /** The classes that a comparator accepts together. */
  predicate Comparable(cmp: Comparator, a: Comparand, b: Comparand) {
    SameClass(a, b) && (Ordering(cmp) ==> a.NumberOf?)
  }

  predicate Holds(cmp: Comparator, a: Comparand, b: Comparand)
    requires Comparable(cmp, a, b)
  {
    match cmp
    case Eq => a == b
    case Ne => a != b
    case Ge => a.n >= b.n
    case Le => a.n <= b.n
    case Gt => a.n > b.n
    case Lt => a.n < b.n
  }

  /** `_typed_compare`; `None` when it raises. */
  function TypedCompare(cmp: Comparator, a: Comparand, b: Comparand): Option<bool> {
    if Ordering(cmp) && (!a.NumberOf? || !b.NumberOf?) then None
    else if !SameClass(a, b) then None
    else Some(Holds(cmp, a, b))
  }

  // ---------------------------------------------------------------- fields

  /** `t.split(".")` */
  function Split(t: Text): (parts: seq<Text>)
    ensures parts != []
  {
    if t == [] then [[]]
    else
      var rest := Split(t[1..]);
      if t[0] == '.' as int then [[]] + rest else [[t[0]] + rest[0]] + rest[1..]
  }

  function Walk(j: Json, path: seq<Text>): Option<Json>
    decreases |path|
  {
    if path == [] then Some(j)
    else if !j.Obj? then None
    else
      var next :- Get(j.members, path[0]);
      Walk(next, path[1..])
  }

  /** `_resolve_field` */
  function ResolveField(j: Json, field: Text): Option<Json> {
    Walk(j, Split(field))
  }

  /** `_get_field` */
  function GetField(j: Json, field: Text): Option<Comparand> {
    var raw :- ResolveField(j, field);
    TypedComparand(raw)
  }

  function FieldGetter(field: Text): Json -> Option<Comparand> {
    (j: Json) => GetField(j, field)
  }

  function FieldOf(node: seq<Member>): Option<Text> {
    match Get(node, FIELD)
    case Some(Str(t)) => Some(t)
    case _ => None
  }

  // ---------------------------------------------------------------- values

  /** What a node evaluates to; `Error` stands for any exception. */
  datatype Value = Truth(b: bool) | Number(n: real) | Error

  function OfBool(b: Option<bool>): Value {
    match b
    case Some(v) => Truth(v)
    case None => Error
  }

  /** `all(...)` over a generator that compares as it goes. */
  function LazyAll(cmp: Comparator, xs: seq<Comparand>, expected: Comparand): Option<bool> {
    if xs == [] then Some(true)
    else
      var first :- TypedCompare(cmp, xs[0], expected);
      if first then LazyAll(cmp, xs[1..], expected) else Some(false)
  }

  /** `_evaluate_comparison` over a commitment field. */
  function CompareField(c: Context, cmp: Comparator, field: Text, expected: Comparand): Value {
    if c.commitments == [] then Error
    else
      match Each(FieldGetter(field), c.commitments)
      case None => Error
      case Some(xs) => OfBool(LazyAll(cmp, xs, expected))
  }

  /** `_evaluate_comparison`, given what its `left` evaluates to if it has one. */
  function EvalComparison(c: Context, cmp: Comparator, node: seq<Member>, left: Option<Value>): Value {
    match Get(node, VALUE)
    case None => Error
    case Some(literal) =>
      match TypedComparand(literal)
      case None => Error
      case Some(expected) =>
        match left
        case Some(Number(n)) => OfBool(TypedCompare(cmp, NumberOf(n), expected))
        case Some(_) => Error
        case None => match FieldOf(node) case Some(field) => CompareField(c, cmp, field, expected) case None => Error
  }

  /** `_evaluate_membership` */
  function EvalMembership(c: Context, node: seq<Member>): Value {
    match Get(node, VALUES)
    case Some(Arr(false, literals)) =>
      (match Each(TypedComparand, literals)
       case None => Error
       case Some(accepted) =>
         if accepted == [] || FieldOf(node).None? || c.commitments == [] then Error
         else
           match Each(FieldGetter(FieldOf(node).value), c.commitments)
           case None => Error
           case Some(xs) => MembershipOf(xs, accepted))
    case _ => Error
  }

  predicate InSomeClass(x: Comparand, accepted: seq<Comparand>) {
    exists i :: 0 <= i < |accepted| && SameClass(x, accepted[i])
  }

  function MembershipOf(xs: seq<Comparand>, accepted: seq<Comparand>): Value {
    if exists i :: 0 <= i < |xs| && !InSomeClass(xs[i], accepted) then Error
    else Truth(forall i :: 0 <= i < |xs| ==> xs[i] in accepted)
  }

  /** `_parse_iso_datetime` */
  function ParseTime(parse: ParseIso, j: Json): Option<int> {
    match j
    case Time(i) => Some(i)
    case Str(t) => parse(t)
    case _ => None
  }

  function FieldTime(parse: ParseIso, field: Text): Json -> Option<int> {
    (j: Json) =>
      var raw :- ResolveField(j, field);
      ParseTime(parse, raw)
  }

  /** `_evaluate_time` */
  function EvalTime(c: Context, node: seq<Member>, before: bool): Value {
    match Get(node, VALUE)
    case None => Error
    case Some(literal) =>
      match (ParseTime(c.parse, literal), FieldOf(node))
      case (Some(expected), Some(field)) =>
        if c.commitments == [] then Error
        else
          (match Each(FieldTime(c.parse, field), c.commitments)
           case None => Error
           case Some(times) =>
             Truth(forall i :: 0 <= i < |times| ==> if before then times[i] < expected else times[i] > expected))
      case _ => Error
  }

  // ---------------------------------------------------------------- aggregation

  function Least(xs: seq<real>): real
    requires xs != []
  {
    if |xs| == 1 then xs[0]
    else if xs[|xs| - 1] < Least(xs[..|xs| - 1]) then xs[|xs| - 1] else Least(xs[..|xs| - 1])
  }

  function Greatest(xs: seq<real>): real
    requires xs != []
  {
    if |xs| == 1 then xs[0]
    else if xs[|xs| - 1] > Greatest(xs[..|xs| - 1]) then xs[|xs| - 1] else Greatest(xs[..|xs| - 1])
  }

  function Aggregand(j: Json, field: Text): Option<real> {
    var raw :- ResolveField(j, field);
    match TypedComparand(raw)
    case Some(NumberOf(n)) => Some(n)
    case _ => None
  }

  function AggregandGetter(field: Text): Json -> Option<real> {
    (j: Json) => Aggregand(j, field)
  }

  /** `sum`; an infinite sum is an error in every position where it can stand. */
  function SumOf(xs: seq<real>): Value {
    match RangedTotal(xs)
    case Some(total) => Number(total)
    case None => Error
  }

  /** `_evaluate_aggregation` on values. */
  function EvalAggregation(c: Context, agg: Aggregator, node: seq<Member>): Value {
    if c.commitments == [] || (exists i :: 0 <= i < |c.commitments| && !c.commitments[i].Obj?) then Error
    else if agg == Count then Number(|c.commitments| as real)
    else
      match FieldOf(node)
      case None => Error
      case Some(field) =>
        match Each(AggregandGetter(field), c.commitments)
        case None => Error
        case Some(xs) =>
          match agg
          case Sum => SumOf(xs)
          case Min => Number(Least(xs))
          case _ => Number(Greatest(xs))
  }

  /** `_evaluate_aggregation` */
  method EvaluateAggregation(c: Context, agg: Aggregator, node: seq<Member>) returns (v: Value)
    ensures v == EvalAggregation(c, agg, node)
  {
    if c.commitments == [] {
      return Error;
    }
    for k := 0 to |c.commitments|
      invariant forall i :: 0 <= i < k ==> c.commitments[i].Obj?
    {
      if !c.commitments[k].Obj? {
        return Error;
      }
    }
    if agg == Count {
      return Number(|c.commitments| as real);
    }
    var field := FieldOf(node);
    if field.None? {
      return Error;
    }
    var f := AggregandGetter(field.value);
    var values: seq<real> := [];
    for k := 0 to |c.commitments|
      invariant Each(f, c.commitments[..k]) == Some(values)
    {
      EachPrefix(f, c.commitments, k);
      var raw := ResolveField(c.commitments[k], field.value);
      if raw.None? {
        return Error;
      }
      var typed := TypedComparand(raw.value);
      if typed.None? || !typed.value.NumberOf? {
        return Error;
      }
      values := values + [typed.value.n];
    }
    assert c.commitments[..|c.commitments|] == c.commitments;
    match agg {
      case Sum =>
        var total := SumLoop(values);
        return if total.Some? then Number(total.value) else Error;
      case Min =>
        var least := MinLoop(values);
        return Number(least);
      case _ =>
        var greatest := MaxLoop(values);
        return Number(greatest);
    }
  }

  /** The running sum, which stays infinite once it is. */
  method SumLoop(xs: seq<real>) returns (total: Option<real>)
    ensures total == RangedTotal(xs)
  {
    var sum := 0.0;
    for k := 0 to |xs|
      invariant RangedTotal(xs) == RangedFrom(sum, xs[k..])
    {
      assert xs[k..][0] == xs[k] && xs[k..][1..] == xs[k + 1..];
      sum := sum + xs[k];
      if !InFloatRange(sum) {
        return None;
      }
    }
    return Some(sum);
  }

  method MinLoop(xs: seq<real>) returns (least: real)
    requires xs != []
    ensures least == Least(xs)
  {
    least := xs[0];
    assert xs[..1] == [xs[0]];
    for k := 1 to |xs|
      invariant least == Least(xs[..k])
    {
      assert xs[..k + 1][..k] == xs[..k];
      if xs[k] < least {
        least := xs[k];
      }
    }
    assert xs[..|xs|] == xs;
  }

  method MaxLoop(xs: seq<real>) returns (greatest: real)
    requires xs != []
    ensures greatest == Greatest(xs)
  {
    greatest := xs[0];
    assert xs[..1] == [xs[0]];
    for k := 1 to |xs|
      invariant greatest == Greatest(xs[..k])
    {
      assert xs[..k + 1][..k] == xs[..k];
      if xs[k] > greatest {
        greatest := xs[k];
      }
    }
    assert xs[..|xs|] == xs;
  }

  // ---------------------------------------------------------------- the evaluator

  /** A member of a node; it is part of the node. */
  function Child(j: Json, key: Text): (r: Option<Json>)
    requires j.Obj?
    ensures r == Get(j.members, key)
    ensures r.Some? ==> r.value < j
  {
    ChildSmaller(j.members, key);
    Get(j.members, key)
  }

  lemma ChildSmaller(ms: seq<Member>, key: Text)
    ensures Get(ms, key).Some? ==> Get(ms, key).value < Obj(ms)
  {
    if Get(ms, key).Some? {
      var i := Place(ms, key);
      assert Get(ms, key).value == ms[i].value < Obj(ms);
    }
  }

  lemma {:induction false} Place(ms: seq<Member>, key: Text) returns (i: nat)
    requires Get(ms, key).Some?
    ensures i < |ms| && ms[i].key == key && Get(ms, key) == Some(ms[i].value)
  {
    if ms[0].key == key {
      i := 0;
    } else {
      i := Place(ms[1..], key);
      i := i + 1;
    }
  }

  /** `_require_args` */
  function ArgsOf(j: Json): (r: Option<seq<Json>>)
    requires j.Obj?
    ensures r.Some? ==> r.value != [] && forall i :: 0 <= i < |r.value| ==> r.value[i] < j
  {
    match Child(j, ARGS)
    case Some(Arr(false, args)) => if args == [] then None else Some(args)
    case _ => None
  }

  /** `_evaluate_boolean`: anything but a Boolean raises. */
  function InBooleanPosition(v: Value): Option<bool> {
    if v.Truth? then Some(v.b) else None
  }

  /** `_evaluate_node`; a candidate that is not a dict is a malformed node. */
  function Eval(c: Context, j: Json): Value
    decreases j
  {
    if !j.Obj? then Error
    else
      match OpOf(j)
      case None => Error
      case Some(And) =>
        (match ArgsOf(j)
         case None => Error
         case Some(args) =>
           match Each(InBooleanPosition, seq(|args|, i requires 0 <= i < |args| => Eval(c, args[i])))
           case None => Error
           case Some(bs) => Truth(false !in bs))
      case Some(Or) =>
        (match ArgsOf(j)
         case None => Error
         case Some(args) =>
           match Each(InBooleanPosition, seq(|args|, i requires 0 <= i < |args| => Eval(c, args[i])))
           case None => Error
           case Some(bs) => Truth(true in bs))
      case Some(Not) =>
        (match Child(j, ARG)
         case None => Error
         case Some(arg) => match InBooleanPosition(Eval(c, arg)) case Some(b) => Truth(!b) case None => Error)
      case Some(Compare(cmp)) =>
        (match Child(j, LEFT)
         case None => EvalComparison(c, cmp, j.members, None)
         case Some(left) => EvalComparison(c, cmp, j.members, Some(Eval(c, left))))
      case Some(In) => EvalMembership(c, j.members)
      case Some(Before) => EvalTime(c, j.members, true)
      case Some(After) => EvalTime(c, j.members, false)
      case Some(Aggregate(agg)) => EvalAggregation(c, agg, j.members)
  }
}
