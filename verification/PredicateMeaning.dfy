/**
 What the tests of the closure language mean, in plain relations between numbers, texts and
 instants, for nodes given by their members. Nothing here goes through the evaluator.
 */
module PredicateMeaning {
  import opened Wrappers
  import opened Sequences
  import opened Unicode
  import opened PythonValues
  import opened RealValues
  import opened FloatRange
  import opened RangedSums
  import opened Predicates

  // ---------------------------------------------------------------- operators by name

  /** The node's operator has this name. */
  predicate Named(j: Json, name: string) {
    j.Obj? && Get(j.members, Lit("op")) == Some(Str(Lit(name)))
  }

  lemma SignsDiffer()
    ensures Lit("==") != Lit("!=") && Lit("==") != Lit(">=") && Lit("==") != Lit("<=") && Lit("==") != Lit("or")
    ensures Lit("!=") != Lit(">=") && Lit("!=") != Lit("<=") && Lit(">=") != Lit("<=") && Lit(">") != Lit("<")
    ensures Lit("in") !in [Lit("or"), Lit("=="), Lit("!="), Lit(">="), Lit("<=")]
    ensures Lit("or") !in [Lit("!="), Lit(">="), Lit("<=")]
  {
    assert Lit("==")[0] == '=' as int && Lit("!=")[0] == '!' as int && Lit(">=")[0] == '>' as int;
    assert Lit("<=")[0] == '<' as int && Lit("or")[0] == 'o' as int && Lit("in")[0] == 'i' as int;
    assert Lit(">")[0] == '>' as int && Lit("<")[0] == '<' as int;
  }

  lemma WordsDiffer()
    ensures Lit("and") !in [Lit("not"), Lit("sum"), Lit("min"), Lit("max")]
    ensures Lit("not") !in [Lit("sum"), Lit("min"), Lit("max")]
    ensures Lit("sum") != Lit("min") && Lit("sum") != Lit("max") && Lit("min") != Lit("max")
    ensures Lit("after") != Lit("count")
  {
    assert Lit("and")[0] == 'a' as int && Lit("not")[0] == 'n' as int && Lit("sum")[0] == 's' as int;
    assert Lit("min")[1] == 'i' as int && Lit("max")[1] == 'a' as int && Lit("min")[0] == 'm' as int;
    assert Lit("max")[0] == 'm' as int && Lit("after")[0] == 'a' as int && Lit("count")[0] == 'c' as int;
  }

  lemma ComparatorsByName(j: Json)
    ensures OpOf(j) == Some(Compare(Eq)) <==> Named(j, "==")
    ensures OpOf(j) == Some(Compare(Ne)) <==> Named(j, "!=")
    ensures OpOf(j) == Some(Compare(Ge)) <==> Named(j, ">=")
    ensures OpOf(j) == Some(Compare(Le)) <==> Named(j, "<=")
    ensures OpOf(j) == Some(Compare(Gt)) <==> Named(j, ">")
    ensures OpOf(j) == Some(Compare(Lt)) <==> Named(j, "<")
  {
    SignsDiffer();
  }

  lemma OthersByName(j: Json)
    ensures OpOf(j) == Some(And) <==> Named(j, "and")
    ensures OpOf(j) == Some(Or) <==> Named(j, "or")
    ensures OpOf(j) == Some(Not) <==> Named(j, "not")
    ensures OpOf(j) == Some(In) <==> Named(j, "in")
    ensures OpOf(j) == Some(Before) <==> Named(j, "before")
    ensures OpOf(j) == Some(After) <==> Named(j, "after")
  {
    SignsDiffer();
    WordsDiffer();
  }

  lemma AggregatorsByName(j: Json)
    ensures OpOf(j) == Some(Aggregate(Sum)) <==> Named(j, "sum")
    ensures OpOf(j) == Some(Aggregate(Min)) <==> Named(j, "min")
    ensures OpOf(j) == Some(Aggregate(Max)) <==> Named(j, "max")
    ensures OpOf(j) == Some(Aggregate(Count)) <==> Named(j, "count")
  {
    SignsDiffer();
    WordsDiffer();
  }

  // ---------------------------------------------------------------- dotted fields

  /** The segments, with a dot between each two. */
  function Dotted(parts: seq<Text>): Text {
    if parts == [] then []
    else if |parts| == 1 then parts[0]
    else parts[0] + ['.' as int] + Dotted(parts[1..])
  }

  predicate NoDot(t: Text) {
    forall i :: 0 <= i < |t| ==> t[i] != '.' as int
  }

  /** A field path is cut exactly at its dots. */
  lemma {:induction false} SplitIs(t: Text)
    ensures Dotted(Split(t)) == t && forall i :: 0 <= i < |Split(t)| ==> NoDot(Split(t)[i])
  {
    if t != [] {
      SplitIs(t[1..]);
      var rest := Split(t[1..]);
      assert t == [t[0]] + t[1..];
      if t[0] == '.' as int {
        assert ([[]] + rest)[1..] == rest;
      } else {
        var parts := [[t[0]] + rest[0]] + rest[1..];
        assert parts[1..] == rest[1..];
      }
    }
  }

  /** Going from dict to dict along the path leads from `j` to `v`. */
  ghost predicate LeadsTo(j: Json, path: seq<Text>, v: Json) {
    exists stops: seq<Json> :: |stops| == |path| + 1 && stops[0] == j && stops[|path|] == v && Follows(stops, path)
  }

  ghost predicate Follows(stops: seq<Json>, path: seq<Text>)
    requires |stops| == |path| + 1
  {
    forall i :: 0 <= i < |path| ==> stops[i].Obj? && Get(stops[i].members, path[i]) == Some(stops[i + 1])
  }

  lemma StepFirst(j: Json, path: seq<Text>, next: Json, v: Json)
    requires path != [] && j.Obj? && Get(j.members, path[0]) == Some(next) && LeadsTo(next, path[1..], v)
    ensures LeadsTo(j, path, v)
  {
    var rest := path[1..];
    var stops: seq<Json> :| |stops| == |rest| + 1 && stops[0] == next && stops[|rest|] == v && Follows(stops, rest);
    var longer := [j] + stops;
    forall i | 0 <= i < |path|
      ensures longer[i].Obj? && Get(longer[i].members, path[i]) == Some(longer[i + 1])
    {
      if i > 0 {
        assert longer[i] == stops[i - 1] && path[i] == rest[i - 1] && longer[i + 1] == stops[i];
      }
    }
    assert Follows(longer, path);
  }

  lemma FirstStep(j: Json, path: seq<Text>, v: Json)
    requires path != [] && LeadsTo(j, path, v)
    ensures j.Obj? && Get(j.members, path[0]).Some? && LeadsTo(Get(j.members, path[0]).value, path[1..], v)
  {
    var rest := path[1..];
    var stops: seq<Json> :| |stops| == |path| + 1 && stops[0] == j && stops[|path|] == v && Follows(stops, path);
    var shorter := stops[1..];
    assert stops[0].Obj? && Get(stops[0].members, path[0]) == Some(stops[1]);
    assert shorter[0] == stops[1] && shorter[|rest|] == stops[|path|];
    assert forall i :: 0 <= i < |rest| ==> shorter[i] == stops[i + 1] && rest[i] == path[i + 1];
    assert Follows(shorter, rest);
  }

  lemma NoStep(j: Json, v: Json)
    ensures LeadsTo(j, [], v) <==> j == v
  {
    var stops := [j];
    assert j == v ==> |stops| == 1 && stops[0] == j && stops[0] == v && Follows(stops, []);
  }

  lemma {:induction false} WalkIs(j: Json, path: seq<Text>, v: Json)
    ensures Walk(j, path) == Some(v) <==> LeadsTo(j, path, v)
    decreases |path|
  {
    if path == [] {
      NoStep(j, v);
    } else {
      if LeadsTo(j, path, v) {
        FirstStep(j, path, v);
      }
      if j.Obj? && Get(j.members, path[0]).Some? {
        var next := Get(j.members, path[0]).value;
        WalkIs(next, path[1..], v);
        if LeadsTo(next, path[1..], v) {
          StepFirst(j, path, next, v);
        }
      }
    }
  }

  /** The commitment has the value `v` under the dotted name `field`. */
  ghost predicate HasField(j: Json, field: Text, v: Json) {
    exists path: seq<Text> :: path != [] && Dotted(path) == field
                              && (forall i :: 0 <= i < |path| ==> NoDot(path[i])) && LeadsTo(j, path, v)
  }

  lemma {:induction false} OneCut(path: seq<Text>)
    requires path != [] && forall i :: 0 <= i < |path| ==> NoDot(path[i])
    ensures Split(Dotted(path)) == path
  {
    SplitHead(path[0], path[1..]);
    if |path| == 1 {
      assert Dotted(path) == path[0] && path == [path[0]];
    } else {
      OneCut(path[1..]);
      assert path == [path[0]] + path[1..];
    }
  }

  lemma {:induction false} SplitHead(t: Text, more: seq<Text>)
    requires NoDot(t)
    ensures Split(t) == [t]
    ensures Split(t + ['.' as int] + Dotted(more)) == [t] + Split(Dotted(more))
  {
    var rest := Dotted(more);
    if t == [] {
      assert (t + ['.' as int] + rest)[1..] == rest;
    } else {
      SplitHead(t[1..], more);
      assert (t + ['.' as int] + rest)[1..] == t[1..] + ['.' as int] + rest;
      assert [t[0]] + t[1..] == t;
      assert ([t[1..]] + Split(rest))[1..] == Split(rest);
    }
  }

  lemma FieldIff(j: Json, field: Text, v: Json)
    ensures ResolveField(j, field) == Some(v) <==> HasField(j, field, v)
  {
    SplitIs(field);
    WalkIs(j, Split(field), v);
    if path: seq<Text> :| path != [] && Dotted(path) == field
                          && (forall i :: 0 <= i < |path| ==> NoDot(path[i])) && LeadsTo(j, path, v) {
      OneCut(path);
    }
  }

  // ---------------------------------------------------------------- values in classes

  /** A number, not a bool, that is finite as a float. */
  predicate IsNumber(v: Json, x: real) {
    v.Num? && Reading(v.num) == Some(x) && InFloatRange(x)
  }

  /** A value of one of the three classes. */
  predicate Scalar(v: Json) {
    v.Str? || v.Time? || (v.Num? && Reading(v.num).Some? && InFloatRange(Reading(v.num).value))
  }

  /** Both of one class. */
  predicate OneKind(v: Json, w: Json) {
    Scalar(v) && Scalar(w) && ((v.Num? && w.Num?) || (v.Str? && w.Str?) || (v.Time? && w.Time?))
  }

  /** Of one class and equal: as reals, texts or instants. */
  predicate EqualScalars(v: Json, w: Json) {
    OneKind(v, w) && if v.Num? then Reading(v.num) == Reading(w.num) else v == w
  }

  predicate RelatedReals(name: string, x: real, y: real) {
    || (name == "==" && x == y) || (name == "!=" && x != y)
    || (name == ">=" && x >= y) || (name == "<=" && x <= y)
    || (name == ">" && x > y) || (name == "<" && x < y)
  }

  predicate RelatedExactly(name: string, same: bool) {
    (name == "==" && same) || (name == "!=" && !same)
  }

  /** The operator named so relates the two values. */
  ghost predicate Related(name: string, v: Json, w: Json) {
    || (exists x, y :: IsNumber(v, x) && IsNumber(w, y) && RelatedReals(name, x, y))
    || (v.Str? && w.Str? && RelatedExactly(name, v == w))
    || (v.Time? && w.Time? && RelatedExactly(name, v == w))
  }

  /** The operator may be applied at all: ordering takes numbers only. */
  predicate Matched(name: string, v: Json, w: Json) {
    OneKind(v, w) && (name in ["==", "!="] || v.Num?)
  }

  function Sign(cmp: Comparator): string {
    match cmp
    case Eq => "=="
    case Ne => "!="
    case Ge => ">="
    case Le => "<="
    case Gt => ">"
    case Lt => "<"
  }

  lemma TypedIff(v: Json)
    ensures TypedComparand(v).Some? <==> Scalar(v)
    ensures forall x :: TypedComparand(v) == Some(NumberOf(x)) <==> IsNumber(v, x)
    ensures forall t :: TypedComparand(v) == Some(TextOf(t)) <==> v == Str(t)
    ensures forall i :: TypedComparand(v) == Some(InstantOf(i)) <==> v == Time(i)
  {
  }

  lemma RealsCompared(cmp: Comparator, x: real, y: real)
    ensures TypedCompare(cmp, NumberOf(x), NumberOf(y)) == Some(RelatedReals(Sign(cmp), x, y))
  {
  }

  lemma NumbersRelated(name: string, v: Json, w: Json)
    requires Scalar(v) && Scalar(w) && v.Num? && w.Num?
    ensures Related(name, v, w) <==> RelatedReals(name, Reading(v.num).value, Reading(w.num).value)
  {
    assert IsNumber(v, Reading(v.num).value) && IsNumber(w, Reading(w.num).value);
  }

  /** One comparison of two values: when it raises, and when it is true. */
  lemma ComparedIff(cmp: Comparator, v: Json, w: Json)
    requires Scalar(v) && Scalar(w)
    ensures TypedCompare(cmp, TypedComparand(v).value, TypedComparand(w).value).Some? <==> Matched(Sign(cmp), v, w)
    ensures TypedCompare(cmp, TypedComparand(v).value, TypedComparand(w).value) == Some(true) <==>
            Related(Sign(cmp), v, w)
  {
    if v.Num? && w.Num? {
      RealsCompared(cmp, Reading(v.num).value, Reading(w.num).value);
      NumbersRelated(Sign(cmp), v, w);
    }
  }

  // ---------------------------------------------------------------- tests of a field

  /** The field is there, and the operator relates it to the literal. */
  ghost predicate FieldRelated(j: Json, field: Text, name: string, w: Json) {
    exists v :: HasField(j, field, v) && Related(name, v, w)
  }

  /** The field is there, the operator applies, and does not relate it to the literal. */
  ghost predicate FieldRefuted(j: Json, field: Text, name: string, w: Json) {
    exists v :: HasField(j, field, v) && Matched(name, v, w) && !Related(name, v, w)
  }

  ghost predicate FieldReadable(j: Json, field: Text) {
    exists v :: HasField(j, field, v) && Scalar(v)
  }

  /** The test is named so and has this field and this literal, which has a class. */
  predicate TestOf(j: Json, name: string, field: Text, w: Json) {
    && Named(j, name) && Get(j.members, Lit("left")).None?
    && Get(j.members, Lit("field")) == Some(Str(field)) && Get(j.members, Lit("value")) == Some(w) && Scalar(w)
  }

  /** True: every commitment has the field, and it is related to the literal. */
  ghost predicate FieldTestHolds(c: Context, name: string, field: Text, w: Json) {
    c.commitments != [] && forall i :: 0 <= i < |c.commitments| ==> FieldRelated(c.commitments[i], field, name, w)
  }

  /** False: all can be read, and the first that is not related could be compared. */
  ghost predicate FieldTestFails(c: Context, name: string, field: Text, w: Json) {
    && (forall i :: 0 <= i < |c.commitments| ==> FieldReadable(c.commitments[i], field))
    && exists i: nat :: FirstRefuted(c, name, field, w, i)
  }

  ghost predicate FirstRefuted(c: Context, name: string, field: Text, w: Json, i: nat) {
    && i < |c.commitments| && FieldRefuted(c.commitments[i], field, name, w)
    && forall k :: 0 <= k < i ==> FieldRelated(c.commitments[k], field, name, w)
  }

  ghost predicate FirstFalse(cmp: Comparator, xs: seq<Comparand>, e: Comparand, i: nat) {
    && i < |xs| && TypedCompare(cmp, xs[i], e) == Some(false)
    && forall k :: 0 <= k < i ==> TypedCompare(cmp, xs[k], e) == Some(true)
  }

  lemma FirstFalseShifts(cmp: Comparator, xs: seq<Comparand>, e: Comparand, i: nat)
    requires xs != [] && TypedCompare(cmp, xs[0], e) == Some(true)
    ensures FirstFalse(cmp, xs[1..], e, i) <==> FirstFalse(cmp, xs, e, i + 1)
    ensures !FirstFalse(cmp, xs, e, 0)
  {
    assert forall k :: 0 < k < |xs| ==> xs[k] == xs[1..][k - 1];
  }

  lemma {:induction false} LazyAllIff(cmp: Comparator, xs: seq<Comparand>, e: Comparand)
    ensures LazyAll(cmp, xs, e) == Some(true) <==>
            forall i :: 0 <= i < |xs| ==> TypedCompare(cmp, xs[i], e) == Some(true)
    ensures LazyAll(cmp, xs, e) == Some(false) <==> exists i: nat :: FirstFalse(cmp, xs, e, i)
  {
    if xs != [] {
      var rest := xs[1..];
      LazyAllIff(cmp, rest, e);
      assert forall i :: 0 < i < |xs| ==> xs[i] == rest[i - 1];
      if TypedCompare(cmp, xs[0], e) == Some(true) {
        if i: nat :| FirstFalse(cmp, rest, e, i) {
          FirstFalseShifts(cmp, xs, e, i);
        }
        if i: nat :| FirstFalse(cmp, xs, e, i) {
          FirstFalseShifts(cmp, xs, e, if i == 0 then 0 else i - 1);
        }
      } else if TypedCompare(cmp, xs[0], e) == Some(false) {
        assert FirstFalse(cmp, xs, e, 0);
      }
    }
  }

  lemma FieldReads(j: Json, field: Text)
    ensures GetField(j, field).Some? <==> FieldReadable(j, field)
  {
    if ResolveField(j, field).Some? {
      var v := ResolveField(j, field).value;
      FieldIff(j, field, v);
      TypedIff(v);
    }
    if v :| HasField(j, field, v) && Scalar(v) {
      FieldIff(j, field, v);
      TypedIff(v);
    }
  }

  lemma FieldCompares(j: Json, field: Text, cmp: Comparator, w: Json)
    requires Scalar(w) && GetField(j, field).Some?
    ensures TypedCompare(cmp, GetField(j, field).value, TypedComparand(w).value) == Some(true) <==>
            FieldRelated(j, field, Sign(cmp), w)
    ensures TypedCompare(cmp, GetField(j, field).value, TypedComparand(w).value) == Some(false) <==>
            FieldRefuted(j, field, Sign(cmp), w)
  {
    var v := ResolveField(j, field).value;
    FieldIff(j, field, v);
    TypedIff(v);
    ComparedIff(cmp, v, w);
    if u :| HasField(j, field, u) && Related(Sign(cmp), u, w) {
      FieldIff(j, field, u);
    }
    if u :| HasField(j, field, u) && Matched(Sign(cmp), u, w) && !Related(Sign(cmp), u, w) {
      FieldIff(j, field, u);
    }
  }

  /** The values of a field, one a commitment. */
  predicate FieldValues(c: Context, field: Text, xs: seq<Comparand>) {
    |xs| == |c.commitments| && forall i :: 0 <= i < |xs| ==> GetField(c.commitments[i], field) == Some(xs[i])
  }

  lemma ValuesCompare(c: Context, cmp: Comparator, field: Text, w: Json, xs: seq<Comparand>)
    requires Scalar(w) && FieldValues(c, field, xs)
    ensures var e := TypedComparand(w).value;
            forall i :: 0 <= i < |xs| ==>
              && FieldReadable(c.commitments[i], field)
              && (TypedCompare(cmp, xs[i], e) == Some(true) <==> FieldRelated(c.commitments[i], field, Sign(cmp), w))
              && (TypedCompare(cmp, xs[i], e) == Some(false) <==> FieldRefuted(c.commitments[i], field, Sign(cmp), w))
  {
    forall i | 0 <= i < |xs|
      ensures var e := TypedComparand(w).value;
              && FieldReadable(c.commitments[i], field)
              && (TypedCompare(cmp, xs[i], e) == Some(true) <==> FieldRelated(c.commitments[i], field, Sign(cmp), w))
              && (TypedCompare(cmp, xs[i], e) == Some(false) <==> FieldRefuted(c.commitments[i], field, Sign(cmp), w))
    {
      assert GetField(c.commitments[i], field) == Some(xs[i]);
      FieldReads(c.commitments[i], field);
      FieldCompares(c.commitments[i], field, cmp, w);
    }
  }

  lemma ReadableIff(c: Context, field: Text)
    ensures Each(FieldGetter(field), c.commitments).Some? <==>
            forall i :: 0 <= i < |c.commitments| ==> FieldReadable(c.commitments[i], field)
    ensures Each(FieldGetter(field), c.commitments).Some? ==>
            FieldValues(c, field, Each(FieldGetter(field), c.commitments).value)
  {
    var f := FieldGetter(field);
    EachFails(f, c.commitments);
    forall i | 0 <= i < |c.commitments|
      ensures f(c.commitments[i]).Some? <==> FieldReadable(c.commitments[i], field)
    {
      FieldReads(c.commitments[i], field);
    }
  }

  lemma UnreadableHasNoTruth(c: Context, cmp: Comparator, field: Text, w: Json, i: nat)
    requires i < |c.commitments| && !FieldReadable(c.commitments[i], field)
    ensures !FieldTestHolds(c, Sign(cmp), field, w) && !FieldTestFails(c, Sign(cmp), field, w)
  {
    RelatedIsReadable(c.commitments[i], field, cmp, w);
  }

  lemma TrueOnValues(c: Context, cmp: Comparator, field: Text, w: Json, xs: seq<Comparand>)
    requires Scalar(w) && FieldValues(c, field, xs) && xs != []
    ensures LazyAll(cmp, xs, TypedComparand(w).value) == Some(true) <==> FieldTestHolds(c, Sign(cmp), field, w)
  {
    ValuesCompare(c, cmp, field, w, xs);
    LazyAllIff(cmp, xs, TypedComparand(w).value);
  }

  lemma FirstOnValues(c: Context, cmp: Comparator, field: Text, w: Json, xs: seq<Comparand>, i: nat)
    requires Scalar(w) && FieldValues(c, field, xs)
    ensures FirstFalse(cmp, xs, TypedComparand(w).value, i) <==> FirstRefuted(c, Sign(cmp), field, w, i)
  {
    ValuesCompare(c, cmp, field, w, xs);
  }

  lemma FalseOnValues(c: Context, cmp: Comparator, field: Text, w: Json, xs: seq<Comparand>)
    requires Scalar(w) && FieldValues(c, field, xs)
    requires forall i :: 0 <= i < |c.commitments| ==> FieldReadable(c.commitments[i], field)
    ensures LazyAll(cmp, xs, TypedComparand(w).value) == Some(false) <==> FieldTestFails(c, Sign(cmp), field, w)
  {
    var e := TypedComparand(w).value;
    LazyAllIff(cmp, xs, e);
    forall i: nat
      ensures FirstFalse(cmp, xs, e, i) <==> FirstRefuted(c, Sign(cmp), field, w, i)
    {
      FirstOnValues(c, cmp, field, w, xs, i);
    }
  }

  lemma NoValuesNoTruth(c: Context, cmp: Comparator, field: Text, w: Json)
    requires Each(FieldGetter(field), c.commitments).None?
    ensures !FieldTestHolds(c, Sign(cmp), field, w) && !FieldTestFails(c, Sign(cmp), field, w)
  {
    ReadableIff(c, field);
    var i :| 0 <= i < |c.commitments| && !FieldReadable(c.commitments[i], field);
    UnreadableHasNoTruth(c, cmp, field, w, i);
  }

  lemma NothingFails(c: Context, name: string, field: Text, w: Json)
    requires c.commitments == []
    ensures !FieldTestHolds(c, name, field, w) && !FieldTestFails(c, name, field, w)
  {
  }

  /** A comparison of a field: when it is true, and when it is false; otherwise it raises. */
  lemma FieldTestIff(c: Context, cmp: Comparator, field: Text, w: Json)
    requires Scalar(w)
    ensures CompareField(c, cmp, field, TypedComparand(w).value) == Truth(true) <==>
            FieldTestHolds(c, Sign(cmp), field, w)
    ensures CompareField(c, cmp, field, TypedComparand(w).value) == Truth(false) <==>
            FieldTestFails(c, Sign(cmp), field, w)
  {
    if c.commitments == [] {
      NothingFails(c, Sign(cmp), field, w);
    } else if Each(FieldGetter(field), c.commitments).Some? {
      var xs := Each(FieldGetter(field), c.commitments).value;
      ReadableIff(c, field);
      TrueOnValues(c, cmp, field, w, xs);
      FalseOnValues(c, cmp, field, w, xs);
    } else {
      NoValuesNoTruth(c, cmp, field, w);
    }
  }

  lemma RelatedIsReadable(j: Json, field: Text, cmp: Comparator, w: Json)
    ensures FieldRelated(j, field, Sign(cmp), w) ==> FieldReadable(j, field)
  {
  }

  // ---------------------------------------------------------------- tests of an aggregate

  function PlainSum(xs: seq<real>): real {
    if xs == [] then 0.0 else PlainSum(xs[..|xs| - 1]) + xs[|xs| - 1]
  }

  /** Every commitment has a number under the field: these. */
  ghost predicate NumbersUnder(c: Context, field: Text, xs: seq<real>) {
    |xs| == |c.commitments| && forall i :: 0 <= i < |xs| ==> NumberUnder(c.commitments[i], field, xs[i])
  }

  ghost predicate NumberUnder(j: Json, field: Text, x: real) {
    exists v :: HasField(j, field, v) && IsNumber(v, x)
  }

  ghost predicate AggregateOf(name: string, xs: seq<real>, x: real) {
    || (name == "sum" && x == PlainSum(xs) && forall k :: 0 < k <= |xs| ==> InFloatRange(PlainSum(xs[..k])))
    || (name == "min" && x in xs && forall k :: 0 <= k < |xs| ==> x <= xs[k])
    || (name == "max" && x in xs && forall k :: 0 <= k < |xs| ==> x >= xs[k])
  }

  /** The node is an aggregation over dicts, and gives `x`. */
  ghost predicate Aggregates(c: Context, j: Json, x: real) {
    && AllDicts(c)
    && (|| (Named(j, "count") && x == |c.commitments| as real)
        || (Named(j, "sum") && AggregatesAs(c, j, "sum", x))
        || (Named(j, "min") && AggregatesAs(c, j, "min", x))
        || (Named(j, "max") && AggregatesAs(c, j, "max", x)))
  }

  ghost predicate AggregatesAs(c: Context, j: Json, name: string, x: real)
    requires j.Obj?
  {
    exists field, xs :: Get(j.members, Lit("field")) == Some(Str(field)) && NumbersUnder(c, field, xs)
                        && AggregateOf(name, xs, x)
  }

  lemma {:induction false} RangedPrefix(s: real, xs: seq<real>, x: real)
    ensures RangedFrom(s, xs + [x]) ==
            match RangedFrom(s, xs)
            case Some(t) => if InFloatRange(t + x) then Some(t + x) else None
            case None => None
    decreases |xs|
  {
    if xs == [] {
      assert xs + [x] == [x] && [x][1..] == [];
    } else {
      assert (xs + [x])[1..] == xs[1..] + [x];
      if InFloatRange(s + xs[0]) {
        RangedPrefix(s + xs[0], xs[1..], x);
      }
    }
  }

  lemma {:induction false} SumIff(xs: seq<real>, x: real)
    ensures RangedTotal(xs) == Some(x) <==> AggregateOf("sum", xs, x)
    ensures RangedTotal(xs).Some? <==> forall k :: 0 < k <= |xs| ==> InFloatRange(PlainSum(xs[..k]))
    ensures RangedTotal(xs).Some? ==> RangedTotal(xs).value == PlainSum(xs)
    decreases |xs|
  {
    if xs != [] {
      var init := xs[..|xs| - 1];
      SumIff(init, PlainSum(init));
      RangedPrefix(0.0, init, xs[|xs| - 1]);
      assert xs == init + [xs[|xs| - 1]] && xs[..|xs|] == xs;
      assert forall k :: 0 < k <= |init| ==> xs[..k] == init[..k];
    }
  }

  lemma {:induction false} LeastIs(xs: seq<real>)
    requires xs != []
    ensures Least(xs) in xs && forall k :: 0 <= k < |xs| ==> Least(xs) <= xs[k]
  {
    if |xs| > 1 {
      LeastIs(xs[..|xs| - 1]);
      assert forall k :: 0 <= k < |xs| - 1 ==> xs[..|xs| - 1][k] == xs[k];
    }
  }

  lemma {:induction false} GreatestIs(xs: seq<real>)
    requires xs != []
    ensures Greatest(xs) in xs && forall k :: 0 <= k < |xs| ==> Greatest(xs) >= xs[k]
  {
    if |xs| > 1 {
      GreatestIs(xs[..|xs| - 1]);
      assert forall k :: 0 <= k < |xs| - 1 ==> xs[..|xs| - 1][k] == xs[k];
    }
  }

  lemma NumberUnderIff(j: Json, field: Text, x: real)
    ensures NumberUnder(j, field, x) <==> Aggregand(j, field) == Some(x)
  {
    if ResolveField(j, field).Some? {
      FieldIff(j, field, ResolveField(j, field).value);
      TypedIff(ResolveField(j, field).value);
    }
    if v :| HasField(j, field, v) && IsNumber(v, x) {
      FieldIff(j, field, v);
      TypedIff(v);
    }
  }

  lemma NumbersUnderIff(c: Context, field: Text, xs: seq<real>)
    ensures NumbersUnder(c, field, xs) <==> Each(AggregandGetter(field), c.commitments) == Some(xs)
  {
    var f := AggregandGetter(field);
    EachFails(f, c.commitments);
    forall i | 0 <= i < |c.commitments| && |xs| == |c.commitments|
      ensures NumberUnder(c.commitments[i], field, xs[i]) <==> f(c.commitments[i]) == Some(xs[i])
    {
      NumberUnderIff(c.commitments[i], field, xs[i]);
    }
    if NumbersUnder(c, field, xs) {
      assert forall i :: 0 <= i < |xs| ==> f(c.commitments[i]) == Some(xs[i]);
      assert Each(f, c.commitments).value == xs;
    }
  }

  lemma FoldIff(agg: Aggregator, xs: seq<real>, x: real)
    requires xs != []
    ensures RangedTotal(xs) == Some(x) <==> AggregateOf("sum", xs, x)
    ensures Least(xs) == x <==> AggregateOf("min", xs, x)
    ensures Greatest(xs) == x <==> AggregateOf("max", xs, x)
  {
    SumIff(xs, x);
    LeastIs(xs);
    GreatestIs(xs);
    if AggregateOf("min", xs, x) {
      var k :| 0 <= k < |xs| && xs[k] == x;
      var l :| 0 <= l < |xs| && xs[l] == Least(xs);
    }
    if AggregateOf("max", xs, x) {
      var k :| 0 <= k < |xs| && xs[k] == x;
      var l :| 0 <= l < |xs| && xs[l] == Greatest(xs);
    }
  }

  function FoldName(agg: Aggregator): string {
    match agg
    case Sum => "sum"
    case Min => "min"
    case Max => "max"
    case Count => "count"
  }

  predicate AllDicts(c: Context) {
    c.commitments != [] && forall i :: 0 <= i < |c.commitments| ==> c.commitments[i].Obj?
  }

  lemma FoldOfField(c: Context, node: seq<Member>, agg: Aggregator, field: Text, xs: seq<real>, x: real)
    requires agg != Count && AllDicts(c) && FieldOf(node) == Some(field)
    requires Each(AggregandGetter(field), c.commitments) == Some(xs)
    ensures EvalAggregation(c, agg, node) == Number(x) <==> AggregateOf(FoldName(agg), xs, x)
  {
    FoldIff(agg, xs, x);
  }

  lemma FoldNeedsField(c: Context, node: seq<Member>, agg: Aggregator)
    requires agg != Count && EvalAggregation(c, agg, node).Number?
    ensures FieldOf(node).Some? && Each(AggregandGetter(FieldOf(node).value), c.commitments).Some?
  {
  }

  lemma FoldedIff(c: Context, j: Json, agg: Aggregator, x: real)
    requires j.Obj? && agg != Count && AllDicts(c)
    ensures EvalAggregation(c, agg, j.members) == Number(x) <==> AggregatesAs(c, j, FoldName(agg), x)
  {
    if EvalAggregation(c, agg, j.members) == Number(x) {
      FoldNeedsField(c, j.members, agg);
      var field := FieldOf(j.members).value;
      var xs := Each(AggregandGetter(field), c.commitments).value;
      NumbersUnderIff(c, field, xs);
      FoldOfField(c, j.members, agg, field, xs, x);
      assert Get(j.members, Lit("field")) == Some(Str(field));
    }
    if field, xs :| Get(j.members, Lit("field")) == Some(Str(field)) && NumbersUnder(c, field, xs)
                    && AggregateOf(FoldName(agg), xs, x) {
      NumbersUnderIff(c, field, xs);
      FoldOfField(c, j.members, agg, field, xs, x);
    }
  }

  /** When an aggregation has a value, and which. */
  lemma AggregatesIff(c: Context, j: Json, x: real)
    ensures Eval(c, j) == Number(x) <==> Aggregates(c, j, x)
  {
    AggregatorsByName(j);
    if OpOf(j).Some? && OpOf(j).value.Aggregate? {
      var agg := OpOf(j).value.agg;
      if agg != Count && AllDicts(c) {
        FoldedIff(c, j, agg, x);
      }
    } else {
      OnlyAggregatesCount(c, j);
    }
  }

  lemma OnlyAggregatesCount(c: Context, j: Json)
    requires !(OpOf(j).Some? && OpOf(j).value.Aggregate?)
    ensures !Eval(c, j).Number?
  {
  }

  /** The test compares what `node` gives with a literal. */
  predicate LeftTestOf(j: Json, name: string, node: Json, w: Json) {
    Named(j, name) && Get(j.members, Lit("left")) == Some(node) && Get(j.members, Lit("value")) == Some(w)
  }

  /** The aggregate is so related to the literal, or the opposite. */
  ghost predicate LeftTestIs(c: Context, name: string, node: Json, w: Json, truth: bool) {
    exists x, y :: Aggregates(c, node, x) && IsNumber(w, y) && RelatedReals(name, x, y) == truth
  }

  lemma LeftTestIff(c: Context, cmp: Comparator, node: Json, ms: seq<Member>, w: Json, truth: bool)
    requires Get(ms, VALUE) == Some(w)
    ensures EvalComparison(c, cmp, ms, Some(Eval(c, node))) == Truth(truth) <==>
            LeftTestIs(c, Sign(cmp), node, w, truth)
  {
    TypedIff(w);
    if Eval(c, node).Number? {
      var x := Eval(c, node).n;
      AggregatesIff(c, node, x);
      if Scalar(w) && w.Num? {
        RealsCompared(cmp, x, Reading(w.num).value);
        assert IsNumber(w, Reading(w.num).value);
      }
    }
    if x, y :| Aggregates(c, node, x) && IsNumber(w, y) && RelatedReals(Sign(cmp), x, y) == truth {
      AggregatesIff(c, node, x);
      RealsCompared(cmp, x, y);
    }
  }

  // ---------------------------------------------------------------- membership

  /** The test of a field against a list of literals, each of which has a class. */
  predicate MembershipTestOf(j: Json, field: Text, literals: seq<Json>) {
    && Named(j, "in") && Get(j.members, Lit("field")) == Some(Str(field))
    && Get(j.members, Lit("values")) == Some(Arr(false, literals)) && literals != []
    && forall k :: 0 <= k < |literals| ==> Scalar(literals[k])
  }

  predicate AmongEqual(v: Json, literals: seq<Json>) {
    exists k :: 0 <= k < |literals| && EqualScalars(v, literals[k])
  }

  predicate AmongKinds(v: Json, literals: seq<Json>) {
    exists k :: 0 <= k < |literals| && OneKind(v, literals[k])
  }

  ghost predicate FieldAmong(j: Json, field: Text, literals: seq<Json>) {
    exists v :: HasField(j, field, v) && AmongEqual(v, literals)
  }

  ghost predicate FieldOfAKind(j: Json, field: Text, literals: seq<Json>) {
    exists v :: HasField(j, field, v) && AmongKinds(v, literals)
  }

  /** True: every commitment's field equals some literal. False: all are of a kind with one, and not all equal one. */
  ghost predicate MembershipIs(c: Context, field: Text, literals: seq<Json>, truth: bool) {
    && c.commitments != []
    && (forall i :: 0 <= i < |c.commitments| ==> FieldOfAKind(c.commitments[i], field, literals))
    && (truth <==> forall i :: 0 <= i < |c.commitments| ==> FieldAmong(c.commitments[i], field, literals))
  }

  lemma EqualTyped(v: Json, w: Json)
    requires Scalar(v) && Scalar(w)
    ensures TypedComparand(v) == TypedComparand(w) <==> EqualScalars(v, w)
    ensures SameClass(TypedComparand(v).value, TypedComparand(w).value) <==> OneKind(v, w)
  {
    TypedIff(v);
    TypedIff(w);
  }

  lemma AmongIff(v: Json, literals: seq<Json>, accepted: seq<Comparand>)
    requires Scalar(v) && Each(TypedComparand, literals) == Some(accepted)
    ensures TypedComparand(v).value in accepted <==> AmongEqual(v, literals)
    ensures InSomeClass(TypedComparand(v).value, accepted) <==> AmongKinds(v, literals)
  {
    EachFails(TypedComparand, literals);
    forall k | 0 <= k < |literals|
      ensures accepted[k] == TypedComparand(v).value <==> EqualScalars(v, literals[k])
      ensures SameClass(TypedComparand(v).value, accepted[k]) <==> OneKind(v, literals[k])
    {
      assert TypedComparand(literals[k]) == Some(accepted[k]);
      TypedIff(literals[k]);
      EqualTyped(v, literals[k]);
    }
    if TypedComparand(v).value in accepted {
      var k :| 0 <= k < |accepted| && accepted[k] == TypedComparand(v).value;
    }
  }

  lemma FieldAmongIff(j: Json, field: Text, literals: seq<Json>, accepted: seq<Comparand>)
    requires Each(TypedComparand, literals) == Some(accepted)
    ensures FieldOfAKind(j, field, literals) <==>
            GetField(j, field).Some? && InSomeClass(GetField(j, field).value, accepted)
    ensures GetField(j, field).Some? ==> (FieldAmong(j, field, literals) <==> GetField(j, field).value in accepted)
  {
    if ResolveField(j, field).Some? {
      var v := ResolveField(j, field).value;
      FieldIff(j, field, v);
      TypedIff(v);
      if Scalar(v) {
        AmongIff(v, literals, accepted);
      }
    }
    if v :| HasField(j, field, v) && AmongKinds(v, literals) {
      FieldIff(j, field, v);
    }
    if v :| HasField(j, field, v) && AmongEqual(v, literals) {
      FieldIff(j, field, v);
    }
  }

  lemma LiteralsTyped(literals: seq<Json>)
    ensures Each(TypedComparand, literals).Some? <==> forall k :: 0 <= k < |literals| ==> Scalar(literals[k])
  {
    EachFails(TypedComparand, literals);
    forall k | 0 <= k < |literals|
      ensures TypedComparand(literals[k]).Some? <==> Scalar(literals[k])
    {
      TypedIff(literals[k]);
    }
  }

  lemma AllOfAKind(c: Context, field: Text, literals: seq<Json>, accepted: seq<Comparand>, xs: seq<Comparand>)
    requires Each(TypedComparand, literals) == Some(accepted) && FieldValues(c, field, xs)
    ensures forall i :: 0 <= i < |xs| ==>
              && (InSomeClass(xs[i], accepted) <==> FieldOfAKind(c.commitments[i], field, literals))
              && (xs[i] in accepted <==> FieldAmong(c.commitments[i], field, literals))
  {
    forall i | 0 <= i < |xs|
      ensures InSomeClass(xs[i], accepted) <==> FieldOfAKind(c.commitments[i], field, literals)
      ensures xs[i] in accepted <==> FieldAmong(c.commitments[i], field, literals)
    {
      assert GetField(c.commitments[i], field) == Some(xs[i]);
      FieldAmongIff(c.commitments[i], field, literals, accepted);
    }
  }

  lemma UnreadableNoMember(c: Context, field: Text, literals: seq<Json>, accepted: seq<Comparand>, truth: bool)
    requires Each(TypedComparand, literals) == Some(accepted) && Each(FieldGetter(field), c.commitments).None?
    ensures !MembershipIs(c, field, literals, truth)
  {
    EachFails(FieldGetter(field), c.commitments);
    var i :| 0 <= i < |c.commitments| && FieldGetter(field)(c.commitments[i]).None?;
    FieldAmongIff(c.commitments[i], field, literals, accepted);
  }

  lemma MembersOnValues(c: Context, field: Text, literals: seq<Json>, accepted: seq<Comparand>, xs: seq<Comparand>,
                        truth: bool)
    requires Each(TypedComparand, literals) == Some(accepted) && FieldValues(c, field, xs) && xs != []
    ensures MembershipOf(xs, accepted) == Truth(truth) <==> MembershipIs(c, field, literals, truth)
  {
    AllOfAKind(c, field, literals, accepted, xs);
  }

  lemma MembershipReduces(c: Context, j: Json, field: Text, literals: seq<Json>)
    requires MembershipTestOf(j, field, literals)
    ensures Each(TypedComparand, literals).Some?
    ensures EvalMembership(c, j.members) ==
            if c.commitments == [] then Error
            else match Each(FieldGetter(field), c.commitments)
                 case None => Error
                 case Some(xs) => MembershipOf(xs, Each(TypedComparand, literals).value)
  {
    LiteralsTyped(literals);
    assert FieldOf(j.members) == Some(field);
  }

  /** The membership test: when it is true, and when it is false; otherwise it raises. */
  lemma MembershipIff(c: Context, j: Json, field: Text, literals: seq<Json>, truth: bool)
    requires MembershipTestOf(j, field, literals)
    ensures EvalMembership(c, j.members) == Truth(truth) <==> MembershipIs(c, field, literals, truth)
  {
    MembershipReduces(c, j, field, literals);
    var accepted := Each(TypedComparand, literals).value;
    if c.commitments != [] {
      match Each(FieldGetter(field), c.commitments)
      case Some(xs) =>
        ReadableIff(c, field);
        MembersOnValues(c, field, literals, accepted, xs, truth);
      case None =>
        UnreadableNoMember(c, field, literals, accepted, truth);
    }
  }

  // ---------------------------------------------------------------- times

  /** The value is an instant, or text that parses as one. */
  predicate IsInstant(parse: ParseIso, v: Json, t: int) {
    v == Time(t) || (v.Str? && parse(v.s) == Some(t))
  }

  predicate TimeTestOf(c: Context, j: Json, name: string, field: Text, t: int) {
    && Named(j, name) && Get(j.members, Lit("field")) == Some(Str(field))
    && Get(j.members, Lit("value")).Some? && IsInstant(c.parse, Get(j.members, Lit("value")).value, t)
  }

  ghost predicate FieldInstant(c: Context, j: Json, field: Text, t: int) {
    exists v :: HasField(j, field, v) && IsInstant(c.parse, v, t)
  }

  predicate Ordered(name: string, s: int, t: int) {
    (name == "before" && s < t) || (name == "after" && s > t)
  }

  ghost predicate HasInstant(c: Context, j: Json, field: Text) {
    exists s :: FieldInstant(c, j, field, s)
  }

  ghost predicate InstantOrdered(c: Context, j: Json, field: Text, name: string, t: int) {
    exists s :: FieldInstant(c, j, field, s) && Ordered(name, s, t)
  }

  /** Every commitment has an instant under the field; whether all are before, or after, the literal. */
  ghost predicate TimesAre(c: Context, name: string, field: Text, t: int, truth: bool) {
    && c.commitments != []
    && (forall i :: 0 <= i < |c.commitments| ==> HasInstant(c, c.commitments[i], field))
    && (truth <==> forall i :: 0 <= i < |c.commitments| ==> InstantOrdered(c, c.commitments[i], field, name, t))
  }

  lemma FieldInstantIff(c: Context, j: Json, field: Text, t: int)
    ensures FieldInstant(c, j, field, t) <==> FieldTime(c.parse, field)(j) == Some(t)
  {
    if ResolveField(j, field).Some? {
      FieldIff(j, field, ResolveField(j, field).value);
    }
    if v :| HasField(j, field, v) && IsInstant(c.parse, v, t) {
      FieldIff(j, field, v);
    }
  }

  function TimeName(before: bool): string {
    if before then "before" else "after"
  }

  lemma InstantsAre(c: Context, field: Text, times: seq<int>, before: bool, t: int)
    requires Each(FieldTime(c.parse, field), c.commitments) == Some(times)
    ensures forall i :: 0 <= i < |times| ==>
              && HasInstant(c, c.commitments[i], field)
              && (InstantOrdered(c, c.commitments[i], field, TimeName(before), t) <==>
                  if before then times[i] < t else times[i] > t)
  {
    EachFails(FieldTime(c.parse, field), c.commitments);
    forall i | 0 <= i < |times|
      ensures HasInstant(c, c.commitments[i], field)
      ensures InstantOrdered(c, c.commitments[i], field, TimeName(before), t) <==>
              if before then times[i] < t else times[i] > t
    {
      assert FieldTime(c.parse, field)(c.commitments[i]) == Some(times[i]);
      FieldInstantIff(c, c.commitments[i], field, times[i]);
      if s :| FieldInstant(c, c.commitments[i], field, s) && Ordered(TimeName(before), s, t) {
        FieldInstantIff(c, c.commitments[i], field, s);
      }
    }
  }

  lemma NoInstant(c: Context, field: Text) returns (i: nat)
    requires Each(FieldTime(c.parse, field), c.commitments).None?
    ensures i < |c.commitments| && !HasInstant(c, c.commitments[i], field)
  {
    EachFails(FieldTime(c.parse, field), c.commitments);
    i :| 0 <= i < |c.commitments| && FieldTime(c.parse, field)(c.commitments[i]).None?;
    if s :| FieldInstant(c, c.commitments[i], field, s) {
      FieldInstantIff(c, c.commitments[i], field, s);
    }
  }

  lemma TimeReduces(c: Context, j: Json, before: bool, field: Text, t: int)
    requires TimeTestOf(c, j, TimeName(before), field, t)
    ensures EvalTime(c, j.members, before) ==
            if c.commitments == [] then Error
            else match Each(FieldTime(c.parse, field), c.commitments)
                 case None => Error
                 case Some(times) =>
                   Truth(forall i :: 0 <= i < |times| ==> if before then times[i] < t else times[i] > t)
  {
    assert FieldOf(j.members) == Some(field);
  }

  /** The time tests: when they are true, and when they are false; otherwise they raise. */
  lemma TimeIff(c: Context, j: Json, before: bool, field: Text, t: int, truth: bool)
    requires TimeTestOf(c, j, TimeName(before), field, t)
    ensures EvalTime(c, j.members, before) == Truth(truth) <==> TimesAre(c, TimeName(before), field, t, truth)
  {
    TimeReduces(c, j, before, field, t);
    match Each(FieldTime(c.parse, field), c.commitments)
    case Some(times) => InstantsAre(c, field, times, before, t);
    case None => var i := NoInstant(c, field);
  }

  // ---------------------------------------------------------------- every test

  const COMPARISONS: seq<string> := ["==", "!=", ">=", "<=", ">", "<"]

  /** The truth value `truth` that a test has by its plain reading; a test that cannot be read has neither. */
  ghost predicate TestIs(c: Context, j: Json, truth: bool) {
    || (exists name :: name in COMPARISONS && ComparisonIs(c, j, name, truth))
    || MembershipTestIs(c, j, truth)
    || TimeTestIs(c, j, "before", truth)
    || TimeTestIs(c, j, "after", truth)
  }

  ghost predicate ComparisonIs(c: Context, j: Json, name: string, truth: bool) {
    || (exists field, w :: TestOf(j, name, field, w)
                           && if truth then FieldTestHolds(c, name, field, w) else FieldTestFails(c, name, field, w))
    || (exists node, w :: LeftTestOf(j, name, node, w) && LeftTestIs(c, name, node, w, truth))
  }

  ghost predicate MembershipTestIs(c: Context, j: Json, truth: bool) {
    exists field, literals :: MembershipTestOf(j, field, literals) && MembershipIs(c, field, literals, truth)
  }

  ghost predicate TimeTestIs(c: Context, j: Json, name: string, truth: bool) {
    exists field, t :: TimeTestOf(c, j, name, field, t) && TimesAre(c, name, field, t, truth)
  }

  /** Which evaluation a test gets. */
  lemma EvalOfTest(c: Context, j: Json)
    requires j.Obj? && OpOf(j).Some?
    ensures match OpOf(j).value
            case Compare(cmp) =>
              Eval(c, j) == EvalComparison(c, cmp, j.members,
                                           match Get(j.members, LEFT)
                                           case Some(left) => Some(Eval(c, left))
                                           case None => None)
            case In => Eval(c, j) == EvalMembership(c, j.members)
            case Before => Eval(c, j) == EvalTime(c, j.members, true)
            case After => Eval(c, j) == EvalTime(c, j.members, false)
            case _ => true
  {
  }

  lemma FieldComparisonReduces(c: Context, cmp: Comparator, ms: seq<Member>)
    ensures EvalComparison(c, cmp, ms, None) ==
            if Get(ms, VALUE).Some? && Scalar(Get(ms, VALUE).value) && FieldOf(ms).Some?
            then CompareField(c, cmp, FieldOf(ms).value, TypedComparand(Get(ms, VALUE).value).value)
            else Error
  {
    if Get(ms, VALUE).Some? {
      TypedIff(Get(ms, VALUE).value);
    }
  }

  lemma OneTestOf(j: Json, name: string, field: Text, w: Json)
    ensures TestOf(j, name, field, w) <==>
            && Named(j, name) && Get(j.members, LEFT).None? && FieldOf(j.members) == Some(field)
            && Get(j.members, VALUE) == Some(w) && Scalar(w)
  {
  }

  lemma FieldComparisonIff(c: Context, j: Json, cmp: Comparator, truth: bool)
    requires Named(j, Sign(cmp)) && Get(j.members, LEFT).None?
    ensures EvalComparison(c, cmp, j.members, None) == Truth(truth) <==> ComparisonIs(c, j, Sign(cmp), truth)
  {
    FieldComparisonReduces(c, cmp, j.members);
    if Get(j.members, VALUE).Some? && FieldOf(j.members).Some? {
      var w, field := Get(j.members, VALUE).value, FieldOf(j.members).value;
      OneTestOf(j, Sign(cmp), field, w);
      if Scalar(w) {
        FieldTestIff(c, cmp, field, w);
      }
    }
    if field, w :| TestOf(j, Sign(cmp), field, w)
                   && if truth then FieldTestHolds(c, Sign(cmp), field, w) else FieldTestFails(c, Sign(cmp), field, w) {
      OneTestOf(j, Sign(cmp), field, w);
    }
  }

  lemma LeftComparisonIff(c: Context, j: Json, cmp: Comparator, node: Json, truth: bool)
    requires Named(j, Sign(cmp)) && Get(j.members, LEFT) == Some(node)
    ensures EvalComparison(c, cmp, j.members, Some(Eval(c, node))) == Truth(truth) <==>
            ComparisonIs(c, j, Sign(cmp), truth)
  {
    if Get(j.members, VALUE).Some? {
      var w := Get(j.members, VALUE).value;
      LeftTestIff(c, cmp, node, j.members, w, truth);
      assert LeftTestOf(j, Sign(cmp), node, w);
    }
  }

  lemma MembershipTestIff(c: Context, j: Json, truth: bool)
    requires Named(j, "in")
    ensures EvalMembership(c, j.members) == Truth(truth) <==> MembershipTestIs(c, j, truth)
  {
    match Get(j.members, VALUES)
    case Some(Arr(false, literals)) =>
      LiteralsTyped(literals);
      if FieldOf(j.members).Some? && literals != [] && Each(TypedComparand, literals).Some? {
        MembershipIff(c, j, FieldOf(j.members).value, literals, truth);
      }
    case _ =>
  }

  lemma TimeTestIff(c: Context, j: Json, before: bool, truth: bool)
    requires Named(j, TimeName(before))
    ensures EvalTime(c, j.members, before) == Truth(truth) <==> TimeTestIs(c, j, TimeName(before), truth)
  {
    if Get(j.members, VALUE).Some? && FieldOf(j.members).Some? {
      var w, field := Get(j.members, VALUE).value, FieldOf(j.members).value;
      if ParseTime(c.parse, w).Some? {
        TimeIff(c, j, before, field, ParseTime(c.parse, w).value, truth);
        assert TimeTestOf(c, j, TimeName(before), field, ParseTime(c.parse, w).value);
      }
    }
  }

  lemma NameFixesSign(j: Json, name: string)
    requires Named(j, name) && name in COMPARISONS
    ensures OpOf(j).Some? && OpOf(j).value.Compare? && name == Sign(OpOf(j).value.cmp)
  {
    ComparatorsByName(j);
  }

  lemma OneSign(c: Context, j: Json, cmp: Comparator, truth: bool)
    requires OpOf(j) == Some(Compare(cmp))
    ensures ComparisonIs(c, j, Sign(cmp), truth) <==> TestIs(c, j, truth)
  {
    OthersByName(j);
    if name :| name in COMPARISONS && ComparisonIs(c, j, name, truth) {
      NameFixesSign(j, name);
    }
    assert Sign(cmp) in COMPARISONS;
  }

  lemma NoComparison(c: Context, j: Json, truth: bool)
    requires !(OpOf(j).Some? && OpOf(j).value.Compare?)
    ensures TestIs(c, j, truth) <==>
            MembershipTestIs(c, j, truth) || TimeTestIs(c, j, "before", truth) || TimeTestIs(c, j, "after", truth)
  {
    if name :| name in COMPARISONS && ComparisonIs(c, j, name, truth) {
      NameFixesSign(j, name);
    }
  }

  lemma ComparisonIff(c: Context, j: Json, cmp: Comparator, truth: bool)
    requires OpOf(j) == Some(Compare(cmp))
    ensures Eval(c, j) == Truth(truth) <==> TestIs(c, j, truth)
  {
    EvalOfTest(c, j);
    ComparatorsByName(j);
    OneSign(c, j, cmp, truth);
    match Get(j.members, LEFT)
    case None => FieldComparisonIff(c, j, cmp, truth);
    case Some(node) => LeftComparisonIff(c, j, cmp, node, truth);
  }

  lemma OtherTestIff(c: Context, j: Json, truth: bool)
    requires OpOf(j) == Some(In) || OpOf(j) == Some(Before) || OpOf(j) == Some(After)
    ensures Eval(c, j) == Truth(truth) <==> TestIs(c, j, truth)
  {
    EvalOfTest(c, j);
    OthersByName(j);
    NoComparison(c, j, truth);
    match OpOf(j)
    case Some(In) => MembershipTestIff(c, j, truth);
    case Some(Before) => TimeTestIff(c, j, true, truth);
    case _ => TimeTestIff(c, j, false, truth);
  }

  lemma NoTest(c: Context, j: Json, truth: bool)
    requires !j.Obj? || OpOf(j).None? || OpOf(j).value.Aggregate?
    ensures Eval(c, j) != Truth(truth) && !TestIs(c, j, truth)
  {
    OthersByName(j);
    NoComparison(c, j, truth);
  }

  /**
   Every test of the closure language, whatever its operator: it is true, or false, exactly
   when its plain reading is, and it raises otherwise.
   */
  lemma TestIff(c: Context, j: Json, truth: bool)
    requires OpOf(j) != Some(And) && OpOf(j) != Some(Or) && OpOf(j) != Some(Not)
    ensures Eval(c, j) == Truth(truth) <==> TestIs(c, j, truth)
  {
    match OpOf(j)
    case Some(Compare(cmp)) => ComparisonIff(c, j, cmp, truth);
    case Some(In) => OtherTestIff(c, j, truth);
    case Some(Before) => OtherTestIff(c, j, truth);
    case Some(After) => OtherTestIff(c, j, truth);
    case _ => NoTest(c, j, truth);
  }
}
