/** When the order of commitments can and cannot change what a closure expression means. */
module PredicateOrder {
  import opened Wrappers
  import opened Sequences
  import opened Unicode
  import opened Numbers
  import opened PythonValues
  import opened RangedSums
  import FloatRange
  import Negotiation
  import opened Predicates
  import opened PredicateLaws

  // ---------------------------------------------------------------- lazy comparison

  /** Some comparand cannot be compared with the literal at all. */
  ghost predicate Clash(cmp: Comparator, xs: seq<Comparand>, e: Comparand) {
    exists i :: 0 <= i < |xs| && TypedCompare(cmp, xs[i], e).None?
  }

  /** Some comparand can be compared, and fails. */
  ghost predicate Falsified(cmp: Comparator, xs: seq<Comparand>, e: Comparand) {
    exists i :: 0 <= i < |xs| && TypedCompare(cmp, xs[i], e) == Some(false)
  }

  lemma {:induction false} LazyAllIs(cmp: Comparator, xs: seq<Comparand>, e: Comparand)
    ensures !Clash(cmp, xs, e) ==> LazyAll(cmp, xs, e) == Some(!Falsified(cmp, xs, e))
    ensures !Falsified(cmp, xs, e) ==> LazyAll(cmp, xs, e) == if Clash(cmp, xs, e) then None else Some(true)
  {
    if xs != [] {
      var rest := xs[1..];
      LazyAllIs(cmp, rest, e);
      assert forall i :: 0 <= i < |rest| ==> rest[i] == xs[i + 1];
      assert Clash(cmp, rest, e) ==> Clash(cmp, xs, e);
      assert Falsified(cmp, rest, e) ==> Falsified(cmp, xs, e);
      assert forall i :: 0 < i < |xs| ==> xs[i] == rest[i - 1];
    }
  }

  lemma SameItemsClash(cmp: Comparator, xs: seq<Comparand>, ys: seq<Comparand>, e: Comparand)
    requires SameItems(xs, ys) && Clash(cmp, xs, e)
    ensures Clash(cmp, ys, e)
  {
    var i :| 0 <= i < |xs| && TypedCompare(cmp, xs[i], e).None?;
    SameItemsContain(xs, ys, xs[i]);
  }

  lemma SameItemsFalsified(cmp: Comparator, xs: seq<Comparand>, ys: seq<Comparand>, e: Comparand)
    requires SameItems(xs, ys) && Falsified(cmp, xs, e)
    ensures Falsified(cmp, ys, e)
  {
    var i :| 0 <= i < |xs| && TypedCompare(cmp, xs[i], e) == Some(false);
    SameItemsContain(xs, ys, xs[i]);
  }

  lemma SameItemsBoth(cmp: Comparator, xs: seq<Comparand>, ys: seq<Comparand>, e: Comparand)
    requires SameItems(xs, ys)
    ensures Clash(cmp, xs, e) == Clash(cmp, ys, e) && Falsified(cmp, xs, e) == Falsified(cmp, ys, e)
  {
    if Clash(cmp, xs, e) {
      SameItemsClash(cmp, xs, ys, e);
    }
    if Clash(cmp, ys, e) {
      SameItemsClash(cmp, ys, xs, e);
    }
    if Falsified(cmp, xs, e) {
      SameItemsFalsified(cmp, xs, ys, e);
    }
    if Falsified(cmp, ys, e) {
      SameItemsFalsified(cmp, ys, xs, e);
    }
  }

  /** No order of the comparands changes what the lazy comparison yields. */
  ghost predicate OrderFree(cmp: Comparator, xs: seq<Comparand>, e: Comparand) {
    forall ys :: SameItems(xs, ys) ==> LazyAll(cmp, ys, e) == LazyAll(cmp, xs, e)
  }

  /** Two orders that disagree: a failing comparand first, or a clashing one. */
  lemma OrdersDisagree(cmp: Comparator, xs: seq<Comparand>, e: Comparand, i: nat, k: nat)
    requires i < |xs| && TypedCompare(cmp, xs[i], e).None?
    requires k < |xs| && TypedCompare(cmp, xs[k], e) == Some(false)
    ensures SameItems(xs, Fronted(xs, i)) && LazyAll(cmp, Fronted(xs, i), e).None?
    ensures SameItems(xs, Fronted(xs, k)) && LazyAll(cmp, Fronted(xs, k), e) == Some(false)
  {
    SplitItems(xs, i);
    SplitItems(xs, k);
  }

  lemma Unmixed(cmp: Comparator, xs: seq<Comparand>, ys: seq<Comparand>, e: Comparand)
    requires SameItems(xs, ys) && !(Clash(cmp, xs, e) && Falsified(cmp, xs, e))
    ensures LazyAll(cmp, ys, e) == LazyAll(cmp, xs, e)
  {
    SameItemsBoth(cmp, xs, ys, e);
    LazyAllIs(cmp, xs, e);
    LazyAllIs(cmp, ys, e);
  }

  /**
   Exactly when laziness shows: the outcome depends on the order of commitments if and only
   if one of them clashes with the literal's class while another one compares and fails.
   */
  lemma OrderFreeIff(cmp: Comparator, xs: seq<Comparand>, e: Comparand)
    ensures OrderFree(cmp, xs, e) <==> !(Clash(cmp, xs, e) && Falsified(cmp, xs, e))
  {
    if Clash(cmp, xs, e) && Falsified(cmp, xs, e) {
      var i :| 0 <= i < |xs| && TypedCompare(cmp, xs[i], e).None?;
      var k :| 0 <= k < |xs| && TypedCompare(cmp, xs[k], e) == Some(false);
      OrdersDisagree(cmp, xs, e, i, k);
    } else {
      forall ys | SameItems(xs, ys)
        ensures LazyAll(cmp, ys, e) == LazyAll(cmp, xs, e)
      {
        Unmixed(cmp, xs, ys, e);
      }
    }
  }

  /** Comparands of one class never show the difference. */
  predicate OneClass(xs: seq<Comparand>) {
    forall i, k :: 0 <= i < |xs| && 0 <= k < |xs| ==> SameClass(xs[i], xs[k])
  }

  lemma OneClassOrderFree(cmp: Comparator, xs: seq<Comparand>, e: Comparand)
    requires OneClass(xs)
    ensures OrderFree(cmp, xs, e)
  {
    if Clash(cmp, xs, e) {
      var i :| 0 <= i < |xs| && TypedCompare(cmp, xs[i], e).None?;
      forall k | 0 <= k < |xs|
        ensures TypedCompare(cmp, xs[k], e).None?
      {
      }
    }
    OrderFreeIff(cmp, xs, e);
  }

  // ---------------------------------------------------------------- the order of commitments

  /** One context with its commitments in another order. */
  ghost predicate Reordered(c: Context, d: Context) {
    d.parse == c.parse && SameItems(c.commitments, d.commitments)
  }

  lemma ReorderedEmpty(c: Context, d: Context)
    requires Reordered(c, d)
    ensures c.commitments == [] <==> d.commitments == []
  {
    SameItemsLength(c.commitments, d.commitments);
  }

  lemma CompareReordered(c: Context, d: Context, cmp: Comparator, field: Text, e: Comparand)
    requires Reordered(c, d)
    requires Each(FieldGetter(field), c.commitments).Some? ==>
               OneClass(Each(FieldGetter(field), c.commitments).value)
    ensures CompareField(c, cmp, field, e) == CompareField(d, cmp, field, e)
  {
    var f := FieldGetter(field);
    ReorderedEmpty(c, d);
    EachPermuted(f, c.commitments, d.commitments);
    if Each(f, c.commitments).Some? {
      OneClassOrderFree(cmp, Each(f, c.commitments).value, e);
    }
  }

  lemma MembershipReordered(xs: seq<Comparand>, ys: seq<Comparand>, accepted: seq<Comparand>)
    requires SameItems(xs, ys)
    ensures MembershipOf(xs, accepted) == MembershipOf(ys, accepted)
  {
    forall x
      ensures x in xs <==> x in ys
    {
      SameItemsContain(xs, ys, x);
    }
    if i :| 0 <= i < |xs| && !InSomeClass(xs[i], accepted) {
      assert xs[i] in ys;
    }
    if i :| 0 <= i < |ys| && !InSomeClass(ys[i], accepted) {
      assert ys[i] in xs;
    }
    assert (forall i :: 0 <= i < |xs| ==> xs[i] in accepted) <==> (forall x :: x in xs ==> x in accepted);
    assert (forall i :: 0 <= i < |ys| ==> ys[i] in accepted) <==> (forall x :: x in ys ==> x in accepted);
  }

  lemma EvalMembershipReordered(c: Context, d: Context, node: seq<Member>)
    requires Reordered(c, d)
    ensures EvalMembership(c, node) == EvalMembership(d, node)
  {
    ReorderedEmpty(c, d);
    match Get(node, VALUES)
    case Some(Arr(false, literals)) =>
      if Each(TypedComparand, literals).Some? && FieldOf(node).Some? {
        var f := FieldGetter(FieldOf(node).value);
        EachPermuted(f, c.commitments, d.commitments);
        if Each(f, c.commitments).Some? {
          MembershipReordered(Each(f, c.commitments).value, Each(f, d.commitments).value,
                              Each(TypedComparand, literals).value);
        }
      }
    case _ =>
  }

  predicate AllTimes(times: seq<int>, expected: int, before: bool) {
    forall i :: 0 <= i < |times| ==> if before then times[i] < expected else times[i] > expected
  }

  lemma AllTimesReordered(xs: seq<int>, ys: seq<int>, expected: int, before: bool)
    requires SameItems(xs, ys) && AllTimes(xs, expected, before)
    ensures AllTimes(ys, expected, before)
  {
    forall i | 0 <= i < |ys|
      ensures if before then ys[i] < expected else ys[i] > expected
    {
      SameItemsContain(xs, ys, ys[i]);
    }
  }

  lemma TimesReordered(xs: seq<int>, ys: seq<int>, expected: int, before: bool)
    requires SameItems(xs, ys)
    ensures AllTimes(xs, expected, before) == AllTimes(ys, expected, before)
  {
    if AllTimes(xs, expected, before) {
      AllTimesReordered(xs, ys, expected, before);
    }
    if AllTimes(ys, expected, before) {
      AllTimesReordered(ys, xs, expected, before);
    }
  }

  lemma EvalTimeReordered(c: Context, d: Context, node: seq<Member>, before: bool)
    requires Reordered(c, d)
    ensures EvalTime(c, node, before) == EvalTime(d, node, before)
  {
    ReorderedEmpty(c, d);
    if Get(node, VALUE).Some? && ParseTime(c.parse, Get(node, VALUE).value).Some? && FieldOf(node).Some? {
      var f := FieldTime(c.parse, FieldOf(node).value);
      EachPermuted(f, c.commitments, d.commitments);
      if Each(f, c.commitments).Some? {
        TimesReordered(Each(f, c.commitments).value, Each(f, d.commitments).value,
                       ParseTime(c.parse, Get(node, VALUE).value).value, before);
      }
    }
  }

  // ---------------------------------------------------------------- aggregations

  lemma {:induction false} LeastIs(xs: seq<real>)
    requires xs != []
    ensures Least(xs) in xs && forall x :: x in xs ==> Least(xs) <= x
  {
    if |xs| > 1 {
      LeastIs(xs[..|xs| - 1]);
      assert xs == xs[..|xs| - 1] + [xs[|xs| - 1]];
    }
  }

  lemma {:induction false} GreatestIs(xs: seq<real>)
    requires xs != []
    ensures Greatest(xs) in xs && forall x :: x in xs ==> x <= Greatest(xs)
  {
    if |xs| > 1 {
      GreatestIs(xs[..|xs| - 1]);
      assert xs == xs[..|xs| - 1] + [xs[|xs| - 1]];
    }
  }

  lemma ExtremesReordered(xs: seq<real>, ys: seq<real>)
    requires SameItems(xs, ys) && xs != [] && ys != []
    ensures Least(xs) == Least(ys) && Greatest(xs) == Greatest(ys)
  {
    LeastIs(xs);
    LeastIs(ys);
    GreatestIs(xs);
    GreatestIs(ys);
    SameItemsContain(xs, ys, Least(xs));
    SameItemsContain(xs, ys, Least(ys));
    SameItemsContain(xs, ys, Greatest(xs));
    SameItemsContain(xs, ys, Greatest(ys));
  }

  lemma RecordsReordered(xs: seq<Json>, ys: seq<Json>)
    requires SameItems(xs, ys) && (exists i :: 0 <= i < |xs| && !xs[i].Obj?)
    ensures exists i :: 0 <= i < |ys| && !ys[i].Obj?
  {
    var i :| 0 <= i < |xs| && !xs[i].Obj?;
    SameItemsContain(xs, ys, xs[i]);
  }

  /** What a sum over a field adds up is settled, whatever the order. */
  ghost predicate FieldSettled(c: Context, node: seq<Member>) {
    FieldOf(node).Some? && Each(AggregandGetter(FieldOf(node).value), c.commitments).Some? ==>
      Settled(Each(AggregandGetter(FieldOf(node).value), c.commitments).value)
  }

  lemma EvalAggregationReordered(c: Context, d: Context, agg: Aggregator, node: seq<Member>)
    requires Reordered(c, d) && (agg == Sum ==> FieldSettled(c, node))
    ensures EvalAggregation(c, agg, node) == EvalAggregation(d, agg, node)
  {
    ReorderedEmpty(c, d);
    SameItemsLength(c.commitments, d.commitments);
    if exists i :: 0 <= i < |c.commitments| && !c.commitments[i].Obj? {
      RecordsReordered(c.commitments, d.commitments);
    } else if exists i :: 0 <= i < |d.commitments| && !d.commitments[i].Obj? {
      RecordsReordered(d.commitments, c.commitments);
    } else if FieldOf(node).Some? && c.commitments != [] {
      var f := AggregandGetter(FieldOf(node).value);
      EachPermuted(f, c.commitments, d.commitments);
      if Each(f, c.commitments).Some? {
        if agg == Sum {
          SettledReordered(Each(f, c.commitments).value, Each(f, d.commitments).value);
        }
        ExtremesReordered(Each(f, c.commitments).value, Each(f, d.commitments).value);
      }
    }
  }

  // ---------------------------------------------------------------- whole trees

  /** Every field that a comparison in a Boolean position reads has one type class. */
  ghost predicate OneClassEach(c: Context, j: Json)
    decreases j
  {
    if IsComposition(j) then forall i :: 0 <= i < |Operands(j)| ==> OneClassEach(c, Operands(j)[i])
    else j.Obj? && OpOf(j).Some? && OpOf(j).value.Compare? && Get(j.members, LEFT).None? && FieldOf(j.members).Some? ==>
           FieldOneClass(c, FieldOf(j.members).value)
  }

  /** A sum over a field, if the node is one, is settled. */
  ghost predicate SumSettled(c: Context, j: Json) {
    j.Obj? && OpOf(j) == Some(Aggregate(Sum)) ==> FieldSettled(c, j.members)
  }

  /** Every sum in the tree is settled: no order of commitments makes one overflow that another does not. */
  ghost predicate SumsSettled(c: Context, j: Json)
    decreases j
  {
    if IsComposition(j) then forall i :: 0 <= i < |Operands(j)| ==> SumsSettled(c, Operands(j)[i])
    else
      && SumSettled(c, j)
      && (j.Obj? && Get(j.members, LEFT).Some? ==> SumSettled(c, Get(j.members, LEFT).value))
  }

  ghost predicate FieldOneClass(c: Context, field: Text) {
    Each(FieldGetter(field), c.commitments).Some? ==> OneClass(Each(FieldGetter(field), c.commitments).value)
  }

  lemma NotANumber(c: Context, j: Json)
    requires !(OpOf(j).Some? && OpOf(j).value.Aggregate?)
    ensures !Eval(c, j).Number?
  {
  }

  /** What `left` contributes does not depend on the order. */
  lemma LeftReordered(c: Context, d: Context, left: Json)
    requires Reordered(c, d) && SumSettled(c, left)
    ensures Eval(c, left) == Eval(d, left) || (!Eval(c, left).Number? && !Eval(d, left).Number?)
  {
    if OpOf(left).Some? && OpOf(left).value.Aggregate? {
      EvalAggregationReordered(c, d, OpOf(left).value.agg, left.members);
    } else {
      NotANumber(c, left);
      NotANumber(d, left);
    }
  }

  lemma ComparisonReordered(c: Context, d: Context, j: Json)
    requires Reordered(c, d) && OpOf(j).Some? && OpOf(j).value.Compare?
    requires OneClassEach(c, j) && SumsSettled(c, j)
    ensures Eval(c, j) == Eval(d, j)
  {
    var cmp := OpOf(j).value.cmp;
    match Child(j, LEFT)
    case Some(left) =>
      LeftReordered(c, d, left);
    case None =>
      if Get(j.members, VALUE).Some? && TypedComparand(Get(j.members, VALUE).value).Some? && FieldOf(j.members).Some? {
        CompareReordered(c, d, cmp, FieldOf(j.members).value, TypedComparand(Get(j.members, VALUE).value).value);
      }
  }

  /**
   The order of commitments never matters to a tree whose compared fields each have one
   type class over them and whose sums are settled, whatever else it contains.
   */
  lemma {:induction false} EvalReordered(c: Context, d: Context, j: Json)
    requires Reordered(c, d) && OneClassEach(c, j) && SumsSettled(c, j)
    ensures Eval(c, j) == Eval(d, j)
    decreases j
  {
    if IsComposition(j) {
      forall i | 0 <= i < |Operands(j)| {
        EvalReordered(c, d, Operands(j)[i]);
      }
      CompositionReordered(c, d, j);
    } else if OpOf(j).Some? {
      match OpOf(j).value
      case Compare(_) => ComparisonReordered(c, d, j);
      case In => EvalMembershipReordered(c, d, j.members);
      case Before => EvalTimeReordered(c, d, j.members, true);
      case After => EvalTimeReordered(c, d, j.members, false);
      case Aggregate(agg) => EvalAggregationReordered(c, d, agg, j.members);
    }
  }

  lemma CompositionReordered(c: Context, d: Context, j: Json)
    requires IsComposition(j) && forall i :: 0 <= i < |Operands(j)| ==>
            Eval(c, Operands(j)[i]) == Eval(d, Operands(j)[i])
    ensures Eval(c, j) == Eval(d, j)
  {
    CompositionPassesIff(c, j);
    CompositionPassesIff(d, j);
    if OpOf(j) == Some(Not) {
      if Child(j, ARG).Some? {
        NegationIs(c, j, Operands(j)[0]);
        NegationIs(d, j, Operands(j)[0]);
      }
    } else if ArgsOf(j).Some? {
      CompositionIs(c, j, Operands(j));
      CompositionIs(d, j, Operands(j));
    }
  }

  // ---------------------------------------------------------------- an order that matters

  const QUANTITY: Text := Lit("q")

  function Commitment(q: Json): Json {
    Obj([Member(QUANTITY, q)])
  }

  /** `{"op": "==", "field": "q", "value": 2}` */
  function EqualsTwo(): Json {
    Obj([Member(OP, Str(Lit("=="))), Member(FIELD, Str(QUANTITY)), Member(VALUE, Num(Int(2)))])
  }

  lemma QuantityOf(q: Json)
    ensures GetField(Commitment(q), QUANTITY) == TypedComparand(q)
  {
    assert QUANTITY == ['q' as int] && QUANTITY[1..] == [];
    var rest := Split(QUANTITY[1..]);
    assert rest == [[]] && rest[0] == [] && rest[1..] == [];
    assert QUANTITY[0] != '.' as int && [QUANTITY[0]] + rest[0] == QUANTITY;
    assert Split(QUANTITY) == [QUANTITY] + rest[1..];
    assert Split(QUANTITY) == [QUANTITY];
    assert Get(Commitment(q).members, QUANTITY) == Some(q);
    assert Walk(q, [QUANTITY][1..]) == Some(q);
  }

  lemma EqualsTwoIs(c: Context)
    ensures Eval(c, EqualsTwo()) == CompareField(c, Eq, QUANTITY, NumberOf(2.0))
  {
    EqualsTwoMembers();
    FloatRange.LimitIsLarge();
    assert Negotiation.Numeric(Num(Int(2))) == Some(2.0);
  }

  lemma EqualsNamed()
    ensures OpNamed(Lit("==")) == Some(Compare(Eq))
  {
    assert Lit("==")[0] != Lit("or")[0];
  }

  lemma EqualsTwoMembers()
    ensures OpOf(EqualsTwo()) == Some(Compare(Eq)) && Get(EqualsTwo().members, LEFT).None?
    ensures FieldOf(EqualsTwo().members) == Some(QUANTITY) && Get(EqualsTwo().members, VALUE) == Some(Num(Int(2)))
  {
    var ms := EqualsTwo().members;
    EqualsNamed();
    assert |OP| == 2 && |FIELD| == 5 && |VALUE| == 5 && |LEFT| == 4;
    assert FIELD[0] == 'f' as int && VALUE[0] == 'v' as int;
    assert ms[1..][0].key == FIELD && ms[1..][1..][0].key == VALUE && ms[1..][1..][1..] == [];
  }

  lemma TwoComparands(a: Json, b: Json)
    requires TypedComparand(a).Some? && TypedComparand(b).Some?
    ensures Each(FieldGetter(QUANTITY), [Commitment(a), Commitment(b)])
         == Some([TypedComparand(a).value, TypedComparand(b).value])
  {
    var f := FieldGetter(QUANTITY);
    QuantityOf(a);
    QuantityOf(b);
    assert [Commitment(a), Commitment(b)][1..] == [Commitment(b)];
    assert [Commitment(b)][1..] == [];
    assert Each(f, [Commitment(b)]) == Some([TypedComparand(b).value] + []);
    assert [TypedComparand(b).value] + [] == [TypedComparand(b).value];
    assert [TypedComparand(a).value] + [TypedComparand(b).value] == [TypedComparand(a).value, TypedComparand(b).value];
  }

  /**
   One order of the same two commitments satisfies `not(q == 2)`, the other fails: the first
   comparison that is false hides the comparand of another class behind it.
   */
  lemma OrderCanMatter(parse: ParseIso)
    ensures var one, text := Commitment(Num(Int(1))), Commitment(Str(Lit("x")));
            && Eval(Context(parse, [one, text]), NotNode(EqualsTwo())) == Truth(true)
            && Eval(Context(parse, [text, one]), NotNode(EqualsTwo())) == Error
  {
    var n, t := Num(Int(1)), Str(Lit("x"));
    FloatRange.LimitIsLarge();
    assert TypedComparand(n) == Some(NumberOf(1.0)) && TypedComparand(t) == Some(TextOf(Lit("x")));
    TwoComparands(n, t);
    TwoComparands(t, n);
    var c, d := Context(parse, [Commitment(n), Commitment(t)]), Context(parse, [Commitment(t), Commitment(n)]);
    EqualsTwoIs(c);
    EqualsTwoIs(d);
    NotNodeIs(c, EqualsTwo());
    NotNodeIs(d, EqualsTwo());
  }

  /** The order of commitments is irrelevant to one comparison. */
  ghost predicate FieldOrderFree(c: Context, cmp: Comparator, field: Text, e: Comparand) {
    forall ds :: SameItems(c.commitments, ds) ==>
      CompareField(c.(commitments := ds), cmp, field, e) == CompareField(c, cmp, field, e)
  }

  lemma FrontedCompares(c: Context, cmp: Comparator, field: Text, e: Comparand, xs: seq<Comparand>, k: nat)
    requires Each(FieldGetter(field), c.commitments) == Some(xs) && k < |xs|
    requires TypedCompare(cmp, xs[k], e) != Some(true)
    ensures SameItems(c.commitments, Fronted(c.commitments, k))
    ensures CompareField(c.(commitments := Fronted(c.commitments, k)), cmp, field, e)
         == OfBool(TypedCompare(cmp, xs[k], e))
  {
    SplitItems(c.commitments, k);
    EachFronted(FieldGetter(field), c.commitments, k);
  }

  /**
   The exact condition under which a comparison over readable fields does not depend on the
   order of commitments: no clash of classes, or no comparable field that fails.
   */
  lemma ComparisonOrderFreeIff(c: Context, cmp: Comparator, field: Text, e: Comparand, xs: seq<Comparand>)
    requires Each(FieldGetter(field), c.commitments) == Some(xs)
    ensures FieldOrderFree(c, cmp, field, e) <==> !(Clash(cmp, xs, e) && Falsified(cmp, xs, e))
  {
    if Clash(cmp, xs, e) && Falsified(cmp, xs, e) {
      var i :| 0 <= i < |xs| && TypedCompare(cmp, xs[i], e).None?;
      var k :| 0 <= k < |xs| && TypedCompare(cmp, xs[k], e) == Some(false);
      FrontedCompares(c, cmp, field, e, xs, i);
      FrontedCompares(c, cmp, field, e, xs, k);
    } else {
      forall ds | SameItems(c.commitments, ds)
        ensures CompareField(c.(commitments := ds), cmp, field, e) == CompareField(c, cmp, field, e)
      {
        SameItemsLength(c.commitments, ds);
        EachPermuted(FieldGetter(field), c.commitments, ds);
        Unmixed(cmp, xs, Each(FieldGetter(field), ds).value, e);
      }
    }
  }
}
