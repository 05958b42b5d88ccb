/**
 Sums of floats. A running sum that leaves the range of the floats is infinite from then
 on, so whether a sum has a value can depend on the order of its terms.
 */
module RangedSums {
  import opened Wrappers
  import opened Sequences
  import opened FloatRange

  /** The sum of `xs` on top of `s`; `None` when it becomes infinite on the way. */
  function RangedFrom(s: real, xs: seq<real>): Option<real>
    decreases |xs|
  {
    if xs == [] then Some(s)
    else if InFloatRange(s + xs[0]) then RangedFrom(s + xs[0], xs[1..])
    else None
  }

  /** `sum(xs)`, when it is finite. */
  function RangedTotal(xs: seq<real>): Option<real> {
    RangedFrom(0.0, xs)
  }

  function Gain(x: real): real {
    if x > 0.0 then x else 0.0
  }

  function Loss(x: real): real {
    if x < 0.0 then -x else 0.0
  }

  /** The sum of the positive terms. */
  function Gains(xs: seq<real>): real {
    if xs == [] then 0.0 else Gain(xs[0]) + Gains(xs[1..])
  }

  /** The sum of the negative terms, without their sign. */
  function Losses(xs: seq<real>): real {
    if xs == [] then 0.0 else Loss(xs[0]) + Losses(xs[1..])
  }

  predicate AllInRange(xs: seq<real>) {
    forall i :: 0 <= i < |xs| ==> InFloatRange(xs[i])
  }

  /** No order of the terms can matter: none leaves the range on the way, or all of them end outside. */
  predicate Settled(xs: seq<real>) {
    !InFloatRange(Gains(xs) - Losses(xs)) || (InFloatRange(Gains(xs)) && InFloatRange(Losses(xs)))
  }

  // ---------------------------------------------------------------- sums in any order

  lemma {:induction false} PartsNonNegative(xs: seq<real>)
    ensures Gains(xs) >= 0.0 && Losses(xs) >= 0.0
  {
    if xs != [] {
      PartsNonNegative(xs[1..]);
    }
  }

  lemma {:induction false} PartsConcat(xs: seq<real>, ys: seq<real>)
    ensures Gains(xs + ys) == Gains(xs) + Gains(ys) && Losses(xs + ys) == Losses(xs) + Losses(ys)
  {
    if xs == [] {
      assert xs + ys == ys;
    } else {
      assert (xs + ys)[1..] == xs[1..] + ys;
      PartsConcat(xs[1..], ys);
    }
  }

  lemma PartsOne(x: real)
    ensures Gains([x]) == Gain(x) && Losses([x]) == Loss(x)
  {
    assert [x][1..] == [];
  }

  lemma PartsRemoved(ys: seq<real>, k: nat)
    requires k < |ys|
    ensures Gains(ys) == Gain(ys[k]) + Gains(Removed(ys, k))
    ensures Losses(ys) == Loss(ys[k]) + Losses(Removed(ys, k))
  {
    SplitItems(ys, k);
    PartsConcat(ys[..k] + [ys[k]], ys[k + 1..]);
    PartsConcat(ys[..k], [ys[k]]);
    PartsConcat(ys[..k], ys[k + 1..]);
    PartsOne(ys[k]);
  }

  lemma {:induction false} PartsReordered(xs: seq<real>, ys: seq<real>)
    requires SameItems(xs, ys)
    ensures Gains(xs) == Gains(ys) && Losses(xs) == Losses(ys)
  {
    if xs == [] {
      SameItemsLength(xs, ys);
    } else {
      var k := SameItemsTail(xs, ys);
      PartsReordered(xs[1..], Removed(ys, k));
      PartsRemoved(ys, k);
    }
  }

  lemma {:induction false} RangedIs(s: real, xs: seq<real>)
    ensures RangedFrom(s, xs).Some? ==> RangedFrom(s, xs).value == s + Gains(xs) - Losses(xs)
    ensures RangedFrom(s, xs).Some? && InFloatRange(s) ==> InFloatRange(RangedFrom(s, xs).value)
    decreases |xs|
  {
    if xs != [] && InFloatRange(s + xs[0]) {
      RangedIs(s + xs[0], xs[1..]);
    }
  }

  /** Sums that stay in range whatever comes first. */
  lemma {:induction false} RangedWithin(s: real, xs: seq<real>)
    requires s + Gains(xs) < FLOAT_LIMIT as real && s - Losses(xs) > -(FLOAT_LIMIT as real)
    ensures RangedFrom(s, xs).Some?
    decreases |xs|
  {
    if xs != [] {
      PartsNonNegative(xs[1..]);
      RangedWithin(s + xs[0], xs[1..]);
    }
  }

  lemma {:induction false} RangedConcat(s: real, xs: seq<real>, ys: seq<real>)
    ensures RangedFrom(s, xs + ys) == match RangedFrom(s, xs) case Some(t) => RangedFrom(t, ys) case None => None
    decreases |xs|
  {
    if xs == [] {
      assert xs + ys == ys;
    } else {
      assert (xs + ys)[1..] == xs[1..] + ys;
      if InFloatRange(s + xs[0]) {
        RangedConcat(s + xs[0], xs[1..], ys);
      }
    }
  }

  /** One more term; an infinite sum stays infinite. */
  function Plus(total: Option<real>, x: real): Option<real> {
    if total.Some? && InFloatRange(total.value + x) then Some(total.value + x) else None
  }

  lemma RangedSnoc(xs: seq<real>, x: real)
    ensures RangedTotal(xs + [x]) == Plus(RangedTotal(xs), x)
  {
    RangedConcat(0.0, xs, [x]);
    assert [x][1..] == [];
  }

  lemma ZeroInRange()
    ensures InFloatRange(0.0)
  {
    LimitIsLarge();
  }

  /** A settled sum has one value, or none, in every order. */
  lemma SettledReordered(xs: seq<real>, ys: seq<real>)
    requires Settled(xs) && SameItems(xs, ys)
    ensures RangedTotal(xs) == RangedTotal(ys)
  {
    PartsReordered(xs, ys);
    PartsNonNegative(xs);
    ZeroInRange();
    RangedIs(0.0, xs);
    RangedIs(0.0, ys);
    if InFloatRange(Gains(xs)) && InFloatRange(Losses(xs)) {
      RangedWithin(0.0, xs);
      RangedWithin(0.0, ys);
    }
  }

  // ---------------------------------------------------------------- orders that disagree

  predicate AllUp(xs: seq<real>) {
    forall i :: 0 <= i < |xs| ==> xs[i] >= 0.0
  }

  predicate AllDown(xs: seq<real>) {
    forall i :: 0 <= i < |xs| ==> xs[i] <= 0.0
  }

  function Positives(xs: seq<real>): (r: seq<real>)
    ensures AllUp(r) && (AllInRange(xs) ==> AllInRange(r))
  {
    if xs == [] then []
    else if xs[0] > 0.0 then [xs[0]] + Positives(xs[1..])
    else Positives(xs[1..])
  }

  function Others(xs: seq<real>): (r: seq<real>)
    ensures AllDown(r) && (AllInRange(xs) ==> AllInRange(r))
  {
    if xs == [] then []
    else if xs[0] > 0.0 then Others(xs[1..])
    else [xs[0]] + Others(xs[1..])
  }

  lemma HeadItems(xs: seq<real>)
    requires xs != []
    ensures multiset(xs) == multiset{xs[0]} + multiset(xs[1..])
  {
    assert xs == [xs[0]] + xs[1..];
  }

  lemma {:induction false} PartedItems(xs: seq<real>)
    ensures multiset(xs) == multiset(Positives(xs)) + multiset(Others(xs))
  {
    if xs != [] {
      PartedItems(xs[1..]);
      HeadItems(xs);
      if xs[0] > 0.0 {
        HeadItems([xs[0]] + Positives(xs[1..]));
        assert ([xs[0]] + Positives(xs[1..]))[1..] == Positives(xs[1..]);
      } else {
        HeadItems([xs[0]] + Others(xs[1..]));
        assert ([xs[0]] + Others(xs[1..]))[1..] == Others(xs[1..]);
      }
    }
  }

  lemma {:induction false} OneSign(xs: seq<real>)
    ensures AllUp(xs) ==> Losses(xs) == 0.0
    ensures AllDown(xs) ==> Gains(xs) == 0.0
  {
    if xs != [] {
      OneSign(xs[1..]);
    }
  }

  lemma NegatedInRange(x: real)
    ensures InFloatRange(-x) <==> InFloatRange(x)
  {
  }

  /** All terms of one sign first: the running sum reaches its extreme. */
  predicate Extreme(first: seq<real>) {
    || (Losses(first) == 0.0 && !InFloatRange(Gains(first)))
    || (Gains(first) == 0.0 && !InFloatRange(Losses(first)))
  }

  lemma ExtremeOverflows(first: seq<real>)
    requires Extreme(first)
    ensures RangedTotal(first).None?
  {
    ZeroInRange();
    RangedIs(0.0, first);
    NegatedInRange(Losses(first));
  }

  lemma FirstOverflows(xs: seq<real>, first: seq<real>, rest: seq<real>)
    requires multiset(xs) == multiset(first) + multiset(rest) && Extreme(first)
    ensures SameItems(xs, first + rest) && RangedTotal(first + rest).None?
  {
    ExtremeOverflows(first);
    RangedConcat(0.0, first, rest);
  }

  lemma {:induction false} PartsOfParted(xs: seq<real>)
    ensures Gains(Positives(xs)) == Gains(xs) && Losses(Positives(xs)) == 0.0
    ensures Gains(Others(xs)) == 0.0 && Losses(Others(xs)) == Losses(xs)
  {
    PartedItems(xs);
    assert SameItems(xs, Positives(xs) + Others(xs));
    PartsReordered(xs, Positives(xs) + Others(xs));
    PartsConcat(Positives(xs), Others(xs));
    OneSign(Positives(xs));
    OneSign(Others(xs));
  }

  lemma UpFirstOverflows(xs: seq<real>)
    requires !InFloatRange(Gains(xs))
    ensures SameItems(xs, Positives(xs) + Others(xs)) && RangedTotal(Positives(xs) + Others(xs)).None?
  {
    PartedItems(xs);
    PartsOfParted(xs);
    FirstOverflows(xs, Positives(xs), Others(xs));
  }

  lemma DownFirstOverflows(xs: seq<real>)
    requires !InFloatRange(Losses(xs))
    ensures SameItems(xs, Others(xs) + Positives(xs)) && RangedTotal(Others(xs) + Positives(xs)).None?
  {
    PartedItems(xs);
    PartsOfParted(xs);
    FirstOverflows(xs, Others(xs), Positives(xs));
  }

  /** An order that overflows, when the gains or the losses do. */
  lemma SomeOrderOverflows(xs: seq<real>) returns (ys: seq<real>)
    requires !InFloatRange(Gains(xs)) || !InFloatRange(Losses(xs))
    ensures SameItems(xs, ys) && RangedTotal(ys).None?
  {
    if !InFloatRange(Gains(xs)) {
      UpFirstOverflows(xs);
      ys := Positives(xs) + Others(xs);
    } else {
      DownFirstOverflows(xs);
      ys := Others(xs) + Positives(xs);
    }
  }

  lemma RangedCons(s: real, x: real, xs: seq<real>)
    requires InFloatRange(s + x) && RangedFrom(s + x, xs).Some?
    ensures RangedFrom(s, [x] + xs).Some?
  {
    assert ([x] + xs)[1..] == xs;
  }

  /** Terms still to be added: upward ones, downward ones, and an end within range. */
  predicate CanBalance(s: real, up: seq<real>, down: seq<real>) {
    && InFloatRange(s) && AllInRange(up) && AllInRange(down) && AllUp(up) && AllDown(down)
    && InFloatRange(s + Gains(up) - Losses(down))
  }

  lemma StepDown(s: real, up: seq<real>, down: seq<real>)
    requires CanBalance(s, up, down) && down != [] && (s >= 0.0 || up == [])
    ensures CanBalance(s + down[0], up, down[1..])
  {
    PartsNonNegative(down[1..]);
    assert InFloatRange(down[0]) && down[0] <= 0.0;
    assert Losses(down) == Losses(down[1..]) - down[0];
    assert up == [] ==> Gains(up) == 0.0;
  }

  lemma StepUp(s: real, up: seq<real>, down: seq<real>)
    requires CanBalance(s, up, down) && up != [] && (s < 0.0 || down == [])
    ensures CanBalance(s + up[0], up[1..], down)
  {
    PartsNonNegative(up[1..]);
    assert InFloatRange(up[0]) && up[0] >= 0.0;
    assert Gains(up) == Gains(up[1..]) + up[0];
    assert down == [] ==> Losses(down) == 0.0;
  }

  lemma Prepended(x: real, xs: seq<real>, rest: seq<real>, others: multiset<real>)
    requires xs != [] && x == xs[0] && multiset(rest) == multiset(xs[1..]) + others
    ensures multiset([x] + rest) == multiset(xs) + others
  {
    assert xs == [x] + xs[1..];
  }

  /** Add against the sign of the running sum: an order that stays in range if the end does. */
  lemma {:induction false} Balance(s: real, up: seq<real>, down: seq<real>) returns (ys: seq<real>)
    requires CanBalance(s, up, down)
    ensures multiset(ys) == multiset(up) + multiset(down) && RangedFrom(s, ys).Some?
    decreases |up| + |down|
  {
    if up == [] && down == [] {
      ys := [];
    } else if down != [] && (s >= 0.0 || up == []) {
      StepDown(s, up, down);
      var rest := Balance(s + down[0], up, down[1..]);
      RangedCons(s, down[0], rest);
      Prepended(down[0], down, rest, multiset(up));
      ys := [down[0]] + rest;
    } else {
      StepUp(s, up, down);
      var rest := Balance(s + up[0], up[1..], down);
      RangedCons(s, up[0], rest);
      Prepended(up[0], up, rest, multiset(down));
      ys := [up[0]] + rest;
    }
  }

  lemma PartedCanBalance(xs: seq<real>)
    requires AllInRange(xs) && InFloatRange(Gains(xs) - Losses(xs))
    ensures CanBalance(0.0, Positives(xs), Others(xs))
  {
    PartsOfParted(xs);
    ZeroInRange();
    assert 0.0 + Gains(Positives(xs)) - Losses(Others(xs)) == Gains(xs) - Losses(xs);
  }

  lemma BalancedTotal(xs: seq<real>, ys: seq<real>)
    requires SameItems(xs, ys) && RangedTotal(ys).Some?
    ensures RangedTotal(ys) == Some(Gains(xs) - Losses(xs))
  {
    PartsReordered(xs, ys);
    RangedIs(0.0, ys);
  }

  /** An order that stays in range, when the end does. */
  lemma SomeOrderStays(xs: seq<real>) returns (ys: seq<real>)
    requires AllInRange(xs) && InFloatRange(Gains(xs) - Losses(xs))
    ensures SameItems(xs, ys) && RangedTotal(ys) == Some(Gains(xs) - Losses(xs))
  {
    PartedItems(xs);
    PartedCanBalance(xs);
    ys := Balance(0.0, Positives(xs), Others(xs));
    BalancedTotal(xs, ys);
  }

  ghost predicate OrderFree(xs: seq<real>) {
    forall ys :: SameItems(xs, ys) ==> RangedTotal(ys) == RangedTotal(xs)
  }

  /**
   Exactly when the order of finite terms cannot matter to their sum: the gains and the
   losses stay in range by themselves, or the end is out of range anyway.
   */
  lemma OrderFreeIffSettled(xs: seq<real>)
    requires AllInRange(xs)
    ensures OrderFree(xs) <==> Settled(xs)
  {
    if Settled(xs) {
      forall ys | SameItems(xs, ys)
        ensures RangedTotal(ys) == RangedTotal(xs)
      {
        SettledReordered(xs, ys);
      }
    } else {
      var over := SomeOrderOverflows(xs);
      var within := SomeOrderStays(xs);
    }
  }

  /** Terms of one sign are settled. */
  lemma OneSignSettled(xs: seq<real>)
    requires AllUp(xs) || AllDown(xs)
    ensures Settled(xs)
  {
    OneSign(xs);
    ZeroInRange();
    NegatedInRange(Losses(xs));
  }

  /** Two large gains and one loss: an order that adds both gains first overflows, another does not. */
  lemma UnsettledExample(x: real)
    requires x > 0.0 && InFloatRange(x) && !InFloatRange(x + x)
    ensures !Settled([x, x, -x])
    ensures RangedTotal([x, x, -x]).None? && RangedTotal([x, -x, x]) == Some(x)
  {
    var nil: seq<real> := [];
    assert [x, x, -x] == [x] + ([x] + ([-x] + nil)) && [x, -x, x] == [x] + ([-x] + ([x] + nil));
    PartsStep(-x, nil);
    PartsStep(x, [-x] + nil);
    PartsStep(x, [x] + ([-x] + nil));
    ZeroInRange();
    RangedStep(0.0, x, [x] + ([-x] + nil));
    RangedStep(x, x, [-x] + nil);
    RangedStep(0.0, x, [-x] + ([x] + nil));
    RangedStep(x, -x, [x] + nil);
    RangedStep(0.0, x, nil);
  }

  lemma PartsStep(x: real, xs: seq<real>)
    ensures Gains([x] + xs) == Gain(x) + Gains(xs) && Losses([x] + xs) == Loss(x) + Losses(xs)
  {
    assert ([x] + xs)[1..] == xs;
  }

  lemma RangedStep(s: real, x: real, xs: seq<real>)
    ensures RangedFrom(s, [x] + xs) == if InFloatRange(s + x) then RangedFrom(s + x, xs) else None
  {
    assert ([x] + xs)[1..] == xs;
  }
}
