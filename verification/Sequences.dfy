/** Comprehensions that may raise, and sequences up to the order of their elements. */
module Sequences {
  import opened Wrappers
  import opened Order

  // ---------------------------------------------------------------- comprehensions

  /** `[f(x) for x in xs]`; `None` when `f` raises on some element. */
  function Each<S, T>(f: S -> Option<T>, xs: seq<S>): (r: Option<seq<T>>)
    ensures r.Some? ==> |r.value| == |xs|
  {
    if xs == [] then Some([])
    else
      var first :- f(xs[0]);
      var rest :- Each(f, xs[1..]);
      Some([first] + rest)
  }

  /** How materializing one more element goes. */
  lemma {:induction false} EachAppend<S, T>(f: S -> Option<T>, xs: seq<S>, x: S)
    ensures Each(f, xs + [x]) ==
            if Each(f, xs).Some? && f(x).Some? then Some(Each(f, xs).value + [f(x).value]) else None
  {
    if xs == [] {
      assert xs + [x] == [x] && [x][1..] == [];
      if f(x).Some? {
        assert [f(x).value] + [] == [] + [f(x).value];
      }
    } else {
      assert (xs + [x])[1..] == xs[1..] + [x];
      EachAppend(f, xs[1..], x);
      if Each(f, xs).Some? && f(x).Some? {
        Assoc([f(xs[0]).value], Each(f, xs[1..]).value, [f(x).value]);
      }
    }
  }

  lemma EachOne<S, T>(f: S -> Option<T>, x: S)
    ensures Each(f, [x]) == match f(x) case Some(y) => Some([y]) case None => None
  {
    EachAppend(f, [], x);
    assert [] + [x] == [x];
    assert f(x).Some? ==> [] + [f(x).value] == [f(x).value];
  }

  lemma {:induction false} EachFails<S, T>(f: S -> Option<T>, xs: seq<S>)
    ensures Each(f, xs).None? <==> exists i :: 0 <= i < |xs| && f(xs[i]).None?
    ensures Each(f, xs).Some? ==> forall i :: 0 <= i < |xs| ==> f(xs[i]) == Some(Each(f, xs).value[i])
  {
    if xs != [] {
      EachFails(f, xs[1..]);
      assert forall i :: 0 < i < |xs| ==> xs[i] == xs[1..][i - 1];
      if Each(f, xs[1..]).None? {
        var i :| 0 <= i < |xs[1..]| && f(xs[1..][i]).None?;
        assert xs[i + 1] == xs[1..][i];
      }
    }
  }

  lemma EachPrefix<S, T>(f: S -> Option<T>, xs: seq<S>, k: nat)
    requires k < |xs| && Each(f, xs[..k]).Some?
    ensures Each(f, xs[..k + 1]) == if f(xs[k]).Some? then Some(Each(f, xs[..k]).value + [f(xs[k]).value]) else None
    ensures f(xs[k]).None? ==> Each(f, xs).None?
  {
    assert xs[..k + 1] == xs[..k] + [xs[k]];
    EachAppend(f, xs[..k], xs[k]);
    EachFails(f, xs);
  }

  /** A comprehension that reads off another one. */
  lemma {:induction false} EachVia<S, T, U>(f: S -> Option<T>, g: S -> Option<U>, read: T -> U, xs: seq<S>)
    requires Each(f, xs).Some?
    requires forall i :: 0 <= i < |xs| && f(xs[i]).Some? ==> g(xs[i]) == Some(read(f(xs[i]).value))
    ensures Each(g, xs).Some?
    ensures forall i :: 0 <= i < |xs| ==> Each(g, xs).value[i] == read(Each(f, xs).value[i])
  {
    EachFails(f, xs);
    EachFails(g, xs);
  }

  /** A comprehension whose every element is fine. */
  lemma EachAll<S, T>(f: S -> Option<T>, good: T -> bool, xs: seq<S>)
    requires forall i :: 0 <= i < |xs| ==> f(xs[i]).Some? && good(f(xs[i]).value)
    ensures Each(f, xs).Some? && forall i :: 0 <= i < |xs| ==> good(Each(f, xs).value[i])
  {
    EachFails(f, xs);
  }

  // ---------------------------------------------------------------- sequences up to order

  ghost predicate SameItems<T>(xs: seq<T>, ys: seq<T>) {
    multiset(xs) == multiset(ys)
  }

  lemma SameItemsContain<T>(xs: seq<T>, ys: seq<T>, x: T)
    requires SameItems(xs, ys)
    ensures x in xs <==> x in ys
  {
    assert x in multiset(xs) <==> x in multiset(ys);
  }

  function Removed<T>(xs: seq<T>, k: nat): seq<T>
    requires k < |xs|
  {
    xs[..k] + xs[k + 1..]
  }

  /** The element at `k` first. */
  function Fronted<T>(xs: seq<T>, k: nat): seq<T>
    requires k < |xs|
  {
    [xs[k]] + Removed(xs, k)
  }

  lemma SplitItems<T>(xs: seq<T>, k: nat)
    requires k < |xs|
    ensures xs == xs[..k] + [xs[k]] + xs[k + 1..]
    ensures multiset(xs) == multiset(Removed(xs, k)) + multiset{xs[k]}
    ensures SameItems(Fronted(xs, k), xs)
  {
    assert xs == xs[..k] + [xs[k]] + xs[k + 1..];
  }

  lemma SameItemsTail<T>(xs: seq<T>, ys: seq<T>) returns (k: nat)
    requires xs != [] && SameItems(xs, ys)
    ensures k < |ys| && ys[k] == xs[0] && SameItems(xs[1..], Removed(ys, k))
  {
    SameItemsContain(xs, ys, xs[0]);
    assert xs[0] in xs;
    k :| 0 <= k < |ys| && ys[k] == xs[0];
    SplitItems(ys, k);
    assert xs == [xs[0]] + xs[1..];
    assert multiset(xs) == multiset{xs[0]} + multiset(xs[1..]);
    assert multiset(xs[1..]) == multiset(xs) - multiset{xs[0]} == multiset(Removed(ys, k));
  }

  lemma SameItemsLength<T>(xs: seq<T>, ys: seq<T>)
    requires SameItems(xs, ys)
    ensures |xs| == |ys|
  {
    assert |multiset(xs)| == |xs| && |multiset(ys)| == |ys|;
  }

  lemma {:induction false} EachConcat<S, T>(f: S -> Option<T>, xs: seq<S>, ys: seq<S>)
    ensures Each(f, xs + ys) ==
            if Each(f, xs).Some? && Each(f, ys).Some? then Some(Each(f, xs).value + Each(f, ys).value) else None
    decreases |ys|
  {
    if ys == [] {
      assert xs + ys == xs;
      if Each(f, xs).Some? {
        assert Each(f, xs).value + [] == Each(f, xs).value;
      }
    } else {
      EachConcat(f, xs + [ys[0]], ys[1..]);
      EachAppend(f, xs, ys[0]);
      assert xs + [ys[0]] + ys[1..] == xs + ys;
      if Each(f, xs).Some? && Each(f, ys).Some? {
        Assoc(Each(f, xs).value, [f(ys[0]).value], Each(f, ys[1..]).value);
      }
    }
  }

  /** Materializing in another order gives the same values in another order. */
  lemma {:induction false} EachPermuted<S, T>(f: S -> Option<T>, xs: seq<S>, ys: seq<S>)
    requires SameItems(xs, ys)
    ensures Each(f, xs).Some? == Each(f, ys).Some?
    ensures Each(f, xs).Some? ==> SameItems(Each(f, xs).value, Each(f, ys).value)
  {
    if xs == [] {
      SameItemsLength(xs, ys);
      assert ys == [];
    } else {
      var k := SameItemsTail(xs, ys);
      EachPermuted(f, xs[1..], Removed(ys, k));
      EachRemoved(f, ys, k);
      if Each(f, xs).Some? {
        var v, vs := f(xs[0]).value, Each(f, xs[1..]).value;
        assert multiset([v] + vs) == multiset{v} + multiset(vs);
      }
    }
  }

  lemma EachRemoved<S, T>(f: S -> Option<T>, ys: seq<S>, k: nat)
    requires k < |ys|
    ensures Each(f, ys).Some? <==> f(ys[k]).Some? && Each(f, Removed(ys, k)).Some?
    ensures Each(f, ys).Some? ==>
              multiset(Each(f, ys).value) == multiset{f(ys[k]).value} + multiset(Each(f, Removed(ys, k)).value)
  {
    SplitItems(ys, k);
    EachConcat(f, ys[..k] + [ys[k]], ys[k + 1..]);
    EachAppend(f, ys[..k], ys[k]);
    EachConcat(f, ys[..k], ys[k + 1..]);
  }

  lemma JoinedAt<T>(before: seq<T>, v: T, after: seq<T>)
    ensures var xs := before + ([v] + after);
            xs[|before|] == v && xs[..|before|] == before && xs[|before| + 1..] == after
  {
  }

  lemma SplitAround<T>(xs: seq<T>, k: nat)
    requires k < |xs|
    ensures xs == xs[..k] + ([xs[k]] + xs[k + 1..])
  {
  }

  lemma EachHead<S, T>(f: S -> Option<T>, x: S, xs: seq<S>)
    ensures Each(f, [x] + xs) ==
            if f(x).Some? && Each(f, xs).Some? then Some([f(x).value] + Each(f, xs).value) else None
  {
    assert ([x] + xs)[1..] == xs;
  }

  lemma EachFronted<S, T>(f: S -> Option<T>, xs: seq<S>, k: nat)
    requires k < |xs| && Each(f, xs).Some?
    ensures Each(f, Fronted(xs, k)) == Some(Fronted(Each(f, xs).value, k))
  {
    var before, after := xs[..k], xs[k + 1..];
    SplitAround(xs, k);
    EachHead(f, xs[k], after);
    EachConcat(f, before, [xs[k]] + after);
    EachConcat(f, before, after);
    EachHead(f, xs[k], before + after);
    JoinedAt(Each(f, before).value, f(xs[k]).value, Each(f, after).value);
  }

  // ---------------------------------------------------------------- repeats

  predicate NoRepeats<T(==)>(xs: seq<T>) {
    forall i, k :: 0 <= i < k < |xs| ==> xs[i] != xs[k]
  }

  predicate SameMembers<T(==)>(xs: seq<T>, ys: seq<T>) {
    (forall x :: x in xs ==> x in ys) && (forall y :: y in ys ==> y in xs)
  }

  lemma NoRepeatsReordered<T>(xs: seq<T>, ys: seq<T>)
    requires SameItems(xs, ys) && NoRepeats(xs)
    ensures NoRepeats(ys)
  {
    forall i, k | 0 <= i < k < |ys|
      ensures ys[i] != ys[k]
    {
      if ys[i] == ys[k] {
        TwiceCounts(ys, i, k);
        MultiplicityMeansRepeat(xs, ys[i]);
      }
    }
  }

  lemma TwiceCounts<T>(xs: seq<T>, i: nat, k: nat)
    requires i < k < |xs| && xs[i] == xs[k]
    ensures multiset(xs)[xs[i]] >= 2
  {
    assert xs == xs[..k] + [xs[k]] + xs[k + 1..];
    assert xs[..k][i] == xs[i];
    assert xs[i] in multiset(xs[..k]);
  }

  // ---------------------------------------------------------------- sums

  function Total(xs: seq<real>): real {
    if xs == [] then 0.0 else Total(xs[..|xs| - 1]) + xs[|xs| - 1]
  }

  lemma {:induction false} TotalConcat(xs: seq<real>, ys: seq<real>)
    ensures Total(xs + ys) == Total(xs) + Total(ys)
  {
    if ys == [] {
      assert xs + ys == xs;
    } else {
      assert (xs + ys)[..|xs + ys| - 1] == xs + ys[..|ys| - 1];
      TotalConcat(xs, ys[..|ys| - 1]);
    }
  }

  lemma {:induction false} TotalReordered(xs: seq<real>, ys: seq<real>)
    requires SameItems(xs, ys)
    ensures Total(xs) == Total(ys)
  {
    if xs == [] {
      SameItemsLength(xs, ys);
    } else {
      var k := SameItemsTail(xs, ys);
      TotalReordered(xs[1..], Removed(ys, k));
      assert xs == [xs[0]] + xs[1..];
      TotalConcat([xs[0]], xs[1..]);
      SplitItems(ys, k);
      TotalConcat(ys[..k] + [ys[k]], ys[k + 1..]);
      TotalConcat(ys[..k], [ys[k]]);
      TotalConcat(ys[..k], ys[k + 1..]);
      assert Total([xs[0]]) == Total([]) + xs[0];
    }
  }

  lemma EachWithout<S, T>(f: S -> Option<T>, xs: seq<S>, k: nat)
    requires k < |xs| && Each(f, xs).Some?
    ensures f(xs[k]) == Some(Each(f, xs).value[k])
    ensures Each(f, Removed(xs, k)) == Some(Removed(Each(f, xs).value, k)) && SameItems(xs, [xs[k]] + Removed(xs, k))
  {
    var ys := Each(f, xs).value;
    EachFronted(f, xs, k);
    SplitItems(xs, k);
    assert Fronted(xs, k)[1..] == Removed(xs, k) && Fronted(ys, k)[1..] == Removed(ys, k);
  }

  lemma EachCons<S, T>(f: S -> Option<T>, x: S, xs: seq<S>)
    requires f(x).Some? && Each(f, xs).Some?
    ensures Each(f, [x] + xs) == Some([f(x).value] + Each(f, xs).value)
  {
    assert ([x] + xs)[1..] == xs;
  }

  lemma HeadReplaced<S>(xs: seq<S>, x: S, rest: seq<S>, tail: seq<S>)
    requires SameItems(xs, [x] + rest) && SameItems(rest, tail)
    ensures SameItems(xs, [x] + tail)
  {
  }

  /** An order of what the elements become is an order of the elements. */
  lemma {:induction false} EachLifted<S, T>(f: S -> Option<T>, xs: seq<S>, qs: seq<T>) returns (ys: seq<S>)
    requires Each(f, xs).Some? && SameItems(Each(f, xs).value, qs)
    ensures SameItems(xs, ys) && Each(f, ys) == Some(qs)
    decreases |qs|
  {
    var vs := Each(f, xs).value;
    SameItemsLength(vs, qs);
    if qs == [] {
      ys := [];
    } else {
      var k := SameItemsTail(qs, vs);
      EachWithout(f, xs, k);
      var tail := EachLifted(f, Removed(xs, k), qs[1..]);
      EachCons(f, xs[k], tail);
      HeadReplaced(xs, xs[k], Removed(xs, k), tail);
      ys := [xs[k]] + tail;
      assert qs == [qs[0]] + qs[1..];
    }
  }

  // ---------------------------------------------------------------- sets

  lemma SubsetSize<T>(a: set<T>, b: set<T>)
    requires a <= b
    ensures |a| <= |b|
  {
    if a != {} {
      var x :| x in a;
      SubsetSize(a - {x}, b - {x});
    }
  }
}
