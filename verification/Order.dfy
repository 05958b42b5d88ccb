/**
 Lexicographic order on sequences of integers, which is how Python orders `str` and
 `bytes`, and the stable keyed sort the repository gets from `sorted(..., key=...)`.
 */
module Order {

  predicate LexLess(a: seq<int>, b: seq<int>) {
    if b == [] then false
    else if a == [] then true
    else a[0] < b[0] || (a[0] == b[0] && LexLess(a[1..], b[1..]))
  }

  /** The first place where the two differ decides, and a sequence precedes what it begins. */
  ghost predicate Precedes(a: seq<int>, b: seq<int>) {
    exists k: nat :: k <= |a| && k < |b| && SameUpTo(a, b, k) && (k == |a| || a[k] < b[k])
  }

  ghost predicate SameUpTo(a: seq<int>, b: seq<int>, k: nat) {
    k <= |a| && k <= |b| && forall i :: 0 <= i < k ==> a[i] == b[i]
  }

  lemma {:induction false} LexLessIff(a: seq<int>, b: seq<int>)
    ensures LexLess(a, b) <==> Precedes(a, b)
  {
    if a == [] || b == [] || a[0] != b[0] {
      assert SameUpTo(a, b, 0);
    } else {
      var x, y := a[1..], b[1..];
      LexLessIff(x, y);
      if Precedes(x, y) {
        var k: nat :| k <= |x| && k < |y| && SameUpTo(x, y, k) && (k == |x| || x[k] < y[k]);
        assert SameUpTo(a, b, k + 1);
      }
      if Precedes(a, b) {
        var k: nat :| k <= |a| && k < |b| && SameUpTo(a, b, k) && (k == |a| || a[k] < b[k]);
        assert k > 0 && SameUpTo(x, y, k - 1);
      }
    }
  }

  lemma LexIrreflexive(a: seq<int>)
    ensures !LexLess(a, a)
  {
  }

  lemma LexTransitive(a: seq<int>, b: seq<int>, c: seq<int>)
    requires LexLess(a, b) && LexLess(b, c)
    ensures LexLess(a, c)
  {
  }

  lemma {:induction false} LexTotal(a: seq<int>, b: seq<int>)
    ensures LexLess(a, b) || a == b || LexLess(b, a)
  {
    if a != [] && b != [] {
      LexTotal(a[1..], b[1..]);
      assert a == [a[0]] + a[1..] && b == [b[0]] + b[1..];
    }
  }

  lemma {:induction false} LexCommonPrefix(p: seq<int>, a: seq<int>, b: seq<int>)
    ensures LexLess(p + a, p + b) <==> LexLess(a, b)
  {
    if p == [] {
      assert p + a == a && p + b == b;
    } else {
      assert (p + a)[1..] == p[1..] + a && (p + b)[1..] == p[1..] + b;
      LexCommonPrefix(p[1..], a, b);
    }
  }

  lemma Assoc<T>(a: seq<T>, b: seq<T>, c: seq<T>)
    ensures a + b + c == a + (b + c)
  {
  }

  /** An item together with the key it is sorted by. */
  datatype Keyed<+T> = Keyed(key: seq<int>, item: T)

  function Items<T>(xs: seq<Keyed<T>>): (r: seq<T>)
    ensures |r| == |xs| && forall i :: 0 <= i < |xs| ==> r[i] == xs[i].item
  {
    seq(|xs|, i requires 0 <= i < |xs| => xs[i].item)
  }

  predicate DistinctKeys<T>(xs: seq<Keyed<T>>) {
    forall i, j :: 0 <= i < j < |xs| ==> xs[i].key != xs[j].key
  }

  predicate Sorted<T>(xs: seq<Keyed<T>>) {
    forall i, j :: 0 <= i < j < |xs| ==> !LexLess(xs[j].key, xs[i].key)
  }

  function Insert<T>(x: Keyed<T>, xs: seq<Keyed<T>>): seq<Keyed<T>> {
    if xs == [] then [x]
    else if LexLess(xs[0].key, x.key) then [xs[0]] + Insert(x, xs[1..])
    else [x] + xs
  }

  /** The stable ascending sort by key. */
  function Sort<T>(xs: seq<Keyed<T>>): seq<Keyed<T>> {
    if xs == [] then [] else Insert(xs[0], Sort(xs[1..]))
  }

  lemma {:induction false} InsertPermutes<T>(x: Keyed<T>, xs: seq<Keyed<T>>)
    ensures multiset(Insert(x, xs)) == multiset([x] + xs)
  {
    if xs != [] && LexLess(xs[0].key, x.key) {
      InsertPermutes(x, xs[1..]);
      assert xs == [xs[0]] + xs[1..];
    }
  }

  lemma {:induction false} SortPermutes<T>(xs: seq<Keyed<T>>)
    ensures multiset(Sort(xs)) == multiset(xs)
    ensures |Sort(xs)| == |xs|
  {
    if xs != [] {
      SortPermutes(xs[1..]);
      InsertPermutes(xs[0], Sort(xs[1..]));
      assert xs == [xs[0]] + xs[1..];
    }
    assert |multiset(Sort(xs))| == |Sort(xs)| && |multiset(xs)| == |xs|;
  }

  lemma SortKeepsMembers<T>(xs: seq<Keyed<T>>, x: Keyed<T>)
    ensures x in Sort(xs) <==> x in xs
  {
    SortPermutes(xs);
    assert x in Sort(xs) <==> x in multiset(Sort(xs));
    assert x in xs <==> x in multiset(xs);
  }

  lemma InsertMember<T>(x: Keyed<T>, xs: seq<Keyed<T>>, y: Keyed<T>)
    requires y in Insert(x, xs)
    ensures y == x || y in xs
  {
    InsertPermutes(x, xs);
    assert y in multiset(Insert(x, xs));
  }

  /** Sorting a sorted list changes nothing. */
  lemma {:induction false} SortedStays<T>(xs: seq<Keyed<T>>)
    requires Sorted(xs)
    ensures Sort(xs) == xs
  {
    if xs != [] {
      SortedStays(xs[1..]);
      assert xs == [xs[0]] + xs[1..];
    }
  }

  lemma {:induction false} InsertSorts<T>(x: Keyed<T>, xs: seq<Keyed<T>>)
    requires Sorted(xs)
    ensures Sorted(Insert(x, xs))
  {
    if xs != [] {
      if LexLess(xs[0].key, x.key) {
        InsertSorts(x, xs[1..]);
        var tail := Insert(x, xs[1..]);
        forall j | 0 <= j < |tail|
          ensures !LexLess(tail[j].key, xs[0].key)
        {
          InsertMember(x, xs[1..], tail[j]);
          if LexLess(x.key, xs[0].key) {
            LexTransitive(x.key, xs[0].key, x.key);
            LexIrreflexive(x.key);
          }
        }
      } else {
        forall j | 0 <= j < |xs|
          ensures !LexLess(xs[j].key, x.key)
        {
          if LexLess(xs[j].key, x.key) {
            LexTotal(xs[0].key, xs[j].key);
            if LexLess(xs[0].key, xs[j].key) {
              LexTransitive(xs[0].key, xs[j].key, x.key);
            }
          }
        }
      }
    }
  }

  lemma {:induction false} SortSorts<T>(xs: seq<Keyed<T>>)
    ensures Sorted(Sort(xs))
  {
    if xs != [] {
      SortSorts(xs[1..]);
      InsertSorts(xs[0], Sort(xs[1..]));
    }
  }

  lemma SameHead<T>(xs: seq<Keyed<T>>, ys: seq<Keyed<T>>)
    requires Sorted(xs) && Sorted(ys) && DistinctKeys(xs)
    requires multiset(xs) == multiset(ys) && xs != [] && ys != []
    ensures xs[0] == ys[0]
  {
    var x, y := xs[0], ys[0];
    assert x in multiset(xs) && y in multiset(ys);
    var i :| 0 <= i < |ys| && ys[i] == x;
    var j :| 0 <= j < |xs| && xs[j] == y;
    LexTotal(x.key, y.key);
  }

  /** A sorted arrangement of distinctly keyed items is determined by the set of items. */
  lemma {:induction false} SortedUnique<T>(xs: seq<Keyed<T>>, ys: seq<Keyed<T>>)
    requires Sorted(xs) && Sorted(ys) && DistinctKeys(xs)
    requires multiset(xs) == multiset(ys)
    ensures xs == ys
  {
    assert |xs| == |multiset(xs)| == |multiset(ys)| == |ys|;
    if xs != [] {
      SameHead(xs, ys);
      assert xs == [xs[0]] + xs[1..] && ys == [ys[0]] + ys[1..];
      assert multiset(xs[1..]) == multiset(xs) - multiset{xs[0]};
      assert multiset(ys[1..]) == multiset(ys) - multiset{ys[0]};
      SortedUnique(xs[1..], ys[1..]);
    }
  }

  lemma RepeatMeansMultiplicity<T>(ys: seq<T>, i: nat, j: nat)
    requires i < j < |ys| && ys[i] == ys[j]
    ensures multiset(ys)[ys[i]] >= 2
  {
    var a := ys[i];
    assert ys == ys[..j] + [a] + ys[j + 1..];
    assert a in ys[..j];
  }

  lemma DistinctKeysPermute<T>(xs: seq<Keyed<T>>, ys: seq<Keyed<T>>)
    requires DistinctKeys(xs) && multiset(xs) == multiset(ys)
    ensures DistinctKeys(ys)
  {
    forall i, j | 0 <= i < j < |ys|
      ensures ys[i].key != ys[j].key
    {
      var a, b := ys[i], ys[j];
      if a == b {
        RepeatMeansMultiplicity(ys, i, j);
        MultiplicityMeansRepeat(xs, a);
      } else {
        assert a in multiset(ys) && b in multiset(ys);
        assert a in multiset(xs) && b in multiset(xs);
      }
    }
  }

  lemma {:induction false} MultiplicityMeansRepeat<T>(xs: seq<T>, a: T)
    requires multiset(xs)[a] >= 2
    ensures exists i, j :: 0 <= i < j < |xs| && xs[i] == a && xs[j] == a
  {
    assert xs == [xs[0]] + xs[1..];
    if xs[0] == a {
      assert a in multiset(xs[1..]);
      var j :| 0 <= j < |xs[1..]| && xs[1..][j] == a;
      assert 0 <= 0 < j + 1 < |xs| && xs[0] == a && xs[j + 1] == a;
    } else {
      MultiplicityMeansRepeat(xs[1..], a);
      var i, j :| 0 <= i < j < |xs[1..]| && xs[1..][i] == a && xs[1..][j] == a;
      assert xs[i + 1] == a && xs[j + 1] == a;
    }
  }

  /** The order in which distinctly keyed items were supplied does not reach the output. */
  lemma SortCanonical<T>(xs: seq<Keyed<T>>, ys: seq<Keyed<T>>)
    requires DistinctKeys(xs) && multiset(xs) == multiset(ys)
    ensures Sort(xs) == Sort(ys)
  {
    SortPermutes(xs);
    SortPermutes(ys);
    SortSorts(xs);
    SortSorts(ys);
    DistinctKeysPermute(xs, Sort(xs));
    SortedUnique(Sort(xs), Sort(ys));
  }

  /** Replace the item of every entry and keep its key. */
  function MapItems<A, B>(f: A -> B, xs: seq<Keyed<A>>): (ys: seq<Keyed<B>>)
    ensures |ys| == |xs|
    ensures forall i :: 0 <= i < |xs| ==> ys[i] == Keyed(xs[i].key, f(xs[i].item))
  {
    if xs == [] then [] else [Keyed(xs[0].key, f(xs[0].item))] + MapItems(f, xs[1..])
  }

  lemma {:induction false} InsertMapItems<A, B>(f: A -> B, x: Keyed<A>, xs: seq<Keyed<A>>)
    ensures Insert(Keyed(x.key, f(x.item)), MapItems(f, xs)) == MapItems(f, Insert(x, xs))
  {
    if xs != [] {
      assert MapItems(f, xs)[1..] == MapItems(f, xs[1..]);
      InsertMapItems(f, x, xs[1..]);
      assert ([xs[0]] + Insert(x, xs[1..]))[1..] == Insert(x, xs[1..]);
      assert ([x] + xs)[1..] == xs;
    }
  }

  /** Sorting looks at keys only, so it commutes with rewriting the items. */
  lemma {:induction false} SortMapItems<A, B>(f: A -> B, xs: seq<Keyed<A>>)
    ensures Sort(MapItems(f, xs)) == MapItems(f, Sort(xs))
  {
    if xs != [] {
      SortMapItems(f, xs[1..]);
      assert MapItems(f, xs)[1..] == MapItems(f, xs[1..]);
      InsertMapItems(f, xs[0], Sort(xs[1..]));
    }
  }
}
