/** Filtering, sorting and summing, and the sense in which they do not depend on order. */
module Collections {

  function Least(a: nat, b: nat): nat {
    if a < b then a else b
  }

  ghost predicate Distinct<T>(s: seq<T>) {
    forall i, j :: 0 <= i < j < |s| ==> s[i] != s[j]
  }

  lemma PositiveProduct(x: real, y: real)
    ensures x > 0.0 && y > 0.0 ==> x * y > 0.0
  {
  }

  function Filter<T>(s: seq<T>, p: T -> bool): (r: seq<T>) {
    if s == [] then []
    else Filter(s[..|s| - 1], p) + if p(s[|s| - 1]) then [s[|s| - 1]] else []
  }

  lemma FilterSnoc<T>(s: seq<T>, x: T, p: T -> bool)
    ensures Filter(s + [x], p) == Filter(s, p) + if p(x) then [x] else []
  {
    assert (s + [x])[..|s|] == s;
  }

  /** Filtering keeps exactly the occurrences that qualify. */
  lemma {:induction false} FilterCounts<T>(s: seq<T>, p: T -> bool, x: T)
    ensures multiset(Filter(s, p))[x] == if p(x) then multiset(s)[x] else 0
  {
    if s != [] {
      FilterCounts(s[..|s| - 1], p, x);
      assert s == s[..|s| - 1] + [s[|s| - 1]];
    }
  }

  lemma FilterMembers<T>(s: seq<T>, p: T -> bool)
    ensures forall x :: x in Filter(s, p) <==> x in s && p(x)
  {
    forall x
      ensures x in Filter(s, p) <==> x in s && p(x)
    {
      FilterCounts(s, p, x);
      assert x in Filter(s, p) <==> x in multiset(Filter(s, p));
      assert x in s <==> x in multiset(s);
    }
  }

  lemma SameMembers<T>(a: seq<T>, b: seq<T>)
    requires multiset(a) == multiset(b)
    ensures forall x :: x in a <==> x in b
    ensures |a| == |b|
  {
    assert forall x :: x in a <==> x in multiset(a);
    assert |a| == |multiset(a)|;
  }

  lemma {:induction false} FilterConcat<T>(a: seq<T>, b: seq<T>, p: T -> bool)
    ensures Filter(a + b, p) == Filter(a, p) + Filter(b, p)
  {
    if b == [] {
      assert a + b == a;
    } else {
      assert (a + b)[..|a + b| - 1] == a + b[..|b| - 1];
      FilterConcat(a, b[..|b| - 1], p);
    }
  }

  lemma PickOut<T>(b: seq<T>, x: T) returns (b1: seq<T>, b2: seq<T>)
    requires x in b
    ensures b == b1 + [x] + b2 && multiset(b) == multiset(b1 + b2) + multiset{x}
  {
    var i :| 0 <= i < |b| && b[i] == x;
    b1, b2 := b[..i], b[i + 1..];
    assert b == b1 + [x] + b2;
  }

  lemma Cancel<T>(m1: multiset<T>, m2: multiset<T>, x: T)
    requires m1 + multiset{x} == m2 + multiset{x}
    ensures m1 == m2
  {
    assert m1 == (m1 + multiset{x}) - multiset{x};
    assert m2 == (m2 + multiset{x}) - multiset{x};
  }

  /** Taking out the last element of one ordering takes it out of the other somewhere. */
  lemma SplitAtLast<T>(a: seq<T>, b: seq<T>) returns (b1: seq<T>, b2: seq<T>)
    requires multiset(a) == multiset(b) && a != []
    ensures b == b1 + [a[|a| - 1]] + b2 && multiset(a[..|a| - 1]) == multiset(b1 + b2)
  {
    var x := a[|a| - 1];
    SameMembers(a, b);
    b1, b2 := PickOut(b, x);
    assert a == a[..|a| - 1] + [x];
    Cancel(multiset(a[..|a| - 1]), multiset(b1 + b2), x);
  }

  lemma {:induction false} OnceIfDistinct<T>(s: seq<T>, x: T)
    requires Distinct(s)
    ensures multiset(s)[x] == if x in s then 1 else 0
  {
    if s != [] {
      var n := |s| - 1;
      OnceIfDistinct(s[..n], x);
      assert s == s[..n] + [s[n]];
      assert s[n] !in s[..n];
    }
  }

  /** Reordering repeats nothing. */
  lemma DistinctPermutes<T>(a: seq<T>, b: seq<T>)
    requires Distinct(a) && multiset(a) == multiset(b)
    ensures Distinct(b)
  {
    forall i, j | 0 <= i < j < |b|
      ensures b[i] != b[j]
    {
      OnceIfDistinct(a, b[i]);
      assert b == b[..i] + [b[i]] + b[i + 1..];
      assert b[i] !in multiset(b[i + 1..]);
      assert b[j] == b[i + 1..][j - i - 1];
    }
  }

  lemma FilterAround<T>(b1: seq<T>, x: T, b2: seq<T>, p: T -> bool)
    ensures multiset(Filter(b1 + [x] + b2, p)) == multiset(Filter(b1 + b2, p))
            + if p(x) then multiset{x} else multiset{}
  {
    FilterConcat(b1, b2, p);
    FilterConcat(b1 + [x], b2, p);
    FilterSnoc(b1, x, p);
  }

  /** Filtering two orderings of the same elements gives two orderings of the same elements. */
  lemma {:induction false} FilterPermutes<T>(a: seq<T>, b: seq<T>, p: T -> bool)
    requires multiset(a) == multiset(b)
    ensures multiset(Filter(a, p)) == multiset(Filter(b, p))
    ensures |Filter(a, p)| == |Filter(b, p)|
    decreases |a|
  {
    if a != [] {
      var b1, b2 := SplitAtLast(a, b);
      FilterPermutes(a[..|a| - 1], b1 + b2, p);
      FilterAround(b1, a[|a| - 1], b2, p);
    } else {
      SameMembers(a, b);
    }
    SameMembers(Filter(a, p), Filter(b, p));
  }

  lemma {:induction false} FilterParts<T>(s: seq<T>, whole: T -> bool, one: T -> bool, other: T -> bool)
    requires forall x :: x in s ==> (whole(x) <==> one(x) || other(x)) && !(one(x) && other(x))
    ensures |Filter(s, whole)| == |Filter(s, one)| + |Filter(s, other)|
  {
    if s != [] {
      FilterParts(s[..|s| - 1], whole, one, other);
    }
  }

  lemma {:induction false} FilterCongruent<T>(s: seq<T>, p: T -> bool, q: T -> bool)
    requires forall x :: x in s ==> p(x) == q(x)
    ensures Filter(s, p) == Filter(s, q)
  {
    if s != [] {
      FilterCongruent(s[..|s| - 1], p, q);
    }
  }

  lemma {:induction false} FilterNone<T>(s: seq<T>, p: T -> bool)
    requires forall x :: x in s ==> !p(x)
    ensures Filter(s, p) == []
  {
    if s != [] {
      FilterNone(s[..|s| - 1], p);
    }
  }

  function Map<T, U>(s: seq<T>, f: T -> U): (r: seq<U>)
    ensures |r| == |s| && forall i :: 0 <= i < |s| ==> r[i] == f(s[i])
  {
    seq(|s|, i requires 0 <= i < |s| => f(s[i]))
  }

  lemma MapConcat<T, U>(a: seq<T>, b: seq<T>, f: T -> U)
    ensures Map(a + b, f) == Map(a, f) + Map(b, f)
  {
  }

  /** Mapping two orderings of the same elements gives two orderings of the same elements. */
  lemma {:induction false} MapPermutes<T, U>(a: seq<T>, b: seq<T>, f: T -> U)
    requires multiset(a) == multiset(b)
    ensures multiset(Map(a, f)) == multiset(Map(b, f))
    decreases |a|
  {
    if a != [] {
      var x := a[|a| - 1];
      var b1, b2 := SplitAtLast(a, b);
      MapPermutes(a[..|a| - 1], b1 + b2, f);
      assert a == a[..|a| - 1] + [x];
      MapConcat(a[..|a| - 1], [x], f);
      MapConcat(b1, b2, f);
      MapConcat(b1 + [x], b2, f);
      MapConcat(b1, [x], f);
      assert multiset(Map(b, f)) == multiset(Map(b1, f)) + multiset{f(x)} + multiset(Map(b2, f));
    } else {
      SameMembers(a, b);
    }
  }

  // ----- stable sorting

  /** A strict order with ties: nothing precedes what precedes it, and being not after is transitive. */
  ghost predicate StrictWeakOrder<T(!new)>(before: (T, T) -> bool) {
    && (forall a, b :: before(a, b) ==> !before(b, a))
    && (forall a, b, c :: !before(b, a) && !before(c, b) ==> !before(c, a))
  }

  /** A strict order without ties on the elements of a collection. */
  ghost predicate TotalOn<T>(s: seq<T>, before: (T, T) -> bool) {
    forall a, b :: a in s && b in s && a != b ==> before(a, b) || before(b, a)
  }

  ghost predicate Sorted<T>(s: seq<T>, before: (T, T) -> bool) {
    forall i, j :: 0 <= i < j < |s| ==> !before(s[j], s[i])
  }

  function Insert<T>(x: T, s: seq<T>, before: (T, T) -> bool): seq<T> {
    if s != [] && before(s[0], x) then [s[0]] + Insert(x, s[1..], before) else [x] + s
  }

  /** Insertion sort; elements that tie keep their order. */
  function Sort<T>(s: seq<T>, before: (T, T) -> bool): seq<T> {
    if s == [] then [] else Insert(s[0], Sort(s[1..], before), before)
  }

  lemma {:induction false} InsertPermutes<T>(x: T, s: seq<T>, before: (T, T) -> bool)
    ensures multiset(Insert(x, s, before)) == multiset{x} + multiset(s)
  {
    if s != [] && before(s[0], x) {
      InsertPermutes(x, s[1..], before);
      assert s == [s[0]] + s[1..];
    }
  }

  lemma {:induction false} SortPermutes<T>(s: seq<T>, before: (T, T) -> bool)
    ensures multiset(Sort(s, before)) == multiset(s)
    ensures |Sort(s, before)| == |s|
  {
    if s != [] {
      SortPermutes(s[1..], before);
      InsertPermutes(s[0], Sort(s[1..], before), before);
      assert s == [s[0]] + s[1..];
    }
    SameMembers(Sort(s, before), s);
  }

  lemma {:induction false} InsertSorts<T(!new)>(x: T, s: seq<T>, before: (T, T) -> bool)
    requires StrictWeakOrder(before) && Sorted(s, before)
    ensures Sorted(Insert(x, s, before), before)
  {
    var r := Insert(x, s, before);
    if s != [] && before(s[0], x) {
      InsertSorts(x, s[1..], before);
      InsertPermutes(x, s[1..], before);
      var tail := Insert(x, s[1..], before);
      forall j | 0 <= j < |tail|
        ensures !before(tail[j], s[0])
      {
        assert tail[j] in multiset(tail);
        if tail[j] != x {
          assert tail[j] in s[1..];
        }
      }
    } else if s != [] {
      forall j | 0 <= j < |s|
        ensures !before(s[j], x)
      {
        assert j > 0 ==> !before(s[j], s[0]);
      }
    }
  }

  lemma {:induction false} SortSorts<T(!new)>(s: seq<T>, before: (T, T) -> bool)
    requires StrictWeakOrder(before)
    ensures Sorted(Sort(s, before), before)
  {
    if s != [] {
      SortSorts(s[1..], before);
      InsertSorts(s[0], Sort(s[1..], before), before);
    }
  }

  lemma RestOf<T>(a: seq<T>)
    requires a != []
    ensures multiset(a[1..]) == multiset(a) - multiset{a[0]}
  {
    assert a == [a[0]] + a[1..];
  }

  lemma FirstsAgree<T(!new)>(a: seq<T>, b: seq<T>, before: (T, T) -> bool)
    requires TotalOn(a, before) && a != [] && b != []
    requires Sorted(a, before) && Sorted(b, before) && a[0] in b && b[0] in a
    ensures a[0] == b[0]
  {
    var i :| 0 <= i < |b| && b[i] == a[0];
    var j :| 0 <= j < |a| && a[j] == b[0];
  }

  lemma TailKeeps<T>(a: seq<T>, before: (T, T) -> bool)
    requires a != []
    ensures Sorted(a, before) ==> Sorted(a[1..], before)
    ensures TotalOn(a, before) ==> TotalOn(a[1..], before)
  {
  }

  /** Under an order without ties there is only one sorted arrangement. */
  lemma {:induction false} SortedIsUnique<T(!new)>(a: seq<T>, b: seq<T>, before: (T, T) -> bool)
    requires StrictWeakOrder(before) && TotalOn(a, before)
    requires Sorted(a, before) && Sorted(b, before) && multiset(a) == multiset(b)
    ensures a == b
  {
    hide StrictWeakOrder, Sorted, TotalOn;
    SameMembers(a, b);
    if a != [] {
      assert a[0] in b && b[0] in a;
      FirstsAgree(a, b, before);
      RestOf(a);
      RestOf(b);
      TailKeeps(a, before);
      TailKeeps(b, before);
      SortedIsUnique(a[1..], b[1..], before);
      assert a == [a[0]] + a[1..] && b == [b[0]] + b[1..];
    }
  }

  /** Sorting without ties forgets the order it was given. */
  lemma SortForgetsOrder<T(!new)>(a: seq<T>, b: seq<T>, before: (T, T) -> bool)
    requires StrictWeakOrder(before) && TotalOn(a, before) && multiset(a) == multiset(b)
    ensures Sort(a, before) == Sort(b, before)
  {
    SortPermutes(a, before);
    SortPermutes(b, before);
    SortSorts(a, before);
    SortSorts(b, before);
    SameMembers(Sort(a, before), a);
    SortedIsUnique(Sort(a, before), Sort(b, before), before);
  }

  // ----- sums over maps

  /** The sum of a map's values, in whatever order they are visited. */
  ghost function Sum<K(!new)>(m: map<K, int>): int
    decreases |m|
  {
    if m == map[] then 0
    else
      var k :| k in m;
      m[k] + Sum(m - {k})
  }

  lemma {:induction false} SumWithout<K(!new)>(m: map<K, int>, k: K)
    requires k in m
    ensures Sum(m) == m[k] + Sum(m - {k})
    decreases |m|
  {
    var c :| c in m && Sum(m) == m[c] + Sum(m - {c});
    if c != k {
      SumWithout(m - {c}, k);
      SumWithout(m - {k}, c);
      assert m - {c} - {k} == m - {k} - {c};
    }
  }

  lemma SumUpdate<K(!new)>(m: map<K, int>, k: K, v: int)
    ensures Sum(m[k := v]) == Sum(m) - (if k in m then m[k] else 0) + v
  {
    SumWithout(m[k := v], k);
    assert m[k := v] - {k} == m - {k};
    if k in m {
      SumWithout(m, k);
    } else {
      assert m - {k} == m;
    }
  }

  /** Smaller values sum to less. */
  lemma {:induction false} SumMonotone<K(!new)>(m: map<K, int>, n: map<K, int>)
    requires m.Keys <= n.Keys && (forall k :: k in m ==> m[k] <= n[k]) && (forall k :: k in n && k !in m ==> 0 <= n[k])
    ensures Sum(m) <= Sum(n)
    decreases |n|
  {
    if n != map[] {
      var k :| k in n;
      SumWithout(n, k);
      if k in m {
        SumWithout(m, k);
        SumMonotone(m - {k}, n - {k});
      } else {
        assert m.Keys <= (n - {k}).Keys;
        SumMonotone(m, n - {k});
      }
    } else {
      assert m == map[];
    }
  }
}
