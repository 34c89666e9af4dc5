/** Tie-aware ranks, pairwise accuracy and interpolated percentiles, over exact numbers. */
module Ranking {
  import opened Collections

  // ----- what a rank means

  function LessThan(x: real): real -> bool { v => v < x }

  function EqualTo(x: real): real -> bool { v => v == x }

  function MoreThan(x: real): real -> bool { v => v > x }

  /** How many values lie below x. */
  function Below(values: seq<real>, x: real): nat { |Filter(values, LessThan(x))| }

  function Tied(values: seq<real>, x: real): nat { |Filter(values, EqualTo(x))| }

  function Above(values: seq<real>, x: real): nat { |Filter(values, MoreThan(x))| }

  /** The rank of a value: how many lie below it, and half of the others that tie with it. */
  function Rank(values: seq<real>, x: real): real {
    Below(values, x) as real + (Tied(values, x) as real - 1.0) / 2.0
  }

  lemma {:induction false} CountsAddUp(values: seq<real>, x: real)
    ensures Below(values, x) + Tied(values, x) + Above(values, x) == |values|
  {
    if values != [] {
      CountsAddUp(values[..|values| - 1], x);
    }
  }

  lemma CountsSnoc(values: seq<real>, v: real, x: real)
    ensures Below(values + [v], x) == Below(values, x) + (if v < x then 1 else 0)
    ensures Tied(values + [v], x) == Tied(values, x) + (if v == x then 1 else 0)
    ensures Above(values + [v], x) == Above(values, x) + (if v > x then 1 else 0)
  {
    FilterSnoc(values, v, LessThan(x));
    FilterSnoc(values, v, EqualTo(x));
    FilterSnoc(values, v, MoreThan(x));
  }

  lemma TiedWithItself(values: seq<real>, i: nat)
    requires i < |values|
    ensures Tied(values, values[i]) >= 1
  {
    FilterMembers(values, EqualTo(values[i]));
    assert values[i] in Filter(values, EqualTo(values[i]));
  }

  // ----- the sweep over tie groups

  function Pairs(values: seq<real>): seq<(nat, real)> {
    seq(|values|, i requires 0 <= i < |values| => (i, values[i]))
  }

  /** By value, then by position. */
  function ByValue(): ((nat, real), (nat, real)) -> bool {
    (p: (nat, real), q: (nat, real)) => p.1 < q.1 || (p.1 == q.1 && p.0 < q.0)
  }

  function ValueIs(q: real -> bool): ((nat, real)) -> bool {
    (p: (nat, real)) => q(p.1)
  }

  lemma {:induction false} PairsCount(values: seq<real>, q: real -> bool)
    ensures |Filter(Pairs(values), ValueIs(q))| == |Filter(values, q)|
  {
    if values != [] {
      var n := |values| - 1;
      PairsCount(values[..n], q);
      assert Pairs(values) == Pairs(values[..n]) + [(n, values[n])];
      FilterSnoc(Pairs(values[..n]), (n, values[n]), ValueIs(q));
    }
  }

  /** A filter that keeps exactly one stretch of positions. */
  lemma {:induction false} FilterStretch<T>(s: seq<T>, p: T -> bool, lo: nat, hi: nat)
    requires lo <= hi <= |s|
    requires forall k :: 0 <= k < |s| ==> (p(s[k]) <==> lo <= k < hi)
    ensures |Filter(s, p)| == hi - lo
  {
    if s != [] {
      var n := |s| - 1;
      if hi == |s| && lo < hi {
        FilterStretch(s[..n], p, lo, hi - 1);
      } else {
        FilterStretch(s[..n], p, if lo > n then n else lo, if hi > n then n else hi);
      }
    }
  }

  /** In the sorted pairs, a maximal stretch of equal values tells the rank of its value. */
  lemma StretchRank(values: seq<real>, sorted: seq<(nat, real)>, lo: nat, hi: nat)
    requires multiset(sorted) == multiset(Pairs(values)) && Sorted(sorted, ByValue()) && lo < hi <= |sorted|
    requires forall k :: lo <= k < hi ==> sorted[k].1 == sorted[lo].1
    requires lo > 0 ==> sorted[lo - 1].1 < sorted[lo].1
    requires hi < |sorted| ==> sorted[hi].1 != sorted[lo].1
    ensures Rank(values, sorted[lo].1) == (lo + hi - 1) as real / 2.0
  {
    var x := sorted[lo].1;
    SortedByValue(sorted);
    forall k | 0 <= k < |sorted|
      ensures sorted[k].1 < x <==> k < lo
      ensures sorted[k].1 == x <==> lo <= k < hi
    {
    }
    FilterStretch(sorted, ValueIs(LessThan(x)), 0, lo);
    FilterStretch(sorted, ValueIs(EqualTo(x)), lo, hi);
    FilterPermutes(sorted, Pairs(values), ValueIs(LessThan(x)));
    FilterPermutes(sorted, Pairs(values), ValueIs(EqualTo(x)));
    PairsCount(values, LessThan(x));
    PairsCount(values, EqualTo(x));
  }

  lemma SortedByValue(sorted: seq<(nat, real)>)
    requires Sorted(sorted, ByValue())
    ensures forall i, j :: 0 <= i <= j < |sorted| ==> sorted[i].1 <= sorted[j].1
  {
    forall i, j | 0 <= i < j < |sorted|
      ensures sorted[i].1 <= sorted[j].1
    {
      assert !ByValue()(sorted[j], sorted[i]);
    }
  }

  lemma ByValueIsOrder()
    ensures StrictWeakOrder(ByValue())
  {
  }

  /** The sweep assigns every element its rank. */
  method AverageRanks(values: seq<real>) returns (ranks: array<real>)
    ensures fresh(ranks) && ranks.Length == |values|
    ensures forall i :: 0 <= i < |values| ==> ranks[i] == Rank(values, values[i])
  {
    hide Rank, Sort, Filter, Sorted, ByValue, Pairs, StrictWeakOrder;
    var indexed := Sort(Pairs(values), ByValue());
    SortPermutes(Pairs(values), ByValue());
    ByValueIsOrder();
    SortSorts(Pairs(values), ByValue());
    SortedByValue(indexed);
    SortedPairs(values, indexed);
    ranks := new real[|values|](_ => 0.0);
    var start := 0;
    while start < |indexed|
      invariant 0 <= start <= |indexed|
      invariant 0 < start < |indexed| ==> indexed[start - 1].1 < indexed[start].1
      invariant forall k :: 0 <= k < start ==> ranks[indexed[k].0] == Rank(values, values[indexed[k].0])
    {
      var end := start + 1;
      while end < |indexed| && indexed[end].1 == indexed[start].1
        invariant start < end <= |indexed|
        invariant forall k :: start <= k < end ==> indexed[k].1 == indexed[start].1
      {
        end := end + 1;
      }
      var averageRank := (start + end - 1) as real / 2.0;
      StretchRank(values, indexed, start, end);
      for position := start to end
        invariant forall k :: 0 <= k < position ==> ranks[indexed[k].0] == Rank(values, values[indexed[k].0])
      {
        ranks[indexed[position].0] := averageRank;
      }
      start := end;
    }
    forall i | 0 <= i < |values|
      ensures ranks[i] == Rank(values, values[i])
    {
      var k :| 0 <= k < |indexed| && indexed[k] == (i, values[i]);
    }
  }

  /** A rearrangement of the pairs holds each position once, with its own value. */
  lemma SortedPairs(values: seq<real>, sorted: seq<(nat, real)>)
    requires multiset(sorted) == multiset(Pairs(values))
    ensures |sorted| == |values|
    ensures forall k :: 0 <= k < |sorted| ==> sorted[k].0 < |values| && sorted[k].1 == values[sorted[k].0]
    ensures forall i :: 0 <= i < |values| ==> (i, values[i]) in sorted
  {
    SameMembers(sorted, Pairs(values));
    forall k | 0 <= k < |sorted|
      ensures sorted[k].0 < |values| && sorted[k].1 == values[sorted[k].0]
    {
      assert sorted[k] in Pairs(values);
    }
    forall i | 0 <= i < |values|
      ensures (i, values[i]) in sorted
    {
      assert Pairs(values)[i] in Pairs(values);
    }
  }

  // ----- laws of ranks

  /** Ranks order values exactly as the values do, and ties share a rank. */
  lemma RanksFollowValues(values: seq<real>, i: nat, j: nat)
    requires i < |values| && j < |values|
    ensures Rank(values, values[i]) < Rank(values, values[j]) <==> values[i] < values[j]
    ensures Rank(values, values[i]) == Rank(values, values[j]) <==> values[i] == values[j]
  {
    TiedWithItself(values, i);
    TiedWithItself(values, j);
    if values[i] < values[j] {
      LowerValuesCounted(values, values[i], values[j]);
    } else if values[j] < values[i] {
      LowerValuesCounted(values, values[j], values[i]);
    }
  }

  lemma {:induction false} LowerValuesCounted(values: seq<real>, x: real, y: real)
    requires x < y
    ensures Below(values, x) + Tied(values, x) <= Below(values, y)
  {
    if values != [] {
      LowerValuesCounted(values[..|values| - 1], x, y);
    }
  }

  function RankSum(values: seq<real>, k: nat): real
    requires k <= |values|
  {
    if k == 0 then 0.0 else RankSum(values, k - 1) + Rank(values, values[k - 1])
  }

  /** What one more value adds to the ranks of the others. */
  function Lift(values: seq<real>, v: real): real {
    Above(values, v) as real + Tied(values, v) as real / 2.0
  }

  function Share(v: real, x: real): real {
    if v < x then 1.0 else if v == x then 0.5 else 0.0
  }

  lemma RankSnoc(values: seq<real>, v: real, x: real)
    ensures Rank(values + [v], x) == Rank(values, x) + Share(v, x)
    ensures Lift(values + [v], x) == Lift(values, x) + Share(x, v)
  {
    hide Below, Tied, Above;
    CountsSnoc(values, v, x);
  }

  lemma RankSumStep(values: seq<real>, v: real, k: nat)
    requires 0 < k <= |values|
    ensures RankSum(values, k) == RankSum(values, k - 1) + Rank(values, values[k - 1])
    ensures RankSum(values + [v], k) ==
            RankSum(values + [v], k - 1) + Rank(values, values[k - 1]) + Share(v, values[k - 1])
  {
    hide Rank, Share;
    RankSnoc(values, v, values[k - 1]);
  }

  lemma LiftStep(values: seq<real>, v: real, k: nat)
    requires 0 < k <= |values|
    ensures Lift(values[..k], v) == Lift(values[..k - 1], v) + Share(v, values[k - 1])
  {
    hide Lift, Share;
    assert values[..k] == values[..k - 1] + [values[k - 1]];
    RankSnoc(values[..k - 1], values[k - 1], v);
  }

  lemma {:induction false} RankSumSnoc(values: seq<real>, v: real, k: nat)
    requires k <= |values|
    ensures RankSum(values + [v], k) == RankSum(values, k) + Lift(values[..k], v)
  {
    if k > 0 {
      hide Rank, Lift, Share, RankSum;
      RankSumSnoc(values, v, k - 1);
      RankSumStep(values, v, k);
      LiftStep(values, v, k);
    }
  }

  lemma LastRank(rest: seq<real>, v: real)
    ensures Rank(rest + [v], v) + Lift(rest, v) == |rest| as real
  {
    hide Below, Tied, Above;
    CountsSnoc(rest, v, v);
    CountsAddUp(rest, v);
  }

  function Triangle(n: nat): real {
    (n * (n - 1)) as real / 2.0
  }

  lemma TriangleGrows(n: nat)
    ensures Triangle(n + 1) == Triangle(n) + n as real
  {
    assert (n + 1) * n == n * (n - 1) + 2 * n;
  }

  /** Ranks always sum to n(n-1)/2, however many values tie. */
  lemma {:induction false} RanksSum(values: seq<real>)
    ensures RankSum(values, |values|) == Triangle(|values|)
  {
    assert Triangle(0) == 0.0;
    hide Triangle, Rank, Lift;
    if values != [] {
      var n := |values| - 1;
      var rest, v := values[..n], values[n];
      assert values == rest + [v] && rest[..n] == rest;
      RanksSum(rest);
      TriangleGrows(n);
      RankSumSnoc(rest, v, n);
      LastRank(rest, v);
    }
  }

  function Negated(values: seq<real>): seq<real> {
    seq(|values|, i requires 0 <= i < |values| => -values[i])
  }

  lemma {:induction false} NegatedCounts(values: seq<real>, x: real)
    ensures Below(Negated(values), -x) == Above(values, x) && Tied(Negated(values), -x) == Tied(values, x)
  {
    if values != [] {
      var n := |values| - 1;
      NegatedCounts(values[..n], x);
      assert Negated(values)[..n] == Negated(values[..n]);
    }
  }

  /** Negating every value turns rank r into n - 1 - r. */
  lemma NegationReversesRanks(values: seq<real>, i: nat)
    requires i < |values|
    ensures Rank(Negated(values), -values[i]) == (|values| - 1) as real - Rank(values, values[i])
  {
    NegatedCounts(values, values[i]);
    CountsAddUp(values, values[i]);
  }

  lemma RankInRange(values: seq<real>, i: nat)
    requires i < |values|
    ensures 0.0 <= Rank(values, values[i]) <= (|values| - 1) as real
  {
    TiedWithItself(values, i);
    CountsAddUp(values, values[i]);
  }

  /** Ranks scaled to the unit interval; a single value sits in the middle. */
  method RankPercentiles(values: seq<real>) returns (percentiles: seq<real>)
    ensures |percentiles| == |values|
    ensures forall i :: 0 <= i < |values| ==> 0.0 <= percentiles[i] <= 1.0
    ensures forall i :: 0 <= i < |values| ==>
              percentiles[i] == if |values| == 1 then 0.5 else Rank(values, values[i]) / (|values| - 1) as real
  {
    if |values| == 0 {
      return [];
    }
    var ranks := AverageRanks(values);
    if |values| == 1 {
      return [0.5];
    }
    var n := (|values| - 1) as real;
    percentiles := seq(
      |values|, i requires 0 <= i < |values| reads ranks requires ranks.Length == |values| => ranks[i] / n);
    forall i | 0 <= i < |values|
      ensures 0.0 <= percentiles[i] <= 1.0
    {
      hide Rank;
      RankInRange(values, i);
      UnitQuotient(ranks[i], n);
    }
  }

  lemma UnitQuotient(a: real, b: real)
    requires 0.0 <= a <= b && b > 0.0
    ensures 0.0 <= a / b <= 1.0
  {
  }

  // ----- pairwise accuracy

  datatype Score = Undefined | Defined(value: real)

  /** The credit of one pair: none when the labels tie, half for tied scores, one for agreement. */
  function Credit(labels: seq<real>, scores: seq<real>, l: nat, r: nat): real
    requires l < |labels| == |scores| && r < |labels|
  {
    if labels[l] == labels[r] then 0.0
    else if scores[l] == scores[r] then 0.5
    else if (labels[l] > labels[r]) == (scores[l] > scores[r]) then 1.0 else 0.0
  }

  function Comparable(labels: seq<real>, l: nat, r: nat): int
    requires l < |labels| && r < |labels|
  {
    if labels[l] == labels[r] then 0 else 1
  }

  /** Credit of the pairs (l, k) with l < k < r. */
  function RowCredit(labels: seq<real>, scores: seq<real>, l: nat, r: nat): real
    requires l < |labels| == |scores| && r <= |labels|
  {
    if r <= l + 1 then 0.0 else RowCredit(labels, scores, l, r - 1) + Credit(labels, scores, l, r - 1)
  }

  function RowCompared(labels: seq<real>, l: nat, r: nat): int
    requires l < |labels| && r <= |labels|
  {
    if r <= l + 1 then 0 else RowCompared(labels, l, r - 1) + Comparable(labels, l, r - 1)
  }

  /** Credit of the pairs whose left member comes before l. */
  function TotalCredit(labels: seq<real>, scores: seq<real>, l: nat): real
    requires l <= |labels| == |scores|
  {
    if l == 0 then 0.0 else TotalCredit(labels, scores, l - 1) + RowCredit(labels, scores, l - 1, |labels|)
  }

  function TotalCompared(labels: seq<real>, l: nat): int
    requires l <= |labels|
  {
    if l == 0 then 0 else TotalCompared(labels, l - 1) + RowCompared(labels, l - 1, |labels|)
  }

  function Accuracy(labels: seq<real>, scores: seq<real>): Score {
    if |labels| != |scores| || TotalCompared(labels, |labels|) == 0 then Undefined
    else Defined(TotalCredit(labels, scores, |labels|) / TotalCompared(labels, |labels|) as real)
  }

  method PairwiseAccuracy(labels: seq<real>, scores: seq<real>) returns (r: Score)
    ensures r == Accuracy(labels, scores)
  {
    if |labels| != |scores| {
      return Undefined;
    }
    var correct, compared := 0.0, 0;
    for left := 0 to |labels|
      invariant correct == TotalCredit(labels, scores, left) && compared == TotalCompared(labels, left)
    {
      for right := left + 1 to |labels|
        invariant correct == TotalCredit(labels, scores, left) + RowCredit(labels, scores, left, right)
        invariant compared == TotalCompared(labels, left) + RowCompared(labels, left, right)
      {
        var labelDelta := labels[left] - labels[right];
        if labelDelta == 0.0 {
          continue;
        }
        compared := compared + 1;
        var scoreDelta := scores[left] - scores[right];
        if scoreDelta == 0.0 {
          correct := correct + 0.5;
        } else if (labelDelta > 0.0) == (scoreDelta > 0.0) {
          correct := correct + 1.0;
        }
      }
    }
    r := if compared != 0 then Defined(correct / compared as real) else Undefined;
  }

  lemma {:induction false} RowReversed(labels: seq<real>, scores: seq<real>, l: nat, r: nat)
    requires l < |labels| == |scores| && r <= |labels|
    ensures RowCredit(labels, scores, l, r) + RowCredit(labels, Negated(scores), l, r) ==
            RowCompared(labels, l, r) as real
    ensures 0.0 <= RowCredit(labels, scores, l, r)
  {
    if r > l + 1 {
      RowReversed(labels, scores, l, r - 1);
    }
  }

  lemma {:induction false} TotalReversed(labels: seq<real>, scores: seq<real>, l: nat)
    requires l <= |labels| == |scores|
    ensures TotalCredit(labels, scores, l) + TotalCredit(labels, Negated(scores), l) == TotalCompared(labels, l) as real
    ensures 0.0 <= TotalCredit(labels, scores, l)
  {
    if l > 0 {
      TotalReversed(labels, scores, l - 1);
      RowReversed(labels, scores, l - 1, |labels|);
    }
  }

  /** Accuracy lies in the unit interval, and reversing the scores turns an accuracy a into 1 - a. */
  lemma ReversedScoresComplement(labels: seq<real>, scores: seq<real>)
    requires Accuracy(labels, scores).Defined?
    ensures 0.0 <= Accuracy(labels, scores).value <= 1.0
    ensures Accuracy(labels, Negated(scores)) == Defined(1.0 - Accuracy(labels, scores).value)
  {
    hide TotalCredit, TotalCompared;
    var n := |labels|;
    var a, b, c := TotalCredit(labels, scores, n), TotalCredit(labels, Negated(scores), n), TotalCompared(labels, n);
    TotalReversed(labels, scores, n);
    TotalReversed(labels, Negated(scores), n);
    Complement(a, b, c as real);
  }

  /** The scores order the pair as its labels do, or the labels tie. */
  predicate OrderedAlike(labels: seq<real>, scores: seq<real>, l: nat, r: nat)
    requires l < |labels| == |scores| && r < |labels|
  {
    (labels[l] > labels[r] ==> scores[l] > scores[r]) && (labels[r] > labels[l] ==> scores[r] > scores[l])
  }

  lemma CreditIsFull(labels: seq<real>, scores: seq<real>, l: nat, r: nat)
    requires l < |labels| == |scores| && r < |labels|
    ensures 0.0 <= Credit(labels, scores, l, r) <= Comparable(labels, l, r) as real
    ensures Credit(labels, scores, l, r) == Comparable(labels, l, r) as real <==> OrderedAlike(labels, scores, l, r)
  {
  }

  lemma {:induction false} RowIsFull(labels: seq<real>, scores: seq<real>, l: nat, r: nat)
    requires l < |labels| == |scores| && r <= |labels|
    ensures RowCredit(labels, scores, l, r) <= RowCompared(labels, l, r) as real
    ensures RowCredit(labels, scores, l, r) == RowCompared(labels, l, r) as real <==>
            forall k :: l < k < r ==> OrderedAlike(labels, scores, l, k)
  {
    hide Credit, Comparable, OrderedAlike;
    if r > l + 1 {
      RowIsFull(labels, scores, l, r - 1);
      CreditIsFull(labels, scores, l, r - 1);
      assert (forall k :: l < k < r ==> OrderedAlike(labels, scores, l, k)) <==>
             (forall k :: l < k < r - 1 ==> OrderedAlike(labels, scores, l, k))
             && OrderedAlike(labels, scores, l, r - 1);
    }
  }

  lemma {:induction false} TotalIsFull(labels: seq<real>, scores: seq<real>, l: nat)
    requires l <= |labels| == |scores|
    ensures TotalCredit(labels, scores, l) <= TotalCompared(labels, l) as real
    ensures TotalCredit(labels, scores, l) == TotalCompared(labels, l) as real <==>
            forall i, k :: 0 <= i < l && i < k < |labels| ==> OrderedAlike(labels, scores, i, k)
  {
    hide OrderedAlike, RowCredit, RowCompared;
    if l > 0 {
      var p := l - 1;
      TotalIsFull(labels, scores, p);
      RowIsFull(labels, scores, p, |labels|);
      assert (forall i, k :: 0 <= i < l && i < k < |labels| ==> OrderedAlike(labels, scores, i, k)) <==>
             (forall i, k :: 0 <= i < p && i < k < |labels| ==> OrderedAlike(labels, scores, i, k))
             && (forall k :: p < k < |labels| ==> OrderedAlike(labels, scores, p, k));
    }
  }

  /** Accuracy is one exactly when the scores order every pair as the labels do. */
  lemma PerfectExactly(labels: seq<real>, scores: seq<real>)
    requires Accuracy(labels, scores).Defined?
    ensures Accuracy(labels, scores).value == 1.0 <==>
            forall i, k :: 0 <= i < |labels| && 0 <= k < |labels| && labels[i] > labels[k] ==> scores[i] > scores[k]
  {
    hide TotalCredit, TotalCompared;
    var n := |labels|;
    TotalIsFull(labels, scores, n);
    QuotientIsOne(TotalCredit(labels, scores, n), TotalCompared(labels, n) as real);
    if forall i, k :: 0 <= i < n && i < k < n ==> OrderedAlike(labels, scores, i, k) {
      forall i, k | 0 <= i < n && 0 <= k < n && labels[i] > labels[k]
        ensures scores[i] > scores[k]
      {
        assert if i < k then OrderedAlike(labels, scores, i, k) else OrderedAlike(labels, scores, k, i);
      }
    }
  }

  lemma QuotientIsOne(a: real, c: real)
    requires c != 0.0
    ensures a / c == 1.0 <==> a == c
  {
  }

  /** Reversing scores that are all alike changes no credit. */
  lemma {:induction false} TiedRow(labels: seq<real>, scores: seq<real>, l: nat, r: nat)
    requires l < |labels| == |scores| && r <= |labels|
    requires forall i, k :: 0 <= i < |scores| && 0 <= k < |scores| ==> scores[i] == scores[k]
    ensures 2.0 * RowCredit(labels, scores, l, r) == RowCompared(labels, l, r) as real
  {
    if r > l + 1 {
      TiedRow(labels, scores, l, r - 1);
    }
  }

  lemma {:induction false} TiedTotal(labels: seq<real>, scores: seq<real>, l: nat)
    requires l <= |labels| == |scores|
    requires forall i, k :: 0 <= i < |scores| && 0 <= k < |scores| ==> scores[i] == scores[k]
    ensures 2.0 * TotalCredit(labels, scores, l) == TotalCompared(labels, l) as real
  {
    if l > 0 {
      TiedTotal(labels, scores, l - 1);
      TiedRow(labels, scores, l - 1, |labels|);
    }
  }

  /** Scores that are all alike are half right. */
  lemma ConstantScoresAreHalfRight(labels: seq<real>, scores: seq<real>)
    requires Accuracy(labels, scores).Defined?
    requires forall i, k :: 0 <= i < |scores| && 0 <= k < |scores| ==> scores[i] == scores[k]
    ensures Accuracy(labels, scores).value == 0.5
  {
    hide TotalCredit, TotalCompared;
    TiedTotal(labels, scores, |labels|);
    QuotientIs(TotalCredit(labels, scores, |labels|), 0.5, TotalCompared(labels, |labels|) as real);
  }

  /** There is an accuracy exactly when each item has its score and some two labels differ. */
  lemma DefinedExactly(labels: seq<real>, scores: seq<real>)
    ensures Accuracy(labels, scores).Defined? <==>
            && |labels| == |scores|
            && exists i, k :: 0 <= i < k < |labels| && labels[i] != labels[k]
  {
    hide TotalCompared;
    ComparedSome(labels, |labels|);
    assert (exists i, k :: 0 <= i < |labels| && i < k < |labels| && labels[i] != labels[k]) <==>
           (exists i, k :: 0 <= i < k < |labels| && labels[i] != labels[k]);
  }

  lemma {:induction false} RowComparedSome(labels: seq<real>, l: nat, r: nat)
    requires l < |labels| && r <= |labels|
    ensures RowCompared(labels, l, r) >= 0
    ensures RowCompared(labels, l, r) > 0 <==> exists k :: l < k < r && labels[l] != labels[k]
  {
    if r > l + 1 {
      RowComparedSome(labels, l, r - 1);
    }
  }

  lemma {:induction false} ComparedSome(labels: seq<real>, l: nat)
    requires l <= |labels|
    ensures TotalCompared(labels, l) >= 0
    ensures TotalCompared(labels, l) > 0 <==> exists i, k :: 0 <= i < l && i < k < |labels| && labels[i] != labels[k]
  {
    hide RowCompared;
    if l > 0 {
      ComparedSome(labels, l - 1);
      RowComparedSome(labels, l - 1, |labels|);
    }
  }

  lemma QuotientIs(a: real, x: real, c: real)
    requires c != 0.0 && a == x * c
    ensures a / c == x
  {
  }

  lemma Complement(a: real, b: real, c: real)
    requires a + b == c && 0.0 <= a && 0.0 <= b && c != 0.0
    ensures 0.0 <= a / c <= 1.0 && b / c == 1.0 - a / c
  {
    UnitQuotient(a, c);
    var x := a / c;
    QuotientIs(b, 1.0 - x, c);
  }

  // ----- interpolated percentiles

  function Ceiling(x: real): int {
    -(-x).Floor
  }

  /** The interpolated percentile of sorted values; none of no values counts as zero. */
  function Percentile(sorted: seq<real>, quantile: real): real
    requires 0.0 <= quantile <= 1.0
  {
    if sorted == [] then 0.0
    else
      PositionInRange(|sorted|, quantile);
      AtPosition(sorted, Position(|sorted|, quantile))
  }

  /** Where a quantile falls among n sorted values. */
  function Position(n: nat, quantile: real): real {
    quantile * (n - 1) as real
  }

  /** Linear interpolation between the neighbours of a position. */
  function AtPosition(sorted: seq<real>, position: real): real
    requires sorted != [] && 0.0 <= position <= (|sorted| - 1) as real
  {
    var lower, upper := position.Floor, Ceiling(position);
    if lower == upper then sorted[lower]
    else
      var weight := position - lower as real;
      sorted[lower] * (1.0 - weight) + sorted[upper] * weight
  }

  lemma PositionInRange(n: nat, quantile: real)
    requires n > 0 && 0.0 <= quantile <= 1.0
    ensures 0.0 <= Position(n, quantile) <= (n - 1) as real
  {
    var m := (n - 1) as real;
    assert 0.0 <= m;
    Scaled(quantile, m);
  }

  lemma Scaled(q: real, m: real)
    requires 0.0 <= q <= 1.0 && 0.0 <= m
    ensures 0.0 <= q * m <= m
  {
    assert (1.0 - q) * m >= 0.0;
  }

  ghost predicate Ascending(s: seq<real>) {
    forall i, j :: 0 <= i <= j < |s| ==> s[i] <= s[j]
  }

  lemma Interpolates(a: real, b: real, w: real)
    requires a <= b && 0.0 <= w <= 1.0
    ensures a <= a * (1.0 - w) + b * w <= b
  {
    assert a * (1.0 - w) + b * w == a + (b - a) * w;
    assert (b - a) * w <= (b - a) * 1.0;
  }

  lemma InterpolationGrows(a: real, b: real, v: real, w: real)
    requires a <= b && v <= w
    ensures a * (1.0 - v) + b * v <= a * (1.0 - w) + b * w
  {
    assert a * (1.0 - v) + b * v == a + (b - a) * v;
    assert a * (1.0 - w) + b * w == a + (b - a) * w;
    assert (b - a) * v <= (b - a) * w;
  }

  /** A percentile lies between its neighbours. */
  lemma BetweenNeighbours(sorted: seq<real>, position: real)
    requires sorted != [] && Ascending(sorted) && 0.0 <= position <= (|sorted| - 1) as real
    ensures sorted[position.Floor] <= AtPosition(sorted, position) <= sorted[Ceiling(position)]
  {
    var lower, upper := position.Floor, Ceiling(position);
    if lower != upper {
      Interpolates(sorted[lower], sorted[upper], position - lower as real);
    }
  }

  lemma MonotoneInPosition(sorted: seq<real>, p1: real, p2: real)
    requires sorted != [] && Ascending(sorted) && 0.0 <= p1 <= p2 <= (|sorted| - 1) as real
    ensures AtPosition(sorted, p1) <= AtPosition(sorted, p2)
  {
    if p1.Floor == p2.Floor && p1 != p1.Floor as real {
      assert Ceiling(p1) == Ceiling(p2);
      InterpolationGrows(sorted[p1.Floor], sorted[Ceiling(p1)], p1 - p1.Floor as real, p2 - p2.Floor as real);
    } else {
      hide AtPosition;
      BetweenNeighbours(sorted, p1);
      BetweenNeighbours(sorted, p2);
      assert p1 != p2 ==> Ceiling(p1) <= p2.Floor;
    }
  }

  lemma PositionGrows(n: nat, q1: real, q2: real)
    requires n > 0 && q1 <= q2
    ensures Position(n, q1) <= Position(n, q2)
  {
  }

  /** Percentiles never decrease with the quantile and never leave the range of the data. */
  lemma PercentileIsMonotone(sorted: seq<real>, q1: real, q2: real)
    requires sorted != [] && Ascending(sorted) && 0.0 <= q1 <= q2 <= 1.0
    ensures sorted[0] <= Percentile(sorted, q1) <= Percentile(sorted, q2) <= sorted[|sorted| - 1]
  {
    hide AtPosition, Position;
    var p1, p2 := Position(|sorted|, q1), Position(|sorted|, q2);
    PositionInRange(|sorted|, q1);
    PositionInRange(|sorted|, q2);
    PositionGrows(|sorted|, q1, q2);
    MonotoneInPosition(sorted, p1, p2);
    BetweenNeighbours(sorted, p1);
    BetweenNeighbours(sorted, p2);
  }

  /** A percentile is the data where it falls on the data, and runs straight between neighbours. */
  lemma InterpolatesExactly(sorted: seq<real>, i: nat, w: real)
    requires i < |sorted| && 0.0 <= w <= 1.0 && (w > 0.0 ==> i + 1 < |sorted|)
    ensures AtPosition(sorted, i as real + w) == sorted[i] + if w > 0.0 then w * (sorted[i + 1] - sorted[i]) else 0.0
  {
    var position := i as real + w;
    if 0.0 < w < 1.0 {
      assert position.Floor == i && Ceiling(position) == i + 1;
      var a, b := sorted[i], sorted[i + 1];
      assert a * (1.0 - w) + b * w == a + w * (b - a);
    } else if w == 1.0 {
      assert position.Floor == i + 1 && Ceiling(position) == i + 1;
    } else {
      assert position.Floor == i && Ceiling(position) == i;
    }
  }

  /** The i-th of n values, counted from nought, is the quantile i / (n - 1). */
  lemma QuantileOfPosition(sorted: seq<real>, i: nat)
    requires 1 < |sorted| && i < |sorted|
    ensures 0.0 <= i as real / (|sorted| - 1) as real <= 1.0
    ensures Percentile(sorted, i as real / (|sorted| - 1) as real) == sorted[i]
  {
    var n := (|sorted| - 1) as real;
    var quantile := i as real / n;
    UnitQuotient(i as real, n);
    PositionInRange(|sorted|, quantile);
    assert Position(|sorted|, quantile) == i as real by {
      QuotientIs(i as real, quantile, n);
    }
    hide AtPosition, Position;
    InterpolatesExactly(sorted, i, 0.0);
  }

  /** The median is the middle value, or the mean of the middle two. */
  lemma MedianIsMiddle(sorted: seq<real>)
    requires sorted != []
    ensures var m := |sorted| / 2;
            Percentile(sorted, 0.5) == if |sorted| % 2 == 1 then sorted[m] else (sorted[m - 1] + sorted[m]) / 2.0
  {
    var n, m := |sorted|, |sorted| / 2;
    PositionInRange(n, 0.5);
    if n % 2 == 1 {
      assert n == 2 * m + 1 && Position(n, 0.5) == m as real;
      InterpolatesExactly(sorted, m, 0.0);
    } else {
      assert n == 2 * m && Position(n, 0.5) == (m - 1) as real + 0.5;
      InterpolatesExactly(sorted, m - 1, 0.5);
    }
  }
}
