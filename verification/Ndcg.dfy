/** Normalized discounted cumulative gain. The gain of a label and the weight of a position are any functions with
    the few properties the bound needs; the program's are 2^label - 1 and 1 / log2(position + 2).
 */
module Ndcg {
  import opened Collections
  import opened Ranking

  /** Nothing is gained at zero, and more by a larger label. */
  ghost predicate IsGain(gain: real -> real) {
    gain(0.0) == 0.0 && forall x, y :: x < y ==> gain(x) < gain(y)
  }

  /** Positive, and never larger further down. */
  ghost predicate IsWeight(weight: nat -> real) {
    forall i: nat {:trigger weight(i)} ::
      weight(i) > 0.0 && forall j: nat {:trigger weight(j)} :: j <= i ==> weight(i) <= weight(j)
  }

  datatype Item = Item(index: nat, score: real, grade: real)

  function Items(labels: seq<real>, scores: seq<real>): seq<Item>
    requires |labels| == |scores|
  {
    seq(|labels|, i requires 0 <= i < |labels| => Item(i, scores[i], labels[i]))
  }

  /** Higher scores first, earlier positions first among ties. */
  function ByScore(): (Item, Item) -> bool {
    (p: Item, q: Item) => p.score > q.score || (p.score == q.score && p.index < q.index)
  }

  function Descending(): (real, real) -> bool {
    (x, y) => x > y
  }

  function LabelOf(): Item -> real {
    (p: Item) => p.grade
  }

  /** The labels in score order. */
  function Ranked(labels: seq<real>, scores: seq<real>): seq<real>
    requires |labels| == |scores|
  {
    Map(Sort(Items(labels, scores), ByScore()), LabelOf())
  }

  function Ideal(labels: seq<real>): seq<real> {
    Sort(labels, Descending())
  }

  function DiscountedGain(labels: seq<real>, gain: real -> real, weight: nat -> real): real {
    if labels == [] then 0.0
    else
      var n := |labels| - 1;
      DiscountedGain(labels[..n], gain, weight) + gain(labels[n]) * weight(n)
  }

  function NdcgAtK(labels: seq<real>, scores: seq<real>, k: int, gain: real -> real, weight: nat -> real): Score {
    if |labels| != |scores| || labels == [] || k <= 0 then Undefined
    else
      var limit := if k < |labels| then k else |labels|;
      SortPermutes(Items(labels, scores), ByScore());
      SortPermutes(labels, Descending());
      var ideal := DiscountedGain(Ideal(labels)[..limit], gain, weight);
      if ideal == 0.0 then Undefined
      else Defined(DiscountedGain(Ranked(labels, scores)[..limit], gain, weight) / ideal)
  }

  // ----- sums of gains

  function GainSum(labels: seq<real>, gain: real -> real): real {
    if labels == [] then 0.0 else GainSum(labels[..|labels| - 1], gain) + gain(labels[|labels| - 1])
  }

  lemma {:induction false} GainSumConcat(a: seq<real>, b: seq<real>, gain: real -> real)
    ensures GainSum(a + b, gain) == GainSum(a, gain) + GainSum(b, gain)
  {
    if b == [] {
      assert a + b == a;
    } else {
      assert (a + b)[..|a + b| - 1] == a + b[..|b| - 1];
      GainSumConcat(a, b[..|b| - 1], gain);
    }
  }

  lemma GainSumWithout(b1: seq<real>, x: real, b2: seq<real>, gain: real -> real)
    ensures GainSum(b1 + [x] + b2, gain) == GainSum(b1 + b2, gain) + gain(x)
  {
    GainSumConcat(b1 + [x], b2, gain);
    GainSumConcat(b1, [x], gain);
    GainSumConcat(b1, b2, gain);
    assert GainSum([x], gain) == GainSum([], gain) + gain(x);
  }

  lemma WithoutHead(r: multiset<real>, s: seq<real>)
    requires s != [] && r <= multiset(s)
    ensures s[0] !in r ==> r <= multiset(s[1..])
    ensures s[0] in r ==> r - multiset{s[0]} <= multiset(s[1..])
  {
    assert s == [s[0]] + s[1..];
  }

  /** Any r picks out of s one element that gains no more than the head of s, and leaves picks out of the tail. */
  lemma TakeOne(r: seq<real>, s: seq<real>, gain: real -> real) returns (x: real, rest: seq<real>)
    requires IsGain(gain) && Sorted(s, Descending()) && r != [] && s != [] && multiset(r) <= multiset(s)
    ensures |rest| == |r| - 1 && multiset(rest) <= multiset(s[1..])
    ensures GainSum(r, gain) == GainSum(rest, gain) + gain(x) && gain(x) <= gain(s[0])
  {
    WithoutHead(multiset(r), s);
    x := if s[0] in multiset(r) then s[0] else r[0];
    assert x in r;
    var b1, b2 := PickOut(r, x);
    rest := b1 + b2;
    GainSumWithout(b1, x, b2, gain);
    assert multiset(rest) == multiset(r) - multiset{x};
    if x != s[0] {
      assert x in multiset(s);
      var j :| 0 <= j < |s| && s[j] == x;
      assert !Descending()(s[j], s[0]);
    }
  }

  /** No choice of elements gains more than as many from the top. */
  lemma {:induction false} TopGainsMost(r: seq<real>, s: seq<real>, gain: real -> real)
    requires IsGain(gain) && Sorted(s, Descending()) && multiset(r) <= multiset(s)
    ensures |r| <= |s| && GainSum(r, gain) <= GainSum(s[..|r|], gain)
    decreases |s|
  {
    if r != [] {
      assert r[0] in multiset(s);
      assert |s| > 0;
      var x, rest := TakeOne(r, s, gain);
      TopGainsMost(rest, s[1..], gain);
      assert s[..|r|] == [s[0]] + s[1..][..|rest|];
      GainSumConcat([s[0]], s[1..][..|rest|], gain);
      assert GainSum([s[0]], gain) == GainSum([], gain) + gain(s[0]);
    }
  }

  lemma LastTerm(r: seq<real>, gain: real -> real, weight: nat -> real)
    requires r != []
    ensures var n := |r| - 1;
            && DiscountedGain(r, gain, weight) == DiscountedGain(r[..n], gain, weight) + gain(r[n]) * weight(n)
            && GainSum(r, gain) == GainSum(r[..n], gain) + gain(r[n])
  {
  }

  lemma PrefixOfPrefix(r: seq<real>, s: seq<real>, n: nat, gain: real -> real)
    requires n <= |r| == |s| && forall j :: 0 <= j <= |r| ==> GainSum(r[..j], gain) <= GainSum(s[..j], gain)
    ensures forall j :: 0 <= j <= n ==> GainSum(r[..n][..j], gain) <= GainSum(s[..n][..j], gain)
    ensures GainSum(r, gain) <= GainSum(s, gain)
  {
    hide GainSum;
    assert r[..|r|] == r && s[..|s|] == s;
    forall j | 0 <= j <= n
      ensures GainSum(r[..n][..j], gain) <= GainSum(s[..n][..j], gain)
    {
      assert r[..n][..j] == r[..j] && s[..n][..j] == s[..j];
    }
  }

  lemma Decreasing(weight: nat -> real, i: nat, j: nat)
    requires IsWeight(weight) && j <= i
    ensures 0.0 < weight(i) <= weight(j)
  {
  }

  /** How far one list's discounted gain is ahead of another's. */
  function Lead(r: seq<real>, s: seq<real>, gain: real -> real, weight: nat -> real): real {
    DiscountedGain(s, gain, weight) - DiscountedGain(r, gain, weight)
  }

  function SumLead(r: seq<real>, s: seq<real>, gain: real -> real): real {
    GainSum(s, gain) - GainSum(r, gain)
  }

  lemma LeadStep(r: seq<real>, s: seq<real>, gain: real -> real, weight: nat -> real)
    requires |r| == |s| && r != []
    ensures var n := |r| - 1;
            && Lead(r, s, gain, weight) == Lead(r[..n], s[..n], gain, weight)
               + gain(s[n]) * weight(n) - gain(r[n]) * weight(n)
            && SumLead(r, s, gain) == SumLead(r[..n], s[..n], gain) + gain(s[n]) - gain(r[n])
  {
    hide DiscountedGain, GainSum;
    LastTerm(r, gain, weight);
    LastTerm(s, gain, weight);
  }

  /** Summation by parts: a list whose every prefix gains no more also gains no more discounted. */
  lemma {:induction false} PrefixesDecide(r: seq<real>, s: seq<real>, gain: real -> real, weight: nat -> real)
    requires IsWeight(weight) && |r| == |s|
    requires forall j :: 0 <= j <= |r| ==> GainSum(r[..j], gain) <= GainSum(s[..j], gain)
    ensures 0.0 <= Lead(r, s, gain, weight)
    ensures r != [] ==> Lead(r, s, gain, weight) >= SumLead(r, s, gain) * weight(|r| - 1)
  {
    if r == [] {
      assert s == [];
    } else {
      var n := |r| - 1;
      PrefixOfPrefix(r, s, n, gain);
      PrefixesDecide(r[..n], s[..n], gain, weight);
      PrefixOfPrefix(r[..n], s[..n], 0, gain);
      assert n == 0 ==> SumLead(r[..n], s[..n], gain) == 0.0;
      assert 0.0 <= SumLead(r[..n], s[..n], gain) && 0.0 <= SumLead(r, s, gain);
      hide Lead, SumLead, GainSum;
      LeadStep(r, s, gain, weight);
      var w := if n > 0 then weight(n - 1) else weight(n);
      Decreasing(weight, n, if n > 0 then n - 1 else n);
      hide IsWeight;
      AbelStep(SumLead(r[..n], s[..n], gain), Lead(r[..n], s[..n], gain, weight), gain(r[n]), gain(s[n]), w, weight(n));
    }
  }

  lemma AbelStep(before: real, lead: real, x: real, y: real, w: real, v: real)
    requires 0.0 <= before && lead >= before * w && 0.0 < v <= w && 0.0 <= before + y - x
    ensures lead + y * v - x * v >= (before + y - x) * v
    ensures lead + y * v - x * v >= 0.0
  {
    assert before * w >= before * v;
    assert (before + y - x) * v == before * v + y * v - x * v;
    assert (before + y - x) * v >= 0.0;
  }

  // ----- the bound

  lemma PrefixIsChosen<T>(s: seq<T>, j: nat)
    requires j <= |s|
    ensures multiset(s[..j]) <= multiset(s)
  {
    assert s == s[..j] + s[j..];
  }

  /** The ideal list gains the most of all choices of labels in any order. */
  lemma IdealIsBest(labels: seq<real>, chosen: seq<real>, gain: real -> real, weight: nat -> real)
    requires IsGain(gain) && IsWeight(weight) && multiset(chosen) <= multiset(labels)
    ensures |chosen| <= |Ideal(labels)|
    ensures DiscountedGain(chosen, gain, weight) <= DiscountedGain(Ideal(labels)[..|chosen|], gain, weight)
  {
    hide IsWeight, IsGain, Sort;
    SortPermutes(labels, Descending());
    SortSorts(labels, Descending());
    var ideal := Ideal(labels);
    TopGainsMost(chosen, ideal, gain);
    forall j | 0 <= j <= |chosen|
      ensures GainSum(chosen[..j], gain) <= GainSum(ideal[..|chosen|][..j], gain)
    {
      PrefixIsChosen(chosen, j);
      TopGainsMost(chosen[..j], ideal, gain);
      assert ideal[..|chosen|][..j] == ideal[..j];
    }
    PrefixesDecide(chosen, ideal[..|chosen|], gain, weight);
  }

  lemma {:induction false} GainIsNonNegative(labels: seq<real>, gain: real -> real, weight: nat -> real)
    requires IsGain(gain) && IsWeight(weight) && forall i :: 0 <= i < |labels| ==> 0.0 <= labels[i]
    ensures 0.0 <= DiscountedGain(labels, gain, weight)
    ensures (exists i :: 0 <= i < |labels| && labels[i] > 0.0) ==> 0.0 < DiscountedGain(labels, gain, weight)
    ensures (forall i :: 0 <= i < |labels| ==> labels[i] == 0.0) ==> DiscountedGain(labels, gain, weight) == 0.0
  {
    if labels != [] {
      var n := |labels| - 1;
      GainIsNonNegative(labels[..n], gain, weight);
      assert forall i :: 0 <= i < n ==> labels[..n][i] == labels[i];
      assert weight(n) > 0.0;
      assert labels[n] > 0.0 ==> gain(labels[n]) > gain(0.0);
      Product(gain(labels[n]), weight(n));
    }
  }

  lemma Product(x: real, w: real)
    requires w > 0.0
    ensures x > 0.0 ==> x * w > 0.0
    ensures x == 0.0 ==> x * w == 0.0
  {
  }

  lemma RankedPermutes(labels: seq<real>, scores: seq<real>)
    requires |labels| == |scores|
    ensures multiset(Ranked(labels, scores)) == multiset(labels) && |Ranked(labels, scores)| == |labels|
  {
    SortPermutes(Items(labels, scores), ByScore());
    MapPermutes(Sort(Items(labels, scores), ByScore()), Items(labels, scores), LabelOf());
    assert Map(Items(labels, scores), LabelOf()) == labels;
  }

  /** For non-negative labels and any scores a defined result lies in [0, 1]; it is undefined only for mismatched or
      empty input, a non-positive cutoff, or when every label is zero. */
  lemma NdcgNeverExceedsOne(labels: seq<real>, scores: seq<real>, k: int, gain: real -> real, weight: nat -> real)
    requires IsGain(gain) && IsWeight(weight) && forall i :: 0 <= i < |labels| ==> 0.0 <= labels[i]
    ensures NdcgAtK(labels, scores, k, gain, weight).Defined? <==>
            |labels| == |scores| && k > 0 && exists i :: 0 <= i < |labels| && labels[i] > 0.0
    ensures NdcgAtK(labels, scores, k, gain, weight).Defined? ==>
              0.0 <= NdcgAtK(labels, scores, k, gain, weight).value <= 1.0
  {
    if |labels| == |scores| && labels != [] && k > 0 {
      var limit := if k < |labels| then k else |labels|;
      hide Sort, DiscountedGain, IsWeight, IsGain;
      RankedPermutes(labels, scores);
      SortPermutes(labels, Descending());
      IdealTop(labels, limit);
      var chosen, ideal := Ranked(labels, scores)[..limit], Ideal(labels)[..limit];
      PrefixIsChosen(Ranked(labels, scores), limit);
      MembersNonNegative(chosen, labels);
      PrefixIsChosen(Ideal(labels), limit);
      MembersNonNegative(ideal, labels);
      IdealIsBest(labels, chosen, gain, weight);
      GainIsNonNegative(chosen, gain, weight);
      GainIsNonNegative(ideal, gain, weight);
      if DiscountedGain(ideal, gain, weight) != 0.0 {
        UnitQuotient(DiscountedGain(chosen, gain, weight), DiscountedGain(ideal, gain, weight));
      }
    }
  }

  lemma MembersNonNegative(chosen: seq<real>, labels: seq<real>)
    requires multiset(chosen) <= multiset(labels) && forall i :: 0 <= i < |labels| ==> 0.0 <= labels[i]
    ensures forall i :: 0 <= i < |chosen| ==> 0.0 <= chosen[i]
  {
    forall i | 0 <= i < |chosen|
      ensures 0.0 <= chosen[i]
    {
      assert chosen[i] in multiset(chosen);
      assert chosen[i] in multiset(labels);
    }
  }

  /** The top of the ideal list holds a positive label exactly when there is one. */
  lemma IdealTop(labels: seq<real>, limit: nat)
    requires 0 < limit <= |labels| && forall i :: 0 <= i < |labels| ==> 0.0 <= labels[i]
    ensures limit <= |Ideal(labels)|
    ensures (exists i :: 0 <= i < |labels| && labels[i] > 0.0) <==>
            (exists i :: 0 <= i < |Ideal(labels)[..limit]| && Ideal(labels)[..limit][i] > 0.0)
    ensures !(exists i :: 0 <= i < |labels| && labels[i] > 0.0) ==>
              forall i :: 0 <= i < limit ==> Ideal(labels)[..limit][i] == 0.0
  {
    hide Sort;
    SortPermutes(labels, Descending());
    SortSorts(labels, Descending());
    SameMembers(Ideal(labels), labels);
    var ideal := Ideal(labels);
    if i :| 0 <= i < |labels| && labels[i] > 0.0 {
      assert labels[i] in ideal;
      var j :| 0 <= j < |ideal| && ideal[j] == labels[i];
      assert j > 0 ==> !Descending()(ideal[j], ideal[0]);
      assert ideal[..limit][0] > 0.0;
    } else {
      forall i | 0 <= i < limit
        ensures ideal[..limit][i] == 0.0
      {
        assert ideal[i] in labels;
      }
    }
  }

  /** Scores that put every larger label ahead of every smaller one reach the ideal. */
  lemma AgreementIsIdeal(labels: seq<real>, scores: seq<real>, k: int, gain: real -> real, weight: nat -> real)
    requires |labels| == |scores|
    requires forall i, j :: 0 <= i < |labels| && 0 <= j < |labels| && labels[i] > labels[j] ==> scores[i] > scores[j]
    ensures Ranked(labels, scores) == Ideal(labels)
    ensures NdcgAtK(labels, scores, k, gain, weight).Defined? ==> NdcgAtK(labels, scores, k, gain, weight).value == 1.0
  {
    hide Sort, DiscountedGain;
    var items := Items(labels, scores);
    var sorted := Sort(items, ByScore());
    SortPermutes(items, ByScore());
    SameMembers(sorted, items);
    ByScoreIsOrder();
    SortSorts(items, ByScore());
    var ranked := Ranked(labels, scores);
    forall i, j | 0 <= i < j < |ranked|
      ensures !Descending()(ranked[j], ranked[i])
    {
      assert !ByScore()(sorted[j], sorted[i]);
      assert sorted[i] in items && sorted[j] in items;
    }
    RankedPermutes(labels, scores);
    SortPermutes(labels, Descending());
    SortSorts(labels, Descending());
    SortedIsUnique(ranked, Ideal(labels), Descending());
  }

  // ----- what the cutoff cuts

  /** Only the first k labels in score order and the k largest labels count: two inputs that share both, whatever lies
      beyond, have the same value. */
  lemma CutoffDecides(a: seq<real>, s: seq<real>, b: seq<real>, u: seq<real>, k: nat, gain: real -> real,
                      weight: nat -> real)
    requires |a| == |s| >= k > 0 && |b| == |u| >= k
    requires |Ranked(a, s)| == |a| && |Ranked(b, u)| == |b| && |Ideal(a)| == |a| && |Ideal(b)| == |b|
    requires Ranked(a, s)[..k] == Ranked(b, u)[..k] && Ideal(a)[..k] == Ideal(b)[..k]
    ensures NdcgAtK(a, s, k, gain, weight) == NdcgAtK(b, u, k, gain, weight)
  {
    hide Sort, DiscountedGain;
  }

  /** A cutoff at or past the end cuts nothing. */
  lemma WholeListCutsNothing(labels: seq<real>, scores: seq<real>, k: nat, gain: real -> real, weight: nat -> real)
    requires |labels| == |scores| && k >= |labels| > 0
    ensures NdcgAtK(labels, scores, k, gain, weight) == NdcgAtK(labels, scores, |labels|, gain, weight)
    ensures NdcgAtK(labels, scores, k, gain, weight).Defined? ==>
              NdcgAtK(labels, scores, k, gain, weight).value * DiscountedGain(Ideal(labels), gain, weight) ==
              DiscountedGain(Ranked(labels, scores), gain, weight)
  {
    SortPermutes(labels, Descending());
    RankedPermutes(labels, scores);
    hide Sort, DiscountedGain, Ideal, Ranked;
    assert Ideal(labels)[..|labels|] == Ideal(labels) && Ranked(labels, scores)[..|labels|] == Ranked(labels, scores);
  }

  /** When the k highest-scored items are all worth nothing, although some item is worth something, the value is 0. */
  lemma NothingOnTop(labels: seq<real>, scores: seq<real>, k: nat, gain: real -> real, weight: nat -> real)
    requires IsGain(gain) && IsWeight(weight) && |labels| == |scores| && k > 0
    requires (forall i :: 0 <= i < |labels| ==> 0.0 <= labels[i]) && exists i :: 0 <= i < |labels| && labels[i] > 0.0
    requires forall j :: 0 <= j < k && j < |Ranked(labels, scores)| ==> Ranked(labels, scores)[j] == 0.0
    ensures NdcgAtK(labels, scores, k, gain, weight) == Defined(0.0)
  {
    NdcgNeverExceedsOne(labels, scores, k, gain, weight);
    RankedPermutes(labels, scores);
    var limit := if k < |labels| then k else |labels|;
    GainIsNonNegative(Ranked(labels, scores)[..limit], gain, weight);
    hide Sort, DiscountedGain, IsWeight, IsGain, Ranked, Ideal;
  }

  /** The item on top alone decides at a cutoff of one. */
  lemma TopOneDecides(labels: seq<real>, scores: seq<real>, gain: real -> real, weight: nat -> real)
    requires |labels| == |scores| > 0 && NdcgAtK(labels, scores, 1, gain, weight).Defined? && weight(0) > 0.0
    ensures |Ranked(labels, scores)| == |labels| == |Ideal(labels)|
    ensures NdcgAtK(labels, scores, 1, gain, weight).value * gain(Ideal(labels)[0]) == gain(Ranked(labels, scores)[0])
  {
    RankedPermutes(labels, scores);
    SortPermutes(labels, Descending());
    hide Sort, Ranked, Ideal;
    OneTerm(Ranked(labels, scores), gain, weight);
    OneTerm(Ideal(labels), gain, weight);
    hide DiscountedGain;
    var x, y, w := gain(Ranked(labels, scores)[0]), gain(Ideal(labels)[0]), weight(0);
    CancelWeight(x, y, w);
  }

  lemma OneTerm(s: seq<real>, gain: real -> real, weight: nat -> real)
    requires s != []
    ensures DiscountedGain(s[..1], gain, weight) == gain(s[0]) * weight(0)
  {
    assert s[..1] == [s[0]] && s[..1][..0] == [];
  }

  lemma CancelWeight(x: real, y: real, w: real)
    requires w > 0.0 && y * w != 0.0
    ensures (x * w) / (y * w) * y == x
  {
    var v := (x * w) / (y * w);
    assert v * (y * w) == x * w;
    assert (v * y - x) * w == 0.0;
  }

  // ----- what the discount weighs

  /** The list with two of its places exchanged. */
  function Swapped(s: seq<real>, i: nat, j: nat): seq<real>
    requires i < |s| && j < |s|
  {
    s[i := s[j]][j := s[i]]
  }

  lemma {:induction false} GainOfUpdate(s: seq<real>, i: nat, x: real, gain: real -> real, weight: nat -> real)
    requires i < |s|
    ensures DiscountedGain(s[i := x], gain, weight) ==
            DiscountedGain(s, gain, weight) + gain(x) * weight(i) - gain(s[i]) * weight(i)
  {
    var n := |s| - 1;
    if i < n {
      assert s[i := x][..n] == s[..n][i := x];
      GainOfUpdate(s[..n], i, x, gain, weight);
    } else {
      assert s[i := x][..n] == s[..n];
    }
  }

  /** Exchanging two places changes the discounted gain by the difference of the gains times the difference of the
      weights: a better item gains by standing where the weight is greater, by exactly that much. */
  lemma ExchangeGains(s: seq<real>, i: nat, j: nat, gain: real -> real, weight: nat -> real)
    requires i < j < |s|
    ensures DiscountedGain(Swapped(s, i, j), gain, weight) ==
            DiscountedGain(s, gain, weight) + (gain(s[j]) - gain(s[i])) * (weight(i) - weight(j))
  {
    hide DiscountedGain;
    GainOfUpdate(s, i, s[j], gain, weight);
    GainOfUpdate(s[i := s[j]], j, s[i], gain, weight);
    Exchanged(gain(s[i]), gain(s[j]), weight(i), weight(j));
  }

  lemma Exchanged(x: real, y: real, v: real, w: real)
    ensures y * v - x * v + x * w - y * w == (y - x) * (v - w)
  {
  }

  lemma ByScoreIsOrder()
    ensures StrictWeakOrder(ByScore())
  {
  }

  /** What ranking is: each item once, with its own label; higher scores first, and the earlier of two equal ones. */
  lemma RankedExactly(labels: seq<real>, scores: seq<real>) returns (order: seq<nat>)
    requires |labels| == |scores|
    ensures |order| == |labels| == |Ranked(labels, scores)|
    ensures forall i :: 0 <= i < |order| ==> order[i] < |labels| && Ranked(labels, scores)[i] == labels[order[i]]
    ensures forall i, j :: 0 <= i < j < |order| ==> RanksBefore(scores, order[i], order[j])
  {
    var items := Items(labels, scores);
    var s := Sort(items, ByScore());
    SortPermutes(items, ByScore());
    ByScoreIsOrder();
    SortSorts(items, ByScore());
    DistinctPermutes(items, s);
    SameMembers(items, s);
    hide Sort, StrictWeakOrder;
    order := seq(|s|, i requires 0 <= i < |s| => s[i].index);
    forall i | 0 <= i < |s|
      ensures 0 <= s[i].index < |labels| && s[i] == items[s[i].index]
    {
      assert s[i] in items;
    }
    forall i, j | 0 <= i < j < |s|
      ensures RanksBefore(scores, order[i], order[j])
    {
      assert !ByScore()(s[j], s[i]) && s[i] != s[j];
    }
  }

  predicate RanksBefore(scores: seq<real>, i: nat, j: nat) {
    i < |scores| && j < |scores| && (scores[i] > scores[j] || (scores[i] == scores[j] && i < j))
  }
}
