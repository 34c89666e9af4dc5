/** The privacy-safe summary of a set of fit scores. */
module Distribution {
  import opened Collections
  import opened Ranking

  datatype Summary = Summary(
    scored: nat, minimum: real, maximum: real, mean: real, median: real,
    p10: real, p25: real, p75: real, p90: real, p95: real,
    equal100: nat, percentEqual100: real, atLeast95: nat, atLeast90: nat, from80: nat, from70: nat, below70: nat,
    distinct: nat)

  const EMPTY := Summary(0, 0.0, 0.0, 0.0, 0.0, 0.0, 0.0, 0.0, 0.0, 0.0, 0, 0.0, 0, 0, 0, 0, 0, 0)

  function Range(lo: real, hi: real): real -> bool { v => lo <= v < hi }

  function AtLeast(lo: real): real -> bool { v => v >= lo }

  function Ascends(): (real, real) -> bool { (x, y) => x < y }

  function Total(s: seq<real>): real {
    if s == [] then 0.0 else Total(s[..|s| - 1]) + s[|s| - 1]
  }

  /** How many scores fall in each band. */
  datatype Counts = Counts(equal100: nat, atLeast95: nat, atLeast90: nat, from80: nat, from70: nat, below70: nat)

  function CountsOf(s: seq<real>): Counts {
    Counts(|Filter(s, EqualTo(100.0))|, |Filter(s, AtLeast(95.0))|, |Filter(s, AtLeast(90.0))|,
           |Filter(s, Range(80.0, 90.0))|, |Filter(s, Range(70.0, 80.0))|, |Filter(s, LessThan(70.0))|)
  }

  function Counted(c: Counts, score: real): Counts {
    Counts(c.equal100 + (if score == 100.0 then 1 else 0), c.atLeast95 + (if score >= 95.0 then 1 else 0),
           c.atLeast90 + (if score >= 90.0 then 1 else 0), c.from80 + (if 80.0 <= score < 90.0 then 1 else 0),
           c.from70 + (if 70.0 <= score < 80.0 then 1 else 0), c.below70 + (if score < 70.0 then 1 else 0))
  }

  lemma CountsSnoc(s: seq<real>, v: real)
    ensures CountsOf(s + [v]) == Counted(CountsOf(s), v)
  {
    hide Filter;
    FilterSnoc(s, v, EqualTo(100.0));
    FilterSnoc(s, v, AtLeast(95.0));
    FilterSnoc(s, v, AtLeast(90.0));
    FilterSnoc(s, v, Range(80.0, 90.0));
    FilterSnoc(s, v, Range(70.0, 80.0));
    FilterSnoc(s, v, LessThan(70.0));
  }

  lemma CountsPermute(a: seq<real>, b: seq<real>)
    requires multiset(a) == multiset(b)
    ensures CountsOf(a) == CountsOf(b)
  {
    hide Filter;
    FilterPermutes(a, b, EqualTo(100.0));
    FilterPermutes(a, b, AtLeast(95.0));
    FilterPermutes(a, b, AtLeast(90.0));
    FilterPermutes(a, b, Range(80.0, 90.0));
    FilterPermutes(a, b, Range(70.0, 80.0));
    FilterPermutes(a, b, LessThan(70.0));
  }

  /** The bands below and from 90 split the scores without gap or overlap, and the top counts are nested. */
  lemma {:induction false} BandsSplitScores(s: seq<real>)
    ensures var c := CountsOf(s);
            c.below70 + c.from70 + c.from80 + c.atLeast90 == |s| && c.equal100 <= c.atLeast95 <= c.atLeast90
  {
    if s != [] {
      var n := |s| - 1;
      BandsSplitScores(s[..n]);
      assert s == s[..n] + [s[n]];
      CountsSnoc(s[..n], s[n]);
    }
  }

  lemma {:induction false} TotalInRange(s: seq<real>, lo: real, hi: real)
    requires forall i :: 0 <= i < |s| ==> lo <= s[i] <= hi
    ensures |s| as real * lo <= Total(s) <= |s| as real * hi
  {
    if s != [] {
      var n := |s| - 1;
      TotalInRange(s[..n], lo, hi);
      assert |s| as real * lo == n as real * lo + lo && |s| as real * hi == n as real * hi + hi;
    }
  }

  lemma MeanInRange(total: real, n: real, lo: real, hi: real)
    requires n > 0.0 && n * lo <= total <= n * hi
    ensures lo <= total / n <= hi
  {
    var m := total / n;
    assert m * n == total;
    NotBelow(m, lo, n);
    NotBelow(hi, m, n);
  }

  lemma NotBelow(a: real, b: real, n: real)
    requires n > 0.0 && b * n <= a * n
    ensures b <= a
  {
    assert (b - a) * n == b * n - a * n;
    PositiveProduct(b - a, n);
  }

  lemma SortedScores(scores: seq<real>, values: seq<real>)
    requires values == Sort(scores, Ascends())
    ensures multiset(values) == multiset(scores) && |values| == |scores| && Ascending(values)
  {
    SortPermutes(scores, Ascends());
    SortSorts(scores, Ascends());
    forall i, j | 0 <= i <= j < |values|
      ensures values[i] <= values[j]
    {
      assert i < j ==> !Ascends()(values[j], values[i]);
    }
  }

  /** The summary of any scores: the counts are exact, the percentiles and the mean lie between the extremes, and the
      percentiles are in order. */
  method SummarizeDistribution(scores: seq<real>) returns (r: Summary)
    ensures scores == [] ==> r == EMPTY
    ensures scores != [] ==>
              && r.scored == |scores| && r.distinct == |set v | v in scores|
              && r.minimum in scores && r.maximum in scores
              && (forall v :: v in scores ==> r.minimum <= v <= r.maximum)
              && r.minimum <= r.p10 <= r.p25 <= r.median <= r.p75 <= r.p90 <= r.p95 <= r.maximum
              && r.minimum <= r.mean <= r.maximum && r.mean == Total(scores) / |scores| as real
              && r.percentEqual100 == 100.0 * r.equal100 as real / |scores| as real
    ensures scores != [] ==>
              var values := Sort(scores, Ascends());
              && r.p10 == Percentile(values, 0.10) && r.p25 == Percentile(values, 0.25)
              && r.median == Percentile(values, 0.50) && r.p75 == Percentile(values, 0.75)
              && r.p90 == Percentile(values, 0.90) && r.p95 == Percentile(values, 0.95)
    ensures scores != [] ==>
              && r.equal100 == |Filter(scores, EqualTo(100.0))|
              && r.atLeast95 == |Filter(scores, AtLeast(95.0))| && r.atLeast90 == |Filter(scores, AtLeast(90.0))|
              && r.from80 == |Filter(scores, Range(80.0, 90.0))| && r.from70 == |Filter(scores, Range(70.0, 80.0))|
              && r.below70 == |Filter(scores, LessThan(70.0))|
  {
    hide Filter, Sort, Percentile, Ascending, Total, Range, AtLeast;
    if |scores| == 0 {
      return EMPTY;
    }
    var values := Sort(scores, Ascends());
    SortedScores(scores, values);
    SameMembers(values, scores);
    var total, distinct, c := Tally(values);
    CountsPermute(values, scores);
    assert distinct == set v | v in scores;
    TotalInRange(values, values[0], values[|values| - 1]);
    MeanInRange(total, |values| as real, values[0], values[|values| - 1]);
    TotalPermutes(values, scores);
    QuantilesAscend(values);
    r := Summary(
      |values|, values[0], values[|values| - 1], total / |values| as real, Percentile(values, 0.50),
      Percentile(values, 0.10), Percentile(values, 0.25), Percentile(values, 0.75), Percentile(values, 0.90),
      Percentile(values, 0.95), c.equal100, 100.0 * c.equal100 as real / |values| as real,
      c.atLeast95, c.atLeast90, c.from80, c.from70, c.below70, |distinct|);
    ExtremesBound(values);
  }

  lemma QuantilesAscend(values: seq<real>)
    requires values != [] && Ascending(values)
    ensures values[0] <= Percentile(values, 0.10) <= Percentile(values, 0.25) <= Percentile(values, 0.50)
    ensures Percentile(values, 0.50) <= Percentile(values, 0.75) <= Percentile(values, 0.90)
    ensures Percentile(values, 0.90) <= Percentile(values, 0.95) <= values[|values| - 1]
  {
    hide Percentile;
    PercentileIsMonotone(values, 0.10, 0.25);
    PercentileIsMonotone(values, 0.25, 0.50);
    PercentileIsMonotone(values, 0.50, 0.75);
    PercentileIsMonotone(values, 0.75, 0.90);
    PercentileIsMonotone(values, 0.90, 0.95);
  }

  lemma {:induction false} TotalWithout(s: seq<real>, i: nat)
    requires i < |s|
    ensures Total(s) == Total(s[..i] + s[i + 1..]) + s[i]
  {
    var n := |s| - 1;
    if i < n {
      TotalWithout(s[..n], i);
      assert (s[..i] + s[i + 1..])[..n - 1] == s[..n][..i] + s[..n][i + 1..];
    } else {
      assert s[..i] + s[i + 1..] == s[..n];
    }
  }

  lemma Without(s: seq<real>, i: nat)
    requires i < |s|
    ensures multiset(s[..i] + s[i + 1..]) == multiset(s) - multiset{s[i]}
  {
    assert s == s[..i] + [s[i]] + s[i + 1..];
  }

  /** The sum does not depend on the order of the scores. */
  lemma {:induction false} TotalPermutes(a: seq<real>, b: seq<real>)
    requires multiset(a) == multiset(b)
    ensures Total(a) == Total(b)
  {
    SameMembers(a, b);
    if a != [] {
      var n := |a| - 1;
      assert a[n] in b;
      var i :| 0 <= i < |b| && b[i] == a[n];
      TotalWithout(b, i);
      Without(a, n);
      Without(b, i);
      assert a[..n] + a[n + 1..] == a[..n];
      TotalPermutes(a[..n], b[..i] + b[i + 1..]);
    }
  }

  lemma ExtremesBound(values: seq<real>)
    requires values != [] && Ascending(values)
    ensures forall v :: v in values ==> values[0] <= v <= values[|values| - 1]
  {
  }

  method Tally(values: seq<real>) returns (total: real, distinct: set<real>, c: Counts)
    ensures total == Total(values) && distinct == (set v | v in values) && c == CountsOf(values)
  {
    total, distinct, c := 0.0, {}, Counts(0, 0, 0, 0, 0, 0);
    for i := 0 to |values|
      invariant total == Total(values[..i]) && distinct == (set v | v in values[..i]) && c == CountsOf(values[..i])
    {
      hide CountsOf;
      var score := values[i];
      assert values[..i + 1][..i] == values[..i] && values[..i + 1] == values[..i] + [score];
      CountsSnoc(values[..i], score);
      total := total + score;
      distinct := distinct + {score};
      if score == 100.0 {
        c := c.(equal100 := c.equal100 + 1);
      }
      if score >= 95.0 {
        c := c.(atLeast95 := c.atLeast95 + 1);
      }
      if score >= 90.0 {
        c := c.(atLeast90 := c.atLeast90 + 1);
      }
      if score >= 80.0 && score < 90.0 {
        c := c.(from80 := c.from80 + 1);
      }
      if score >= 70.0 && score < 80.0 {
        c := c.(from70 := c.from70 + 1);
      }
      if score < 70.0 {
        c := c.(below70 := c.below70 + 1);
      }
    }
    assert values[..|values|] == values;
  }
}
