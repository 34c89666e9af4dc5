/** Stratified selection of benchmark jobs: proportional quotas per score band, unused quota backfilled round-robin,
    and the bands interleaved. The per-job ordering hash is a parameter.
 */
module Cohort {
  import opened Model
  import opened Text
  import opened Collections

  datatype Job = Job(databaseId: int, title: string, url: string, score: Option<real>)

  /** The six score bands, from perfect to unscored. */
  const BANDS := 6

  /** Each band's share of a 120-job target. */
  function Weight(band: nat): nat {
    match band
    case 0 => 20
    case 1 => 15
    case 2 => 20
    case 3 => 15
    case 4 => 20
    case _ => 30
  }

  function BandOf(score: Option<real>): (b: nat)
    ensures b < BANDS
  {
    if score.None? then 5
    else if score.value >= 100.0 then 0
    else if score.value >= 90.0 then 1
    else if score.value >= 80.0 then 2
    else if score.value >= 60.0 then 3
    else 4
  }

  /** Where the bands part. */
  lemma BandEdges(score: Option<real>)
    ensures score.None? <==> BandOf(score) == 5
    ensures score.Some? ==>
              && (score.value >= 60.0 <==> BandOf(score) <= 3) && (score.value >= 80.0 <==> BandOf(score) <= 2)
              && (score.value >= 90.0 <==> BandOf(score) <= 1) && (score.value >= 100.0 <==> BandOf(score) == 0)
  {
  }

  function IsEligible(): Job -> bool {
    (j: Job) => TrimSpace(j.title) != "" && TrimSpace(j.url) != ""
  }

  function InBand(b: nat): Job -> bool {
    (j: Job) => BandOf(j.score) == b
  }

  /** The deterministic order within a band: the hash, then the database identifier. */
  function Before(order: Job -> nat): (Job, Job) -> bool {
    (i: Job, j: Job) => order(i) < order(j) || (order(i) == order(j) && i.databaseId < j.databaseId)
  }

  function Eligible(jobs: seq<Job>): seq<Job> {
    Filter(jobs, IsEligible())
  }

  /** One band's eligible jobs in deterministic order. */
  function Band(jobs: seq<Job>, b: nat, order: Job -> nat): seq<Job> {
    Sort(Filter(Eligible(jobs), InBand(b)), Before(order))
  }

  function Bands(jobs: seq<Job>, order: Job -> nat): (r: seq<seq<Job>>)
    ensures |r| == BANDS
  {
    seq(BANDS, b requires 0 <= b < BANDS => Band(jobs, b, order))
  }

  /** limit * weight / 120, rounded half away from zero, at least one, and no more than the band has. */
  function Quota(limit: nat, band: nat, available: nat): (q: nat)
    ensures q <= available && (available > 0 ==> q > 0)
  {
    var share := (2 * limit * Weight(band) + 120) / 240;
    var wanted := if share < 1 then 1 else share;
    if wanted > available then available else wanted
  }

  // ----- how many to take from each band

  /** A selection takes `taken[b]` jobs from the front of band b. */
  ghost predicate Within(taken: seq<nat>, bands: seq<seq<Job>>) {
    |taken| == |bands| && forall b :: 0 <= b < |bands| ==> taken[b] <= |bands[b]|
  }

  function Total(taken: seq<nat>): nat {
    if taken == [] then 0 else Total(taken[..|taken| - 1]) + taken[|taken| - 1]
  }

  function Quotas(limit: nat, bands: seq<seq<Job>>): (r: seq<nat>)
    ensures Within(r, bands)
  {
    seq(|bands|, b requires 0 <= b < |bands| => Quota(limit, b, |bands[b]|))
  }

  /** One backfill pass: one more from each band that has any left, from band `b` on, until the limit is met. */
  function Pass(taken: seq<nat>, bands: seq<seq<Job>>, total: nat, limit: nat, b: nat): (r: (seq<nat>, nat))
    requires Within(taken, bands) && b <= |bands|
    ensures Within(r.0, bands)
    decreases |bands| - b
  {
    if b == |bands| then (taken, total)
    else if taken[b] == |bands[b]| || total >= limit then Pass(taken, bands, total, limit, b + 1)
    else Pass(taken[b := taken[b] + 1], bands, total + 1, limit, b + 1)
  }

  lemma {:induction false} PassGrows(taken: seq<nat>, bands: seq<seq<Job>>, total: nat, limit: nat, b: nat)
    requires Within(taken, bands) && b <= |bands|
    ensures var (t, n) := Pass(taken, bands, total, limit, b);
            && total <= n <= (if total < limit then limit else total)
            && n - total == Total(t) - Total(taken)
            && (forall k :: 0 <= k < |bands| ==> taken[k] <= t[k])
            && (n == total ==>
                  t == taken && (total >= limit || forall k :: b <= k < |bands| ==> taken[k] == |bands[k]|))
    decreases |bands| - b
  {
    if b < |bands| {
      if taken[b] == |bands[b]| || total >= limit {
        PassGrows(taken, bands, total, limit, b + 1);
      } else {
        TotalUpdate(taken, b, taken[b] + 1);
        PassGrows(taken[b := taken[b] + 1], bands, total + 1, limit, b + 1);
      }
    }
  }

  lemma {:induction false} TotalUpdate(taken: seq<nat>, b: nat, v: nat)
    requires b < |taken|
    ensures Total(taken[b := v]) == Total(taken) - taken[b] + v
  {
    var n := |taken| - 1;
    if b < n {
      assert taken[b := v][..n] == taken[..n][b := v];
      TotalUpdate(taken[..n], b, v);
    } else {
      assert taken[b := v][..n] == taken[..n];
    }
  }

  /** Backfill passes until the limit is met or nothing is left. */
  function Backfilled(taken: seq<nat>, bands: seq<seq<Job>>, total: nat, limit: nat): (r: seq<nat>)
    requires Within(taken, bands)
    ensures Within(r, bands)
    decreases limit - total
  {
    if total >= limit then taken
    else
      PassGrows(taken, bands, total, limit, 0);
      var (t, n) := Pass(taken, bands, total, limit, 0);
      if n == total then t else Backfilled(t, bands, n, limit)
  }

  lemma {:induction false} BackfillReaches(taken: seq<nat>, bands: seq<seq<Job>>, total: nat, limit: nat)
    requires Within(taken, bands) && total == Total(taken)
    ensures var r := Backfilled(taken, bands, total, limit);
            && (forall k :: 0 <= k < |bands| ==> taken[k] <= r[k])
            && (Total(r) >= limit || forall k :: 0 <= k < |bands| ==> r[k] == |bands[k]|)
    decreases limit - total
  {
    if total < limit {
      PassGrows(taken, bands, total, limit, 0);
      var (t, n) := Pass(taken, bands, total, limit, 0);
      if n != total {
        BackfillReaches(t, bands, n, limit);
      }
    }
  }

  // ----- interleaving

  /** Round `i`, from band `b` on: the i-th pick of every band that has one. */
  function Row(picked: seq<seq<Job>>, i: nat, b: nat): seq<Job>
    requires b <= |picked|
    decreases |picked| - b
  {
    if b == |picked| then [] else (if i < |picked[b]| then [picked[b][i]] else []) + Row(picked, i, b + 1)
  }

  /** The first `rounds` rounds. */
  function Woven(picked: seq<seq<Job>>, rounds: nat): seq<Job> {
    if rounds == 0 then [] else Woven(picked, rounds - 1) + Row(picked, rounds - 1, 0)
  }

  function Picks(bands: seq<seq<Job>>, taken: seq<nat>): (r: seq<seq<Job>>)
    requires Within(taken, bands)
    ensures |r| == |bands|
  {
    seq(|bands|, b requires 0 <= b < |bands| => bands[b][..taken[b]])
  }

  function Sizes(picked: seq<seq<Job>>): seq<nat> {
    seq(|picked|, b requires 0 <= b < |picked| => |picked[b]|)
  }

  /** How many more rounds until `total` jobs are woven. */
  function WovenFrom(picked: seq<seq<Job>>, rounds: nat, total: nat): seq<Job>
    requires Total(Sizes(picked)) == total
    decreases total - |Woven(picked, rounds)|
  {
    if |Woven(picked, rounds)| >= total then Woven(picked, rounds)
    else
      RoundAdds(picked, rounds);
      WovenFrom(picked, rounds + 1, total)
  }

  function Truncated(s: seq<Job>, limit: nat): seq<Job> {
    if |s| > limit then s[..limit] else s
  }

  function Selection(jobs: seq<Job>, limit: int, order: Job -> nat): seq<Job> {
    if limit <= 0 then []
    else
      var bands := Bands(jobs, order);
      var quotas := Quotas(limit, bands);
      var taken := Backfilled(quotas, bands, Total(quotas), limit);
      PickSizes(bands, taken);
      Truncated(WovenFrom(Picks(bands, taken), 0, Total(taken)), limit)
  }

  lemma PickSizes(bands: seq<seq<Job>>, taken: seq<nat>)
    requires Within(taken, bands)
    ensures Sizes(Picks(bands, taken)) == taken
  {
  }

  // ----- what weaving keeps

  /** Every band's picks belong to that band. */
  ghost predicate Banded(picked: seq<seq<Job>>) {
    forall b, i :: 0 <= b < |picked| && 0 <= i < |picked[b]| ==> BandOf(picked[b][i].score) == b
  }

  lemma {:induction false} RowOfBand(picked: seq<seq<Job>>, i: nat, b: nat, c: nat)
    requires Banded(picked) && b <= |picked| && c < |picked|
    ensures Filter(Row(picked, i, b), InBand(c)) == if b <= c && i < |picked[c]| then [picked[c][i]] else []
    decreases |picked| - b
  {
    if b < |picked| {
      RowOfBand(picked, i, b + 1, c);
      var head := if i < |picked[b]| then [picked[b][i]] else [];
      FilterConcat(head, Row(picked, i, b + 1), InBand(c));
      if head != [] {
        FilterSnoc([], picked[b][i], InBand(c));
        assert [] + [picked[b][i]] == head;
      }
    }
  }

  /** The first rounds hold exactly the first picks of each band, in the band's order. */
  lemma {:induction false} WovenOfBand(picked: seq<seq<Job>>, rounds: nat, c: nat)
    requires Banded(picked) && c < |picked|
    ensures Filter(Woven(picked, rounds), InBand(c)) == picked[c][..Least(rounds, |picked[c]|)]
  {
    if rounds > 0 {
      hide Filter, Row, Banded, InBand;
      var r := rounds - 1;
      WovenOfBand(picked, r, c);
      FilterConcat(Woven(picked, r), Row(picked, r, 0), InBand(c));
      RowOfBand(picked, r, 0, c);
      assert picked[c][..Least(rounds, |picked[c]|)]
          == picked[c][..Least(r, |picked[c]|)] + if r < |picked[c]| then [picked[c][r]] else [];
    }
  }

  /** Picks a round still adds, over the bands below `b`. */
  function Capped(sizes: seq<nat>, rounds: nat): seq<nat> {
    seq(|sizes|, b requires 0 <= b < |sizes| => Least(rounds, sizes[b]))
  }

  lemma {:induction false} RowLength(picked: seq<seq<Job>>, i: nat, b: nat)
    requires b <= |picked|
    ensures |Row(picked, i, b)| == Total(Capped(Sizes(picked), i + 1)) - Total(Capped(Sizes(picked), i))
                                   - (Total(Capped(Sizes(picked), i + 1)[..b]) - Total(Capped(Sizes(picked), i)[..b]))
    decreases |picked| - b
  {
    var more, less := Capped(Sizes(picked), i + 1), Capped(Sizes(picked), i);
    if b < |picked| {
      RowLength(picked, i, b + 1);
      assert more[..b + 1][..b] == more[..b] && less[..b + 1][..b] == less[..b];
    } else {
      assert more[..b] == more && less[..b] == less;
    }
  }

  lemma {:induction false} WovenLength(picked: seq<seq<Job>>, rounds: nat)
    ensures |Woven(picked, rounds)| == Total(Capped(Sizes(picked), rounds))
  {
    var now := Capped(Sizes(picked), rounds);
    if rounds > 0 {
      WovenLength(picked, rounds - 1);
      RowLength(picked, rounds - 1, 0);
      assert now[..0] == [] && Capped(Sizes(picked), rounds - 1)[..0] == [];
    } else {
      ZeroTotal(now);
    }
  }

  lemma {:induction false} ZeroTotal(taken: seq<nat>)
    requires forall b :: 0 <= b < |taken| ==> taken[b] == 0
    ensures Total(taken) == 0
  {
    if taken != [] {
      ZeroTotal(taken[..|taken| - 1]);
    }
  }

  lemma {:induction false} TotalMonotone(a: seq<nat>, b: seq<nat>)
    requires |a| == |b| && forall k :: 0 <= k < |a| ==> a[k] <= b[k]
    ensures Total(a) <= Total(b)
    ensures Total(a) == Total(b) ==> a == b
  {
    if a != [] {
      var n := |a| - 1;
      TotalMonotone(a[..n], b[..n]);
      if Total(a) == Total(b) {
        assert a == a[..n] + [a[n]] && b == b[..n] + [b[n]];
      }
    }
  }

  /** As long as picks are missing, a round adds some; never more than there are. */
  lemma RoundAdds(picked: seq<seq<Job>>, rounds: nat)
    ensures |Woven(picked, rounds)| <= Total(Sizes(picked))
    ensures |Woven(picked, rounds)| < Total(Sizes(picked)) ==> |Woven(picked, rounds)| < |Woven(picked, rounds + 1)|
  {
    WovenLength(picked, rounds);
    WovenLength(picked, rounds + 1);
    var sizes := Sizes(picked);
    TotalMonotone(Capped(sizes, rounds), sizes);
    TotalMonotone(Capped(sizes, rounds), Capped(sizes, rounds + 1));
    if Capped(sizes, rounds) == Capped(sizes, rounds + 1) {
      forall b | 0 <= b < |sizes|
        ensures Capped(sizes, rounds)[b] == sizes[b]
      {
        assert Capped(sizes, rounds)[b] == Capped(sizes, rounds + 1)[b];
      }
      assert Capped(sizes, rounds) == sizes;
    }
  }

  /** Weaving stops after some number of rounds, with exactly the picks, the first round included if there are any. */
  lemma {:induction false} WovenComplete(picked: seq<seq<Job>>, rounds: nat, total: nat) returns (end: nat)
    requires Total(Sizes(picked)) == total
    ensures rounds <= end && WovenFrom(picked, rounds, total) == Woven(picked, end) && |Woven(picked, end)| == total
    decreases total - |Woven(picked, rounds)|
  {
    RoundAdds(picked, rounds);
    if |Woven(picked, rounds)| >= total {
      end := rounds;
    } else {
      end := WovenComplete(picked, rounds + 1, total);
    }
  }

  // ----- the selection

  lemma BandMembers(jobs: seq<Job>, b: nat, order: Job -> nat)
    ensures multiset(Band(jobs, b, order)) == multiset(Filter(Eligible(jobs), InBand(b)))
    ensures |Band(jobs, b, order)| == |Filter(Eligible(jobs), InBand(b))|
    ensures forall j :: j in Band(jobs, b, order) ==> BandOf(j.score) == b
  {
    var members := Filter(Eligible(jobs), InBand(b));
    SortPermutes(members, Before(order));
    SameMembers(Sort(members, Before(order)), members);
    FilterMembers(Eligible(jobs), InBand(b));
  }

  function BandSizes(jobs: seq<Job>): seq<nat> {
    seq(BANDS, b requires 0 <= b < BANDS => |Filter(jobs, InBand(b))|)
  }

  /** The bands share out the jobs without loss or overlap. */
  lemma {:induction false} BandsPartition(jobs: seq<Job>)
    ensures Total(BandSizes(jobs)) == |jobs|
  {
    if jobs == [] {
      ZeroTotal(BandSizes(jobs));
    } else {
      var n := |jobs| - 1;
      BandsPartition(jobs[..n]);
      var c := BandOf(jobs[n].score);
      assert jobs == jobs[..n] + [jobs[n]];
      forall b | 0 <= b < BANDS
        ensures |Filter(jobs, InBand(b))| == |Filter(jobs[..n], InBand(b))| + if b == c then 1 else 0
      {
        FilterSnoc(jobs[..n], jobs[n], InBand(b));
      }
      assert BandSizes(jobs) == BandSizes(jobs[..n])[c := BandSizes(jobs[..n])[c] + 1];
      TotalUpdate(BandSizes(jobs[..n]), c, BandSizes(jobs[..n])[c] + 1);
    }
  }

  lemma BandsCoverEligible(jobs: seq<Job>, order: Job -> nat)
    ensures Sizes(Bands(jobs, order)) == BandSizes(Eligible(jobs))
    ensures Total(Sizes(Bands(jobs, order))) == |Eligible(jobs)|
    ensures Banded(Bands(jobs, order))
  {
    hide Band, Eligible;
    forall b | 0 <= b < BANDS
      ensures |Band(jobs, b, order)| == |Filter(Eligible(jobs), InBand(b))|
      ensures forall i :: 0 <= i < |Band(jobs, b, order)| ==> BandOf(Band(jobs, b, order)[i].score) == b
    {
      BandMembers(jobs, b, order);
    }
    BandsPartition(Eligible(jobs));
    assert Sizes(Bands(jobs, order)) == BandSizes(Eligible(jobs));
  }

  /** The pieces a positive limit selects from: how many of each band, and after how many rounds weaving is done. */
  lemma SelectionShape(jobs: seq<Job>, limit: int, order: Job -> nat) returns (taken: seq<nat>, end: nat)
    requires limit > 0
    ensures var bands := Bands(jobs, order);
            && Within(taken, bands) && Total(taken) <= |Eligible(jobs)|
            && (Total(taken) >= limit || taken == Sizes(bands))
            && (forall b :: 0 <= b < BANDS && bands[b] != [] ==> taken[b] > 0)
            && |Woven(Picks(bands, taken), end)| == Total(taken)
            && Selection(jobs, limit, order) == Truncated(Woven(Picks(bands, taken), end), limit)
  {
    hide Bands, Quota, Eligible;
    var bands := Bands(jobs, order);
    BandsCoverEligible(jobs, order);
    var quotas := Quotas(limit, bands);
    taken := Backfilled(quotas, bands, Total(quotas), limit);
    BackfillReaches(quotas, bands, Total(quotas), limit);
    PickSizes(bands, taken);
    TotalMonotone(taken, Sizes(bands));
    if Total(taken) < limit {
      assert taken == Sizes(bands);
    }
    QuotasPositive(limit, bands);
    end := WovenComplete(Picks(bands, taken), 0, Total(taken));
  }

  lemma QuotasPositive(limit: nat, bands: seq<seq<Job>>)
    ensures forall b :: 0 <= b < |bands| && bands[b] != [] ==> Quotas(limit, bands)[b] > 0
  {
  }

  lemma PicksAreBanded(bands: seq<seq<Job>>, taken: seq<nat>)
    requires Within(taken, bands) && Banded(bands)
    ensures Banded(Picks(bands, taken))
  {
  }

  /** The selection has exactly min(limit, eligible jobs) entries. */
  lemma SelectionSize(jobs: seq<Job>, limit: int, order: Job -> nat)
    ensures |Selection(jobs, limit, order)| == if limit <= 0 then 0 else Least(limit, |Eligible(jobs)|)
  {
    if limit > 0 {
      hide Selection, Woven, Bands, Eligible;
      var taken, end := SelectionShape(jobs, limit, order);
      BandsCoverEligible(jobs, order);
    }
  }

  /** Its jobs of each band are a prefix of that band's deterministic order. */
  lemma SelectionTakesPrefixes(jobs: seq<Job>, limit: int, order: Job -> nat, b: nat)
    requires b < BANDS
    ensures Filter(Selection(jobs, limit, order), InBand(b)) <= Band(jobs, b, order)
  {
    if limit > 0 {
      hide Selection, Woven, Eligible, Filter, Band, Truncated, Banded, Total, InBand;
      var taken, end := SelectionShape(jobs, limit, order);
      var bands := Bands(jobs, order);
      BandsCoverEligible(jobs, order);
      PicksAreBanded(bands, taken);
      WovenOfBand(Picks(bands, taken), end, b);
      TruncatedPrefix(Woven(Picks(bands, taken), end), limit, InBand(b), bands[b]);
    }
  }

  /** Cutting a list short cuts what a filter keeps of it short. */
  lemma TruncatedPrefix(woven: seq<Job>, limit: nat, p: Job -> bool, band: seq<Job>)
    requires Filter(woven, p) <= band
    ensures Filter(Truncated(woven, limit), p) <= band
  {
    hide Filter;
    if |woven| > limit {
      assert woven == woven[..limit] + woven[limit..];
      FilterConcat(woven[..limit], woven[limit..], p);
    }
  }

  /** It invents no job and repeats none: it is a sub-multiset of the eligible jobs. */
  lemma SelectionIsChosenFromEligible(jobs: seq<Job>, limit: int, order: Job -> nat)
    ensures multiset(Selection(jobs, limit, order)) <= multiset(Eligible(jobs))
    ensures forall j :: j in Eligible(jobs) <==> j in jobs && TrimSpace(j.title) != "" && TrimSpace(j.url) != ""
  {
    FilterMembers(jobs, IsEligible());
    forall j: Job
      ensures multiset(Selection(jobs, limit, order))[j] <= multiset(Eligible(jobs))[j]
    {
      JobNotRepeated(jobs, limit, order, j);
    }
  }

  lemma JobNotRepeated(jobs: seq<Job>, limit: int, order: Job -> nat, j: Job)
    ensures multiset(Selection(jobs, limit, order))[j] <= multiset(Eligible(jobs))[j]
  {
    hide Selection, Eligible, Filter, Band;
    var b := BandOf(j.score);
    var mine := Filter(Selection(jobs, limit, order), InBand(b));
    SelectionTakesPrefixes(jobs, limit, order, b);
    FilterCounts(Selection(jobs, limit, order), InBand(b), j);
    FilterCounts(Eligible(jobs), InBand(b), j);
    BandMembers(jobs, b, order);
    assert Band(jobs, b, order) == mine + Band(jobs, b, order)[|mine|..];
    assert multiset(mine)[j] <= multiset(Band(jobs, b, order))[j];
  }

  /** Within a band, nobody left out comes before anybody chosen: by hash, and by identifier among equal hashes. */
  lemma ChosenComeFirst(jobs: seq<Job>, limit: int, order: Job -> nat, i: Job, j: Job)
    requires i in Selection(jobs, limit, order) && j in Eligible(jobs) && j !in Selection(jobs, limit, order)
    requires BandOf(i.score) == BandOf(j.score)
    ensures order(i) < order(j) || (order(i) == order(j) && i.databaseId <= j.databaseId)
  {
    hide Selection, Eligible, Filter, BandOf;
    var b := BandOf(i.score);
    var chosen, all := Filter(Selection(jobs, limit, order), InBand(b)), Band(jobs, b, order);
    SelectionTakesPrefixes(jobs, limit, order, b);
    FilterMembers(Selection(jobs, limit, order), InBand(b));
    BandIsSorted(jobs, b, order, j);
    var p :| 0 <= p < |chosen| && chosen[p] == i;
    var q :| 0 <= q < |all| && all[q] == j;
    assert forall k :: 0 <= k < |chosen| ==> all[k] == chosen[k] && chosen[k] in chosen;
    assert !Before(order)(all[q], all[p]);
  }

  lemma BandIsSorted(jobs: seq<Job>, b: nat, order: Job -> nat, j: Job)
    ensures Sorted(Band(jobs, b, order), Before(order))
    ensures j in Eligible(jobs) && BandOf(j.score) == b ==> j in Band(jobs, b, order)
  {
    var mine := Filter(Eligible(jobs), InBand(b));
    BeforeIsOrder(order);
    SortSorts(mine, Before(order));
    SortPermutes(mine, Before(order));
    FilterMembers(Eligible(jobs), InBand(b));
    SameMembers(Sort(mine, Before(order)), mine);
  }

  function NonEmpty(bands: seq<seq<Job>>, b: nat): nat
    requires b <= |bands|
    decreases |bands| - b
  {
    if b == |bands| then 0 else (if bands[b] != [] then 1 else 0) + NonEmpty(bands, b + 1)
  }

  lemma {:induction false} FirstRow(picked: seq<seq<Job>>, b: nat)
    requires b <= |picked|
    ensures |Row(picked, 0, b)| == NonEmpty(picked, b)
    decreases |picked| - b
  {
    if b < |picked| {
      FirstRow(picked, b + 1);
    }
  }

  lemma {:induction false} SameNonEmpty(a: seq<seq<Job>>, c: seq<seq<Job>>, b: nat)
    requires |a| == |c| && b <= |a| && forall k :: 0 <= k < |a| ==> (a[k] == [] <==> c[k] == [])
    ensures NonEmpty(a, b) == NonEmpty(c, b)
    decreases |a| - b
  {
    if b < |a| {
      SameNonEmpty(a, c, b + 1);
    }
  }

  lemma {:induction false} FirstRowLeads(picked: seq<seq<Job>>, rounds: nat)
    requires rounds > 0
    ensures Row(picked, 0, 0) <= Woven(picked, rounds)
  {
    if rounds > 1 {
      FirstRowLeads(picked, rounds - 1);
    } else {
      assert Woven(picked, 0) == [];
    }
  }

  /** With a limit no smaller than the number of non-empty bands, every non-empty band is represented. */
  lemma EveryBandRepresented(jobs: seq<Job>, limit: int, order: Job -> nat, b: nat)
    requires b < BANDS && Band(jobs, b, order) != []
    requires limit >= NonEmpty(Bands(jobs, order), 0) && limit > 0
    ensures exists k :: 0 <= k < |Selection(jobs, limit, order)| && BandOf(Selection(jobs, limit, order)[k].score) == b
  {
    hide Selection, Woven, Eligible, Filter, Band;
    var taken, end := SelectionShape(jobs, limit, order);
    var bands := Bands(jobs, order);
    var picked := Picks(bands, taken);
    assert picked[b] != [] && bands[b] != [];
    BandsCoverEligible(jobs, order);
    PicksAreBanded(bands, taken);
    SameNonEmpty(picked, bands, 0);
    FirstRow(picked, 0);
    RowOfBand(picked, 0, 0, b);
    FilterMembers(Row(picked, 0, 0), InBand(b));
    assert picked[b][0] in Filter(Row(picked, 0, 0), InBand(b));
    var i :| 0 <= i < |Row(picked, 0, 0)| && Row(picked, 0, 0)[i] == picked[b][0];
    WovenStarts(picked, end, taken);
    FirstRowLeads(picked, end);
    assert Selection(jobs, limit, order)[i] == picked[b][0];
  }

  lemma WovenStarts(picked: seq<seq<Job>>, end: nat, taken: seq<nat>)
    requires |Woven(picked, end)| == Total(taken) && Sizes(picked) == taken
    requires exists b :: 0 <= b < |picked| && picked[b] != []
    ensures end > 0
  {
    var b :| 0 <= b < |picked| && picked[b] != [];
    ZeroOrMore(taken, b);
  }

  lemma {:induction false} ZeroOrMore(taken: seq<nat>, b: nat)
    requires b < |taken|
    ensures taken[b] <= Total(taken)
  {
    if b < |taken| - 1 {
      ZeroOrMore(taken[..|taken| - 1], b);
    }
  }

  /** With distinct database identifiers the selection does not depend on the order the jobs arrive in. */
  lemma SelectionIgnoresInputOrder(a: seq<Job>, c: seq<Job>, limit: int, order: Job -> nat)
    requires multiset(a) == multiset(c)
    requires forall i, j :: i in a && j in a && i != j ==> i.databaseId != j.databaseId
    ensures Selection(a, limit, order) == Selection(c, limit, order)
  {
    hide Selection;
    forall b: nat | b < BANDS
      ensures Band(a, b, order) == Band(c, b, order)
    {
      FilterPermutes(a, c, IsEligible());
      FilterPermutes(Eligible(a), Eligible(c), InBand(b));
      FilterMembers(a, IsEligible());
      FilterMembers(Eligible(a), InBand(b));
      BeforeIsOrder(order);
      SortForgetsOrder(Filter(Eligible(a), InBand(b)), Filter(Eligible(c), InBand(b)), Before(order));
    }
    assert Bands(a, order) == Bands(c, order);
    SelectionReadsBands(a, c, limit, order);
  }

  lemma SelectionReadsBands(a: seq<Job>, c: seq<Job>, limit: int, order: Job -> nat)
    requires Bands(a, order) == Bands(c, order)
    ensures Selection(a, limit, order) == Selection(c, limit, order)
  {
  }

  lemma BeforeIsOrder(order: Job -> nat)
    ensures StrictWeakOrder(Before(order))
  {
  }

  // ----- proportions

  /** limit * weight / 120 to the nearest whole job, a half counting up, and never less than one. */
  ghost predicate IsShare(n: int, limit: nat, b: nat) {
    n >= 1 && (limit * Weight(b) >= 60 ==> -60 < 120 * n - limit * Weight(b) <= 60)
    && (limit * Weight(b) < 60 ==> n == 1)
  }

  lemma ShareIsUnique(m: int, n: int, limit: nat, b: nat)
    requires IsShare(m, limit, b) && IsShare(n, limit, b)
    ensures m == n
  {
    hide Weight;
  }

  /** A quota is the band's share, or the whole band when it has less. */
  lemma QuotaIsShare(limit: nat, b: nat, available: nat, share: nat)
    requires IsShare(share, limit, b)
    ensures Quota(limit, b, available) == Least(share, available)
  {
    var lw := limit * Weight(b);
    assert 2 * limit * Weight(b) == 2 * lw;
    var rounded := (2 * lw + 120) / 240;
    assert lw >= 60 ==> IsShare(rounded, limit, b);
    hide Weight;
  }

  /** With room for every quota, nothing is cut: each band contributes what was taken from it. */
  lemma CountsAreTaken(jobs: seq<Job>, limit: nat, order: Job -> nat, b: nat)
    requires limit > 0 && b < BANDS
    requires Total(Quotas(limit, Bands(jobs, order))) <= limit
    ensures var bands := Bands(jobs, order);
            var taken := Backfilled(Quotas(limit, bands), bands, Total(Quotas(limit, bands)), limit);
            |Filter(Selection(jobs, limit, order), InBand(b))| == taken[b]
  {
    hide Bands, Quotas, Filter, Woven, InBand, Banded, Total;
    var bands := Bands(jobs, order);
    var quotas := Quotas(limit, bands);
    var taken := Backfilled(quotas, bands, Total(quotas), limit);
    BackfillStops(quotas, bands, Total(quotas), limit);
    PickSizes(bands, taken);
    var end := WovenComplete(Picks(bands, taken), 0, Total(taken));
    BandsCoverEligible(jobs, order);
    PicksAreBanded(bands, taken);
    WovenOfBand(Picks(bands, taken), end, b);
    WovenAll(Picks(bands, taken), end, b);
  }

  /** Backfilling never takes more than the limit. */
  lemma {:induction false} BackfillStops(taken: seq<nat>, bands: seq<seq<Job>>, total: nat, limit: nat)
    requires Within(taken, bands) && total == Total(taken) <= limit
    ensures Total(Backfilled(taken, bands, total, limit)) <= limit
    decreases limit - total
  {
    if total < limit {
      PassGrows(taken, bands, total, limit, 0);
      var (t, n) := Pass(taken, bands, total, limit, 0);
      if n != total {
        BackfillStops(t, bands, n, limit);
      }
    }
  }

  /** Once every pick is woven, every band has run out of picks. */
  lemma WovenAll(picked: seq<seq<Job>>, end: nat, b: nat)
    requires |Woven(picked, end)| == Total(Sizes(picked)) && b < |picked|
    ensures Least(end, |picked[b]|) == |picked[b]|
  {
    hide Total;
    var sizes := Sizes(picked);
    WovenLength(picked, end);
    TotalMonotone(Capped(sizes, end), sizes);
    assert Capped(sizes, end)[b] == sizes[b];
  }

  /** When the shares, capped by what the bands have, fit the limit, every band contributes at least its capped
      share. */
  lemma SharesAreMet(jobs: seq<Job>, limit: nat, order: Job -> nat, shares: seq<nat>, b: nat)
    requires limit > 0 && b < BANDS && |shares| == BANDS
    requires forall c :: 0 <= c < BANDS ==> IsShare(shares[c], limit, c)
    requires Total(CappedShares(shares, Bands(jobs, order))) <= limit
    ensures |Filter(Selection(jobs, limit, order), InBand(b))| >= Least(shares[b], |Band(jobs, b, order)|)
  {
    hide Total, IsShare, Filter, Selection, Band, Quota, Weight, Backfilled;
    var bands := Bands(jobs, order);
    QuotasAreShares(limit, bands, shares);
    CountsAreTaken(jobs, limit, order, b);
    BackfillReaches(Quotas(limit, bands), bands, Total(Quotas(limit, bands)), limit);
  }

  function CappedShares(shares: seq<nat>, bands: seq<seq<Job>>): seq<nat>
    requires |shares| == |bands|
  {
    seq(|bands|, b requires 0 <= b < |bands| => Least(shares[b], |bands[b]|))
  }

  lemma QuotasAreShares(limit: nat, bands: seq<seq<Job>>, shares: seq<nat>)
    requires |shares| == |bands| && forall c :: 0 <= c < |bands| ==> IsShare(shares[c], limit, c)
    ensures Quotas(limit, bands) == CappedShares(shares, bands)
  {
    hide IsShare, Quota, Weight;
    forall b | 0 <= b < |bands|
      ensures Quota(limit, b, |bands[b]|) == Least(shares[b], |bands[b]|)
    {
      QuotaIsShare(limit, b, |bands[b]|, shares[b]);
    }
  }

  /** When every band has its share and the shares make up the limit, every band contributes exactly its share: the
      nearest whole number to limit * weight / 120, and at least one. */
  lemma SelectionIsProportional(jobs: seq<Job>, limit: nat, order: Job -> nat, shares: seq<nat>, b: nat)
    requires limit > 0 && b < BANDS && |shares| == BANDS && Total(shares) == limit
    requires forall c :: 0 <= c < BANDS ==> IsShare(shares[c], limit, c) && shares[c] <= |Band(jobs, c, order)|
    ensures |Filter(Selection(jobs, limit, order), InBand(b))| == shares[b]
  {
    hide Total, IsShare, Filter, Selection, Band, Quota, Weight;
    var bands := Bands(jobs, order);
    QuotasAreShares(limit, bands, shares);
    assert Quotas(limit, bands) == shares;
    CountsAreTaken(jobs, limit, order, b);
  }

  /** The full target of 120: the bands contribute 20, 15, 20, 15, 20 and 30. */
  lemma TargetIsWeighted(jobs: seq<Job>, order: Job -> nat, b: nat)
    requires b < BANDS
    requires forall c :: 0 <= c < BANDS ==> |Band(jobs, c, order)| >= [20, 15, 20, 15, 20, 30][c]
    ensures |Filter(Selection(jobs, 120, order), InBand(b))| == [20, 15, 20, 15, 20, 30][b]
  {
    hide Filter, Selection, Band;
    var shares: seq<nat> := [20, 15, 20, 15, 20, 30];
    forall c | 0 <= c < BANDS
      ensures IsShare(shares[c], 120, c)
    {
    }
    TargetTotal();
    SelectionIsProportional(jobs, 120, order, shares, b);
  }

  lemma TargetTotal()
    ensures Total([20, 15, 20, 15, 20, 30]) == 120
  {
    var s: seq<nat> := [20, 15, 20, 15, 20, 30];
    assert s[..5] == [20, 15, 20, 15, 20] && s[..5][..4] == [20, 15, 20, 15] && s[..5][..4][..3] == [20, 15, 20];
    assert s[..5][..4][..3][..2] == [20, 15] && s[..5][..4][..3][..2][..1] == [20];
    assert Total([20]) == 20 && Total([20, 15]) == 35 && Total([20, 15, 20]) == 55;
    assert Total([20, 15, 20, 15]) == 70 && Total([20, 15, 20, 15, 20]) == 90;
  }

  // ----- evenness

  /** What a pass adds: at most one to each band, and one to every band that has more while the limit is not met. */
  lemma {:induction false} PassAddsOne(taken: seq<nat>, bands: seq<seq<Job>>, total: nat, limit: nat, b: nat, k: nat)
    requires Within(taken, bands) && b <= |bands| && k < |bands|
    ensures var (t, n) := Pass(taken, bands, total, limit, b);
            && taken[k] <= t[k] <= taken[k] + 1
            && (n < limit && b <= k && taken[k] < |bands[k]| ==> t[k] == taken[k] + 1)
    decreases |bands| - b
  {
    if b < |bands| {
      if taken[b] == |bands[b]| || total >= limit {
        PassGrows(taken, bands, total, limit, b + 1);
        PassAddsOne(taken, bands, total, limit, b + 1, k);
        if k == b {
          PassSkips(taken, bands, total, limit, b + 1, k);
        }
      } else {
        PassAddsOne(taken[b := taken[b] + 1], bands, total + 1, limit, b + 1, k);
        if k <= b {
          PassSkips(taken[b := taken[b] + 1], bands, total + 1, limit, b + 1, k);
        }
      }
    }
  }

  lemma {:induction false} PassSkips(taken: seq<nat>, bands: seq<seq<Job>>, total: nat, limit: nat, b: nat, k: nat)
    requires Within(taken, bands) && k < b <= |bands|
    ensures Pass(taken, bands, total, limit, b).0[k] == taken[k]
    decreases |bands| - b
  {
    if b < |bands| {
      if taken[b] == |bands[b]| || total >= limit {
        PassSkips(taken, bands, total, limit, b + 1, k);
      } else {
        PassSkips(taken[b := taken[b] + 1], bands, total + 1, limit, b + 1, k);
      }
    }
  }

  /** Backfill is even: a band falls more than one short of what another received only when it has nothing left. */
  lemma {:induction false} BackfillIsEven(taken: seq<nat>, bands: seq<seq<Job>>, total: nat, limit: nat, j: nat, k: nat)
    requires Within(taken, bands) && total == Total(taken) && j < |bands| && k < |bands|
    ensures var r := Backfilled(taken, bands, total, limit);
            r[k] == |bands[k]| || r[j] + taken[k] <= r[k] + taken[j] + 1
    decreases limit - total
  {
    if total < limit {
      PassGrows(taken, bands, total, limit, 0);
      PassAddsOne(taken, bands, total, limit, 0, j);
      PassAddsOne(taken, bands, total, limit, 0, k);
      var (t, n) := Pass(taken, bands, total, limit, 0);
      if n != total {
        BackfillReaches(t, bands, n, limit);
        BackfillIsEven(t, bands, n, limit, j, k);
      }
    }
  }

  lemma {:induction false} WovenLeads(picked: seq<seq<Job>>, r: nat, end: nat)
    requires r <= end
    ensures Woven(picked, r) <= Woven(picked, end)
  {
    hide Row;
    if r < end {
      WovenLeads(picked, r, end - 1);
    }
  }

  /** The round in which a position of the interleaving lies. */
  lemma {:induction false} RoundOf(picked: seq<seq<Job>>, end: nat, n: nat) returns (r: nat)
    requires n <= |Woven(picked, end)|
    ensures r <= end && |Woven(picked, r)| <= n && (r == end || n < |Woven(picked, r + 1)|)
  {
    if n == |Woven(picked, end)| {
      r := end;
    } else if |Woven(picked, end - 1)| <= n {
      r := end - 1;
    } else {
      r := RoundOf(picked, end - 1, n);
    }
  }

  lemma FilterOfPrefix(s: seq<Job>, p: Job -> bool, m: nat, n: nat)
    requires m <= n <= |s|
    ensures |Filter(s[..m], p)| <= |Filter(s[..n], p)|
  {
    assert s[..n] == s[..m] + s[m..n];
    FilterConcat(s[..m], s[m..n], p);
  }

  /** Within the interleaving's first n jobs a band has as many as there were complete rounds, or one more, unless it
      has run out. */
  lemma PrefixIsBalanced(picked: seq<seq<Job>>, end: nat, n: nat, b: nat, r: nat)
    requires Banded(picked) && b < |picked| && n <= |Woven(picked, end)|
    requires r <= end && |Woven(picked, r)| <= n && (r == end || n < |Woven(picked, r + 1)|)
    ensures Least(r, |picked[b]|) <= |Filter(Woven(picked, end)[..n], InBand(b))| <= Least(r + 1, |picked[b]|)
  {
    hide Filter, Row, Woven, Banded, InBand;
    var all := Woven(picked, end);
    WovenLeads(picked, r, end);
    WovenOfBand(picked, r, b);
    FilterOfPrefix(all, InBand(b), |Woven(picked, r)|, n);
    assert all[..|Woven(picked, r)|] == Woven(picked, r);
    if r < end {
      WovenLeads(picked, r + 1, end);
      WovenOfBand(picked, r + 1, b);
      FilterOfPrefix(all, InBand(b), n, |Woven(picked, r + 1)|);
      assert all[..|Woven(picked, r + 1)|] == Woven(picked, r + 1);
    } else {
      FilterOfPrefix(all, InBand(b), n, |all|);
      assert all[..|all|] == all;
    }
  }

  /** The bands take turns: however short the list is cut, no band is more than one job ahead of another that still has
      jobs to come. */
  lemma SelectionTakesTurns(jobs: seq<Job>, limit: int, order: Job -> nat, n: nat, b: nat, c: nat)
    requires limit > 0 && b < BANDS && c < BANDS && n <= |Selection(jobs, limit, order)|
    ensures var s := Selection(jobs, limit, order);
            || |Filter(s[..n], InBand(b))| == |Filter(s, InBand(b))|
            || |Filter(s[..n], InBand(c))| <= |Filter(s[..n], InBand(b))| + 1
  {
    hide Selection, Filter, Band, Woven, Banded, InBand, Total, Eligible;
    var taken, end := SelectionShape(jobs, limit, order);
    var bands := Bands(jobs, order);
    var picked := Picks(bands, taken);
    var all, s := Woven(picked, end), Selection(jobs, limit, order);
    BandsCoverEligible(jobs, order);
    PicksAreBanded(bands, taken);
    assert s[..n] == all[..n] && s == all[..|s|];
    var r := RoundOf(picked, end, n);
    PrefixIsBalanced(picked, end, n, b, r);
    PrefixIsBalanced(picked, end, n, c, r);
    WovenOfBand(picked, end, b);
    FilterOfPrefix(all, InBand(b), n, |s|);
    FilterOfPrefix(all, InBand(b), |s|, |all|);
    assert all[..|all|] == all;
  }

  lemma {:induction false} RowAscends(picked: seq<seq<Job>>, i: nat, b: nat)
    requires Banded(picked) && b <= |picked|
    ensures forall p :: 0 <= p < |Row(picked, i, b)| ==> BandOf(Row(picked, i, b)[p].score) >= b
    ensures forall p, q :: 0 <= p < q < |Row(picked, i, b)| ==>
              BandOf(Row(picked, i, b)[p].score) < BandOf(Row(picked, i, b)[q].score)
    decreases |picked| - b
  {
    if b < |picked| {
      RowAscends(picked, i, b + 1);
    }
  }

  /** The selection opens with one job of each band that has any, best band first. */
  lemma SelectionOpensInOrder(jobs: seq<Job>, limit: int, order: Job -> nat, p: nat, q: nat)
    requires p < q < |Selection(jobs, limit, order)| && q < NonEmpty(Bands(jobs, order), 0)
    ensures BandOf(Selection(jobs, limit, order)[p].score) < BandOf(Selection(jobs, limit, order)[q].score)
  {
    assert limit > 0;
    hide Selection, Woven, Eligible, Filter, Band, Bands, Banded, Total, NonEmpty, Row, BandOf;
    var taken, end := SelectionShape(jobs, limit, order);
    var bands := Bands(jobs, order);
    var picked := Picks(bands, taken);
    BandsCoverEligible(jobs, order);
    PicksAreBanded(bands, taken);
    SameNonEmpty(picked, bands, 0);
    OpensInOrder(picked, end, Selection(jobs, limit, order), p, q);
  }

  lemma OpensInOrder(picked: seq<seq<Job>>, end: nat, s: seq<Job>, p: nat, q: nat)
    requires Banded(picked) && s <= Woven(picked, end) && p < q < |s| && q < NonEmpty(picked, 0)
    ensures BandOf(s[p].score) < BandOf(s[q].score)
  {
    hide Woven, Banded, NonEmpty, BandOf, Row;
    FirstRow(picked, 0);
    RowAscends(picked, 0, 0);
    NothingWoven(picked);
    FirstRowLeads(picked, end);
  }

  lemma NothingWoven(picked: seq<seq<Job>>)
    ensures Woven(picked, 0) == []
  {
  }

  // ----- the loops

  /** The stratified selection, band by band and round by round. */
  method SelectCandidates(jobs: seq<Job>, limit: int, order: Job -> nat) returns (result: seq<Job>)
    ensures result == Selection(jobs, limit, order)
  {
    hide Bands, Quota, Backfilled, WovenFrom, Total;
    if limit <= 0 {
      return [];
    }
    var bands := Bands(jobs, order);
    var taken := Quotas(limit, bands);
    var selectedCount := AddUp(taken);
    taken, selectedCount := Backfill(taken, bands, selectedCount, limit);
    PickSizes(bands, taken);
    result := Weave(Picks(bands, taken), selectedCount);
    if |result| > limit {
      result := result[..limit];
    }
  }

  method AddUp(taken: seq<nat>) returns (total: nat)
    ensures total == Total(taken)
  {
    total := 0;
    for b := 0 to |taken|
      invariant total == Total(taken[..b])
    {
      assert taken[..b + 1][..b] == taken[..b];
      total := total + taken[b];
    }
    assert taken[..|taken|] == taken;
  }

  method Backfill(start: seq<nat>, bands: seq<seq<Job>>, total: nat, limit: nat) returns (taken: seq<nat>, count: nat)
    requires Within(start, bands) && total == Total(start)
    ensures Within(taken, bands) && taken == Backfilled(start, bands, total, limit) && count == Total(taken)
  {
    taken, count := start, total;
    while count < limit
      invariant Within(taken, bands) && count == Total(taken)
      invariant Backfilled(start, bands, total, limit) == Backfilled(taken, bands, count, limit)
      decreases limit - count
    {
      ghost var was, had := taken, count;
      PassGrows(was, bands, had, limit, 0);
      var added := false;
      for b := 0 to |bands|
        invariant Within(taken, bands) && count >= had && (added <==> count > had)
        invariant Pass(was, bands, had, limit, 0) == Pass(taken, bands, count, limit, b)
      {
        if taken[b] == |bands[b]| || count >= limit {
          continue;
        }
        taken := taken[b := taken[b] + 1];
        count := count + 1;
        added := true;
      }
      if !added {
        break;
      }
    }
  }

  method Weave(picked: seq<seq<Job>>, total: nat) returns (result: seq<Job>)
    requires Total(Sizes(picked)) == total
    ensures result == WovenFrom(picked, 0, total)
  {
    hide Total, Sizes, Row;
    result := [];
    var index := 0;
    while |result| < total
      invariant result == Woven(picked, index) && WovenFrom(picked, 0, total) == WovenFrom(picked, index, total)
      decreases total - |result|
    {
      RoundAdds(picked, index);
      var row := WeaveRow(picked, index);
      result := result + row;
      index := index + 1;
    }
  }

  method WeaveRow(picked: seq<seq<Job>>, index: nat) returns (row: seq<Job>)
    ensures row == Row(picked, index, 0)
  {
    row := [];
    for b := 0 to |picked|
      invariant Row(picked, index, 0) == row + Row(picked, index, b)
    {
      if index < |picked[b]| {
        row := row + [picked[b][index]];
      }
    }
  }
}
