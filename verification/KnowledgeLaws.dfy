/** What the readiness figures mean, and that they depend only on which questions are queued. */
module KnowledgeLaws {
  import opened Model
  import opened Text
  import opened Collections
  import opened Vault
  import opened Resolver
  import opened Knowledge

  // The questions each figure counts.

  function IsPending(e: Env): Queued -> bool {
    q => Pending(e, q)
  }

  function IsAbsence(e: Env): Queued -> bool {
    q => !Pending(e, q) && Outcome(e, q).absence
  }

  function OfJob(j: string): Queued -> bool {
    (q: Queued) => q.jobId == j
  }

  function InGroup(e: Env, k: GroupKey): Queued -> bool {
    q => Pending(e, q) && KeyOf(AsQuestion(q), e.tables) == k
  }

  /** A group built from its own occurrences alone. */
  ghost function Folded(e: Env, members: seq<Queued>): Group
    requires members != []
  {
    var q := members[|members| - 1];
    var r := Outcome(e, q);
    Merged(if |members| == 1 then Opened(q, r, e.tables) else Folded(e, members[..|members| - 1]), q, r)
  }

  lemma FoldedSnoc(e: Env, before: seq<Queued>, q: Queued)
    ensures Folded(e, before + [q]) ==
            Merged(if before == [] then Opened(q, Outcome(e, q), e.tables) else Folded(e, before), q, Outcome(e, q))
  {
    hide Outcome, Merged, Opened;
    assert (before + [q])[..|before|] == before;
  }

  /** One pass over the queue builds, for every key, the group of exactly the pending questions with that key. */
  lemma {:induction false} CollectGroups(e: Env, queue: seq<Queued>, k: GroupKey)
    ensures k in Collect(e, queue).groups <==> Filter(queue, InGroup(e, k)) != []
    ensures k in Collect(e, queue).groups ==> Collect(e, queue).groups[k] == Folded(e, Filter(queue, InGroup(e, k)))
  {
    hide Outcome, KeyOf, Merged, Opened;
    if queue != [] {
      CollectGroups(e, queue[..|queue| - 1], k);
      var before := Filter(queue[..|queue| - 1], InGroup(e, k));
      var q := queue[|queue| - 1];
      if InGroup(e, k)(q) {
        assert Filter(queue, InGroup(e, k)) == before + [q];
        FoldedSnoc(e, before, q);
      } else {
        assert Filter(queue, InGroup(e, k)) == before;
      }
    }
  }

  /** The running counts are counts of questions. */
  lemma {:induction false} CollectCounts(e: Env, queue: seq<Queued>)
    ensures Collect(e, queue).unresolved == |Filter(queue, IsPending(e))|
    ensures Collect(e, queue).absences == |Filter(queue, IsAbsence(e))|
    ensures Collect(e, queue).applications == set q | q in queue :: q.jobId
    ensures Collect(e, queue).blocked == set q | q in queue && Pending(e, q) :: q.jobId
  {
    hide Outcome, KeyOf, Merged, Opened;
    if queue != [] {
      var rest, q := queue[..|queue| - 1], queue[|queue| - 1];
      CollectCounts(e, rest);
      assert forall x :: x in queue <==> x in rest || x == q;
    }
  }

  lemma {:induction false} CollectPerJob(e: Env, queue: seq<Queued>, j: string)
    ensures (if j in Collect(e, queue).perJob then Collect(e, queue).perJob[j] else 0) == |Filter(queue, OfJob(j))|
  {
    hide Outcome, KeyOf, Merged, Opened;
    if queue != [] {
      CollectPerJob(e, queue[..|queue| - 1], j);
    }
  }

  // ----- what a group records

  predicate AnySensitivity(e: Env, members: seq<Queued>, s: Sensitivity) {
    exists i :: 0 <= i < |members| && Outcome(e, members[i]).sensitivity == s
  }

  /** The strictest of the members' sensitivities. */
  function Strictest(e: Env, members: seq<Queued>): Sensitivity {
    if AnySensitivity(e, members, Sensitive) then Sensitive
    else if AnySensitivity(e, members, GeneratePerJob) then GeneratePerJob
    else Routine
  }

  lemma AnySnoc(e: Env, members: seq<Queued>, s: Sensitivity)
    requires members != []
    ensures AnySensitivity(e, members, s) <==>
            AnySensitivity(e, members[..|members| - 1], s) || Outcome(e, members[|members| - 1]).sensitivity == s
  {
    hide Outcome;
    if AnySensitivity(e, members, s) {
      var i :| 0 <= i < |members| && Outcome(e, members[i]).sensitivity == s;
      if i < |members| - 1 {
        assert members[..|members| - 1][i] == members[i];
      }
    }
    if AnySensitivity(e, members[..|members| - 1], s) {
      var i :| 0 <= i < |members| - 1 && Outcome(e, members[..|members| - 1][i]).sensitivity == s;
      assert members[i] == members[..|members| - 1][i];
    }
  }

  /** A group's sensitivity is the strictest reading any occurrence got, and it counts every occurrence. */
  lemma {:induction false} GroupReadsStrictest(e: Env, members: seq<Queued>)
    requires members != []
    ensures Folded(e, members).sensitivity == Strictest(e, members)
    ensures Folded(e, members).occurrences == |members|
  {
    hide Outcome, KeyOf;
    var n := |members| - 1;
    AnySnoc(e, members, Sensitive);
    AnySnoc(e, members, GeneratePerJob);
    if n > 0 {
      GroupReadsStrictest(e, members[..n]);
    } else {
      assert !AnySensitivity(e, members[..n], Sensitive) && !AnySensitivity(e, members[..n], GeneratePerJob);
    }
  }

  predicate Offers(q: Queued, s: multiset<string>) {
    q.options != [] && Signature(q.options) == s
  }

  lemma MergedSignatures(g: Group, q: Queued, r: Resolution, s: multiset<string>)
    ensures s in Merged(g, q, r).signatures <==> s in g.signatures || Offers(q, s)
  {
  }

  /** A group's option signatures are the signatures of the members that offer options. */
  lemma {:induction false} GroupRecordsSignatures(e: Env, members: seq<Queued>, s: multiset<string>)
    requires members != []
    ensures s in Folded(e, members).signatures <==> exists q :: q in members && Offers(q, s)
  {
    hide Outcome, Merged, Offers;
    var before, q := members[..|members| - 1], members[|members| - 1];
    assert members == before + [q];
    FoldedSnoc(e, before, q);
    if before != [] {
      GroupRecordsSignatures(e, before, s);
      MergedSignatures(Folded(e, before), q, Outcome(e, q), s);
    } else {
      MergedSignatures(Opened(q, Outcome(e, q), e.tables), q, Outcome(e, q), s);
    }
    assert forall x :: x in members <==> x in before || x == q;
  }

  lemma {:induction false} SignaturesAreDistinct(e: Env, members: seq<Queued>)
    requires members != []
    ensures Distinct(Folded(e, members).signatures)
  {
    hide Outcome, KeyOf, Signature;
    if |members| > 1 {
      SignaturesAreDistinct(e, members[..|members| - 1]);
    }
  }

  lemma MergedLists(g: Group, q: Queued, r: Resolution)
    ensures var m := Merged(g, q, r);
            && m.jobIds == Appended(g.jobIds, q.jobId)
            && m.companies == (if q.company == "" then g.companies else Appended(g.companies, q.company))
            && m.phrasings ==
               (if TrimSpace(q.prompt) == "" then g.phrasings else Appended(g.phrasings, TrimSpace(q.prompt)))
  {
    hide TrimSpace, Appended, UnionOptions, Signature;
  }

  /** The group before its last member was folded in. */
  ghost function FoldedBefore(e: Env, members: seq<Queued>): (g: Group)
    requires members != []
  {
    var before, q := members[..|members| - 1], members[|members| - 1];
    if before == [] then Opened(q, Outcome(e, q), e.tables) else Folded(e, before)
  }

  /** The last step of a group's fold, as it changes the three lists. */
  lemma LastLists(e: Env, members: seq<Queued>)
    requires members != []
    ensures var g, m, q := FoldedBefore(e, members), Folded(e, members), members[|members| - 1];
            && m.jobIds == Appended(g.jobIds, q.jobId)
            && m.companies == (if q.company == "" then g.companies else Appended(g.companies, q.company))
            && m.phrasings ==
               (if TrimSpace(q.prompt) == "" then g.phrasings else Appended(g.phrasings, TrimSpace(q.prompt)))
    ensures |members| == 1 ==> FoldedBefore(e, members).jobIds == [] && FoldedBefore(e, members).companies == []
                               && FoldedBefore(e, members).phrasings == []
    ensures |members| > 1 ==> FoldedBefore(e, members) == Folded(e, members[..|members| - 1])
  {
    hide Outcome, Merged, KeyOf;
    MergedLists(FoldedBefore(e, members), members[|members| - 1], Outcome(e, members[|members| - 1]));
  }

  /** The phrasings a group shows are the distinct trimmed wordings of its members. */
  lemma {:induction false} GroupRecordsPhrasings(e: Env, members: seq<Queued>, p: string)
    requires members != []
    ensures Distinct(Folded(e, members).phrasings)
    ensures p in Folded(e, members).phrasings <==>
            p != "" && exists i :: 0 <= i < |members| && TrimSpace(members[i].prompt) == p
  {
    hide Folded, FoldedBefore, TrimSpace;
    var n := |members| - 1;
    LastLists(e, members);
    if n > 0 {
      GroupRecordsPhrasings(e, members[..n], p);
    }
    assert forall i :: 0 <= i < n ==> members[..n][i] == members[i];
  }

  /** A group is required if any occurrence is, and knows whether an absence stands against one of them. */
  lemma {:induction false} GroupRecordsFlags(e: Env, members: seq<Queued>)
    requires members != []
    ensures Folded(e, members).required <==> exists i :: 0 <= i < |members| && members[i].required
    ensures Folded(e, members).absenceApproved <==> exists i :: 0 <= i < |members| && Outcome(e, members[i]).absence
  {
    hide Outcome, KeyOf, Signature, UnionOptions, TrimSpace;
    var n := |members| - 1;
    if n > 0 {
      GroupRecordsFlags(e, members[..n]);
    }
    assert forall i :: 0 <= i < n ==> members[..n][i] == members[i];
  }

  /** A group lists each of its applications exactly once. */
  lemma {:induction false} GroupRecordsApplications(e: Env, members: seq<Queued>, x: string)
    requires members != []
    ensures Distinct(Folded(e, members).jobIds)
    ensures x in Folded(e, members).jobIds <==> exists i :: 0 <= i < |members| && members[i].jobId == x
  {
    hide Folded, FoldedBefore, TrimSpace;
    var n := |members| - 1;
    LastLists(e, members);
    if n > 0 {
      GroupRecordsApplications(e, members[..n], x);
    }
    assert forall i :: 0 <= i < n ==> members[..n][i] == members[i];
  }

  /** A group lists each company named by an occurrence exactly once. */
  lemma {:induction false} GroupRecordsCompanies(e: Env, members: seq<Queued>, x: string)
    requires members != []
    ensures Distinct(Folded(e, members).companies)
    ensures x in Folded(e, members).companies <==> x != "" && exists i :: 0 <= i < |members| && members[i].company == x
  {
    hide Folded, FoldedBefore, TrimSpace;
    var n := |members| - 1;
    LastLists(e, members);
    if n > 0 {
      GroupRecordsCompanies(e, members[..n], x);
    }
    assert forall i :: 0 <= i < n ==> members[..n][i] == members[i];
  }

  predicate Suggests(e: Env, q: Queued, g: Group) {
    Outcome(e, q).resolved && Outcome(e, q).answer == g.suggested && Outcome(e, q).source == g.source
  }

  /** A group suggests only what the vault answered for one of its occurrences. */
  lemma {:induction false} GroupSuggestsAnAnswer(e: Env, members: seq<Queued>)
    requires members != []
    ensures Folded(e, members).resolved <==> exists i :: 0 <= i < |members| && Outcome(e, members[i]).resolved
    ensures Folded(e, members).resolved ==>
              exists i :: 0 <= i < |members| && Suggests(e, members[i], Folded(e, members))
    ensures !Folded(e, members).resolved ==> Folded(e, members).suggested == ""
  {
    hide Outcome, KeyOf, Signature, UnionOptions, TrimSpace;
    var n := |members| - 1;
    var before, q := members[..n], members[n];
    assert members == before + [q];
    FoldedSnoc(e, before, q);
    assert forall i :: 0 <= i < n ==> before[i] == members[i];
    if n > 0 {
      GroupSuggestsAnAnswer(e, before);
      var g := Folded(e, before);
      if g.resolved && !(Outcome(e, q).resolved && g.suggested == "") {
        var i :| 0 <= i < |before| && Suggests(e, before[i], g);
        assert Suggests(e, members[i], Folded(e, members));
      } else {
        assert Folded(e, members).resolved ==> Suggests(e, members[n], Folded(e, members));
      }
    } else {
      assert Folded(e, members).resolved ==> Suggests(e, members[0], Folded(e, members));
    }
  }

  lemma {:induction false} GroupKeepsFirst(e: Env, members: seq<Queued>)
    requires members != []
    ensures Folded(e, members).key == KeyOf(AsQuestion(members[0]), e.tables)
    ensures Folded(e, members).skill == SkillOf(Folded(e, members).key)
    ensures Folded(e, members).prompt == members[0].prompt
  {
    hide Outcome, KeyOf, TrimSpace;
    if |members| > 1 {
      GroupKeepsFirst(e, members[..|members| - 1]);
    }
  }

  // ----- order independence

  lemma StrictestPermutes(e: Env, a: seq<Queued>, b: seq<Queued>)
    requires multiset(a) == multiset(b)
    ensures Strictest(e, a) == Strictest(e, b)
  {
    hide Outcome;
    SameMembers(a, b);
    forall s | AnySensitivity(e, a, s) || AnySensitivity(e, b, s)
      ensures AnySensitivity(e, a, s) && AnySensitivity(e, b, s)
    {
      var q :| (q in a || q in b) && Outcome(e, q).sensitivity == s;
      assert q in a && q in b;
    }
  }

  lemma DistinctCount<T(!new)>(a: seq<T>, b: seq<T>)
    requires Distinct(a) && Distinct(b) && (forall x :: x in a <==> x in b)
    ensures |a| == |b|
  {
    DistinctSize(a);
    DistinctSize(b);
    var sa, sb := set x | x in a, set x | x in b;
    assert sa == sb;
  }

  lemma {:induction false} DistinctSize<T>(s: seq<T>)
    requires Distinct(s)
    ensures |set x | x in s| == |s|
  {
    if s != [] {
      var n := |s| - 1;
      DistinctSize(s[..n]);
      assert (set x | x in s) == (set x | x in s[..n]) + {s[n]};
    }
  }

  /** What readiness reads of a group. */
  ghost predicate SameReading(g: Group, h: Group) {
    g.sensitivity == h.sensitivity && g.occurrences == h.occurrences && OptionsVary(g) == OptionsVary(h)
  }

  lemma PolicyReadsSensitivity(g: Group)
    ensures GroupPolicy(g) == HumanReview <==> g.sensitivity == Sensitive
    ensures GroupPolicy(g) == PerJob <==> g.sensitivity == GeneratePerJob
  {
  }

  lemma FoldedPermutes(e: Env, a: seq<Queued>, b: seq<Queued>)
    requires multiset(a) == multiset(b) && a != [] && b != []
    ensures SameReading(Folded(e, a), Folded(e, b))
  {
    hide Folded, Strictest, Offers;
    GroupReadsStrictest(e, a);
    GroupReadsStrictest(e, b);
    StrictestPermutes(e, a, b);
    SameMembers(a, b);
    SignaturesAreDistinct(e, a);
    SignaturesAreDistinct(e, b);
    forall s
      ensures s in Folded(e, a).signatures <==> s in Folded(e, b).signatures
    {
      GroupRecordsSignatures(e, a, s);
      GroupRecordsSignatures(e, b, s);
    }
    DistinctCount(Folded(e, a).signatures, Folded(e, b).signatures);
  }

  lemma GroupsPermute(e: Env, a: seq<Queued>, b: seq<Queued>, k: GroupKey)
    requires multiset(a) == multiset(b)
    ensures k in Collect(e, a).groups <==> k in Collect(e, b).groups
    ensures k in Collect(e, a).groups ==> SameReading(Collect(e, a).groups[k], Collect(e, b).groups[k])
  {
    hide Collect, Folded, SameReading, InGroup, Filter;
    CollectGroups(e, a, k);
    CollectGroups(e, b, k);
    FilterPermutes(a, b, InGroup(e, k));
    if Filter(a, InGroup(e, k)) != [] {
      assert Filter(b, InGroup(e, k)) != [] by {
        assert |Filter(a, InGroup(e, k))| == |Filter(b, InGroup(e, k))|;
      }
      FoldedPermutes(e, Filter(a, InGroup(e, k)), Filter(b, InGroup(e, k)));
    }
  }

  /** Two passes that agree on everything readiness reads. */
  ghost predicate SameCounts(c: Collected, d: Collected) {
    && c.unresolved == d.unresolved && c.absences == d.absences
    && c.applications == d.applications && c.blocked == d.blocked
    && (forall j :: (if j in c.perJob then c.perJob[j] else 0) == (if j in d.perJob then d.perJob[j] else 0))
    && c.groups.Keys == d.groups.Keys
    && (forall k :: k in c.groups ==> SameReading(c.groups[k], d.groups[k]))
  }

  lemma GroupSummaryReadsCounts(g: map<GroupKey, Group>, h: map<GroupKey, Group>)
    requires g.Keys == h.Keys && forall k :: k in g ==> SameReading(g[k], h[k])
    ensures UnlockableCounts(g) == UnlockableCounts(h) && |g| == |h|
    ensures WithPolicy(g, HumanReview) == WithPolicy(h, HumanReview)
    ensures WithPolicy(g, PerJob) == WithPolicy(h, PerJob)
  {
    forall k | k in g
      ensures GroupPolicy(g[k]) == HumanReview <==> GroupPolicy(h[k]) == HumanReview
      ensures GroupPolicy(g[k]) == PerJob <==> GroupPolicy(h[k]) == PerJob
    {
      PolicyReadsSensitivity(g[k]);
      PolicyReadsSensitivity(h[k]);
    }
    hide GroupPolicy;
    assert |g| == |g.Keys| && |h| == |h.Keys|;
  }

  lemma UninspectedReadsCounts(c: Collected, d: Collected, discovered: map<string, int>)
    requires SameCounts(c, d)
    ensures Uninspected(CountsOf(c), discovered) == Uninspected(CountsOf(d), discovered)
  {
    hide SameReading;
  }

  lemma SummaryReadsCounts(c: Collected, d: Collected, discovered: map<string, int>)
    requires SameCounts(c, d)
    ensures Summary(c, discovered) == Summary(d, discovered)
  {
    GroupSummaryReadsCounts(c.groups, d.groups);
    UninspectedReadsCounts(c, d, discovered);
    hide SameReading, UnlockableCounts, GroupPolicy, WithPolicy, Uninspected, Sum;
  }

  /** Readiness is a function of the multiset of queued questions: no reordering of the queue changes any figure. */
  lemma ReadinessIgnoresOrder(e: Env, a: seq<Queued>, b: seq<Queued>, discovered: map<string, int>)
    requires multiset(a) == multiset(b)
    ensures Summary(Collect(e, a), discovered) == Summary(Collect(e, b), discovered)
  {
    hide Collect, Summary, SameReading, Filter, Pending;
    CollectCounts(e, a);
    CollectCounts(e, b);
    SameMembers(a, b);
    FilterPermutes(a, b, IsPending(e));
    FilterPermutes(a, b, IsAbsence(e));
    forall j: string
      ensures |Filter(a, OfJob(j))| == |Filter(b, OfJob(j))|
    {
      FilterPermutes(a, b, OfJob(j));
    }
    forall j
      ensures (if j in Collect(e, a).perJob then Collect(e, a).perJob[j] else 0)
           == (if j in Collect(e, b).perJob then Collect(e, b).perJob[j] else 0)
    {
      CollectPerJob(e, a, j);
      CollectPerJob(e, b, j);
    }
    forall k
      ensures k in Collect(e, a).groups <==> k in Collect(e, b).groups
      ensures k in Collect(e, a).groups ==> SameReading(Collect(e, a).groups[k], Collect(e, b).groups[k])
    {
      GroupsPermute(e, a, b, k);
    }
    SummaryReadsCounts(Collect(e, a), Collect(e, b), discovered);
  }

  // ----- arithmetic of the summary

  function Occurrences(groups: map<GroupKey, Group>): map<GroupKey, int> {
    map k | k in groups :: groups[k].occurrences
  }

  /** No pending question is lost or counted twice: the groups' occurrences add up to the unresolved questions. */
  lemma {:induction false} OccurrencesAddUp(e: Env, queue: seq<Queued>)
    ensures Sum(Occurrences(Collect(e, queue).groups)) == Collect(e, queue).unresolved
  {
    hide Outcome, KeyOf;
    if queue != [] {
      var c, q := Collect(e, queue[..|queue| - 1]), queue[|queue| - 1];
      OccurrencesAddUp(e, queue[..|queue| - 1]);
      if Pending(e, q) {
        var key := KeyOf(AsQuestion(q), e.tables);
        var d := Collect(e, queue);
        assert Occurrences(d.groups) == Occurrences(c.groups)[key := d.groups[key].occurrences];
        SumUpdate(Occurrences(c.groups), key, d.groups[key].occurrences);
      }
    }
  }

  lemma {:induction false} EveryGroupOccurs(e: Env, queue: seq<Queued>)
    ensures forall k :: k in Collect(e, queue).groups ==> Collect(e, queue).groups[k].occurrences > 0
  {
    hide Outcome, KeyOf;
    if queue != [] {
      EveryGroupOccurs(e, queue[..|queue| - 1]);
    }
  }

  lemma {:induction false} CountBySum<K(!new)>(m: map<K, int>)
    requires forall k :: k in m ==> m[k] >= 1
    ensures |m| <= Sum(m)
    decreases |m|
  {
    if m != map[] {
      var k :| k in m;
      SumWithout(m, k);
      assert |m - {k}| == |m| - 1 by {
        assert (m - {k}).Keys == m.Keys - {k};
      }
      CountBySum(m - {k});
    }
  }

  /** The figures fit together, whatever the queue and the discovered field counts. */
  lemma ReadinessFitsTogether(e: Env, queue: seq<Queued>, discovered: map<string, int>)
    ensures var r := Summary(Collect(e, queue), discovered);
            && r.resolved + r.unresolved == r.fields && 0 <= r.resolved
            && r.fieldsUnlockable <= r.unresolved && r.answersNeeded <= r.fieldsUnlockable
            && r.uniqueQuestions <= r.unresolved
            && r.sensitiveDecisions + r.perJobResponses + r.answersNeeded <= r.uniqueQuestions
            && r.applicationsBlocked <= r.applications
            && 0 <= KnownPercent(r) <= 100
  {
    var c := Collect(e, queue);
    var r := Summary(c, discovered);
    OccurrencesAddUp(e, queue);
    EveryGroupOccurs(e, queue);
    CountBySum(Occurrences(c.groups));
    CountBySum(UnlockableCounts(c.groups));
    SumMonotone(UnlockableCounts(c.groups), Occurrences(c.groups));
    assert |Occurrences(c.groups)| == |c.groups| by {
      assert Occurrences(c.groups).Keys == c.groups.Keys;
    }
    GroupsPartition(c.groups);
    CollectCounts(e, queue);
    SubsetSize(c.blocked, c.applications + discovered.Keys);
    KnownPercentInRange(r);
  }

  lemma GroupsPartition(groups: map<GroupKey, Group>)
    ensures |WithPolicy(groups, HumanReview)| + |WithPolicy(groups, PerJob)| + |UnlockableCounts(groups)| <= |groups|
  {
    hide GroupPolicy;
    var human, perJob := WithPolicy(groups, HumanReview), WithPolicy(groups, PerJob);
    var bulk := UnlockableCounts(groups).Keys;
    assert human !! perJob && (human + perJob) !! bulk;
    SubsetSize(human + perJob + bulk, groups.Keys);
    assert |human + perJob + bulk| == |human| + |perJob| + |bulk|;
  }

  lemma {:induction false} SubsetSize<T>(a: set<T>, b: set<T>)
    requires a <= b
    ensures |a| <= |b|
  {
    assert b == a + (b - a);
  }

  lemma KnownPercentInRange(r: Readiness)
    requires 0 <= r.resolved <= r.fields
    ensures 0 <= KnownPercent(r) <= 100
  {
    if r.fields > 0 {
      var share := r.resolved as real / r.fields as real;
      assert 0.0 <= share <= 1.0;
    }
  }
}
