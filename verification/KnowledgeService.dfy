/** The knowledge service: an object over the vault that walks the queue, counts, and approves. Walking the queue
    bumps reuse counters in the vault and changes nothing else there.
 */
module KnowledgeService {
  import opened Model
  import opened Text
  import opened Collections
  import opened Normalizer
  import opened Recognizers
  import opened Vault
  import opened Resolver
  import opened VaultStore
  import opened Knowledge
  import opened GroupRecords
  import opened KnowledgeLaws
  import opened KnowledgeApproval

  datatype Report = Report(examined: nat, resolved: nat, applications: nat, stillUnresolved: nat)

  datatype Approved = Approved(id: int, canonical: string, aliasesAdded: nat, report: Report)

  function IsResolved(e: Env): Queued -> bool {
    q => !Pending(e, q)
  }

  /** The applications with a question that resolves by itself. */
  function Helped(e: Env, queue: seq<Queued>): set<string> {
    set q | q in queue && !Pending(e, q) :: q.jobId
  }

  lemma HelpedSnoc(e: Env, queue: seq<Queued>, q: Queued)
    ensures Helped(e, queue + [q]) == Helped(e, queue) + (if Pending(e, q) then {} else {q.jobId})
  {
    hide Outcome;
    assert forall x :: x in queue + [q] <==> x in queue || x == q;
  }

  /** What a pass over the queue finds in a vault. */
  ghost function ReportOf(e: Env, queue: seq<Queued>): Report {
    Report(|queue|, |Filter(queue, IsResolved(e))|, |Helped(e, queue)|,
           |Filter(queue, IsPending(e))|)
  }

  // ----- operations do not look at reuse counters

  lemma PutIgnoresUse(v: State, w: State, row: Row, other: Row)
    requires SameButUse(v, w) && other == row.(useCount := other.useCount, lastUsedAt := other.lastUsedAt)
    ensures SameButUse(Written(v, row), Written(w, other))
  {
  }

  lemma StoreIgnoresUse(v: State, w: State, key: string, prompt: string, text: string, kind: Kind,
                        sensitivity: Sensitivity,
                        scope: string, reuse: bool, provenance: Provenance, now: int, t: Tables)
    requires Valid(v) && Valid(w) && SameButUse(v, w) && text != "" && sensitivity != GeneratePerJob
    requires sensitivity == Sensitive && reuse ==> OperatorDecided(provenance)
    ensures var s := StoreAnswer(v, key, prompt, text, kind, sensitivity, scope, reuse, provenance, now, t);
            var r := StoreAnswer(w, key, prompt, text, kind, sensitivity, scope, reuse, provenance, now, t);
            r.id == s.id && SameButUse(s.vault, r.vault)
  {
    assert IndexValid(v) && IndexValid(w);
    hide Normalize, Valid, RowSound, Extends, Written, Put, StoreRow, ApprovedRow, NewRow, RowFor, SameButUse;
    var row := ApprovedRow(v, key, prompt, text, kind, sensitivity, scope, reuse, provenance, now);
    var other := ApprovedRow(w, key, prompt, text, kind, sensitivity, scope, reuse, provenance, now);
    ApprovedRowIsSound(v, key, prompt, text, kind, sensitivity, scope, reuse, provenance, now);
    ApprovedRowIsSound(w, key, prompt, text, kind, sensitivity, scope, reuse, provenance, now);
    ApprovedRowIgnoresUse(v, w, key, prompt, text, kind, sensitivity, scope, reuse, provenance, now);
    StoreRowIgnoresUse(v, w, row, other, Normalize(prompt, t));
  }

  lemma ApprovedRowIgnoresUse(v: State, w: State, key: string, prompt: string, text: string, kind: Kind,
                              sensitivity: Sensitivity, scope: string, reuse: bool, provenance: Provenance, now: int)
    requires IndexValid(v) && IndexValid(w) && SameButUse(v, w)
    ensures var row := ApprovedRow(v, key, prompt, text, kind, sensitivity, scope, reuse, provenance, now);
            var other := ApprovedRow(w, key, prompt, text, kind, sensitivity, scope, reuse, provenance, now);
            other == row.(useCount := other.useCount, lastUsedAt := other.lastUsedAt)
  {
    if (key, scope) in v.index {
      var id := v.index[(key, scope)];
      assert id in v.rows && w.rows[id].approvedAt == v.rows[id].approvedAt;
    }
  }

  lemma StoreRowIgnoresUse(v: State, w: State, row: Row, other: Row, phrasing: string)
    requires Valid(v) && Valid(w) && SameButUse(v, w) && row.revokedAt.None? && RowSound(row) && RowSound(other)
    requires other == row.(useCount := other.useCount, lastUsedAt := other.lastUsedAt)
    ensures var s, r := StoreRow(v, row, phrasing), StoreRow(w, other, phrasing);
            r.id == s.id && SameButUse(s.vault, r.vault)
  {
    hide Valid, RowSound, Extends, Written, WithAlias, SameButUse;
    PutIgnoresUse(v, w, row, other);
    PutWrites(v, row);
    PutWrites(w, other);
    SameRowFor(v, w, row.key, row.scope);
    if row.reuse {
      AliasIgnoresUse(Put(v, row), Put(w, other), phrasing, RowFor(v, row.key, row.scope));
    }
  }

  lemma SameRowFor(v: State, w: State, key: string, scope: string)
    requires SameButUse(v, w)
    ensures RowFor(v, key, scope) == RowFor(w, key, scope)
  {
  }

  lemma AliasIgnoresUse(v: State, w: State, alias: string, id: int)
    requires Valid(v) && Valid(w) && SameButUse(v, w) && Live(v, id) && Live(w, id)
    ensures SameButUse(WithAlias(v, alias, id), WithAlias(w, alias, id))
  {
    hide Valid, Extends;
  }

  lemma SaveIgnoresUse(v: State, w: State, req: SaveRequest, now: int, t: Tables)
    requires Valid(v) && Valid(w) && SameButUse(v, w)
    ensures match Save(v, req, now, t)
            case Ok(s) => && Save(w, req, now, t).Ok? && Save(w, req, now, t).value.id == s.id
                          && SameButUse(s.vault, Save(w, req, now, t).value.vault)
            case Fail(error) => Save(w, req, now, t) == Fail(error)
  {
    hide Classify, Normalize, QuestionKey, StoreAnswer, Valid, SameButUse;
    if Save(v, req, now, t).Ok? {
      var p := Prepared(req.question.prompt, req.answer, t).value;
      var kind := if req.kind.None? then KindText else req.kind.value;
      StoreIgnoresUse(v, w, QuestionKey(p.0, t), p.0, p.1, kind, StoredSensitivity(req, t), EffectiveScope(req.scope),
                      req.reuse, req.provenance.value, now, t);
    }
  }

  lemma AbsenceIgnoresUse(v: State, w: State, req: AbsenceRequest, now: int, t: Tables)
    requires Valid(v) && Valid(w) && SameButUse(v, w)
    ensures match SaveAbsence(v, req, now, t)
            case Ok(s) => && SaveAbsence(w, req, now, t).Ok? && SaveAbsence(w, req, now, t).value.id == s.id
                          && SameButUse(s.vault, SaveAbsence(w, req, now, t).value.vault)
            case Fail(error) => SaveAbsence(w, req, now, t) == Fail(error)
  {
    hide Classify, Normalize, QuestionKey, StoreAnswer, Valid, SameButUse;
    if SaveAbsence(v, req, now, t).Ok? {
      var p := Prepared(req.question.prompt, req.reason, t).value;
      StoreIgnoresUse(v, w, QuestionKey(p.0, t), p.0, p.1, KindAbsence, Classify(req.question, t),
                      EffectiveScope(req.scope), req.reuse, OperatorApproved, now, t);
    }
  }

  lemma BindingIgnoresUse(v: State, w: State, id: int, prompts: seq<string>, confirmed: bool, t: Tables)
    requires Valid(v) && Valid(w) && SameButUse(v, w)
    ensures match AddAliases(v, id, prompts, confirmed, t)
            case Ok(x) => AddAliases(w, id, prompts, confirmed, t).Ok?
                && SameButUse(x, AddAliases(w, id, prompts, confirmed, t).value)
            case Fail(error) => AddAliases(w, id, prompts, confirmed, t) == Fail(error)
  {
    hide Normalize, Bound, Valid, Extends;
  }

  lemma SameTrans(u: State, v: State, w: State)
    requires SameButUse(u, v) && SameButUse(v, w)
    ensures SameButUse(u, w)
  {
  }

  /** How many phrasings an accepted answer gains beyond its own wording: none for an unconfirmed declaration. */
  function PhrasingsAdded(s: Stored, g: Group, confirmed: bool, t: Tables): nat
    requires s.id in s.vault.rows
  {
    if s.vault.rows[s.id].sensitivity == Sensitive && !confirmed then 0
    else Recognizable(ExtraPhrasings(g.phrasings, CanonicalPrompt(g, t), t), t)
  }

  ghost function ApprovalAliases(e: Env, queue: seq<Queued>, req: ApproveRequest, now: int): nat
    requires Valid(e.vault) && Approve(e, queue, req, now).Accepted?
  {
    var g := GroupNow(e, queue, req.group).value;
    var s := Save(e.vault, SaveRequestFor(g, req, e.tables), now, e.tables).value;
    SavedIsReusable(e.vault, g, req, now, e.tables);
    PhrasingsAdded(s, g, req.confirmed, e.tables)
  }

  ghost function AbsenceAliases(e: Env, queue: seq<Queued>, req: AbsenceApproval, now: int): nat
    requires Valid(e.vault) && ApproveAbsence(e, queue, req, now).Accepted?
  {
    var g := GroupNow(e, queue, req.group).value;
    var s := SaveAbsence(e.vault, AbsenceRequestFor(g, req, e.tables), now, e.tables).value;
    AbsenceFiles(e.vault, AbsenceRequestFor(g, req, e.tables), now, e.tables);
    PhrasingsAdded(s, g, req.confirmed, e.tables)
  }

  /** The wording a group's answer is filed under. */
  function FiledWording(e: Env, queue: seq<Queued>, key: GroupKey): string {
    match GroupNow(e, queue, key)
    case Some(g) => TrimSpace(CanonicalPrompt(g, e.tables))
    case None => ""
  }

  lemma SameReflexive(v: State)
    ensures SameButUse(v, v)
  {
  }

  lemma OutcomeIgnoresUse(e: Env, w: State, q: Queued)
    requires SameButUse(e.vault, w)
    ensures Outcome(e.(vault := w), q) == Outcome(e, q)
  {
    ResolveIgnoresUse(e.vault, w, AsQuestion(q), Context(q.ats, q.company), e.facts, 0, e.tables);
  }

  /** A report does not depend on the reuse counters. */
  lemma ReportIgnoresUse(e: Env, w: State, queue: seq<Queued>)
    requires SameButUse(e.vault, w)
    ensures ReportOf(e.(vault := w), queue) == ReportOf(e, queue)
  {
    var f := e.(vault := w);
    forall q
      ensures Outcome(f, q) == Outcome(e, q)
    {
      OutcomeIgnoresUse(e, w, q);
    }
    hide Outcome, Filter;
    FilterCongruent(queue, IsResolved(e), IsResolved(f));
    FilterCongruent(queue, IsPending(e), IsPending(f));
    assert Helped(e, queue) == Helped(f, queue);
  }

  /** Re-evaluation and the inbox agree on how many questions are unresolved, and nothing falls between. */
  lemma ReportAgreesWithInbox(e: Env, queue: seq<Queued>)
    ensures ReportOf(e, queue).stillUnresolved == Collect(e, queue).unresolved
    ensures ReportOf(e, queue).resolved + ReportOf(e, queue).stillUnresolved == ReportOf(e, queue).examined
  {
    hide Collect, Outcome;
    CollectCounts(e, queue);
    ResolvedOrPending(e, queue);
  }

  lemma {:induction false} ResolvedOrPending(e: Env, queue: seq<Queued>)
    ensures |Filter(queue, IsResolved(e))| + |Filter(queue, IsPending(e))| == |queue|
  {
    hide Outcome;
    if queue != [] {
      ResolvedOrPending(e, queue[..|queue| - 1]);
    }
  }

  /** What a report counts: every question examined once, and every application with a question that resolves by itself
      once, however many of its questions do. */
  lemma ReportExactly(e: Env, queue: seq<Queued>)
    ensures var r := ReportOf(e, queue);
            && r.examined == |queue| && r.resolved == |Filter(queue, IsResolved(e))|
            && r.applications == |set q | q in queue && Outcome(e, q).autoFill :: q.jobId|
            && r.stillUnresolved == |Filter(queue, IsPending(e))|
  {
    hide Outcome, Filter;
    assert Helped(e, queue) == set q | q in queue && Outcome(e, q).autoFill :: q.jobId;
  }

  // ----- counting over maps

  method AddUp(m: map<string, int>) returns (total: int)
    ensures total == Sum(m)
  {
    total := 0;
    var rest := m;
    while rest != map[]
      invariant Sum(m) == total + Sum(rest)
      decreases |rest|
    {
      var k :| k in rest;
      SumWithout(rest, k);
      assert (rest - {k}).Keys == rest.Keys - {k};
      total := total + rest[k];
      rest := rest - {k};
    }
  }

  /** What readiness counts of the groups: declarations, per-job responses, and the groups and fields one answer
      unlocks. */
  datatype Figures = Figures(human: int, perJob: int, needed: int, unlockable: int)

  ghost function FiguresOf(groups: map<GroupKey, Group>): Figures {
    Figures(|WithPolicy(groups, HumanReview)|, |WithPolicy(groups, PerJob)|,
            |UnlockableCounts(groups)|, Sum(UnlockableCounts(groups)))
  }

  /** One group counted. */
  function Counted(f: Figures, policy: Policy, vary: bool, occurrences: nat): Figures {
    if policy == HumanReview then f.(human := f.human + 1)
    else if policy == PerJob then f.(perJob := f.perJob + 1)
    else if !vary then f.(needed := f.needed + 1, unlockable := f.unlockable + occurrences)
    else f
  }

  /** Finishes every group and reads the four figures off them, in whatever order they are visited. */
  method TallyGroups(records: map<GroupKey, GroupRecord>, ghost groups: map<GroupKey, Group>) returns (f: Figures)
    requires Mirrors(records, groups)
    modifies records.Values
    ensures Mirrors(records, Shown(groups)) && f == FiguresOf(groups)
  {
    f := Figures(0, 0, 0, 0);
    var rest := records.Keys;
    NothingVisited(groups);
    hide FiguresOf, Visited, Finalized, GroupPolicy, OptionsVary;
    while rest != {}
      invariant rest <= records.Keys && records.Keys == groups.Keys
      invariant Halfway(records, groups, rest) && f == FiguresOf(Visited(groups, rest))
      decreases rest
    {
      hide Mirrors, Halfway, FiguresOf, Visited, GroupPolicy, OptionsVary, Counted;
      var k :| k in rest;
      var policy, vary, occurrences := FinishOne(records, k, groups, rest);
      VisitOne(groups, rest, k);
      f := Counted(f, policy, vary, occurrences);
      rest := rest - {k};
    }
    AllVisited(groups);
  }

  lemma AllVisited(groups: map<GroupKey, Group>)
    ensures Visited(groups, {}) == groups
  {
  }

  lemma NothingVisited(groups: map<GroupKey, Group>)
    ensures FiguresOf(Visited(groups, groups.Keys)) == Figures(0, 0, 0, 0)
  {
    assert Visited(groups, groups.Keys) == map[];
  }

  function Visited(groups: map<GroupKey, Group>, rest: set<GroupKey>): map<GroupKey, Group> {
    map k | k in groups && k !in rest :: groups[k]
  }

  /** What visiting one more group adds to the figures. */
  lemma VisitOne(groups: map<GroupKey, Group>, rest: set<GroupKey>, k: GroupKey)
    requires k in rest && k in groups
    ensures FiguresOf(Visited(groups, rest - {k})) ==
            Counted(FiguresOf(Visited(groups, rest)), GroupPolicy(groups[k]), OptionsVary(groups[k]),
                    groups[k].occurrences)
  {
    hide WithPolicy, UnlockableCounts, GroupPolicy, OptionsVary, Sum;
    assert Visited(groups, rest - {k}) == Visited(groups, rest)[k := groups[k]];
    assert k !in Visited(groups, rest);
    hide Visited;
    TallyOne(Visited(groups, rest), k, groups[k]);
    WithPolicyOne(Visited(groups, rest), k, groups[k], HumanReview);
    WithPolicyOne(Visited(groups, rest), k, groups[k], PerJob);
  }

  lemma TallyOne(done: map<GroupKey, Group>, k: GroupKey, g: Group)
    requires k !in done
    ensures var next := done[k := g];
            && |UnlockableCounts(next)| == |UnlockableCounts(done)| + (if Unlockable(g) then 1 else 0)
            && Sum(UnlockableCounts(next)) == Sum(UnlockableCounts(done)) + (if Unlockable(g) then g.occurrences else 0)
  {
    hide GroupPolicy, Unlockable, Sum;
    var next := done[k := g];
    if Unlockable(g) {
      assert UnlockableCounts(next) == UnlockableCounts(done)[k := g.occurrences];
      SumUpdate(UnlockableCounts(done), k, g.occurrences);
    } else {
      assert UnlockableCounts(next) == UnlockableCounts(done);
    }
  }

  lemma WithPolicyOne(done: map<GroupKey, Group>, k: GroupKey, g: Group, p: Policy)
    requires k !in done
    ensures |WithPolicy(done[k := g], p)| == |WithPolicy(done, p)| + (if GroupPolicy(g) == p then 1 else 0)
  {
    hide GroupPolicy;
    assert WithPolicy(done[k := g], p) == WithPolicy(done, p) + (if GroupPolicy(g) == p then {k} else {});
  }

  /** An accepted approval leaves a live, reusable row. */
  lemma SavedIsReusable(v: State, g: Group, req: ApproveRequest, now: int, t: Tables)
    requires Valid(v) && Save(v, SaveRequestFor(g, req, t), now, t).Ok?
    ensures var s := Save(v, SaveRequestFor(g, req, t), now, t).value;
            SaveRequestFor(g, req, t).reuse && Live(s.vault, s.id) && s.vault.rows[s.id].reuse
  {
    hide Save, SaveRequestFor;
    SaveRequiresGrant(v, g, req, now, t);
    SaveFiles(v, SaveRequestFor(g, req, t), now, t);
  }

  /** One question counted. */
  function NextCounts(before: Counts, q: Queued, r: Resolution): Counts {
    var seen := before.(
      applications := before.applications + {q.jobId},
      perJob := before.perJob[q.jobId := 1 + if q.jobId in before.perJob then before.perJob[q.jobId] else 0]);
    if !r.autoFill then seen.(unresolved := before.unresolved + 1, blocked := before.blocked + {q.jobId})
    else if r.absence then seen.(absences := before.absences + 1)
    else seen
  }

  lemma CollectOneIs(e: Env, c: Collected, q: Queued)
    ensures CountsOf(CollectOne(e, c, q)) == NextCounts(CountsOf(c), q, Outcome(e, q))
    ensures var key := KeyOf(AsQuestion(q), e.tables);
            var group := if key in c.groups then c.groups[key] else Opened(q, Outcome(e, q), e.tables);
            CollectOne(e, c, q).groups ==
            if Pending(e, q) then c.groups[key := Merged(group, q, Outcome(e, q))] else c.groups
  {
    hide Outcome, Merged, Opened, KeyOf;
  }

  /** The groups as the operator sees them. */
  function Shown(groups: map<GroupKey, Group>): map<GroupKey, Group> {
    map k | k in groups :: Finalized(groups[k])
  }

  lemma AnswerIsStored(e: Env, queue: seq<Queued>, req: ApproveRequest, now: int, w: State)
    requires Valid(e.vault) && Approve(e, queue, req, now).Accepted?
    requires SameButUse(Approve(e, queue, req, now).value.vault, w)
    ensures GroupNow(e, queue, req.group).Some?
    ensures StoresAnswer(w, Approve(e, queue, req, now).value.id,
                                           GroupNow(e, queue, req.group).value, req, e.tables)
  {
    hide Approve, GroupNow, SameButUse, Valid, TrimSpace, RowReads, FiledUnder, ApprovedAs;
    ApprovalStoresExactly(e, queue, req, now);
    var s, g, t := Approve(e, queue, req, now).value, GroupNow(e, queue, req.group).value, e.tables;
    UseKeepsReading(
      s.vault, w, s.id, FiledUnder(req.group, g.prompt, t), TrimSpace(req.answer), KindText,
      ApprovedAs(g, t), EffectiveScope(req.scope),
      if TrimSpace(req.answer) == TrimSpace(g.suggested) then OperatorApproved else OperatorEdited, t);
  }

  lemma AbsenceIsStored(e: Env, queue: seq<Queued>, req: AbsenceApproval, now: int, w: State)
    requires Valid(e.vault) && ApproveAbsence(e, queue, req, now).Accepted?
    requires SameButUse(ApproveAbsence(e, queue, req, now).value.vault, w)
    ensures GroupNow(e, queue, req.group).Some?
    ensures StoresAbsence(w, ApproveAbsence(e, queue, req, now).value.id,
                                            GroupNow(e, queue, req.group).value, req, e.tables)
  {
    hide ApproveAbsence, GroupNow, SameButUse, Valid, TrimSpace, RowReads, FiledUnder, Classify;
    AbsenceStoresExactly(e, queue, req, now);
    var s, g, t := ApproveAbsence(e, queue, req, now).value, GroupNow(e, queue, req.group).value, e.tables;
    UseKeepsReading(
      s.vault, w, s.id, FiledUnder(req.group, g.prompt, t), TrimSpace(req.reason), KindAbsence,
      Classify(QuestionFromGroup(g, t), t), EffectiveScope(req.scope), OperatorApproved, t);
  }

  class Service {
    const store: Store
    const facts: Option<Facts>
    var queue: seq<Queued>
    var discovered: map<string, int>

    constructor (store: Store, facts: Option<Facts>, queue: seq<Queued>, discovered: map<string, int>)
      ensures this.store == store && this.facts == facts && this.queue == queue && this.discovered == discovered
    {
      this.store, this.facts, this.queue, this.discovered := store, facts, queue, discovered;
    }

    ghost function Seen(): Env
      reads this, store
    {
      Env(store.Contents(), facts, store.tables)
    }

    /** Resolves one queued question against the vault as it is. */
    method ResolveQueued(q: Queued, now: int, ghost e: Env) returns (r: Resolution)
      requires e.facts == facts && e.tables == store.tables && SameButUse(e.vault, store.Contents())
      modifies store
      ensures r == Outcome(e, q)
      ensures SameButUse(e.vault, store.Contents())
      ensures Valid(old(store.Contents())) ==> Valid(store.Contents())
    {
      ResolveIgnoresUse(e.vault, store.Contents(), AsQuestion(q), Context(q.ats, q.company), facts, now, store.tables);
      r := store.ResolveQuestion(AsQuestion(q), Context(q.ats, q.company), facts, now);
    }

    /** One pass over the pending questions, building every group's record and the running counts. */
    method WalkQueue(now: int) returns (counts: Counts, records: map<GroupKey, GroupRecord>)
      requires Valid(store.Contents())
      modifies store
      ensures counts == CountsOf(Collect(old(Seen()), queue))
      ensures Mirrors(records, Collect(old(Seen()), queue).groups) && fresh(records.Values)
      ensures SameButUse(old(store.Contents()), store.Contents()) && Valid(store.Contents())
    {
      hide Outcome, CollectOne, SameButUse, Valid;
      ghost var e, c := Seen(), NOTHING;
      SameReflexive(e.vault);
      counts, records := CountsOf(NOTHING), map[];
      for i := 0 to |queue|
        invariant c == Collect(e, queue[..i])
        invariant counts == CountsOf(c) && Mirrors(records, c.groups) && fresh(records.Values)
        invariant SameButUse(e.vault, store.Contents()) && Valid(store.Contents())
      {
        hide Mirrors;
        assert queue[..i + 1][..i] == queue[..i];
        counts, records := WalkNext(counts, records, queue[i], now, e, c);
        c := CollectOne(e, c, queue[i]);
      }
      assert queue[..|queue|] == queue;
    }

    /** One question of the pass: counted, and folded into its group unless it resolves by itself. */
    method WalkNext(before: Counts, groups: map<GroupKey, GroupRecord>, q: Queued, now: int, ghost e: Env,
                    ghost c: Collected)
      returns (counts: Counts, records: map<GroupKey, GroupRecord>)
      requires e.facts == facts && e.tables == store.tables
      requires SameButUse(e.vault, store.Contents()) && Valid(store.Contents())
      requires before == CountsOf(c) && Mirrors(groups, c.groups)
      modifies store, groups.Values
      ensures counts == CountsOf(CollectOne(e, c, q)) && Mirrors(records, CollectOne(e, c, q).groups)
      ensures fresh(records.Values - groups.Values)
      ensures SameButUse(e.vault, store.Contents()) && Valid(store.Contents())
    {
      CollectOneIs(e, c, q);
      hide Outcome, Merged, Opened, KeyOf, SameButUse, Valid, CollectOne, CountsOf, NextCounts, Mirrors;
      var resolution := ResolveQueued(q, now, e);
      counts, records := NextCounts(before, q, resolution), groups;
      if !resolution.autoFill {
        records := FoldIn(groups, q, resolution, c.groups);
      }
    }

    /** Folds an occurrence into its group's record, opening one if there is none. */
    method FoldIn(groups: map<GroupKey, GroupRecord>, q: Queued, r: Resolution, ghost values: map<GroupKey, Group>)
      returns (records: map<GroupKey, GroupRecord>)
      requires Mirrors(groups, values)
      modifies groups.Values
      ensures var key := KeyOf(AsQuestion(q), store.tables);
              var group := if key in values then values[key] else Opened(q, r, store.tables);
              Mirrors(records, values[key := Merged(group, q, r)])
      ensures fresh(records.Values - groups.Values)
    {
      hide Merged, Opened, KeyOf, Mirrors;
      records := groups;
      ghost var now := values;
      var key := KeyOf(AsQuestion(q), store.tables);
      assert records.Keys == values.Keys by { MirrorsKeys(records, values); }
      if key !in records {
        records := OpenRecord(groups, key, q, r, store.tables, values);
        now := values[key := Opened(q, r, store.tables)];
        MirrorsKeys(records, now);
      }
      MergeInto(records, key, q, r, now);
      assert now[key := Merged(now[key], q, r)] == values[key := Merged(now[key], q, r)];
    }

    /** The whole pass: the finished groups, and the readiness figures. */
    method CollectQueue(now: int) returns (records: map<GroupKey, GroupRecord>, r: Readiness)
      requires Valid(store.Contents())
      modifies store
      ensures fresh(records.Values) && Mirrors(records, Shown(Collect(old(Seen()), queue).groups))
      ensures r == Summary(Collect(old(Seen()), queue), discovered)
      ensures SameButUse(old(store.Contents()), store.Contents()) && Valid(store.Contents())
    {
      hide Collect, SameButUse, Valid, FiguresOf, Summary, CountsOf, Shown;
      var counts;
      counts, records := WalkQueue(now);
      ghost var c := Collect(old(Seen()), queue);
      assert |records| == |records.Keys| == |c.groups.Keys| == |c.groups|;
      var f := TallyGroups(records, c.groups);
      r := ReadFigures(counts, f, |records|, c);
    }

    /** The readiness figures from what a pass counted. */
    method ReadFigures(counts: Counts, f: Figures, unique: nat, ghost c: Collected) returns (r: Readiness)
      requires counts == CountsOf(c) && f == FiguresOf(c.groups) && unique == |c.groups|
      ensures r == Summary(c, discovered)
    {
      hide Sum, WithPolicy, UnlockableCounts, Uninspected;
      var applications := counts.applications + discovered.Keys;
      var known := AddUp(discovered);
      var unknown := AddUp(Uninspected(counts, discovered));
      var fields := known + unknown;
      if fields < counts.unresolved {
        fields := counts.unresolved;
      }
      r := Readiness(|applications|, fields, fields - counts.unresolved, counts.unresolved, unique, f.human, f.perJob,
                     f.unlockable, f.needed, |counts.blocked|, counts.absences);
    }

    /** The readiness figures on their own. */
    method ReadQueue(now: int) returns (r: Readiness)
      requires Valid(store.Contents())
      modifies store
      ensures r == Summary(Collect(old(Seen()), queue), discovered)
      ensures SameButUse(old(store.Contents()), store.Contents()) && Valid(store.Contents())
    {
      hide Collect, SameButUse, Valid, Summary;
      var records;
      records, r := CollectQueue(now);
    }

    /** Records what the current vault says about every queued question. */
    method ReEvaluate(now: int) returns (report: Report)
      requires Valid(store.Contents())
      modifies store
      ensures report == ReportOf(old(Seen()), queue)
      ensures SameButUse(old(store.Contents()), store.Contents()) && Valid(store.Contents())
    {
      hide Outcome, SameButUse, Valid;
      ghost var e := Seen();
      SameReflexive(e.vault);
      var resolved: nat, still: nat, helped: set<string> := 0, 0, {};
      for i := 0 to |queue|
        invariant resolved == |Filter(queue[..i], IsResolved(e))| && still == |Filter(queue[..i], IsPending(e))|
        invariant helped == Helped(e, queue[..i])
        invariant SameButUse(e.vault, store.Contents()) && Valid(store.Contents())
      {
        hide Outcome, SameButUse, Valid, Helped, Filter;
        HelpedSnoc(e, queue[..i], queue[i]);
        assert queue[..i + 1] == queue[..i] + [queue[i]];
        FilterSnoc(queue[..i], queue[i], IsResolved(e));
        FilterSnoc(queue[..i], queue[i], IsPending(e));
        var resolution := ResolveQueued(queue[i], now, e);
        if resolution.autoFill {
          resolved := resolved + 1;
          helped := helped + {queue[i].jobId};
        } else {
          still := still + 1;
        }
      }
      assert queue[..|queue|] == queue;
      report := Report(|queue|, resolved, |helped|, still);
    }

    /** Binds the group's phrasings other than the wording the answer was filed under. */
    method BindPhrasings(id: int, g: Group, reuse: bool, confirmed: bool, ghost s: Stored) returns (added: nat)
      requires Valid(s.vault) && Valid(store.Contents()) && SameButUse(s.vault, store.Contents()) && id == s.id
      requires reuse && Live(s.vault, id) && s.vault.rows[id].reuse
      modifies store
      ensures SameButUse(WithPhrasings(s, g, confirmed, store.tables), store.Contents()) && Valid(store.Contents())
      ensures added == PhrasingsAdded(s, g, confirmed, store.tables)
    {
      hide Normalize, ExtraPhrasings, CanonicalPrompt, Bound;
      var extra := ExtraPhrasings(g.phrasings, CanonicalPrompt(g, store.tables), store.tables);
      added := 0;
      BindingIgnoresUse(s.vault, store.Contents(), id, extra, confirmed, store.tables);
      if |extra| > 0 {
        var bound := store.AddPhrasings(id, extra, confirmed);
        assert bound.Fail? ==> bound.error == AliasNeedsConfirmation;
        if bound.Ok? {
          added := bound.value;
        }
      }
    }

    /** The group of a key, if the queue still shows it. */
    method LoadGroup(key: GroupKey, now: int) returns (g: Option<Group>)
      requires Valid(store.Contents())
      modifies store
      ensures g == GroupNow(old(Seen()), queue, key)
      ensures SameButUse(old(store.Contents()), store.Contents()) && Valid(store.Contents())
    {
      hide Collect, SameButUse, Valid, Summary, Finalized;
      var records, _ := CollectQueue(now);
      g := if key in records then Some(records[key].Value()) else None;
    }

    /** What follows a stored answer: its phrasings are bound and the queue is re-evaluated. */
    method FinishApproval(saved: Answer, g: Group, reuse: bool, confirmed: bool, now: int, ghost e: Env,
                          ghost s: Stored)
      returns (a: Approved)
      requires e.facts == facts && e.tables == store.tables
      requires Valid(s.vault) && Valid(store.Contents()) && SameButUse(s.vault, store.Contents())
      requires reuse && saved.id == s.id && Live(s.vault, s.id) && s.vault.rows[s.id].reuse
      modifies store
      ensures SameButUse(WithPhrasings(s, g, confirmed, store.tables), store.Contents()) && Valid(store.Contents())
      ensures a == Approved(saved.id, saved.row.canonical, PhrasingsAdded(s, g, confirmed, store.tables),
                            ReportOf(e.(vault := WithPhrasings(s, g, confirmed, store.tables)), queue))
    {
      hide WithPhrasings, PhrasingsAdded, SameButUse, ReportOf, Valid, Extends;
      var added := BindPhrasings(saved.id, g, reuse, confirmed, s);
      ghost var approved, bound := WithPhrasings(s, g, confirmed, store.tables), store.Contents();
      var report := ReEvaluate(now);
      ReportIgnoresUse(e.(vault := approved), bound, queue);
      SameTrans(approved, bound, store.Contents());
      a := Approved(saved.id, saved.row.canonical, added, report);
    }

    /** Stores one answer for a whole group, binds its phrasings, and re-evaluates the queue. */
    method ApproveGroup(req: ApproveRequest, now: int) returns (r: Verdict<Approved>)
      requires Valid(store.Contents())
      modifies store
      ensures Valid(store.Contents())
      ensures match Approve(old(Seen()), queue, req, now)
              case Accepted(s) =>
                && SameButUse(s.vault, store.Contents())
                && r.Accepted? && r.value.id == s.id && r.value.canonical == FiledWording(old(Seen()), queue, req.group)
                && r.value.aliasesAdded == ApprovalAliases(old(Seen()), queue, req, now)
                && r.value.report == ReportOf(old(Seen()).(vault := s.vault), queue)
                && StoresAnswer(store.Contents(), s.id, GroupNow(old(Seen()), queue, req.group).value, req,
                                store.tables)
              case Declined(refusal) => r == Declined(refusal) && SameButUse(old(store.Contents()), store.Contents())
    {
      hide GroupNow, StoresAnswer, Save, CanonicalPrompt, Classify, OptionsVary, WithPhrasings, SameButUse,
        ReportOf, PhrasingsAdded, Valid, Extends;
      ghost var e := Seen();
      if TrimSpace(req.answer) == "" {
        SameReflexive(e.vault);
        return Declined(Blank);
      }
      var found := LoadGroup(req.group, now);
      if found.None? {
        return Declined(NotInQueue);
      }
      var group := found.value;
      if OptionsVary(group) {
        return Declined(ChoicesDiffer);
      }
      if !req.saveForReuse {
        return Declined(NotForReuse);
      }
      var save := SaveRequestFor(group, req, store.tables);
      SaveIgnoresUse(e.vault, store.Contents(), save, now, store.tables);
      var saved := store.SaveAnswer(save, now);
      if saved.Fail? {
        return Declined(Refused(saved.error));
      }
      ghost var filed := Save(e.vault, save, now, store.tables).value;
      SavedIsReusable(e.vault, group, req, now, store.tables);
      var approved := FinishApproval(saved.value, group, save.reuse, req.confirmed, now, e, filed);
      AnswerIsStored(e, queue, req, now, store.Contents());
      r := Accepted(approved);
    }

    /** Stores an intentional absence for a whole group, just like an answer. */
    method ApproveGroupAbsence(req: AbsenceApproval, now: int) returns (r: Verdict<Approved>)
      requires Valid(store.Contents())
      modifies store
      ensures Valid(store.Contents())
      ensures match ApproveAbsence(old(Seen()), queue, req, now)
              case Accepted(s) =>
                && SameButUse(s.vault, store.Contents())
                && r.Accepted? && r.value.id == s.id && r.value.canonical == FiledWording(old(Seen()), queue, req.group)
                && r.value.aliasesAdded == AbsenceAliases(old(Seen()), queue, req, now)
                && r.value.report == ReportOf(old(Seen()).(vault := s.vault), queue)
                && StoresAbsence(store.Contents(), s.id, GroupNow(old(Seen()), queue, req.group).value, req,
                                 store.tables)
              case Declined(refusal) => r == Declined(refusal) && SameButUse(old(store.Contents()), store.Contents())
    {
      hide GroupNow, StoresAbsence, SaveAbsence, GroupPolicy, WithPhrasings, SameButUse, ReportOf, PhrasingsAdded,
        Valid, Extends;
      ghost var e := Seen();
      if TrimSpace(req.reason) == "" || !req.saveForReuse {
        SameReflexive(e.vault);
        return Declined(if TrimSpace(req.reason) == "" then Blank else NotForReuse);
      }
      var found := LoadGroup(req.group, now);
      if found.None? {
        return Declined(NotInQueue);
      }
      var group := found.value;
      if GroupPolicy(group) == PerJob {
        return Declined(PerJobQuestion);
      }
      var save := AbsenceRequestFor(group, req, store.tables);
      AbsenceIgnoresUse(e.vault, store.Contents(), save, now, store.tables);
      var saved := store.SaveAbsenceAnswer(save, now);
      if saved.Fail? {
        return Declined(Refused(saved.error));
      }
      ghost var filed := SaveAbsence(e.vault, save, now, store.tables).value;
      AbsenceFiles(e.vault, save, now, store.tables);
      var approved := FinishApproval(saved.value, group, save.reuse, req.confirmed, now, e, filed);
      AbsenceIsStored(e, queue, req, now, store.Contents());
      r := Accepted(approved);
    }
  }
}
