/** Exactly which questions an approval reaches, decided on the vault as it was before. */
module KnowledgeReach {
  import opened Model
  import opened Text
  import opened Collections
  import opened Normalizer
  import opened Experience
  import opened Recognizers
  import opened Vault
  import opened Resolver
  import opened VaultRuns
  import opened Knowledge
  import opened KnowledgeLaws
  import opened KnowledgeApproval
  import opened KnowledgeService

  // ----- filing one row

  /** Where an approval files its row, and the wordings it points there. */
  datatype Filing = Filing(id: int, key: string, scope: string, words: set<string>)

  /** The second vault is the first with a live row filed so, and nothing else changed. */
  ghost predicate Refiled(v: State, w: State, f: Filing) {
    && f.id == RowFor(v, f.key, f.scope) && Live(w, f.id) && f.key != "" && "" !in f.words
    && (forall x :: x != f.id ==> (x in w.rows <==> x in v.rows) && (x in v.rows ==> w.rows[x] == v.rows[x]))
    && w.index == v.index[(f.key, f.scope) := f.id]
    && (forall a: (string, string) :: a in w.aliases <==> a in v.aliases || (a.1 == f.scope && a.0 in f.words))
    && (forall a: (string, string) :: a in w.aliases ==>
          w.aliases[a] == if a.1 == f.scope && a.0 in f.words then f.id else v.aliases[a])
  }

  /** In the filing's scope the question will be answered from its row: its wording is one of those filed; or it has no
      other alias there and its key is the row's; or it has neither there and its skill's key is. */
  predicate Claims(v: State, q: Question, f: Filing, t: Tables) {
    if Normalize(q.prompt, t) in f.words then true
    else if AliasHit(v, q, f.scope, t).Some? then AliasHit(v, q, f.scope, t).value.id == f.id
    else if QuestionKey(q.prompt, t) == f.key then true
    else if KeyHit(v, QuestionKey(q.prompt, t), f.scope, SourceVault).Some? then false
    else SkillExperienceSubject(q, t) != "" && SkillExperienceKey(SkillExperienceSubject(q, t), t) == f.key
  }

  /** The chain comes to the filing's scope with nothing on the way, and there the question claims the row. */
  predicate Claimed(v: State, q: Question, chain: seq<string>, f: Filing, t: Tables) {
    chain != []
    && ((chain[0] == f.scope && Claims(v, q, f, t))
        || (ScopeHit(v, q, chain[0], t).None? && Claimed(v, q, chain[1..], f, t)))
  }

  /** Said of the whole chain: it reaches the scope with nothing narrower in the way, and the row is claimed there. */
  lemma {:induction false} ClaimedIsReached(v: State, q: Question, chain: seq<string>, f: Filing, t: Tables)
    ensures Claimed(v, q, chain, f, t) <==>
            Claims(v, q, f, t) && exists k: nat :: ReachesScope(v, q, chain, k, f.scope, t)
  {
    hide Claims, ScopeHit;
    if chain != [] {
      ClaimedIsReached(v, q, chain[1..], f, t);
      if k: nat :| ReachesScope(v, q, chain[1..], k, f.scope, t) && chain[0] != f.scope
                   && ScopeHit(v, q, chain[0], t).None? {
        assert ReachesScope(v, q, chain, k + 1, f.scope, t);
      }
      if chain[0] == f.scope {
        assert ReachesScope(v, q, chain, 0, f.scope, t);
      }
      if k: nat :| ReachesScope(v, q, chain, k, f.scope, t) && k > 0 {
        assert ReachesScope(v, q, chain[1..], k - 1, f.scope, t);
      }
    }
  }

  /** The row filed is the one its key and scope had, or a new one. */
  lemma FilingOwnsKey(v: State, f: Filing)
    requires Valid(v) && f.id == RowFor(v, f.key, f.scope)
    ensures f.id in v.rows ==> v.rows[f.id].key == f.key && v.rows[f.id].scope == f.scope
  {
  }

  lemma FiledKey(v: State, w: State, key: string, s: string, source: Source, f: Filing)
    requires Valid(v) && Refiled(v, w, f)
    ensures s == f.scope && key == f.key ==> KeyHit(w, key, s, source) == Some(Hit(f.id, source))
    ensures !(s == f.scope && key == f.key) ==>
              KeyHit(w, key, s, source) == KeyHit(v, key, s, source)
              && (KeyHit(v, key, s, source).Some? ==> KeyHit(v, key, s, source).value.id != f.id)
  {
    FilingOwnsKey(v, f);
    hide RowsValid, AliasesValid, RowFor;
  }

  lemma FiledAlias(v: State, w: State, q: Question, s: string, f: Filing, t: Tables)
    requires Valid(v) && Refiled(v, w, f)
    ensures s == f.scope && Normalize(q.prompt, t) in f.words ==> AliasHit(w, q, s, t) == Some(Hit(f.id, SourceAlias))
    ensures !(s == f.scope && Normalize(q.prompt, t) in f.words) ==> AliasHit(w, q, s, t) == AliasHit(v, q, s, t)
    ensures s != f.scope && AliasHit(v, q, s, t).Some? ==> AliasHit(v, q, s, t).value.id != f.id
  {
    FilingOwnsKey(v, f);
    hide Normalize, RowsValid, RowFor;
  }

  /** In its own scope the filing answers exactly the questions that claim it, and leaves the others alone. */
  lemma HitInScope(v: State, w: State, q: Question, f: Filing, t: Tables)
    requires Valid(v) && Refiled(v, w, f)
    ensures Claims(v, q, f, t) ==> ScopeHit(w, q, f.scope, t).Some? && ScopeHit(w, q, f.scope, t).value.id == f.id
    ensures !Claims(v, q, f, t) ==>
              ScopeHit(w, q, f.scope, t) == ScopeHit(v, q, f.scope, t)
              && (ScopeHit(v, q, f.scope, t).Some? ==> ScopeHit(v, q, f.scope, t).value.id != f.id)
  {
    hide Normalize, QuestionKey, SkillExperienceSubject, SkillExperienceKey, AliasHit, KeyHit, Valid, Refiled;
    var subject := SkillExperienceSubject(q, t);
    FiledAlias(v, w, q, f.scope, f, t);
    FiledKey(v, w, QuestionKey(q.prompt, t), f.scope, SourceVault, f);
    FiledKey(v, w, SkillExperienceKey(subject, t), f.scope, SourceSkillExperience, f);
  }

  /** In every other scope nothing changes. */
  lemma HitElsewhere(v: State, w: State, q: Question, s: string, f: Filing, t: Tables)
    requires Valid(v) && Refiled(v, w, f) && s != f.scope
    ensures ScopeHit(w, q, s, t) == ScopeHit(v, q, s, t)
    ensures ScopeHit(v, q, s, t).Some? ==> ScopeHit(v, q, s, t).value.id != f.id
  {
    hide Normalize, QuestionKey, SkillExperienceSubject, SkillExperienceKey, AliasHit, KeyHit, Valid, Refiled;
    var subject := SkillExperienceSubject(q, t);
    FiledAlias(v, w, q, s, f, t);
    FiledKey(v, w, QuestionKey(q.prompt, t), s, SourceVault, f);
    FiledKey(v, w, SkillExperienceKey(subject, t), s, SourceSkillExperience, f);
  }

  /** Along a chain the filed row answers exactly the questions that claim it; every other hit is as it was. */
  lemma {:induction false} HitAlongChain(v: State, w: State, q: Question, chain: seq<string>, f: Filing, t: Tables)
    requires Valid(v) && Refiled(v, w, f)
    ensures Claimed(v, q, chain, f, t) ==>
              ChainHit(w, q, chain, t).Some? && ChainHit(w, q, chain, t).value.id == f.id
    ensures !Claimed(v, q, chain, f, t) ==>
              ChainHit(w, q, chain, t) == ChainHit(v, q, chain, t)
              && (ChainHit(v, q, chain, t).Some? ==> ChainHit(v, q, chain, t).value.id != f.id)
  {
    hide Claims, ScopeHit, Valid, Refiled;
    if chain != [] {
      HitAlongChain(v, w, q, chain[1..], f, t);
      if chain[0] == f.scope {
        HitInScope(v, w, q, f, t);
      } else {
        HitElsewhere(v, w, q, chain[0], f, t);
      }
    }
  }

  /** A filed row that is reusable: what it answers, and that nothing else changes. */
  lemma ResolveRefiled(v: State, w: State, q: Question, ctx: Context, facts: Option<Facts>, f: Filing, t: Tables)
    requires Valid(v) && Refiled(v, w, f) && w.rows[f.id].reuse
    ensures var r, absence := Resolve(w, q, ctx, facts, t), w.rows[f.id].kind == KindAbsence;
            if Claimed(v, q, ScopeChain(ctx, t), f, t)
            then r.answerId == Some(f.id) && r.answer == w.rows[f.id].text && r.absence == absence
                 && r.autoFill == !(absence && q.required)
            else r == Resolve(v, q, ctx, facts, t) && r.answerId != Some(f.id)
  {
    hide Claimed, ScopeChain, ChainHit, Classify, MatchPattern, Valid;
    HitAlongChain(v, w, q, ScopeChain(ctx, t), f, t);
  }

  // ----- what an approval files

  /** The wordings an accepted answer is found under: its own, and the group's others when they are bound. */
  function Wordings(g: Group, all: bool, t: Tables): set<string> {
    {Normalize(CanonicalPrompt(g, t), t)}
    + if all then set p | p in g.phrasings && Normalize(p, t) != "" :: Normalize(p, t) else {}
  }

  /** Where the answer to a group is filed, before it is. */
  function FilingOf(v: State, g: Group, scope: string, all: bool, t: Tables): Filing {
    var key := QuestionKey(CanonicalPrompt(g, t), t);
    Filing(RowFor(v, key, EffectiveScope(scope)), key, EffectiveScope(scope), Wordings(g, all, t))
  }

  /** What storing a reusable row does to the tables. */
  ghost predicate StoredAt(v: State, s: Stored, key: string, scope: string, word: string) {
    && s.id == RowFor(v, key, scope) && Live(s.vault, s.id) && s.vault.rows[s.id].reuse
    && s.vault.rows[s.id].scope == scope
    && s.vault.rows == v.rows[s.id := s.vault.rows[s.id]]
    && s.vault.index == v.index[(key, scope) := s.id] && s.vault.aliases == v.aliases[(word, scope) := s.id]
  }

  lemma StoreStoresAt(v: State, key: string, prompt: string, text: string, kind: Kind, sensitivity: Sensitivity,
                      scope: string, provenance: Provenance, now: int, t: Tables)
    requires Valid(v) && text != "" && sensitivity != GeneratePerJob
    requires sensitivity == Sensitive ==> OperatorDecided(provenance)
    ensures var s := StoreAnswer(v, key, prompt, text, kind, sensitivity, scope, true, provenance, now, t);
            StoredAt(v, s, key, scope, Normalize(prompt, t))
  {
    hide Normalize, RowsValid, AliasesValid, Extends, RowSound, StoreRow, ApprovedRow, RowFor;
    ApprovedRowIsSound(v, key, prompt, text, kind, sensitivity, scope, true, provenance, now);
    var row := ApprovedRow(v, key, prompt, text, kind, sensitivity, scope, true, provenance, now);
    StoreRowWrites(v, row, Normalize(prompt, t));
  }

  lemma SaveStoresAt(v: State, req: SaveRequest, now: int, t: Tables)
    requires Valid(v) && Save(v, req, now, t).Ok? && req.reuse
    ensures StoredAt(v, Save(v, req, now, t).value, QuestionKey(req.question.prompt, t), EffectiveScope(req.scope),
                     Normalize(req.question.prompt, t))
  {
    NormalizeIgnoresPadding(req.question.prompt, t);
    hide Classify, Normalize, QuestionKey, StoreAnswer, StoredAt, Valid, Extends, EffectiveScope;
    var p := Prepared(req.question.prompt, req.answer, t).value;
    var kind := if req.kind.None? then KindText else req.kind.value;
    StoreStoresAt(v, QuestionKey(p.0, t), p.0, p.1, kind, StoredSensitivity(req, t), EffectiveScope(req.scope),
                  req.provenance.value, now, t);
  }

  lemma AbsenceStoresAt(v: State, req: AbsenceRequest, now: int, t: Tables)
    requires Valid(v) && SaveAbsence(v, req, now, t).Ok? && req.reuse
    ensures StoredAt(v, SaveAbsence(v, req, now, t).value, QuestionKey(req.question.prompt, t),
                     EffectiveScope(req.scope), Normalize(req.question.prompt, t))
  {
    NormalizeIgnoresPadding(req.question.prompt, t);
    hide Classify, Normalize, QuestionKey, StoreAnswer, StoredAt, Valid, Extends, EffectiveScope;
    var p := Prepared(req.question.prompt, req.reason, t).value;
    StoreStoresAt(v, QuestionKey(p.0, t), p.0, p.1, KindAbsence, Classify(req.question, t), EffectiveScope(req.scope),
                  OperatorApproved, now, t);
  }

  lemma BoundWords(s: Stored, g: Group, t: Tables, a: (string, string))
    requires s.id in s.vault.rows
    requires (Normalize(CanonicalPrompt(g, t), t), s.vault.rows[s.id].scope) in s.vault.aliases
    requires s.vault.aliases[(Normalize(CanonicalPrompt(g, t), t), s.vault.rows[s.id].scope)] == s.id
    ensures var scope := s.vault.rows[s.id].scope;
            var bound := Bound(s.vault.aliases, ExtraPhrasings(g.phrasings, CanonicalPrompt(g, t), t), scope, s.id, t);
            && (a in bound <==> a in s.vault.aliases || (a.1 == scope && a.0 in Wordings(g, true, t)))
            && (a in bound ==>
                  bound[a] == if a.1 == scope && a.0 in Wordings(g, true, t) then s.id else s.vault.aliases[a])
  {
    hide Normalize, CanonicalPrompt, Bound, ExtraPhrasings;
    var canonical, scope := CanonicalPrompt(g, t), s.vault.rows[s.id].scope;
    var extra := ExtraPhrasings(g.phrasings, canonical, t);
    BoundAliases(s.vault.aliases, extra, scope, s.id, t);
    forall p
      ensures p in extra <==> p in g.phrasings && Normalize(p, t) != Normalize(canonical, t)
    {
      ExtraPhrasingsAre(g.phrasings, canonical, t, p);
    }
  }

  /** An accepted answer, with its phrasings bound or not, is filed as foreseen. */
  lemma PhrasedRefiles(v: State, s: Stored, g: Group, scope: string, confirmed: bool, t: Tables)
    requires Valid(v) && Valid(s.vault) && Normalize(CanonicalPrompt(g, t), t) != ""
    requires StoredAt(v, s, QuestionKey(CanonicalPrompt(g, t), t), EffectiveScope(scope),
                      Normalize(CanonicalPrompt(g, t), t))
    ensures var all := s.vault.rows[s.id].sensitivity != Sensitive || confirmed;
            && Refiled(v, WithPhrasings(s, g, confirmed, t), FilingOf(v, g, scope, all, t))
            && FilingOf(v, g, scope, all, t).id == s.id
            && WithPhrasings(s, g, confirmed, t).rows == s.vault.rows
  {
    EmptyKeyMeansNoWords(CanonicalPrompt(g, t), t);
    hide Normalize, CanonicalPrompt, QuestionKey, Bound, ExtraPhrasings, WithPhrasings, Valid, Extends, EffectiveScope,
      RowFor;
    SensitivityKept(s, g, confirmed, t);
    if s.vault.rows[s.id].sensitivity != Sensitive || confirmed {
      BindingAccepted(s, g, confirmed, t);
      forall a: (string, string)
        ensures BoundAs(WithPhrasings(s, g, confirmed, t).aliases, s, g, a, t)
      {
        BoundWords(s, g, t, a);
      }
      BoundRefiles(v, s, WithPhrasings(s, g, confirmed, t), g, scope, t);
    } else {
      UnboundKeeps(s, g, t);
    }
  }

  ghost predicate BoundAs(aliases: map<(string, string), int>, s: Stored, g: Group, a: (string, string), t: Tables)
    requires s.id in s.vault.rows
  {
    var scope := s.vault.rows[s.id].scope;
    && (a in aliases <==> a in s.vault.aliases || (a.1 == scope && a.0 in Wordings(g, true, t)))
    && (a in aliases ==> aliases[a] == if a.1 == scope && a.0 in Wordings(g, true, t) then s.id else s.vault.aliases[a])
  }

  lemma BoundRefiles(v: State, s: Stored, w: State, g: Group, scope: string, t: Tables)
    requires StoredAt(v, s, QuestionKey(CanonicalPrompt(g, t), t), EffectiveScope(scope),
                      Normalize(CanonicalPrompt(g, t), t))
    requires w.rows == s.vault.rows && w.index == s.vault.index
    requires forall a: (string, string) :: BoundAs(w.aliases, s, g, a, t)
    requires QuestionKey(CanonicalPrompt(g, t), t) != "" && Normalize(CanonicalPrompt(g, t), t) != ""
    ensures Refiled(v, w, FilingOf(v, g, scope, true, t))
  {
    hide Normalize, CanonicalPrompt, QuestionKey, EffectiveScope, RowFor;
    var word := Normalize(CanonicalPrompt(g, t), t);
    assert word in Wordings(g, true, t);
    var f := FilingOf(v, g, scope, true, t);
    forall a: (string, string)
      ensures a in w.aliases <==> a in v.aliases || (a.1 == f.scope && a.0 in f.words)
      ensures a in w.aliases ==> w.aliases[a] == if a.1 == f.scope && a.0 in f.words then f.id else v.aliases[a]
    {
      assert BoundAs(w.aliases, s, g, a, t);
    }
    assert "" !in f.words;
  }

  lemma UnboundKeeps(s: Stored, g: Group, t: Tables)
    requires Valid(s.vault) && Live(s.vault, s.id) && s.vault.rows[s.id].sensitivity == Sensitive
    ensures WithPhrasings(s, g, false, t) == s.vault
  {
    UnconfirmedBindsNothingMore(s, g, t);
  }

  // ----- exactly what an approval changes

  /** Where an approval will file its answer, read off the queue, the request and the vault before it. */
  function ApprovalFiling(e: Env, g: Group, req: ApproveRequest): Filing {
    FilingOf(e.vault, g, req.scope, ApprovedAs(g, e.tables) != Sensitive || req.confirmed, e.tables)
  }

  function AbsenceFiling(e: Env, g: Group, req: AbsenceApproval): Filing {
    var sensitive := Classify(QuestionFromGroup(g, e.tables), e.tables) == Sensitive;
    FilingOf(e.vault, g, req.scope, !sensitive || req.confirmed, e.tables)
  }

  /** The filing will answer the queued question. */
  predicate Reached(e: Env, f: Filing, q: Queued) {
    Claimed(e.vault, AsQuestion(q), ScopeChain(Context(q.ats, q.company), e.tables), f, e.tables)
  }

  lemma ApprovalIsFiled(e: Env, queue: seq<Queued>, req: ApproveRequest, now: int)
    requires Valid(e.vault) && Approve(e, queue, req, now).Accepted?
    ensures GroupNow(e, queue, req.group).Some?
    ensures var s, f := Approve(e, queue, req, now).value, ApprovalFiling(e, GroupNow(e, queue, req.group).value, req);
            && Refiled(e.vault, s.vault, f) && f.id == s.id && s.vault.rows[s.id].reuse
            && s.vault.rows[s.id].text == TrimSpace(req.answer) && s.vault.rows[s.id].kind == KindText
  {
    var t := e.tables;
    var g := GroupNow(e, queue, req.group).value;
    var save := SaveRequestFor(g, req, t);
    var filed := Save(e.vault, save, now, t).value;
    TrimSpaceIdempotent(req.answer);
    hide GroupNow, Save, Classify, TrimSpace, CanonicalPrompt, Normalize, QuestionKey, WithPhrasings, Refiled, StoredAt,
      FilingOf, Valid, ApprovedAs, OptionsVary;
    SaveRequiresGrant(e.vault, g, req, now, t);
    SaveFiles(e.vault, save, now, t);
    StoredAsApproved(e.vault, g, req, now, t);
    SaveStoresAt(e.vault, save, now, t);
    FiledFacts(filed.vault, filed.id, EffectiveScope(req.scope), save.question.prompt, TrimSpace(save.answer), t);
    PhrasedRefiles(e.vault, filed, g, req.scope, req.confirmed, t);
  }

  /** An approval answers exactly the questions its filing reaches, group or not, and changes no other resolution. */
  lemma ApprovalReachesExactly(e: Env, queue: seq<Queued>, req: ApproveRequest, now: int, q: Queued)
    requires Valid(e.vault) && Approve(e, queue, req, now).Accepted?
    ensures GroupNow(e, queue, req.group).Some?
    ensures var s, f := Approve(e, queue, req, now).value, ApprovalFiling(e, GroupNow(e, queue, req.group).value, req);
            var r := Outcome(e.(vault := s.vault), q);
            if Reached(e, f, q)
            then r.autoFill && r.answer == TrimSpace(req.answer) && r.answerId == Some(s.id) && !r.absence
            else r == Outcome(e, q) && r.answerId != Some(s.id)
  {
    hide GroupNow, Approve, TrimSpace, Refiled, ApprovalFiling, Valid, Resolve, Claimed, ScopeChain;
    ApprovalIsFiled(e, queue, req, now);
    var s, f := Approve(e, queue, req, now).value, ApprovalFiling(e, GroupNow(e, queue, req.group).value, req);
    ResolveRefiled(e.vault, s.vault, AsQuestion(q), Context(q.ats, q.company), e.facts, f, e.tables);
  }

  /** An approval never takes an answer away. */
  lemma ApprovalTakesNothing(e: Env, queue: seq<Queued>, req: ApproveRequest, now: int, q: Queued)
    requires Valid(e.vault) && Approve(e, queue, req, now).Accepted? && !Pending(e, q)
    ensures !Pending(e.(vault := Approve(e, queue, req, now).value.vault), q)
  {
    hide Approve, GroupNow, Outcome, ApprovalFiling, Reached, Valid;
    ApprovalReachesExactly(e, queue, req, now, q);
  }

  /** The group's own questions are among those reached, wherever the approval law promises an answer. */
  lemma GroupIsReached(e: Env, queue: seq<Queued>, req: ApproveRequest, now: int, q: Queued, k: nat)
    requires Valid(e.vault) && Approve(e, queue, req, now).Accepted?
    requires q in queue && Pending(e, q) && KeyOf(AsQuestion(q), e.tables) == req.group
    requires var s := Approve(e, queue, req, now).value;
             s.id in s.vault.rows && s.vault.rows[s.id].sensitivity == Sensitive ==> req.confirmed
    requires ReachesScope(e.vault, AsQuestion(q), ScopeChain(Context(q.ats, q.company), e.tables), k,
                          EffectiveScope(req.scope), e.tables)
    ensures GroupNow(e, queue, req.group).Some?
    ensures Reached(e, ApprovalFiling(e, GroupNow(e, queue, req.group).value, req), q)
  {
    hide Approve, GroupNow, Outcome, ApprovalFiling, Reached, Valid, KeyOf, ReachesScope, ScopeChain, EffectiveScope;
    ApprovalReachesExactly(e, queue, req, now, q);
    ApprovalResolvesGroup(e, queue, req, now, q, k);
  }

  /** The pending questions an approval settles. */
  function Settled(e: Env, f: Filing): Queued -> bool {
    q => Pending(e, q) && Reached(e, f, q)
  }

  /** Re-evaluating after an approval, the unresolved questions are fewer by exactly those it settles, and the resolved
      ones more. */
  lemma ApprovalCounts(e: Env, queue: seq<Queued>, req: ApproveRequest, now: int)
    requires Valid(e.vault) && Approve(e, queue, req, now).Accepted?
    ensures GroupNow(e, queue, req.group).Some?
    ensures var after := e.(vault := Approve(e, queue, req, now).value.vault);
            var settled := |Filter(queue, Settled(e, ApprovalFiling(e, GroupNow(e, queue, req.group).value, req)))|;
            && ReportOf(after, queue).stillUnresolved == ReportOf(e, queue).stillUnresolved - settled
            && ReportOf(after, queue).resolved == ReportOf(e, queue).resolved + settled
  {
    hide Approve, GroupNow, Outcome, ApprovalFiling, Reached, Valid, Filter;
    ApprovalIsFiled(e, queue, req, now);
    var f := ApprovalFiling(e, GroupNow(e, queue, req.group).value, req);
    var after := e.(vault := Approve(e, queue, req, now).value.vault);
    forall q
      ensures Pending(after, q) <==> Pending(e, q) && !Reached(e, f, q)
    {
      ApprovalReachesExactly(e, queue, req, now, q);
    }
    FilterParts(queue, IsPending(e), IsPending(after), Settled(e, f));
    ResolvedOrPending(e, queue);
    ResolvedOrPending(after, queue);
  }

  // ----- exactly what an absence changes

  lemma AbsenceIsFiled(e: Env, queue: seq<Queued>, req: AbsenceApproval, now: int)
    requires Valid(e.vault) && ApproveAbsence(e, queue, req, now).Accepted?
    ensures GroupNow(e, queue, req.group).Some?
    ensures var s := ApproveAbsence(e, queue, req, now).value;
            var f := AbsenceFiling(e, GroupNow(e, queue, req.group).value, req);
            && Refiled(e.vault, s.vault, f) && f.id == s.id && s.vault.rows[s.id].reuse
            && s.vault.rows[s.id].text == TrimSpace(req.reason) && s.vault.rows[s.id].kind == KindAbsence
  {
    var t := e.tables;
    var g := GroupNow(e, queue, req.group).value;
    var save := AbsenceRequestFor(g, req, t);
    var filed := SaveAbsence(e.vault, save, now, t).value;
    TrimSpaceIdempotent(req.reason);
    hide GroupNow, SaveAbsence, Classify, TrimSpace, CanonicalPrompt, Normalize, QuestionKey, WithPhrasings, Refiled,
      StoredAt, FilingOf, Valid, GroupPolicy;
    AbsenceFiles(e.vault, save, now, t);
    AbsenceStoresAt(e.vault, save, now, t);
    FiledFacts(filed.vault, filed.id, EffectiveScope(req.scope), save.question.prompt, TrimSpace(save.reason), t);
    PhrasedRefiles(e.vault, filed, g, req.scope, req.confirmed, t);
  }

  /** A declared absence decides exactly the questions its filing reaches -- settling the optional ones, leaving the
      required ones to the operator -- and changes no other resolution. */
  lemma AbsenceReachesExactly(e: Env, queue: seq<Queued>, req: AbsenceApproval, now: int, q: Queued)
    requires Valid(e.vault) && ApproveAbsence(e, queue, req, now).Accepted?
    ensures GroupNow(e, queue, req.group).Some?
    ensures var s := ApproveAbsence(e, queue, req, now).value;
            var f := AbsenceFiling(e, GroupNow(e, queue, req.group).value, req);
            var r := Outcome(e.(vault := s.vault), q);
            if Reached(e, f, q)
            then r.autoFill == !q.required && r.absence && r.answer == TrimSpace(req.reason) && r.answerId == Some(s.id)
            else r == Outcome(e, q) && r.answerId != Some(s.id)
  {
    hide GroupNow, ApproveAbsence, TrimSpace, Refiled, AbsenceFiling, Valid, Resolve, Claimed, ScopeChain;
    AbsenceIsFiled(e, queue, req, now);
    var s := ApproveAbsence(e, queue, req, now).value;
    var f := AbsenceFiling(e, GroupNow(e, queue, req.group).value, req);
    ResolveRefiled(e.vault, s.vault, AsQuestion(q), Context(q.ats, q.company), e.facts, f, e.tables);
  }

  /** An absence takes an answer away exactly from the required fields it reaches. */
  lemma AbsenceTakesExactly(e: Env, queue: seq<Queued>, req: AbsenceApproval, now: int, q: Queued)
    requires Valid(e.vault) && ApproveAbsence(e, queue, req, now).Accepted? && !Pending(e, q)
    ensures GroupNow(e, queue, req.group).Some?
    ensures Pending(e.(vault := ApproveAbsence(e, queue, req, now).value.vault), q) <==>
            q.required && Reached(e, AbsenceFiling(e, GroupNow(e, queue, req.group).value, req), q)
  {
    hide ApproveAbsence, GroupNow, Outcome, AbsenceFiling, Reached, Valid;
    AbsenceReachesExactly(e, queue, req, now, q);
  }

  // ----- what is bound without the confirmation

  /** Every other recognizable phrasing of the group points to the row already. */
  ghost predicate NothingToBind(s: Stored, g: Group, t: Tables)
    requires s.id in s.vault.rows
  {
    forall p :: p in ExtraPhrasings(g.phrasings, CanonicalPrompt(g, t), t) && Normalize(p, t) != "" ==>
      PointsThere(s, p, t)
  }

  predicate PointsThere(s: Stored, p: string, t: Tables)
    requires s.id in s.vault.rows
  {
    var a := (Normalize(p, t), s.vault.rows[s.id].scope);
    a in s.vault.aliases && s.vault.aliases[a] == s.id
  }

  /** Without the confirmation a reusable row gains no phrasing exactly when it is a declaration, or there is none to
      gain. */
  lemma UnboundExactly(s: Stored, g: Group, t: Tables)
    requires Valid(s.vault) && Live(s.vault, s.id) && s.vault.rows[s.id].reuse
    ensures WithPhrasings(s, g, false, t) == s.vault <==>
            s.vault.rows[s.id].sensitivity == Sensitive || NothingToBind(s, g, t)
  {
    hide Normalize, CanonicalPrompt, ExtraPhrasings, Bound, Valid, Extends, WithPhrasings;
    if s.vault.rows[s.id].sensitivity == Sensitive {
      UnboundKeeps(s, g, t);
    } else {
      BindingAccepted(s, g, false, t);
      var extra := ExtraPhrasings(g.phrasings, CanonicalPrompt(g, t), t);
      var scope := s.vault.rows[s.id].scope;
      BoundAliases(s.vault.aliases, extra, scope, s.id, t);
      BoundIsSame(s, extra, t);
    }
  }

  lemma BoundIsSame(s: Stored, extra: seq<string>, t: Tables)
    requires s.id in s.vault.rows
    ensures Bound(s.vault.aliases, extra, s.vault.rows[s.id].scope, s.id, t) == s.vault.aliases <==>
            forall p :: p in extra && Normalize(p, t) != "" ==> PointsThere(s, p, t)
  {
    hide Normalize, Bound;
    var scope := s.vault.rows[s.id].scope;
    var bound := Bound(s.vault.aliases, extra, scope, s.id, t);
    BoundAliases(s.vault.aliases, extra, scope, s.id, t);
    if bound == s.vault.aliases {
      forall p | p in extra && Normalize(p, t) != ""
        ensures PointsThere(s, p, t)
      {
        assert (Normalize(p, t), scope) in bound;
      }
    }
    if forall p :: p in extra && Normalize(p, t) != "" ==> PointsThere(s, p, t) {
      forall a
        ensures a in bound <==> a in s.vault.aliases
        ensures a in bound ==> bound[a] == s.vault.aliases[a]
      {
        if p :| p in extra && a.1 == scope && a.0 != "" && Normalize(p, t) == a.0 {
          assert PointsThere(s, p, t);
        }
      }
    }
  }

  /** An unconfirmed absence binds nothing more exactly when the question it is filed as is a declaration, or nothing is
      left to bind: how the group was read does not count. */
  lemma AbsenceUnboundExactly(e: Env, queue: seq<Queued>, req: AbsenceApproval, now: int)
    requires Valid(e.vault) && ApproveAbsence(e, queue, req, now).Accepted? && !req.confirmed
    ensures GroupNow(e, queue, req.group).Some?
    ensures var g := GroupNow(e, queue, req.group).value;
            && SaveAbsence(e.vault, AbsenceRequestFor(g, req, e.tables), now, e.tables).Ok?
            && var s := SaveAbsence(e.vault, AbsenceRequestFor(g, req, e.tables), now, e.tables).value;
               && s.id in s.vault.rows
               && (ApproveAbsence(e, queue, req, now).value.vault == s.vault <==>
                     Classify(QuestionFromGroup(g, e.tables), e.tables) == Sensitive || NothingToBind(s, g, e.tables))
  {
    hide GroupNow, SaveAbsence, Classify, TrimSpace, CanonicalPrompt, WithPhrasings, NothingToBind, Valid, GroupPolicy,
      Normalize, QuestionFromGroup;
    var g := GroupNow(e, queue, req.group).value;
    var save := AbsenceRequestFor(g, req, e.tables);
    var s := SaveAbsence(e.vault, save, now, e.tables).value;
    AbsenceFiles(e.vault, save, now, e.tables);
    FiledFacts(s.vault, s.id, EffectiveScope(req.scope), save.question.prompt, TrimSpace(save.reason), e.tables);
    UnboundExactly(s, g, e.tables);
  }

  /** An unconfirmed approval binds nothing more exactly when it is stored as a declaration -- because the group was
      read as one, or the question it is filed as is one -- or nothing is left to bind. */
  lemma ApprovalUnboundExactly(e: Env, queue: seq<Queued>, req: ApproveRequest, now: int)
    requires Valid(e.vault) && Approve(e, queue, req, now).Accepted? && !req.confirmed
    ensures GroupNow(e, queue, req.group).Some?
    ensures var g := GroupNow(e, queue, req.group).value;
            && Save(e.vault, SaveRequestFor(g, req, e.tables), now, e.tables).Ok?
            && var s := Save(e.vault, SaveRequestFor(g, req, e.tables), now, e.tables).value;
               && s.id in s.vault.rows
               && (Approve(e, queue, req, now).value.vault == s.vault <==>
                     ApprovedAs(g, e.tables) == Sensitive || NothingToBind(s, g, e.tables))
  {
    hide GroupNow, Save, SaveRequestFor, TrimSpace, CanonicalPrompt, WithPhrasings, NothingToBind, Valid, OptionsVary,
      Normalize, ApprovedAs;
    var g := GroupNow(e, queue, req.group).value;
    StoredAsApproved(e.vault, g, req, now, e.tables);
    SavedIsReusable(e.vault, g, req, now, e.tables);
    UnboundExactly(Save(e.vault, SaveRequestFor(g, req, e.tables), now, e.tables).value, g, e.tables);
  }
}
