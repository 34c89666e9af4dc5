/** One approval resolves the whole group: the end-to-end law of the vault and the knowledge built over it. */
module KnowledgeApproval {
  import opened Model
  import opened Text
  import opened Collections
  import opened Normalizer
  import opened Experience
  import opened Recognizers
  import opened Vault
  import opened Resolver
  import opened VaultRuns
  import opened Knowledge
  import opened KnowledgeLaws

  // ----- what saving and binding leave behind

  /** The stored row is live and reusable with exactly this text, and the alias of its own wording points to it. */
  ghost predicate Filed(w: State, id: int, scope: string, wording: string, text: string, t: Tables) {
    && Live(w, id) && w.rows[id].reuse && w.rows[id].text == text && w.rows[id].scope == scope
    && (Normalize(wording, t), scope) in w.aliases && w.aliases[(Normalize(wording, t), scope)] == id
  }

  lemma StoreRowFiles(v: State, row: Row, t: Tables)
    requires Valid(v) && RowSound(row) && row.revokedAt.None? && row.reuse
    ensures var s := StoreRow(v, row, Normalize(row.canonical, t));
            Filed(s.vault, s.id, row.scope, row.canonical, row.text, t) && s.vault.rows[s.id] == row
  {
    hide Normalize, Valid, Extends, RowSound;
  }

  lemma StoreFiles(v: State, key: string, prompt: string, text: string, kind: Kind, sensitivity: Sensitivity,
                   scope: string, provenance: Provenance, now: int, t: Tables)
    requires Valid(v) && text != "" && sensitivity != GeneratePerJob
    requires sensitivity == Sensitive ==> OperatorDecided(provenance)
    ensures var s := StoreAnswer(v, key, prompt, text, kind, sensitivity, scope, true, provenance, now, t);
            && Filed(s.vault, s.id, scope, prompt, text, t)
            && s.vault.rows[s.id].kind == kind && s.vault.rows[s.id].sensitivity == sensitivity
  {
    hide Normalize, RowsValid, AliasesValid, Extends, RowSound, StoreRow, ApprovedRow, RowFor;
    ApprovedRowIsSound(v, key, prompt, text, kind, sensitivity, scope, true, provenance, now);
    var row := ApprovedRow(v, key, prompt, text, kind, sensitivity, scope, true, provenance, now);
    StoreRowFiles(v, row, t);
  }

  lemma SameWordsFiled(w: State, id: int, scope: string, wording: string, text: string, t: Tables)
    requires Filed(w, id, scope, TrimSpace(wording), text, t)
    ensures Filed(w, id, scope, wording, text, t)
  {
    hide Normalize;
    NormalizeIgnoresPadding(wording, t);
  }

  lemma PreparedHasWords(prompt: string, value: string, t: Tables)
    requires Prepared(prompt, value, t).Ok?
    ensures Normalize(prompt, t) != ""
  {
    hide Normalize, QuestionKey;
    NormalizeIgnoresPadding(prompt, t);
    EmptyKeyMeansNoWords(prompt, t);
  }

  lemma PreparedExactly(prompt: string, value: string, t: Tables)
    ensures Prepared(prompt, value, t).Ok? <==> Normalize(prompt, t) != "" && TrimSpace(value) != ""
    ensures Prepared(prompt, value, t).Ok? ==> Prepared(prompt, value, t).value == (TrimSpace(prompt), TrimSpace(value))
  {
    NormalizeIgnoresPadding(prompt, t);
    EmptyKeyMeansNoWords(prompt, t);
    if Normalize(prompt, t) != "" {
      WordsSurviveTrim(prompt, t);
    }
    hide Normalize, QuestionKey, TrimSpace;
  }

  /** The central rule: an answer is stored exactly when question and answer have words, the question is no per-job
      question, and a declaration comes from the operator with both the decision and the grant. */
  lemma SaveAcceptsExactly(v: State, req: SaveRequest, now: int, t: Tables)
    requires Valid(v)
    ensures Save(v, req, now, t).Ok? <==>
            && Normalize(req.question.prompt, t) != "" && TrimSpace(req.answer) != "" && req.provenance.Some?
            && StoredSensitivity(req, t) != GeneratePerJob
            && (StoredSensitivity(req, t) == Sensitive ==>
                  OperatorDecided(req.provenance.value) && req.reuseDecision && req.reuse)
  {
    hide Normalize, Classify, QuestionKey, StoreAnswer, TrimSpace, Valid, Extends;
    PreparedExactly(req.question.prompt, req.answer, t);
  }

  lemma PreparedFails(prompt: string, value: string, t: Tables)
    ensures var r, worded, given := Prepared(prompt, value, t), Normalize(prompt, t) != "", TrimSpace(value) != "";
            && (r == Fail(NoQuestion) <==> TrimSpace(prompt) == "")
            && (r == Fail(NoAnswer) <==> TrimSpace(prompt) != "" && !given)
            && (r == Fail(NoText) <==> TrimSpace(prompt) != "" && given && !worded)
            && (r.Ok? <==> worded && given)
  {
    PreparedExactly(prompt, value, t);
    hide Normalize, QuestionKey, TrimSpace;
  }

  /** Every refusal of a save, and when it is given. */
  lemma SaveRefusedExactly(v: State, req: SaveRequest, now: int, t: Tables)
    requires Valid(v)
    ensures var r, prompt := Save(v, req, now, t), req.question.prompt;
            var given, s := TrimSpace(req.answer) != "", StoredSensitivity(req, t);
            var ready := Normalize(prompt, t) != "" && given;
            && (r == Fail(NoQuestion) <==> TrimSpace(prompt) == "")
            && (r == Fail(NoAnswer) <==> TrimSpace(prompt) != "" && !given)
            && (r == Fail(NoText) <==> TrimSpace(prompt) != "" && given && Normalize(prompt, t) == "")
            && (r == Fail(NotReusable) <==> ready && s == GeneratePerJob)
            && (r == Fail(SensitiveNeedsApproval) <==>
                  ready && s == Sensitive && !(req.provenance.Some? && OperatorDecided(req.provenance.value)
                                               && req.reuseDecision && req.reuse))
            && (r == Fail(NoProvenance) <==> ready && s == Routine && req.provenance.None?)
  {
    PreparedFails(req.question.prompt, req.answer, t);
    hide Normalize, StoredSensitivity, QuestionKey, StoreAnswer, TrimSpace, Valid, Extends, Prepared;
  }

  /** Every refusal of an absence. */
  lemma AbsenceRefusedExactly(v: State, req: AbsenceRequest, now: int, t: Tables)
    requires Valid(v)
    ensures var r, prompt := SaveAbsence(v, req, now, t), req.question.prompt;
            var given, s := TrimSpace(req.reason) != "", Classify(req.question, t);
            var ready := Normalize(prompt, t) != "" && given;
            && (r == Fail(NoQuestion) <==> TrimSpace(prompt) == "")
            && (r == Fail(NoAnswer) <==> TrimSpace(prompt) != "" && !given)
            && (r == Fail(NoText) <==> TrimSpace(prompt) != "" && given && Normalize(prompt, t) == "")
            && (r == Fail(NotReusable) <==> ready && s == GeneratePerJob)
            && (r == Fail(SensitiveNeedsApproval) <==> ready && s == Sensitive && !(req.reuseDecision && req.reuse))
            && (r.Ok? <==>
                  ready && s != GeneratePerJob && (s == Sensitive ==> req.reuseDecision && req.reuse))
  {
    PreparedFails(req.question.prompt, req.reason, t);
    hide Normalize, Classify, QuestionKey, StoreAnswer, TrimSpace, Valid, Extends, Prepared;
  }

  /** An accepted save with reuse files the answer under its wording. */
  lemma SaveFiles(v: State, req: SaveRequest, now: int, t: Tables)
    requires Valid(v) && Save(v, req, now, t).Ok? && req.reuse
    ensures var s := Save(v, req, now, t).value;
            && Filed(s.vault, s.id, EffectiveScope(req.scope), req.question.prompt, TrimSpace(req.answer), t)
            && s.vault.rows[s.id].kind == (if req.kind.None? then KindText else req.kind.value)
            && s.vault.rows[s.id].sensitivity == StoredSensitivity(req, t)
            && Normalize(req.question.prompt, t) != ""
  {
    hide Classify, Normalize, QuestionKey, StoreAnswer, Filed, Valid, Extends;
    var p := Prepared(req.question.prompt, req.answer, t).value;
    var kind := if req.kind.None? then KindText else req.kind.value;
    PreparedHasWords(req.question.prompt, req.answer, t);
    StoreFiles(v, QuestionKey(p.0, t), p.0, p.1, kind, StoredSensitivity(req, t), EffectiveScope(req.scope),
               req.provenance.value, now, t);
    var s := Save(v, req, now, t).value;
    SameWordsFiled(s.vault, s.id, EffectiveScope(req.scope), req.question.prompt, p.1, t);
  }

  /** An accepted absence with reuse files its reason under its wording. */
  lemma AbsenceFiles(v: State, req: AbsenceRequest, now: int, t: Tables)
    requires Valid(v) && SaveAbsence(v, req, now, t).Ok? && req.reuse
    ensures var s := SaveAbsence(v, req, now, t).value;
            && Filed(s.vault, s.id, EffectiveScope(req.scope), req.question.prompt, TrimSpace(req.reason), t)
            && s.vault.rows[s.id].kind == KindAbsence
            && s.vault.rows[s.id].sensitivity == Classify(req.question, t)
            && Normalize(req.question.prompt, t) != ""
  {
    hide Classify, Normalize, QuestionKey, StoreAnswer, Filed, Valid, Extends;
    var p := Prepared(req.question.prompt, req.reason, t).value;
    PreparedHasWords(req.question.prompt, req.reason, t);
    StoreFiles(v, QuestionKey(p.0, t), p.0, p.1, KindAbsence, Classify(req.question, t), EffectiveScope(req.scope),
               OperatorApproved, now, t);
    var s := SaveAbsence(v, req, now, t).value;
    SameWordsFiled(s.vault, s.id, EffectiveScope(req.scope), req.question.prompt, p.1, t);
  }

  /** What lies in the other scopes is exactly as it was. */
  ghost predicate OtherScopesSame(v: State, w: State, scope: string) {
    && (forall a: (string, string) :: a.1 != scope ==>
          (a in w.aliases <==> a in v.aliases) && (a in v.aliases ==> w.aliases[a] == v.aliases[a]))
    && (forall k: (string, string) :: k.1 != scope ==>
          (k in w.index <==> k in v.index) && (k in v.index ==> w.index[k] == v.index[k]))
    && (forall id :: id in v.rows && v.rows[id].scope != scope ==> id in w.rows && w.rows[id] == v.rows[id])
  }

  lemma SameCompose(u: State, v: State, w: State, scope: string)
    requires OtherScopesSame(u, v, scope) && OtherScopesSame(v, w, scope)
    ensures OtherScopesSame(u, w, scope)
  {
  }

  lemma PutKeepsOtherScopes(v: State, row: Row)
    requires Valid(v) && RowSound(row) && row.revokedAt.None?
    ensures OtherScopesSame(v, Put(v, row), row.scope)
  {
    hide RowSound, Extends, RowsValid, AliasesValid;
  }

  lemma AliasKeepsOtherScopes(v: State, alias: string, id: int)
    requires Valid(v) && Live(v, id)
    ensures OtherScopesSame(v, WithAlias(v, alias, id), v.rows[id].scope)
  {
    hide Valid, Extends;
  }

  lemma StoreRowKeepsOtherScopes(v: State, row: Row, phrasing: string)
    requires Valid(v) && RowSound(row) && row.revokedAt.None?
    ensures OtherScopesSame(v, StoreRow(v, row, phrasing).vault, row.scope)
  {
    hide Valid, Extends, OtherScopesSame, Put, WithAlias, Written, RowSound;
    PutWrites(v, row);
    PutKeepsOtherScopes(v, row);
    if row.reuse {
      var w, id := Put(v, row), RowFor(v, row.key, row.scope);
      AliasKeepsOtherScopes(w, phrasing, id);
      SameCompose(v, w, WithAlias(w, phrasing, id), row.scope);
    }
  }

  lemma StoreKeepsOtherScopes(v: State, key: string, prompt: string, text: string, kind: Kind, sensitivity: Sensitivity,
                              scope: string, reuse: bool, provenance: Provenance, now: int, t: Tables)
    requires Valid(v) && text != "" && sensitivity != GeneratePerJob
    requires sensitivity == Sensitive && reuse ==> OperatorDecided(provenance)
    ensures OtherScopesSame(
              v, StoreAnswer(v, key, prompt, text, kind, sensitivity, scope, reuse, provenance, now, t).vault, scope)
  {
    hide Normalize, RowsValid, AliasesValid, Extends, OtherScopesSame, StoreRow, ApprovedRow, RowSound, RowFor;
    ApprovedRowIsSound(v, key, prompt, text, kind, sensitivity, scope, reuse, provenance, now);
    var row := ApprovedRow(v, key, prompt, text, kind, sensitivity, scope, reuse, provenance, now);
    StoreRowKeepsOtherScopes(v, row, Normalize(prompt, t));
  }

  lemma SaveKeepsOtherScopes(v: State, req: SaveRequest, now: int, t: Tables)
    requires Valid(v) && Save(v, req, now, t).Ok?
    ensures OtherScopesSame(v, Save(v, req, now, t).value.vault, EffectiveScope(req.scope))
  {
    hide StoreAnswer, Normalize, Classify, QuestionKey, OtherScopesSame;
    var p := Prepared(req.question.prompt, req.answer, t).value;
    var kind := if req.kind.None? then KindText else req.kind.value;
    StoreKeepsOtherScopes(v, QuestionKey(p.0, t), p.0, p.1, kind, StoredSensitivity(req, t), EffectiveScope(req.scope),
                          req.reuse, req.provenance.value, now, t);
  }

  lemma AbsenceKeepsOtherScopes(v: State, req: AbsenceRequest, now: int, t: Tables)
    requires Valid(v) && SaveAbsence(v, req, now, t).Ok?
    ensures OtherScopesSame(v, SaveAbsence(v, req, now, t).value.vault, EffectiveScope(req.scope))
  {
    hide StoreAnswer, Normalize, Classify, QuestionKey, OtherScopesSame;
    var p := Prepared(req.question.prompt, req.reason, t).value;
    StoreKeepsOtherScopes(v, QuestionKey(p.0, t), p.0, p.1, KindAbsence, Classify(req.question, t),
                          EffectiveScope(req.scope), req.reuse, OperatorApproved, now, t);
  }

  lemma {:induction false} ExtraPhrasingsAre(phrasings: seq<string>, prompt: string, t: Tables, p: string)
    ensures p in ExtraPhrasings(phrasings, prompt, t) <==>
            p in phrasings && Normalize(p, t) != Normalize(prompt, t)
  {
    hide Normalize;
    if phrasings != [] {
      ExtraPhrasingsAre(phrasings[1..], prompt, t, p);
    }
  }

  /** Binding points every recognizable phrasing at the row, and leaves other scopes alone. */
  lemma BindingReaches(v: State, id: int, extra: seq<string>, scope: string, t: Tables)
    requires Valid(v) && Live(v, id) && v.rows[id].scope == scope
    ensures var w := v.(aliases := Bound(v.aliases, extra, scope, id, t));
            && OtherScopesSame(v, w, scope)
            && (forall p :: p in extra && Normalize(p, t) != "" ==>
                  (Normalize(p, t), scope) in w.aliases && w.aliases[(Normalize(p, t), scope)] == id)
            && (forall a :: a in v.aliases && v.aliases[a] == id ==> a in w.aliases && w.aliases[a] == id)
  {
    hide Normalize, Bound;
    BoundAliases(v.aliases, extra, scope, id, t);
  }

  /** Binding is accepted for a reusable answer unless it is an unconfirmed declaration. */
  lemma BindingAccepted(s: Stored, g: Group, confirmed: bool, t: Tables)
    requires Valid(s.vault) && Live(s.vault, s.id) && s.vault.rows[s.id].reuse
    requires s.vault.rows[s.id].sensitivity == Sensitive ==> confirmed
    ensures WithPhrasings(s, g, confirmed, t) == s.vault.(
              aliases := Bound(s.vault.aliases, ExtraPhrasings(g.phrasings, CanonicalPrompt(g, t), t),
                               s.vault.rows[s.id].scope, s.id, t))
  {
    hide Normalize, CanonicalPrompt, ExtraPhrasings;
  }

  /** Then every recognizable phrasing of the group answers to the row, which itself is untouched. */
  lemma PhrasingsBound(s: Stored, g: Group, scope: string, text: string, confirmed: bool, p: string, t: Tables)
    requires Valid(s.vault) && Filed(s.vault, s.id, scope, CanonicalPrompt(g, t), text, t)
    requires s.vault.rows[s.id].sensitivity == Sensitive ==> confirmed
    requires p in g.phrasings && Normalize(p, t) != ""
    ensures var w := WithPhrasings(s, g, confirmed, t);
            && w.rows == s.vault.rows && w.index == s.vault.index
            && (Normalize(p, t), scope) in w.aliases && w.aliases[(Normalize(p, t), scope)] == s.id
            && OtherScopesSame(s.vault, w, scope)
  {
    hide Normalize, CanonicalPrompt, ExtraPhrasings, Bound, WithPhrasings, OtherScopesSame;
    BindingAccepted(s, g, confirmed, t);
    ExtraPhrasingsAre(g.phrasings, CanonicalPrompt(g, t), t, p);
    BindingReaches(s.vault, s.id, ExtraPhrasings(g.phrasings, CanonicalPrompt(g, t), t), scope, t);
  }

  /** Without the confirmation a declaration gains no phrasing but the wording it is filed under. */
  lemma UnconfirmedBindsNothingMore(s: Stored, g: Group, t: Tables)
    requires Valid(s.vault) && Live(s.vault, s.id) && s.vault.rows[s.id].sensitivity == Sensitive
    ensures WithPhrasings(s, g, false, t) == s.vault
  {
  }

  // ----- from the vault to the resolution

  /** No narrower scope of the chain has anything for the question; the chain reaches `scope` at `k`. */
  ghost predicate ReachesScope(v: State, q: Question, chain: seq<string>, k: nat, scope: string, t: Tables) {
    && k < |chain| && chain[k] == scope
    && forall j :: 0 <= j < k ==> chain[j] != scope && ScopeHit(v, q, chain[j], t).None?
  }

  lemma SameKeyHit(v: State, w: State, key: string, s: string, scope: string, source: Source)
    requires Valid(v) && Valid(w) && OtherScopesSame(v, w, scope) && s != scope
    ensures KeyHit(w, key, s, source) == KeyHit(v, key, s, source)
    ensures KeyHit(v, key, s, source).Some? ==>
              v.rows[KeyHit(v, key, s, source).value.id] == w.rows[KeyHit(v, key, s, source).value.id]
  {
  }

  lemma SameAliasHit(v: State, w: State, q: Question, s: string, scope: string, t: Tables)
    requires Valid(v) && Valid(w) && OtherScopesSame(v, w, scope) && s != scope
    ensures AliasHit(w, q, s, t) == AliasHit(v, q, s, t)
    ensures AliasHit(v, q, s, t).Some? ==>
              v.rows[AliasHit(v, q, s, t).value.id] == w.rows[AliasHit(v, q, s, t).value.id]
  {
    hide Normalize;
  }

  lemma SameScopeSameHit(v: State, w: State, q: Question, s: string, scope: string, t: Tables)
    requires Valid(v) && Valid(w) && OtherScopesSame(v, w, scope) && s != scope
    ensures ScopeHit(w, q, s, t) == ScopeHit(v, q, s, t)
    ensures ScopeHit(v, q, s, t).Some? ==>
              v.rows[ScopeHit(v, q, s, t).value.id] == w.rows[ScopeHit(v, q, s, t).value.id]
  {
    hide Normalize, QuestionKey, SkillExperienceSubject, SkillExperienceKey, AliasHit, KeyHit, Valid, OtherScopesSame;
    SameAliasHit(v, w, q, s, scope, t);
    SameKeyHit(v, w, QuestionKey(q.prompt, t), s, scope, SourceVault);
    SameKeyHit(v, w, SkillExperienceKey(SkillExperienceSubject(q, t), t), s, scope, SourceSkillExperience);
  }

  /** A question whose wording is an alias in the scope its chain reaches is answered from that row. */
  lemma AliasAnswers(v: State, w: State, q: Question, ctx: Context, facts: Option<Facts>, k: nat, scope: string,
                     id: int, t: Tables)
    requires Valid(v) && Valid(w) && OtherScopesSame(v, w, scope)
    requires ReachesScope(v, q, ScopeChain(ctx, t), k, scope, t)
    requires Normalize(q.prompt, t) != "" && Live(w, id)
    requires (Normalize(q.prompt, t), scope) in w.aliases && w.aliases[(Normalize(q.prompt, t), scope)] == id
    ensures Resolve(w, q, ctx, facts, t) == FromHit(w.rows[id], q, Hit(id, SourceAlias), t)
  {
    hide Normalize, FromHit, ScopeChain;
    var chain := ScopeChain(ctx, t);
    assert AliasHit(w, q, scope, t) == Some(Hit(id, SourceAlias));
    forall j | 0 <= j < k
      ensures ScopeHit(w, q, chain[j], t).None?
    {
      SameScopeSameHit(v, w, q, chain[j], scope, t);
    }
    ChainHitAt(w, q, chain, k, t);
  }

  // ----- the group's own questions

  /** A group that can be approved holds only questions with recognizable text. */
  lemma WordlessGroup(e: Env, members: seq<Queued>, k: GroupKey, q: Queued)
    requires members != [] && q in members
    requires forall m :: m in members ==> KeyOf(AsQuestion(m), e.tables) == k
    requires Normalize(q.prompt, e.tables) == ""
    ensures Normalize(CanonicalPrompt(Finalized(Folded(e, members)), e.tables), e.tables) == ""
  {
    var t, g := e.tables, Folded(e, members);
    WordlessKey(AsQuestion(q), t);
    GroupKeepsFirst(e, members);
    assert k == TextKey("");
    forall m | m in members
      ensures Normalize(m.prompt, t) == "" && Normalize(TrimSpace(m.prompt), t) == ""
    {
      TextKeyIsKey(AsQuestion(m), t);
      EmptyKeyMeansNoWords(m.prompt, t);
      NormalizeIgnoresPadding(m.prompt, t);
    }
    hide Normalize, Folded, KeyOf;
    SortPermutes(g.phrasings, Precedes);
    SameMembers(Sort(g.phrasings, Precedes), g.phrasings);
    forall p | p in g.phrasings
      ensures Normalize(p, t) == ""
    {
      GroupRecordsPhrasings(e, members, p);
      var i :| 0 <= i < |members| && TrimSpace(members[i].prompt) == p;
    }
    ShortestIsOneOf(g.prompt, Sort(g.phrasings, Precedes));
  }

  lemma WordlessKey(q: Question, t: Tables)
    requires Normalize(q.prompt, t) == ""
    ensures KeyOf(q, t) == TextKey("")
  {
    hide Normalize;
    EmptyKeyMeansNoWords(q.prompt, t);
    assert Tokens(q.prompt, t) == [];
  }

  lemma TextKeyIsKey(q: Question, t: Tables)
    requires KeyOf(q, t).TextKey?
    ensures KeyOf(q, t).text == QuestionKey(q.prompt, t)
  {
  }

  lemma {:induction false} ShortestIsOneOf(prompt: string, phrasings: seq<string>)
    ensures ShortestPrompt(prompt, phrasings) == prompt || ShortestPrompt(prompt, phrasings) in phrasings
    decreases |phrasings|
  {
    if phrasings != [] {
      var next := if prompt == "" || ByteLength(phrasings[0]) < ByteLength(prompt) then phrasings[0] else prompt;
      ShortestIsOneOf(next, phrasings[1..]);
    }
  }

  /** The queue shows a pending question under its group, with its wording among the group's phrasings. */
  lemma PendingIsInGroup(e: Env, queue: seq<Queued>, q: Queued)
    requires q in queue && Pending(e, q)
    ensures var key := KeyOf(AsQuestion(q), e.tables);
            && GroupNow(e, queue, key).Some?
            && (Normalize(CanonicalPrompt(GroupNow(e, queue, key).value, e.tables), e.tables) != "" ==>
                  && Normalize(q.prompt, e.tables) != ""
                  && TrimSpace(q.prompt) in GroupNow(e, queue, key).value.phrasings)
  {
    var key := KeyOf(AsQuestion(q), e.tables);
    var members := Filter(queue, InGroup(e, key));
    FilterMembers(queue, InGroup(e, key));
    CollectGroups(e, queue, key);
    hide Normalize, CanonicalPrompt, Folded, KeyOf, Collect, Outcome;
    if Normalize(q.prompt, e.tables) == "" {
      WordlessGroup(e, members, key, q);
    } else {
      WordsSurviveTrim(q.prompt, e.tables);
      GroupRecordsPhrasings(e, members, TrimSpace(q.prompt));
      var g := Folded(e, members);
      SortPermutes(g.phrasings, Precedes);
      SameMembers(Sort(g.phrasings, Precedes), g.phrasings);
    }
  }

  lemma WordsSurviveTrim(text: string, t: Tables)
    requires Normalize(text, t) != ""
    ensures TrimSpace(text) != "" && Normalize(TrimSpace(text), t) == Normalize(text, t)
  {
    NormalizeIgnoresPadding(text, t);
    NoMarkersBlank(t.markers);
    assert Cleaned("", t) == "" && Normalize("", t) == "";
  }

  lemma {:induction false} NoMarkersBlank(markers: seq<string>)
    ensures WithoutMarkers("", markers) == ""
    decreases |markers|
  {
    if markers != [] {
      NoMarkersBlank(markers[1..]);
    }
  }

  // ----- the theorem

  /** One approval resolves the group. After an accepted approval of a group, provided its row is no declaration or
      the operator confirmed the equivalence, every queued question of the group whose scope chain reaches the
      stored scope with nothing narrower in the way resolves by itself, to exactly the approved answer, from the
      stored row -- so the next pass over the queue puts it in no group. */
  lemma ApprovalResolvesGroup(e: Env, queue: seq<Queued>, req: ApproveRequest, now: int, q: Queued, k: nat)
    requires Valid(e.vault) && Approve(e, queue, req, now).Accepted?
    requires q in queue && Pending(e, q) && KeyOf(AsQuestion(q), e.tables) == req.group
    requires var s := Approve(e, queue, req, now).value;
             s.id in s.vault.rows && s.vault.rows[s.id].sensitivity == Sensitive ==> req.confirmed
    requires ReachesScope(e.vault, AsQuestion(q), ScopeChain(Context(q.ats, q.company), e.tables), k,
                          EffectiveScope(req.scope), e.tables)
    ensures var s := Approve(e, queue, req, now).value;
            var after := e.(vault := s.vault);
            && !Pending(after, q) && (forall key :: !InGroup(after, key)(q))
            && Outcome(after, q).answer == TrimSpace(req.answer)
            && Outcome(after, q).answerId == Some(s.id)
            && !Outcome(after, q).absence
  {
    hide Normalize, CanonicalPrompt, Collect, KeyOf, Classify, Resolve, FromHit, ScopeChain, ReachesScope,
      WithPhrasings, Filed, OtherScopesSame, Finalized;
    var t := e.tables;
    var g := GroupNow(e, queue, req.group).value;
    var save := SaveRequestFor(g, req, t);
    var filed := Save(e.vault, save, now, t).value;
    var scope := EffectiveScope(req.scope);
    SaveRequiresGrant(e.vault, g, req, now, t);
    SaveFiles(e.vault, save, now, t);
    SaveKeepsOtherScopes(e.vault, save, now, t);
    PendingIsInGroup(e, queue, q);
    var p := TrimSpace(q.prompt);
    NormalizeIgnoresPadding(q.prompt, t);
    TrimSpaceIdempotent(req.answer);
    SensitivityKept(filed, g, req.confirmed, t);
    PhrasingsBound(filed, g, scope, TrimSpace(req.answer), req.confirmed, p, t);
    var w := WithPhrasings(filed, g, req.confirmed, t);
    SameCompose(e.vault, filed.vault, w, scope);
    FiledFacts(filed.vault, filed.id, scope, save.question.prompt, TrimSpace(req.answer), t);
    AliasAnswers(e.vault, w, AsQuestion(q), Context(q.ats, q.company), e.facts, k, scope, filed.id, t);
    FilledFromReusable(w.rows[filed.id], AsQuestion(q), filed.id, t);
  }

  /** An accepted approval always carries the grant: a declaration without it is refused. */
  lemma SaveRequiresGrant(v: State, g: Group, req: ApproveRequest, now: int, t: Tables)
    requires Valid(v) && Save(v, SaveRequestFor(g, req, t), now, t).Ok?
    ensures SaveRequestFor(g, req, t).reuse
  {
    hide CanonicalPrompt, Classify, StoreAnswer, QuestionKey;
  }

  /** How carefully the approved question is treated: as the group was read, or as its canonical wording classifies. */
  function ApprovedAs(g: Group, t: Tables): Sensitivity {
    if g.sensitivity == Sensitive then Sensitive else Classify(QuestionFromGroup(g, t), t)
  }

  /** Exactly when a group's answer can be stored: some answer, for reuse, to a group still shown whose employers offer
      the same choices and whose canonical wording has words, is no per-job question, and, as a declaration, carries
      the second acknowledgement. */
  ghost predicate Approvable(g: Group, req: ApproveRequest, t: Tables) {
    && !OptionsVary(g) && Normalize(CanonicalPrompt(g, t), t) != ""
    && ApprovedAs(g, t) != GeneratePerJob && (ApprovedAs(g, t) == Sensitive ==> req.allowSensitiveReuse)
  }

  /** The vault's own rule for an approval. */
  lemma SaveAcceptedExactly(v: State, g: Group, req: ApproveRequest, now: int, t: Tables)
    requires Valid(v) && TrimSpace(req.answer) != ""
    ensures Save(v, SaveRequestFor(g, req, t), now, t).Ok? <==>
            && Normalize(CanonicalPrompt(g, t), t) != ""
            && ApprovedAs(g, t) != GeneratePerJob && (ApprovedAs(g, t) == Sensitive ==> req.allowSensitiveReuse)
  {
    hide Normalize, CanonicalPrompt, Classify, TrimSpace, Valid, Save;
    TrimSpaceIdempotent(req.answer);
    SaveAcceptsExactly(v, SaveRequestFor(g, req, t), now, t);
  }

  /** An approval is accepted exactly when the group is approvable, there is an answer and it is meant for reuse; it is
      then stored as carefully as the group was read. */
  lemma ApprovalAcceptedExactly(e: Env, queue: seq<Queued>, req: ApproveRequest, now: int)
    requires Valid(e.vault)
    ensures Approve(e, queue, req, now).Accepted? <==>
            && TrimSpace(req.answer) != "" && req.saveForReuse
            && GroupNow(e, queue, req.group).Some?
            && Approvable(GroupNow(e, queue, req.group).value, req, e.tables)
    ensures Approve(e, queue, req, now).Accepted? ==>
              var s := Approve(e, queue, req, now).value;
              s.id in s.vault.rows
              && s.vault.rows[s.id].sensitivity == ApprovedAs(GroupNow(e, queue, req.group).value, e.tables)
  {
    hide GroupNow, Save, SaveRequestFor, WithPhrasings, TrimSpace, ApprovedAs, CanonicalPrompt, Normalize, Valid,
      OptionsVary;
    if TrimSpace(req.answer) != "" && GroupNow(e, queue, req.group).Some? {
      var g := GroupNow(e, queue, req.group).value;
      SaveAcceptedExactly(e.vault, g, req, now, e.tables);
      if Approve(e, queue, req, now).Accepted? {
        StoredAsApproved(e.vault, g, req, now, e.tables);
        SensitivityKept(Save(e.vault, SaveRequestFor(g, req, e.tables), now, e.tables).value, g, req.confirmed,
                        e.tables);
      }
    }
  }

  /** Every refusal of an approval, and when it is given: a group whose employers offer different choices is refused
      whatever else is asked, and what the vault refuses is refused last. */
  lemma ApprovalRefusedExactly(e: Env, queue: seq<Queued>, req: ApproveRequest, now: int)
    requires Valid(e.vault)
    ensures var r, found := Approve(e, queue, req, now), GroupNow(e, queue, req.group);
            var given := TrimSpace(req.answer) != "";
            && (r == Declined(Blank) <==> !given)
            && (r == Declined(NotInQueue) <==> given && found.None?)
            && (r == Declined(ChoicesDiffer) <==> given && found.Some? && OptionsVary(found.value))
            && (r == Declined(NotForReuse) <==>
                  given && found.Some? && !OptionsVary(found.value) && !req.saveForReuse)
            && (r != Declined(PerJobQuestion))
  {
    hide GroupNow, Save, SaveRequestFor, WithPhrasings, TrimSpace, Valid, OptionsVary;
  }

  /** Every refusal of an absence of a group; here reuse is asked first, and different choices are no obstacle. */
  lemma GroupAbsenceRefusedExactly(e: Env, queue: seq<Queued>, req: AbsenceApproval, now: int)
    requires Valid(e.vault)
    ensures var r, found := ApproveAbsence(e, queue, req, now), GroupNow(e, queue, req.group);
            var given := TrimSpace(req.reason) != "";
            && (r == Declined(Blank) <==> !given)
            && (r == Declined(NotForReuse) <==> given && !req.saveForReuse)
            && (r == Declined(NotInQueue) <==> given && req.saveForReuse && found.None?)
            && (r == Declined(PerJobQuestion) <==>
                  given && req.saveForReuse && found.Some? && found.value.sensitivity == GeneratePerJob)
            && (r != Declined(ChoicesDiffer))
  {
    hide GroupNow, SaveAbsence, AbsenceRequestFor, WithPhrasings, TrimSpace, Valid, GroupPolicy;
    if GroupNow(e, queue, req.group).Some? {
      PolicyReadsSensitivity(GroupNow(e, queue, req.group).value);
    }
  }

  lemma StoredAsApproved(v: State, g: Group, req: ApproveRequest, now: int, t: Tables)
    requires Valid(v) && Save(v, SaveRequestFor(g, req, t), now, t).Ok?
    ensures var s := Save(v, SaveRequestFor(g, req, t), now, t).value;
            Live(s.vault, s.id) && s.vault.rows[s.id].sensitivity == ApprovedAs(g, t)
  {
    SaveRequiresGrant(v, g, req, now, t);
    SaveFiles(v, SaveRequestFor(g, req, t), now, t);
    FiledFacts(Save(v, SaveRequestFor(g, req, t), now, t).value.vault,
               Save(v, SaveRequestFor(g, req, t), now, t).value.id,
               EffectiveScope(req.scope), CanonicalPrompt(g, t), TrimSpace(SaveRequestFor(g, req, t).answer), t);
    hide Save, Classify, CanonicalPrompt, Filed, TrimSpace, Normalize;
  }

  /** An absence is accepted exactly when it has a reason and is meant for reuse, and the group is still shown, has a
      recognizable canonical wording, and is per-job neither as read nor as worded. */
  lemma AbsenceAcceptedExactly(e: Env, queue: seq<Queued>, req: AbsenceApproval, now: int)
    requires Valid(e.vault)
    ensures ApproveAbsence(e, queue, req, now).Accepted? <==>
            && TrimSpace(req.reason) != "" && req.saveForReuse
            && GroupNow(e, queue, req.group).Some?
            && var g := GroupNow(e, queue, req.group).value;
               && Normalize(CanonicalPrompt(g, e.tables), e.tables) != ""
               && g.sensitivity != GeneratePerJob
               && Classify(QuestionFromGroup(g, e.tables), e.tables) != GeneratePerJob
  {
    hide GroupNow, WithPhrasings, TrimSpace, CanonicalPrompt, Normalize, Valid, Classify, Prepared, StoreAnswer,
      QuestionKey, GroupPolicy;
    if GroupNow(e, queue, req.group).Some? {
      var g := GroupNow(e, queue, req.group).value;
      TrimSpaceIdempotent(req.reason);
      PreparedExactly(CanonicalPrompt(g, e.tables), TrimSpace(req.reason), e.tables);
      PolicyReadsSensitivity(g);
    }
  }

  // ----- what the operator's decision is stored as

  /** The wording a group is filed under, by the rule that made its questions one: a skill's own question, a pattern's
      curated wording if it has one, and otherwise the label the group is shown under. */
  function FiledUnder(key: GroupKey, shown: string, t: Tables): string {
    match key
    case SkillKey(subject) => SkillExperienceQuestion(subject)
    case PatternKey(id) => if CanonicalForPattern(id, 0, t) != "" then CanonicalForPattern(id, 0, t) else shown
    case TextKey(_) => shown
  }

  lemma CanonicalByKey(e: Env, queue: seq<Queued>, key: GroupKey)
    requires GroupNow(e, queue, key).Some?
    ensures var g := GroupNow(e, queue, key).value;
            g.key == key && CanonicalPrompt(g, e.tables) == FiledUnder(key, g.prompt, e.tables)
  {
    hide SkillExperienceQuestion, CanonicalForPattern, PatternId, SkillExperienceSubject, QuestionKey, Collect, Outcome;
    SkillOfGroup(e, queue, key);
    var members := Filter(queue, InGroup(e, key));
    FilterMembers(queue, InGroup(e, key));
    CollectGroups(e, queue, key);
    GroupKeepsFirst(e, members);
    assert members[0] in members;
  }

  /** The row is live and reusable, and says exactly this. */
  ghost predicate RowReads(v: State, id: int, wording: string, text: string, kind: Kind, sensitivity: Sensitivity,
                           scope: string, provenance: Provenance, t: Tables) {
    && id in v.rows
    && var row := v.rows[id];
       && row.revokedAt.None? && row.reuse && row.key == QuestionKey(wording, t) && row.canonical == TrimSpace(wording)
       && row.text == text && row.kind == kind && row.sensitivity == sensitivity && row.scope == scope
       && row.provenance == provenance
  }

  /** The row holds the operator's answer to the group as shown: approved if it is the suggestion the group showed, up
      to surrounding blanks, and edited if it is anything else. */
  ghost predicate StoresAnswer(v: State, id: int, g: Group, req: ApproveRequest, t: Tables) {
    RowReads(v, id, FiledUnder(req.group, g.prompt, t), TrimSpace(req.answer), KindText, ApprovedAs(g, t),
             EffectiveScope(req.scope),
             if TrimSpace(req.answer) == TrimSpace(g.suggested) then OperatorApproved else OperatorEdited, t)
  }

  /** The row holds the operator's reason why the group has no answer. */
  ghost predicate StoresAbsence(v: State, id: int, g: Group, req: AbsenceApproval, t: Tables) {
    RowReads(v, id, FiledUnder(req.group, g.prompt, t), TrimSpace(req.reason), KindAbsence,
             Classify(QuestionFromGroup(g, t), t), EffectiveScope(req.scope), OperatorApproved, t)
  }

  /** What an accepted approval stores, on the row it names: the trimmed answer under the group's wording and in the
      requested scope, and whether the operator took the suggestion or wrote something else. */
  lemma ApprovalStoresExactly(e: Env, queue: seq<Queued>, req: ApproveRequest, now: int)
    requires Valid(e.vault) && Approve(e, queue, req, now).Accepted?
    ensures GroupNow(e, queue, req.group).Some?
    ensures var s := Approve(e, queue, req, now).value;
            StoresAnswer(s.vault, s.id, GroupNow(e, queue, req.group).value, req, e.tables)
  {
    hide GroupNow, CanonicalPrompt, FiledUnder, Save, WithPhrasings, Classify, QuestionKey, Normalize, TrimSpace,
      Valid, OptionsVary, ContinuesHistory;
    var t, g := e.tables, GroupNow(e, queue, req.group).value;
    var save := SaveRequestFor(g, req, t);
    CanonicalByKey(e, queue, req.group);
    TrimSpaceIdempotent(req.answer);
    SaveRequiresGrant(e.vault, g, req, now, t);
    ApprovalWritesOneRow(e.vault, save, now, t);
    SaveFiles(e.vault, save, now, t);
    SensitivityKept(Save(e.vault, save, now, t).value, g, req.confirmed, t);
  }

  /** What an accepted absence stores. */
  lemma AbsenceStoresExactly(e: Env, queue: seq<Queued>, req: AbsenceApproval, now: int)
    requires Valid(e.vault) && ApproveAbsence(e, queue, req, now).Accepted?
    ensures GroupNow(e, queue, req.group).Some?
    ensures var s := ApproveAbsence(e, queue, req, now).value;
            StoresAbsence(s.vault, s.id, GroupNow(e, queue, req.group).value, req, e.tables)
  {
    hide GroupNow, CanonicalPrompt, FiledUnder, SaveAbsence, WithPhrasings, Classify, QuestionKey, Normalize, TrimSpace,
      Valid, GroupPolicy, ContinuesHistory;
    var t, g := e.tables, GroupNow(e, queue, req.group).value;
    var save := AbsenceRequestFor(g, req, t);
    CanonicalByKey(e, queue, req.group);
    TrimSpaceIdempotent(req.reason);
    AbsenceWritesOneRow(e.vault, save, now, t);
    SensitivityKept(SaveAbsence(e.vault, save, now, t).value, g, req.confirmed, t);
  }

  /** Counting a use changes nothing of it. */
  lemma UseKeepsReading(v: State, w: State, id: int, wording: string, text: string, kind: Kind,
                        sensitivity: Sensitivity, scope: string, provenance: Provenance, t: Tables)
    requires SameButUse(v, w) && RowReads(v, id, wording, text, kind, sensitivity, scope, provenance, t)
    ensures RowReads(w, id, wording, text, kind, sensitivity, scope, provenance, t)
  {
    hide QuestionKey, TrimSpace;
  }

  lemma SensitivityKept(s: Stored, g: Group, confirmed: bool, t: Tables)
    requires Valid(s.vault)
    ensures WithPhrasings(s, g, confirmed, t).rows == s.vault.rows
  {
    hide ExtraPhrasings, CanonicalPrompt;
  }

  lemma FiledFacts(w: State, id: int, scope: string, wording: string, text: string, t: Tables)
    requires Filed(w, id, scope, wording, text, t)
    ensures Live(w, id) && w.rows[id].reuse && w.rows[id].text == text
  {
  }

  /** A reusable row that is no absence fills by itself, with its own text. */
  lemma FilledFromReusable(row: Row, q: Question, id: int, t: Tables)
    requires row.reuse
    ensures var r := FromHit(row, q, Hit(id, SourceAlias), t);
            && r.answer == row.text && r.answerId == Some(id) && r.absence == (row.kind == KindAbsence)
            && r.autoFill == !(row.kind == KindAbsence && q.required)
  {
    hide Classify;
  }

  /** Declaring a group absent settles, in the same way, exactly the fields that are optional: an optional field is
      resolved as intentionally blank, and a required one stays with the operator. */
  lemma AbsenceResolvesOptionalFields(e: Env, queue: seq<Queued>, req: AbsenceApproval, now: int, q: Queued, k: nat)
    requires Valid(e.vault) && ApproveAbsence(e, queue, req, now).Accepted?
    requires q in queue && Pending(e, q) && KeyOf(AsQuestion(q), e.tables) == req.group
    requires var s := ApproveAbsence(e, queue, req, now).value;
             s.id in s.vault.rows && s.vault.rows[s.id].sensitivity == Sensitive ==> req.confirmed
    requires ReachesScope(e.vault, AsQuestion(q), ScopeChain(Context(q.ats, q.company), e.tables), k,
                          EffectiveScope(req.scope), e.tables)
    ensures var s := ApproveAbsence(e, queue, req, now).value;
            var after := e.(vault := s.vault);
            && (Pending(after, q) <==> q.required)
            && Outcome(after, q).absence && Outcome(after, q).answer == TrimSpace(req.reason)
            && Outcome(after, q).answerId == Some(s.id)
  {
    hide Normalize, CanonicalPrompt, Collect, KeyOf, Classify, Resolve, FromHit, ScopeChain, ReachesScope,
      WithPhrasings, Filed, OtherScopesSame, Finalized;
    var t := e.tables;
    var g := GroupNow(e, queue, req.group).value;
    var save := AbsenceRequestFor(g, req, t);
    var filed := SaveAbsence(e.vault, save, now, t).value;
    var scope := EffectiveScope(req.scope);
    AbsenceFiles(e.vault, save, now, t);
    AbsenceKeepsOtherScopes(e.vault, save, now, t);
    PendingIsInGroup(e, queue, q);
    var p := TrimSpace(q.prompt);
    NormalizeIgnoresPadding(q.prompt, t);
    TrimSpaceIdempotent(req.reason);
    SensitivityKept(filed, g, req.confirmed, t);
    PhrasingsBound(filed, g, scope, TrimSpace(req.reason), req.confirmed, p, t);
    var w := WithPhrasings(filed, g, req.confirmed, t);
    SameCompose(e.vault, filed.vault, w, scope);
    FiledFacts(filed.vault, filed.id, scope, save.question.prompt, TrimSpace(req.reason), t);
    AliasAnswers(e.vault, w, AsQuestion(q), Context(q.ats, q.company), e.facts, k, scope, filed.id, t);
    FilledFromReusable(w.rows[filed.id], AsQuestion(q), filed.id, t);
  }

  // ----- beyond the queue

  /** The learning loop: once a wording is approved for reuse, every later question with the same normalized wording
      whose chain reaches the scope is answered from that row, whoever asks it. */
  lemma ApprovedWordingResolves(v: State, req: SaveRequest, now: int, q: Question, ctx: Context, facts: Option<Facts>,
                                k: nat, t: Tables)
    requires Valid(v) && Save(v, req, now, t).Ok? && req.reuse
    requires Normalize(q.prompt, t) == Normalize(req.question.prompt, t)
    requires ReachesScope(v, q, ScopeChain(ctx, t), k, EffectiveScope(req.scope), t)
    ensures var s := Save(v, req, now, t).value;
            var r := Resolve(s.vault, q, ctx, facts, t);
            && r.answerId == Some(s.id) && r.answer == TrimSpace(req.answer) && r.source == SourceAlias
            && (req.kind != Some(KindAbsence) ==> r.autoFill)
  {
    hide Normalize, Save, ScopeChain, ReachesScope, OtherScopesSame, Resolve, FromHit;
    var s := Save(v, req, now, t).value;
    SaveFiles(v, req, now, t);
    SaveKeepsOtherScopes(v, req, now, t);
    AliasAnswers(v, s.vault, q, ctx, facts, k, EffectiveScope(req.scope), s.id, t);
    FilledFromReusable(s.vault.rows[s.id], q, s.id, t);
    HitSource(s.vault.rows[s.id], q, s.id, t);
  }

  lemma HitSource(row: Row, q: Question, id: int, t: Tables)
    ensures FromHit(row, q, Hit(id, SourceAlias), t).source == SourceAlias
  {
    hide Classify;
  }

  /** One approval of a skill covers every phrasing of it, queued or not, with or without aliases: any question that
      reduces to the approved skill, and for which the stored scope holds nothing more exact, is answered from the
      approved row. */
  lemma SkillApprovalCoversEveryPhrasing(e: Env, queue: seq<Queued>, req: ApproveRequest, now: int, q: Question,
                                         ctx: Context, k: nat)
    requires Valid(e.vault) && Approve(e, queue, req, now).Accepted?
    requires req.group.SkillKey? && req.group.subject != "" && SkillExperienceSubject(q, e.tables) == req.group.subject
    requires ReachesScope(e.vault, q, ScopeChain(ctx, e.tables), k, EffectiveScope(req.scope), e.tables)
    requires var w := Approve(e, queue, req, now).value.vault;
             && AliasHit(w, q, EffectiveScope(req.scope), e.tables).None?
             && KeyHit(w, QuestionKey(q.prompt, e.tables), EffectiveScope(req.scope), SourceVault).None?
    ensures var s := Approve(e, queue, req, now).value;
            var r := Resolve(s.vault, q, ctx, e.facts, e.tables);
            && r.autoFill && r.answer == TrimSpace(req.answer) && r.answerId == Some(s.id)
               && r.source == SourceSkillExperience
  {
    hide Normalize, Collect, Classify, Resolve, ScopeChain, ReachesScope, WithPhrasings, OtherScopesSame, Finalized,
      FromHit, SkillExperienceSubject, SkillExperienceQuestion, QuestionKey, Save;
    var t := e.tables;
    var g := GroupNow(e, queue, req.group).value;
    var save := SaveRequestFor(g, req, t);
    var filed := Save(e.vault, save, now, t).value;
    var scope := EffectiveScope(req.scope);
    var w := WithPhrasings(filed, g, req.confirmed, t);
    SkillOfGroup(e, queue, req.group);
    SaveRequiresGrant(e.vault, g, req, now, t);
    SaveFiles(e.vault, save, now, t);
    SaveKeepsOtherScopes(e.vault, save, now, t);
    SavedUnderKey(e.vault, save, now, t);
    SensitivityKept(filed, g, req.confirmed, t);
    PhrasingsKeepIndex(filed, g, req.confirmed, scope, t);
    SameCompose(e.vault, filed.vault, w, scope);
    TrimSpaceIdempotent(req.answer);
    SkillAnswers(e.vault, w, q, ctx, e.facts, k, scope, filed.id, t);
    SkillFills(w.rows[filed.id], q, filed.id, t);
  }

  /** The row of an accepted save is found under the key of its wording. */
  lemma SavedUnderKey(v: State, req: SaveRequest, now: int, t: Tables)
    requires Valid(v) && Save(v, req, now, t).Ok?
    ensures var s := Save(v, req, now, t).value;
            var key := (QuestionKey(req.question.prompt, t), EffectiveScope(req.scope));
            key in s.vault.index && s.vault.index[key] == s.id && key.0 != ""
  {
    hide Normalize, Classify, QuestionKey;
    NormalizeIgnoresPadding(req.question.prompt, t);
  }

  lemma SkillOfGroup(e: Env, queue: seq<Queued>, key: GroupKey)
    requires GroupNow(e, queue, key).Some?
    ensures GroupNow(e, queue, key).value.skill == SkillOf(key)
  {
    var members := Filter(queue, InGroup(e, key));
    FilterMembers(queue, InGroup(e, key));
    CollectGroups(e, queue, key);
    GroupKeepsFirst(e, members);
    assert members[0] in members;
  }

  lemma PhrasingsKeepIndex(s: Stored, g: Group, confirmed: bool, scope: string, t: Tables)
    requires Valid(s.vault) && Live(s.vault, s.id) && s.vault.rows[s.id].scope == scope
    ensures WithPhrasings(s, g, confirmed, t).index == s.vault.index
    ensures OtherScopesSame(s.vault, WithPhrasings(s, g, confirmed, t), scope)
  {
    hide ExtraPhrasings, CanonicalPrompt, Normalize, Bound;
    var extra := ExtraPhrasings(g.phrasings, CanonicalPrompt(g, t), t);
    BindingReaches(s.vault, s.id, extra, scope, t);
  }

  lemma SkillAnswers(v: State, w: State, q: Question, ctx: Context, facts: Option<Facts>, k: nat, scope: string,
                     id: int, t: Tables)
    requires Valid(v) && Valid(w) && OtherScopesSame(v, w, scope)
    requires ReachesScope(v, q, ScopeChain(ctx, t), k, scope, t)
    requires SkillExperienceSubject(q, t) != "" && Live(w, id)
    requires var key := (SkillExperienceKey(SkillExperienceSubject(q, t), t), scope);
             key.0 != "" && key in w.index && w.index[key] == id
    requires AliasHit(w, q, scope, t).None? && KeyHit(w, QuestionKey(q.prompt, t), scope, SourceVault).None?
    ensures Resolve(w, q, ctx, facts, t) == FromHit(w.rows[id], q, Hit(id, SourceSkillExperience), t)
  {
    hide Normalize, FromHit, ScopeChain, SkillExperienceSubject, SkillExperienceKey, QuestionKey, AliasHit;
    var chain := ScopeChain(ctx, t);
    assert SkillHit(w, q, scope, t) == Some(Hit(id, SourceSkillExperience));
    forall j | 0 <= j < k
      ensures ScopeHit(w, q, chain[j], t).None?
    {
      SameScopeSameHit(v, w, q, chain[j], scope, t);
    }
    ChainHitAt(w, q, chain, k, t);
  }

  lemma SkillFills(row: Row, q: Question, id: int, t: Tables)
    requires row.reuse && row.kind != KindAbsence
    ensures var r := FromHit(row, q, Hit(id, SourceSkillExperience), t);
            r.autoFill && r.answer == row.text && r.answerId == Some(id) && r.source == SourceSkillExperience
  {
    hide Classify;
  }

  // ----- other scopes

  lemma {:induction false} SameChainSameHit(v: State, w: State, q: Question, chain: seq<string>, scope: string,
                                            t: Tables)
    requires Valid(v) && Valid(w) && OtherScopesSame(v, w, scope) && scope !in chain
    ensures ChainHit(w, q, chain, t) == ChainHit(v, q, chain, t)
    ensures ChainHit(v, q, chain, t).Some? ==>
              v.rows[ChainHit(v, q, chain, t).value.id] == w.rows[ChainHit(v, q, chain, t).value.id]
  {
    hide ScopeHit, OtherScopesSame, Valid;
    if chain != [] {
      SameScopeSameHit(v, w, q, chain[0], scope, t);
      SameChainSameHit(v, w, q, chain[1..], scope, t);
    }
  }

  /** An approval changes no answer outside its own scope: a form whose scopes do not include it resolves every
      question exactly as before. In particular a scope no form is ever asked in -- the text is stored as given, not
      mapped to global -- resolves nothing. */
  lemma ApprovalTouchesOnlyItsScope(v: State, req: SaveRequest, now: int, q: Question, ctx: Context,
                                    facts: Option<Facts>, t: Tables)
    requires Valid(v) && Save(v, req, now, t).Ok? && EffectiveScope(req.scope) !in ScopeChain(ctx, t)
    ensures Resolve(Save(v, req, now, t).value.vault, q, ctx, facts, t) == Resolve(v, q, ctx, facts, t)
  {
    hide Save, ScopeChain, OtherScopesSame, Valid, Classify, MatchPattern;
    SaveKeepsOtherScopes(v, req, now, t);
    SameChainSameHit(v, Save(v, req, now, t).value.vault, q, ScopeChain(ctx, t), EffectiveScope(req.scope), t);
  }
}
