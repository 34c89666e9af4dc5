/** Where the vault does less than a reader of its comments might expect, and what exactly it does instead. */
module VaultCaveats {
  import opened Model
  import opened Text
  import opened Normalizer
  import opened Recognizers
  import opened Vault
  import opened Resolver
  import opened VaultRuns

  /** A reusable alias is no proof of a granted row: withholding reuse on a later approval of the same question
      leaves the alias in place. */
  lemma WithheldReuseKeepsAlias(v: State, req: SaveRequest, now: int, a: (string, string), t: Tables)
    requires Valid(v) && Save(v, req, now, t).Ok? && !req.reuse && a in v.aliases
    ensures a in Save(v, req, now, t).value.vault.aliases
    ensures Save(v, req, now, t).value.vault.aliases[a] == v.aliases[a]
    ensures v.aliases[a] == Save(v, req, now, t).value.id ==>
              !Save(v, req, now, t).value.vault.rows[v.aliases[a]].reuse
  {
    hide Classify, QuestionKey, Normalize, RowsValid, AliasesValid, Extends, RowSound, TrimSpace;
  }

  /** What the comments suggest: every alias points to a row whose reuse is granted. */
  ghost predicate AliasesGranted(v: State) {
    forall a :: a in v.aliases ==> v.aliases[a] in v.rows && v.rows[v.aliases[a]].reuse
  }

  /** An accepted approval that withholds reuse on a row some alias points to. */
  ghost predicate Strands(v: State, c: Command, t: Tables)
    requires Valid(v)
  {
    && (c.DoSave? || c.DoAbsence?) && Approval(v, c, t).Ok? && !GrantsReuse(c)
    && exists a :: a in v.aliases && v.aliases[a] == Approval(v, c, t).value.id
  }

  lemma StoreRowKeepsGrants(v: State, row: Row, phrasing: string)
    requires Valid(v) && AliasesGranted(v) && RowSound(row) && row.revokedAt.None?
    ensures AliasesGranted(StoreRow(v, row, phrasing).vault) <==>
            row.reuse || forall a :: a in v.aliases ==> v.aliases[a] != RowFor(v, row.key, row.scope)
  {
    hide RowsValid, IndexValid, RowSound, Extends;
    var s := StoreRow(v, row, phrasing);
    StoreRowWrites(v, row, phrasing);
    if a :| a in v.aliases && v.aliases[a] == s.id {
      assert a in s.vault.aliases && s.vault.aliases[a] == s.id;
    }
  }

  lemma StoreKeepsGrants(v: State, key: string, prompt: string, text: string, kind: Kind, sensitivity: Sensitivity,
                         scope: string, reuse: bool, provenance: Provenance, now: int, t: Tables)
    requires Valid(v) && AliasesGranted(v) && text != "" && sensitivity != GeneratePerJob
    requires sensitivity == Sensitive && reuse ==> OperatorDecided(provenance)
    ensures var s := StoreAnswer(v, key, prompt, text, kind, sensitivity, scope, reuse, provenance, now, t);
            AliasesGranted(s.vault) <==> reuse || forall a :: a in v.aliases ==> v.aliases[a] != s.id
  {
    hide Normalize, RowsValid, AliasesValid, Extends, StoreRow, ApprovedRow, RowSound, RowFor, AliasesGranted;
    ApprovedRowIsSound(v, key, prompt, text, kind, sensitivity, scope, reuse, provenance, now);
    var row := ApprovedRow(v, key, prompt, text, kind, sensitivity, scope, reuse, provenance, now);
    StoreRowKeepsGrants(v, row, Normalize(prompt, t));
  }

  lemma ApprovalKeepsGrants(v: State, c: Command, t: Tables)
    requires Valid(v) && AliasesGranted(v) && (c.DoSave? || c.DoAbsence?) && Approval(v, c, t).Ok?
    ensures AliasesGranted(Approval(v, c, t).value.vault) <==> !Strands(v, c, t)
  {
    hide Valid, AliasesGranted, Normalize, Classify, QuestionKey, StoreAnswer;
    match c
    case DoSave(req, now) =>
      var p := Prepared(req.question.prompt, req.answer, t).value;
      var kind := if req.kind.None? then KindText else req.kind.value;
      StoreKeepsGrants(v, QuestionKey(p.0, t), p.0, p.1, kind, StoredSensitivity(req, t), EffectiveScope(req.scope),
                       req.reuse, req.provenance.value, now, t);
    case DoAbsence(req, now) =>
      var p := Prepared(req.question.prompt, req.reason, t).value;
      StoreKeepsGrants(v, QuestionKey(p.0, t), p.0, p.1, KindAbsence, Classify(req.question, t),
                       EffectiveScope(req.scope), req.reuse, OperatorApproved, now, t);
  }

  lemma BindingKeepsGrants(v: State, r: int, prompts: seq<string>, confirmed: bool, t: Tables)
    requires Valid(v) && AliasesGranted(v)
    ensures AliasesGranted(After(v, AddAliases(v, r, prompts, confirmed, t)))
  {
    hide Normalize, Bound, Extends, RowsValid, IndexValid;
    if AddAliases(v, r, prompts, confirmed, t).Ok? && prompts != [] {
      BoundAliases(v.aliases, prompts, v.rows[r].scope, r, t);
    }
  }

  lemma EditKeepsGrants(v: State, r: int, answer: string, reuse: bool, now: int)
    requires Valid(v) && AliasesGranted(v)
    ensures AliasesGranted(After(v, UpdateAnswer(v, r, answer, reuse, now)))
  {
    if UpdateAnswer(v, r, answer, reuse, now).Ok? {
      EditsStayWithinTheRules(v, r, answer, reuse, now);
      hide UpdateAnswer, Valid;
    }
  }

  lemma RevokeKeepsGrants(v: State, r: int, now: int)
    requires Valid(v) && AliasesGranted(v)
    ensures AliasesGranted(After(v, Revoke(v, r, now)))
  {
    hide Extends, RowsValid;
  }

  lemma ResolveKeepsGrants(v: State, q: Question, ctx: Context, now: int, t: Tables)
    requires Valid(v) && AliasesGranted(v)
    ensures AliasesGranted(AfterResolve(v, q, ctx, now, t))
  {
    hide ChainHit, ScopeChain, Valid;
  }

  /** Exactly when an alias keeps implying a grant: the only command that breaks it is an accepted save or absence that
      withholds reuse on a row some alias points to. */
  lemma GrantsKeptExactly(v: State, c: Command, t: Tables)
    requires Valid(v) && NoPerJobPattern(t) && AliasesGranted(v)
    ensures AliasesGranted(Step(v, c, t)) <==> !Strands(v, c, t)
  {
    hide AliasesGranted, Valid, Approval, UpdateAnswer, Revoke, AddAliases, SeedFromPii, AfterResolve, Extends;
    match c
    case DoSave(_, _) => if Approval(v, c, t).Ok? { ApprovalKeepsGrants(v, c, t); }
    case DoAbsence(_, _) => if Approval(v, c, t).Ok? { ApprovalKeepsGrants(v, c, t); }
    case DoAlias(r, prompts, confirmed) => BindingKeepsGrants(v, r, prompts, confirmed, t);
    case DoUpdate(r, answer, reuse, now) => EditKeepsGrants(v, r, answer, reuse, now);
    case DoRevoke(r, now) => RevokeKeepsGrants(v, r, now);
    case DoSeed(facts, now) => SeedKeepsGrants(v, facts, now, t);
    case DoResolve(q, ctx, now) => ResolveKeepsGrants(v, q, ctx, now, t);
  }

  lemma SeedKeepsGrants(v: State, facts: Facts, now: int, t: Tables)
    requires Valid(v) && NoPerJobPattern(t) && AliasesGranted(v)
    ensures AliasesGranted(SeedFromPii(v, facts, |t.patterns|, now, t))
  {
    hide Valid, SeedFromPii, Extends, OnlyInserts, AliasesGranted;
    SeedOnlyInserts(v, facts, |t.patterns|, now, t);
    InsertsKeepGrants(v, SeedFromPii(v, facts, |t.patterns|, now, t));
  }

  lemma InsertsKeepGrants(v: State, w: State)
    requires OnlyInserts(v, w) && AliasesGranted(v)
    ensures AliasesGranted(w)
  {
    forall a | a in w.aliases
      ensures w.aliases[a] in w.rows && w.rows[w.aliases[a]].reuse
    {
      var id := v.aliases[a];
      assert w.aliases[a] == id && id in v.rows;
      assert id in w.rows && w.rows[id] == v.rows[id];
    }
  }

  /** Command `i` of the run is such a command. */
  ghost predicate StrandsAt(cs: seq<Command>, i: nat, t: Tables)
    requires NoPerJobPattern(t) && i < |cs|
  {
    Strands(Run(EMPTY, cs, i, t), cs[i], t)
  }

  lemma RunStepKeepsGrants(cs: seq<Command>, n: nat, t: Tables)
    requires NoPerJobPattern(t) && 0 < n <= |cs| && AliasesGranted(Run(EMPTY, cs, n - 1, t))
    ensures AliasesGranted(Run(EMPTY, cs, n, t)) <==> !StrandsAt(cs, n - 1, t)
  {
    assert Valid(EMPTY);
    hide AliasesGranted, Valid, Step, Strands, Extends;
    GrantsKeptExactly(Run(EMPTY, cs, n - 1, t), cs[n - 1], t);
  }

  /** In a run without such a command, an alias implies a grant throughout. */
  lemma {:induction false} UnstrandedRunKeepsGrants(cs: seq<Command>, n: nat, t: Tables)
    requires NoPerJobPattern(t) && n <= |cs|
    requires forall i :: 0 <= i < n ==> !StrandsAt(cs, i, t)
    ensures AliasesGranted(Run(EMPTY, cs, n, t))
  {
    hide StrandsAt, Step, Extends;
    if n > 0 {
      hide Run, AliasesGranted, Valid;
      UnstrandedRunKeepsGrants(cs, n - 1, t);
      RunStepKeepsGrants(cs, n, t);
    }
  }

  /** A question the classifier calls per-job is stored all the same when the caller raises it to a declaration and
      grants it; it is then a declaration like any other. */
  lemma RaisedPerJobIsStored(v: State, req: SaveRequest, now: int, t: Tables)
    requires Valid(v) && Classify(req.question, t) == GeneratePerJob && Prepared(req.question.prompt, req.answer, t).Ok?
    ensures Save(v, req, now, t).Ok? <==>
            req.sensitivity == Some(Sensitive) && req.reuseDecision && req.reuse
            && req.provenance in {Some(OperatorApproved), Some(OperatorEdited)}
    ensures Save(v, req, now, t).Ok? ==>
              Save(v, req, now, t).value.vault.rows[Save(v, req, now, t).value.id].sensitivity == Sensitive
  {
    hide Classify, QuestionKey, Normalize;
  }

  /** Exactly when a per-job question fills by itself, although nothing is ever stored as one: the first hit along its
      scopes is a row whose reuse is granted, and no absence on a required field; or there is no hit, and a routine
      pattern has a configured fact for it. */
  lemma PerJobFillsExactly(v: State, q: Question, ctx: Context, facts: Option<Facts>, t: Tables)
    requires Classify(q, t) == GeneratePerJob
    ensures var hit, pattern := ChainHit(v, q, ScopeChain(ctx, t), t), FromPattern(q, facts, t);
            Resolve(v, q, ctx, facts, t).autoFill <==>
            || (hit.Some? && v.rows[hit.value.id].reuse && !(v.rows[hit.value.id].kind == KindAbsence && q.required))
            || (hit.None? && pattern.Some? && MatchPattern(q, t).value.sensitivity == Routine)
  {
    hide Classify, ScopeChain, ChainHit, MatchPattern;
  }

  /** The resolution fills a declaration by itself from a row that is stored as none. */
  predicate FillsFromUndeclared(v: State, r: Resolution) {
    && r.sensitivity == Sensitive && r.autoFill && r.answerId.Some?
    && r.answerId.value in v.rows && v.rows[r.answerId.value].sensitivity != Sensitive
  }

  /** Exactly when a declaration fills from a row stored as routine, by whichever way the row was found: the question
      classifies as a declaration, the first hit along its scopes is a routine row whose reuse is granted, and the row
      is no absence on a required field. Bound phrasings lead there, and so does a wording that was routine where it
      was approved, because the employer's own name is discounted. */
  lemma DeclarationFilledFromRoutineRow(v: State, q: Question, ctx: Context, facts: Option<Facts>, t: Tables)
    requires Valid(v)
    ensures var hit := ChainHit(v, q, ScopeChain(ctx, t), t);
            FillsFromUndeclared(v, Resolve(v, q, ctx, facts, t)) <==>
            && hit.Some? && Classify(q, t) == Sensitive
            && var row := v.rows[hit.value.id];
               row.reuse && row.sensitivity == Routine && !(row.kind == KindAbsence && q.required)
  {
    hide Classify, ScopeChain, ChainHit, MatchPattern, IndexValid, AliasesValid;
  }
}
