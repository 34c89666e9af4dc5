/** Safety of the vault over whole runs: every reachable state, whatever sequence of commands led to it. */
module VaultRuns {
  import opened Model
  import opened Text
  import opened Normalizer
  import opened Recognizers
  import opened Vault
  import opened Resolver

  /** One call on the vault. */
  datatype Command =
    | DoSave(save: SaveRequest, now: int)
    | DoAbsence(absence: AbsenceRequest, now: int)
    | DoAlias(id: int, prompts: seq<string>, confirmed: bool)
    | DoUpdate(id: int, answer: string, reuse: bool, now: int)
    | DoRevoke(id: int, now: int)
    | DoSeed(facts: Facts, now: int)
    | DoResolve(question: Question, context: Context, now: int)

  /** The state a result leads to: a refused command changes nothing. */
  function After(v: State, r: Result<State>): State {
    if r.Ok? then r.value else v
  }

  /** What a command that approves an answer was answered. */
  function Approval(v: State, c: Command, t: Tables): Result<Stored>
    requires Valid(v) && (c.DoSave? || c.DoAbsence?)
  {
    match c
    case DoSave(req, now) => Save(v, req, now, t)
    case DoAbsence(req, now) => SaveAbsence(v, req, now, t)
  }

  function Step(v: State, c: Command, t: Tables): (w: State)
    requires Valid(v) && NoPerJobPattern(t)
    ensures Valid(w) && Extends(v, w)
  {
    match c
    case DoSave(_, _) => if Approval(v, c, t).Ok? then Approval(v, c, t).value.vault else v
    case DoAbsence(_, _) => if Approval(v, c, t).Ok? then Approval(v, c, t).value.vault else v
    case DoAlias(id, prompts, confirmed) => After(v, AddAliases(v, id, prompts, confirmed, t))
    case DoUpdate(id, answer, reuse, now) => After(v, UpdateAnswer(v, id, answer, reuse, now))
    case DoRevoke(id, now) => After(v, Revoke(v, id, now))
    case DoSeed(facts, now) => SeedFromPii(v, facts, |t.patterns|, now, t)
    case DoResolve(q, ctx, now) => AfterResolve(v, q, ctx, now, t)
  }

  /** The state after the first `n` commands. */
  function Run(v: State, cs: seq<Command>, n: nat, t: Tables): (w: State)
    requires Valid(v) && NoPerJobPattern(t) && n <= |cs|
    ensures Valid(w) && Extends(v, w)
  {
    if n == 0 then v else Step(Run(v, cs, n - 1, t), cs[n - 1], t)
  }

  /** The command approved an answer, and the row written is `id`. */
  predicate Approves(v: State, c: Command, id: int, t: Tables)
    requires Valid(v)
  {
    (c.DoSave? || c.DoAbsence?) && Approval(v, c, t).Ok? && Approval(v, c, t).value.id == id
  }

  /** The command carried both the decision about reuse and the grant. */
  predicate CarriesGrant(c: Command) {
    || (c.DoSave? && c.save.reuseDecision && c.save.reuse)
    || (c.DoAbsence? && c.absence.reuseDecision && c.absence.reuse)
  }

  /** The command approves an answer for reuse. */
  predicate GrantsReuse(c: Command) {
    (c.DoSave? && c.save.reuse) || (c.DoAbsence? && c.absence.reuse)
  }

  /** A declaration Career Agent may type by itself. */
  predicate Granted(v: State, id: int) {
    id in v.rows && v.rows[id].sensitivity == Sensitive && v.rows[id].reuse
  }

  // ----- one step

  /** Every reachable state is valid: the index is exact, no row is per-job, no sensitive row is reusable without
      operator provenance, and every alias points to a live row of its own scope. */
  lemma ReachableStatesAreValid(cs: seq<Command>, n: nat, t: Tables)
    requires NoPerJobPattern(t) && n <= |cs|
    ensures var w := Run(EMPTY, cs, n, t);
            && IndexValid(w)
            && (forall id :: id in w.rows ==>
                  && w.rows[id].sensitivity != GeneratePerJob
                  && (Granted(w, id) ==> OperatorDecided(w.rows[id].provenance)))
            && (forall a :: a in w.aliases ==> Live(w, w.aliases[a]) && w.rows[w.aliases[a]].scope == a.1)
  {
    assert Valid(Run(EMPTY, cs, n, t));
  }

  /** Rows that exist are left exactly as they were, and what is added is withheld. */
  ghost predicate OnlyInserts(v: State, w: State) {
    && w.aliases == v.aliases
    && (forall id :: id in v.rows ==> id in w.rows && w.rows[id] == v.rows[id])
    && (forall id :: id in w.rows && id !in v.rows ==> !w.rows[id].reuse && w.rows[id].provenance == SeededFromPii)
  }

  lemma SeedOneInserts(v: State, p: Pattern, facts: Facts, now: int, t: Tables)
    requires Valid(v) && p.sensitivity != GeneratePerJob
    ensures OnlyInserts(v, SeedOne(v, p, facts, now, t))
  {
  }

  lemma InsertsNothing(v: State)
    ensures OnlyInserts(v, v)
  {
  }

  lemma InsertsCompose(u: State, v: State, w: State)
    requires OnlyInserts(u, v) && OnlyInserts(v, w)
    ensures OnlyInserts(u, w)
  {
  }

  lemma SeedUnfolds(v: State, facts: Facts, n: nat, now: int, t: Tables)
    requires Valid(v) && NoPerJobPattern(t) && n <= |t.patterns|
    ensures SeedFromPii(v, facts, n, now, t) ==
            if n == 0 then v else SeedOne(SeedFromPii(v, facts, n - 1, now, t), t.patterns[n - 1], facts, now, t)
  {
    hide Valid, SeedOne, Extends;
  }

  /** Seeding only inserts. */
  lemma {:induction false} SeedOnlyInserts(v: State, facts: Facts, n: nat, now: int, t: Tables)
    requires Valid(v) && NoPerJobPattern(t) && n <= |t.patterns|
    ensures OnlyInserts(v, SeedFromPii(v, facts, n, now, t))
  {
    hide Valid, SeedOne, OnlyInserts, Extends, SeedFromPii;
    SeedUnfolds(v, facts, n, now, t);
    InsertsNothing(v);
    if n > 0 {
      SeedOnlyInserts(v, facts, n - 1, now, t);
      var before := SeedFromPii(v, facts, n - 1, now, t);
      SeedOneInserts(before, t.patterns[n - 1], facts, now, t);
      InsertsCompose(v, before, SeedFromPii(v, facts, n, now, t));
    }
  }

  /** What a command that does not approve the row does to it: nothing but revoke it, and it gains no grant. */
  ghost predicate RowKept(v: State, w: State, id: int, revoked: bool) {
    && (id in v.rows ==> (Live(w, id) <==> Live(v, id) && !revoked))
    && (Granted(w, id) ==> Granted(v, id))
  }

  lemma StoreRowOnOtherRow(v: State, row: Row, phrasing: string, id: int)
    requires Valid(v) && RowSound(row) && row.revokedAt.None? && id != RowFor(v, row.key, row.scope)
    ensures RowKept(v, StoreRow(v, row, phrasing).vault, id, false)
  {
    hide Valid, Extends, RowKept, Put, WithAlias, RowSound;
    PutWrites(v, row);
    PutOnOtherRow(v, row, id);
    WithAliasOnRow(v, Put(v, row), phrasing, RowFor(v, row.key, row.scope), id);
  }

  lemma StoreOnOtherRow(v: State, key: string, prompt: string, text: string, kind: Kind, sensitivity: Sensitivity,
                        scope: string, reuse: bool, provenance: Provenance, now: int, id: int, t: Tables)
    requires Valid(v) && text != "" && sensitivity != GeneratePerJob && id != RowFor(v, key, scope)
    requires sensitivity == Sensitive && reuse ==> OperatorDecided(provenance)
    ensures var s := StoreAnswer(v, key, prompt, text, kind, sensitivity, scope, reuse, provenance, now, t);
            RowKept(v, s.vault, id, false)
  {
    hide Normalize, RowsValid, AliasesValid, Extends, RowKept, StoreRow, ApprovedRow, RowSound, RowFor;
    ApprovedRowIsSound(v, key, prompt, text, kind, sensitivity, scope, reuse, provenance, now);
    var row := ApprovedRow(v, key, prompt, text, kind, sensitivity, scope, reuse, provenance, now);
    StoreRowOnOtherRow(v, row, Normalize(prompt, t), id);
  }

  lemma PutOnOtherRow(v: State, row: Row, id: int)
    requires Valid(v) && RowSound(row) && row.revokedAt.None? && id != RowFor(v, row.key, row.scope)
    ensures RowKept(v, Put(v, row), id, false)
  {
    hide Valid, Extends;
  }

  lemma WithAliasOnRow(v: State, w: State, alias: string, at: int, id: int)
    requires Valid(w) && RowKept(v, w, id, false)
    ensures Live(w, at) ==> RowKept(v, WithAlias(w, alias, at), id, false)
  {
    hide Valid, Extends;
  }

  lemma ApprovalOnOtherRow(v: State, c: Command, id: int, t: Tables)
    requires Valid(v) && (c.DoSave? || c.DoAbsence?) && Approval(v, c, t).Ok? && Approval(v, c, t).value.id != id
    ensures RowKept(v, Approval(v, c, t).value.vault, id, false)
  {
    hide RowKept, Valid, Normalize, Classify, QuestionKey, StoreAnswer;
    match c
    case DoSave(req, now) =>
      var p := Prepared(req.question.prompt, req.answer, t).value;
      var kind := if req.kind.None? then KindText else req.kind.value;
      StoreOnOtherRow(v, QuestionKey(p.0, t), p.0, p.1, kind, StoredSensitivity(req, t), EffectiveScope(req.scope),
                      req.reuse, req.provenance.value, now, id, t);
    case DoAbsence(req, now) =>
      var p := Prepared(req.question.prompt, req.reason, t).value;
      StoreOnOtherRow(v, QuestionKey(p.0, t), p.0, p.1, KindAbsence, Classify(req.question, t),
                      EffectiveScope(req.scope), req.reuse, OperatorApproved, now, id, t);
  }

  lemma UpdateOnRow(v: State, c: Command, id: int)
    requires Valid(v) && c.DoUpdate? && UpdateAnswer(v, c.id, c.answer, c.reuse, c.now).Ok?
    ensures RowKept(v, UpdateAnswer(v, c.id, c.answer, c.reuse, c.now).value, id, false)
  {
  }

  lemma RevokeOnRow(v: State, c: Command, id: int)
    requires Valid(v) && c.DoRevoke? && Revoke(v, c.id, c.now).Ok?
    ensures RowKept(v, Revoke(v, c.id, c.now).value, id, c.id == id)
  {
  }

  /** A command leaves a row it does not approve live or revoked as it found it, except that revoking ends it; and
      a row gains a grant by nothing but being approved. */
  lemma StepOnRow(v: State, c: Command, id: int, t: Tables)
    requires Valid(v) && NoPerJobPattern(t) && !Approves(v, c, id, t)
    ensures RowKept(v, Step(v, c, t), id, c.DoRevoke? && c.id == id)
  {
    RowKeptItself(v, id);
    assert c.DoRevoke? && Revoke(v, c.id, c.now).Fail? ==> !Live(v, c.id);
    hide RowKept, Valid, Approval, UpdateAnswer, Revoke, SeedFromPii;
    match c
    case DoSave(_, _) => if Approval(v, c, t).Ok? { ApprovalOnOtherRow(v, c, id, t); }
    case DoAbsence(_, _) => if Approval(v, c, t).Ok? { ApprovalOnOtherRow(v, c, id, t); }
    case DoUpdate(r, answer, reuse, now) => if UpdateAnswer(v, r, answer, reuse, now).Ok? { UpdateOnRow(v, c, id); }
    case DoRevoke(r, now) => if Revoke(v, r, now).Ok? { RevokeOnRow(v, c, id); }
    case DoSeed(facts, now) => SeedOnlyInserts(v, facts, |t.patterns|, now, t);
    case DoAlias(r, prompts, confirmed) => AliasOnRow(v, r, prompts, confirmed, id, t);
    case DoResolve(q, ctx, now) => ResolveOnRow(v, q, ctx, now, id, t);
  }

  lemma RowKeptItself(v: State, id: int)
    ensures RowKept(v, v, id, false)
    ensures !Live(v, id) ==> RowKept(v, v, id, true)
  {
  }

  lemma AliasOnRow(v: State, r: int, prompts: seq<string>, confirmed: bool, id: int, t: Tables)
    requires Valid(v)
    ensures RowKept(v, After(v, AddAliases(v, r, prompts, confirmed, t)), id, false)
  {
    hide Normalize, Bound;
  }

  lemma ResolveOnRow(v: State, q: Question, ctx: Context, now: int, id: int, t: Tables)
    requires Valid(v)
    ensures RowKept(v, AfterResolve(v, q, ctx, now, t), id, false)
  {
    hide Normalize, ScopeChain, ChainHit;
  }

  /** An approval whose row ends up a reusable declaration carried the decision and the grant. */
  lemma ApprovalCarriesGrant(v: State, c: Command, id: int, t: Tables)
    requires Valid(v) && NoPerJobPattern(t) && Approves(v, c, id, t) && Granted(Step(v, c, t), id)
    ensures CarriesGrant(c)
  {
  }

  // ----- whole runs

  /** After `n` commands the row is a reusable declaration. */
  predicate GrantedAfter(cs: seq<Command>, n: nat, id: int, t: Tables)
    requires NoPerJobPattern(t) && n <= |cs|
  {
    Granted(Run(EMPTY, cs, n, t), id)
  }

  /** Command `i` approved the row and carried the grant. */
  predicate GrantsAt(cs: seq<Command>, i: nat, id: int, t: Tables)
    requires NoPerJobPattern(t) && i < |cs|
  {
    CarriesGrant(cs[i]) && Approves(Run(EMPTY, cs, i, t), cs[i], id, t)
  }

  /** The row was approved with the grant by command `i`, and has been a reusable declaration from then to `n`. */
  ghost predicate GrantedSince(cs: seq<Command>, i: nat, n: nat, id: int, t: Tables)
    requires NoPerJobPattern(t) && i < n <= |cs|
  {
    GrantsAt(cs, i, id, t) && forall j :: i < j <= n ==> GrantedAfter(cs, j, id, t)
  }

  lemma GrantedIsDecided(v: State, id: int)
    requires Valid(v) && Granted(v, id)
    ensures OperatorDecided(v.rows[id].provenance)
  {
  }

  lemma GrantBegins(cs: seq<Command>, n: nat, id: int, t: Tables)
    requires NoPerJobPattern(t) && n < |cs| && GrantsAt(cs, n, id, t) && GrantedAfter(cs, n + 1, id, t)
    ensures GrantedSince(cs, n, n + 1, id, t)
  {
    hide GrantsAt, GrantedAfter;
  }

  lemma GrantLasts(cs: seq<Command>, i: nat, n: nat, id: int, t: Tables)
    requires NoPerJobPattern(t) && i < n < |cs| && GrantedSince(cs, i, n, id, t) && GrantedAfter(cs, n + 1, id, t)
    ensures GrantedSince(cs, i, n + 1, id, t)
  {
    hide GrantsAt, GrantedAfter;
  }

  /** A reusable declaration was one a command ago, or that command granted it. */
  lemma GrantStep(cs: seq<Command>, n: nat, id: int, t: Tables)
    requires NoPerJobPattern(t) && 0 < n <= |cs| && GrantedAfter(cs, n, id, t)
    ensures GrantsAt(cs, n - 1, id, t) || (n > 1 && GrantedAfter(cs, n - 1, id, t))
  {
    assert Valid(EMPTY) && Run(EMPTY, cs, 0, t) == EMPTY;
    hide Step, Approves, Valid, Extends, CarriesGrant;
    var v, c := Run(EMPTY, cs, n - 1, t), cs[n - 1];
    assert Run(EMPTY, cs, n, t) == Step(v, c, t);
    if Approves(v, c, id, t) {
      ApprovalCarriesGrant(v, c, id, t);
    } else {
      StepOnRow(v, c, id, t);
    }
  }

  /** A grant has a history: it began with an approval that carried it. */
  lemma {:induction false} GrantHasHistory(cs: seq<Command>, n: nat, id: int, t: Tables)
    requires NoPerJobPattern(t) && 0 < n <= |cs| && GrantedAfter(cs, n, id, t)
    ensures exists i :: 0 <= i < n && GrantedSince(cs, i, n, id, t)
  {
    hide GrantedAfter, GrantsAt, GrantedSince;
    GrantStep(cs, n, id, t);
    if GrantsAt(cs, n - 1, id, t) {
      GrantBegins(cs, n - 1, id, t);
    } else {
      GrantHasHistory(cs, n - 1, id, t);
      var i :| 0 <= i < n - 1 && GrantedSince(cs, i, n - 1, id, t);
      GrantLasts(cs, i, n - 1, id, t);
    }
  }

  /** Every reusable declaration, in every reachable state, has operator provenance and traces back to an approval
      that carried both the reuse decision and the grant, and has been one ever since. */
  lemma GrantsTraceToOperator(cs: seq<Command>, n: nat, id: int, t: Tables)
    requires NoPerJobPattern(t) && n <= |cs| && Granted(Run(EMPTY, cs, n, t), id)
    ensures OperatorDecided(Run(EMPTY, cs, n, t).rows[id].provenance)
    ensures exists i :: 0 <= i < n && GrantedSince(cs, i, n, id, t)
  {
    hide Step, GrantedSince;
    GrantedIsDecided(Run(EMPTY, cs, n, t), id);
    GrantHasHistory(cs, n, id, t);
  }

  /** The command approves nothing for this key and scope. */
  predicate Spares(c: Command, key: string, scope: string, t: Tables) {
    match c
    case DoSave(req, _) =>
      QuestionKey(TrimSpace(req.question.prompt), t) != key || EffectiveScope(req.scope) != scope
    case DoAbsence(req, _) =>
      QuestionKey(TrimSpace(req.question.prompt), t) != key || EffectiveScope(req.scope) != scope
    case _ => true
  }

  lemma ApprovesOwnKey(v: State, c: Command, id: int, t: Tables)
    requires Valid(v) && NoPerJobPattern(t) && id in v.rows && Spares(c, v.rows[id].key, v.rows[id].scope, t)
    ensures !Approves(v, c, id, t)
  {
  }

  /** A revoked row lives again exactly when a command approves an answer on it. */
  lemma RevivedOnlyByApproval(v: State, c: Command, id: int, t: Tables)
    requires Valid(v) && NoPerJobPattern(t) && id in v.rows && !Live(v, id)
    ensures Live(Step(v, c, t), id) <==> Approves(v, c, id, t)
  {
    if Approves(v, c, id, t) {
      ApprovedIsLive(v, c, id, t);
    } else {
      hide Step, Approves, Valid;
      StepOnRow(v, c, id, t);
    }
  }

  lemma ApprovedIsLive(v: State, c: Command, id: int, t: Tables)
    requires Valid(v) && NoPerJobPattern(t) && Approves(v, c, id, t)
    ensures Live(Step(v, c, t), id)
  {
    hide Valid, Classify, Normalize, QuestionKey, Approval;
    ApprovalIsLive(v, c, t);
  }

  lemma ApprovalIsLive(v: State, c: Command, t: Tables)
    requires Valid(v) && (c.DoSave? || c.DoAbsence?) && Approval(v, c, t).Ok?
    ensures Live(Approval(v, c, t).value.vault, Approval(v, c, t).value.id)
  {
    hide Valid, Classify, Normalize, QuestionKey;
  }

  lemma {:induction false} StaysRevoked(v: State, cs: seq<Command>, n: nat, id: int, t: Tables)
    requires Valid(v) && NoPerJobPattern(t) && id in v.rows && !Live(v, id) && n <= |cs|
    requires forall c :: c in cs ==> Spares(c, v.rows[id].key, v.rows[id].scope, t)
    ensures !Live(Run(v, cs, n, t), id)
  {
    hide Step, Approves, Spares, Valid;
    if n > 0 {
      StaysRevoked(v, cs, n - 1, id, t);
      var before := Run(v, cs, n - 1, t);
      assert cs[n - 1] in cs && before.rows[id].key == v.rows[id].key && before.rows[id].scope == v.rows[id].scope;
      assert Run(v, cs, n, t) == Step(before, cs[n - 1], t);
      hide Run, Extends;
      ApprovesOwnKey(before, cs[n - 1], id, t);
      RevivedOnlyByApproval(before, cs[n - 1], id, t);
    }
  }

  /** Revocation is sticky: no question, in any continuation that approves nothing on the row's key and scope, is
      ever answered from the revoked row again, and no alias points to it. */
  lemma RevocationIsSticky(v: State, id: int, now: int, cs: seq<Command>, q: Question, ctx: Context,
                           facts: Option<Facts>, t: Tables)
    requires Valid(v) && NoPerJobPattern(t) && Revoke(v, id, now).Ok?
    requires forall c :: c in cs ==> Spares(c, v.rows[id].key, v.rows[id].scope, t)
    ensures var w := Run(Revoke(v, id, now).value, cs, |cs|, t);
            && Resolve(w, q, ctx, facts, t).answerId != Some(id)
            && forall a :: a in w.aliases ==> w.aliases[a] != id
  {
    var w := Run(Revoke(v, id, now).value, cs, |cs|, t);
    StaysRevoked(Revoke(v, id, now).value, cs, |cs|, id, t);
    AnswersAreLive(w, q, ctx, facts, t);
    assert AliasesValid(w);
  }

  lemma AnswersAreLive(v: State, q: Question, ctx: Context, facts: Option<Facts>, t: Tables)
    ensures Resolve(v, q, ctx, facts, t).answerId.Some? ==> Live(v, Resolve(v, q, ctx, facts, t).answerId.value)
  {
  }

  lemma SeedOneSettles(v: State, p: Pattern, facts: Facts, now: int, t: Tables)
    requires Valid(v) && p.sensitivity != GeneratePerJob
    ensures !NeedsSeed(SeedOne(v, p, facts, now, t), p, facts, t)
  {
  }

  lemma SettledStays(v: State, w: State, p: Pattern, facts: Facts, t: Tables)
    requires Extends(v, w) && !NeedsSeed(v, p, facts, t)
    ensures !NeedsSeed(w, p, facts, t)
  {
  }

  /** Once seeded, a fact needs no seed again. */
  lemma {:induction false} SeededNeedsNoSeed(v: State, facts: Facts, n: nat, k: nat, now: int, t: Tables)
    requires Valid(v) && NoPerJobPattern(t) && k < n <= |t.patterns|
    ensures !NeedsSeed(SeedFromPii(v, facts, n, now, t), t.patterns[k], facts, t)
  {
    hide SeedOne, NeedsSeed;
    var before, after := SeedFromPii(v, facts, n - 1, now, t), SeedFromPii(v, facts, n, now, t);
    if k < n - 1 {
      SeededNeedsNoSeed(v, facts, n - 1, k, now, t);
      SettledStays(before, after, t.patterns[k], facts, t);
    } else {
      SeedOneSettles(before, t.patterns[k], facts, now, t);
    }
  }

  lemma {:induction false} NothingToSeed(v: State, facts: Facts, n: nat, now: int, t: Tables)
    requires Valid(v) && NoPerJobPattern(t) && n <= |t.patterns|
    requires forall k :: 0 <= k < n ==> !NeedsSeed(v, t.patterns[k], facts, t)
    ensures SeedFromPii(v, facts, n, now, t) == v
  {
    if n > 0 {
      NothingToSeed(v, facts, n - 1, now, t);
    }
  }

  /** Seeding the same facts again, at any later point of any run, inserts nothing. */
  lemma ReseedingInsertsNothing(v: State, facts: Facts, now: int, cs: seq<Command>, later: int, t: Tables)
    requires Valid(v) && NoPerJobPattern(t)
    ensures var w := Run(Step(v, DoSeed(facts, now), t), cs, |cs|, t);
            Step(w, DoSeed(facts, later), t) == w
  {
    StepSeeds(v, facts, now, t);
    hide Step, NeedsSeed, Valid, SeedFromPii;
    var seeded := Step(v, DoSeed(facts, now), t);
    var w := Run(seeded, cs, |cs|, t);
    forall k | 0 <= k < |t.patterns|
      ensures !NeedsSeed(w, t.patterns[k], facts, t)
    {
      SeededNeedsNoSeed(v, facts, |t.patterns|, k, now, t);
      SettledStays(seeded, w, t.patterns[k], facts, t);
    }
    NothingToSeed(w, facts, |t.patterns|, later, t);
    StepSeeds(w, facts, later, t);
  }

  lemma StepSeeds(v: State, facts: Facts, now: int, t: Tables)
    requires Valid(v) && NoPerJobPattern(t)
    ensures Step(v, DoSeed(facts, now), t) == SeedFromPii(v, facts, |t.patterns|, now, t)
  {
  }

  /** Whenever, in any run, a declaration fills a form by itself, the operator granted exactly that, and nothing has
      taken the grant back since. */
  lemma FilledDeclarationWasGranted(cs: seq<Command>, n: nat, q: Question, ctx: Context, facts: Option<Facts>,
                                    t: Tables)
    requires NoPerJobPattern(t) && n <= |cs|
    requires var v := Run(EMPTY, cs, n, t);
             var r := Resolve(v, q, ctx, facts, t);
             r.autoFill && r.answerId.Some? && r.answerId.value in v.rows
             && v.rows[r.answerId.value].sensitivity == Sensitive
    ensures var id := Resolve(Run(EMPTY, cs, n, t), q, ctx, facts, t).answerId.value;
            exists i :: 0 <= i < n && GrantedSince(cs, i, n, id, t)
  {
    hide Run, GrantedSince;
    var v := Run(EMPTY, cs, n, t);
    FillsFromReusableRow(v, q, ctx, facts, t);
    GrantsTraceToOperator(cs, n, Resolve(v, q, ctx, facts, t).answerId.value, t);
  }

  lemma FillsFromReusableRow(v: State, q: Question, ctx: Context, facts: Option<Facts>, t: Tables)
    requires Resolve(v, q, ctx, facts, t).autoFill && Resolve(v, q, ctx, facts, t).answerId.Some?
    ensures Live(v, Resolve(v, q, ctx, facts, t).answerId.value)
            && v.rows[Resolve(v, q, ctx, facts, t).answerId.value].reuse
  {
    hide ScopeChain, Classify, ChainHit, MatchPattern;
    var hit := ChainHit(v, q, ScopeChain(ctx, t), t);
    assert hit.Some? ==> Live(v, hit.value.id);
  }

  // ----- what the other commands do, exactly

  /** The row seeding files for a pattern. */
  ghost predicate IsSeedOf(row: Row, p: Pattern, facts: Facts, now: int, t: Tables) {
    && p.id in facts && TrimSpace(facts[p.id]) != "" && p.canonical != ""
    && row.key == QuestionKey(p.canonical, t) && row.canonical == p.canonical && row.text == TrimSpace(facts[p.id])
    && row.kind == p.kind && row.sensitivity == p.sensitivity && row.scope == GLOBAL && !row.reuse
    && row.provenance == SeededFromPii && row.approvedAt == now && row.updatedAt == now && row.revokedAt.None?
    && row.useCount == 0 && row.lastUsedAt.None?
  }

  /** Every row there after seeding the first n patterns was there before, or is the seed of one of them. */
  ghost predicate SeedsFrom(v: State, w: State, facts: Facts, n: nat, now: int, t: Tables)
    requires n <= |t.patterns|
  {
    forall id :: id in w.rows && id !in v.rows ==>
      exists k :: 0 <= k < n && IsSeedOf(w.rows[id], t.patterns[k], facts, now, t)
  }

  lemma SeedOneFiles(v: State, p: Pattern, facts: Facts, now: int, id: int, t: Tables)
    requires Valid(v) && p.sensitivity != GeneratePerJob
    requires id in SeedOne(v, p, facts, now, t).rows && id !in v.rows
    ensures IsSeedOf(SeedOne(v, p, facts, now, t).rows[id], p, facts, now, t)
  {
    hide Valid, QuestionKey, TrimSpace, Extends;
  }

  lemma {:induction false} SeedingFilesSeeds(v: State, facts: Facts, n: nat, now: int, t: Tables)
    requires Valid(v) && NoPerJobPattern(t) && n <= |t.patterns|
    ensures SeedsFrom(v, SeedFromPii(v, facts, n, now, t), facts, n, now, t)
  {
    hide Valid, SeedOne, IsSeedOf, Extends, SeedFromPii, OnlyInserts;
    SeedUnfolds(v, facts, n, now, t);
    if n > 0 {
      SeedingFilesSeeds(v, facts, n - 1, now, t);
      var before, after := SeedFromPii(v, facts, n - 1, now, t), SeedFromPii(v, facts, n, now, t);
      SeedOneInserts(before, t.patterns[n - 1], facts, now, t);
      forall id | id in after.rows && id !in v.rows
        ensures exists k :: 0 <= k < n && IsSeedOf(after.rows[id], t.patterns[k], facts, now, t)
      {
        SeedKeeps(before, after, id);
        if id in before.rows {
          var k :| 0 <= k < n - 1 && IsSeedOf(before.rows[id], t.patterns[k], facts, now, t);
        } else {
          SeedOneFiles(before, t.patterns[n - 1], facts, now, id, t);
        }
      }
    }
  }

  lemma SeedKeeps(v: State, w: State, id: int)
    requires OnlyInserts(v, w)
    ensures id in v.rows ==> id in w.rows && w.rows[id] == v.rows[id]
  {
  }

  /** Seeding adds the configured facts and nothing else: what it adds is the seed of some pattern, what was there is
      untouched, and afterwards every configured fact with a wording has a row under its key. */
  lemma SeedingIsExact(v: State, facts: Facts, now: int, t: Tables)
    requires Valid(v) && NoPerJobPattern(t)
    ensures var w := SeedFromPii(v, facts, |t.patterns|, now, t);
            && OnlyInserts(v, w) && SeedsFrom(v, w, facts, |t.patterns|, now, t)
            && forall p :: p in t.patterns && p.canonical != "" && p.id in facts && TrimSpace(facts[p.id]) != "" ==>
                 (QuestionKey(p.canonical, t), GLOBAL) in w.index
  {
    SeedOnlyInserts(v, facts, |t.patterns|, now, t);
    SeedingFilesSeeds(v, facts, |t.patterns|, now, t);
    hide OnlyInserts, SeedsFrom, Valid, SeedFromPii, Extends, QuestionKey, TrimSpace;
    forall p | p in t.patterns && p.canonical != "" && p.id in facts && TrimSpace(facts[p.id]) != ""
      ensures (QuestionKey(p.canonical, t), GLOBAL) in SeedFromPii(v, facts, |t.patterns|, now, t).index
    {
      var k :| 0 <= k < |t.patterns| && t.patterns[k] == p;
      SeededNeedsNoSeed(v, facts, |t.patterns|, k, now, t);
    }
  }

  /** Revoking succeeds exactly on a live answer; it marks that row, withholds its reuse and drops its aliases, and
      touches nothing else. */
  lemma RevokingIsExact(v: State, id: int, now: int)
    requires Valid(v)
    ensures Revoke(v, id, now).Ok? <==> Live(v, id)
    ensures Live(v, id) ==>
              var w := Revoke(v, id, now).value;
              && w.rows == v.rows[id := v.rows[id].(revokedAt := Some(now), updatedAt := now, reuse := false)]
              && w.index == v.index
              && (forall a :: a in w.aliases <==> a in v.aliases && v.aliases[a] != id)
              && (forall a :: a in w.aliases ==> w.aliases[a] == v.aliases[a])
  {
    hide RowsValid, AliasesValid, Extends;
  }

  /** Binding phrasings is accepted exactly when there are none, or the answer is live, reusable, and no declaration
      unless the operator confirmed; it then adds one alias for each recognizable phrasing in the answer's scope. */
  lemma BindingIsExact(v: State, id: int, prompts: seq<string>, confirmed: bool, t: Tables)
    requires Valid(v)
    ensures AddAliases(v, id, prompts, confirmed, t).Ok? <==>
            prompts == [] || (Live(v, id) && v.rows[id].reuse && (v.rows[id].sensitivity == Sensitive ==> confirmed))
    ensures AddAliases(v, id, prompts, confirmed, t).Ok? && prompts != [] ==>
              var w := AddAliases(v, id, prompts, confirmed, t).value;
              && w.rows == v.rows && w.index == v.index
              && (forall a :: a in w.aliases <==>
                    a in v.aliases
                    || (a.1 == v.rows[id].scope && a.0 != "" && exists p :: p in prompts && Normalize(p, t) == a.0))
              && (forall a :: a in w.aliases ==>
                    w.aliases[a] ==
                    if a.1 == v.rows[id].scope && a.0 != "" && (exists p :: p in prompts && Normalize(p, t) == a.0)
                    then id else v.aliases[a])
  {
    hide Normalize, Bound, Extends, RowsValid, IndexValid;
    if Live(v, id) {
      BoundAliases(v.aliases, prompts, v.rows[id].scope, id, t);
    }
  }

  /** Answering a question counts one use of the reusable row that answered, now, and nothing else. */
  lemma UseIsCountedOnce(v: State, q: Question, ctx: Context, now: int, t: Tables)
    ensures var w, hit := AfterResolve(v, q, ctx, now, t), ChainHit(v, q, ScopeChain(ctx, t), t);
            if hit.Some? && v.rows[hit.value.id].reuse
            then var id := hit.value.id;
                 w == v.(
                   rows := v.rows[id := v.rows[id].(useCount := v.rows[id].useCount + 1, lastUsedAt := Some(now))])
            else w == v
  {
    hide ChainHit, ScopeChain, Valid, Extends;
  }

  // ----- the history of whatever fills by itself

  /** An answer that fills by itself when it is found. */
  predicate Usable(v: State, id: int) {
    Live(v, id) && v.rows[id].reuse
  }

  /** The command granted the row's reuse: by approving it so, or by an accepted edit. */
  predicate GrantsUse(v: State, c: Command, id: int, t: Tables)
    requires Valid(v)
  {
    || (Approves(v, c, id, t) && GrantsReuse(c))
    || (c.DoUpdate? && c.id == id && c.reuse && UpdateAnswer(v, c.id, c.answer, c.reuse, c.now).Ok?)
  }

  /** What storing does to a row's use: the row stored has what the request says, every other row what it had. */
  lemma StoreOnUse(v: State, key: string, prompt: string, text: string, kind: Kind, sensitivity: Sensitivity,
                   scope: string, reuse: bool, provenance: Provenance, now: int, id: int, t: Tables)
    requires Valid(v) && text != "" && sensitivity != GeneratePerJob
    requires sensitivity == Sensitive && reuse ==> OperatorDecided(provenance)
    ensures var s := StoreAnswer(v, key, prompt, text, kind, sensitivity, scope, reuse, provenance, now, t);
            Usable(s.vault, id) <==> if id == s.id then reuse else Usable(v, id)
  {
    hide Normalize, RowsValid, AliasesValid, Extends, StoreRow, ApprovedRow, RowSound, RowFor;
    ApprovedRowIsSound(v, key, prompt, text, kind, sensitivity, scope, reuse, provenance, now);
    var row := ApprovedRow(v, key, prompt, text, kind, sensitivity, scope, reuse, provenance, now);
    StoreRowWrites(v, row, Normalize(prompt, t));
  }

  lemma ApprovalOnUse(v: State, c: Command, id: int, t: Tables)
    requires Valid(v) && (c.DoSave? || c.DoAbsence?) && Approval(v, c, t).Ok?
    ensures Usable(Approval(v, c, t).value.vault, id) <==>
            if Approval(v, c, t).value.id == id then GrantsReuse(c) else Usable(v, id)
  {
    hide Valid, Normalize, Classify, QuestionKey, StoreAnswer, Usable;
    match c
    case DoSave(req, now) =>
      var p := Prepared(req.question.prompt, req.answer, t).value;
      var kind := if req.kind.None? then KindText else req.kind.value;
      StoreOnUse(v, QuestionKey(p.0, t), p.0, p.1, kind, StoredSensitivity(req, t), EffectiveScope(req.scope),
                 req.reuse, req.provenance.value, now, id, t);
    case DoAbsence(req, now) =>
      var p := Prepared(req.question.prompt, req.reason, t).value;
      StoreOnUse(v, QuestionKey(p.0, t), p.0, p.1, KindAbsence, Classify(req.question, t), EffectiveScope(req.scope),
                 req.reuse, OperatorApproved, now, id, t);
  }

  lemma EditOnUse(v: State, c: Command, id: int, t: Tables)
    requires Valid(v) && c.DoUpdate? && Usable(After(v, UpdateAnswer(v, c.id, c.answer, c.reuse, c.now)), id)
    ensures Usable(v, id) || GrantsUse(v, c, id, t)
  {
    if UpdateAnswer(v, c.id, c.answer, c.reuse, c.now).Ok? {
      EditsStayWithinTheRules(v, c.id, c.answer, c.reuse, c.now);
      hide UpdateAnswer, Valid, Approves;
      EditExtends(v, c);
    }
  }

  lemma EditExtends(v: State, c: Command)
    requires Valid(v) && c.DoUpdate? && UpdateAnswer(v, c.id, c.answer, c.reuse, c.now).Ok?
    ensures UpdateAnswer(v, c.id, c.answer, c.reuse, c.now).value.rows.Keys == v.rows.Keys
  {
    hide RowsValid, AliasesValid, Extends;
  }

  lemma RevokeOnUse(v: State, c: Command, id: int)
    requires Valid(v) && c.DoRevoke? && Usable(After(v, Revoke(v, c.id, c.now)), id)
    ensures Usable(v, id)
  {
    hide RowsValid, AliasesValid, Extends;
  }

  lemma SeedOnUse(v: State, facts: Facts, now: int, id: int, t: Tables)
    requires Valid(v) && NoPerJobPattern(t) && Usable(SeedFromPii(v, facts, |t.patterns|, now, t), id)
    ensures Usable(v, id)
  {
    hide Valid, SeedFromPii, Extends;
    SeedOnlyInserts(v, facts, |t.patterns|, now, t);
  }

  lemma AliasOnUse(v: State, r: int, prompts: seq<string>, confirmed: bool, t: Tables)
    requires Valid(v)
    ensures After(v, AddAliases(v, r, prompts, confirmed, t)).rows == v.rows
  {
    hide Normalize, Bound;
  }

  lemma ResolveOnUse(v: State, q: Question, ctx: Context, now: int, id: int, t: Tables)
    requires Valid(v)
    ensures Usable(AfterResolve(v, q, ctx, now, t), id) <==> Usable(v, id)
  {
    hide Normalize, ScopeChain, ChainHit;
  }

  /** An answer that fills after a command did so before it, or the command granted it. */
  lemma UseStep(v: State, c: Command, id: int, t: Tables)
    requires Valid(v) && NoPerJobPattern(t) && Usable(Step(v, c, t), id)
    ensures Usable(v, id) || GrantsUse(v, c, id, t)
  {
    hide Usable, Valid, Approval, UpdateAnswer, Revoke, AddAliases, SeedFromPii, AfterResolve, Extends;
    match c
    case DoSave(_, _) => if Approval(v, c, t).Ok? { ApprovalOnUse(v, c, id, t); }
    case DoAbsence(_, _) => if Approval(v, c, t).Ok? { ApprovalOnUse(v, c, id, t); }
    case DoUpdate(_, _, _, _) => EditOnUse(v, c, id, t);
    case DoRevoke(_, _) => RevokeOnUse(v, c, id);
    case DoSeed(facts, now) => SeedOnUse(v, facts, now, id, t);
    case DoAlias(r, prompts, confirmed) =>
      AliasOnUse(v, r, prompts, confirmed, t);
      SameRowsSameUse(v, Step(v, c, t), id);
    case DoResolve(q, ctx, now) => ResolveOnUse(v, q, ctx, now, id, t);
  }

  lemma SameRowsSameUse(v: State, w: State, id: int)
    requires v.rows == w.rows
    ensures Usable(v, id) <==> Usable(w, id)
  {
  }

  /** After `n` commands the answer fills by itself when it is found. */
  predicate UsableAfter(cs: seq<Command>, n: nat, id: int, t: Tables)
    requires NoPerJobPattern(t) && n <= |cs|
  {
    Usable(Run(EMPTY, cs, n, t), id)
  }

  predicate GrantsUseAt(cs: seq<Command>, i: nat, id: int, t: Tables)
    requires NoPerJobPattern(t) && i < |cs|
  {
    GrantsUse(Run(EMPTY, cs, i, t), cs[i], id, t)
  }

  /** Command `i` granted the row's reuse, and nothing has withheld or revoked it from then to `n`. */
  ghost predicate UsableSince(cs: seq<Command>, i: nat, n: nat, id: int, t: Tables)
    requires NoPerJobPattern(t) && i < n <= |cs|
  {
    GrantsUseAt(cs, i, id, t) && forall j :: i < j <= n ==> UsableAfter(cs, j, id, t)
  }

  lemma UseStepInRun(cs: seq<Command>, n: nat, id: int, t: Tables)
    requires NoPerJobPattern(t) && 0 < n <= |cs| && UsableAfter(cs, n, id, t)
    ensures GrantsUseAt(cs, n - 1, id, t) || (n > 1 && UsableAfter(cs, n - 1, id, t))
  {
    assert Valid(EMPTY) && Run(EMPTY, cs, 0, t) == EMPTY && !Usable(EMPTY, id);
    hide Step, GrantsUse, Valid, Extends, Usable;
    var v, c := Run(EMPTY, cs, n - 1, t), cs[n - 1];
    assert Run(EMPTY, cs, n, t) == Step(v, c, t);
    UseStep(v, c, id, t);
  }

  lemma {:induction false} UseHasHistory(cs: seq<Command>, n: nat, id: int, t: Tables)
    requires NoPerJobPattern(t) && 0 < n <= |cs| && UsableAfter(cs, n, id, t)
    ensures exists i :: 0 <= i < n && UsableSince(cs, i, n, id, t)
  {
    hide UsableAfter, GrantsUseAt;
    UseStepInRun(cs, n, id, t);
    if GrantsUseAt(cs, n - 1, id, t) {
      assert UsableSince(cs, n - 1, n, id, t);
    } else {
      UseHasHistory(cs, n - 1, id, t);
      var i :| 0 <= i < n - 1 && UsableSince(cs, i, n - 1, id, t);
      assert UsableSince(cs, i, n, id, t);
    }
  }

  /** Whatever stored answer fills by itself, in any run and for any question, was granted by a save, an absence or an
      edit that carried its reuse, and nothing has withheld or revoked it since. */
  lemma FilledAnswerWasGranted(cs: seq<Command>, n: nat, q: Question, ctx: Context, facts: Option<Facts>, t: Tables)
    requires NoPerJobPattern(t) && n <= |cs|
    requires var r := Resolve(Run(EMPTY, cs, n, t), q, ctx, facts, t); r.autoFill && r.answerId.Some?
    ensures exists i :: 0 <= i < n
              && UsableSince(cs, i, n, Resolve(Run(EMPTY, cs, n, t), q, ctx, facts, t).answerId.value, t)
  {
    hide Run, UsableSince, Resolve, Step;
    var v := Run(EMPTY, cs, n, t);
    FillsFromReusableRow(v, q, ctx, facts, t);
    UseHasBeginning(cs, n, Resolve(v, q, ctx, facts, t).answerId.value, t);
  }

  lemma UseHasBeginning(cs: seq<Command>, n: nat, id: int, t: Tables)
    requires NoPerJobPattern(t) && n <= |cs| && UsableAfter(cs, n, id, t)
    ensures exists i :: 0 <= i < n && UsableSince(cs, i, n, id, t)
  {
    assert !UsableAfter(cs, 0, id, t);
    hide UsableAfter, UsableSince;
    UseHasHistory(cs, n, id, t);
  }

  lemma StoreRowWrites(v: State, row: Row, phrasing: string)
    requires Valid(v) && RowSound(row) && row.revokedAt.None?
    ensures var s := StoreRow(v, row, phrasing);
            && s.vault.rows == v.rows[s.id := row] && s.id == RowFor(v, row.key, row.scope)
            && s.vault.index == v.index[(row.key, row.scope) := s.id]
            && s.vault.aliases == if row.reuse then v.aliases[(phrasing, row.scope) := s.id] else v.aliases
  {
    hide Valid, RowSound, Extends;
  }

  /** The row an approval writes: the identifier, first approval date and use counters of the row that was there, or a
      fresh one. */
  ghost predicate ContinuesHistory(v: State, key: (string, string), id: int, row: Row, now: int)
    requires Valid(v)
  {
    if key in v.index then
      var was := v.rows[v.index[key]];
      id == v.index[key] && row.approvedAt == was.approvedAt && row.useCount == was.useCount
      && row.lastUsedAt == was.lastUsedAt
    else id !in v.rows && row.approvedAt == now && row.useCount == 0 && row.lastUsedAt.None?
  }

  lemma ApprovedRowHistory(v: State, key: string, prompt: string, text: string, kind: Kind, sensitivity: Sensitivity,
                           scope: string, reuse: bool, provenance: Provenance, now: int)
    requires Valid(v)
    ensures var row := ApprovedRow(v, key, prompt, text, kind, sensitivity, scope, reuse, provenance, now);
            && ContinuesHistory(v, (key, scope), RowFor(v, key, scope), row, now) && row.updatedAt == now
            && row == NewRow(key, prompt, text, kind, sensitivity, scope, reuse, provenance, now).(
                 approvedAt := row.approvedAt, useCount := row.useCount, lastUsedAt := row.lastUsedAt)
  {
    hide AliasesValid;
  }

  /** Approving writes exactly one row, the one for the question's key in the scope: its content is the request's, its
      identity and history are those of the row that was there, revoked or not; every other row stays as it was. */
  lemma ApprovalWritesOneRow(v: State, req: SaveRequest, now: int, t: Tables)
    requires Valid(v) && Save(v, req, now, t).Ok?
    ensures var s := Save(v, req, now, t).value;
            var key := (QuestionKey(req.question.prompt, t), EffectiveScope(req.scope));
            && s.id in s.vault.rows
            && var row := s.vault.rows[s.id];
               && s.vault.rows == v.rows[s.id := row]
               && row.key == key.0 && row.scope == key.1 && row.revokedAt.None? && row.updatedAt == now
               && row.canonical == TrimSpace(req.question.prompt) && row.text == TrimSpace(req.answer)
               && row.reuse == req.reuse && Some(row.provenance) == req.provenance
               && row.sensitivity == StoredSensitivity(req, t)
               && req.provenance.Some? && row == ReturnedRow(req, now, t).(
                    approvedAt := row.approvedAt, useCount := row.useCount, lastUsedAt := row.lastUsedAt)
               && ContinuesHistory(v, key, s.id, row, now)
  {
    NormalizeIgnoresPadding(req.question.prompt, t);
    hide Classify, QuestionKey, Normalize, RowsValid, AliasesValid, Extends, RowSound, StoreRow, ApprovedRow, RowFor,
      ContinuesHistory;
    var p := Prepared(req.question.prompt, req.answer, t).value;
    var kind := if req.kind.None? then KindText else req.kind.value;
    var key, scope, sensitivity := QuestionKey(p.0, t), EffectiveScope(req.scope), StoredSensitivity(req, t);
    ApprovedRowIsSound(v, key, p.0, p.1, kind, sensitivity, scope, req.reuse, req.provenance.value, now);
    ApprovedRowHistory(v, key, p.0, p.1, kind, sensitivity, scope, req.reuse, req.provenance.value, now);
    StoreRowWrites(v, ApprovedRow(v, key, p.0, p.1, kind, sensitivity, scope, req.reuse, req.provenance.value, now),
                   Normalize(p.0, t));
  }

  /** An absence writes one row in the same way: its reason, marked as an absence, as carefully as the question itself
      reads, and always as the operator's own decision. */
  lemma AbsenceWritesOneRow(v: State, req: AbsenceRequest, now: int, t: Tables)
    requires Valid(v) && SaveAbsence(v, req, now, t).Ok?
    ensures var s := SaveAbsence(v, req, now, t).value;
            var key := (QuestionKey(req.question.prompt, t), EffectiveScope(req.scope));
            && s.id in s.vault.rows
            && var row := s.vault.rows[s.id];
               && s.vault.rows == v.rows[s.id := row]
               && row.key == key.0 && row.scope == key.1 && row.revokedAt.None? && row.updatedAt == now
               && row.canonical == TrimSpace(req.question.prompt) && row.text == TrimSpace(req.reason)
               && row.kind == KindAbsence && row.reuse == req.reuse && row.provenance == OperatorApproved
               && row.sensitivity == Classify(req.question, t) && ContinuesHistory(v, key, s.id, row, now)
  {
    NormalizeIgnoresPadding(req.question.prompt, t);
    hide Classify, QuestionKey, Normalize, RowsValid, AliasesValid, Extends, RowSound, StoreRow, ApprovedRow, RowFor,
      ContinuesHistory;
    var p := Prepared(req.question.prompt, req.reason, t).value;
    var key, scope, sensitivity := QuestionKey(p.0, t), EffectiveScope(req.scope), Classify(req.question, t);
    ApprovedRowIsSound(v, key, p.0, p.1, KindAbsence, sensitivity, scope, req.reuse, OperatorApproved, now);
    ApprovedRowHistory(v, key, p.0, p.1, KindAbsence, sensitivity, scope, req.reuse, OperatorApproved, now);
    StoreRowWrites(v, ApprovedRow(v, key, p.0, p.1, KindAbsence, sensitivity, scope, req.reuse, OperatorApproved, now),
                   Normalize(p.0, t));
  }

  /** Exactly when the date a save returns is the row's: when the question had no row in the scope, or one approved at
      this very moment. Everything else but the counters is returned as stored. */
  lemma ReturnedDateIsStoredExactly(v: State, req: SaveRequest, now: int, t: Tables)
    requires Valid(v) && Save(v, req, now, t).Ok?
    ensures var s := Save(v, req, now, t).value;
            var key := (QuestionKey(req.question.prompt, t), EffectiveScope(req.scope));
            && req.provenance.Some? && s.id in s.vault.rows
            && (ReturnedRow(req, now, t).approvedAt == s.vault.rows[s.id].approvedAt <==>
                  key !in v.index || v.rows[v.index[key]].approvedAt == now)
  {
    hide Save, Classify, QuestionKey, Normalize, RowsValid, AliasesValid, EffectiveScope, TrimSpace;
    ApprovalWritesOneRow(v, req, now, t);
  }

  /** An edit changes neither the question, the scope nor the sensitivity, marks the row as edited by the operator, and
      when it withdraws reuse takes the row's aliases with it. */
  lemma EditsStayWithinTheRules(v: State, id: int, answer: string, reuse: bool, now: int)
    requires Valid(v) && UpdateAnswer(v, id, answer, reuse, now).Ok?
    ensures var w := UpdateAnswer(v, id, answer, reuse, now).value;
            && Live(w, id)
            && w.rows[id] ==
               v.rows[id].(text := TrimSpace(answer), reuse := reuse, provenance := OperatorEdited, updatedAt := now)
            && w.index == v.index && (forall other :: other in v.rows && other != id ==> w.rows[other] == v.rows[other])
            && (!reuse ==> forall a :: a in w.aliases <==> a in v.aliases && v.aliases[a] != id)
            && (reuse ==> w.aliases == v.aliases)
            && (v.rows[id].sensitivity == Sensitive && reuse ==> v.rows[id].reuse)
  {
  }

  /** Which edits are refused, and why: one without an answer, one of a row that is not live, and one that would turn
      reuse of a declaration on. */
  lemma EditRefusedExactly(v: State, id: int, answer: string, reuse: bool, now: int)
    requires Valid(v)
    ensures var r := UpdateAnswer(v, id, answer, reuse, now);
            var answered := TrimSpace(answer) != "";
            && (r == Fail(NoAnswer) <==> !answered)
            && (r == Fail(NoLiveAnswer) <==> answered && !Live(v, id))
            && (r == Fail(SensitiveNeedsApproval) <==>
                  answered && Live(v, id) && v.rows[id].sensitivity == Sensitive && reuse && !v.rows[id].reuse)
            && (r.Ok? <==>
                  answered && Live(v, id) && (v.rows[id].sensitivity == Sensitive && reuse ==> v.rows[id].reuse))
  {
    hide TrimSpace;
  }

  /** Which bindings are refused, and why: nothing to bind is never refused; otherwise the row must be live and granted,
      and a declaration's equivalence confirmed. */
  lemma BindingRefusedExactly(v: State, id: int, prompts: seq<string>, confirmed: bool, t: Tables)
    requires Valid(v)
    ensures var r := AddAliases(v, id, prompts, confirmed, t);
            && (prompts == [] ==> r == Ok(v))
            && (r == Fail(NoLiveAnswer) <==> prompts != [] && !Live(v, id))
            && (r == Fail(ReuseWithheld) <==> prompts != [] && Live(v, id) && !v.rows[id].reuse)
            && (r == Fail(AliasNeedsConfirmation) <==>
                  prompts != [] && Live(v, id) && v.rows[id].reuse && v.rows[id].sensitivity == Sensitive
                  && !confirmed)
  {
    hide Bound;
  }
}
