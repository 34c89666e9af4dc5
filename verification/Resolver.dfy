/** Resolving one question against a vault: alias, own key, skill reduction in each scope from the narrowest to
    the global one, then the curated patterns.
 */
module Resolver {
  import opened Model
  import opened Text
  import opened Normalizer
  import opened Experience
  import opened Recognizers
  import opened Vault

  datatype Source = SourceAlias | SourceVault | SourceSkillExperience | SourcePattern | SourceUnknown

  datatype Resolution = Resolution(
    resolved: bool, autoFill: bool, answer: string, source: Source, sensitivity: Sensitivity, kind: Option<Kind>,
    answerId: Option<int>, canonical: string, patternId: string, absence: bool)

  /** A live row, and the step that found it. */
  datatype Hit = Hit(id: int, source: Source)

  function CompanyScope(company: string, t: Tables): string {
    var normalized := NormalizeCompany(company, t);
    if normalized == "" then GLOBAL else "company:" + normalized
  }

  function AtsScope(provider: string): string {
    var normalized := ToLower(TrimSpace(provider));
    if normalized == "" then GLOBAL else "ats:" + normalized
  }

  /** The scopes to search, most specific first. */
  function ScopeChain(ctx: Context, t: Tables): seq<string> {
    (if CompanyScope(ctx.company, t) != GLOBAL then [CompanyScope(ctx.company, t)] else [])
    + (if AtsScope(ctx.ats) != GLOBAL then [AtsScope(ctx.ats)] else [])
    + [GLOBAL]
  }

  function AliasHit(v: State, q: Question, scope: string, t: Tables): Option<Hit> {
    var alias := Normalize(q.prompt, t);
    if alias != "" && (alias, scope) in v.aliases && Live(v, v.aliases[(alias, scope)])
    then Some(Hit(v.aliases[(alias, scope)], SourceAlias)) else None
  }

  function KeyHit(v: State, key: string, scope: string, source: Source): Option<Hit> {
    if key != "" && (key, scope) in v.index && Live(v, v.index[(key, scope)])
    then Some(Hit(v.index[(key, scope)], source)) else None
  }

  function SkillHit(v: State, q: Question, scope: string, t: Tables): Option<Hit> {
    var subject := SkillExperienceSubject(q, t);
    if subject == "" then None else KeyHit(v, SkillExperienceKey(subject, t), scope, SourceSkillExperience)
  }

  function ScopeHit(v: State, q: Question, scope: string, t: Tables): (r: Option<Hit>)
    ensures r.Some? ==> Live(v, r.value.id) && r.value.source != SourcePattern
  {
    if AliasHit(v, q, scope, t).Some? then AliasHit(v, q, scope, t)
    else if KeyHit(v, QuestionKey(q.prompt, t), scope, SourceVault).Some?
    then KeyHit(v, QuestionKey(q.prompt, t), scope, SourceVault)
    else SkillHit(v, q, scope, t)
  }

  /** The first hit along a chain of scopes. */
  function ChainHit(v: State, q: Question, chain: seq<string>, t: Tables): (r: Option<Hit>)
    ensures r.Some? ==> Live(v, r.value.id) && r.value.source != SourcePattern
  {
    if chain == [] then None
    else if ScopeHit(v, q, chain[0], t).Some? then ScopeHit(v, q, chain[0], t)
    else ChainHit(v, q, chain[1..], t)
  }

  /** What a stored answer resolves to: it fills by itself only when reuse was granted. */
  function FromRow(row: Row, hit: Hit): Resolution {
    Resolution(true, row.reuse, row.text, hit.source, row.sensitivity, Some(row.kind), Some(hit.id), row.canonical,
               "", row.kind == KindAbsence)
  }

  function FromPattern(q: Question, facts: Option<Facts>, t: Tables): Option<Resolution> {
    if facts.None? || MatchPattern(q, t).None? || FactFor(MatchPattern(q, t).value, facts.value) == "" then None
    else
      var p := MatchPattern(q, t).value;
      Some(Resolution(true, p.sensitivity == Routine, FactFor(p, facts.value), SourcePattern, p.sensitivity,
                      Some(p.kind), None, TrimSpace(q.prompt), p.id, false))
  }

  /** The stricter of what produced the answer and what the question classifies as. */
  function Escalated(r: Resolution, q: Question, t: Tables): Resolution {
    if r.sensitivity == Sensitive || Classify(q, t) != Sensitive then r
    else r.(sensitivity := Sensitive, autoFill := r.autoFill && r.source != SourcePattern)
  }

  /** An absence fills no field the form requires. */
  function AbsenceSafe(r: Resolution, q: Question): Resolution {
    if r.absence && q.required then r.(autoFill := false) else r
  }

  function Unresolved(q: Question, t: Tables): Resolution {
    Resolution(false, false, "", SourceUnknown, Classify(q, t), None, None, "", "", false)
  }

  /** What the vault concludes from a hit. */
  function FromHit(row: Row, q: Question, hit: Hit, t: Tables): Resolution {
    AbsenceSafe(Escalated(FromRow(row, hit), q, t), q)
  }

  function Resolve(v: State, q: Question, ctx: Context, facts: Option<Facts>, t: Tables): Resolution {
    match ChainHit(v, q, ScopeChain(ctx, t), t)
    case Some(hit) => FromHit(v.rows[hit.id], q, hit, t)
    case None =>
      match FromPattern(q, facts, t)
      case Some(r) => Escalated(r, q, t)
      case None => Unresolved(q, t)
  }

  /** The reuse counters after a row has answered. */
  function Used(v: State, id: int, now: int): (r: State)
    ensures Valid(v) ==> Valid(r) && Extends(v, r)
  {
    if id in v.rows && v.rows[id].reuse
    then
      var row := v.rows[id];
      var r := v.(rows := v.rows[id := row.(useCount := row.useCount + 1, lastUsedAt := Some(now))]);
      assert RowsValid(v) ==> RowsValid(r);
      assert IndexValid(v) ==> IndexValid(r);
      assert AliasesValid(v) ==> AliasesValid(r);
      r
    else v
  }

  /** What resolving does to the vault: nothing but bump the counters of a reusable row that answered. */
  function AfterResolve(v: State, q: Question, ctx: Context, now: int, t: Tables): (r: State)
    ensures Valid(v) ==> Valid(r) && Extends(v, r)
  {
    match ChainHit(v, q, ScopeChain(ctx, t), t)
    case Some(hit) => Used(v, hit.id, now)
    case None => v
  }

  // ----- laws

  /** Two vaults that differ at most in their reuse counters. */
  ghost predicate SameButUse(v: State, w: State) {
    && v.index == w.index && v.aliases == w.aliases && v.nextId == w.nextId && v.rows.Keys == w.rows.Keys
    && forall id :: id in v.rows ==>
         w.rows[id] == v.rows[id].(useCount := w.rows[id].useCount, lastUsedAt := w.rows[id].lastUsedAt)
  }

  lemma {:induction false} ChainHitIgnoresUse(v: State, w: State, q: Question, chain: seq<string>, t: Tables)
    requires SameButUse(v, w)
    ensures ChainHit(v, q, chain, t) == ChainHit(w, q, chain, t)
  {
    if chain != [] {
      assert forall id :: Live(v, id) <==> Live(w, id);
      ChainHitIgnoresUse(v, w, q, chain[1..], t);
    }
  }

  /** Resolution never depends on how often an answer was used. */
  lemma ResolveIgnoresUse(v: State, w: State, q: Question, ctx: Context, facts: Option<Facts>, now: int, t: Tables)
    requires SameButUse(v, w)
    ensures Resolve(v, q, ctx, facts, t) == Resolve(w, q, ctx, facts, t)
    ensures SameButUse(v, AfterResolve(w, q, ctx, now, t))
  {
    ChainHitIgnoresUse(v, w, q, ScopeChain(ctx, t), t);
  }

  /** Whatever the vault, the question and the facts: a sensitive question never resolves as anything less; a
      sensitive resolution that fills by itself names a live row whose reuse was granted, never a pattern; and an
      absence never fills a required field. */
  lemma ResolutionIsSafe(v: State, q: Question, ctx: Context, facts: Option<Facts>, t: Tables)
    ensures var r := Resolve(v, q, ctx, facts, t);
            && (Classify(q, t) == Sensitive ==> r.sensitivity == Sensitive)
            && (r.sensitivity == Sensitive && r.autoFill ==>
                  r.source != SourcePattern && r.answerId.Some? && Live(v, r.answerId.value)
                  && v.rows[r.answerId.value].reuse)
            && (r.absence && q.required ==> !r.autoFill)
            && (r.autoFill ==> r.resolved)
  {
    var hit := ChainHit(v, q, ScopeChain(ctx, t), t);
    assert hit.Some? ==> Live(v, hit.value.id);
  }

  /** A resolution that fills by itself says exactly what a row with granted reuse, or the operator's own
      configuration, says. */
  lemma FillsOnlyWhatIsKnown(v: State, q: Question, ctx: Context, facts: Option<Facts>, t: Tables)
    requires Valid(v) && Resolve(v, q, ctx, facts, t).autoFill
    ensures var r := Resolve(v, q, ctx, facts, t);
            || (r.answerId.Some? && Live(v, r.answerId.value) && v.rows[r.answerId.value].reuse
                && r.answer == v.rows[r.answerId.value].text
                && v.rows[r.answerId.value].scope in ScopeChain(ctx, t))
            || (r.answerId.None? && r.sensitivity != Sensitive && facts.Some? && r.patternId in facts.value
                && r.answer == TrimSpace(facts.value[r.patternId]) != "")
  {
    ChainHitScope(v, q, ScopeChain(ctx, t), t);
  }

  lemma {:induction false} ChainHitScope(v: State, q: Question, chain: seq<string>, t: Tables)
    requires Valid(v)
    ensures var hit := ChainHit(v, q, chain, t); hit.Some? ==> v.rows[hit.value.id].scope in chain
  {
    if chain != [] {
      ChainHitScope(v, q, chain[1..], t);
      var hit := ScopeHit(v, q, chain[0], t);
      assert hit.Some? ==> v.rows[hit.value.id].scope == chain[0];
    }
  }

  lemma {:induction false} SkillHitNeedsSubject(v: State, q: Question, chain: seq<string>, t: Tables)
    requires ChainHit(v, q, chain, t).Some? && ChainHit(v, q, chain, t).value.source == SourceSkillExperience
    ensures SkillExperienceSubject(q, t) != ""
  {
    hide SkillExperienceSubject, SkillExperienceKey, QuestionKey, Normalize;
    if ScopeHit(v, q, chain[0], t).None? {
      SkillHitNeedsSubject(v, q, chain[1..], t);
    }
  }

  /** A question without a duration word, or without an experience word, is never answered through a skill, whatever the
      vault holds. */
  lemma NoSkillAnswerWithoutBoth(v: State, q: Question, ctx: Context, facts: Option<Facts>, t: Tables)
    requires (forall w :: w in Tokens(q.prompt, t) ==> w !in t.durationTokens)
             || (forall w :: w in Tokens(q.prompt, t) ==> w !in t.subjectTokens)
    ensures Resolve(v, q, ctx, facts, t).source != SourceSkillExperience
  {
    NoSubjectWithoutBoth(q, t);
    hide SkillExperienceSubject, ScopeChain, Classify, ChainHit, MatchPattern, Tokens;
    var hit := ChainHit(v, q, ScopeChain(ctx, t), t);
    if hit.Some? && hit.value.source == SourceSkillExperience {
      SkillHitNeedsSubject(v, q, ScopeChain(ctx, t), t);
    }
  }

  /** What a hit resolves to: the row's own answer and wording, offered in any case, and filled by itself exactly when
      its reuse was granted and it is no absence on a required field. */
  lemma HitResolvesExactly(v: State, q: Question, ctx: Context, facts: Option<Facts>, t: Tables)
    requires ChainHit(v, q, ScopeChain(ctx, t), t).Some?
    ensures var hit, r := ChainHit(v, q, ScopeChain(ctx, t), t).value, Resolve(v, q, ctx, facts, t);
            var row := v.rows[hit.id];
            && r.resolved && r.answerId == Some(hit.id) && r.source == hit.source && r.answer == row.text
            && r.kind == Some(row.kind) && r.canonical == row.canonical && r.absence == (row.kind == KindAbsence)
            && r.autoFill == (row.reuse && !(row.kind == KindAbsence && q.required))
            && r.sensitivity == if Classify(q, t) == Sensitive then Sensitive else row.sensitivity
  {
    hide Classify, ScopeChain, ChainHit, MatchPattern;
  }

  /** The patterns are asked exactly when no scope has anything: then a configured fact of the first matching pattern is
      offered, and filled by itself exactly when the pattern is routine and the question no declaration; without one the
      question stays unresolved. */
  lemma PatternResolvesExactly(v: State, q: Question, ctx: Context, facts: Option<Facts>, t: Tables)
    requires ChainHit(v, q, ScopeChain(ctx, t), t).None?
    ensures var r, p := Resolve(v, q, ctx, facts, t), MatchPattern(q, t);
            var known :=
              facts.Some? && p.Some? && p.value.id in facts.value && TrimSpace(facts.value[p.value.id]) != "";
            && r.resolved == known && r.answerId.None? && !r.absence
            && r.answer == (if known then TrimSpace(facts.value[p.value.id]) else "")
            && r.source == (if known then SourcePattern else SourceUnknown)
            && r.patternId == (if known then p.value.id else "")
            && r.autoFill == (known && p.value.sensitivity == Routine && Classify(q, t) != Sensitive)
            && r.sensitivity == if known && Classify(q, t) != Sensitive then p.value.sensitivity else Classify(q, t)
  {
    hide Classify, ScopeChain, ChainHit, MatchPattern, TrimSpace;
  }

  /** A hit in a scope is decided there when every narrower scope has none. */
  lemma {:induction false} ChainHitAt(v: State, q: Question, chain: seq<string>, k: nat, t: Tables)
    requires k < |chain| && ScopeHit(v, q, chain[k], t).Some?
    requires forall j :: 0 <= j < k ==> ScopeHit(v, q, chain[j], t).None?
    ensures ChainHit(v, q, chain, t) == ScopeHit(v, q, chain[k], t)
  {
    if k > 0 {
      ChainHitAt(v, q, chain[1..], k - 1, t);
    }
  }

  /** The chain runs from the company to the application system to the global scope, and names no scope twice. */
  lemma ScopeChainShape(ctx: Context, t: Tables)
    ensures var chain := ScopeChain(ctx, t);
            && 1 <= |chain| <= 3 && chain[|chain| - 1] == GLOBAL
            && (forall i, j :: 0 <= i < j < |chain| ==> chain[i] != chain[j])
            && (CompanyScope(ctx.company, t) != GLOBAL ==> chain[0] == CompanyScope(ctx.company, t))
  {
    hide NormalizeCompany, ToLower, TrimSpace;
    assert CompanyScope(ctx.company, t)[0] in {'c', 'g'} && AtsScope(ctx.ats)[0] in {'a', 'g'} && GLOBAL[0] == 'g';
    assert CompanyScope(ctx.company, t) != GLOBAL ==> CompanyScope(ctx.company, t)[0] == 'c';
    assert AtsScope(ctx.ats) != GLOBAL ==> AtsScope(ctx.ats)[0] == 'a';
  }

  /** An approval for one company beats every wider one, and within a scope an exact phrasing beats the question's own
      key, which beats the skill it asks about. */
  lemma NarrowestAndMostExactWins(v: State, q: Question, ctx: Context, facts: Option<Facts>, t: Tables)
    requires CompanyScope(ctx.company, t) != GLOBAL
    ensures var scope, r := CompanyScope(ctx.company, t), Resolve(v, q, ctx, facts, t);
            && (AliasHit(v, q, scope, t).Some? ==>
                  r.source == SourceAlias && r.answerId == Some(v.aliases[(Normalize(q.prompt, t), scope)]))
            && (AliasHit(v, q, scope, t).None? && KeyHit(v, QuestionKey(q.prompt, t), scope, SourceVault).Some? ==>
                  r.source == SourceVault && r.answerId == Some(v.index[(QuestionKey(q.prompt, t), scope)]))
            && (AliasHit(v, q, scope, t).None? && KeyHit(v, QuestionKey(q.prompt, t), scope, SourceVault).None?
                && SkillHit(v, q, scope, t).Some? ==>
                  r.source == SourceSkillExperience && r.answerId == Some(SkillHit(v, q, scope, t).value.id))
  {
    ScopeChainShape(ctx, t);
    hide Normalize, QuestionKey, ScopeChain, CompanyScope, Classify, SkillExperienceSubject, SkillExperienceKey;
    if ScopeHit(v, q, CompanyScope(ctx.company, t), t).Some? {
      ChainHitAt(v, q, ScopeChain(ctx, t), 0, t);
    }
  }
}
