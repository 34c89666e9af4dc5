/** The vault as the program keeps it: an object whose methods update its tables in place. */
module VaultStore {
  import opened Model
  import opened Text
  import opened Collections
  import opened Normalizer
  import opened Experience
  import opened Recognizers
  import opened Vault
  import opened Resolver

  lemma SeedNothing(v: State, facts: Facts, now: int, t: Tables)
    requires Valid(v) && NoPerJobPattern(t)
    ensures SeedFromPii(v, facts, 0, now, t) == v
  {
  }

  lemma SeedStep(v: State, facts: Facts, n: nat, now: int, t: Tables)
    requires Valid(v) && NoPerJobPattern(t) && n < |t.patterns|
    ensures SeedFromPii(v, facts, n + 1, now, t) ==
            SeedOne(SeedFromPii(v, facts, n, now, t), t.patterns[n], facts, now, t)
  {
    hide SeedOne, Valid, Extends;
  }

  class Store {
    const tables: Tables
    var rows: map<int, Row>
    var index: map<(string, string), int>
    var aliases: map<(string, string), int>
    var nextId: int

    ghost function Contents(): State
      reads this
    {
      State(rows, index, aliases, nextId)
    }

    constructor (t: Tables)
      ensures Contents() == EMPTY && tables == t && Valid(Contents())
    {
      tables, rows, index, aliases, nextId := t, map[], map[], map[], 1;
    }

    /** Write one row through the unique index; answers its identifier. */
    method Upsert(row: Row) returns (id: int)
      requires Valid(Contents()) && RowSound(row) && row.revokedAt.None?
      modifies this
      ensures Contents() == Put(old(Contents()), row) && id == RowFor(old(Contents()), row.key, row.scope)
    {
      if (row.key, row.scope) in index {
        id := index[(row.key, row.scope)];
      } else {
        id := nextId;
        nextId := nextId + 1;
      }
      index := index[(row.key, row.scope) := id];
      rows := rows[id := row];
    }

    method StoreApprovedAnswer(key: string, prompt: string, text: string, kind: Kind, sensitivity: Sensitivity,
                               scope: string, reuse: bool, provenance: Provenance, now: int) returns (a: Answer)
      requires Valid(Contents()) && text != "" && sensitivity != GeneratePerJob
      requires sensitivity == Sensitive && reuse ==> OperatorDecided(provenance)
      modifies this
      ensures Stored(Contents(), a.id) ==
              StoreAnswer(old(Contents()), key, prompt, text, kind, sensitivity, scope, reuse, provenance, now, tables)
      ensures a.row == NewRow(key, prompt, text, kind, sensitivity, scope, reuse, provenance, now)
    {
      var approved := NewRow(key, prompt, text, kind, sensitivity, scope, reuse, provenance, now);
      var row := approved;
      if (key, scope) in index {
        var was := rows[index[(key, scope)]];
        row := row.(approvedAt := was.approvedAt, useCount := was.useCount, lastUsedAt := was.lastUsedAt);
      }
      var id := Upsert(row);
      if reuse {
        aliases := aliases[(Normalize(prompt, tables), scope) := id];
      }
      a := Answer(id, approved);
    }

    method SaveAnswer(req: SaveRequest, now: int) returns (r: Result<Answer>)
      requires Valid(Contents())
      modifies this
      ensures match Save(old(Contents()), req, now, tables)
              case Ok(s) => && req.provenance.Some? && r == Ok(Answer(s.id, ReturnedRow(req, now, tables)))
                            && Contents() == s.vault
              case Fail(e) => r == Fail(e) && Contents() == old(Contents())
      ensures Valid(Contents())
    {
      var prepared := Prepared(req.question.prompt, req.answer, tables);
      if prepared.Fail? {
        return Fail(prepared.error);
      }
      var sensitivity := ClassifyQuestion(req.question, tables);
      if req.sensitivity == Some(Sensitive) {
        sensitivity := Sensitive;
      }
      if sensitivity == GeneratePerJob {
        return Fail(NotReusable);
      }
      if sensitivity == Sensitive {
        var operatorApproved := req.provenance == Some(OperatorApproved) || req.provenance == Some(OperatorEdited);
        if !operatorApproved || !req.reuseDecision || !req.reuse {
          return Fail(SensitiveNeedsApproval);
        }
      }
      if req.provenance.None? {
        return Fail(NoProvenance);
      }
      var kind := if req.kind.None? then KindText else req.kind.value;
      var a := StoreApprovedAnswer(QuestionKey(prepared.value.0, tables), prepared.value.0, prepared.value.1, kind,
                                   sensitivity, EffectiveScope(req.scope), req.reuse, req.provenance.value, now);
      r := Ok(a);
    }

    method SaveAbsenceAnswer(req: AbsenceRequest, now: int) returns (r: Result<Answer>)
      requires Valid(Contents())
      modifies this
      ensures match SaveAbsence(old(Contents()), req, now, tables)
              case Ok(s) => r == Ok(Answer(s.id, ReturnedAbsence(req, now, tables))) && Contents() == s.vault
              case Fail(e) => r == Fail(e) && Contents() == old(Contents())
      ensures Valid(Contents())
    {
      var prepared := Prepared(req.question.prompt, req.reason, tables);
      if prepared.Fail? {
        return Fail(prepared.error);
      }
      var classified := ClassifyQuestion(req.question, tables);
      if classified == GeneratePerJob {
        return Fail(NotReusable);
      }
      if classified == Sensitive && (!req.reuseDecision || !req.reuse) {
        return Fail(SensitiveNeedsApproval);
      }
      var a := StoreApprovedAnswer(QuestionKey(prepared.value.0, tables), prepared.value.0, prepared.value.1,
                                   KindAbsence, classified, EffectiveScope(req.scope), req.reuse, OperatorApproved,
                                   now);
      r := Ok(a);
    }

    method AddPhrasings(id: int, prompts: seq<string>, confirmed: bool) returns (r: Result<nat>)
      requires Valid(Contents())
      modifies this`aliases
      ensures match AddAliases(old(Contents()), id, prompts, confirmed, tables)
              case Ok(v) => r == Ok(Recognizable(prompts, tables)) && Contents() == v
              case Fail(e) => r == Fail(e) && Contents() == old(Contents())
      ensures Valid(Contents())
    {
      if prompts == [] {
        return Ok(0);
      }
      if !(id in rows && rows[id].revokedAt.None?) {
        return Fail(NoLiveAnswer);
      }
      var row := rows[id];
      if !row.reuse {
        return Fail(ReuseWithheld);
      }
      if row.sensitivity == Sensitive && !confirmed {
        return Fail(AliasNeedsConfirmation);
      }
      var added: nat := 0;
      for i := 0 to |prompts|
        invariant Bound(old(aliases), prompts, row.scope, id, tables) ==
                  Bound(aliases, prompts[i..], row.scope, id, tables)
        invariant Recognizable(prompts, tables) == added + Recognizable(prompts[i..], tables)
      {
        assert prompts[i..][0] == prompts[i] && prompts[i..][1..] == prompts[i + 1..];
        var alias := Normalize(prompts[i], tables);
        if alias == "" {
          continue;
        }
        aliases := aliases[(alias, row.scope) := id];
        added := added + 1;
      }
      assert prompts[|prompts|..] == [];
      r := Ok(added);
    }

    method DropAliases(id: int)
      modifies this`aliases
      ensures aliases == Unbound(old(aliases), id)
    {
      aliases := map a | a in aliases && aliases[a] != id :: aliases[a];
    }

    method Update(id: int, answer: string, reuse: bool, now: int) returns (r: Result<Answer>)
      requires Valid(Contents())
      modifies this
      ensures match UpdateAnswer(old(Contents()), id, answer, reuse, now)
              case Ok(v) => Contents() == v && id in v.rows && r == Ok(Answer(id, v.rows[id]))
              case Fail(e) => r == Fail(e) && Contents() == old(Contents())
      ensures Valid(Contents())
    {
      var text := TrimSpace(answer);
      if text == "" {
        return Fail(NoAnswer);
      }
      if !(id in rows && rows[id].revokedAt.None?) {
        return Fail(NoLiveAnswer);
      }
      var existing := rows[id];
      if existing.sensitivity == Sensitive && reuse && !existing.reuse {
        return Fail(SensitiveNeedsApproval);
      }
      existing := existing.(text := text, reuse := reuse, provenance := OperatorEdited, updatedAt := now);
      rows := rows[id := existing];
      if !reuse {
        DropAliases(id);
      }
      assert index[(existing.key, existing.scope) := id] == index;
      r := Ok(Answer(id, existing));
    }

    method Withdraw(id: int, now: int) returns (r: Result<()>)
      requires Valid(Contents())
      modifies this
      ensures match Revoke(old(Contents()), id, now)
              case Ok(v) => r == Ok(()) && Contents() == v
              case Fail(e) => r == Fail(e) && Contents() == old(Contents())
      ensures Valid(Contents())
    {
      if !(id in rows && rows[id].revokedAt.None?) {
        return Fail(NoLiveAnswer);
      }
      var existing := rows[id];
      rows := rows[id := existing.(revokedAt := Some(now), updatedAt := now, reuse := false)];
      DropAliases(id);
      assert index[(existing.key, existing.scope) := id] == index;
      r := Ok(());
    }

    /** Seeds one pattern's fact unless its key already has a row. */
    method SeedFact(p: Pattern, facts: Facts, now: int) returns (added: bool)
      requires Valid(Contents()) && p.sensitivity != GeneratePerJob
      modifies this
      ensures Contents() == SeedOne(old(Contents()), p, facts, now, tables)
      ensures added == NeedsSeed(old(Contents()), p, facts, tables)
      ensures nextId == old(nextId) + if added then 1 else 0
    {
      var value := FactFor(p, facts);
      if value == "" || p.canonical == "" || (QuestionKey(p.canonical, tables), GLOBAL) in index {
        return false;
      }
      var id := Upsert(SeedRow(p, facts, now, tables));
      added := true;
    }

    /** Seeds every configured fact that has no row yet; answers how many rows were inserted. */
    method Seed(facts: Option<Facts>, now: int) returns (seeded: nat)
      requires Valid(Contents()) && NoPerJobPattern(tables)
      modifies this
      ensures facts.Some? ==> Contents() == SeedFromPii(old(Contents()), facts.value, |tables.patterns|, now, tables)
      ensures facts.None? ==> Contents() == old(Contents())
      ensures nextId == old(nextId) + seeded
      ensures Valid(Contents())
    {
      hide SeedOne, NeedsSeed, Valid, Extends, SeedFromPii;
      seeded := 0;
      if facts.None? {
        return;
      }
      SeedNothing(Contents(), facts.value, now, tables);
      for i := 0 to |tables.patterns|
        invariant Contents() == SeedFromPii(old(Contents()), facts.value, i, now, tables)
        invariant nextId == old(nextId) + seeded
      {
        SeedStep(old(Contents()), facts.value, i, now, tables);
        var added := SeedFact(tables.patterns[i], facts.value, now);
        if added {
          seeded := seeded + 1;
        }
      }
    }

    method RecordUse(id: int, now: int)
      requires id in rows && rows[id].reuse
      modifies this`rows
      ensures Contents() == Used(old(Contents()), id, now)
    {
      var row := rows[id];
      rows := rows[id := row.(useCount := row.useCount + 1, lastUsedAt := Some(now))];
    }

    method FindInScope(q: Question, scope: string) returns (r: Option<Hit>)
      ensures r == ScopeHit(Contents(), q, scope, tables)
    {
      var alias := Normalize(q.prompt, tables);
      if alias != "" && (alias, scope) in aliases {
        var id := aliases[(alias, scope)];
        if id in rows && rows[id].revokedAt.None? {
          return Some(Hit(id, SourceAlias));
        }
      }
      r := FindByKey(QuestionKey(q.prompt, tables), scope, SourceVault);
      if r.Some? {
        return;
      }
      var subject := ReadSubject(q, tables);
      if subject == "" {
        return None;
      }
      r := FindByKey(SkillExperienceKey(subject, tables), scope, SourceSkillExperience);
    }

    method FindByKey(key: string, scope: string, source: Source) returns (r: Option<Hit>)
      ensures r == KeyHit(Contents(), key, scope, source)
    {
      r := None;
      if key != "" && (key, scope) in index {
        var id := index[(key, scope)];
        if id in rows && rows[id].revokedAt.None? {
          r := Some(Hit(id, source));
        }
      }
    }

    method ResolveQuestion(q: Question, ctx: Context, facts: Option<Facts>, now: int) returns (r: Resolution)
      modifies this`rows
      ensures r == Resolve(old(Contents()), q, ctx, facts, tables)
      ensures Contents() == AfterResolve(old(Contents()), q, ctx, now, tables)
    {
      var chain := ScopeChain(ctx, tables);
      for i := 0 to |chain|
        invariant Contents() == old(Contents())
        invariant ChainHit(Contents(), q, chain, tables) == ChainHit(Contents(), q, chain[i..], tables)
      {
        assert chain[i..][0] == chain[i] && chain[i..][1..] == chain[i + 1..];
        var hit := FindInScope(q, chain[i]);
        if hit.Some? {
          r := FromHit(rows[hit.value.id], q, hit.value, tables);
          if rows[hit.value.id].reuse {
            RecordUse(hit.value.id, now);
          }
          return;
        }
      }
      assert chain[|chain|..] == [];
      var pattern := FromPattern(q, facts, tables);
      r := if pattern.Some? then Escalated(pattern.value, q, tables) else Unresolved(q, tables);
    }

    /** Splits a form's questions into those filled and those left to the operator, in order. */
    method ResolveAll(questions: seq<Question>, ctx: Context, facts: Option<Facts>, now: int)
      returns (filled: seq<(Question, Resolution)>, left: seq<(Question, Resolution)>)
      modifies this`rows
      ensures SameButUse(old(Contents()), Contents())
      ensures (filled, left) == Split(old(Contents()), questions, ctx, facts, tables)
    {
      filled, left := [], [];
      for i := 0 to |questions|
        invariant SameButUse(old(Contents()), Contents())
        invariant (filled, left) == Split(old(Contents()), questions[..i], ctx, facts, tables)
      {
        assert questions[..i + 1][..i] == questions[..i];
        var q := WithCompany(questions[i], ctx);
        ResolveIgnoresUse(old(Contents()), Contents(), q, ctx, facts, now, tables);
        var resolution := ResolveQuestion(q, ctx, facts, now);
        if resolution.resolved && resolution.autoFill {
          filled := filled + [(q, resolution)];
        } else {
          left := left + [(q, resolution)];
        }
      }
      assert questions[..|questions|] == questions;
    }
  }

  /** A question that names no employer is asked by the one the context names. */
  function WithCompany(q: Question, ctx: Context): Question {
    if q.company == "" then q.(company := ctx.company) else q
  }

  /** The two halves of a form: what fills by itself, and what needs the operator. */
  function Split(v: State, qs: seq<Question>, ctx: Context, facts: Option<Facts>, t: Tables)
    : (seq<(Question, Resolution)>, seq<(Question, Resolution)>)
  {
    if qs == [] then ([], [])
    else
      var (filled, left) := Split(v, qs[..|qs| - 1], ctx, facts, t);
      var q := WithCompany(qs[|qs| - 1], ctx);
      var r := Resolve(v, q, ctx, facts, t);
      if r.resolved && r.autoFill then (filled + [(q, r)], left) else (filled, left + [(q, r)])
  }

  /** Every question with its own resolution, in the order asked. */
  function Answered(v: State, qs: seq<Question>, ctx: Context, facts: Option<Facts>, t: Tables)
    : seq<(Question, Resolution)>
  {
    seq(|qs|, i requires 0 <= i < |qs| => (WithCompany(qs[i], ctx), Resolve(v, WithCompany(qs[i], ctx), ctx, facts, t)))
  }

  function Fills(): ((Question, Resolution)) -> bool {
    (p: (Question, Resolution)) => p.1.resolved && p.1.autoFill
  }

  function Stays(): ((Question, Resolution)) -> bool {
    (p: (Question, Resolution)) => !(p.1.resolved && p.1.autoFill)
  }

  /** Every question lands in exactly one half with its own resolution, in the order asked; whatever is filled as a
      declaration comes from a live row whose reuse was granted, and nothing left to the operator was filled. */
  lemma {:induction false} SplitIsSafe(v: State, qs: seq<Question>, ctx: Context, facts: Option<Facts>, t: Tables)
    ensures var (filled, left) := Split(v, qs, ctx, facts, t);
            && filled == Filter(Answered(v, qs, ctx, facts, t), Fills())
            && left == Filter(Answered(v, qs, ctx, facts, t), Stays())
            && (forall k :: 0 <= k < |filled| ==>
                  filled[k].1.sensitivity == Sensitive ==>
                    filled[k].1.answerId.Some? && Live(v, filled[k].1.answerId.value)
                        && v.rows[filled[k].1.answerId.value].reuse)
            && (forall k :: 0 <= k < |left| ==> !left[k].1.autoFill)
  {
    hide Resolve, Live;
    if qs != [] {
      var n := |qs| - 1;
      SplitIsSafe(v, qs[..n], ctx, facts, t);
      ResolutionIsSafe(v, WithCompany(qs[n], ctx), ctx, facts, t);
      assert Answered(v, qs, ctx, facts, t)[..n] == Answered(v, qs[..n], ctx, facts, t);
    }
  }
}
