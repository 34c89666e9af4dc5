/** The Approved Answer Vault as a state: its two tables, and every operation that changes them. An operation
    that fails changes nothing.
 */
module Vault {
  import opened Model
  import opened Text
  import opened Normalizer
  import opened Recognizers

  const GLOBAL := "global"

  /** One row of the approved-answers table; its identifier is its key in the table. */
  datatype Row = Row(
    key: string, canonical: string, text: string, kind: Kind, sensitivity: Sensitivity, scope: string,
    reuse: bool, provenance: Provenance, approvedAt: int, updatedAt: int, revokedAt: Option<int>,
    useCount: nat, lastUsedAt: Option<int>)

  /** The answers table, its unique index on (question key, scope), the aliases table, and the next identifier. */
  datatype State = State(
    rows: map<int, Row>, index: map<(string, string), int>, aliases: map<(string, string), int>, nextId: int)

  datatype Error =
    | NoQuestion | NoAnswer | NoText | NotReusable | SensitiveNeedsApproval | NoProvenance
    | NoLiveAnswer | ReuseWithheld | AliasNeedsConfirmation

  datatype Result<+T> = Ok(value: T) | Fail(error: Error)

  /** A changed vault and the row an operation was about. */
  datatype Stored = Stored(vault: State, id: int)

  /** An answer as an operation returns it. */
  datatype Answer = Answer(id: int, row: Row)

  datatype SaveRequest = SaveRequest(
    question: Question, answer: string, kind: Option<Kind>, scope: string, provenance: Option<Provenance>,
    reuse: bool, reuseDecision: bool, sensitivity: Option<Sensitivity>)

  datatype AbsenceRequest = AbsenceRequest(
    question: Question, reason: string, scope: string, reuse: bool, reuseDecision: bool)

  const EMPTY := State(map[], map[], map[], 1)

  predicate Live(v: State, id: int) {
    id in v.rows && v.rows[id].revokedAt.None?
  }

  predicate OperatorDecided(p: Provenance) {
    p == OperatorApproved || p == OperatorEdited
  }

  /** What a row must look like whatever happened before. */
  ghost predicate RowSound(r: Row) {
    && r.sensitivity != GeneratePerJob
    && r.text != ""
    && (r.sensitivity == Sensitive && r.reuse ==> OperatorDecided(r.provenance))
    && (r.revokedAt.Some? ==> !r.reuse)
  }

  ghost predicate RowsValid(v: State) {
    forall id :: id in v.rows ==> id < v.nextId && RowSound(v.rows[id])
  }

  /** The index is exact: every row is found under its own key and scope, and nothing else is in it. */
  ghost predicate IndexValid(v: State) {
    && (forall id :: id in v.rows ==> var k := (v.rows[id].key, v.rows[id].scope); k in v.index && v.index[k] == id)
    && (forall k :: k in v.index ==>
          v.index[k] in v.rows && v.rows[v.index[k]].key == k.0 && v.rows[v.index[k]].scope == k.1)
  }

  /** Each alias points to a live row of its own scope. */
  ghost predicate AliasesValid(v: State) {
    forall a :: a in v.aliases ==> Live(v, v.aliases[a]) && v.rows[v.aliases[a]].scope == a.1
  }

  ghost predicate Valid(v: State) {
    RowsValid(v) && IndexValid(v) && AliasesValid(v)
  }

  /** Rows are never deleted and never move to another key or scope. */
  ghost predicate Extends(v: State, w: State) {
    && (forall id :: id in v.rows ==>
          id in w.rows && w.rows[id].key == v.rows[id].key && w.rows[id].scope == v.rows[id].scope)
    && (forall k :: k in v.index ==> k in w.index && w.index[k] == v.index[k])
  }

  // ----- operations

  function EffectiveScope(scope: string): string {
    var trimmed := TrimSpace(scope);
    if trimmed == "" then GLOBAL else trimmed
  }

  /** Which row an approval of (key, scope) lands on. */
  function RowFor(v: State, key: string, scope: string): int {
    if (key, scope) in v.index then v.index[(key, scope)] else v.nextId
  }

  /** The tables with the row written for its key and scope. */
  function Written(v: State, row: Row): State {
    var id := RowFor(v, row.key, row.scope);
    v.(rows := v.rows[id := row], index := v.index[(row.key, row.scope) := id],
       nextId := if id == v.nextId then id + 1 else v.nextId)
  }

  lemma WrittenIndex(v: State, row: Row)
    requires Valid(v)
    ensures IndexValid(Written(v, row))
  {
  }

  lemma WrittenAliases(v: State, row: Row)
    requires Valid(v)
    requires row.revokedAt.None? || forall a :: a in v.aliases ==> v.aliases[a] != RowFor(v, row.key, row.scope)
    ensures AliasesValid(Written(v, row))
  {
  }

  /** Write the row for its key and scope. */
  function Put(v: State, row: Row): (r: State)
    requires Valid(v) && RowSound(row)
    requires row.revokedAt.None? || forall a :: a in v.aliases ==> v.aliases[a] != RowFor(v, row.key, row.scope)
    ensures Valid(r) && Extends(v, r)
  {
    WrittenIndex(v, row);
    WrittenAliases(v, row);
    Written(v, row)
  }

  lemma PutWrites(v: State, row: Row)
    requires Valid(v) && RowSound(row) && row.revokedAt.None?
    ensures Live(Put(v, row), RowFor(v, row.key, row.scope)) && Put(v, row).rows[RowFor(v, row.key, row.scope)] == row
  {
  }

  /** A row approved for the first time. */
  function NewRow(key: string, prompt: string, text: string, kind: Kind, sensitivity: Sensitivity, scope: string,
                  reuse: bool, provenance: Provenance, now: int): Row {
    Row(key, prompt, text, kind, sensitivity, scope, reuse, provenance, now, now, None, 0, None)
  }

  /** The row an approval of (key, scope) writes: the first approval's date and the use counters are kept. */
  function ApprovedRow(v: State, key: string, prompt: string, text: string, kind: Kind, sensitivity: Sensitivity,
                       scope: string, reuse: bool, provenance: Provenance, now: int): Row
    requires IndexValid(v)
  {
    var row := NewRow(key, prompt, text, kind, sensitivity, scope, reuse, provenance, now);
    if (key, scope) in v.index then
      var was := v.rows[v.index[(key, scope)]];
      row.(approvedAt := was.approvedAt, useCount := was.useCount, lastUsedAt := was.lastUsedAt)
    else row
  }

  /** The vault with one more alias, for a live row of the alias's scope. */
  function WithAlias(v: State, alias: string, id: int): (r: State)
    requires Valid(v) && Live(v, id)
    ensures Valid(r) && Extends(v, r)
  {
    v.(aliases := v.aliases[(alias, v.rows[id].scope) := id])
  }

  lemma ApprovedRowIsSound(v: State, key: string, prompt: string, text: string, kind: Kind, sensitivity: Sensitivity,
                           scope: string, reuse: bool, provenance: Provenance, now: int)
    requires IndexValid(v) && text != "" && sensitivity != GeneratePerJob
    requires sensitivity == Sensitive && reuse ==> OperatorDecided(provenance)
    ensures var row := ApprovedRow(v, key, prompt, text, kind, sensitivity, scope, reuse, provenance, now);
            && RowSound(row) && row.revokedAt.None? && row.key == key && row.scope == scope && row.reuse == reuse
            && row.canonical == prompt && row.text == text && row.kind == kind && row.sensitivity == sensitivity
            && row.provenance == provenance
  {
    hide IndexValid;
  }

  /** Write an approved row and, when it grants reuse, bind a phrasing to it. */
  function StoreRow(v: State, row: Row, phrasing: string): (r: Stored)
    requires Valid(v) && RowSound(row) && row.revokedAt.None?
    ensures Valid(r.vault) && Extends(v, r.vault) && r.id == RowFor(v, row.key, row.scope)
  {
    var w, id := Put(v, row), RowFor(v, row.key, row.scope);
    Stored(if row.reuse then WithAlias(w, phrasing, id) else w, id)
  }

  /** Insert or update the row for (key, scope), clearing any revocation, and bind the exact phrasing to it when
      reuse is granted. */
  function StoreAnswer(v: State, key: string, prompt: string, text: string, kind: Kind, sensitivity: Sensitivity,
                       scope: string, reuse: bool, provenance: Provenance, now: int, t: Tables): (r: Stored)
    requires Valid(v) && text != "" && sensitivity != GeneratePerJob
    requires sensitivity == Sensitive && reuse ==> OperatorDecided(provenance)
    ensures Valid(r.vault) && Extends(v, r.vault) && r.id == RowFor(v, key, scope)
  {
    ApprovedRowIsSound(v, key, prompt, text, kind, sensitivity, scope, reuse, provenance, now);
    var row := ApprovedRow(v, key, prompt, text, kind, sensitivity, scope, reuse, provenance, now);
    StoreRow(v, row, Normalize(prompt, t))
  }

  /** The checks Save and SaveAbsence share; on success the trimmed prompt and value. */
  function Prepared(prompt: string, value: string, t: Tables): Result<(string, string)> {
    if TrimSpace(prompt) == "" then Fail(NoQuestion)
    else if TrimSpace(value) == "" then Fail(NoAnswer)
    else if QuestionKey(TrimSpace(prompt), t) == "" then Fail(NoText)
    else Ok((TrimSpace(prompt), TrimSpace(value)))
  }

  /** A caller may raise the classification of a question but never lower it. */
  function StoredSensitivity(req: SaveRequest, t: Tables): Sensitivity {
    if req.sensitivity == Some(Sensitive) then Sensitive else Classify(req.question, t)
  }

  /** What a save returns as the stored answer: a row approved now, whatever row was there. */
  function ReturnedRow(req: SaveRequest, now: int, t: Tables): Row
    requires req.provenance.Some?
  {
    var prompt := TrimSpace(req.question.prompt);
    NewRow(QuestionKey(prompt, t), prompt, TrimSpace(req.answer), if req.kind.None? then KindText else req.kind.value,
           StoredSensitivity(req, t), EffectiveScope(req.scope), req.reuse, req.provenance.value, now)
  }

  /** The same for an absence. */
  function ReturnedAbsence(req: AbsenceRequest, now: int, t: Tables): Row {
    var prompt := TrimSpace(req.question.prompt);
    NewRow(QuestionKey(prompt, t), prompt, TrimSpace(req.reason), KindAbsence, Classify(req.question, t),
           EffectiveScope(req.scope), req.reuse, OperatorApproved, now)
  }

  function Save(v: State, req: SaveRequest, now: int, t: Tables): (r: Result<Stored>)
    requires Valid(v)
    ensures r.Ok? ==> Valid(r.value.vault) && Extends(v, r.value.vault)
  {
    match Prepared(req.question.prompt, req.answer, t)
    case Fail(e) => Fail(e)
    case Ok(p) =>
      var sensitivity := StoredSensitivity(req, t);
      if sensitivity == GeneratePerJob then Fail(NotReusable)
      else if sensitivity == Sensitive
              && !(req.provenance in {Some(OperatorApproved), Some(OperatorEdited)} && req.reuseDecision && req.reuse)
      then Fail(SensitiveNeedsApproval)
      else if req.provenance.None? then Fail(NoProvenance)
      else
        var kind := if req.kind.None? then KindText else req.kind.value;
        Ok(StoreAnswer(v, QuestionKey(p.0, t), p.0, p.1, kind, sensitivity, EffectiveScope(req.scope),
                       req.reuse, req.provenance.value, now, t))
  }

  function SaveAbsence(v: State, req: AbsenceRequest, now: int, t: Tables): (r: Result<Stored>)
    requires Valid(v)
    ensures r.Ok? ==> Valid(r.value.vault) && Extends(v, r.value.vault)
  {
    match Prepared(req.question.prompt, req.reason, t)
    case Fail(e) => Fail(e)
    case Ok(p) =>
      var sensitivity := Classify(req.question, t);
      if sensitivity == GeneratePerJob then Fail(NotReusable)
      else if sensitivity == Sensitive && !(req.reuseDecision && req.reuse) then Fail(SensitiveNeedsApproval)
      else Ok(StoreAnswer(v, QuestionKey(p.0, t), p.0, p.1, KindAbsence, sensitivity, EffectiveScope(req.scope),
                          req.reuse, OperatorApproved, now, t))
  }

  /** The alias table after binding every recognizable phrasing to a row. */
  function Bound(aliases: map<(string, string), int>, prompts: seq<string>, scope: string, id: int, t: Tables)
    : map<(string, string), int>
    decreases |prompts|
  {
    if prompts == [] then aliases
    else
      var alias := Normalize(prompts[0], t);
      Bound(if alias == "" then aliases else aliases[(alias, scope) := id], prompts[1..], scope, id, t)
  }

  /** The phrasings that have any recognizable text. */
  function Recognizable(prompts: seq<string>, t: Tables): nat {
    if prompts == [] then 0
    else (if Normalize(prompts[0], t) == "" then 0 else 1) + Recognizable(prompts[1..], t)
  }

  /** Binding adds, for each recognizable phrasing, exactly one alias in the row's scope, and disturbs no other. */
  lemma {:induction false} BoundAliases(aliases: map<(string, string), int>, prompts: seq<string>, scope: string,
                                        id: int, t: Tables)
    ensures forall a :: a in Bound(aliases, prompts, scope, id, t) <==>
              a in aliases || (a.1 == scope && a.0 != "" && exists p :: p in prompts && Normalize(p, t) == a.0)
    ensures forall a :: a in Bound(aliases, prompts, scope, id, t) ==>
              Bound(aliases, prompts, scope, id, t)[a] ==
              if a.1 == scope && a.0 != "" && (exists p :: p in prompts && Normalize(p, t) == a.0)
              then id else aliases[a]
    decreases |prompts|
  {
    if prompts != [] {
      var alias := Normalize(prompts[0], t);
      BoundAliases(if alias == "" then aliases else aliases[(alias, scope) := id], prompts[1..], scope, id, t);
      assert forall p :: p in prompts <==> p == prompts[0] || p in prompts[1..];
    }
  }

  function AddAliases(v: State, id: int, prompts: seq<string>, confirmed: bool, t: Tables): (r: Result<State>)
    requires Valid(v)
    ensures r.Ok? ==> Valid(r.value) && Extends(v, r.value)
  {
    if prompts == [] then Ok(v)
    else if !Live(v, id) then Fail(NoLiveAnswer)
    else if !v.rows[id].reuse then Fail(ReuseWithheld)
    else if v.rows[id].sensitivity == Sensitive && !confirmed then Fail(AliasNeedsConfirmation)
    else
      var r := v.(aliases := Bound(v.aliases, prompts, v.rows[id].scope, id, t));
      BoundAliases(v.aliases, prompts, v.rows[id].scope, id, t);
      assert AliasesValid(r);
      Ok(r)
  }

  /** The alias table without the aliases of one row. */
  function Unbound(aliases: map<(string, string), int>, id: int): map<(string, string), int> {
    map a | a in aliases && aliases[a] != id :: aliases[a]
  }

  function Unalias(v: State, id: int): (r: State)
    requires Valid(v)
    ensures Valid(r) && r.rows == v.rows && r.index == v.index
  {
    v.(aliases := Unbound(v.aliases, id))
  }

  function UpdateAnswer(v: State, id: int, answer: string, reuse: bool, now: int): (r: Result<State>)
    requires Valid(v)
    ensures r.Ok? ==> Valid(r.value) && Extends(v, r.value)
  {
    if TrimSpace(answer) == "" then Fail(NoAnswer)
    else if !Live(v, id) then Fail(NoLiveAnswer)
    else if v.rows[id].sensitivity == Sensitive && reuse && !v.rows[id].reuse then Fail(SensitiveNeedsApproval)
    else
      var row := v.rows[id].(text := TrimSpace(answer), reuse := reuse, provenance := OperatorEdited, updatedAt := now);
      Ok(Put(if reuse then v else Unalias(v, id), row))
  }

  function Revoke(v: State, id: int, now: int): (r: Result<State>)
    requires Valid(v)
    ensures r.Ok? ==> Valid(r.value) && Extends(v, r.value)
  {
    if !Live(v, id) then Fail(NoLiveAnswer)
    else
      var row := v.rows[id].(revokedAt := Some(now), updatedAt := now, reuse := false);
      Ok(Put(Unalias(v, id), row))
  }

  /** The suggestion row seeding files for one configured fact. */
  function SeedRow(p: Pattern, facts: Facts, now: int, t: Tables): Row {
    Row(QuestionKey(p.canonical, t), p.canonical, FactFor(p, facts), p.kind, p.sensitivity, GLOBAL, false,
        SeededFromPii, now, now, None, 0, None)
  }

  /** A pattern is seeded when its fact is configured, it has a canonical wording, and no row has that key. */
  predicate NeedsSeed(v: State, p: Pattern, facts: Facts, t: Tables) {
    FactFor(p, facts) != "" && p.canonical != "" && (QuestionKey(p.canonical, t), GLOBAL) !in v.index
  }

  function SeedOne(v: State, p: Pattern, facts: Facts, now: int, t: Tables): (r: State)
    requires Valid(v) && p.sensitivity != GeneratePerJob
    ensures Valid(r) && Extends(v, r)
  {
    if NeedsSeed(v, p, facts, t) then Put(v, SeedRow(p, facts, now, t)) else v
  }

  /** Seeding the first `n` patterns. */
  function SeedFromPii(v: State, facts: Facts, n: nat, now: int, t: Tables): (r: State)
    requires Valid(v) && NoPerJobPattern(t) && n <= |t.patterns|
    ensures Valid(r) && Extends(v, r)
  {
    if n == 0 then v else SeedOne(SeedFromPii(v, facts, n - 1, now, t), t.patterns[n - 1], facts, now, t)
  }
}
