/** Application knowledge over the vault: grouping the queue's questions, counting readiness, and answering a
    whole group at once. These are the values; the service that updates them is in KnowledgeService.
 */
module Knowledge {
  import opened Model
  import opened Text
  import opened Collections
  import opened Normalizer
  import opened Experience
  import opened Recognizers
  import opened Vault
  import opened Resolver

  /** A stored question row of one queued application. */
  datatype Queued = Queued(
    jobId: string, ats: string, key: string, prompt: string, controlType: string, options: seq<string>,
    required: bool, company: string)

  /** Everything a resolution depends on besides the question. */
  datatype Env = Env(vault: State, facts: Option<Facts>, tables: Tables)

  datatype Policy =
    | SafeAutoFill | ApprovedReusable | SuggestAsk | HumanReview | PerJob | Unknown | IntentionalAbsence

  /** Which rule made two questions the same; the program prints these as `pattern:`, `experience:` and `q:`. */
  datatype GroupKey = PatternKey(id: string) | SkillKey(subject: string) | TextKey(text: string)

  datatype Group = Group(
    key: GroupKey, prompt: string, phrasings: seq<string>, occurrences: nat, jobIds: seq<string>,
    companies: seq<string>, controlType: string, options: seq<string>, signatures: seq<multiset<string>>,
    required: bool, sensitivity: Sensitivity, suggested: string, source: Source, resolved: bool, skill: string,
    absenceApproved: bool)

  datatype Readiness = Readiness(
    applications: int, fields: int, resolved: int, unresolved: int, uniqueQuestions: int, sensitiveDecisions: int,
    perJobResponses: int, fieldsUnlockable: int, answersNeeded: int, applicationsBlocked: int, absenceResolved: int)

  function PolicyOf(r: Resolution): Policy {
    if r.absence then IntentionalAbsence
    else if r.sensitivity == GeneratePerJob then PerJob
    else if r.autoFill && r.sensitivity == Sensitive then ApprovedReusable
    else if r.sensitivity == Sensitive then HumanReview
    else if !r.resolved then Unknown
    else if r.source == SourcePattern then SafeAutoFill
    else if r.autoFill then ApprovedReusable
    else SuggestAsk
  }

  function AsQuestion(q: Queued): Question {
    Question(q.key, q.prompt, q.controlType, q.options, q.required, q.company)
  }

  function Outcome(e: Env, q: Queued): Resolution {
    Resolve(e.vault, AsQuestion(q), Context(q.ats, q.company), e.facts, e.tables)
  }

  predicate Pending(e: Env, q: Queued) {
    !Outcome(e, q).autoFill
  }

  function KeyOf(q: Question, t: Tables): GroupKey {
    if PatternId(q, t) != "" then PatternKey(PatternId(q, t))
    else if SkillExperienceSubject(q, t) != "" then SkillKey(SkillExperienceSubject(q, t))
    else TextKey(QuestionKey(q.prompt, t))
  }

  function SkillOf(key: GroupKey): string {
    if key.SkillKey? then key.subject else ""
  }

  // ----- one group

  function Rank(s: Sensitivity): int {
    match s
    case Sensitive => 3
    case GeneratePerJob => 2
    case Routine => 1
  }

  function Stricter(current: Sensitivity, incoming: Sensitivity): Sensitivity {
    if Rank(incoming) > Rank(current) then incoming else current
  }

  function Appended<T(==)>(s: seq<T>, x: T): seq<T> {
    if x in s then s else s + [x]
  }

  /** One employer's option set in a comparable form. */
  function Signature(options: seq<string>): multiset<string> {
    if options == [] then multiset{} else Signature(options[1..]) + multiset{ToLower(TrimSpace(options[0]))}
  }

  /** Merge option lists case-insensitively, keeping the casing first seen. */
  function UnionOptions(existing: seq<string>, incoming: seq<string>): seq<string>
    decreases |incoming|
  {
    if incoming == [] then existing
    else
      var option := TrimSpace(incoming[0]);
      var seen := exists k :: 0 <= k < |existing| && ToLower(TrimSpace(existing[k])) == ToLower(option);
      UnionOptions(if option == "" || seen then existing else existing + [option], incoming[1..])
  }

  /** The group a first occurrence opens, before that occurrence is folded in. */
  function Opened(q: Queued, r: Resolution, t: Tables): Group {
    var key := KeyOf(AsQuestion(q), t);
    Group(key, q.prompt, [], 0, [], [], q.controlType, [], [], false, r.sensitivity, "", SourceUnknown, false,
          SkillOf(key), false)
  }

  /** One occurrence folded into its group. */
  function Merged(g: Group, q: Queued, r: Resolution): Group {
    var suggests := r.resolved && g.suggested == "";
    g.(occurrences := g.occurrences + 1,
       jobIds := Appended(g.jobIds, q.jobId),
       companies := if q.company == "" then g.companies else Appended(g.companies, q.company),
       phrasings := if TrimSpace(q.prompt) == "" then g.phrasings else Appended(g.phrasings, TrimSpace(q.prompt)),
       required := g.required || q.required,
       sensitivity := Stricter(g.sensitivity, r.sensitivity),
       suggested := if suggests then r.answer else g.suggested,
       source := if suggests then r.source else g.source,
       resolved := g.resolved || suggests,
       absenceApproved := g.absenceApproved || r.absence,
       controlType := if q.controlType == TEXT_AREA then TEXT_AREA else g.controlType,
       signatures := if q.options == [] then g.signatures else Appended(g.signatures, Signature(q.options)),
       options := if q.options == [] then g.options else UnionOptions(g.options, q.options))
  }

  // ----- the queue in one pass

  datatype Collected = Collected(
    groups: map<GroupKey, Group>, applications: set<string>, blocked: set<string>, perJob: map<string, int>,
    unresolved: nat, absences: nat)

  const NOTHING := Collected(map[], {}, {}, map[], 0, 0)

  function CollectOne(e: Env, c: Collected, q: Queued): Collected {
    var r := Outcome(e, q);
    var seen := c.(applications := c.applications + {q.jobId},
                   perJob := c.perJob[q.jobId := 1 + if q.jobId in c.perJob then c.perJob[q.jobId] else 0]);
    if r.autoFill then
      if r.absence then seen.(absences := c.absences + 1) else seen
    else
      var key := KeyOf(AsQuestion(q), e.tables);
      var group := if key in c.groups then c.groups[key] else Opened(q, r, e.tables);
      seen.(unresolved := c.unresolved + 1, blocked := c.blocked + {q.jobId},
            groups := c.groups[key := Merged(group, q, r)])
  }

  function Collect(e: Env, queue: seq<Queued>): Collected {
    if queue == [] then NOTHING else CollectOne(e, Collect(e, queue[..|queue| - 1]), queue[|queue| - 1])
  }

  predicate OptionsVary(g: Group) {
    |g.signatures| > 1
  }

  function GroupPolicy(g: Group): Policy {
    var policy := PolicyOf(Resolution(g.resolved, false, "", g.source, g.sensitivity, None, None, "", "", false));
    if g.resolved && policy == Unknown then SuggestAsk else policy
  }

  /** Whether answering the group once unlocks its fields in bulk. */
  predicate Unlockable(g: Group) {
    GroupPolicy(g) != HumanReview && GroupPolicy(g) != PerJob && !OptionsVary(g)
  }

  /** The running counts of a pass, apart from the groups. */
  datatype Counts = Counts(
    applications: set<string>, blocked: set<string>, perJob: map<string, int>, unresolved: nat, absences: nat)

  function CountsOf(c: Collected): Counts {
    Counts(c.applications, c.blocked, c.perJob, c.unresolved, c.absences)
  }

  /** The field counts of applications nobody inspected: their known questions. */
  function Uninspected(c: Counts, discovered: map<string, int>): map<string, int> {
    map j | j in c.applications && j !in discovered :: if j in c.perJob then c.perJob[j] else 0
  }

  function UnlockableCounts(groups: map<GroupKey, Group>): map<GroupKey, int> {
    map k | k in groups && Unlockable(groups[k]) :: groups[k].occurrences
  }

  function WithPolicy(groups: map<GroupKey, Group>, p: Policy): set<GroupKey> {
    set k | k in groups && GroupPolicy(groups[k]) == p
  }

  ghost function Summary(c: Collected, discovered: map<string, int>): Readiness {
    var counted := Sum(discovered) + Sum(Uninspected(CountsOf(c), discovered));
    var fields := if counted < c.unresolved then c.unresolved else counted;
    Readiness(
      |c.applications + discovered.Keys|, fields, fields - c.unresolved, c.unresolved, |c.groups|,
      |WithPolicy(c.groups, HumanReview)|, |WithPolicy(c.groups, PerJob)|,
      Sum(UnlockableCounts(c.groups)), |UnlockableCounts(c.groups)|, |c.blocked|, c.absences)
  }

  /** The share of discovered fields already handled, in whole per cent; nothing discovered counts as none. */
  function KnownPercent(r: Readiness): int {
    if r.fields <= 0 then 0 else (r.resolved as real / r.fields as real * 100.0).Floor
  }

  // ----- finishing a group

  /** Code-point order, which is also the byte order of UTF-8. */
  predicate Precedes(a: string, b: string) {
    b != "" && (a == "" || a[0] < b[0] || (a[0] == b[0] && Precedes(a[1..], b[1..])))
  }

  /** The shortest of a prompt and the phrasings, the earlier on ties. */
  function ShortestPrompt(prompt: string, phrasings: seq<string>): string
    decreases |phrasings|
  {
    if phrasings == [] then prompt
    else ShortestPrompt(if prompt == "" || ByteLength(phrasings[0]) < ByteLength(prompt) then phrasings[0] else prompt,
                        phrasings[1..])
  }

  function Finalized(g: Group): Group {
    var sorted := Sort(g.phrasings, Precedes);
    g.(phrasings := sorted, prompt := ShortestPrompt(g.prompt, sorted), jobIds := Sort(g.jobIds, Precedes),
       companies := Sort(g.companies, Precedes))
  }

  /** The wording an approved answer is stored under. */
  function CanonicalPrompt(g: Group, t: Tables): string {
    if g.skill != "" then SkillExperienceQuestion(g.skill)
    else if g.key.PatternKey? && CanonicalForPattern(g.key.id, 0, t) != "" then CanonicalForPattern(g.key.id, 0, t)
    else g.prompt
  }

  /** The question a group is approved as: canonical wording, and the company when there is just one. */
  function QuestionFromGroup(g: Group, t: Tables): Question {
    Question("", CanonicalPrompt(g, t), g.controlType, g.options, g.required,
             if |g.companies| == 1 then g.companies[0] else "")
  }

  // ----- approving a group

  datatype ApproveRequest = ApproveRequest(
    group: GroupKey, answer: string, saveForReuse: bool, allowSensitiveReuse: bool, confirmed: bool, scope: string)

  datatype AbsenceApproval = AbsenceApproval(
    group: GroupKey, reason: string, saveForReuse: bool, confirmed: bool, scope: string)

  datatype Refusal = Blank | NotInQueue | ChoicesDiffer | NotForReuse | PerJobQuestion | Refused(error: Error)

  datatype Verdict<+T> = Accepted(value: T) | Declined(refusal: Refusal)

  /** Phrasings other than the wording the answer is filed under. */
  function ExtraPhrasings(phrasings: seq<string>, prompt: string, t: Tables): seq<string> {
    if phrasings == [] then []
    else
      (if Normalize(phrasings[0], t) != Normalize(prompt, t) then [phrasings[0]] else [])
      + ExtraPhrasings(phrasings[1..], prompt, t)
  }

  /** The vault once the group's other phrasings are bound, as far as the vault lets them be. */
  function WithPhrasings(s: Stored, g: Group, confirmed: bool, t: Tables): (r: State)
    requires Valid(s.vault)
    ensures Valid(r)
  {
    var bound := AddAliases(s.vault, s.id, ExtraPhrasings(g.phrasings, CanonicalPrompt(g, t), t), confirmed, t);
    if bound.Ok? then bound.value else s.vault
  }

  /** What the operator's answer to a group is saved as. */
  function SaveRequestFor(g: Group, req: ApproveRequest, t: Tables): SaveRequest {
    var question := QuestionFromGroup(g, t);
    var sensitive := g.sensitivity == Sensitive || Classify(question, t) == Sensitive;
    SaveRequest(
      question, TrimSpace(req.answer), None, req.scope,
      Some(if TrimSpace(req.answer) != TrimSpace(g.suggested) then OperatorEdited else OperatorApproved),
      if sensitive then req.allowSensitiveReuse else true, true, Some(g.sensitivity))
  }

  function AbsenceRequestFor(g: Group, req: AbsenceApproval, t: Tables): AbsenceRequest {
    AbsenceRequest(QuestionFromGroup(g, t), TrimSpace(req.reason), req.scope, true, true)
  }

  /** The group of a key, as the queue shows it now. */
  function GroupNow(e: Env, queue: seq<Queued>, key: GroupKey): Option<Group> {
    var groups := Collect(e, queue).groups;
    if key in groups then Some(Finalized(groups[key])) else None
  }

  /** Answering one group: the vault with the answer stored and its phrasings bound. */
  function Approve(e: Env, queue: seq<Queued>, req: ApproveRequest, now: int): (r: Verdict<Stored>)
    requires Valid(e.vault)
    ensures r.Accepted? ==> Valid(r.value.vault)
  {
    if TrimSpace(req.answer) == "" then Declined(Blank)
    else if GroupNow(e, queue, req.group).None? then Declined(NotInQueue)
    else
      var g := GroupNow(e, queue, req.group).value;
      if OptionsVary(g) then Declined(ChoicesDiffer)
      else if !req.saveForReuse then Declined(NotForReuse)
      else
        match Save(e.vault, SaveRequestFor(g, req, e.tables), now, e.tables)
        case Fail(error) => Declined(Refused(error))
        case Ok(s) => Accepted(Stored(WithPhrasings(s, g, req.confirmed, e.tables), s.id))
  }

  /** Declaring one group absent. */
  function ApproveAbsence(e: Env, queue: seq<Queued>, req: AbsenceApproval, now: int): (r: Verdict<Stored>)
    requires Valid(e.vault)
    ensures r.Accepted? ==> Valid(r.value.vault)
  {
    if TrimSpace(req.reason) == "" then Declined(Blank)
    else if !req.saveForReuse then Declined(NotForReuse)
    else if GroupNow(e, queue, req.group).None? then Declined(NotInQueue)
    else
      var g := GroupNow(e, queue, req.group).value;
      if GroupPolicy(g) == PerJob then Declined(PerJobQuestion)
      else
        match SaveAbsence(e.vault, AbsenceRequestFor(g, req, e.tables), now, e.tables)
        case Fail(error) => Declined(Refused(error))
        case Ok(s) => Accepted(Stored(WithPhrasings(s, g, req.confirmed, e.tables), s.id))
  }
}
