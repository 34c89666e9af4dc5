# Career Agent: a verified model of its decision core

Career Agent fills job applications. It remembers what its operator approved, decides what it may type by itself, and
protects the sites it talks to. This project models the parts of it that decide, and proves what they promise. All
statements hold for every input, every state and every run; none is bounded.

* **The approved-answer vault** (`Text`, `Normalizer`, `Experience`, `Recognizers`, `Vault`, `Resolver`, `VaultStore`,
  `VaultRuns`, `VaultCaveats`, `VaultWitness`, `Scopes`, with the program's own word lists in `SourceTables`).
  `Vault.State` is the database: rows unique per (question key, scope), aliases from (normalized phrasing, scope) to a
  row, revocation marks and reuse grants. `VaultStore.Store` is the object whose methods update it in place, each
  proved equal to a function on states. `VaultRuns` proves what every run of saves, absences, aliases, edits,
  revocations, seedings and resolutions keeps: who granted what, and that it was never granted otherwise.
* **Application knowledge** (`Knowledge`, `GroupRecords`, `KnowledgeLaws`, `KnowledgeMeaning`, `KnowledgeApproval`,
  `KnowledgeReach`, `KnowledgeWitness`, `KnowledgeService`). Grouping a queue of questions, counting readiness
  independently of order, what groups and figures say of the queue, and the end-to-end law: one approval resolves the
  whole group.
* **Circuit breakers** (`CircuitBreaker`, `BreakerProtocol`). The breaker keyed by domain refines the single-source
  breaker, and workers sharing it are interleaved act by act: how many requests get through before it opens, and how far
  apart probes are.
* **Benchmark mathematics** (`Collections`, `Ranking`, `Ndcg`, `Distribution`, `Cohort`, `Similarity`). Tie-aware ranks,
  the bound on normalized gain by summation by parts, exact stratified selection, Cauchy-Schwarz for similarity.
* **Eligibility screening** (`Phrases`, `Screening`). Padded substring search is whole-word matching, and the gate built
  on it is monotone in the profile.
* **The bounded line reader** (`LineReader`). A buffered reader whose answer does not depend on how the stream arrives.

## Main results

* Every reusable declaration, in every run, began with an approval carrying both the decision and the grant
  (`VaultRuns.GrantsTraceToOperator`); every stored answer that fills by itself was granted and never withheld or revoked
  since (`VaultRuns.FilledAnswerWasGranted`); revocation is sticky (`VaultRuns.RevocationIsSticky`).
* One approval resolves its whole group (`KnowledgeApproval.ApprovalResolvesGroup`), and is accepted exactly when
  `KnowledgeApproval.ApprovalAcceptedExactly` says; the row it stores says the operator's answer and whether it was the
  suggestion (`KnowledgeApproval.ApprovalStoresExactly`). Which questions it answers, group or not, is decided on the vault
  before it, and no other resolution changes (`KnowledgeReach.ApprovalReachesExactly`); so it never takes an answer away,
  and the unresolved count drops by exactly the questions it settles (`KnowledgeReach.ApprovalCounts`). An absence takes
  answers away from exactly the required fields it reaches (`KnowledgeReach.AbsenceTakesExactly`). Readiness does not
  depend on the order of the queue (`KnowledgeLaws.ReadinessIgnoresOrder`), and every figure is a count over the queue
  itself (`KnowledgeMeaning.FiguresMean`, `KnowledgeMeaning.ApplicationsMean`).
* Normalization is idempotent (`Normalizer.NormalizeIdempotent`) and skill reduction undoes its printer
  (`Experience.SkillReductionUndoesPrinter`); a question has a subject exactly when it holds a duration word, a subject
  word and a word that is neither generic nor the company's (`Experience.SubjectExactly`).
* With W workers at most threshold - 1 + W requests pass a closed circuit (`BreakerProtocol.AdmissionBound`), which is
  reached; a probe is alone exactly when no request was in flight (`BreakerProtocol.ProbeAloneIffNoStragglers`); the
  domain breaker refines the source breaker (`CircuitBreaker.DomainProjectsToSource`); a circuit opens exactly when the
  last five outcomes on its domain failed, however workers interleave (`BreakerProtocol.InterleavedOpensExactly`).
* Normalized gain never exceeds one (`Ndcg.NdcgNeverExceedsOne`, by summation by parts in `Ndcg.PrefixesDecide`); the
  tie sweep computes ranks (`Ranking.AverageRanks`); accuracy is one exactly for scores that order every pair as the
  labels do (`Ranking.PerfectExactly`); stratified selection is exact and proportional (`Cohort.SelectionSize`,
  `Cohort.SelectionIsProportional`); similarity obeys Cauchy-Schwarz (`Similarity.CauchySchwarz`).
* Padded search is whole-word matching (`Phrases.PaddedSearchIsWordMatch`), stated country codes win
  (`Screening.CodesFoundExactly`), the gate is monotone (`Screening.LooseningKeepsAccepted`), and line reading is
  independent of chunking (`LineReader.Reader.ReadBoundedLine`) and logs exactly what the sanitizer vouches for
  (`LineReader.LoggedExactly`).

The rows below marked "immediate" follow from one or two definitions and are listed only because they name a promise.

## Where the code does less than its comments say

The model follows the code. For each promise that fails there is an input or run on which it fails, and the exact
condition under which it holds.

* An alias does not imply a grant: approving a question again with reuse withheld leaves its aliases in place
  (`pkg/answers/store.go:132-139`). Two approvals from an empty vault reach such a state
  (`VaultWitness.AliasWithoutGrantHappens`), and a command breaks the implication exactly when it is an accepted save or
  absence that withholds reuse on a row some alias points to (`VaultCaveats.GrantsKeptExactly`).
* A declaration can be filled from a row stored as routine. Binding checks the sensitivity of the row, not of the
  phrasings (`pkg/answers/store.go:316`); and no binding is needed, because classification discounts the employer's own
  name (`pkg/answers/sensitivity.go:77-85`), so "Do you use Affirm?" is routine on Affirm's form and a declaration on
  anyone else's. One approval reaches such a state (`VaultWitness.DeclarationFromRoutineHappens`); it happens, for alias,
  key and skill hits alike, exactly when `VaultCaveats.DeclarationFilledFromRoutineRow` says. Even then the reuse was
  granted (`VaultRuns.FilledAnswerWasGranted`).
* A question classified as per-job is stored when the caller raises it to a declaration with the grant
  (`pkg/answers/store.go:201-217`): a case is `VaultWitness.RaisedPerJobHappens`, the exact condition
  `VaultCaveats.RaisedPerJobIsStored`. No stored row ever has the per-job sensitivity.
* "Anything else is treated as global" (`pkg/knowledge/knowledge.go:583-585`) does not hold at the boundary of the
  package: a scope is trimmed and stored as given (`pkg/answers/store.go:167-170`). It lies in some form's chain exactly
  when it is global, or a company's or application system's name in normal form behind its prefix
  (`Scopes.ScopesOfForms`); a company's name as written, like "company:Grafana Labs, Inc.", does not
  (`Scopes.UnnormalizedCompanyIsOutside`), and an answer stored under such a scope applies nowhere
  (`Scopes.OtherScopesApplyNowhere`). The program itself never sends one: all three places that pass a scope on
  normalize it first (`cmd/dashboard/assisted_answers_api.go:225-237`), and every scope they produce lies in some form's
  chain (`Scopes.RequestedScopeApplies`).
* Per-job questions are said never to be reusable answers (`pkg/answers/model.go:38-42`) and a group read as per-job
  cannot be declared absent (`pkg/knowledge/knowledge.go:791-794`); but such a group can be approved, because an approval
  does not look at the group's policy (`pkg/knowledge/knowledge.go:710-716`). It is accepted only if the question it is
  approved as -- the canonical wording, on the first occurrence's control unless one is a text area, at the group's
  company if there is just one -- does not classify as per-job (`KnowledgeApproval.ApprovalAcceptedExactly`). Under the
  program's word lists one employer asking "why" as a choice and again in a text box makes such a group
  (`KnowledgeWitness.PerJobGroupIsApproved`).
* And so a per-job question can fill by itself, with an answer given to another question: the text box of that queue does
  (`KnowledgeWitness.PerJobQuestionFills`), because escalation knows only declarations
  (`pkg/answers/resolve.go:95-104`). Exactly when, is `VaultCaveats.PerJobFillsExactly`.
* "Exactly one probe ... until that probe resolves" (`cmd/agent/circuit_breaker.go:61-64`) fails when a straggler reports
  first: from an idle breaker two probes get in flight together (`BreakerProtocol.TwoProbesAtOnce`). It holds, in every
  continuation, exactly when no request to the domain was in flight when the probe was admitted
  (`BreakerProtocol.ProbeAloneIffNoStragglers`). Probes are a cooldown apart in any case
  (`BreakerProtocol.ProbesAreSpaced`).
* "No positive claim of remote work at all" is said to reject (`pkg/config/eligibility.go:172-178`), but the bare word in
  the description is enough, as a later comment there says (`Screening.MentionIsEnough`; exactly when, by
  `Screening.RemoteIsWholeWords`).
* A line that fits is reported as truncated although nothing was lost exactly when its line ending does not fit
  (`LineReader.LossIffTooLong`, `LineReader.TruncatedWithoutLoss`).
* `Save` returns the current time as the approval date although the row keeps its first one
  (`pkg/answers/store.go:111-119`, `pkg/answers/store.go:143-148`). A second approval shows it
  (`VaultWitness.StaleDateHappens`); the date returned is the stored one exactly when the question had no row in the
  scope or one approved at that moment (`VaultRuns.ReturnedDateIsStoredExactly`).
* Extending an empty country allowlist is no loosening: a posting for exactly the role asked for, accepted while no
  country is required, is turned away by the first country allowed (`Screening.FirstCountryTurnsAway`). Exactly which
  accepted postings survive it is `Screening.FirstCountryIsStricter`.

## Model

| member | source | states |
|---|---|---|
| Normalizer.StripMarkup | pkg/answers/normalize.go:69-86 | the rune loop with its nesting depth computes the text outside angle brackets |
| Normalizer.TagIsBlank | pkg/answers/normalize.go:64-86 | a tag, whatever it holds, counts as one blank between the texts around it |
| Normalizer.NestedTagIsDropped | pkg/answers/normalize.go:64-86 | a tag inside a tag belongs to it, and so does the text between the two closing brackets |
| Normalizer.StrayBracketIsBlank | pkg/answers/normalize.go:64-86 | a closing bracket that closes nothing counts as a blank |
| Normalizer.UnclosedTagIsDropped | pkg/answers/normalize.go:64-86 | a tag never closed takes the rest of the text with it |
| Normalizer.NormalizeText | pkg/answers/normalize.go:46-62 | the marker and stop-word loops compute the normal form the laws are about |
| Normalizer.MarkersGone | pkg/answers/normalize.go:33-51 | after the pass over all required/optional markers none occurs, although each is removed before the next |
| Normalizer.NormalizedWords | pkg/answers/normalize.go:46-62 | every output word is alphanumeric, no stop word, and contains no marker |
| Normalizer.KeepsEveryOtherWord | pkg/answers/normalize.go:46-62 | every word of the cleaned text that is no stop word is kept, in order and as often as it stands there |
| Normalizer.CompanyKeepsItsWords | pkg/answers/normalize.go:115-137 | a company's name keeps exactly its words that are no legal-form suffix |
| Normalizer.NormalizeIdempotent | pkg/answers/normalize.go:46-62 | normalizing a normalized text changes nothing, for every input text |
| Normalizer.NormalizeIgnoresPadding | pkg/answers/normalize.go:46-48 | surrounding white space changes neither the words nor the key |
| Normalizer.TokensAreKeptWords | pkg/answers/normalize.go:89-95 | splitting the normal form on blanks gives back exactly the words that were joined |
| Normalizer.KeysIdentifyQuestions | pkg/answers/normalize.go:97-113 | two questions share a key exactly when they normalize alike or are both over-long and collide under the digest; a shortened key never meets a readable one |
| Normalizer.KeyIsReadableExactly | pkg/answers/normalize.go:97-113 | the key is the normal form itself exactly up to 160 characters, and otherwise its beginning with the digest of the whole |
| Normalizer.EmptyKeyMeansNoWords | pkg/answers/normalize.go:102-106 | the key is empty exactly when no word is left |
| Experience.ReadSubject | pkg/answers/experience.go:87-116 | the token loop with its two flags computes the subject |
| Experience.SubjectExactly | pkg/answers/experience.go:87-116 | on the tokens: there is a subject exactly when some token is a duration word, some token is a subject word, and some token is neither generic nor the company's; it is the remaining words in order |
| Resolver.NoSkillAnswerWithoutBoth | pkg/answers/resolve.go:126-145 | for every vault, a question with no duration word, or with no subject word, never resolves through a skill |
| KnowledgeMeaning.NoSkillGroupWithoutBoth | pkg/knowledge/knowledge.go:282-292 | immediate: and never has a skill's key |
| Experience.SkillReductionUndoesPrinter | pkg/answers/experience.go:87-128 | for every question with a subject, its printed canonical question has the same subject, with or without the company |
| Experience.PrintedSubjectReduces | pkg/answers/experience.go:87-128 | any list of subject words, printed as a question, reduces to itself |
| Experience.SkillKeyIdentifiesSubject | pkg/answers/experience.go:130-136 | all phrasings of one skill share one key, and the key determines the skill up to collisions of over-long texts |
| SourceTables.ShippedPatternsAreSound | pkg/answers/patterns.go:52-378 | no curated pattern of the program is per-job, as every law about runs assumes of its tables |
| SourceTables.SourceWordsAreSound | pkg/answers/normalize.go:19-35 | the shipped stop words, markers and experience word lists meet every assumption the laws make about word lists |
| Recognizers.ClassifyQuestion | pkg/answers/sensitivity.go:66-102 | the token-set loops, the company's words deleted, compute the classification |
| Recognizers.ClassifiesExactly | pkg/answers/sensitivity.go:66-102 | a declaration exactly when the question has no word of its own or a declaration's; otherwise per-job exactly for an essay's word in free text or a text area of 120 characters |
| Recognizers.FindPattern | pkg/answers/patterns.go:414-430 | the table loop finds the first matching pattern |
| Recognizers.FirstMatchIsFirst | pkg/answers/patterns.go:414-430 | the pattern found matches and nothing before it does; none is found only if none matches |
| Recognizers.MatchesExactly | pkg/answers/patterns.go:432-460 | a pattern matches exactly when it asks for something, each group has a word in the prompt, no denied word is there, and its own refusal does not apply |
| Recognizers.CanonicalIsFirst | pkg/answers/resolve.go:283-292 | a pattern identifier's wording is that of the first pattern with it |
| Recognizers.OnlyNormalizedTextMatters | pkg/answers/normalize.go:37-46 | two wordings with the same normal form are classified, recognised, reduced and keyed alike |
| Vault.ApprovedRowIsSound | pkg/answers/store.go:107-123 | the row an approval writes holds the request's content, is live, and is never a reusable declaration without operator provenance |
| Vault.BoundAliases | pkg/answers/store.go:328-339 | binding adds one alias in the row's scope for each recognizable phrasing, and disturbs no other alias |
| Vault.StoreAnswer | pkg/answers/store.go:97-141 | keeps every table invariant, moves no row, and lands on the row the unique index holds for (key, scope) |
| Vault.Save | pkg/answers/store.go:185-228 | an accepted save keeps every table invariant and moves no row |
| Vault.SaveAbsence | pkg/answers/store.go:258-275 | an accepted absence keeps every table invariant and moves no row |
| Vault.AddAliases | pkg/answers/store.go:299-344 | accepted bindings keep every alias on a live row of its own scope |
| Vault.UpdateAnswer | pkg/answers/store.go:398-441 | an accepted edit keeps every table invariant |
| Vault.Revoke | pkg/answers/store.go:446-466 | an accepted revocation keeps every table invariant: no alias is left behind |
| Vault.SeedFromPii | pkg/answers/resolve.go:235-273 | seeding keeps every table invariant and moves no row |
| VaultStore.Store.constructor | pkg/answers/store.go:15-66 | a new store is empty and valid |
| VaultStore.Store.Upsert | pkg/answers/store.go:107-128 | insert-or-update through the unique index; answers the row's identifier |
| VaultStore.Store.StoreApprovedAnswer | pkg/answers/store.go:97-149 | the whole new state: one row written, and the exact phrasing bound when reuse is granted; and the answer returned, dated now |
| VaultStore.Store.SaveAnswer | pkg/answers/store.go:185-228 | accepts and refuses exactly as specified, and the answer returned; a refusal leaves the vault untouched |
| VaultStore.Store.SaveAbsenceAnswer | pkg/answers/store.go:258-275 | the same for an intentional absence |
| VaultStore.Store.AddPhrasings | pkg/answers/store.go:299-344 | the loop binds exactly the recognizable phrasings, answers how many, and refuses without effect |
| VaultStore.Store.DropAliases | pkg/answers/store.go:427-431 | removes exactly the aliases of one row |
| VaultStore.Store.Update | pkg/answers/store.go:398-441 | the whole new state of an edit and the row returned as stored, or a refusal without effect |
| VaultStore.Store.Withdraw | pkg/answers/store.go:446-466 | the whole new state of a revocation, or a refusal without effect |
| VaultStore.Store.SeedFact | pkg/answers/resolve.go:243-271 | one fact is inserted exactly when it is configured, has a wording, and its key has no row |
| VaultStore.Store.Seed | pkg/answers/resolve.go:235-273 | the table loop; the count answered is the number of rows inserted |
| VaultStore.Store.RecordUse | pkg/answers/store.go:524-531 | bumps one row's counters and nothing else |
| VaultStore.Store.FindInScope | pkg/answers/resolve.go:40-50 | alias, then own key, then skill reduction, in one scope |
| VaultStore.Store.FindByKey | pkg/answers/resolve.go:147-159 | finds the live row of a key in a scope, if any |
| VaultStore.Store.ResolveQuestion | pkg/answers/resolve.go:38-56 | the scope loop resolves as specified and changes nothing but one row's counters |
| VaultStore.Store.ResolveAll | pkg/answers/resolve.go:192-211 | a whole form, split as specified, each question resolved against the vault as it was |
| VaultStore.SplitIsSafe | pkg/answers/resolve.go:183-211 | every question lands in exactly one half with its own resolution, in order; every filled declaration names a live row with a grant |
| Resolver.ScopeChainShape | pkg/answers/resolve.go:15-24 | one to three scopes, none twice, company first and global last |
| Resolver.NarrowestAndMostExactWins | pkg/answers/resolve.go:38-56 | a company approval beats every wider one; alias beats key beats skill |
| Resolver.ChainHitAt | pkg/answers/resolve.go:38-50 | a hit in a scope decides when every narrower scope has none |
| Resolver.ResolutionIsSafe | pkg/answers/resolve.go:38-104 | a sensitive question never resolves as less; a sensitive automatic fill names a live row with a grant and never a pattern; an absence never fills a required field |
| Resolver.FillsOnlyWhatIsKnown | pkg/answers/resolve.go:168-181 | an automatic fill says exactly what a granted row of the chain, or the operator's own configuration, says |
| Resolver.HitResolvesExactly | pkg/answers/resolve.go:38-104 | every field of the resolution a hit gives, by the row and by how the question classifies |
| Resolver.PatternResolvesExactly | pkg/answers/resolve.go:38-104 | every field of the resolution when nothing is stored: known exactly when the first matching pattern has a configured fact |
| Resolver.ResolveIgnoresUse | pkg/answers/resolve.go:161-171 | no resolution depends on how often an answer was used |
| VaultRuns.ReachableStatesAreValid | pkg/answers/store.go:20-45 | in every reachable state the index is exact, no row is per-job, every reusable declaration has operator provenance, and every alias points to a live row of its own scope |
| VaultRuns.GrantsTraceToOperator | pkg/answers/store.go:185-275 | every reusable declaration, in every run, began with a save or absence carrying both the decision and the grant, and has been one ever since |
| VaultRuns.FilledDeclarationWasGranted | pkg/answers/resolve.go:161-181 | whenever a row stored as a declaration fills by itself, in any run, that history exists |
| VaultRuns.FilledAnswerWasGranted | pkg/answers/resolve.go:161-181 | every stored answer that fills by itself, whatever it is stored as, was granted by a save, absence or edit and neither withheld nor revoked since |
| VaultRuns.UseStep | pkg/answers/store.go:185-466 | an answer that fills after a command did so before it or was granted by it |
| VaultRuns.ReturnedDateIsStoredExactly | pkg/answers/store.go:143-148 | the approval date a save returns is the stored one exactly when the question had no row there, or one approved at that moment |
| VaultRuns.StepOnRow | pkg/answers/store.go:394-466 | a command that does not approve a row neither revives it nor ends it, except by revoking it, and never grants it |
| VaultRuns.ApprovalCarriesGrant | pkg/answers/store.go:212-217 | an approval that leaves a reusable declaration carried the decision and the grant |
| VaultRuns.RevivedOnlyByApproval | pkg/answers/store.go:104-123 | a revoked row is live again exactly when a command approves an answer on it |
| VaultRuns.RevocationIsSticky | pkg/answers/store.go:443-466 | after a revocation no question is answered from the row, and no alias points to it, in any continuation that approves nothing on its key and scope |
| VaultRuns.SeedOnlyInserts | pkg/answers/resolve.go:226-273 | seeding alters no existing row and no alias, and withholds reuse on every row it adds |
| VaultRuns.ReseedingInsertsNothing | pkg/answers/resolve.go:231-234 | seeding the same facts again, after any continuation, changes nothing |
| VaultRuns.SeedingIsExact | pkg/answers/resolve.go:235-273 | what seeding leaves: every row that was there untouched, and one unreleased row for each configured fact whose key had none |
| VaultRuns.ApprovalWritesOneRow | pkg/answers/store.go:104-123 | an approval writes exactly one row: the request's content under the identity, first date and counters of the row that was there |
| VaultRuns.AbsenceWritesOneRow | pkg/answers/store.go:258-275 | an absence writes one row in the same way: its reason, always as the operator's own decision |
| VaultRuns.EditsStayWithinTheRules | pkg/answers/store.go:387-441 | immediate: an edit touches only text, grant, provenance and date of one row, never grants a declaration, and drops the aliases with the grant |
| VaultRuns.EditRefusedExactly | pkg/answers/store.go:398-441 | immediate: which edits are refused, and with which refusal |
| VaultRuns.RevokingIsExact | pkg/answers/store.go:446-466 | immediate: the whole state after a revocation, and when it is refused |
| VaultRuns.BindingIsExact | pkg/answers/store.go:299-344 | which aliases a binding leaves, and where each points |
| VaultRuns.BindingRefusedExactly | pkg/answers/store.go:299-322 | immediate: which bindings are refused, and with which refusal; nothing to bind is never refused |
| VaultRuns.UseIsCountedOnce | pkg/answers/store.go:524-531 | immediate: resolving counts one use, at that moment, on the reusable row that answers, and changes nothing else |
| VaultCaveats.WithheldReuseKeepsAlias | pkg/answers/store.go:132-139 | approving with reuse withheld removes no alias, even of the row now withheld |
| VaultCaveats.RaisedPerJobIsStored | pkg/answers/store.go:201-217 | exactly when a per-job question is stored after all, and as what |
| VaultCaveats.PerJobFillsExactly | pkg/answers/resolve.go:38-104 | exactly when a per-job question fills by itself: a granted row is hit that is no absence on a required field, or nothing is hit and a routine pattern has a fact |
| VaultCaveats.GrantsKeptExactly | pkg/answers/store.go:97-149 | while every alias points to a granted row, a command keeps that exactly unless it is an accepted approval withholding reuse on a row some alias points to |
| VaultCaveats.StoreRowKeepsGrants | pkg/answers/store.go:107-139 | the same for one stored row: granted, or pointed to by no alias |
| VaultCaveats.UnstrandedRunKeepsGrants | pkg/answers/store.go:97-149 | in a run without such a command an alias implies a grant throughout |
| VaultCaveats.DeclarationFilledFromRoutineRow | pkg/answers/resolve.go:38-104 | exactly when a declaration fills from a row not stored as one: the first hit is a granted routine row, however it was found, the question classifies as a declaration, and it is no absence on a required field |
| VaultWitness.AliasWithoutGrantHappens | pkg/answers/store.go:132-139 | a run from an empty vault, under the program's tables, to an alias whose row is not granted |
| VaultWitness.DeclarationFromRoutineHappens | pkg/answers/sensitivity.go:77-92 | a run of one routine approval after which the same words, asked elsewhere, fill a declaration |
| VaultWitness.RaisedPerJobHappens | pkg/answers/store.go:201-217 | a per-job question, under the program's word lists, that is stored |
| VaultWitness.StaleDateHappens | pkg/answers/store.go:143-148 | a second approval returns a date the row does not have |
| VaultWitness.WordingClassifies | pkg/answers/sensitivity.go:66-92 | the same words are routine on the form of the company they name and a declaration on another's |
| GroupRecords.GroupRecord.constructor | pkg/knowledge/knowledge.go:334-345 | the record a first occurrence opens |
| GroupRecords.GroupRecord.Merge | pkg/knowledge/knowledge.go:396-434 | the whole new state of a record after one more occurrence |
| GroupRecords.GroupRecord.CountIn | pkg/knowledge/knowledge.go:397-408 | counts the occurrence and lists its application, company and wording at most once |
| GroupRecords.GroupRecord.TakeAnswer | pkg/knowledge/knowledge.go:412-423 | the strictest reading wins, and the first answer stays |
| GroupRecords.GroupRecord.TakeControl | pkg/knowledge/knowledge.go:409-433 | required if any occurrence is, free text over choices, option sets collected |
| GroupRecords.GroupRecord.Finish | pkg/knowledge/knowledge.go:438-466 | lists sorted, and the shortest phrasing as the label |
| GroupRecords.MergeOptions | pkg/knowledge/knowledge.go:483-500 | the loop over a set of seen keys adds exactly the options not offered before, whatever their casing |
| GroupRecords.OpenRecord | pkg/knowledge/knowledge.go:337-346 | adds a record of its own for a group that has none |
| GroupRecords.MergeInto | pkg/knowledge/knowledge.go:347 | folds an occurrence into one group's record; no other group changes |
| GroupRecords.FinishOne | pkg/knowledge/knowledge.go:351-366 | finishing one record disturbs no other and changes nothing it is counted by |
| KnowledgeLaws.CollectGroups | pkg/knowledge/knowledge.go:313-348 | the pass builds, for every key, the group of exactly the pending questions with that key |
| KnowledgeLaws.CollectCounts | pkg/knowledge/knowledge.go:313-333 | unresolved, absences, applications and blocked applications are counts of questions of the queue |
| KnowledgeLaws.GroupReadsStrictest | pkg/knowledge/knowledge.go:412-414 | a group's sensitivity is the strictest any occurrence got, and it counts every occurrence |
| KnowledgeLaws.GroupRecordsSignatures | pkg/knowledge/knowledge.go:468-481 | the recorded option sets are those of the members that offer options, whatever their order and casing |
| KnowledgeLaws.GroupRecordsPhrasings | pkg/knowledge/knowledge.go:405-408 | the phrasings are exactly the distinct trimmed wordings of the members |
| KnowledgeLaws.GroupRecordsFlags | pkg/knowledge/knowledge.go:409-427 | required, and knowing of an absence, exactly when some member is |
| KnowledgeLaws.GroupRecordsApplications | pkg/knowledge/knowledge.go:398-401 | each application of a member is listed exactly once |
| KnowledgeLaws.GroupRecordsCompanies | pkg/knowledge/knowledge.go:402-404 | each company named by a member is listed exactly once |
| KnowledgeLaws.GroupSuggestsAnAnswer | pkg/knowledge/knowledge.go:415-419 | a group suggests only what the vault answered for one of its members |
| KnowledgeMeaning.GroupedExactly | pkg/knowledge/knowledge.go:282-292 | immediate: two questions share a group exactly when one pattern answers to both; or none does and they ask about one skill; or neither and their keys are equal |
| KnowledgeMeaning.GroupSuggestsFirst | pkg/knowledge/knowledge.go:415-423 | a group suggests the first answer the vault has for a member, and its source; none exactly when it has none |
| KnowledgeMeaning.GroupOffersOptions | pkg/knowledge/knowledge.go:483-500 | a group offers exactly the options its members offer, up to case and blanks |
| KnowledgeMeaning.GroupListsOnce | pkg/knowledge/knowledge.go:483-500 | and each of them once |
| KnowledgeMeaning.SignatureExactly | pkg/knowledge/knowledge.go:468-481 | two offers count as the same choices exactly when they hold the same options as often, up to order, case and blanks |
| KnowledgeMeaning.GroupKeepsControl | pkg/knowledge/knowledge.go:424-433 | a group is answered in a text area when any member is, otherwise in the first member's control |
| KnowledgeMeaning.PolicyExactly | pkg/knowledge/knowledge.go:438-450 | immediate: by sensitivity first; a routine group by whether and how the vault knows an answer |
| KnowledgeMeaning.LabelIsShortest | pkg/knowledge/knowledge.go:452-460 | the label is the first of the shortest wordings |
| KnowledgeMeaning.ShownInOrder | pkg/knowledge/knowledge.go:451-466 | a shown group lists each wording, application and employer once, in order, and nothing else |
| KnowledgeMeaning.PrecedesExactly | pkg/knowledge/knowledge.go:451-466 | that order: a proper beginning first, otherwise the first difference decides |
| KnowledgeMeaning.EmployerExactly | pkg/knowledge/knowledge.go:628-642 | a group is approved on behalf of an employer exactly when its questions name that one and no other |
| KnowledgeLaws.ReadinessIgnoresOrder | pkg/knowledge/knowledge.go:294-393 | every reordering of the queue gives the same readiness |
| KnowledgeLaws.OccurrencesAddUp | pkg/knowledge/knowledge.go:328-348 | the groups' occurrences add up to the unresolved questions |
| KnowledgeLaws.ReadinessFitsTogether | pkg/knowledge/knowledge.go:191-200 | resolved and unresolved make up the fields, unlockable fields and decisions stay within what is unresolved, and the known share lies in 0..100 |
| KnowledgeMeaning.FiguresMean | pkg/knowledge/knowledge.go:351-369 | every figure about questions, said of the queue: keys of pending questions, keys read as declarations or per-job, keys and questions one answer settles |
| KnowledgeMeaning.ApplicationsMean | pkg/knowledge/knowledge.go:313-392 | every application counted once, queued or discovered, and each blocked one once; unresolved and absent questions counted |
| KnowledgeMeaning.FieldsMean | pkg/knowledge/knowledge.go:370-392 | fields are those discovered, and those asked where nothing was; never fewer than the unresolved |
| KnowledgeMeaning.KnownPercentExactly | pkg/knowledge/knowledge.go:190-200 | the known share is the whole part: 100 exactly when something is discovered and nothing unresolved, 0 when nothing is resolved |
| KnowledgeApproval.ApprovalResolvesGroup | pkg/knowledge/knowledge.go:644-753 | after an accepted approval every queued question of the group whose chain reaches the stored scope resolves by itself to exactly that answer and is in no group |
| KnowledgeApproval.ApprovalAcceptedExactly | pkg/knowledge/knowledge.go:700-754 | exactly when an approval is accepted: an answer for reuse, the group still shown with equal choices and a recognizable wording, not per-job, and a declaration only with the second acknowledgement |
| KnowledgeApproval.AbsenceAcceptedExactly | pkg/knowledge/knowledge.go:774-809 | exactly when an absence is accepted, differing choices allowed and per-job readings refused |
| KnowledgeApproval.ApprovalStoresExactly | pkg/knowledge/knowledge.go:728-754 | the row an accepted approval stores: the trimmed answer, under the group's wording and the requested scope, operator-approved exactly when it equals the suggestion shown and operator-edited otherwise |
| KnowledgeApproval.AbsenceStoresExactly | pkg/knowledge/knowledge.go:774-809 | the row an accepted absence stores: the reason, as the operator's own decision |
| KnowledgeApproval.ApprovalRefusedExactly | pkg/knowledge/knowledge.go:700-727 | immediate: every refusal of an approval, and when it is given |
| KnowledgeApproval.GroupAbsenceRefusedExactly | pkg/knowledge/knowledge.go:774-794 | immediate: every refusal of an absence of a group; different choices are no obstacle |
| KnowledgeWitness.PerJobGroupIsApproved | pkg/knowledge/knowledge.go:710-716 | under the program's word lists, a queue whose only group is read as per-job, is worded as a per-job question in it, and is approved |
| KnowledgeWitness.PerJobQuestionFills | pkg/answers/resolve.go:95-104 | that question then fills by itself |
| KnowledgeWitness.ApprovalHappens | pkg/knowledge/knowledge.go:644-753 | under the program's word lists, a queue and a request for which everything the approval law assumes holds |
| KnowledgeApproval.AbsenceResolvesOptionalFields | pkg/knowledge/knowledge.go:774-808 | after a declared absence such a question is settled exactly when it is optional, and stays pending when it is required |
| KnowledgeApproval.UnconfirmedBindsNothingMore | pkg/knowledge/knowledge.go:663-667 | immediate: without the confirmation a declaration gains no further phrasing |
| KnowledgeApproval.ApprovedWordingResolves | pkg/answers/store.go:130-139 | once approved for reuse, a wording resolves by alias for whoever asks it |
| KnowledgeApproval.SkillApprovalCoversEveryPhrasing | pkg/answers/resolve.go:126-145 | one approval of a skill answers every phrasing that reduces to it, with or without aliases |
| KnowledgeApproval.ApprovalTouchesOnlyItsScope | pkg/answers/resolve.go:11-24 | a form whose scopes do not include the approval's resolves every question as before |
| KnowledgeReach.ApprovalReachesExactly | pkg/knowledge/knowledge.go:644-753 | an approval answers exactly the questions its filing reaches, decided before it, and changes no other resolution |
| KnowledgeReach.ClaimedIsReached | pkg/answers/resolve.go:38-50 | reached: the chain comes to the stored scope with nothing narrower in the way, and there the wording, key or skill leads to the row |
| KnowledgeReach.HitInScope | pkg/answers/resolve.go:40-50 | in its own scope a filed row answers exactly the questions that claim it, by alias, key or skill |
| KnowledgeReach.HitAlongChain | pkg/answers/resolve.go:38-50 | along a chain a filed row answers exactly the questions that claim it; every other hit is as it was |
| KnowledgeReach.GroupIsReached | pkg/knowledge/knowledge.go:644-753 | the questions the approval law speaks of are among those reached |
| KnowledgeReach.ApprovalTakesNothing | pkg/knowledge/knowledge.go:694-754 | a question that filled by itself before an approval still does |
| KnowledgeReach.ApprovalCounts | pkg/knowledge/knowledge.go:672-678 | after an approval the unresolved questions are fewer, and the resolved more, by exactly those it settles |
| KnowledgeReach.AbsenceReachesExactly | pkg/knowledge/knowledge.go:774-809 | an absence decides exactly the questions it reaches, optional ones settled and required ones left, and changes no other resolution |
| KnowledgeReach.AbsenceTakesExactly | pkg/answers/resolve.go:58-74 | an absence takes an answer away exactly from the required fields it reaches |
| KnowledgeReach.AbsenceUnboundExactly | pkg/knowledge/knowledge.go:796-809 | an unconfirmed absence binds nothing more exactly when its canonical question is a declaration or nothing is left to bind; how the group was read does not count |
| KnowledgeReach.ApprovalUnboundExactly | pkg/knowledge/knowledge.go:728-754 | an unconfirmed approval binds nothing more exactly when group or canonical question is a declaration or nothing is left to bind |
| Scopes.ScopesOfForms | pkg/answers/resolve.go:15-24 | a scope lies in some form's chain exactly when it is global or a name in normal form behind its prefix |
| Scopes.NormalizeCompanyIdempotent | pkg/answers/normalize.go:115-137 | a normalized company name is its own normal form |
| Scopes.LowerTrimIdempotent | pkg/answers/model.go:96-102 | so is a lower-cased trimmed provider name |
| Scopes.RequestedScopeApplies | cmd/dashboard/assisted_answers_api.go:221-237 | whatever scope a request names, what it is stored under lies in some form's chain |
| Scopes.RequestNamesItsForms | cmd/dashboard/assisted_answers_api.go:225-237 | a request for a company is stored under the scope its forms try first, one for an application system under one its forms try, any other everywhere |
| Scopes.PaddedScopeIsStored | pkg/answers/store.go:167-170 | the vault drops only the blanks around a scope, and takes an empty one as everywhere |
| Scopes.RequestKeepsExactlyFormScopes | cmd/dashboard/assisted_answers_api.go:221-237 | a request keeps a scope exactly when it lies in some form's chain, and the vault stores it as it is |
| Scopes.OtherScopesApplyNowhere | pkg/answers/store.go:167-170 | an approval under any other scope changes no resolution on any form |
| Scopes.CompanyNameAsGiven | pkg/answers/store.go:167-170 | a company's name stored as given lies in some form's chain exactly when it is its own normal form |
| Scopes.UnnormalizedCompanyIsOutside | pkg/knowledge/knowledge.go:583-585 | such a scope that no form is asked in, whatever the tables |
| KnowledgeApproval.SaveAcceptsExactly | pkg/answers/store.go:155-222 | an answer is stored exactly when question and answer have words, it is not per-job, and a declaration comes from the operator with the decision and the grant |
| KnowledgeApproval.SaveRefusedExactly | pkg/answers/store.go:155-228 | every refusal of a save, and when it is given |
| KnowledgeApproval.AbsenceRefusedExactly | pkg/answers/store.go:155-275 | every refusal of an absence |
| KnowledgeApproval.SaveFiles | pkg/answers/store.go:185-228 | an accepted save with reuse leaves a live granted row with the trimmed answer, found by alias under its own wording |
| KnowledgeApproval.SavedUnderKey | pkg/answers/store.go:171-173 | and found by key |
| KnowledgeApproval.SaveRequiresGrant | pkg/knowledge/knowledge.go:728-733 | an accepted approval always carries the grant |
| KnowledgeApproval.PendingIsInGroup | pkg/knowledge/knowledge.go:326-347 | a pending question is shown under its group, its wording among the phrasings |
| KnowledgeService.Service.ResolveQueued | pkg/knowledge/knowledge.go:618-623 | resolving a queued question bumps counters and nothing else |
| KnowledgeService.Service.WalkQueue | pkg/knowledge/knowledge.go:313-348 | the loop over the queue, with a record per group, mirrors the specified pass; records are never shared |
| KnowledgeService.Service.WalkNext | pkg/knowledge/knowledge.go:313-347 | one turn of that loop |
| KnowledgeService.Service.FoldIn | pkg/knowledge/knowledge.go:334-347 | opens a record or updates the one there; every other group is untouched |
| KnowledgeService.Service.CollectQueue | pkg/knowledge/knowledge.go:294-393 | the finished groups and the readiness figures of the queue as it was |
| KnowledgeService.TallyGroups | pkg/knowledge/knowledge.go:351-369 | finishes every group and counts the four figures, in whatever order the map yields them |
| KnowledgeService.Service.ReadFigures | pkg/knowledge/knowledge.go:370-392 | fields from inspected and uninspected applications, never below what is unresolved |
| KnowledgeService.AddUp | pkg/knowledge/knowledge.go:372-382 | the sum of a map's values does not depend on the order they are visited in |
| KnowledgeService.Service.ReadQueue | pkg/knowledge/knowledge.go:531-535 | the readiness figures on their own |
| KnowledgeService.Service.ReEvaluate | pkg/knowledge/knowledge.go:824-851 | the report counts exactly the questions that resolve and those that do not |
| KnowledgeService.ReportAgreesWithInbox | pkg/knowledge/knowledge.go:817-851 | re-evaluation and the inbox agree on how many questions are unresolved, and none falls between |
| KnowledgeService.ReportIgnoresUse | pkg/knowledge/knowledge.go:817-851 | a report does not depend on reuse counters, so neither on earlier passes |
| KnowledgeService.ReportExactly | pkg/knowledge/knowledge.go:824-851 | every question examined once, and every application with a question that resolves by itself once |
| KnowledgeService.Service.LoadGroup | pkg/knowledge/knowledge.go:682-692 | the group of a key as the queue shows it now, or none |
| KnowledgeService.Service.BindPhrasings | pkg/knowledge/knowledge.go:655-670 | the group's other phrasings are bound; only a missing confirmation keeps them out |
| KnowledgeMeaning.PhrasingsAddedExactly | pkg/knowledge/knowledge.go:655-670 | the number reported as added: the phrasings that say something else than the wording filed, none for a declaration without the confirmation |
| KnowledgeMeaning.RecognizableCounts | pkg/answers/store.go:328-344 | binding reports the phrasings with recognizable text, repeated ones included |
| KnowledgeService.Service.FinishApproval | pkg/knowledge/knowledge.go:644-678 | phrasings bound, then the report on the queue against the new vault |
| KnowledgeService.Service.ApproveGroup | pkg/knowledge/knowledge.go:700-754 | the vault of the specified approval up to counters, its identifier, alias count and report, and on the stored row the answer with the provenance the operator earned; a refusal changes nothing but counters |
| KnowledgeService.Service.ApproveGroupAbsence | pkg/knowledge/knowledge.go:774-809 | the same for a declared absence |
| CircuitBreaker.SourceBreaker.constructor | pkg/scraper/circuit_breaker.go:47-49 | a new breaker is closed with no failures |
| CircuitBreaker.SourceBreaker.Allow | pkg/scraper/circuit_breaker.go:55-71 | grants exactly when closed or cooled down, and lets one probe through |
| CircuitBreaker.SourceBreaker.RecordSuccess | pkg/scraper/circuit_breaker.go:75-81 | closes and forgets the failures |
| CircuitBreaker.SourceBreaker.RecordFailure | pkg/scraper/circuit_breaker.go:86-107 | counts, opens at the threshold, reopens a half-open circuit, and never moves the opening time of an open one |
| CircuitBreaker.DomainCircuit.Fail | cmd/agent/circuit_breaker.go:115-131 | counts one failure on a domain's record as the source breaker does on its own |
| CircuitBreaker.DomainBreaker.constructor | cmd/agent/circuit_breaker.go:54-59 | a new breaker has no record |
| CircuitBreaker.DomainBreaker.Allow | cmd/agent/circuit_breaker.go:65-86 | grants as the domain's circuit does; no other domain's record changes |
| CircuitBreaker.DomainBreaker.RecordSuccess | cmd/agent/circuit_breaker.go:90-100 | closes the domain's record if there is one; no other changes |
| CircuitBreaker.DomainBreaker.RecordFailure | cmd/agent/circuit_breaker.go:105-132 | updates or creates the domain's record, shared with no other domain |
| CircuitBreaker.DomainProjectsToSource | cmd/agent/circuit_breaker.go:44-59 | whatever happens on other domains, one domain's circuit and answers are those of a source breaker fed its events alone |
| CircuitBreaker.ClosedIffBelowThreshold | cmd/agent/circuit_breaker.go:102-132 | in every run a circuit is closed exactly while its failures are below the threshold |
| CircuitBreaker.CountsSinceSuccess | cmd/agent/circuit_breaker.go:90-132 | in every run a closed circuit counts exactly the failures on its domain since its last success |
| CircuitBreaker.StreakSinceSuccess | cmd/agent/circuit_breaker.go:90-132 | that streak is the number of failures after the last success, or of all when there is none |
| CircuitBreaker.OpensExactly | pkg/scraper/circuit_breaker.go:75-107 | in every run a circuit has left the closed state exactly when the last five outcomes recorded on the domain are failures |
| CircuitBreaker.OpenSince | cmd/agent/circuit_breaker.go:65-132 | an open circuit opened at one failure, has been open since, and lets a request through exactly 120 seconds after it |
| CircuitBreaker.OnlyFailedDomainsAreKept | cmd/agent/circuit_breaker.go:44-47 | a domain has a record exactly when it has failed at least once |
| BreakerProtocol.AdmissionsAccounted | cmd/agent/pipeline.go:482-500 | while closed and without success, admissions are recorded failures or requests in flight; once open the count stands still |
| BreakerProtocol.AdmissionBound | cmd/agent/pipeline.go:170-185 | W workers get at most threshold - 1 + W requests through before the circuit opens, and every other admission is a probe |
| BreakerProtocol.BoundIsReached | cmd/agent/pipeline.go:170-185 | for every W some run gets exactly that many through |
| BreakerProtocol.AfterProbe | cmd/agent/circuit_breaker.go:61-64 | from a probe to the next success the circuit is never closed and never reopens as of an earlier time |
| BreakerProtocol.ProbesAreSpaced | cmd/agent/circuit_breaker.go:30-33 | until a success, every later admission is a probe at least one cooldown after the one before |
| BreakerProtocol.ProbeAloneIffNoStragglers | cmd/agent/circuit_breaker.go:61-64 | an admitted probe is alone until it is recorded, in every continuation, exactly when no request to the domain was in flight when it was admitted |
| BreakerProtocol.ProberStaysAlone | cmd/agent/circuit_breaker.go:75-82 | without stragglers the circuit stays half-open and admits nobody until the prober records |
| BreakerProtocol.StragglerLetsThrough | cmd/agent/circuit_breaker.go:88-100 | a straggler's success lets another request through while the probe is out |
| BreakerProtocol.TwoProbesAtOnce | cmd/agent/circuit_breaker.go:61-64 | a run from an idle breaker in which two probes of one domain are in flight together |
| BreakerProtocol.HalfOpenWaitsForReport | cmd/agent/circuit_breaker.go:80-82 | a half-open circuit admits nothing, at any time, until some request to the domain is reported |
| BreakerProtocol.StragglersDoNotDelayProbe | cmd/agent/circuit_breaker.go:122-131 | failures reported late never move the opening time: the first request at or after opening plus cooldown is admitted, and none before |
| BreakerProtocol.InterleavingProjectsToSource | cmd/agent/pipeline.go:220-247 | however workers interleave, each domain's circuit is that of a source breaker that saw its calls alone |
| BreakerProtocol.InterleavedOpensExactly | cmd/agent/pipeline.go:220-247 | the same under every interleaving of workers: open exactly when the last five outcomes failed, and the count is that since the last success |
| Ranking.AverageRanks | benchmark/job_fit/metrics.py:10-22 | the sweep over tie groups gives every element its rank: those below it plus half of those it ties with |
| Ranking.StretchRank | benchmark/job_fit/metrics.py:14-20 | a maximal stretch of equal sorted values has the mean of its positions as rank |
| Ranking.RanksFollowValues | benchmark/job_fit/metrics.py:10-22 | ranks order elements exactly as values do, ties included |
| Ranking.RanksSum | benchmark/job_fit/metrics.py:10-22 | ranks sum to n(n-1)/2, however many values tie |
| Ranking.NegationReversesRanks | benchmark/job_fit/metrics.py:10-22 | negating all values turns rank r into n-1-r |
| Ranking.RankPercentiles | benchmark/job_fit/metrics.py:100-107 | scaled ranks, all in the unit interval; a single value sits in the middle |
| Ranking.PairwiseAccuracy | benchmark/job_fit/metrics.py:48-65 | the two nested loops compute the credited share of comparable pairs |
| Ranking.ReversedScoresComplement | benchmark/job_fit/metrics.py:48-65 | accuracy lies in the unit interval, and reversing the scores turns a into 1-a |
| Ranking.PerfectExactly | benchmark/job_fit/metrics.py:48-65 | accuracy is one exactly when the scores order every pair as the labels do |
| Ranking.ConstantScoresAreHalfRight | benchmark/job_fit/metrics.py:58-65 | scores that are all alike are half right |
| Ranking.DefinedExactly | benchmark/job_fit/metrics.py:48-65 | there is an accuracy exactly when each item has its score and two labels differ |
| Ranking.PercentileIsMonotone | internal/benchmarkjobfit/database.go:192-204 | interpolated percentiles grow with the quantile and stay within the data |
| Ranking.BetweenNeighbours | benchmark/job_fit/metrics.py:110-117 | an interpolated percentile lies between its two neighbours |
| Ranking.InterpolatesExactly | internal/benchmarkjobfit/database.go:192-204 | a percentile is the data where it falls on the data, and runs straight between neighbours |
| Ranking.QuantileOfPosition | internal/benchmarkjobfit/database.go:192-204 | the i-th of n sorted values, from nought, is the quantile i/(n-1) |
| Ranking.MedianIsMiddle | benchmark/job_fit/metrics.py:110-117 | the median is the middle value, or the mean of the middle two |
| Distribution.SummarizeDistribution | internal/benchmarkjobfit/database.go:145-190 | exact extremes, mean, percentiles, counts per band and distinct values, of the scores in any order |
| Distribution.BandsSplitScores | internal/benchmarkjobfit/database.go:165-178 | the bands split the scores without gap or overlap, and the top counts are nested |
| Distribution.TotalPermutes | internal/benchmarkjobfit/database.go:149-161 | summing the sorted copy is summing the scores |
| Ndcg.NdcgNeverExceedsOne | benchmark/job_fit/metrics.py:68-83 | for non-negative labels a result is defined exactly when there is a positive label and a positive cutoff, and then lies in the unit interval |
| Ndcg.IdealIsBest | benchmark/job_fit/metrics.py:75-83 | no choice and order of labels gains more, discounted, than as many of the top labels sorted |
| Ndcg.TopGainsMost | benchmark/job_fit/metrics.py:80-82 | no choice of labels gains more than as many from the top |
| Ndcg.PrefixesDecide | benchmark/job_fit/metrics.py:68-72 | summation by parts: gaining no more in every prefix is gaining no more discounted |
| Ndcg.AgreementIsIdeal | benchmark/job_fit/metrics.py:75-83 | scores that agree with the labels rank ideally and score one |
| Ndcg.RankedExactly | benchmark/job_fit/metrics.py:75-80 | ranking puts each item once, higher scores first and the earlier of two equal ones first |
| Ndcg.CutoffDecides | benchmark/job_fit/metrics.py:78-83 | nothing ranked after position k counts, in the numerator or in the denominator |
| Ndcg.WholeListCutsNothing | benchmark/job_fit/metrics.py:78-83 | a cutoff beyond the list is the cutoff at its end |
| Ndcg.NothingOnTop | benchmark/job_fit/metrics.py:78-83 | when the k highest-scored items have label 0 and some label is positive, the value is 0 |
| Ndcg.TopOneDecides | benchmark/job_fit/metrics.py:78-83 | at k = 1 the value is the gain of the first item over the gain of the best |
| Ndcg.ExchangeGains | benchmark/job_fit/metrics.py:68-72 | exchanging two items changes the gain by the product of the differences of their gains and weights |
| Cohort.SelectCandidates | internal/benchmarkjobfit/cohort.go:104-187 | the quota, backfill and round-robin loops terminate and compute the selection the laws are about |
| Cohort.Backfill | internal/benchmarkjobfit/cohort.go:159-173 | the passes with their added flag take what the specification takes |
| Cohort.Weave | internal/benchmarkjobfit/cohort.go:175-182 | the round-robin loop interleaves exactly the picks |
| Cohort.SelectionSize | internal/benchmarkjobfit/cohort.go:104-187 | exactly min(limit, eligible jobs) entries |
| Cohort.SelectionTakesPrefixes | internal/benchmarkjobfit/cohort.go:132-173 | of each band, a prefix of its deterministic order |
| Cohort.SelectionIsChosenFromEligible | internal/benchmarkjobfit/cohort.go:126-132 | no job is invented or repeated |
| Cohort.EveryBandRepresented | internal/benchmarkjobfit/cohort.go:144-183 | every non-empty band is represented when the limit allows it |
| Cohort.SelectionIsProportional | internal/benchmarkjobfit/cohort.go:112-158 | when every band has its share and the shares sum to the limit, each contributes exactly the nearest integer to limit * weight / 120, and at least one |
| Cohort.QuotasAreShares | internal/benchmarkjobfit/cohort.go:147-154 | the quota of a band is that share, or all the band has |
| Cohort.ShareIsUnique | internal/benchmarkjobfit/cohort.go:147-150 | there is only one such share |
| Cohort.SharesAreMet | internal/benchmarkjobfit/cohort.go:144-173 | when the capped shares fit the limit, each band contributes at least its own |
| Cohort.TargetIsWeighted | internal/benchmarkjobfit/cohort.go:112-119 | at the target of 120, when every band has enough, the bands contribute 20, 15, 20, 15, 20 and 30 |
| Cohort.BackfillIsEven | internal/benchmarkjobfit/cohort.go:159-173 | backfill is even: a band receives two fewer than another only when it has nothing left |
| Cohort.ChosenComeFirst | internal/benchmarkjobfit/cohort.go:132-143 | within a band nobody left out comes before anybody chosen, by hash and then identifier |
| Cohort.SelectionTakesTurns | internal/benchmarkjobfit/cohort.go:175-182 | in every prefix no band is more than one job ahead of another that still has jobs to come |
| Cohort.SelectionOpensInOrder | internal/benchmarkjobfit/cohort.go:175-182 | the selection opens with one job of each band that has any, best band first |
| Cohort.BandEdges | internal/benchmarkjobfit/cohort.go:70-86 | the edges of the bands: 60, 80, 90 and 100, and no score apart |
| Cohort.SelectionIgnoresInputOrder | internal/benchmarkjobfit/cohort.go:101-143 | with distinct identifiers the order of the input does not matter |
| Phrases.NormalizeText | pkg/config/location.go:145-155 | the builder loop computes the words joined by single blanks |
| Phrases.PaddedSearchIsWordMatch | pkg/config/location.go:141-181 | padded substring search finds a phrase exactly when its words stand in the text as a contiguous sublist |
| Phrases.PhraseInText | pkg/config/eligibility.go:153-189 | the same for any free text and any table phrase: no phrase is found inside a longer word |
| Screening.CountryCodesFor | pkg/config/location.go:161-190 | stated codes win outright, otherwise named countries; each code once |
| Screening.LocatedCodes | pkg/config/location.go:183-189 | the same codes whatever order the table is visited in |
| Screening.CountryIsWholePhrase | pkg/config/location.go:141-190 | a code is found exactly when a country's words stand in the location as whole words |
| Screening.CodesFoundExactly | pkg/config/location.go:161-190 | if some stated code has two letters, exactly the stated ones are found; otherwise exactly those whose country's words stand whole in the location |
| Screening.StatedCodesWin | pkg/config/location.go:176-181 | then no location text changes the codes or either verdict on geography |
| Screening.StatedCodesDecide | pkg/config/eligibility.go:94-122 | and to the whole gate the location text matters only through remote work |
| Screening.GeographyExactly | pkg/config/location.go:262-287 | allowed without an allowlist or with one code on it, outside with codes but none on it, unknown only with none found |
| Screening.DiscoveryAdmitsAllButOutside | pkg/config/location.go:204-287 | the discovery gate admits exactly what the three-way gate does not place outside |
| Screening.ScreenRemote | pkg/config/eligibility.go:183-206 | the phrase loop decides remote eligibility |
| Screening.RemoteIsWholeWords | pkg/config/eligibility.go:166-206 | remote exactly when no disqualifying phrase stands word for word and remote work is claimed or the word occurs |
| Screening.MentionIsEnough | pkg/config/eligibility.go:190-203 | the bare word in a description makes a posting remote that never claimed to be |
| Screening.ManagementIsWholeWords | pkg/config/title_policy.go:83-103 | a management title exactly when it has a management word, or a management phrase word for word |
| Screening.MatchRoles | pkg/config/title_policy.go:188-229 | the role loop sets both flags as specified |
| Screening.SharedWord | pkg/config/title_policy.go:218-226 | the word loop finds a distinctive shared word, "platform" only before an occupation |
| Screening.RolePhraseIsSublist | pkg/config/title_policy.go:214-217 | a role matches exactly when its words stand in the title's; the equality test adds nothing |
| Screening.WordMatchExactly | pkg/config/title_policy.go:188-229 | a role matches by word exactly when its words do not stand together but a distinctive word is shared, "platform" only before an occupation |
| Screening.StretchIsWholeWord | pkg/config/title_policy.go:107-115 | a stretch title exactly when a stretch word stands in it |
| Screening.AnyRoleMatches | pkg/config/title_policy.go:188-229 | a title matches a list of roles exactly when it matches one of them |
| Screening.TitleFits | pkg/config/title_policy.go:132-153 | immediate: which fit a title gets: stretch before primary before adjacent |
| Screening.ScreenExactly | pkg/config/eligibility.go:94-122 | accepted exactly when every condition holds on its own; none makes up for another |
| Screening.ReasonIsFirst | pkg/config/eligibility.go:94-122 | immediate: the reason given is the first that applies, in the order of the gate |
| Screening.OutsideIsFinal | pkg/config/eligibility.go:86-102 | immediate: evidence of being outside is the verdict exactly then, whatever else holds |
| Screening.HeldOnlyForLocation | pkg/config/eligibility.go:89-121 | held for location exactly when the country is unknown and nothing else stands against the posting |
| Screening.LooseningKeepsAccepted | pkg/config/eligibility.go:94-122 | loosening any part of the profile never rejects an accepted job |
| Screening.FirstCountryIsStricter | pkg/config/location.go:262-287 | exactly which accepted jobs survive the first country ever allowed |
| Screening.FirstCountryTurnsAway | pkg/config/location.go:262-287 | a posting for exactly the configured role that the first country turns away |
| LineReader.Reader.constructor | cmd/dashboard/assist_log.go:51 | a reader over a stream in pieces, with any buffer size |
| LineReader.Reader.ReadSlice | cmd/dashboard/assist_log.go:91 | up to the first newline, a full buffer or the end; what is read and what is left make up the stream |
| LineReader.Reader.ReadBoundedLine | cmd/dashboard/assist_log.go:87-109 | for every chunking and buffer size: one raw line consumed, its first bytes returned trimmed, truncation reported exactly when it was longer |
| LineReader.Reader.Keep | cmd/dashboard/assist_log.go:92-101 | what is kept of a line is its first bytes, and the flag says whether there were more |
| LineReader.Reader.Drain | cmd/dashboard/assist_log.go:50-79 | the whole stream is consumed and its effect is that of its lines in order |
| LineReader.RawLinesAreStream | cmd/dashboard/assist_log.go:81-109 | the raw lines put together are the stream |
| LineReader.LinesOfRawLines | cmd/dashboard/assist_log.go:81-109 | each returned line is cut from its own raw line |
| LineReader.LossIffTooLong | cmd/dashboard/assist_log.go:92-108 | a line is returned in full exactly when it fits without its line ending, and reported truncated without loss exactly when the ending alone does not fit |
| LineReader.TruncatedWithoutLoss | cmd/dashboard/assist_log.go:92-101 | for every limit, a line of exactly that many bytes is returned in full and marked as truncated, whatever follows it |
| LineReader.EveryLineAccountedFor | cmd/dashboard/assist_log.go:53-79 | every non-empty line is logged or counted as withheld, and readiness is reported exactly for lines with the sentinel |
| LineReader.LoggedExactly | cmd/dashboard/assist_log.go:53-79 | what is logged, line for line: the sanitizer's output for that line, marked exactly when it was cut; the withheld and the ready are counted exactly |
| Similarity.CosineSimilarity | pkg/parser/rag.go:94-108 | the accumulating loop computes the similarity, which lies in [-1, 1] |
| Similarity.CauchySchwarz | pkg/parser/rag.go:98-103 | the accumulated dot product squared never exceeds the product of the accumulated norms |
| Similarity.CosineInRange | pkg/parser/rag.go:94-108 | every similarity lies in [-1, 1], for any length and any zero vectors |
| Similarity.CosineLaws | pkg/parser/rag.go:94-108 | symmetric, and one for a non-zero vector with itself |
| Similarity.CosineExactly | pkg/parser/rag.go:94-108 | without the root: nothing for different lengths or a zero vector, otherwise the number of the dot product's sign whose square is the squared dot product over the norms |
| Similarity.BestSimilarity | pkg/parser/rag.go:115-128 | in [0, 1], an upper bound of every chunk's score, and reached unless zero |
| Similarity.RetrieveTopK | pkg/parser/rag.go:131-153 | min(k, n) chunks, best first, none omitted scoring above one returned |

## Left out

Modelling choices.

- Curated tables: the country table, the non-remote phrases, the title word lists and the tokens of the pattern table are parameters. The word lists of normalization, reduction and classification, and how carefully each pattern is handled, are written out, because laws depend on them. Which patterns accept which token, and that only the years-of-experience pattern refuses skill questions, is therefore not stated.
- Digest, hash, square root, gain and discount: `sha256` is an arbitrary function, so is the per-job ordering hash of the cohort; the square root and the gain and discount functions are parameters with the few properties needed.
- Numbers: scores, labels, similarities and percentages are exact reals and quota shares exact fractions; floating-point rounding, infinities and NaN inputs are not modelled. An undefined metric is a value of its own.
- Text: strings are sequences of runes; of the case mappings outside ASCII only those that reach or leave ASCII letters are modelled, and invalid UTF-8 is not. Two option sets have the same signature when they agree as multisets, ignoring labels that contain NUL.
- Database: SQL errors, transactions left half-way, concurrent processes and an uninitialised store; every vault operation is atomic, and a refused one changes nothing. A new row gets the next identifier. Times are integers passed in.
- Facts: what a pattern reads from the operator's configuration is a map from pattern identifier to text.
- Storage: the queued questions and discovered field counts are given sequences and maps, and writing the advisory resolution columns back has no effect in the model. Failures there are not modelled.
- KnowledgeService.Service.ApproveGroup: the vault is stated up to the reuse counters, which the passes before and after the approval bump.
- KnowledgeLaws.ReadinessIgnoresOrder: a group's label on length ties, its suggestion and the order of its options do depend on the order of the queue, and nothing is claimed about them.
- Pipeline: of the workers only the ask, request and record steps at the breaker are modelled; which outcome counts as a success is arbitrary. Workers ask about any domain in any order.
- LineReader.Reader.Fill: a read error counts as the end of the stream, and the limit on consecutive empty reads is not modelled.
- LineReader.Reader.Drain: the sanitizer is an arbitrary function from a line to what may be logged.
- Similarity.RetrieveTopK: the order of chunks with equal scores is whatever the sort leaves, as in the source, and nothing is promised about it.
- Error texts, reasons for logs and status sentences are reduced to which refusal it is.

Not modelled, because it would add only easy members or has no visible meaning here.

- Listing, reading and showing answers (`Get`, `List`, `Aliases`, `Field`, `Snapshot`), the order of the inbox, and the single-field policy of the browser companion.
- Markdown chunking, embedding ingestion, benchmark identifiers, cohort building and description sanitizing.
- Spearman correlation, precision at k and the discrimination metrics.
- The seeded permutation itself: only that selection follows a fixed order.
- Browser, HTTP, model and mail clients, the dashboard and the job pipeline's other states.
