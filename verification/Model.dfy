/** The vocabulary of the answer vault: questions, how carefully they are handled, and the curated
    tables that recognise them.
 */
module Model {

  datatype Option<+T> = None | Some(value: T)

  datatype Sensitivity = Routine | Sensitive | GeneratePerJob

  datatype Kind = KindText | KindBoolean | KindChoice | KindNumber | KindUrl | KindAbsence

  datatype Provenance = OperatorApproved | OperatorEdited | SeededFromPii

  /** One control found on an employer form. */
  datatype Question = Question(
    key: string, prompt: string, controlType: string, options: seq<string>, required: bool, company: string)

  /** Where a question was asked. */
  datatype Context = Context(ats: string, company: string)

  /** The operator's configured facts, by the identifier of the pattern that reads them. */
  type Facts = map<string, string>

  /** What a pattern refuses beyond its denied tokens. */
  datatype Rejection = RejectNothing | RejectSkillScoped | RejectTokens(tokens: set<string>)

  /** One curated recognizer. `canonical` is the wording its fact is seeded under, empty for none. */
  datatype Pattern = Pattern(
    id: string, requireAll: seq<seq<string>>, deny: seq<string>, rejects: Rejection,
    sensitivity: Sensitivity, kind: Kind, canonical: string)

  /** Every curated table the vault consults, and the digest used for over-long keys. */
  datatype Tables = Tables(
    stopWords: set<string>, markers: seq<string>, companySuffixes: set<string>, freeTextControls: set<string>,
    durationTokens: set<string>, subjectTokens: set<string>, genericTokens: set<string>,
    sensitiveMarkers: seq<seq<string>>, generatedMarkers: seq<seq<string>>,
    patterns: seq<Pattern>,
    digest: string -> string)

  /** Nothing seeds or resolves as a per-job answer. */
  ghost predicate NoPerJobPattern(t: Tables) {
    forall p :: p in t.patterns ==> p.sensitivity != GeneratePerJob
  }

  /** The decorations are blank-free texts. */
  ghost predicate PlainMarkers(t: Tables) {
    forall k :: 0 <= k < |t.markers| ==> t.markers[k] != "" && ' ' !in t.markers[k]
  }

  /** What printing and reducing a skill question needs of the word lists; SourceTables shows the program's own
      lists qualify. */
  ghost predicate SoundWords(t: Tables) {
    && t.markers == ["(required)", "(optional)", "required", "optional", "*"]
    && "of" in t.stopWords && "do" in t.stopWords && "you" in t.stopWords && "have" in t.stopWords
    && "how" !in t.stopWords && "many" !in t.stopWords
    && "years" !in t.stopWords && "experience" !in t.stopWords
    && "how" in t.genericTokens && "many" in t.genericTokens
    && "years" in t.genericTokens && "experience" in t.genericTokens
    && "years" in t.durationTokens
    && "experience" in t.subjectTokens
  }
}
