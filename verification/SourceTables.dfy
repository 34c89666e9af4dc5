/** The word lists the program ships, and the facts about them the laws rely on. */
module SourceTables {
  import opened Model

  const STOP_WORDS: set<string> := {
    "a", "an", "the", "do", "does", "did", "you", "your", "yours", "are", "is", "was", "were", "be", "been",
    "will", "would", "please", "if", "of", "for", "to", "in", "on", "at", "we", "our", "this", "that", "and",
    "or", "currently", "ever", "have", "has", "had", "any", "there", "it", "as", "with"}

  const DURATION_TOKENS: set<string> := {"years", "year", "yrs", "long", "duration"}

  const SUBJECT_TOKENS: set<string> := {
    "experience", "experienced", "expertise", "work", "working", "worked", "use", "using", "used", "usage"}

  const GENERIC_TOKENS: set<string> := {
    "how", "what", "many", "much", "long", "approximately", "roughly", "about", "number",
    "years", "year", "yrs", "duration", "experience", "experienced", "expertise",
    "work", "working", "worked", "use", "using", "used", "usage", "hands",
    "professional", "total", "overall", "relevant", "industry", "full", "part", "time",
    "minimum", "maximum", "least", "most", "required", "requirement", "combined", "cumulative"}

  const MARKERS: seq<string> := ["(required)", "(optional)", "required", "optional", "*"]

  const COMPANY_SUFFIXES: set<string> := {
    "inc", "llc", "ltd", "limited", "corp", "corporation", "co", "gmbh", "plc", "sa"}

  const FREE_TEXT_CONTROLS: set<string> := {"textarea", "text", ""}

  const SENSITIVE_MARKERS: seq<seq<string>> := [
    ["authorized", "authorised", "authorization", "authorisation", "eligibility", "eligible"],
    ["sponsorship", "sponsor", "visa", "h1b", "h1", "ead", "immigration", "citizenship", "citizen"],
    ["felony", "misdemeanor", "misdemeanour", "convicted", "conviction", "criminal", "offense", "offence"],
    ["background", "screening", "drug", "substance"],
    ["clearance", "classified", "polygraph"],
    ["disability", "disabled", "impairment", "accommodation", "accommodations"],
    ["veteran", "military", "protected"],
    ["gender", "sex", "race", "ethnicity", "ethnic", "hispanic", "latino", "orientation", "transgender", "pronoun",
     "pronouns"],
    ["age", "birth", "birthdate", "dob"],
    ["salary", "compensation", "pay", "wage", "hourly", "expectations"],
    ["certify", "attest", "affirm", "acknowledge", "consent", "agree", "declaration", "terms", "policy", "truthful",
     "accurate"]]

  const GENERATED_MARKERS: seq<seq<string>> := [
    ["why"],
    ["interest", "interested", "excites", "excited", "attracts", "attracted", "motivates", "motivated", "drew"],
    ["describe", "tell", "explain", "elaborate", "summarize", "summarise"],
    ["cover"]]

  /** The curated patterns in table order, with how carefully each is handled. */
  const PATTERN_CARE: seq<(string, Sensitivity)> := [
    ("sponsorship", Sensitive), ("work_authorization", Sensitive), ("security_clearance", Sensitive),
    ("criminal_history", Sensitive), ("desired_salary", Sensitive), ("linkedin", Routine), ("github", Routine),
    ("twitter", Routine), ("portfolio", Routine), ("years_experience", Routine), ("current_title", Routine),
    ("current_employer", Routine), ("remote_preference", Routine), ("willing_to_relocate", Routine),
    ("notice_period", Routine), ("earliest_start", Routine), ("certifications", Routine), ("education", Sensitive),
    ("how_did_you_hear", Routine), ("previously_employed", Routine), ("over_18", Sensitive), ("first_name", Routine),
    ("last_name", Routine), ("full_name", Routine), ("email", Routine), ("phone", Routine), ("city", Routine),
    ("state_region", Routine), ("postal_code", Routine), ("country", Routine), ("street_address", Routine)]

  /** The program's own word lists. */
  ghost predicate ShippedWords(t: Tables) {
    && t.stopWords == STOP_WORDS && t.markers == MARKERS && t.companySuffixes == COMPANY_SUFFIXES
    && t.freeTextControls == FREE_TEXT_CONTROLS && t.genericTokens == GENERIC_TOKENS
    && t.durationTokens == DURATION_TOKENS && t.subjectTokens == SUBJECT_TOKENS
    && t.sensitiveMarkers == SENSITIVE_MARKERS && t.generatedMarkers == GENERATED_MARKERS
  }

  /** The pattern table has the program's patterns, handled as carefully as the program handles them. */
  ghost predicate ShippedPatterns(t: Tables) {
    && |t.patterns| == |PATTERN_CARE|
    && forall k :: 0 <= k < |t.patterns| ==>
         t.patterns[k].id == PATTERN_CARE[k].0 && t.patterns[k].sensitivity == PATTERN_CARE[k].1
  }

  /** No pattern of the program is handled as a per-job question, so none is ever seeded or resolved as one. */
  lemma ShippedPatternsAreSound(t: Tables)
    requires ShippedPatterns(t)
    ensures NoPerJobPattern(t)
  {
    assert forall k :: 0 <= k < |PATTERN_CARE| ==> PATTERN_CARE[k].1 != GeneratePerJob;
    forall p | p in t.patterns
      ensures p.sensitivity != GeneratePerJob
    {
      var k :| 0 <= k < |t.patterns| && t.patterns[k] == p;
    }
  }

  lemma FrameWordsAreNoStopWords()
    ensures "how" !in STOP_WORDS && "many" !in STOP_WORDS && "years" !in STOP_WORDS && "experience" !in STOP_WORDS
  {
    forall w | w in STOP_WORDS
      ensures w != "how" && w != "many" && w != "years" && w != "experience"
    {
      assert |w| == 3 ==> w[0] != 'h' || w[2] != 'w';
      assert |w| == 4 ==> w[0] != 'm';
      assert |w| == 5 ==> w[2] != 'a';
      assert |w| != 10;
    }
  }

  /** The program's word lists meet everything the laws ask of them. */
  lemma SourceWordsAreSound(t: Tables)
    requires ShippedWords(t)
    ensures SoundWords(t) && PlainMarkers(t)
  {
    FrameWordsAreNoStopWords();
  }
}
