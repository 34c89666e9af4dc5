/** Runs from an empty vault, under the program's own word lists, that reach the states its comments rule out. */
module VaultWitness {
  import opened Model
  import opened Text
  import opened Normalizer
  import opened Experience
  import opened Recognizers
  import opened Vault
  import opened Resolver
  import opened VaultRuns
  import opened VaultCaveats
  import opened SourceTables
  import KnowledgeApproval

  const WORDING := "Do you use Affirm?"

  /** The same words asked on a form of a given company. */
  function AskedBy(company: string): Question {
    Question("", WORDING, "", [], false, company)
  }

  /** The operator's answer to it on a form of Affirm's. */
  function YesAtAffirm(reuse: bool): SaveRequest {
    SaveRequest(AskedBy("Affirm"), "Yes", None, "", Some(OperatorApproved), reuse, false, None)
  }

  // ----- reading the wording

  lemma LacksText(s: string, x: string, i: nat)
    requires i < |x| && x[i] !in s
    ensures !Contains(s, x)
  {
    if Contains(s, x) {
      OccursIn(s, x, i);
    }
  }

  lemma OccursIn(s: string, x: string, i: nat)
    requires i < |x| && Contains(s, x)
    ensures x[i] in s
  {
    var k :| 0 <= k <= |s| && OccursAt(s, x, k);
    assert s[k + i] == s[k..k + |x|][i];
  }

  lemma LacksMarkers(s: string, t: Tables)
    requires ShippedWords(t) && 'q' !in s && 't' !in s && '*' !in s
    ensures forall k :: 0 <= k < |t.markers| ==> !Contains(s, t.markers[k])
  {
    LacksText(s, "(required)", 3);
    LacksText(s, "(optional)", 3);
    LacksText(s, "required", 2);
    LacksText(s, "optional", 2);
    LacksText(s, "*", 0);
  }

  /** A company of one plain word. */
  lemma OneWordCompany(text: string, w: string, t: Tables)
    requires ShippedWords(t) && ToLower(text) == w && IsWord(w) && Trimmed(text) && w !in t.stopWords
    requires 'q' !in w && 't' !in w
    ensures Tokens(text, t) == [w]
  {
    SourceWordsAreSound(t);
    LacksMarkers(w, t);
    CleanedPlain(text, w, t);
    WordsOfWord(w);
    KeptOne(w, [], t);
    TokensAreKeptWords(text, t);
  }

  lemma CompanyTokens(t: Tables)
    requires ShippedWords(t)
    ensures Tokens("Affirm", t) == ["affirm"] && Tokens("Acme", t) == ["acme"]
  {
    hide Tokens;
    LongNoStopWord("affirm");
    LongNoStopWord("acme");
    assert ToLower("Affirm") == "affirm" && ToLower("Acme") == "acme";
    OneWordCompany("Affirm", "affirm", t);
    OneWordCompany("Acme", "acme", t);
  }

  lemma LongNoStopWord(w: string)
    requires w in {"affirm", "acme", "use"}
    ensures w !in STOP_WORDS
  {
    AffirmIsNoStopWord();
    AcmeIsNoStopWord();
    UseIsNoStopWord();
  }

  lemma AffirmIsNoStopWord()
    ensures "affirm" !in STOP_WORDS
  {
    assert "affirm"[0] == 'a';
    forall s | s in STOP_WORDS
      ensures |s| != 6 || s[0] != 'a'
    {
    }
  }

  lemma AcmeIsNoStopWord()
    ensures "acme" !in STOP_WORDS
  {
    assert "acme"[1] == 'c';
    forall s | s in STOP_WORDS
      ensures |s| != 4 || s[1] != 'c'
    {
    }
  }

  lemma UseIsNoStopWord()
    ensures "use" !in STOP_WORDS
  {
    assert "use"[0] == 'u';
    forall s | s in STOP_WORDS
      ensures |s| != 3 || s[0] != 'u'
    {
    }
  }

  const LOWERED := "do you use affirm?"

  lemma WordingLowers()
    ensures ToLower(WORDING) == LOWERED && Trimmed(WORDING)
  {
    assert |ToLower(WORDING)| == |LOWERED| == 18;
    forall i | 0 <= i < 18
      ensures ToLower(WORDING)[i] == LOWERED[i]
    {
    }
  }

  lemma LoweredIsPlain()
    ensures 'q' !in LOWERED && 't' !in LOWERED && '*' !in LOWERED && '<' !in LOWERED && '>' !in LOWERED
  {
  }

  lemma JoinStep(w: string, ws: seq<string>, joined: string)
    requires ws != [] && Join(ws) == joined
    ensures Join([w] + ws) == w + " " + joined
  {
    assert ([w] + ws)[1..] == ws;
  }

  lemma LoweredJoins()
    ensures Join(["do", "you", "use", "affirm"]) + "?" == LOWERED
  {
    assert Join(["affirm"]) == "affirm";
    hide Join;
    JoinStep("use", ["affirm"], "affirm");
    JoinStep("you", ["use", "affirm"], "use" + " " + "affirm");
    JoinStep("do", ["you", "use", "affirm"], "you" + " " + ("use" + " " + "affirm"));
    LoweredSpells();
  }

  lemma LoweredSpells()
    ensures "do" + " " + ("you" + " " + ("use" + " " + "affirm")) + "?" == LOWERED
  {
  }

  lemma WordingKept(t: Tables)
    requires ShippedWords(t)
    ensures Kept(["do", "you", "use", "affirm"], t) == ["use", "affirm"]
  {
    LongNoStopWord("use");
    LongNoStopWord("affirm");
    assert "do" in STOP_WORDS && "you" in STOP_WORDS;
    KeptOne("affirm", [], t);
    KeptOne("use", ["affirm"], t);
    KeptOne("you", ["use", "affirm"], t);
    KeptOne("do", ["you", "use", "affirm"], t);
  }

  lemma WordingCleaned(t: Tables)
    requires ShippedWords(t)
    ensures Cleaned(WORDING, t) == LOWERED && Words(LOWERED) == ["do", "you", "use", "affirm"]
  {
    hide ToLower, Join, Contains, Words, Cleaned, Trimmed;
    SourceWordsAreSound(t);
    WordingLowers();
    LoweredIsPlain();
    LacksMarkers(LOWERED, t);
    CleanedPlain(WORDING, LOWERED, t);
    LoweredJoins();
    PlainWords();
    WordsOfQuestion(["do", "you", "use", "affirm"]);
  }

  lemma PlainWords()
    ensures AllWords(["do", "you", "use", "affirm"])
  {
  }

  lemma WordingTokens(t: Tables)
    requires ShippedWords(t)
    ensures Tokens(WORDING, t) == ["use", "affirm"] && Normalize(WORDING, t) != ""
  {
    WordingCleaned(t);
    WordingKept(t);
    hide Tokens, Normalize, Cleaned, Words, Kept;
    TokensAreKeptWords(WORDING, t);
    EmptyKeyMeansNoWords(WORDING, t);
  }

  /** "use" is no marker of either kind. */
  lemma UseIsNoMarker()
    ensures !MatchesAnyGroup({"use"}, SENSITIVE_MARKERS) && !MatchesAnyGroup({"use"}, GENERATED_MARKERS)
  {
    assert |"use"| == 3 && "use"[0] == 'u';
    forall g, k | 0 <= g < |SENSITIVE_MARKERS| && 0 <= k < |SENSITIVE_MARKERS[g]|
      ensures |SENSITIVE_MARKERS[g][k]| != 3 || SENSITIVE_MARKERS[g][k][0] != 'u'
    {
    }
    forall g, k | 0 <= g < |GENERATED_MARKERS| && 0 <= k < |GENERATED_MARKERS[g]|
      ensures |GENERATED_MARKERS[g][k]| != 3 || GENERATED_MARKERS[g][k][0] != 'u'
    {
    }
  }

  lemma PresentWords(t: Tables)
    requires ShippedWords(t)
    ensures Present(AskedBy("Affirm"), t) == {"use"} && "affirm" in Present(AskedBy("Acme"), t)
  {
    hide Tokens, ShippedWords;
    WordingTokens(t);
    CompanyTokens(t);
    assert "use" != "affirm" && "acme" != "affirm" by { assert |"use"| == 3 && |"acme"| == 4 && |"affirm"| == 6; }
  }

  /** At Affirm the employer's own name is discounted; at any other company it is a declaration's word. */
  lemma WordingClassifies(t: Tables)
    requires ShippedWords(t)
    ensures Classify(AskedBy("Affirm"), t) == Routine && Classify(AskedBy("Acme"), t) == Sensitive
  {
    hide Tokens, MatchesAnyGroup, Normalize, Present, ToLower, TrimSpace;
    WordingTokens(t);
    PresentWords(t);
    UseIsNoMarker();
    AffirmIsMarker(Present(AskedBy("Acme"), t));
    BlankControl();
  }

  lemma AffirmIsMarker(present: set<string>)
    requires "affirm" in present
    ensures MatchesAnyGroup(present, SENSITIVE_MARKERS)
  {
    assert SENSITIVE_MARKERS[10][2] == "affirm";
  }

  lemma BlankControl()
    ensures ToLower(TrimSpace("")) == "" != TEXT_AREA
  {
    assert |TEXT_AREA| == 8;
  }

  // ----- an alias to a row without a grant

  /** Approving a question with reuse and then again without leaves an alias to a row that is not granted. */
  lemma ApprovedThenWithheld(v: State, req: SaveRequest, t: Tables)
    requires Valid(v) && req.reuse && Save(v, req, 0, t).Ok?
    requires Save(Save(v, req, 0, t).value.vault, req.(reuse := false), 1, t).Ok?
    ensures !AliasesGranted(Save(Save(v, req, 0, t).value.vault, req.(reuse := false), 1, t).value.vault)
  {
    var first, again := Save(v, req, 0, t).value, req.(reuse := false);
    var second := Save(first.vault, again, 1, t).value;
    hide Save, Normalize, QuestionKey, Valid, Classify, TrimSpace;
    KnowledgeApproval.SaveFiles(v, req, 0, t);
    KnowledgeApproval.SavedUnderKey(v, req, 0, t);
    ApprovalWritesOneRow(first.vault, again, 1, t);
    var a := (Normalize(req.question.prompt, t), EffectiveScope(req.scope));
    WithheldReuseKeepsAlias(first.vault, again, 1, a, t);
    assert second.vault.aliases[a] == second.id && !second.vault.rows[second.id].reuse;
  }

  lemma AnswerIsAccepted(v: State, reuse: bool, now: int, t: Tables)
    requires Valid(v) && ShippedWords(t)
    ensures Save(v, YesAtAffirm(reuse), now, t).Ok?
  {
    hide Save, Classify, Normalize, Valid, TrimSpace;
    WordingTokens(t);
    WordingClassifies(t);
    YesIsTrimmed();
    KnowledgeApproval.SaveAcceptsExactly(v, YesAtAffirm(reuse), now, t);
  }

  lemma YesIsTrimmed()
    ensures TrimSpace("Yes") == "Yes"
  {
    TrimSpaceTrims("Yes");
  }

  lemma {:induction false} TwoSteps(a: Command, b: Command, t: Tables)
    requires NoPerJobPattern(t)
    ensures Run(EMPTY, [a], 1, t) == Step(EMPTY, a, t)
    ensures Run(EMPTY, [a, b], 2, t) == Step(Step(EMPTY, a, t), b, t)
  {
    assert Run(EMPTY, [a, b], 0, t) == EMPTY && Run(EMPTY, [a], 0, t) == EMPTY;
    hide Step, Extends, Valid;
    assert Run(EMPTY, [a, b], 1, t) == Step(EMPTY, a, t);
  }

  lemma SaveSteps(v: State, req: SaveRequest, now: int, t: Tables)
    requires Valid(v) && NoPerJobPattern(t) && Save(v, req, now, t).Ok?
    ensures Step(v, DoSave(req, now), t) == Save(v, req, now, t).value.vault
  {
    hide Save, Valid, Extends;
  }

  /** A run that breaks "an alias implies a grant": two approvals of one question, the second withholding reuse. */
  lemma AliasWithoutGrantHappens(t: Tables) returns (cs: seq<Command>)
    requires ShippedWords(t) && ShippedPatterns(t)
    ensures NoPerJobPattern(t) && |cs| == 2 && !AliasesGranted(Run(EMPTY, cs, 2, t))
  {
    ShippedPatternsAreSound(t);
    assert Valid(EMPTY);
    hide Step, Save, Valid, Run, AliasesGranted, Extends, NoPerJobPattern, ShippedWords;
    cs := [DoSave(YesAtAffirm(true), 0), DoSave(YesAtAffirm(false), 1)];
    TwoSteps(cs[0], cs[1], t);
    AnswerIsAccepted(EMPTY, true, 0, t);
    SaveSteps(EMPTY, YesAtAffirm(true), 0, t);
    var v := Save(EMPTY, YesAtAffirm(true), 0, t).value.vault;
    AnswerIsAccepted(v, false, 1, t);
    SaveSteps(v, YesAtAffirm(false), 1, t);
    ApprovedThenWithheld(EMPTY, YesAtAffirm(true), t);
  }

  // ----- a declaration filled from a routine row

  lemma {:induction false} NothingInEmpty(q: Question, scope: string, t: Tables)
    ensures ScopeHit(EMPTY, q, scope, t).None?
  {
    hide Normalize, QuestionKey, SkillExperienceSubject, SkillExperienceKey;
  }

  /** On an empty vault every chain reaches the global scope with nothing in the way. */
  lemma EmptyReachesGlobal(q: Question, ctx: Context, t: Tables)
    ensures |ScopeChain(ctx, t)| > 0
    ensures var chain := ScopeChain(ctx, t);
            KnowledgeApproval.ReachesScope(EMPTY, q, chain, |chain| - 1, GLOBAL, t)
  {
    ScopeChainShape(ctx, t);
    hide ScopeChain, ScopeHit;
    var chain := ScopeChain(ctx, t);
    forall j | 0 <= j < |chain| - 1
      ensures chain[j] != GLOBAL && ScopeHit(EMPTY, q, chain[j], t).None?
    {
      NothingInEmpty(q, chain[j], t);
    }
  }

  /** After `n` commands the question fills a declaration from a row that is stored as none. */
  ghost predicate FillsUndeclaredAfter(cs: seq<Command>, n: nat, q: Question, ctx: Context, facts: Option<Facts>,
                                       t: Tables)
    requires NoPerJobPattern(t) && n <= |cs|
  {
    var v := Run(EMPTY, cs, n, t);
    FillsFromUndeclared(v, Resolve(v, q, ctx, facts, t))
  }

  /** Words approved for reuse where they are routine fill wherever they are a declaration's. */
  lemma RoutineAnswerFills(req: SaveRequest, q: Question, ctx: Context, facts: Option<Facts>, t: Tables)
    requires Valid(EMPTY) && Save(EMPTY, req, 0, t).Ok? && req.reuse && req.kind.None?
    requires EffectiveScope(req.scope) == GLOBAL && Normalize(q.prompt, t) == Normalize(req.question.prompt, t)
    requires StoredSensitivity(req, t) == Routine && Classify(q, t) == Sensitive
    ensures var v := Save(EMPTY, req, 0, t).value.vault;
            FillsFromUndeclared(v, Resolve(v, q, ctx, facts, t))
  {
    hide Save, Valid, Classify, Resolve, ScopeChain, Normalize, EffectiveScope, StoredSensitivity, Extends, TrimSpace,
      KnowledgeApproval.ReachesScope;
    EmptyReachesGlobal(q, ctx, t);
    KnowledgeApproval.ApprovedWordingResolves(EMPTY, req, 0, q, ctx, facts, |ScopeChain(ctx, t)| - 1, t);
    KnowledgeApproval.SaveFiles(EMPTY, req, 0, t);
    ResolutionIsSafe(Save(EMPTY, req, 0, t).value.vault, q, ctx, facts, t);
  }

  /** A run that breaks "a declaration is filled only from a row stored as one": one routine approval at the company the
      question names, and the same words asked elsewhere. No phrasing is ever bound. */
  lemma DeclarationFromRoutineHappens(facts: Option<Facts>, t: Tables)
    returns (cs: seq<Command>, q: Question, ctx: Context)
    requires ShippedWords(t) && ShippedPatterns(t)
    ensures NoPerJobPattern(t) && |cs| == 1 && cs[0].DoSave? && Classify(q, t) == Sensitive
    ensures FillsUndeclaredAfter(cs, 1, q, ctx, facts, t)
  {
    ShippedPatternsAreSound(t);
    assert Valid(EMPTY) && EffectiveScope("") == GLOBAL;
    WordingClassifies(t);
    assert StoredSensitivity(YesAtAffirm(true), t) == Routine;
    hide EffectiveScope, StoredSensitivity, Normalize, ChainHit;
    hide Step, Save, Valid, Run, Extends, NoPerJobPattern, ShippedWords, Classify, Resolve, FillsFromUndeclared;
    cs, q, ctx := [DoSave(YesAtAffirm(true), 0)], AskedBy("Acme"), Context("", "Acme");
    TwoSteps(cs[0], cs[0], t);
    AnswerIsAccepted(EMPTY, true, 0, t);
    SaveSteps(EMPTY, YesAtAffirm(true), 0, t);
    RoutineAnswerFills(YesAtAffirm(true), q, ctx, facts, t);
  }

  // ----- a stale approval date

  /** Answered twice, the second save returns an approval date the row does not have. */
  ghost predicate DateIsStale(v: State, req: SaveRequest, first: int, second: int, t: Tables)
    requires Valid(v)
  {
    && req.provenance.Some? && Save(v, req, first, t).Ok?
    && var w := Save(v, req, first, t).value.vault;
       && Save(w, req, second, t).Ok?
       && var s := Save(w, req, second, t).value;
          s.id in s.vault.rows && ReturnedRow(req, second, t).approvedAt != s.vault.rows[s.id].approvedAt
  }

  /** Approving the same question a moment later returns that moment, while the row keeps its first date. */
  lemma StaleDateHappens(t: Tables)
    requires ShippedWords(t)
    ensures Valid(EMPTY) && DateIsStale(EMPTY, YesAtAffirm(true), 0, 1, t)
  {
    assert Valid(EMPTY);
    hide Save, Valid, ShippedWords, YesAtAffirm, ReturnedRow, DateIsStale;
    AnswerIsAccepted(EMPTY, true, 0, t);
    AnswerIsAccepted(Save(EMPTY, YesAtAffirm(true), 0, t).value.vault, true, 1, t);
    SecondDateIsStale(YesAtAffirm(true), 0, 1, t);
  }

  lemma SecondDateIsStale(req: SaveRequest, first: int, second: int, t: Tables)
    requires Valid(EMPTY) && Save(EMPTY, req, first, t).Ok? && first != second
    requires Save(Save(EMPTY, req, first, t).value.vault, req, second, t).Ok?
    ensures DateIsStale(EMPTY, req, first, second, t)
  {
    hide Save, Normalize, QuestionKey, Valid, Classify, TrimSpace, EffectiveScope;
    var v := Save(EMPTY, req, first, t).value.vault;
    KnowledgeApproval.SavedUnderKey(EMPTY, req, first, t);
    ApprovalWritesOneRow(EMPTY, req, first, t);
    ReturnedDateIsStoredExactly(v, req, second, t);
  }

  // ----- a per-job question stored

  /** "why" in a free-text field is an essay, and no declaration. */
  const ESSAY := Question("", "why", "", [], false, "")

  lemma EssayIsPerJob(t: Tables)
    requires ShippedWords(t)
    ensures Classify(ESSAY, t) == GeneratePerJob && Normalize("why", t) != ""
  {
    SourceWordsAreSound(t);
    WhyIsPlain();
    OneWordCompany("why", "why", t);
    EmptyKeyMeansNoWords("why", t);
    NoMarkersToRemove("", t.markers) by { assert forall k :: 0 <= k < |t.markers| ==> !Contains("", t.markers[k]); }
    assert Cleaned("", t) == "" && Tokens("", t) == [];
    hide Tokens, MatchesAnyGroup, Normalize, ToLower, TrimSpace;
    assert Present(ESSAY, t) == {"why"};
    WhyIsEssay();
    BlankControl();
    TokensAreKeptWords("why", t);
  }

  lemma WhyIsPlain()
    ensures ToLower("why") == "why" && IsWord("why") && Trimmed("why") && "why" !in STOP_WORDS
    ensures 'q' !in "why" && 't' !in "why"
  {
    assert "why"[0] == 'w';
    forall s | s in STOP_WORDS
      ensures |s| != 3 || s[0] != 'w' || s[1] != 'h'
    {
    }
  }

  lemma WhyIsEssay()
    ensures !MatchesAnyGroup({"why"}, SENSITIVE_MARKERS) && MatchesAnyGroup({"why"}, GENERATED_MARKERS)
  {
    assert |"why"| == 3 && "why"[0] == 'w' && GENERATED_MARKERS[0][0] == "why";
    forall g, k | 0 <= g < |SENSITIVE_MARKERS| && 0 <= k < |SENSITIVE_MARKERS[g]|
      ensures |SENSITIVE_MARKERS[g][k]| != 3 || SENSITIVE_MARKERS[g][k][0] != 'w'
    {
    }
  }

  /** Raised to a declaration with the grant, it is stored. */
  lemma RaisedPerJobHappens(t: Tables) returns (req: SaveRequest)
    requires ShippedWords(t)
    ensures Classify(req.question, t) == GeneratePerJob && Save(EMPTY, req, 0, t).Ok?
  {
    assert Valid(EMPTY);
    hide Save, Classify, Normalize, Valid, TrimSpace;
    req := SaveRequest(ESSAY, "Yes", None, "", Some(OperatorApproved), true, true, Some(Sensitive));
    EssayIsPerJob(t);
    YesIsTrimmed();
    KnowledgeApproval.SaveAcceptsExactly(EMPTY, req, 0, t);
  }
}
