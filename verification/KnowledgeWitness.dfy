/** A queue, under the program's own word lists, that meets everything the approval law assumes -- and on which an
    answer approved for a per-job group fills an essay by itself.
 */
module KnowledgeWitness {
  import opened Model
  import opened Text
  import opened Collections
  import opened Normalizer
  import opened Experience
  import opened Recognizers
  import opened Vault
  import opened Resolver
  import opened SourceTables
  import opened VaultWitness
  import opened Knowledge
  import KnowledgeLaws
  import opened KnowledgeApproval

  /** No curated pattern asks for the word. */
  ghost predicate NoPatternAsks(t: Tables, w: string) {
    forall k, g :: 0 <= k < |t.patterns| && 0 <= g < |t.patterns[k].requireAll| ==> w !in t.patterns[k].requireAll[g]
  }

  /** "Why" is no pattern's word, under the program's word lists. */
  ghost predicate WhyIsUncurated(t: Tables) {
    ShippedWords(t) && NoPatternAsks(t, "why")
  }

  /** One employer asks it as a choice, and asks it again in a text box. */
  const CHOICE := Queued("first", "", "", "why", "radio", [], false, "Acme")
  const BOX := Queued("second", "", "", "why", "text", [], false, "Acme")

  const ASKED := [CHOICE, BOX]

  function Fresh(t: Tables): Env {
    Env(EMPTY, None, t)
  }

  const WHY := TextKey("why")

  /** The operator's answer to it, remembered everywhere. */
  const REQUEST := ApproveRequest(WHY, "Yes", true, false, false, "")

  // ----- reading the queue

  lemma WhyWords(t: Tables)
    requires ShippedWords(t)
    ensures Tokens("why", t) == ["why"] && Normalize("why", t) == "why" && TrimSpace("why") == "why"
    ensures QuestionKey("why", t) == "why"
  {
    WhyIsPlain();
    OneWordCompany("why", "why", t);
    TokensAreKeptWords("why", t);
    TrimSpaceTrims("why");
  }

  lemma {:induction false} NothingMatches(q: Question, from: nat, t: Tables)
    requires NoPatternAsks(t, "why") && TokenSet(q.prompt, t) == {"why"} && from <= |t.patterns|
    ensures FirstMatch(q, from, t) == None
    decreases |t.patterns| - from
  {
    hide Rejects;
    if from < |t.patterns| {
      NothingMatches(q, from + 1, t);
      var p := t.patterns[from];
      assert |p.requireAll| > 0 ==> "why" !in p.requireAll[0];
    }
  }

  lemma WhyPresent(q: Question, t: Tables)
    requires ShippedWords(t) && q.prompt == "why" && q.company == "Acme"
    ensures TokenSet(q.prompt, t) == {"why"} == Present(q, t)
  {
    hide Tokens, ShippedWords;
    WhyWords(t);
    CompanyTokens(t);
    OneEach("why", "acme", q.prompt, q.company, t);
  }

  lemma OneEach(w: string, c: string, prompt: string, company: string, t: Tables)
    requires Tokens(prompt, t) == [w] && Tokens(company, t) == [c] && |w| != |c|
    ensures TokenSet(prompt, t) == {w} && TokenSet(prompt, t) - TokenSet(company, t) == {w}
  {
    hide Tokens;
  }

  /** The key of the question, whatever its control. */
  lemma WhyKey(q: Question, t: Tables)
    requires WhyIsUncurated(t) && q.prompt == "why" && q.company == "Acme"
    ensures KeyOf(q, t) == WHY
  {
    WhyWords(t);
    WhyPresent(q, t);
    NothingMatches(q, 0, t);
    WhyIsNoDuration(t);
    hide Tokens, QuestionKey;
  }

  lemma WhyIsNoDuration(t: Tables)
    requires ShippedWords(t)
    ensures "why" !in t.durationTokens
  {
    assert |"why"| == 3 && "why"[0] == 'w';
    forall w | w in DURATION_TOKENS
      ensures |w| != 3 || w[0] != 'w'
    {
    }
  }

  /** A choice is no essay; a text box with the same words is. */
  lemma WhyClassifies(q: Question, t: Tables)
    requires ShippedWords(t) && q.prompt == "why" && q.company == "Acme"
    ensures q.controlType == "radio" ==> Classify(q, t) == Routine
    ensures q.controlType == "text" ==> Classify(q, t) == GeneratePerJob
  {
    WhyWords(t);
    WhyPresent(q, t);
    WhyIsEssay();
    ControlsAreLower();
    hide Tokens, MatchesAnyGroup, Normalize, Present, ToLower, TrimSpace;
  }

  lemma ControlsAreLower()
    ensures ToLower(TrimSpace("radio")) == "radio" && "radio" !in FREE_TEXT_CONTROLS
    ensures ToLower(TrimSpace("text")) == "text" && "text" in FREE_TEXT_CONTROLS
    ensures TEXT_AREA !in {"radio", "text"}
  {
    TrimSpaceTrims("radio");
    TrimSpaceTrims("text");
    assert |"radio"| == 5 && |"text"| == 4 && |TEXT_AREA| == 8;
  }

  lemma {:induction false} NothingFound(q: Question, chain: seq<string>, t: Tables)
    ensures ChainHit(EMPTY, q, chain, t).None?
  {
    hide ScopeHit;
    if chain != [] {
      NothingInEmpty(q, chain[0], t);
      NothingFound(q, chain[1..], t);
    }
  }

  lemma StartsPending(q: Queued, t: Tables)
    ensures Outcome(Fresh(t), q) == Unresolved(AsQuestion(q), t) && Pending(Fresh(t), q)
  {
    hide Classify, ScopeChain, ChainHit, MatchPattern;
    NothingFound(AsQuestion(q), ScopeChain(Context(q.ats, q.company), t), t);
  }

  // ----- the group

  function First(t: Tables): Group {
    Merged(Opened(CHOICE, Outcome(Fresh(t), CHOICE), t), CHOICE, Outcome(Fresh(t), CHOICE))
  }

  function Both(t: Tables): Group {
    Merged(First(t), BOX, Outcome(Fresh(t), BOX))
  }

  lemma PendingFolds(e: Env, queue: seq<Queued>, q: Queued)
    requires Pending(e, q)
    ensures var key, groups := KeyOf(AsQuestion(q), e.tables), Collect(e, queue).groups;
            var group := if key in groups then groups[key] else Opened(q, Outcome(e, q), e.tables);
            Collect(e, queue + [q]).groups == groups[key := Merged(group, q, Outcome(e, q))]
  {
    hide Outcome, KeyOf, Merged, Opened;
    assert (queue + [q])[..|queue|] == queue;
  }

  /** What the pass collects of two pending questions with the same key. */
  lemma TwoFold(e: Env, a: Queued, b: Queued, k: GroupKey)
    requires Pending(e, a) && Pending(e, b) && KeyOf(AsQuestion(a), e.tables) == k == KeyOf(AsQuestion(b), e.tables)
    ensures Collect(e, [a, b]).groups ==
            map[k := Merged(Merged(Opened(a, Outcome(e, a), e.tables), a, Outcome(e, a)), b, Outcome(e, b))]
  {
    hide Outcome, KeyOf, Merged, Opened, Pending, Collect;
    NothingCollected(e);
    var first := Merged(Opened(a, Outcome(e, a), e.tables), a, Outcome(e, a));
    PendingFolds(e, [], a);
    assert [] + [a] == [a] && [a] + [b] == [a, b];
    PendingFolds(e, [a], b);
    OneEntry(k, first, Merged(first, b, Outcome(e, b)));
  }

  lemma NothingCollected(e: Env)
    ensures Collect(e, []).groups == map[]
  {
  }

  lemma OneEntry(k: GroupKey, g: Group, h: Group)
    ensures map[][k := g] == map[k := g] && map[k := g][k := h] == map[k := h]
  {
  }

  lemma AskedCollects(t: Tables)
    requires WhyIsUncurated(t)
    ensures Collect(Fresh(t), ASKED).groups == map[WHY := Both(t)]
  {
    hide Outcome, KeyOf, Merged, Opened, Pending, Collect;
    StartsPending(CHOICE, t);
    StartsPending(BOX, t);
    WhyKey(AsQuestion(CHOICE), t);
    WhyKey(AsQuestion(BOX), t);
    TwoFold(Fresh(t), CHOICE, BOX, WHY);
  }

  /** The first control and the strictest reading stay; the rest is the same. */
  lemma BothReads(t: Tables)
    requires WhyIsUncurated(t)
    ensures var g := Both(t);
            && g.key == WHY && g.skill == "" && g.prompt == "why" && g.phrasings == ["why"] && g.companies == ["Acme"]
            && g.controlType == "radio" && g.options == [] && g.signatures == [] && !g.required
            && g.sensitivity == GeneratePerJob
  {
    StartsPending(CHOICE, t);
    StartsPending(BOX, t);
    WhyKey(AsQuestion(CHOICE), t);
    WhyClassifies(AsQuestion(CHOICE), t);
    WhyClassifies(AsQuestion(BOX), t);
    WhyWords(t);
    ControlsAreLower();
    hide Outcome, KeyOf, Classify, TrimSpace, Normalize, WhyIsUncurated;
  }

  lemma FinishedReads(g: Group)
    requires g.phrasings == ["why"] && g.companies == ["Acme"] && g.prompt == "why"
    ensures Finalized(g).phrasings == ["why"] && Finalized(g).companies == ["Acme"] && Finalized(g).prompt == "why"
  {
    SortOne("why");
    SortOne("Acme");
    assert ["why"][1..] == [];
  }

  lemma SortOne(w: string)
    ensures Sort([w], Precedes) == [w]
  {
    assert [w][1..] == [] && Sort([], Precedes) == [];
  }

  /** The group the operator sees: read as per-job, and worded as the question itself. */
  lemma AskedGroup(t: Tables) returns (g: Group)
    requires WhyIsUncurated(t)
    ensures GroupNow(Fresh(t), ASKED, WHY) == Some(g)
    ensures GroupPolicy(g) == PerJob && !OptionsVary(g) && g.sensitivity == GeneratePerJob
    ensures CanonicalPrompt(g, t) == "why" && QuestionFromGroup(g, t) == Question("", "why", "radio", [], false, "Acme")
  {
    hide Collect, Both, Merged, WhyIsUncurated, Finalized, GroupPolicy, CanonicalPrompt, QuestionFromGroup, OptionsVary;
    AskedCollects(t);
    BothReads(t);
    g := Finalized(Both(t));
    ShownReads(Both(t), t);
  }

  lemma ShownReads(g: Group, t: Tables)
    requires g.key == WHY && g.skill == "" && g.prompt == "why" && g.phrasings == ["why"] && g.companies == ["Acme"]
    requires g.controlType == "radio" && g.options == [] && g.signatures == [] && !g.required
    requires g.sensitivity == GeneratePerJob
    ensures var h := Finalized(g);
            && GroupPolicy(h) == PerJob && !OptionsVary(h) && h.sensitivity == GeneratePerJob
            && CanonicalPrompt(h, t) == "why"
            && QuestionFromGroup(h, t) == Question("", "why", "radio", [], false, "Acme")
  {
    FinishedReads(g);
    KnowledgeLaws.PolicyReadsSensitivity(Finalized(g));
    hide GroupPolicy, Sort, ShortestPrompt;
  }

  // ----- approving it

  /** A group is read as per-job because one of its questions is, and is approved all the same, as another of them:
      the wording is that of the essay, the control that of the choice. */
  lemma PerJobGroupIsApproved(t: Tables)
    requires WhyIsUncurated(t)
    ensures Valid(EMPTY) && Approve(Fresh(t), ASKED, REQUEST, 0).Accepted?
    ensures GroupNow(Fresh(t), ASKED, WHY).Some?
    ensures var g := GroupNow(Fresh(t), ASKED, WHY).value;
            GroupPolicy(g) == PerJob && CanonicalPrompt(g, t) == "why" && ApprovedAs(g, t) == Routine
    ensures BOX in ASKED && BOX.prompt == "why" && Classify(AsQuestion(BOX), t) == GeneratePerJob
  {
    assert Valid(EMPTY);
    hide GroupNow, Approve, Classify, TrimSpace, Normalize, GroupPolicy, OptionsVary, CanonicalPrompt,
      QuestionFromGroup, Valid, WhyIsUncurated;
    var g := AskedGroup(t);
    WhyClassifies(QuestionFromGroup(g, t), t);
    WhyClassifies(AsQuestion(BOX), t);
    assert BOX in ASKED;
    WhyWords(t);
    YesIsTrimmed();
    GroupIsAccepted(Fresh(t), ASKED, REQUEST, g);
  }

  /** A group that is approved as a routine question, whatever it was read as short of a declaration. */
  lemma GroupIsAccepted(e: Env, queue: seq<Queued>, req: ApproveRequest, g: Group)
    requires Valid(e.vault) && GroupNow(e, queue, req.group) == Some(g) && !OptionsVary(g)
    requires TrimSpace(req.answer) != "" && req.saveForReuse && Normalize(CanonicalPrompt(g, e.tables), e.tables) != ""
    requires g.sensitivity != Sensitive && Classify(QuestionFromGroup(g, e.tables), e.tables) == Routine
    ensures Approve(e, queue, req, 0).Accepted? && ApprovedAs(g, e.tables) == Routine
  {
    hide GroupNow, Approve, Classify, TrimSpace, Normalize, OptionsVary, CanonicalPrompt, QuestionFromGroup, Valid;
    ApprovalAcceptedExactly(e, queue, req, 0);
  }

  /** Every question of the queue is open, in the group, and reached by an answer that applies everywhere. */
  lemma WaitsForAnswer(q: Queued, t: Tables) returns (k: nat)
    requires WhyIsUncurated(t) && q.prompt == "why" && q.company == "Acme"
    ensures Pending(Fresh(t), q) && KeyOf(AsQuestion(q), t) == WHY
    ensures ReachesScope(EMPTY, AsQuestion(q), ScopeChain(Context(q.ats, q.company), t), k, GLOBAL, t)
  {
    hide KeyOf, ReachesScope, Pending, ScopeChain, Outcome, WhyIsUncurated;
    StartsPending(q, t);
    WhyKey(AsQuestion(q), t);
    EmptyReachesGlobal(AsQuestion(q), Context(q.ats, q.company), t);
    k := |ScopeChain(Context(q.ats, q.company), t)| - 1;
  }

  /** Everything ApprovalResolvesGroup assumes can hold at once. */
  lemma ApprovalHappens(q: Queued, t: Tables) returns (k: nat)
    requires WhyIsUncurated(t) && q in ASKED
    ensures Valid(EMPTY) && Approve(Fresh(t), ASKED, REQUEST, 0).Accepted?
    ensures Pending(Fresh(t), q) && KeyOf(AsQuestion(q), t) == REQUEST.group
    ensures GroupNow(Fresh(t), ASKED, WHY).Some? && ApprovedAs(GroupNow(Fresh(t), ASKED, WHY).value, t) == Routine
    ensures ReachesScope(EMPTY, AsQuestion(q), ScopeChain(Context(q.ats, q.company), t), k,
                         EffectiveScope(REQUEST.scope), t)
  {
    hide GroupNow, Approve, Classify, KeyOf, ReachesScope, Pending, ScopeChain, ApprovedAs, EffectiveScope, Valid,
      GroupPolicy, CanonicalPrompt, WhyIsUncurated, Fresh;
    GlobalByDefault();
    PerJobGroupIsApproved(t);
    k := WaitsForAnswer(q, t);
  }

  lemma GlobalByDefault()
    ensures EffectiveScope("") == GLOBAL
  {
  }

  /** And so an essay fills by itself, with the answer given to a choice. */
  lemma PerJobQuestionFills(t: Tables)
    requires WhyIsUncurated(t)
    ensures Valid(EMPTY) && Approve(Fresh(t), ASKED, REQUEST, 0).Accepted?
    ensures Classify(AsQuestion(BOX), t) == GeneratePerJob
    ensures var after := Fresh(t).(vault := Approve(Fresh(t), ASKED, REQUEST, 0).value.vault);
            Outcome(after, BOX).autoFill && Outcome(after, BOX).answer == "Yes"
  {
    YesIsTrimmed();
    hide GroupNow, Approve, Classify, KeyOf, ReachesScope, Outcome, ScopeChain, ApprovedAs, EffectiveScope, Valid,
      GroupPolicy, CanonicalPrompt, TrimSpace;
    PerJobGroupIsApproved(t);
    var k := ApprovalHappens(BOX, t);
    ApprovalAcceptedExactly(Fresh(t), ASKED, REQUEST, 0);
    ApprovalResolvesGroup(Fresh(t), ASKED, REQUEST, 0, BOX, k);
  }
}
