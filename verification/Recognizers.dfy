/** Reading a question: how carefully it must be handled, and which curated pattern it belongs to. */
module Recognizers {
  import opened Model
  import opened Text
  import opened Normalizer
  import opened Experience

  /** Some token of some group is present. */
  predicate MatchesAnyGroup(present: set<string>, groups: seq<seq<string>>) {
    exists g :: 0 <= g < |groups| && exists k :: 0 <= k < |groups[g]| && groups[g][k] in present
  }

  const TEXT_AREA := "textarea"

  const LONG_FREE_TEXT := 120

  /** The words of the prompt, less the employer's own name. */
  function Present(q: Question, t: Tables): set<string> {
    TokenSet(q.prompt, t) - TokenSet(q.company, t)
  }

  function Classify(q: Question, t: Tables): Sensitivity {
    var present := Present(q, t);
    var control := ToLower(TrimSpace(q.controlType));
    if Tokens(q.prompt, t) == [] || present == {} || MatchesAnyGroup(present, t.sensitiveMarkers) then Sensitive
    else if (control in t.freeTextControls || control == TEXT_AREA)
            && (MatchesAnyGroup(present, t.generatedMarkers)
                || (control == TEXT_AREA && |Normalize(q.prompt, t)| >= LONG_FREE_TEXT)) then GeneratePerJob
    else Routine
  }

  method ClassifyQuestion(q: Question, t: Tables) returns (s: Sensitivity)
    ensures s == Classify(q, t)
  {
    var tokens := Tokens(q.prompt, t);
    if tokens == [] {
      return Sensitive;
    }
    var present: set<string> := {};
    for i := 0 to |tokens|
      invariant present == set w | w in tokens[..i]
    {
      assert tokens[..i + 1] == tokens[..i] + [tokens[i]];
      present := present + {tokens[i]};
    }
    assert tokens[..|tokens|] == tokens;
    var company := Tokens(q.company, t);
    for i := 0 to |company|
      invariant present == TokenSet(q.prompt, t) - set w | w in company[..i]
    {
      assert company[..i + 1] == company[..i] + [company[i]];
      present := present - {company[i]};
    }
    assert company[..|company|] == company;
    assert present == Present(q, t);
    if present == {} || MatchesAnyGroup(present, t.sensitiveMarkers) {
      return Sensitive;
    }
    var control := ToLower(TrimSpace(q.controlType));
    if control in t.freeTextControls || control == TEXT_AREA {
      if MatchesAnyGroup(present, t.generatedMarkers) {
        return GeneratePerJob;
      }
      if control == TEXT_AREA && |Normalize(q.prompt, t)| >= LONG_FREE_TEXT {
        return GeneratePerJob;
      }
    }
    return Routine;
  }

  // ----- patterns

  predicate Rejects(r: Rejection, q: Question, t: Tables) {
    match r
    case RejectNothing => false
    case RejectSkillScoped => SkillExperienceSubject(q, t) != ""
    case RejectTokens(tokens) => AnyIn(Tokens(q.prompt, t), tokens)
  }

  /** No denied token is present, and every group has a token that is. */
  predicate TokensMatch(present: set<string>, p: Pattern) {
    !AnyIn(p.deny, present) && (forall g :: 0 <= g < |p.requireAll| ==> AnyIn(p.requireAll[g], present))
    && |p.requireAll| > 0
  }

  predicate MatchesPattern(present: set<string>, q: Question, p: Pattern, t: Tables) {
    !Rejects(p.rejects, q, t) && TokensMatch(present, p)
  }

  /** The first pattern, from index `from` on, that the question matches. */
  function FirstMatch(q: Question, from: nat, t: Tables): (r: Option<Pattern>)
    requires from <= |t.patterns|
    ensures r.Some? ==> r.value in t.patterns && MatchesPattern(TokenSet(q.prompt, t), q, r.value, t)
    decreases |t.patterns| - from
  {
    if from == |t.patterns| then None
    else if MatchesPattern(TokenSet(q.prompt, t), q, t.patterns[from], t) then Some(t.patterns[from])
    else FirstMatch(q, from + 1, t)
  }

  function MatchPattern(q: Question, t: Tables): Option<Pattern> {
    if Tokens(q.prompt, t) == [] then None else FirstMatch(q, 0, t)
  }

  method FindPattern(q: Question, t: Tables) returns (r: Option<Pattern>)
    ensures r == MatchPattern(q, t)
  {
    var tokens := Tokens(q.prompt, t);
    if tokens == [] {
      return None;
    }
    var present := TokenSet(q.prompt, t);
    for i := 0 to |t.patterns|
      invariant FirstMatch(q, 0, t) == FirstMatch(q, i, t)
    {
      if MatchesPattern(present, q, t.patterns[i], t) {
        return Some(t.patterns[i]);
      }
    }
    return None;
  }

  function PatternId(q: Question, t: Tables): string {
    match MatchPattern(q, t)
    case Some(p) => p.id
    case None => ""
  }

  /** Career Agent's own wording for a pattern, empty when it has none. */
  function CanonicalForPattern(id: string, from: nat, t: Tables): string
    requires from <= |t.patterns|
    decreases |t.patterns| - from
  {
    if from == |t.patterns| then ""
    else if t.patterns[from].id == id then t.patterns[from].canonical
    else CanonicalForPattern(id, from + 1, t)
  }

  /** A configured fact, trimmed; the empty text when the operator has not provided it. */
  function FactFor(p: Pattern, facts: Facts): string {
    if p.id in facts then TrimSpace(facts[p.id]) else ""
  }

  // ----- laws

  /** A word of the prompt that is no word of the employer's name. */
  predicate Asks(q: Question, w: string, t: Tables) {
    w in Tokens(q.prompt, t) && w !in Tokens(q.company, t)
  }

  /** Some marker of some group is a word the question asks with. */
  ghost predicate AsksMarker(q: Question, groups: seq<seq<string>>, t: Tables) {
    exists g, w :: 0 <= g < |groups| && w in groups[g] && Asks(q, w, t)
  }

  /** Which questions are handled how: one with no word of its own, or with a declaration's word, is a declaration; any
      other is per-job exactly when it is asked in free text with an essay's word, or in a text area at length. */
  lemma ClassifiesExactly(q: Question, t: Tables)
    ensures var control := ToLower(TrimSpace(q.controlType));
            var declares := (forall w :: !Asks(q, w, t)) || AsksMarker(q, t.sensitiveMarkers, t);
            var essay :=
              AsksMarker(q, t.generatedMarkers, t) && (control in t.freeTextControls || control == "textarea");
            var long := control == "textarea" && |Normalize(q.prompt, t)| >= 120;
            && (Classify(q, t) == Sensitive <==> declares)
            && (Classify(q, t) == GeneratePerJob <==> !declares && (essay || long))
            && (Classify(q, t) == Routine <==> !declares && !essay && !long)
  {
    forall w
      ensures w in Present(q, t) <==> Asks(q, w, t)
    {
    }
    MarkerIs(q, t.sensitiveMarkers, t);
    MarkerIs(q, t.generatedMarkers, t);
    assert Tokens(q.prompt, t) == [] ==> forall w :: !Asks(q, w, t);
    hide Tokens, Normalize, ToLower, TrimSpace, Present, MatchesAnyGroup, Asks, AsksMarker;
    assert Present(q, t) == {} <==> forall w :: !Asks(q, w, t);
  }

  lemma MarkerIs(q: Question, groups: seq<seq<string>>, t: Tables)
    ensures MatchesAnyGroup(Present(q, t), groups) <==> AsksMarker(q, groups, t)
  {
    hide Tokens;
    if g, w :| 0 <= g < |groups| && w in groups[g] && Asks(q, w, t) {
      var k :| 0 <= k < |groups[g]| && groups[g][k] == w;
      assert groups[g][k] in Present(q, t);
    }
    if MatchesAnyGroup(Present(q, t), groups) {
      var g :| 0 <= g < |groups| && exists k :: 0 <= k < |groups[g]| && groups[g][k] in Present(q, t);
      var k :| 0 <= k < |groups[g]| && groups[g][k] in Present(q, t);
      assert groups[g][k] in groups[g] && Asks(q, groups[g][k], t);
    }
  }

  /** When a pattern answers to a question: it asks for something, every group it asks for has a word in the prompt, no
      denied word is there, and the pattern's own refusal does not apply. */
  lemma MatchesExactly(q: Question, p: Pattern, t: Tables)
    ensures MatchesPattern(TokenSet(q.prompt, t), q, p, t) <==>
            && |p.requireAll| > 0
            && (forall g :: 0 <= g < |p.requireAll| ==> exists w :: w in p.requireAll[g] && w in Tokens(q.prompt, t))
            && (forall w :: w in p.deny ==> w !in Tokens(q.prompt, t))
            && (p.rejects.RejectSkillScoped? ==> SkillExperienceSubject(q, t) == "")
            && (p.rejects.RejectTokens? ==> forall w :: w in Tokens(q.prompt, t) ==> w !in p.rejects.tokens)
  {
    hide Tokens, SkillExperienceSubject;
    var tokens := Tokens(q.prompt, t);
    if p.rejects.RejectTokens? {
      AnyInIs(tokens, p.rejects.tokens);
    }
    forall words: seq<string>
      ensures AnyIn(words, TokenSet(q.prompt, t)) <==> exists w :: w in words && w in tokens
    {
      AnyInIs(words, TokenSet(q.prompt, t));
      assert forall w :: w in TokenSet(q.prompt, t) <==> w in tokens;
    }
    hide AnyIn, TokenSet;
    assert AnyIn(p.deny, TokenSet(q.prompt, t)) <==> exists w :: w in p.deny && w in tokens;
    if forall g :: 0 <= g < |p.requireAll| ==> exists w :: w in p.requireAll[g] && w in tokens {
      forall g | 0 <= g < |p.requireAll|
        ensures AnyIn(p.requireAll[g], TokenSet(q.prompt, t))
      {
        var w :| w in p.requireAll[g] && w in tokens;
      }
    }
    if forall g :: 0 <= g < |p.requireAll| ==> AnyIn(p.requireAll[g], TokenSet(q.prompt, t)) {
      forall g | 0 <= g < |p.requireAll|
        ensures exists w :: w in p.requireAll[g] && w in tokens
      {
        assert AnyIn(p.requireAll[g], TokenSet(q.prompt, t));
      }
    }
  }

  /** The wording of a pattern identifier is that of the first pattern with it. */
  lemma {:induction false} CanonicalIsFirst(id: string, from: nat, i: nat, t: Tables)
    requires from <= i < |t.patterns| && t.patterns[i].id == id
    requires forall j :: from <= j < i ==> t.patterns[j].id != id
    ensures CanonicalForPattern(id, from, t) == t.patterns[i].canonical
    decreases i - from
  {
    if from < i {
      CanonicalIsFirst(id, from + 1, i, t);
    }
  }

  /** The pattern found is the first one in the table that matches, and none is found only if none matches. */
  lemma {:induction false} FirstMatchIsFirst(q: Question, from: nat, t: Tables)
    requires from <= |t.patterns|
    ensures match FirstMatch(q, from, t)
            case Some(p) => exists i :: from <= i < |t.patterns| && t.patterns[i] == p && Matches(q, i, t)
                                        && forall j :: from <= j < i ==> !Matches(q, j, t)
            case None => forall j :: from <= j < |t.patterns| ==> !Matches(q, j, t)
    decreases |t.patterns| - from
  {
    hide TokensMatch, Rejects;
    if from < |t.patterns| {
      FirstMatchIsFirst(q, from + 1, t);
      if Matches(q, from, t) {
        assert t.patterns[from] == FirstMatch(q, from, t).value;
      }
    }
  }

  predicate Matches(q: Question, i: nat, t: Tables)
    requires i < |t.patterns|
  {
    MatchesPattern(TokenSet(q.prompt, t), q, t.patterns[i], t)
  }

  lemma {:induction false} FirstMatchCongruent(q1: Question, q2: Question, from: nat, t: Tables)
    requires from <= |t.patterns|
    requires TokenSet(q1.prompt, t) == TokenSet(q2.prompt, t)
    requires forall r :: Rejects(r, q1, t) == Rejects(r, q2, t)
    ensures FirstMatch(q1, from, t) == FirstMatch(q2, from, t)
    decreases |t.patterns| - from
  {
    if from < |t.patterns| {
      var p := t.patterns[from];
      assert Rejects(p.rejects, q1, t) == Rejects(p.rejects, q2, t);
      FirstMatchCongruent(q1, q2, from + 1, t);
    }
  }

  /** Nothing but the normalized words of a prompt is ever looked at: two wordings with the same normalization
      are classified, recognised, reduced and keyed alike. */
  lemma OnlyNormalizedTextMatters(q: Question, wording: string, t: Tables)
    requires Normalize(q.prompt, t) == Normalize(wording, t)
    ensures Classify(q.(prompt := wording), t) == Classify(q, t)
    ensures MatchPattern(q.(prompt := wording), t) == MatchPattern(q, t)
    ensures SkillExperienceSubject(q.(prompt := wording), t) == SkillExperienceSubject(q, t)
    ensures QuestionKey(wording, t) == QuestionKey(q.prompt, t)
  {
    assert Tokens(wording, t) == Tokens(q.prompt, t);
    FirstMatchCongruent(q.(prompt := wording), q, 0, t);
  }
}
