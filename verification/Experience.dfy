/** Reducing a "how many years of X" question to its subject X, and printing X as a question again. */
module Experience {
  import opened Model
  import opened Text
  import opened Normalizer
  import opened Collections

  /** The words that are neither experience vocabulary nor part of the employer's name. */
  function Remainder(tokens: seq<string>, company: set<string>, t: Tables): seq<string> {
    if tokens == [] then []
    else if tokens[0] in t.genericTokens || tokens[0] in company then Remainder(tokens[1..], company, t)
    else [tokens[0]] + Remainder(tokens[1..], company, t)
  }

  function TokenSet(text: string, t: Tables): set<string> {
    set w | w in Tokens(text, t)
  }

  predicate AnyIn(tokens: seq<string>, table: set<string>) {
    exists k :: 0 <= k < |tokens| && tokens[k] in table
  }

  /** The skill or technology a duration question asks about, or "" for any other question. */
  function SkillExperienceSubject(q: Question, t: Tables): string {
    var tokens := Tokens(q.prompt, t);
    if AnyIn(tokens, t.durationTokens) && AnyIn(tokens, t.subjectTokens)
    then Join(Remainder(tokens, TokenSet(q.company, t), t))
    else ""
  }

  method ReadSubject(q: Question, t: Tables) returns (subject: string)
    ensures subject == SkillExperienceSubject(q, t)
  {
    hide Tokens, TokenSet, Join;
    var tokens := Tokens(q.prompt, t);
    if tokens == [] {
      return "";
    }
    var company := TokenSet(q.company, t);
    var hasDuration, hasSubject, remainder := false, false, [];
    for i := 0 to |tokens|
      invariant hasDuration <==> exists k :: 0 <= k < i && tokens[k] in t.durationTokens
      invariant hasSubject <==> exists k :: 0 <= k < i && tokens[k] in t.subjectTokens
      invariant Remainder(tokens, company, t) == remainder + Remainder(tokens[i..], company, t)
    {
      var token := tokens[i];
      assert tokens[i..][0] == token && tokens[i..][1..] == tokens[i + 1..];
      if token in t.durationTokens {
        hasDuration := true;
      }
      if token in t.subjectTokens {
        hasSubject := true;
      }
      if !(token in t.genericTokens || token in company) {
        remainder := remainder + [token];
      }
    }
    assert tokens[|tokens|..] == [] && remainder == Remainder(tokens, company, t);
    return if !hasDuration || !hasSubject then "" else Join(remainder);
  }

  function SkillExperienceQuestion(subject: string): string {
    var trimmed := TrimSpace(subject);
    if trimmed == "" then "" else "How many years of " + trimmed + " experience do you have?"
  }

  function SkillExperienceKey(subject: string, t: Tables): string {
    QuestionKey(SkillExperienceQuestion(subject), t)
  }

  // ----- laws

  lemma {:induction false} RemainderConcat(a: seq<string>, b: seq<string>, company: set<string>, t: Tables)
    ensures Remainder(a + b, company, t) == Remainder(a, company, t) + Remainder(b, company, t)
  {
    if a == [] {
      assert a + b == b;
    } else {
      assert (a + b)[1..] == a[1..] + b;
      RemainderConcat(a[1..], b, company, t);
    }
  }

  /** A subject word: one normalization can produce, outside the experience vocabulary and the employer's name. */
  ghost predicate IsSubjectWord(w: string, company: set<string>, t: Tables) {
    IsKept(w, t) && w !in t.genericTokens && w !in company
  }

  lemma {:induction false} RemainderSelects(tokens: seq<string>, company: set<string>, t: Tables)
    requires AllKept(tokens, t)
    ensures forall i :: 0 <= i < |Remainder(tokens, company, t)| ==>
              IsSubjectWord(Remainder(tokens, company, t)[i], company, t)
  {
    if tokens != [] {
      RemainderSelects(tokens[1..], company, t);
    }
  }

  lemma {:induction false} RemainderOfSubject(ws: seq<string>, company: set<string>, t: Tables)
    requires forall i :: 0 <= i < |ws| ==> IsSubjectWord(ws[i], company, t)
    ensures Remainder(ws, company, t) == ws
  {
    if ws != [] {
      RemainderOfSubject(ws[1..], company, t);
    }
  }

  const BEFORE: seq<string> := ["how", "many", "years", "of"]
  const AFTER: seq<string> := ["experience", "do", "you", "have"]

  lemma FrameJoins()
    ensures Join(BEFORE) == "how many years of"
    ensures Join(AFTER) == "experience do you have"
  {
    assert BEFORE[1..] == ["many", "years", "of"] && BEFORE[1..][1..] == ["years", "of"];
    assert BEFORE[1..][1..][1..] == ["of"];
    assert AFTER[1..] == ["do", "you", "have"] && AFTER[1..][1..] == ["you", "have"];
    assert AFTER[1..][1..][1..] == ["have"];
  }

  lemma FrameWords()
    ensures AllWords(BEFORE) && AllWords(AFTER)
  {
  }

  /** None of the frame words contains a marker of eight letters that starts like "required" or "optional". */
  lemma FrameLacksLong(m: string, k: nat)
    requires |m| == 8 && m[0] in {'r', 'o'} && k < 4
    ensures !Contains(BEFORE[k], m) && !Contains(AFTER[k], m)
  {
    var e := "experience";
    assert AFTER[0] == e && e[0] == 'e' && e[1] == 'x' && e[2] == 'p';
    assert !OccursAt(e, m, 0) && !OccursAt(e, m, 1) && !OccursAt(e, m, 2) by {
      assert e[0..8][0] == e[0] && e[1..9][0] == e[1] && e[2..10][0] == e[2];
    }
  }

  /** A word contains no marker that starts with a character words do not have. */
  lemma WordLacks(w: string, m: string)
    requires IsWord(w) && m != [] && !IsAlnum(m[0])
    ensures !Contains(w, m)
  {
    if Contains(w, m) {
      ContainsFirstChar(w, m);
    }
  }

  lemma QuestionLacks(before: seq<string>, ws: seq<string>, after: seq<string>, m: string)
    requires m != [] && NoBlank(m) && '?' !in m
    requires forall w :: w in before || w in ws || w in after ==> !Contains(w, m)
    ensures !Contains(Join(before + ws + after) + "?", m)
  {
    var all := before + ws + after;
    JoinLacks(all, m);
    assert Join(all) + "?" == Join(all) + ['?'] + "";
    if Contains(Join(all) + "?", m) {
      FactorOfHalves(Join(all), '?', "", m);
      ContainsFirstChar("", m);
    }
  }

  lemma LowerAround(head: string, s: string, tail: string)
    requires forall i :: 0 <= i < |s| ==> IsAlnum(s[i]) || s[i] == ' '
    ensures ToLower(head + s + tail) == ToLower(head) + s + ToLower(tail)
  {
  }

  lemma LowerFrame()
    ensures ToLower("How many years of ") == "how many years of "
    ensures ToLower(" experience do you have?") == " experience do you have?"
  {
  }

  lemma FrameIsPlain()
    ensures forall i :: 0 <= i < |"how many years of "| ==> "how many years of "[i] !in {'<', '>'}
    ensures forall i :: 0 <= i < |" experience do you have?"| ==> " experience do you have?"[i] !in {'<', '>'}
  {
  }

  /** A text put together from a frame and joined words is cleaned to its lower-cased self. */
  lemma CleanedAround(head: string, s: string, tail: string, t: Tables)
    requires head != [] && tail != [] && !IsSpace(head[0]) && !IsSpace(tail[|tail| - 1])
    requires forall i :: 0 <= i < |s| ==> IsAlnum(s[i]) || s[i] == ' '
    requires forall i :: 0 <= i < |head| ==> ToLower(head)[i] !in {'<', '>'}
    requires forall i :: 0 <= i < |tail| ==> ToLower(tail)[i] !in {'<', '>'}
    requires PlainMarkers(t)
    requires forall k :: 0 <= k < |t.markers| ==> !Contains(ToLower(head) + s + ToLower(tail), t.markers[k])
    ensures Cleaned(head + s + tail, t) == ToLower(head) + s + ToLower(tail)
  {
    var lowered := ToLower(head) + s + ToLower(tail);
    LowerAround(head, s, tail);
    forall i | 0 <= i < |lowered|
      ensures lowered[i] !in {'<', '>'}
    {
      if i < |head| {
        assert lowered[i] == ToLower(head)[i];
      } else if i < |head| + |s| {
        assert lowered[i] == s[i - |head|];
      } else {
        assert lowered[i] == ToLower(tail)[i - |head| - |s|];
      }
    }
    CleanedPlain(head + s + tail, lowered, t);
  }

  /** Joined frame words and subject, with the question mark. */
  lemma PrintedJoin(ws: seq<string>)
    requires ws != []
    ensures Join(BEFORE + ws + AFTER) + "?" == "how many years of " + Join(ws) + " experience do you have?"
  {
    FrameJoins();
    JoinConcat(BEFORE + ws, AFTER);
    JoinConcat(BEFORE, ws);
    JoinedFrame("how many years of", Join(ws), "experience do you have");
    assert "how many years of" + " " == "how many years of ";
    assert " " + "experience do you have" + "?" == " experience do you have?";
  }

  lemma JoinedFrame(head: string, s: string, tail: string)
    ensures ((head + " " + s) + " " + tail) + "?" == (head + " ") + s + (" " + tail + "?")
  {
  }

  /** The printed question, cleaned, is the frame words around the subject, with a question mark. */
  lemma PrintedQuestion(ws: seq<string>, t: Tables)
    requires SoundWords(t) && PlainMarkers(t) && ws != [] && AllKept(ws, t)
    ensures Cleaned(SkillExperienceQuestion(Join(ws)), t) == Join(BEFORE + ws + AFTER) + "?"
  {
    hide Words, Join, WithoutMarkers, Stripped;
    JoinShape(ws);
    TrimSpaceTrims(Join(ws));
    PrintedJoin(ws);
    forall k | 0 <= k < |t.markers|
      ensures !Contains(Join(BEFORE + ws + AFTER) + "?", t.markers[k])
    {
      PrintedLacksMarker(ws, k, t);
    }
    LowerFrame();
    FrameIsPlain();
    CleanedAround("How many years of ", Join(ws), " experience do you have?", t);
  }

  lemma PrintedLacksMarker(ws: seq<string>, k: nat, t: Tables)
    requires SoundWords(t) && PlainMarkers(t) && AllKept(ws, t) && k < |t.markers|
    ensures !Contains(Join(BEFORE + ws + AFTER) + "?", t.markers[k])
  {
    hide Join;
    var m := t.markers[k];
    FrameWords();
    forall j | 0 <= j < 4
      ensures !Contains(BEFORE[j], m) && !Contains(AFTER[j], m)
    {
      if IsAlnum(m[0]) {
        FrameLacksLong(m, j);
      } else {
        WordLacks(BEFORE[j], m);
        WordLacks(AFTER[j], m);
      }
    }
    QuestionLacks(BEFORE, ws, AFTER, m);
  }

  lemma KeptOne(w: string, ws: seq<string>, t: Tables)
    ensures Kept([w] + ws, t) == (if w in t.stopWords then [] else [w]) + Kept(ws, t)
  {
    assert ([w] + ws)[1..] == ws;
  }

  lemma FrameKept(t: Tables)
    requires SoundWords(t)
    ensures Kept(BEFORE, t) == ["how", "many", "years"] && Kept(AFTER, t) == ["experience"]
  {
    KeptOne("of", [], t);
    KeptOne("years", ["of"], t);
    KeptOne("many", ["years", "of"], t);
    KeptOne("how", ["many", "years", "of"], t);
    KeptOne("have", [], t);
    KeptOne("you", ["have"], t);
    KeptOne("do", ["you", "have"], t);
    KeptOne("experience", ["do", "you", "have"], t);
  }

  lemma WordsOfQuestion(ws: seq<string>)
    requires AllWords(ws)
    ensures Words(Join(ws) + "?") == ws
  {
    WordsConcat(Join(ws), "?");
    WordsOfJoin(ws);
    assert Words("?") == Words("?"[1..]) == [];
  }

  lemma KeptAround(before: seq<string>, ws: seq<string>, after: seq<string>, t: Tables)
    requires AllKept(ws, t)
    ensures Kept(before + ws + after, t) == Kept(before, t) + ws + Kept(after, t)
  {
    KeptConcat(before + ws, after, t);
    KeptConcat(before, ws, t);
    KeptOfKept(ws, t);
  }

  /** The words of the printed question. */
  lemma PrintedTokens(ws: seq<string>, t: Tables)
    requires SoundWords(t) && PlainMarkers(t) && ws != [] && AllKept(ws, t)
    ensures Tokens(SkillExperienceQuestion(Join(ws)), t) == ["how", "many", "years"] + ws + ["experience"]
  {
    PrintedQuestion(ws, t);
    FrameWords();
    WordsOfQuestion(BEFORE + ws + AFTER);
    KeptAround(BEFORE, ws, AFTER, t);
    FrameKept(t);
    TokensAreKeptWords(SkillExperienceQuestion(Join(ws)), t);
  }

  /** What a non-empty subject is made of. */
  lemma SubjectShape(q: Question, t: Tables) returns (ws: seq<string>)
    requires PlainMarkers(t) && SkillExperienceSubject(q, t) != ""
    ensures ws != [] && SkillExperienceSubject(q, t) == Join(ws)
    ensures forall i :: 0 <= i < |ws| ==> IsSubjectWord(ws[i], TokenSet(q.company, t), t)
  {
    ws := Remainder(Tokens(q.prompt, t), TokenSet(q.company, t), t);
    TokensAreKeptWords(q.prompt, t);
    NormalizedWords(q.prompt, t);
    RemainderSelects(Tokens(q.prompt, t), TokenSet(q.company, t), t);
  }

  lemma FrameRemainder(company: set<string>, t: Tables)
    requires SoundWords(t)
    ensures Remainder(["how", "many", "years"], company, t) == [] == Remainder(["experience"], company, t)
  {
    assert Remainder(["experience"], company, t) == Remainder([], company, t);
    assert ["years"][1..] == [] && Remainder(["years"], company, t) == [];
    assert ["many", "years"][1..] == ["years"] && Remainder(["many", "years"], company, t) == [];
    assert ["how", "many", "years"][1..] == ["many", "years"];
  }

  lemma RemainderAround(before: seq<string>, ws: seq<string>, after: seq<string>, company: set<string>, t: Tables)
    requires Remainder(before, company, t) == [] && Remainder(after, company, t) == []
    requires forall i :: 0 <= i < |ws| ==> IsSubjectWord(ws[i], company, t)
    ensures Remainder(before + ws + after, company, t) == ws
  {
    RemainderConcat(before + ws, after, company, t);
    RemainderConcat(before, ws, company, t);
    RemainderOfSubject(ws, company, t);
  }

  lemma SubjectFromTokens(q: Question, before: seq<string>, ws: seq<string>, after: seq<string>, t: Tables)
    requires Tokens(q.prompt, t) == before + ws + after
    requires AnyIn(before, t.durationTokens) && AnyIn(after, t.subjectTokens)
    requires Remainder(before, TokenSet(q.company, t), t) == [] == Remainder(after, TokenSet(q.company, t), t)
    requires forall i :: 0 <= i < |ws| ==> IsSubjectWord(ws[i], TokenSet(q.company, t), t)
    ensures SkillExperienceSubject(q, t) == Join(ws)
  {
    var tokens := Tokens(q.prompt, t);
    var d :| 0 <= d < |before| && before[d] in t.durationTokens;
    var e :| 0 <= e < |after| && after[e] in t.subjectTokens;
    AnyInAt(tokens, d, before[d], t.durationTokens);
    AnyInAt(tokens, |before| + |ws| + e, after[e], t.subjectTokens);
    RemainderAround(before, ws, after, TokenSet(q.company, t), t);
  }

  lemma AnyInAt(tokens: seq<string>, k: nat, w: string, table: set<string>)
    requires k < |tokens| && tokens[k] == w && w in table
    ensures AnyIn(tokens, table)
  {
  }

  /** Reduction undoes its printer: a printed subject reduces to itself, asked by nobody in particular or by
      any company whose name shares no word with it. */
  lemma PrintedSubjectReduces(ws: seq<string>, q: Question, t: Tables)
    requires SoundWords(t) && PlainMarkers(t) && ws != []
    requires forall i :: 0 <= i < |ws| ==> IsSubjectWord(ws[i], TokenSet(q.company, t), t)
    requires q.prompt == SkillExperienceQuestion(Join(ws))
    ensures SkillExperienceSubject(q, t) == Join(ws)
  {
    PrintedTokens(ws, t);
    FrameRemainder(TokenSet(q.company, t), t);
    AnyInAt(["how", "many", "years"], 2, "years", t.durationTokens);
    AnyInAt(["experience"], 0, "experience", t.subjectTokens);
    SubjectFromTokens(q, ["how", "many", "years"], ws, ["experience"], t);
  }

  /** For every question with a subject, the canonical question for that subject has the same subject, whether
      asked with no company or by the same company. */
  lemma SkillReductionUndoesPrinter(q: Question, t: Tables)
    requires SoundWords(t) && PlainMarkers(t) && SkillExperienceSubject(q, t) != ""
    ensures var canonical := q.(prompt := SkillExperienceQuestion(SkillExperienceSubject(q, t)));
            && SkillExperienceSubject(canonical, t) == SkillExperienceSubject(q, t)
            && SkillExperienceSubject(canonical.(company := ""), t) == SkillExperienceSubject(q, t)
  {
    var ws := SubjectShape(q, t);
    var canonical := q.(prompt := SkillExperienceQuestion(Join(ws)));
    PrintedSubjectReduces(ws, canonical, t);
    NoMarkersToRemove("", t.markers);
    assert Cleaned("", t) == "" && Tokens("", t) == [];
    PrintedSubjectReduces(ws, canonical.(company := ""), t);
  }

  // ----- when there is a subject

  /** Neither experience vocabulary nor a word of the employer's name. */
  function IsRemaining(q: Question, t: Tables): string -> bool {
    (w: string) => w !in t.genericTokens && w !in Tokens(q.company, t)
  }

  lemma {:induction false} RemainderIsFilter(tokens: seq<string>, q: Question, t: Tables)
    ensures Remainder(tokens, TokenSet(q.company, t), t) == Filter(tokens, IsRemaining(q, t))
  {
    hide Tokens;
    if tokens != [] {
      var rest, w := tokens[..|tokens| - 1], tokens[|tokens| - 1];
      RemainderIsFilter(rest, q, t);
      assert tokens == rest + [w] && [w][1..] == [];
      RemainderConcat(rest, [w], TokenSet(q.company, t), t);
      FilterSnoc(rest, w, IsRemaining(q, t));
    }
  }

  lemma {:induction false} JoinOfWords(ws: seq<string>)
    requires AllWords(ws)
    ensures Join(ws) == "" <==> ws == []
  {
    JoinShape(ws);
  }

  lemma RemainingAreWords(q: Question, t: Tables)
    ensures AllWords(Filter(Tokens(q.prompt, t), IsRemaining(q, t)))
  {
    TokensAreKeptWords(q.prompt, t);
    KeptWordsAreWords(q.prompt, t);
    hide Tokens, KeptWords;
    var left := Filter(Tokens(q.prompt, t), IsRemaining(q, t));
    FilterMembers(Tokens(q.prompt, t), IsRemaining(q, t));
    forall k | 0 <= k < |left|
      ensures IsWord(left[k])
    {
      assert left[k] in left;
      var i :| 0 <= i < |Tokens(q.prompt, t)| && Tokens(q.prompt, t)[i] == left[k];
    }
  }

  /** A question has a subject exactly when one of its words speaks of duration, one speaks of experience, and one is
      neither experience vocabulary nor the employer's; the subject is then made of all words of the last kind. */
  lemma SubjectExactly(q: Question, t: Tables)
    ensures var tokens, subject := Tokens(q.prompt, t), SkillExperienceSubject(q, t);
            && (subject != "" <==>
                  && (exists w :: w in tokens && w in t.durationTokens)
                  && (exists w :: w in tokens && w in t.subjectTokens)
                  && exists w :: w in tokens && w !in t.genericTokens && w !in Tokens(q.company, t))
            && (subject != "" ==> subject == Join(Filter(tokens, IsRemaining(q, t))))
  {
    var tokens := Tokens(q.prompt, t);
    RemainderIsFilter(tokens, q, t);
    RemainingAreWords(q, t);
    JoinOfWords(Filter(tokens, IsRemaining(q, t)));
    FilterMembers(tokens, IsRemaining(q, t));
    hide Tokens, Filter, Join, Remainder;
    AnyInIs(tokens, t.durationTokens);
    AnyInIs(tokens, t.subjectTokens);
    var left := Filter(tokens, IsRemaining(q, t));
    assert left != [] ==> left[0] in left;
  }

  lemma AnyInIs(tokens: seq<string>, table: set<string>)
    ensures AnyIn(tokens, table) <==> exists w :: w in tokens && w in table
  {
    if w :| w in tokens && w in table {
      var k :| 0 <= k < |tokens| && tokens[k] == w;
    }
  }

  /** Without a word of either kind there is no subject. */
  lemma NoSubjectWithoutBoth(q: Question, t: Tables)
    requires (forall w :: w in Tokens(q.prompt, t) ==> w !in t.durationTokens)
             || (forall w :: w in Tokens(q.prompt, t) ==> w !in t.subjectTokens)
    ensures SkillExperienceSubject(q, t) == ""
  {
    SubjectExactly(q, t);
  }

  /** All phrasings of one skill share one key, and the key of a subject determines the subject: two questions share
      a skill key exactly when they share the skill, or their printed questions are long and collide. */
  lemma SkillKeyIdentifiesSubject(q1: Question, q2: Question, t: Tables)
    requires SoundWords(t) && PlainMarkers(t) && SkillExperienceSubject(q1, t) != ""
             && SkillExperienceSubject(q2, t) != ""
    ensures var s1, s2 := SkillExperienceSubject(q1, t), SkillExperienceSubject(q2, t);
            SkillExperienceKey(s1, t) == SkillExperienceKey(s2, t) <==>
            (s1 == s2 || LongCollision(SkillExperienceQuestion(s1), SkillExperienceQuestion(s2), t))
  {
    var s1, s2 := SkillExperienceSubject(q1, t), SkillExperienceSubject(q2, t);
    SubjectOfPrinted(q1, t);
    SubjectOfPrinted(q2, t);
    var p1, p2 := SkillExperienceQuestion(s1), SkillExperienceQuestion(s2);
    KeysIdentifyQuestions(p1, p2, t);
    hide SkillExperienceSubject, QuestionKey, SkillExperienceQuestion, LongCollision, Normalize;
    if Normalize(p1, t) == Normalize(p2, t) {
      SameWordsSameSubject(p1, p2, t);
    }
  }

  /** A wording with nothing else known about its field. */
  function Bare(prompt: string): Question {
    Question("", prompt, "", [], false, "")
  }

  lemma SubjectOfPrinted(q: Question, t: Tables)
    requires SoundWords(t) && PlainMarkers(t) && SkillExperienceSubject(q, t) != ""
    ensures SkillExperienceSubject(Bare(SkillExperienceQuestion(SkillExperienceSubject(q, t))), t) ==
            SkillExperienceSubject(q, t)
  {
    hide SoundWords, PlainMarkers;
    SkillReductionUndoesPrinter(q, t);
    hide SkillExperienceQuestion;
    var p := SkillExperienceQuestion(SkillExperienceSubject(q, t));
    SubjectReadsWording(q.(prompt := p, company := ""), Bare(p), t);
  }

  /** The subject depends on nothing but the wording and the employer. */
  lemma SubjectReadsWording(q: Question, r: Question, t: Tables)
    requires q.prompt == r.prompt && q.company == r.company
    ensures SkillExperienceSubject(q, t) == SkillExperienceSubject(r, t)
  {
  }

  lemma SameWordsSameSubject(p1: string, p2: string, t: Tables)
    requires Normalize(p1, t) == Normalize(p2, t)
    ensures SkillExperienceSubject(Bare(p1), t) == SkillExperienceSubject(Bare(p2), t)
  {
    assert Tokens(p1, t) == Tokens(p2, t);
    hide Tokens, Normalize;
  }
}
