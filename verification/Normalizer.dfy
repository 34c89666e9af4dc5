/** Question normalization: the comparison key every lookup in the vault goes through. */
module Normalizer {
  import opened Model
  import opened Text
  import opened Collections

  /** The text outside angle brackets, reading `s` from nesting depth `depth`; a closing bracket leaves a blank. */
  function Stripped(s: string, depth: nat): string {
    if s == [] then ""
    else if s[0] == '<' then Stripped(s[1..], depth + 1)
    else if s[0] == '>' then " " + Stripped(s[1..], if depth > 0 then depth - 1 else 0)
    else if depth == 0 then [s[0]] + Stripped(s[1..], 0)
    else Stripped(s[1..], depth)
  }

  method StripMarkup(text: string) returns (out: string)
    ensures out == Stripped(text, 0)
  {
    out := "";
    var depth: nat := 0;
    for i := 0 to |text|
      invariant Stripped(text, 0) == out + Stripped(text[i..], depth)
    {
      ghost var rest := text[i..];
      assert rest[0] == text[i] && rest[1..] == text[i + 1..];
      if text[i] == '<' {
        depth := depth + 1;
      } else if text[i] == '>' {
        if depth > 0 {
          depth := depth - 1;
        }
        out := out + " ";
      } else if depth == 0 {
        out := out + [text[i]];
      }
    }
  }

  /** The text with every marker, in the order given, replaced by a blank. */
  function WithoutMarkers(s: string, markers: seq<string>): string
    decreases |markers|
  {
    if markers == [] then s else WithoutMarkers(ReplaceWithBlank(s, markers[0]), markers[1..])
  }

  /** The words that are not stop words, in order. */
  function Kept(ws: seq<string>, t: Tables): seq<string> {
    if ws == [] then []
    else if ws[0] in t.stopWords then Kept(ws[1..], t)
    else [ws[0]] + Kept(ws[1..], t)
  }

  /** The cleaned text the words are read from. */
  function Cleaned(text: string, t: Tables): string {
    WithoutMarkers(Stripped(ToLower(TrimSpace(text)), 0), t.markers)
  }

  /** The words normalization keeps. */
  function KeptWords(text: string, t: Tables): seq<string> {
    Kept(Words(Cleaned(text, t)), t)
  }

  function Normalize(text: string, t: Tables): string {
    Join(KeptWords(text, t))
  }

  method NormalizeText(text: string, t: Tables) returns (out: string)
    ensures out == Normalize(text, t)
  {
    var lowered := ToLower(TrimSpace(text));
    var cleaned := StripMarkup(lowered);
    for m := 0 to |t.markers|
      invariant Cleaned(text, t) == WithoutMarkers(cleaned, t.markers[m..])
    {
      assert t.markers[m..][0] == t.markers[m] && t.markers[m..][1..] == t.markers[m + 1..];
      cleaned := ReplaceWithBlank(cleaned, t.markers[m]);
    }
    assert cleaned == Cleaned(text, t);
    var fields, kept := Words(cleaned), [];
    for i := 0 to |fields|
      invariant Kept(fields, t) == kept + Kept(fields[i..], t)
    {
      assert fields[i..][0] == fields[i] && fields[i..][1..] == fields[i + 1..];
      if fields[i] !in t.stopWords {
        kept := kept + [fields[i]];
      }
    }
    assert fields[|fields|..] == [] && kept == Kept(fields, t);
    out := Join(kept);
  }

  function Tokens(text: string, t: Tables): seq<string> {
    var normalized := Normalize(text, t);
    if normalized == "" then [] else SplitBlanks(normalized)
  }

  const MAX_READABLE_KEY := 160

  function QuestionKey(prompt: string, t: Tables): string {
    var normalized := Normalize(prompt, t);
    if |normalized| <= MAX_READABLE_KEY then normalized
    else normalized[..MAX_READABLE_KEY] + "#" + t.digest(normalized)
  }

  /** The words of a company name that are not legal-form suffixes. */
  function CompanyWords(ws: seq<string>, t: Tables): seq<string> {
    if ws == [] then []
    else if ws[0] in t.companySuffixes then CompanyWords(ws[1..], t)
    else [ws[0]] + CompanyWords(ws[1..], t)
  }

  function NormalizeCompany(company: string, t: Tables): string {
    Join(CompanyWords(Words(ToLower(TrimSpace(company))), t))
  }

  // ----- laws

  /** A word normalization can produce: alphanumeric, not a stop word, and free of every marker. */
  ghost predicate IsKept(w: string, t: Tables) {
    IsWord(w) && w !in t.stopWords && forall k :: 0 <= k < |t.markers| ==> !Contains(w, t.markers[k])
  }

  ghost predicate AllKept(ws: seq<string>, t: Tables) {
    forall i :: 0 <= i < |ws| ==> IsKept(ws[i], t)
  }

  /** A marker that does not occur is not brought back by removing others. */
  lemma {:induction false} StaysAbsent(s: string, markers: seq<string>, m: string)
    requires m != [] && NoBlank(m) && !Contains(s, m)
    requires forall k :: 0 <= k < |markers| ==> markers[k] != []
    ensures !Contains(WithoutMarkers(s, markers), m)
    decreases |markers|
  {
    if markers != [] {
      if Contains(ReplaceWithBlank(s, markers[0]), m) {
        ReplaceCreatesNothing(s, markers[0], m);
      }
      StaysAbsent(ReplaceWithBlank(s, markers[0]), markers[1..], m);
    }
  }

  /** After the whole marker pass none of the markers occurs, although each is removed before the next. */
  lemma {:induction false} MarkersGone(s: string, markers: seq<string>)
    requires forall k :: 0 <= k < |markers| ==> markers[k] != [] && NoBlank(markers[k])
    ensures forall k :: 0 <= k < |markers| ==> !Contains(WithoutMarkers(s, markers), markers[k])
    decreases |markers|
  {
    if markers != [] {
      ReplaceRemoves(s, markers[0]);
      StaysAbsent(ReplaceWithBlank(s, markers[0]), markers[1..], markers[0]);
      MarkersGone(ReplaceWithBlank(s, markers[0]), markers[1..]);
    }
  }

  lemma {:induction false} NoMarkersToRemove(s: string, markers: seq<string>)
    requires forall k :: 0 <= k < |markers| ==> markers[k] != [] && !Contains(s, markers[k])
    ensures WithoutMarkers(s, markers) == s
    decreases |markers|
  {
    if markers != [] {
      ReplaceAbsent(s, markers[0]);
      NoMarkersToRemove(s, markers[1..]);
    }
  }

  lemma {:induction false} KeptSelects(ws: seq<string>, t: Tables)
    ensures forall i :: 0 <= i < |Kept(ws, t)| ==> Kept(ws, t)[i] in ws && Kept(ws, t)[i] !in t.stopWords
  {
    if ws != [] {
      KeptSelects(ws[1..], t);
    }
  }

  lemma {:induction false} KeptConcat(a: seq<string>, b: seq<string>, t: Tables)
    ensures Kept(a + b, t) == Kept(a, t) + Kept(b, t)
  {
    if a == [] {
      assert a + b == b;
    } else {
      assert (a + b)[1..] == a[1..] + b;
      KeptConcat(a[1..], b, t);
    }
  }

  lemma {:induction false} KeptOfKept(ws: seq<string>, t: Tables)
    requires forall i :: 0 <= i < |ws| ==> ws[i] !in t.stopWords
    ensures Kept(ws, t) == ws
  {
    if ws != [] {
      KeptOfKept(ws[1..], t);
    }
  }

  /** Every word normalization outputs is alphanumeric, no stop word, and carries no required/optional marker. */
  lemma NormalizedWords(text: string, t: Tables)
    requires PlainMarkers(t)
    ensures AllKept(KeptWords(text, t), t)
  {
    var cleaned := Cleaned(text, t);
    var ws := Words(cleaned);
    KeptSelects(ws, t);
    WordsAreWords(cleaned);
    MarkersGone(Stripped(ToLower(TrimSpace(text)), 0), t.markers);
    forall i, m | 0 <= i < |KeptWords(text, t)| && 0 <= m < |t.markers|
      ensures !Contains(KeptWords(text, t)[i], t.markers[m])
    {
      var k :| 0 <= k < |ws| && ws[k] == KeptWords(text, t)[i];
      WordsOccur(cleaned, k);
      if Contains(ws[k], t.markers[m]) {
        ContainsTrans(cleaned, ws[k], t.markers[m]);
      }
    }
  }

  lemma KeptWordsAreWords(text: string, t: Tables)
    ensures AllWords(KeptWords(text, t))
  {
    KeptSelects(Words(Cleaned(text, t)), t);
    WordsAreWords(Cleaned(text, t));
  }

  function NoStopWord(t: Tables): string -> bool {
    (w: string) => w !in t.stopWords
  }

  function NoSuffix(t: Tables): string -> bool {
    (w: string) => w !in t.companySuffixes
  }

  lemma {:induction false} KeptIsFilter(ws: seq<string>, t: Tables)
    ensures Kept(ws, t) == Filter(ws, NoStopWord(t))
  {
    if ws != [] {
      var rest, w := ws[..|ws| - 1], ws[|ws| - 1];
      KeptIsFilter(rest, t);
      assert ws == rest + [w] && [w][1..] == [];
      KeptConcat(rest, [w], t);
      FilterSnoc(rest, w, NoStopWord(t));
    }
  }

  /** Every word of the cleaned text that is no stop word is kept, in order and as often as it stands there. */
  lemma KeepsEveryOtherWord(text: string, t: Tables)
    ensures KeptWords(text, t) == Filter(Words(Cleaned(text, t)), NoStopWord(t))
  {
    KeptIsFilter(Words(Cleaned(text, t)), t);
  }

  lemma {:induction false} CompanyWordsConcat(a: seq<string>, b: seq<string>, t: Tables)
    ensures CompanyWords(a + b, t) == CompanyWords(a, t) + CompanyWords(b, t)
  {
    if a == [] {
      assert a + b == b;
    } else {
      assert (a + b)[1..] == a[1..] + b;
      CompanyWordsConcat(a[1..], b, t);
    }
  }

  lemma {:induction false} CompanyWordsIsFilter(ws: seq<string>, t: Tables)
    ensures CompanyWords(ws, t) == Filter(ws, NoSuffix(t))
  {
    if ws != [] {
      var rest, w := ws[..|ws| - 1], ws[|ws| - 1];
      CompanyWordsIsFilter(rest, t);
      assert ws == rest + [w] && [w][1..] == [];
      CompanyWordsConcat(rest, [w], t);
      FilterSnoc(rest, w, NoSuffix(t));
    }
  }

  /** A company's name keeps exactly its words that are no legal-form suffix, in lower case and in order. */
  lemma CompanyKeepsItsWords(company: string, t: Tables)
    ensures NormalizeCompany(company, t) == Join(Filter(Words(ToLower(TrimSpace(company))), NoSuffix(t)))
  {
    CompanyWordsIsFilter(Words(ToLower(TrimSpace(company))), t);
  }

  /** The text itself is reached by its tokens: splitting the normalized text gives back its words. */
  lemma TokensAreKeptWords(text: string, t: Tables)
    ensures Tokens(text, t) == KeptWords(text, t)
  {
    KeptWordsAreWords(text, t);
    JoinShape(KeptWords(text, t));
    if KeptWords(text, t) != [] {
      SplitBlanksOfJoin(KeptWords(text, t));
    }
  }

  lemma {:induction false} StrippedPlain(s: string)
    requires forall i :: 0 <= i < |s| ==> s[i] != '<' && s[i] != '>'
    ensures Stripped(s, 0) == s
  {
    if s != [] {
      StrippedPlain(s[1..]);
    }
  }

  /** A trimmed text with no bracket and no marker is only lower-cased before its words are read. */
  lemma CleanedPlain(text: string, lowered: string, t: Tables)
    requires Trimmed(text) && ToLower(text) == lowered && PlainMarkers(t)
    requires forall i :: 0 <= i < |lowered| ==> lowered[i] != '<' && lowered[i] != '>'
    requires forall k :: 0 <= k < |t.markers| ==> !Contains(lowered, t.markers[k])
    ensures Cleaned(text, t) == lowered
  {
    TrimSpaceTrims(text);
    StrippedPlain(lowered);
    NoMarkersToRemove(lowered, t.markers);
  }

  /** Joined words hold a blank-free text only where one of the words does. */
  lemma JoinLacks(ws: seq<string>, m: string)
    requires m != [] && NoBlank(m) && forall k :: 0 <= k < |ws| ==> !Contains(ws[k], m)
    ensures !Contains(Join(ws), m)
  {
    if Contains(Join(ws), m) {
      FactorOfJoin(ws, m);
    }
  }

  /** Joined kept words are a fixed point of normalization. */
  lemma NormalizeOfKept(ws: seq<string>, t: Tables)
    requires PlainMarkers(t) && AllKept(ws, t)
    ensures KeptWords(Join(ws), t) == ws
  {
    JoinShape(ws);
    assert ToLower(Join(ws)) == Join(ws);
    forall k | 0 <= k < |t.markers|
      ensures !Contains(Join(ws), t.markers[k])
    {
      JoinLacks(ws, t.markers[k]);
    }
    CleanedPlain(Join(ws), Join(ws), t);
    WordsOfJoin(ws);
    KeptOfKept(ws, t);
  }

  /** Normalization is idempotent on every input text. */
  lemma NormalizeIdempotent(text: string, t: Tables)
    requires PlainMarkers(t)
    ensures Normalize(Normalize(text, t), t) == Normalize(text, t)
  {
    NormalizedWords(text, t);
    NormalizeOfKept(KeptWords(text, t), t);
  }

  /** Surrounding white space never matters. */
  lemma NormalizeIgnoresPadding(text: string, t: Tables)
    ensures KeptWords(TrimSpace(text), t) == KeptWords(text, t)
    ensures Normalize(TrimSpace(text), t) == Normalize(text, t)
    ensures QuestionKey(TrimSpace(text), t) == QuestionKey(text, t)
  {
    TrimSpaceIdempotent(text);
  }

  /** Two different long texts that a key cannot tell apart: same readable prefix, same digest. */
  predicate LongCollision(a: string, b: string, t: Tables) {
    var x, y := Normalize(a, t), Normalize(b, t);
    && x != y && |x| > MAX_READABLE_KEY && |y| > MAX_READABLE_KEY
    && x[..MAX_READABLE_KEY] == y[..MAX_READABLE_KEY] && t.digest(x) == t.digest(y)
  }

  /** A key stands for the normalized question: two questions share a key exactly when they normalize alike, or are
      long and collide under the digest. A shortened key never meets a readable one. */
  lemma KeysIdentifyQuestions(a: string, b: string, t: Tables)
    ensures QuestionKey(a, t) == QuestionKey(b, t) <==> Normalize(a, t) == Normalize(b, t) || LongCollision(a, b, t)
  {
    var x, y := Normalize(a, t), Normalize(b, t);
    hide Normalize;
    if QuestionKey(a, t) == QuestionKey(b, t) && |x| > MAX_READABLE_KEY && |y| > MAX_READABLE_KEY {
      var p, q := QuestionKey(a, t), QuestionKey(b, t);
      assert p[..MAX_READABLE_KEY] == x[..MAX_READABLE_KEY] && q[..MAX_READABLE_KEY] == y[..MAX_READABLE_KEY];
      assert p[MAX_READABLE_KEY + 1..] == t.digest(x) && q[MAX_READABLE_KEY + 1..] == t.digest(y);
    }
  }

  /** The key is the normal form itself exactly when that has at most 160 characters; otherwise it begins like it and
      carries the digest of the whole. */
  lemma KeyIsReadableExactly(text: string, t: Tables)
    ensures QuestionKey(text, t) == Normalize(text, t) <==> |Normalize(text, t)| <= 160
    ensures |Normalize(text, t)| > 160 ==>
              && |QuestionKey(text, t)| == 161 + |t.digest(Normalize(text, t))|
              && QuestionKey(text, t)[..160] == Normalize(text, t)[..160]
              && QuestionKey(text, t)[161..] == t.digest(Normalize(text, t))
  {
    var x := Normalize(text, t);
    KeptWordsAreWords(text, t);
    JoinShape(KeptWords(text, t));
    hide Normalize, KeptWords;
    if |x| > 160 {
      var key := x[..160] + "#" + t.digest(x);
      assert key[160] == '#' && x[160] != '#';
    }
  }

  predicate NoBrackets(s: string) {
    forall i :: 0 <= i < |s| ==> s[i] != '<' && s[i] != '>'
  }

  /** A tag, whatever it holds, counts as one blank between the texts around it. */
  lemma TagIsBlank(before: string, tag: string, after: string)
    requires NoBrackets(before) && NoBrackets(tag)
    ensures Stripped(before + "<" + tag + ">" + after, 0) == before + " " + Stripped(after, 0)
  {
    assert before + "<" + tag + ">" + after == before + ("<" + (tag + (">" + after)));
    OutsideTag(before, "<" + (tag + (">" + after)));
    InsideTag(tag, ">" + after, 1);
    Opens(tag + (">" + after), 0);
    Closes(after, 1);
  }

  /** A tag inside a tag belongs to it: the text between the two closing brackets is dropped as well. */
  lemma NestedTagIsDropped(before: string, x: string, y: string, z: string, after: string)
    requires NoBrackets(before) && NoBrackets(x) && NoBrackets(y) && NoBrackets(z)
    ensures Stripped(before + ("<" + (x + ("<" + (y + (">" + (z + (">" + after))))))), 0) ==
            before + "  " + Stripped(after, 0)
  {
    hide Stripped;
    var outer := z + (">" + after);
    var inner := y + (">" + outer);
    OutsideTag(before, "<" + (x + ("<" + inner)));
    Opens(x + ("<" + inner), 0);
    InsideTag(x, "<" + inner, 1);
    Opens(inner, 1);
    InsideTag(y, ">" + outer, 2);
    Closes(outer, 2);
    InsideTag(z, ">" + after, 1);
    Closes(after, 1);
  }

  /** A closing bracket that closes nothing is a blank too. */
  lemma StrayBracketIsBlank(before: string, after: string)
    requires NoBrackets(before)
    ensures Stripped(before + (">" + after), 0) == before + " " + Stripped(after, 0)
  {
    hide Stripped;
    OutsideTag(before, ">" + after);
    Closes(after, 0);
  }

  /** A tag that is never closed takes the rest of the text with it. */
  lemma UnclosedTagIsDropped(before: string, rest: string)
    requires NoBrackets(before) && NoBrackets(rest)
    ensures Stripped(before + ("<" + rest), 0) == before
  {
    OutsideTag(before, "<" + rest);
    Opens(rest, 0);
    InsideTag(rest, "", 1);
    assert rest + "" == rest;
  }

  lemma Opens(rest: string, depth: nat)
    ensures Stripped("<" + rest, depth) == Stripped(rest, depth + 1)
  {
    assert ("<" + rest)[1..] == rest;
  }

  lemma Closes(rest: string, depth: nat)
    ensures Stripped(">" + rest, depth) == " " + Stripped(rest, if depth > 0 then depth - 1 else 0)
  {
    assert (">" + rest)[1..] == rest;
  }

  lemma {:induction false} OutsideTag(before: string, rest: string)
    requires NoBrackets(before)
    ensures Stripped(before + rest, 0) == before + Stripped(rest, 0)
  {
    if before == [] {
      assert before + rest == rest;
    } else {
      assert (before + rest)[1..] == before[1..] + rest;
      OutsideTag(before[1..], rest);
    }
  }

  lemma {:induction false} InsideTag(tag: string, rest: string, depth: nat)
    requires NoBrackets(tag) && depth > 0
    ensures Stripped(tag + rest, depth) == Stripped(rest, depth)
  {
    if tag == [] {
      assert tag + rest == rest;
    } else {
      assert (tag + rest)[1..] == tag[1..] + rest;
      InsideTag(tag[1..], rest, depth);
    }
  }

  lemma EmptyKeyMeansNoWords(text: string, t: Tables)
    ensures Normalize(text, t) == "" <==> KeptWords(text, t) == []
    ensures QuestionKey(text, t) == "" <==> Normalize(text, t) == ""
  {
    KeptWordsAreWords(text, t);
    JoinShape(KeptWords(text, t));
  }
}
