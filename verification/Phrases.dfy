/** Whole-word phrase matching by padded substring search. */
module Phrases {
  import opened Text

  /** Every character that is not alphanumeric becomes a blank. */
  function Spaced(s: string): string {
    seq(|s|, i requires 0 <= i < |s| => if IsAlnum(s[i]) then s[i] else ' ')
  }

  /** Lower case, with every run of other characters collapsed to a single blank. */
  function NormalizePhrase(value: string): string {
    Join(Words(Spaced(ToLower(value))))
  }

  method NormalizeText(value: string) returns (out: string)
    ensures out == NormalizePhrase(value)
  {
    var lowered, built := ToLower(value), "";
    for i := 0 to |lowered|
      invariant built == Spaced(lowered[..i])
    {
      assert lowered[..i + 1] == lowered[..i] + [lowered[i]];
      built := built + [if IsAlnum(lowered[i]) then lowered[i] else ' '];
    }
    assert lowered[..|lowered|] == lowered;
    out := Join(Words(built));
  }

  function Padded(s: string): string {
    " " + s + " "
  }

  predicate SublistAt(p: seq<string>, t: seq<string>, k: nat) {
    k + |p| <= |t| && t[k..k + |p|] == p
  }

  /** The words of p stand one after another somewhere among the words of t. */
  ghost predicate Sublist(p: seq<string>, t: seq<string>) {
    exists k: nat :: SublistAt(p, t, k)
  }

  /** A phrase as the tables hold it: its own normal form, and not empty. */
  ghost predicate IsPhrase(p: string) {
    p != "" && Join(Words(p)) == p
  }

  lemma NormalizedIsPhrase(value: string)
    ensures Words(NormalizePhrase(value)) == Words(Spaced(ToLower(value)))
    ensures NormalizePhrase(value) != "" ==> IsPhrase(NormalizePhrase(value))
  {
    WordsAreWords(Spaced(ToLower(value)));
    WordsOfJoin(Words(Spaced(ToLower(value))));
  }

  /** Each word followed by a blank. */
  function Spread(ws: seq<string>): string {
    if ws == [] then "" else ws[0] + " " + Spread(ws[1..])
  }

  lemma {:induction false} SpreadIsJoin(ws: seq<string>)
    requires ws != []
    ensures Spread(ws) == Join(ws) + " "
  {
    if |ws| == 1 {
      assert Spread(ws[1..]) == "";
    } else {
      SpreadIsJoin(ws[1..]);
      assert ws[0] + " " + (Join(ws[1..]) + " ") == (ws[0] + " " + Join(ws[1..])) + " ";
    }
  }

  lemma {:induction false} SpreadConcat(a: seq<string>, b: seq<string>)
    ensures Spread(a + b) == Spread(a) + Spread(b)
  {
    if a == [] {
      assert a + b == b;
    } else {
      assert (a + b)[1..] == a[1..] + b;
      SpreadConcat(a[1..], b);
      assert a[0] + " " + (Spread(a[1..]) + Spread(b)) == (a[0] + " " + Spread(a[1..])) + Spread(b);
    }
  }

  lemma {:induction false} SpreadEndsBlank(ws: seq<string>)
    ensures (" " + Spread(ws))[|Spread(ws)|] == ' '
  {
    if ws != [] {
      SpreadEndsBlank(ws[1..]);
      var tail := Spread(ws[1..]);
      assert Spread(ws) == ws[0] + (" " + tail);
      assert (" " + Spread(ws))[|Spread(ws)|] == (" " + tail)[|tail|];
    }
  }

  /** Without blanks in the words, one spread-out list starts another only word by word. */
  lemma {:induction false} SpreadPrefix(p: seq<string>, t: seq<string>)
    requires AllWords(p) && AllWords(t) && Spread(p) <= Spread(t)
    ensures p <= t
  {
    if p != [] {
      var pr, tr := Spread(p[1..]), Spread(if t == [] then [] else t[1..]);
      assert |Spread(p)| > 0;
      assert t != [];
      var x, y := p[0], t[0];
      assert Spread(p) == x + (" " + pr) && Spread(t) == y + (" " + tr);
      FirstBlank(x, pr, y, tr);
      SpreadPrefix(p[1..], t[1..]);
    }
  }

  lemma FirstBlank(x: string, pr: string, y: string, tr: string)
    requires IsWord(x) && IsWord(y) && x + (" " + pr) <= y + (" " + tr)
    ensures x == y && pr <= tr
  {
    var s, u := x + (" " + pr), y + (" " + tr);
    assert forall i :: 0 <= i < |s| ==> s[i] == u[i];
    assert s[|x|] == ' ' && u[|y|] == ' ';
    assert forall i :: 0 <= i < |y| ==> u[i] == y[i] != ' ';
    assert forall i :: 0 <= i < |x| ==> s[i] == x[i] != ' ';
    assert |y| <= |x|;
    assert s[|y|] == u[|y|];
    assert x == s[..|x|] == u[..|x|] == y;
    assert pr == s[|x| + 1..] && tr == u[|x| + 1..];
  }

  /** A padded occurrence starts at a word. */
  lemma {:induction false} OccurrenceStartsAtWord(t: seq<string>, p: seq<string>, i: nat) returns (k: nat)
    requires AllWords(t) && AllWords(p) && p != []
    requires OccursAt(" " + Spread(t), " " + Spread(p), i)
    ensures SublistAt(p, t, k)
  {
    var s, x := " " + Spread(t), " " + Spread(p);
    assert s[i..i + |x|] == x;
    if i == 0 {
      assert Spread(p) == x[1..] == s[1..|x|] == Spread(t)[..|Spread(p)|];
      SpreadPrefix(p, t);
      k := 0;
    } else {
      assert s[i] == x[0] == ' ';
      assert t != [];
      var w, rest := t[0], " " + Spread(t[1..]);
      assert Spread(t) == w + rest;
      assert s[1..] == w + rest && forall m :: 0 <= m < |w| ==> s[1..][m] == w[m] != ' ';
      assert s[i] == s[1..][i - 1];
      var j := i - |w| - 1;
      assert rest[j..j + |x|] == s[i..i + |x|];
      k := OccurrenceStartsAtWord(t[1..], p, j);
      assert t[k + 1..k + 1 + |p|] == t[1..][k..k + |p|];
      k := k + 1;
    }
  }

  lemma SublistOccurs(t: seq<string>, p: seq<string>, k: nat)
    requires SublistAt(p, t, k)
    ensures Contains(" " + Spread(t), " " + Spread(p))
  {
    var before, after := t[..k], t[k + |p|..];
    assert t == before + (p + after);
    SpreadConcat(before, p + after);
    SpreadConcat(p, after);
    SpreadEndsBlank(before);
    BlankBefore(Spread(before), Spread(p), Spread(after));
  }

  lemma BlankBefore(before: string, x: string, after: string)
    requires (" " + before)[|before|] == ' '
    ensures Contains(" " + (before + (x + after)), " " + x)
  {
    var s := " " + (before + (x + after));
    assert s[|before|] == (" " + before)[|before|];
    assert s[|before|..|before| + 1 + |x|] == " " + x;
    assert OccursAt(s, " " + x, |before|);
  }

  /** Padded substring search is whole-word matching: for word lists t and p, with p not empty, the padded text of t
      contains the padded text of p exactly when p's words are a contiguous sublist of t's. */
  lemma PaddedSearchIsWordMatch(t: seq<string>, p: seq<string>)
    requires AllWords(t) && AllWords(p) && p != []
    ensures Contains(Padded(Join(t)), Padded(Join(p))) <==> Sublist(p, t)
  {
    SpreadIsJoin(p);
    assert Padded(Join(p)) == " " + Spread(p);
    if t == [] {
      assert |Padded(Join(t))| == 2;
      JoinShape(p);
    } else {
      SpreadIsJoin(t);
      assert Padded(Join(t)) == " " + Spread(t);
      if Contains(" " + Spread(t), " " + Spread(p)) {
        var i :| 0 <= i <= |" " + Spread(t)| && OccursAt(" " + Spread(t), " " + Spread(p), i);
        var k := OccurrenceStartsAtWord(t, p, i);
      }
      if Sublist(p, t) {
        var k: nat :| SublistAt(p, t, k);
        SublistOccurs(t, p, k);
      }
    }
  }

  /** The same for a free text and a table phrase: no phrase is ever found inside a longer word. */
  lemma PhraseInText(value: string, phrase: string)
    requires IsPhrase(phrase)
    ensures Contains(Padded(NormalizePhrase(value)), Padded(phrase)) <==>
            Sublist(Words(phrase), Words(Spaced(ToLower(value))))
  {
    WordsAreWords(phrase);
    WordsAreWords(Spaced(ToLower(value)));
    JoinShape(Words(phrase));
    PaddedSearchIsWordMatch(Words(Spaced(ToLower(value))), Words(phrase));
  }
}
