/** Strings as sequences of runes: the library calls the repository's text code is built
    from (lower-casing, trimming, splitting, joining, substring search, replacement), and
    the laws that relate them.
 */
module Text {

  /** The characters that survive normalization: what every splitter keeps. */
  predicate IsAlnum(c: char) {
    'a' <= c <= 'z' || '0' <= c <= '9'
  }

  /** Unicode white space, as the trimming functions see it. */
  predicate IsSpace(c: char) {
    || c == ' ' || '\U{9}' <= c <= '\U{D}' || c == '\U{85}' || c == '\U{A0}' || c == '\U{1680}'
    || '\U{2000}' <= c <= '\U{200A}' || c == '\U{2028}' || c == '\U{2029}' || c == '\U{202F}'
    || c == '\U{205F}' || c == '\U{3000}'
  }

  /** Lower case of one rune. The Kelvin sign and the dotted capital I are the only runes outside
      ASCII whose lower case is an ASCII letter; the rest of Unicode is left alone. */
  function LowerChar(c: char): char {
    if 'A' <= c <= 'Z' then (c as int + 32) as char
    else if c == '\U{212A}' then 'k'
    else if c == '\U{130}' then 'i'
    else c
  }

  function ToLower(s: string): string {
    seq(|s|, i requires 0 <= i < |s| => LowerChar(s[i]))
  }

  /** Upper case of one rune; the dotless i and the long s are the only runes outside ASCII with an ASCII capital. */
  function UpperChar(c: char): char {
    if 'a' <= c <= 'z' then (c as int - 32) as char
    else if c == '\U{131}' then 'I'
    else if c == '\U{17F}' then 'S'
    else c
  }

  function ToUpper(s: string): string {
    seq(|s|, i requires 0 <= i < |s| => UpperChar(s[i]))
  }

  /** Length in UTF-8 bytes. */
  function ByteLength(s: string): nat {
    if s == "" then 0
    else
      (if s[0] < '\U{80}' then 1 else if s[0] < '\U{800}' then 2 else if s[0] < '\U{10000}' then 3 else 4)
      + ByteLength(s[1..])
  }

  function TrimLeft(s: string): string {
    if s != [] && IsSpace(s[0]) then TrimLeft(s[1..]) else s
  }

  function TrimRight(s: string): string {
    if s != [] && IsSpace(s[|s| - 1]) then TrimRight(s[..|s| - 1]) else s
  }

  function TrimSpace(s: string): string {
    TrimRight(TrimLeft(s))
  }

  /** No white space at either end. */
  predicate Trimmed(s: string) {
    s != [] ==> !IsSpace(s[0]) && !IsSpace(s[|s| - 1])
  }

  lemma {:induction false} TrimLeftShape(s: string)
    ensures TrimLeft(s) != [] ==> !IsSpace(TrimLeft(s)[0])
    ensures exists k :: 0 <= k <= |s| && TrimLeft(s) == s[k..]
  {
    if s != [] && IsSpace(s[0]) {
      TrimLeftShape(s[1..]);
      var k :| 0 <= k <= |s[1..]| && TrimLeft(s[1..]) == s[1..][k..];
      assert s[1..][k..] == s[k + 1..];
    } else {
      assert s == s[0..];
    }
  }

  lemma {:induction false} TrimRightShape(s: string)
    ensures TrimRight(s) != [] ==> !IsSpace(TrimRight(s)[|TrimRight(s)| - 1])
    ensures exists k :: 0 <= k <= |s| && TrimRight(s) == s[..k]
  {
    if s != [] && IsSpace(s[|s| - 1]) {
      TrimRightShape(s[..|s| - 1]);
      var k :| 0 <= k <= |s| - 1 && TrimRight(s[..|s| - 1]) == s[..|s| - 1][..k];
      assert s[..|s| - 1][..k] == s[..k];
    } else {
      assert s == s[..|s|];
    }
  }

  /** Trimming leaves a trimmed text, and leaves a trimmed text alone. */
  lemma TrimSpaceTrims(s: string)
    ensures Trimmed(TrimSpace(s))
    ensures Trimmed(s) ==> TrimSpace(s) == s
  {
    TrimLeftShape(s);
    TrimRightShape(TrimLeft(s));
  }

  lemma TrimSpaceIdempotent(s: string)
    ensures TrimSpace(TrimSpace(s)) == TrimSpace(s)
  {
    TrimSpaceTrims(s);
    TrimSpaceTrims(TrimSpace(s));
  }

  // ----- words and joining

  /** Length of the alphanumeric run a text starts with. */
  function RunLength(s: string): (n: nat)
    ensures n <= |s|
    ensures forall i :: 0 <= i < n ==> IsAlnum(s[i])
    ensures n < |s| ==> !IsAlnum(s[n])
  {
    if s != [] && IsAlnum(s[0]) then 1 + RunLength(s[1..]) else 0
  }

  /** The maximal alphanumeric runs of a text, in order. */
  function Words(s: string): seq<string>
    decreases |s|
  {
    if s == [] then []
    else if !IsAlnum(s[0]) then Words(s[1..])
    else var n := RunLength(s); [s[..n]] + Words(s[n..])
  }

  predicate IsWord(w: string) {
    w != [] && forall i :: 0 <= i < |w| ==> IsAlnum(w[i])
  }

  predicate AllWords(ws: seq<string>) {
    forall i :: 0 <= i < |ws| ==> IsWord(ws[i])
  }

  function Join(ws: seq<string>): string {
    if ws == [] then ""
    else if |ws| == 1 then ws[0]
    else ws[0] + " " + Join(ws[1..])
  }

  lemma RunLengthIs(s: string, n: nat)
    requires n <= |s| && (forall i :: 0 <= i < n ==> IsAlnum(s[i])) && (n < |s| ==> !IsAlnum(s[n]))
    ensures RunLength(s) == n
  {
    var r := RunLength(s);
    assert r < |s| ==> !IsAlnum(s[r]);
  }

  lemma {:induction false} WordsAreWords(s: string)
    ensures AllWords(Words(s))
    decreases |s|
  {
    if s == [] {
    } else if !IsAlnum(s[0]) {
      WordsAreWords(s[1..]);
    } else {
      WordsAreWords(s[RunLength(s)..]);
    }
  }

  /** Splitting works piecewise wherever the second piece does not continue a word. */
  lemma {:induction false} WordsConcat(a: string, b: string)
    requires b == [] || !IsAlnum(b[0])
    ensures Words(a + b) == Words(a) + Words(b)
    decreases |a|
  {
    if a == [] {
      assert a + b == b;
    } else if !IsAlnum(a[0]) {
      assert (a + b)[1..] == a[1..] + b;
      WordsConcat(a[1..], b);
    } else {
      var n := RunLength(a);
      RunLengthIs(a + b, n);
      assert (a + b)[..n] == a[..n];
      assert (a + b)[n..] == a[n..] + b;
      WordsConcat(a[n..], b);
    }
  }

  lemma WordsOfWord(w: string)
    requires IsWord(w)
    ensures Words(w) == [w]
  {
    RunLengthIs(w, |w|);
    assert w[|w|..] == [];
    assert w[..|w|] == w;
  }

  lemma {:induction false} WordsOfJoin(ws: seq<string>)
    requires AllWords(ws)
    ensures Words(Join(ws)) == ws
  {
    if ws == [] {
    } else if |ws| == 1 {
      WordsOfWord(ws[0]);
    } else {
      var rest := Join(ws[1..]);
      assert Join(ws) == ws[0] + (" " + rest);
      WordsConcat(ws[0], " " + rest);
      WordsOfWord(ws[0]);
      assert (" " + rest)[1..] == rest;
      WordsOfJoin(ws[1..]);
    }
  }

  lemma {:induction false} JoinConcat(a: seq<string>, b: seq<string>)
    requires a != [] && b != []
    ensures Join(a + b) == Join(a) + " " + Join(b)
  {
    if |a| == 1 {
      assert (a + b)[1..] == b;
    } else {
      assert (a + b)[1..] == a[1..] + b;
      JoinConcat(a[1..], b);
    }
  }

  /** What joined words are made of: word characters and single blanks, with no blank at an end. */
  lemma {:induction false} JoinShape(ws: seq<string>)
    requires AllWords(ws)
    ensures forall i :: 0 <= i < |Join(ws)| ==> IsAlnum(Join(ws)[i]) || Join(ws)[i] == ' '
    ensures Join(ws) == [] <==> ws == []
    ensures ws != [] ==> IsAlnum(Join(ws)[0]) && IsAlnum(Join(ws)[|Join(ws)| - 1])
    ensures Trimmed(Join(ws))
  {
    if |ws| > 1 {
      JoinShape(ws[1..]);
    }
  }

  /** Splitting on single blanks, the other way joined words are taken apart again. */
  function SplitBlanks(s: string): (parts: seq<string>)
    ensures parts != []
  {
    if s == [] then [""]
    else
      var rest := SplitBlanks(s[1..]);
      if s[0] == ' ' then [""] + rest else [[s[0]] + rest[0]] + rest[1..]
  }

  lemma {:induction false} SplitBlanksPrefix(w: string, s: string)
    requires forall i :: 0 <= i < |w| ==> w[i] != ' '
    ensures SplitBlanks(w + s) == [w + SplitBlanks(s)[0]] + SplitBlanks(s)[1..]
  {
    if w == [] {
      assert w + s == s;
      assert w + SplitBlanks(s)[0] == SplitBlanks(s)[0];
    } else {
      assert (w + s)[1..] == w[1..] + s;
      SplitBlanksPrefix(w[1..], s);
      assert [w[0]] + (w[1..] + SplitBlanks(s)[0]) == w + SplitBlanks(s)[0];
    }
  }

  lemma {:induction false} SplitBlanksOfJoin(ws: seq<string>)
    requires ws != [] && AllWords(ws)
    ensures SplitBlanks(Join(ws)) == ws
  {
    if |ws| == 1 {
      assert ws[0] + "" == ws[0];
      SplitBlanksPrefix(ws[0], "");
    } else {
      var rest := Join(ws[1..]);
      assert Join(ws) == ws[0] + (" " + rest);
      assert (" " + rest)[1..] == rest;
      SplitBlanksPrefix(ws[0], " " + rest);
      SplitBlanksOfJoin(ws[1..]);
      assert SplitBlanks(" " + rest) == [""] + ws[1..];
      assert ws[0] + "" == ws[0];
    }
  }

  // ----- substring search and replacement

  predicate OccursAt(s: string, x: string, i: int) {
    0 <= i <= |s| - |x| && s[i..i + |x|] == x
  }

  /** `x` occurs somewhere in `s`. */
  predicate Contains(s: string, x: string) {
    exists i :: 0 <= i <= |s| && OccursAt(s, x, i)
  }

  /** Every occurrence of the non-empty `m`, leftmost first and not overlapping, becomes one blank. */
  function ReplaceWithBlank(s: string, m: string): string
    decreases |s|
  {
    if m == [] || |s| < |m| then s
    else if s[..|m|] == m then " " + ReplaceWithBlank(s[|m|..], m)
    else [s[0]] + ReplaceWithBlank(s[1..], m)
  }

  predicate NoBlank(x: string) {
    ' ' !in x
  }

  lemma OccursInTail(s: string, x: string, k: nat, i: nat)
    requires k <= |s| && OccursAt(s[k..], x, i)
    ensures OccursAt(s, x, k + i) && Contains(s, x)
  {
    assert s[k..][i..i + |x|] == s[k + i..k + i + |x|];
    assert OccursAt(s, x, k + i);
  }

  lemma ContainsInTail(s: string, x: string, k: nat)
    requires k <= |s| && Contains(s[k..], x)
    ensures Contains(s, x)
  {
    var i :| 0 <= i <= |s[k..]| && OccursAt(s[k..], x, i);
    OccursInTail(s, x, k, i);
  }

  lemma ContainsFirstChar(s: string, x: string)
    requires x != [] && Contains(s, x)
    ensures exists i :: 0 <= i < |s| && s[i] == x[0]
  {
    var i :| 0 <= i <= |s| && OccursAt(s, x, i);
    assert s[i] == s[i..i + |x|][0];
  }

  lemma ContainsTrans(s: string, t: string, x: string)
    requires Contains(s, t) && Contains(t, x)
    ensures Contains(s, x)
  {
    var i :| 0 <= i <= |s| && OccursAt(s, t, i);
    var j :| 0 <= j <= |t| && OccursAt(t, x, j);
    assert forall k :: 0 <= k < |x| ==> x[k] == t[j + k] == s[i + j + k];
    assert OccursAt(s, x, i + j);
  }

  /** An unblanked prefix of the replaced text was a prefix of the text. */
  lemma {:induction false} ReplacePrefix(s: string, m: string, n: nat)
    requires m != [] && n <= |ReplaceWithBlank(s, m)| && NoBlank(ReplaceWithBlank(s, m)[..n])
    ensures n <= |s| && ReplaceWithBlank(s, m)[..n] == s[..n]
    decreases |s|
  {
    var r := ReplaceWithBlank(s, m);
    assert n > 0 ==> r[..n][0] == r[0] != ' ';
    if n > 0 && |s| >= |m| {
      var tail := ReplaceWithBlank(s[1..], m);
      assert tail[..n - 1] == r[..n][1..];
      ReplacePrefix(s[1..], m, n - 1);
      assert r[..n] == [s[0]] + tail[..n - 1];
      assert s[..n] == [s[0]] + s[1..][..n - 1];
    }
  }

  /** Replacement creates nothing but blanks: an unblanked factor of the result was there before. */
  lemma {:induction false} ReplaceCreatesNothing(s: string, m: string, x: string)
    requires m != [] && x != [] && NoBlank(x) && Contains(ReplaceWithBlank(s, m), x)
    ensures Contains(s, x)
    decreases |s|
  {
    var r := ReplaceWithBlank(s, m);
    if |s| >= |m| {
      var i :| 0 <= i <= |r| && OccursAt(r, x, i);
      var k := if s[..|m|] == m then |m| else 1;
      var tail := ReplaceWithBlank(s[k..], m);
      assert r[1..] == tail;
      if i > 0 {
        assert tail[i - 1..i - 1 + |x|] == r[i..i + |x|];
        assert OccursAt(tail, x, i - 1);
        ReplaceCreatesNothing(s[k..], m, x);
        ContainsInTail(s, x, k);
      } else {
        ReplacePrefix(s, m, |x|);
        assert OccursAt(s, x, 0);
      }
    }
  }

  /** No unblanked marker survives its own replacement. */
  lemma {:induction false} ReplaceRemoves(s: string, m: string)
    requires m != [] && NoBlank(m)
    ensures !Contains(ReplaceWithBlank(s, m), m)
    decreases |s|
  {
    var r := ReplaceWithBlank(s, m);
    if |s| >= |m| {
      var k := if s[..|m|] == m then |m| else 1;
      var tail := ReplaceWithBlank(s[k..], m);
      assert r[1..] == tail;
      ReplaceRemoves(s[k..], m);
      forall i | 0 <= i <= |r| && OccursAt(r, m, i)
        ensures false
      {
        if i > 0 {
          assert tail[i - 1..i - 1 + |m|] == r[i..i + |m|];
          assert OccursAt(tail, m, i - 1);
        } else {
          assert r[..|m|] == m;
          ReplacePrefix(s, m, |m|);
        }
      }
    }
  }

  lemma {:induction false} ReplaceAbsent(s: string, m: string)
    requires m != [] && !Contains(s, m)
    ensures ReplaceWithBlank(s, m) == s
    decreases |s|
  {
    if |s| >= |m| {
      assert !OccursAt(s, m, 0);
      if Contains(s[1..], m) {
        ContainsInTail(s, m, 1);
      }
      ReplaceAbsent(s[1..], m);
    }
  }

  /** A factor of two texts with a separator between, itself free of the separator, lies in one of them. */
  lemma FactorOfHalves(a: string, sep: char, b: string, x: string)
    requires x != [] && sep !in x && Contains(a + [sep] + b, x)
    ensures Contains(a, x) || Contains(b, x)
  {
    var s := a + [sep] + b;
    var i :| 0 <= i <= |s| && OccursAt(s, x, i);
    assert s[|a|] == sep && sep !in s[i..i + |x|];
    if i + |x| <= |a| {
      assert a[i..i + |x|] == s[i..i + |x|];
      assert OccursAt(a, x, i);
    } else {
      var j := i - |a| - 1;
      assert b[j..j + |x|] == s[i..i + |x|];
      assert OccursAt(b, x, j);
    }
  }

  /** An unblanked factor of joined words is a factor of one word. */
  lemma {:induction false} FactorOfJoin(ws: seq<string>, x: string)
    requires x != [] && NoBlank(x) && Contains(Join(ws), x)
    ensures exists k :: 0 <= k < |ws| && Contains(ws[k], x)
  {
    if |ws| <= 1 {
    } else {
      FactorOfHalves(ws[0], ' ', Join(ws[1..]), x);
      if !Contains(ws[0], x) {
        FactorOfJoin(ws[1..], x);
        var k :| 0 <= k < |ws[1..]| && Contains(ws[1..][k], x);
        assert ws[1..][k] == ws[k + 1];
      }
    }
  }

  /** Every word of a text is a factor of it. */
  lemma {:induction false} WordsOccur(s: string, k: nat)
    requires k < |Words(s)|
    ensures Contains(s, Words(s)[k])
    decreases |s|
  {
    if !IsAlnum(s[0]) {
      WordsOccur(s[1..], k);
      ContainsInTail(s, Words(s)[k], 1);
    } else {
      var n := RunLength(s);
      if k == 0 {
        assert OccursAt(s, s[..n], 0);
      } else {
        WordsOccur(s[n..], k - 1);
        ContainsInTail(s, Words(s)[k], n);
      }
    }
  }
}
