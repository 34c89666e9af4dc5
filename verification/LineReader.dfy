/** Reading a child's output line by line through a bounded buffer, whatever pieces the stream arrives in. */
module LineReader {
  import opened Model
  import opened Collections

  newtype Byte = b: int | 0 <= b < 256

  const LF: Byte := 10
  const CR: Byte := 13

  function Flat(pieces: seq<seq<Byte>>): seq<Byte> {
    if pieces == [] then [] else pieces[0] + Flat(pieces[1..])
  }

  // ----- what reading means, on the whole stream

  /** Length of the first raw line, its newline included; everything that is left when there is none. */
  function RawLength(s: seq<Byte>): (n: nat)
    ensures n <= |s| && (s != [] ==> n > 0)
    ensures forall i :: 0 <= i < n - 1 ==> s[i] != LF
    ensures n < |s| ==> n > 0 && s[n - 1] == LF
  {
    if s == [] then 0 else if s[0] == LF then 1 else 1 + RawLength(s[1..])
  }

  /** The stream's first line ends in a newline. */
  predicate Terminated(s: seq<Byte>) {
    RawLength(s) > 0 && s[RawLength(s) - 1] == LF
  }

  function TrimLineEnd(s: seq<Byte>): seq<Byte> {
    if s != [] && (s[|s| - 1] == LF || s[|s| - 1] == CR) then TrimLineEnd(s[..|s| - 1]) else s
  }

  datatype Line = Line(text: seq<Byte>, truncated: bool)

  /** What one call returns for a stream: the first bytes of its raw line, and whether the line was longer. */
  function FirstLine(s: seq<Byte>, limit: nat): Line {
    Line(TrimLineEnd(s[..Least(limit, RawLength(s))]), RawLength(s) > limit)
  }

  /** Every line of a stream, the final partial one included. */
  function Lines(s: seq<Byte>, limit: nat): seq<Line>
    decreases |s|
  {
    if Terminated(s) then [FirstLine(s, limit)] + Lines(s[RawLength(s)..], limit) else [FirstLine(s, limit)]
  }

  function RawLines(s: seq<Byte>): seq<seq<Byte>>
    decreases |s|
  {
    if Terminated(s) then [s[..RawLength(s)]] + RawLines(s[RawLength(s)..]) else [s]
  }

  /** The raw lines put together are the stream: nothing is skipped, repeated or reordered. */
  lemma {:induction false} RawLinesAreStream(s: seq<Byte>)
    ensures Flat(RawLines(s)) == s
    ensures forall k :: 0 <= k < |RawLines(s)| - 1 ==>
              Terminated(RawLines(s)[k]) && RawLength(RawLines(s)[k]) == |RawLines(s)[k]|
    decreases |s|
  {
    hide Terminated, RawLength;
    if Terminated(s) {
      var n := RawLength(s);
      FirstLineAlone(s);
      var head, rest := s[..n], s[n..];
      RawLinesAreStream(rest);
      assert s == head + rest && [head] + RawLines(rest) == RawLines(s);
      assert ([head] + RawLines(rest))[1..] == RawLines(rest);
    } else {
      assert [s][1..] == [];
      assert s + Flat([]) == s;
    }
  }

  lemma {:induction false} FirstLineAlone(s: seq<Byte>)
    ensures RawLength(s[..RawLength(s)]) == RawLength(s)
    ensures Terminated(s) ==> s != [] && |s[RawLength(s)..]| < |s| && Terminated(s[..RawLength(s)])
    decreases |s|
  {
    if s != [] && s[0] != LF {
      FirstLineAlone(s[1..]);
      assert s[..RawLength(s)][1..] == s[1..][..RawLength(s[1..])];
    }
  }

  /** What one call returns for a raw line of its own. */
  function Cut(raw: seq<Byte>, limit: nat): Line {
    Line(TrimLineEnd(raw[..Least(limit, |raw|)]), |raw| > limit)
  }

  lemma FirstLineIsCut(s: seq<Byte>, limit: nat)
    ensures FirstLine(s, limit) == Cut(s[..RawLength(s)], limit)
  {
    hide TrimLineEnd;
    assert s[..RawLength(s)][..Least(limit, RawLength(s))] == s[..Least(limit, RawLength(s))];
  }

  /** Line by line, what is returned is cut from the corresponding raw line. */
  lemma {:induction false} LinesOfRawLines(s: seq<Byte>, limit: nat)
    ensures |Lines(s, limit)| == |RawLines(s)|
    ensures forall k :: 0 <= k < |RawLines(s)| ==> Lines(s, limit)[k] == Cut(RawLines(s)[k], limit)
    decreases |s|
  {
    FirstLineIsCut(s, limit);
    if Terminated(s) {
      hide FirstLine, Cut;
      LinesOfRawLines(s[RawLength(s)..], limit);
    } else {
      hide FirstLine, Cut;
      UnterminatedIsWhole(s);
      assert s[..RawLength(s)] == s;
    }
  }

  lemma {:induction false} TrimCutsLineEnds(s: seq<Byte>)
    ensures |TrimLineEnd(s)| <= |s| && TrimLineEnd(s) == s[..|TrimLineEnd(s)|]
    ensures forall i :: |TrimLineEnd(s)| <= i < |s| ==> s[i] == LF || s[i] == CR
    ensures TrimLineEnd(s) != [] ==> s[|TrimLineEnd(s)| - 1] != LF && s[|TrimLineEnd(s)| - 1] != CR
  {
    if s != [] && (s[|s| - 1] == LF || s[|s| - 1] == CR) {
      TrimCutsLineEnds(s[..|s| - 1]);
      assert s[..|s| - 1][..|TrimLineEnd(s)|] == s[..|TrimLineEnd(s)|];
    }
  }

  /** A line is returned in full exactly when it fits without its line ending. So it is reported as truncated although
      nothing was lost exactly when it fits and its line ending does not. */
  lemma LossIffTooLong(raw: seq<Byte>, limit: nat)
    ensures Cut(raw, limit).text == TrimLineEnd(raw) <==> |TrimLineEnd(raw)| <= limit
    ensures Cut(raw, limit).truncated && Cut(raw, limit).text == TrimLineEnd(raw) <==>
            |TrimLineEnd(raw)| <= limit < |raw|
  {
    hide TrimLineEnd;
    var cut := raw[..Least(limit, |raw|)];
    TrimCutsLineEnds(raw);
    TrimCutsLineEnds(cut);
    if |TrimLineEnd(raw)| <= limit {
      SameEnd(raw, cut);
    }
  }

  /** Such lines, for every limit: exactly that many bytes and a newline. What is returned is the whole line, marked as
      truncated, whatever follows it. */
  lemma TruncatedWithoutLoss(text: seq<Byte>, rest: seq<Byte>, limit: nat)
    requires 0 < limit == |text| && LF !in text && text[limit - 1] != CR
    ensures FirstLine(text + [LF] + rest, limit) == Line(text, true)
    ensures TrimLineEnd(text + [LF]) == text
  {
    var raw := text + [LF];
    assert raw[..|raw| - 1] == text && text[limit - 1] in text;
    assert TrimLineEnd(text) == text;
    RawLengthAtNewline(raw, rest);
    assert (raw + rest)[..limit] == text;
  }

  lemma SameEnd(raw: seq<Byte>, cut: seq<Byte>)
    requires cut <= raw && |TrimLineEnd(raw)| <= |cut|
    ensures TrimLineEnd(cut) == TrimLineEnd(raw)
  {
    hide TrimLineEnd;
    TrimCutsLineEnds(raw);
    TrimCutsLineEnds(cut);
    var n, m := |TrimLineEnd(raw)|, |TrimLineEnd(cut)|;
    assert forall i :: 0 <= i < |cut| ==> cut[i] == raw[i];
    assert cut[..n] == raw[..n];
  }

  lemma {:induction false} UnterminatedIsWhole(s: seq<Byte>)
    requires !Terminated(s)
    ensures RawLength(s) == |s| && LF !in s
  {
    if s != [] && s[0] != LF {
      assert s[1..] != [] ==> s[RawLength(s) - 1] == s[1..][RawLength(s[1..]) - 1];
      UnterminatedIsWhole(s[1..]);
    }
  }

  /** A newline-free start followed by a stream: its first raw line is the start and the stream's first raw line. */
  lemma {:induction false} RawLengthAfter(a: seq<Byte>, b: seq<Byte>)
    requires LF !in a
    ensures RawLength(a + b) == |a| + RawLength(b)
    ensures b != [] ==> (Terminated(a + b) <==> Terminated(b))
  {
    if a == [] {
      assert a + b == b;
    } else {
      assert (a + b)[1..] == a[1..] + b;
      RawLengthAfter(a[1..], b);
      var n := RawLength(b);
      assert b != [] ==> (a + b)[|a| + n - 1] == b[n - 1];
    }
  }

  lemma RawLengthAtNewline(a: seq<Byte>, b: seq<Byte>)
    requires a != [] && a[|a| - 1] == LF && LF !in a[..|a| - 1]
    ensures RawLength(a + b) == |a| && Terminated(a + b)
  {
    var start := a[..|a| - 1];
    assert a + b == start + ([LF] + b);
    RawLengthAfter(start, [LF] + b);
  }

  /** A newline-free start and a chunk that ends in the first newline are the first raw line. */
  lemma LineEnds(s: seq<Byte>, consumed: seq<Byte>, chunk: seq<Byte>, rest: seq<Byte>, limit: nat)
    requires LF !in consumed && chunk != [] && chunk[|chunk| - 1] == LF && LF !in chunk[..|chunk| - 1]
    requires s == (consumed + chunk) + rest
    ensures var raw := consumed + chunk;
            && FirstLine(s, limit) == Line(TrimLineEnd(raw[..Least(limit, |raw|)]), |raw| > limit)
            && Terminated(s) && s[RawLength(s)..] == rest
  {
    var raw := consumed + chunk;
    assert raw[..|raw| - 1] == consumed + chunk[..|chunk| - 1];
    RawLengthAtNewline(raw, rest);
    assert s[..Least(limit, |raw|)] == raw[..Least(limit, |raw|)];
  }

  /** A newline-free stream is one unterminated line. */
  lemma StreamEnds(s: seq<Byte>, limit: nat)
    requires LF !in s
    ensures FirstLine(s, limit) == Line(TrimLineEnd(s[..Least(limit, |s|)]), |s| > limit)
    ensures !Terminated(s) && s[RawLength(s)..] == []
  {
    RawLengthAfter(s, []);
    assert s + [] == s;
  }

  lemma LinesUnfold(s: seq<Byte>, limit: nat)
    ensures Lines(s, limit) == [FirstLine(s, limit)] + if Terminated(s) then Lines(s[RawLength(s)..], limit) else []
  {
  }

  // ----- the buffered reader

  datatype Ending = Delimited | Full | AtEnd

  /** A buffered reader: bytes already fetched, and the pieces the stream will still deliver. `eager` streams report
      their end together with the last piece. */
  class Reader {
    const size: nat
    const eager: bool
    var buffered: seq<Byte>
    var pieces: seq<seq<Byte>>
    var ended: bool

    ghost predicate Valid()
      reads this
    {
      0 < size && |buffered| <= size && (ended ==> pieces == [])
    }

    /** The part of the stream not read yet. */
    ghost function Pending(): seq<Byte>
      reads this
    {
      buffered + Flat(pieces)
    }

    constructor (size: nat, eager: bool, pieces: seq<seq<Byte>>)
      requires size > 0
      ensures Valid() && Pending() == Flat(pieces) && this.size == size
    {
      this.size, this.eager, this.buffered, this.pieces, this.ended := size, eager, [], pieces, false;
    }

    /** One read of the underlying stream, into what room the buffer has. */
    method Fill()
      requires Valid() && !ended && |buffered| < size
      modifies this`buffered, this`pieces, this`ended
      ensures Valid() && Pending() == old(Pending())
      ensures |Flat(pieces)| + |pieces| + (if ended then 0 else 1) < |Flat(old(pieces))| + |old(pieces)| + 1
    {
      if pieces == [] {
        ended := true;
        return;
      }
      var first, room := pieces[0], size - |buffered|;
      var n := if |first| < room then |first| else room;
      assert first == first[..n] + first[n..];
      buffered := buffered + first[..n];
      pieces := if n == |first| then pieces[1..] else [first[n..]] + pieces[1..];
      if pieces == [] && eager {
        ended := true;
      }
    }

    /** Bytes up to and including the first newline, unless the buffer fills or the stream ends before one comes. */
    method ReadSlice() returns (chunk: seq<Byte>, ending: Ending)
      requires Valid()
      modifies this`buffered, this`pieces, this`ended
      ensures Valid() && chunk + Pending() == old(Pending())
      ensures ending == Delimited ==> chunk != [] && chunk[|chunk| - 1] == LF && LF !in chunk[..|chunk| - 1]
      ensures ending != Delimited ==> LF !in chunk
      ensures ending == Full ==> |chunk| == size
      ensures ending == AtEnd ==> Pending() == []
    {
      while true
        invariant Valid() && Pending() == old(Pending())
        decreases |Flat(pieces)| + |pieces| + if ended then 0 else 1
      {
        var i := IndexOf(buffered);
        if i < |buffered| {
          assert buffered == buffered[..i + 1] + buffered[i + 1..];
          chunk, buffered := buffered[..i + 1], buffered[i + 1..];
          assert chunk[..|chunk| - 1] == chunk[..i];
          return chunk, Delimited;
        }
        if ended {
          chunk, buffered, ended := buffered, [], false;
          return chunk, AtEnd;
        }
        if |buffered| >= size {
          chunk, buffered := buffered, [];
          return chunk, Full;
        }
        Fill();
      }
    }

    /** One line, at most `limit` bytes of it kept and the rest discarded: the same for every way the stream is cut
        into pieces and every buffer size. */
    method ReadBoundedLine(limit: nat) returns (line: Line, more: bool)
      requires Valid()
      modifies this`buffered, this`pieces, this`ended
      ensures Valid()
      ensures line == FirstLine(old(Pending()), limit)
      ensures more == Terminated(old(Pending()))
      ensures Pending() == old(Pending())[RawLength(old(Pending()))..]
    {
      hide FirstLine, TrimLineEnd, Terminated, RawLength, Flat;
      ghost var s, consumed := Pending(), [];
      var kept, truncated := [], false;
      while true
        invariant Valid() && s == consumed + Pending() && LF !in consumed
        invariant kept == consumed[..Least(limit, |consumed|)] && (truncated <==> |consumed| > limit)
        decreases |Pending()|
      {
        ghost var before := Pending();
        var chunk, ending := ReadSlice();
        assert s == (consumed + chunk) + Pending();
        kept, truncated := Keep(kept, truncated, chunk, limit, consumed);
        if ending == Delimited {
          LineEnds(s, consumed, chunk, Pending(), limit);
          return Line(TrimLineEnd(kept), truncated), true;
        }
        consumed := consumed + chunk;
        if ending == AtEnd {
          assert s == consumed;
          StreamEnds(s, limit);
          return Line(TrimLineEnd(kept), truncated), false;
        }
        assert |before| == |chunk| + |Pending()|;
      }
    }

    /** Adds to what is kept of a line as much of a chunk as the limit allows. */
    method Keep(kept: seq<Byte>, truncated: bool, chunk: seq<Byte>, limit: nat, ghost consumed: seq<Byte>)
      returns (k: seq<Byte>, t: bool)
      requires kept == consumed[..Least(limit, |consumed|)] && (truncated <==> |consumed| > limit)
      ensures k == (consumed + chunk)[..Least(limit, |consumed + chunk|)] && (t <==> |consumed + chunk| > limit)
    {
      k, t := kept, truncated;
      var remaining := limit - |kept|;
      if remaining > 0 {
        var usable := chunk;
        if |usable| > remaining {
          usable := usable[..remaining];
          t := true;
        }
        k := kept + usable;
      } else if |chunk| > 0 {
        t := true;
      }
    }

    /** Reads to the end of the stream. Readiness is decided on every non-empty line as read; what is logged is the
        sanitized line, with a mark if it was cut, and what the sanitizer withholds is counted. */
    method Drain(limit: nat, sentinel: seq<Byte>, marker: seq<Byte>, sanitize: seq<Byte> -> Option<seq<Byte>>)
      returns (out: Drained)
      requires Valid()
      modifies this`buffered, this`pieces, this`ended
      ensures Valid() && Pending() == []
      ensures out == Digest(Lines(old(Pending()), limit), sentinel, marker, sanitize)
    {
      hide Lines, FirstLine, Terminated, RawLength, Flat, Noted, Digest;
      ghost var all := Lines(Pending(), limit);
      ghost var done: seq<Line> := [];
      out := Drained(0, [], 0);
      DigestNothing(sentinel, marker, sanitize);
      var more := true;
      while more
        invariant Valid() && out == Digest(done, sentinel, marker, sanitize)
        invariant more ==> all == done + Lines(Pending(), limit)
        invariant !more ==> all == done && Pending() == []
        decreases more, |Pending()|
      {
        ghost var s := Pending();
        var line;
        line, more := ReadBoundedLine(limit);
        LinesUnfold(s, limit);
        RestIsShorter(s);
        DigestSnoc(done, line, sentinel, marker, sanitize);
        out := Noted(out, line, sentinel, marker, sanitize);
        done := done + [line];
      }
    }
  }

  /** Position of the first newline, or the length when there is none. */
  method IndexOf(s: seq<Byte>) returns (i: nat)
    ensures i <= |s| && LF !in s[..i] && (i < |s| ==> s[i] == LF)
    ensures i == |s| ==> LF !in s
  {
    i := 0;
    while i < |s| && s[i] != LF
      invariant i <= |s| && forall k :: 0 <= k < i ==> s[k] != LF
    {
      i := i + 1;
    }
  }

  datatype Drained = Drained(ready: nat, logged: seq<seq<Byte>>, withheld: nat)

  predicate Occurs(x: seq<Byte>, s: seq<Byte>) {
    exists i :: 0 <= i <= |s| - |x| && s[i..][..|x|] == x
  }

  /** One line's effect: empty lines have none. */
  function Noted(d: Drained, line: Line, sentinel: seq<Byte>, marker: seq<Byte>,
                 sanitize: seq<Byte> -> Option<seq<Byte>>): Drained {
    if line.text == [] then d
    else
      var seen := if Occurs(sentinel, line.text) then d.(ready := d.ready + 1) else d;
      match sanitize(line.text)
      case Some(safe) => seen.(logged := d.logged + [if line.truncated then safe + marker else safe])
      case None => seen.(withheld := d.withheld + 1)
  }

  function Digest(lines: seq<Line>, sentinel: seq<Byte>, marker: seq<Byte>,
                  sanitize: seq<Byte> -> Option<seq<Byte>>): Drained {
    if lines == [] then Drained(0, [], 0)
    else Noted(Digest(lines[..|lines| - 1], sentinel, marker, sanitize), lines[|lines| - 1], sentinel, marker, sanitize)
  }

  lemma DigestNothing(sentinel: seq<Byte>, marker: seq<Byte>, sanitize: seq<Byte> -> Option<seq<Byte>>)
    ensures Digest([], sentinel, marker, sanitize) == Drained(0, [], 0)
  {
  }

  lemma DigestSnoc(lines: seq<Line>, line: Line, sentinel: seq<Byte>, marker: seq<Byte>,
                   sanitize: seq<Byte> -> Option<seq<Byte>>)
    ensures Digest(lines + [line], sentinel, marker, sanitize) ==
            Noted(Digest(lines, sentinel, marker, sanitize), line, sentinel, marker, sanitize)
  {
    assert (lines + [line])[..|lines|] == lines;
  }

  /** What follows a terminated line is shorter; nothing follows an unterminated one. */
  lemma RestIsShorter(s: seq<Byte>)
    ensures Terminated(s) ==> |s[RawLength(s)..]| < |s|
    ensures !Terminated(s) ==> s[RawLength(s)..] == []
  {
    if !Terminated(s) {
      UnterminatedIsWhole(s);
    }
  }

  predicate Vouched(line: Line, sanitize: seq<Byte> -> Option<seq<Byte>>) {
    line.text != [] && sanitize(line.text).Some?
  }

  /** The non-empty lines the sanitizer vouches for. */
  function Vouching(sanitize: seq<Byte> -> Option<seq<Byte>>): Line -> bool {
    (line: Line) => Vouched(line, sanitize)
  }

  function Withholding(sanitize: seq<Byte> -> Option<seq<Byte>>): Line -> bool {
    (line: Line) => line.text != [] && sanitize(line.text).None?
  }

  function Carrying(sentinel: seq<Byte>): Line -> bool {
    (line: Line) => line.text != [] && Occurs(sentinel, line.text)
  }

  /** The text is the sanitizer's output for this very line, followed by the mark exactly when the line was cut. */
  predicate LogsLine(text: seq<Byte>, line: Line, marker: seq<Byte>, sanitize: seq<Byte> -> Option<seq<Byte>>) {
    Vouched(line, sanitize) && text == sanitize(line.text).value + if line.truncated then marker else []
  }

  /** What draining logs, and in what order: one text for each line the sanitizer vouches for; the lines it does not are
      counted, and so are the lines that carry the sentinel. */
  lemma {:induction false} LoggedExactly(lines: seq<Line>, sentinel: seq<Byte>, marker: seq<Byte>,
                                         sanitize: seq<Byte> -> Option<seq<Byte>>)
    ensures var d, vouched := Digest(lines, sentinel, marker, sanitize), Filter(lines, Vouching(sanitize));
            && |d.logged| == |vouched|
            && (forall k :: 0 <= k < |vouched| ==> LogsLine(d.logged[k], vouched[k], marker, sanitize))
            && d.withheld == |Filter(lines, Withholding(sanitize))|
            && d.ready == |Filter(lines, Carrying(sentinel))|
  {
    if lines != [] {
      var n := |lines| - 1;
      LoggedExactly(lines[..n], sentinel, marker, sanitize);
    }
  }

  function NonEmptyLines(lines: seq<Line>): nat {
    if lines == [] then 0 else NonEmptyLines(lines[..|lines| - 1]) + if lines[|lines| - 1].text == [] then 0 else 1
  }

  /** Every non-empty line is either logged or counted as withheld, and readiness is reported exactly when some line
      carries the sentinel. */
  lemma {:induction false} EveryLineAccountedFor(lines: seq<Line>, sentinel: seq<Byte>, marker: seq<Byte>,
                                                 sanitize: seq<Byte> -> Option<seq<Byte>>)
    requires sentinel != []
    ensures var d := Digest(lines, sentinel, marker, sanitize);
            && |d.logged| + d.withheld == NonEmptyLines(lines)
            && (d.ready > 0 <==> exists k :: 0 <= k < |lines| && Occurs(sentinel, lines[k].text))
  {
    if lines != [] {
      var n := |lines| - 1;
      EveryLineAccountedFor(lines[..n], sentinel, marker, sanitize);
      assert forall k :: 0 <= k < n ==> lines[..n][k] == lines[k];
      assert lines[n].text == [] ==> !Occurs(sentinel, lines[n].text);
    }
  }
}
