/** The lines around a match (`extract_context` in src/domain/output.rs): how they are cut out of the data and
pushed together again, and which slices of the data they are. What the result is as a whole, for every
match, is in `ContextBlock`. */
module ContextLines {
  import opened Bytes
  import opened Lines

  /** Just after the last newline before `pos`. */
  function LineStart(data: seq<byte>, pos: nat): (r: nat)
    requires pos <= |data|
    ensures r <= pos
  {
    if pos == 0 || data[pos - 1] == NEWLINE then pos else LineStart(data, pos - 1)
  }

  /** The first newline at or after `pos`, or the end. */
  function LineEnd(data: seq<byte>, pos: nat): (r: nat)
    requires pos <= |data|
    ensures pos <= r <= |data|
    decreases |data| - pos
  {
    if pos == |data| || data[pos] == NEWLINE then pos else LineEnd(data, pos + 1)
  }

  lemma {:induction false} LineStartMeaning(data: seq<byte>, pos: nat)
    requires pos <= |data|
    ensures var r := LineStart(data, pos);
            NEWLINE !in data[r..pos] && (r == 0 || data[r - 1] == NEWLINE)
  {
    if pos > 0 && data[pos - 1] != NEWLINE {
      LineStartMeaning(data, pos - 1);
      var r := LineStart(data, pos - 1);
      assert data[r..pos] == data[r..pos - 1] + [data[pos - 1]];
    }
  }

  lemma {:induction false} LineEndMeaning(data: seq<byte>, pos: nat)
    requires pos <= |data|
    ensures var r := LineEnd(data, pos);
            NEWLINE !in data[pos..r] && (r == |data| || data[r] == NEWLINE)
    decreases |data| - pos
  {
    if pos < |data| && data[pos] != NEWLINE {
      LineEndMeaning(data, pos + 1);
      var r := LineEnd(data, pos + 1);
      assert data[pos..r] == [data[pos]] + data[pos + 1..r];
    }
  }

  /** `split` on newlines, the empty piece after a final newline (or of no data) left out. */
  function WholeLines(s: seq<byte>): seq<seq<byte>> {
    var lines := Split(s, NEWLINE);
    if s == [] || s[|s| - 1] == NEWLINE then lines[..|lines| - 1] else lines
  }

  /** A newline goes before a line only when something has been pushed already. */
  function Push(out: seq<byte>, line: seq<byte>): seq<byte> {
    (if out == [] then [] else out + [NEWLINE]) + line
  }

  function PushAll(out: seq<byte>, lines: seq<seq<byte>>): seq<byte>
    decreases |lines|
  {
    if lines == [] then out else PushAll(Push(out, lines[0]), lines[1..])
  }

  function FirstOf<T>(xs: seq<T>, n: nat): seq<T> {
    xs[..Min(|xs|, n)]
  }

  function MatchLineEnd(data: seq<byte>, end: nat): (r: nat)
    requires end <= |data|
    ensures end <= r <= |data|
  {
    Min(LineEnd(data, end) + 1, |data|)
  }

  function MatchLine(data: seq<byte>, start: nat, end: nat): seq<byte>
    requires start <= end <= |data|
  {
    var line := data[LineStart(data, start)..MatchLineEnd(data, end)];
    if line != [] && line[|line| - 1] == NEWLINE then line[..|line| - 1] else line
  }

  function ExtractContext(data: seq<byte>, start: nat, end: nat, contextLines: nat): seq<byte>
    requires start <= end <= |data|
  {
    var lineStart := LineStart(data, start);
    if contextLines == 0 then data[lineStart..MatchLineEnd(data, end)]
    else
      PushAll([],
        LastOf(WholeLines(data[..lineStart]), contextLines)
        + [MatchLine(data, start, end)]
        + FirstOf(WholeLines(data[MatchLineEnd(data, end)..]), contextLines))
  }

  lemma {:induction false} PushAllAppend(out: seq<byte>, a: seq<seq<byte>>, b: seq<seq<byte>>)
    ensures PushAll(out, a + b) == PushAll(PushAll(out, a), b)
    decreases |a|
  {
    if a == [] {
      assert a + b == b;
    } else {
      assert (a + b)[1..] == a[1..] + b;
      PushAllAppend(Push(out, a[0]), a[1..], b);
    }
  }

  method PushLines(out: seq<byte>, lines: seq<seq<byte>>) returns (r: seq<byte>)
    ensures r == PushAll(out, lines)
  {
    r := out;
    var i := 0;
    while i < |lines|
      invariant 0 <= i <= |lines|
      invariant PushAll(r, lines[i..]) == PushAll(out, lines)
    {
      if r != [] {
        r := r + [NEWLINE];
      }
      r := r + lines[i];
      assert lines[i..][1..] == lines[i + 1..];
      i := i + 1;
    }
  }

  method RunExtractContext(data: seq<byte>, start: nat, end: nat, contextLines: nat) returns (out: seq<byte>)
    requires start <= end <= |data|
    ensures out == ExtractContext(data, start, end, contextLines)
  {
    var lineStart := LineStart(data, start);
    var newline := LineEnd(data, end);
    var lineEnd := if newline < |data| then newline + 1 else |data|;
    if contextLines == 0 {
      return data[lineStart..lineEnd];
    }
    var line := data[lineStart..lineEnd];
    if line != [] && line[|line| - 1] == NEWLINE {
      line := line[..|line| - 1];
    }
    assert line == MatchLine(data, start, end);
    var before := WholeLines(data[..lineStart]);
    var after := WholeLines(data[lineEnd..]);
    out := PushContext(LastOf(before, contextLines), line, FirstOf(after, contextLines));
  }

  method PushContext(before: seq<seq<byte>>, line: seq<byte>, after: seq<seq<byte>>) returns (out: seq<byte>)
    ensures out == PushAll([], before + [line] + after)
  {
    out := PushLines([], before);
    PushAllAppend([], before, [line]);
    out := PushLines(out, [line]);
    PushAllAppend([], before + [line], after);
    out := PushLines(out, after);
  }

  // ---------------------------------------------------------------------------------------
  // The block of the data that is returned
  // ---------------------------------------------------------------------------------------

  /** The start of the line `n` lines before the line that starts at `lineStart`. */
  function LinesBack(data: seq<byte>, lineStart: nat, n: nat): (r: nat)
    requires lineStart <= |data|
    ensures r <= lineStart
    decreases n
  {
    if n == 0 || lineStart == 0 then lineStart
    else LinesBack(data, LineStart(data, lineStart - 1), n - 1)
  }

  /** The end of the line `n` lines after the line that ends at `lineEnd`; a final newline starts no
  further line. */
  function LinesOn(data: seq<byte>, lineEnd: nat, n: nat): (r: nat)
    requires lineEnd <= |data|
    ensures lineEnd <= r <= |data|
    decreases n
  {
    if n == 0 || lineEnd + 1 >= |data| then lineEnd
    else LinesOn(data, LineEnd(data, lineEnd + 1), n - 1)
  }

  function SkipBlankLines(data: seq<byte>, from: nat, lineStart: nat): (r: nat)
    requires from <= lineStart <= |data|
    ensures from <= r <= lineStart
    decreases lineStart - from
  {
    if from < lineStart && data[from] == NEWLINE then SkipBlankLines(data, from + 1, lineStart) else from
  }

  function Newlines(s: seq<byte>): nat {
    if s == [] then 0 else Newlines(s[..|s| - 1]) + if s[|s| - 1] == NEWLINE then 1 else 0
  }

  lemma {:induction false} NewlinesAppend(a: seq<byte>, b: seq<byte>)
    ensures Newlines(a + b) == Newlines(a) + Newlines(b)
  {
    if b == [] {
      assert a + b == a;
    } else {
      assert (a + b)[..|a + b| - 1] == a + b[..|b| - 1];
      NewlinesAppend(a, b[..|b| - 1]);
    }
  }

  lemma {:induction false} NoNewlines(s: seq<byte>)
    requires NEWLINE !in s
    ensures Newlines(s) == 0 && Split(s, NEWLINE) == [s]
  {
    SplitOnePiece(s, NEWLINE);
    if s != [] {
      NoNewlines(s[..|s| - 1]);
    }
  }

  // -- before the match ---------------------------------------------------------------------

  function Terminated(lines: seq<seq<byte>>): seq<byte> {
    if lines == [] then [] else lines[0] + [NEWLINE] + Terminated(lines[1..])
  }

  lemma {:induction false} TerminatedSnoc(lines: seq<seq<byte>>, line: seq<byte>)
    ensures Terminated(lines + [line]) == Terminated(lines) + line + [NEWLINE]
  {
    if lines != [] {
      assert (lines + [line])[1..] == lines[1..] + [line];
      TerminatedSnoc(lines[1..], line);
    }
  }

  lemma WholeLinesSnoc(s: seq<byte>, line: seq<byte>)
    requires s == [] || s[|s| - 1] == NEWLINE
    requires NEWLINE !in line
    ensures WholeLines(s + line + [NEWLINE]) == WholeLines(s) + [line]
  {
    NoNewlines(line);
    var all := s + line + [NEWLINE];
    assert all == (s + line) + [NEWLINE] + [];
    SplitAppend(s + line, [], NEWLINE);
    assert Split([], NEWLINE) == [[]];
    assert WholeLines(all) == Split(s + line, NEWLINE);
    if s == [] {
      assert s + line == line;
    } else {
      var t := s[..|s| - 1];
      assert s + line == t + [NEWLINE] + line;
      SplitAppend(t, line, NEWLINE);
      assert s == t + [NEWLINE] + [];
      SplitAppend(t, [], NEWLINE);
    }
  }

  lemma PreviousLine(data: seq<byte>, lineStart: nat)
    requires 0 < lineStart <= |data| && data[lineStart - 1] == NEWLINE
    ensures var previous := LineStart(data, lineStart - 1);
            var line := data[previous..lineStart - 1];
            && (previous == 0 || data[previous - 1] == NEWLINE)
            && NEWLINE !in line
            && data[previous..lineStart] == line + [NEWLINE]
  {
    LineStartMeaning(data, lineStart - 1);
  }

  lemma LastWholeLine(data: seq<byte>, lineStart: nat)
    requires 0 < lineStart <= |data| && data[lineStart - 1] == NEWLINE
    ensures var previous := LineStart(data, lineStart - 1);
            WholeLines(data[..lineStart]) == WholeLines(data[..previous]) + [data[previous..lineStart - 1]]
  {
    var previous := LineStart(data, lineStart - 1);
    var line := data[previous..lineStart - 1];
    PreviousLine(data, lineStart);
    assert data[..lineStart] == data[..previous] + line + [NEWLINE];
    LinesUpTo(data[..previous], line, data[..lineStart]);
  }

  lemma LinesUpTo(before: seq<byte>, line: seq<byte>, all: seq<byte>)
    requires before == [] || before[|before| - 1] == NEWLINE
    requires NEWLINE !in line && all == before + line + [NEWLINE]
    ensures WholeLines(all) == WholeLines(before) + [line]
  {
    WholeLinesSnoc(before, line);
  }

  lemma LastOfSnoc<T>(xs: seq<T>, x: T, n: nat)
    requires n > 0
    ensures LastOf(xs + [x], n) == LastOf(xs, n - 1) + [x]
  {
  }

  lemma OneLineBack(
    data: seq<byte>, from: nat, previous: nat, lineStart: nat, lines: seq<seq<byte>>, line: seq<byte>, n: nat)
    requires n > 0 && from <= previous <= lineStart <= |data|
    requires Terminated(LastOf(lines, n - 1)) == data[from..previous]
    requires data[previous..lineStart] == line + [NEWLINE]
    ensures Terminated(LastOf(lines + [line], n)) == data[from..lineStart]
  {
    LastOfSnoc(lines, line, n);
    TerminatedSnoc(LastOf(lines, n - 1), line);
    SlicesJoin(data, from, previous, lineStart);
  }

  lemma LineAfterBlock(data: seq<byte>, lineStart: nat, n: nat)
    requires n > 0 && 0 < lineStart <= |data| && data[lineStart - 1] == NEWLINE
    requires var previous := LineStart(data, lineStart - 1);
             Terminated(LastOf(WholeLines(data[..previous]), n - 1)) == data[LinesBack(data, previous, n - 1)..previous]
    ensures Terminated(LastOf(WholeLines(data[..lineStart]), n)) == data[LinesBack(data, lineStart, n)..lineStart]
  {
    var previous := LineStart(data, lineStart - 1);
    PreviousLine(data, lineStart);
    LastWholeLine(data, lineStart);
    OneLineBack(data, LinesBack(data, previous, n - 1), previous, lineStart,
                WholeLines(data[..previous]), data[previous..lineStart - 1], n);
  }

  lemma {:induction false} LastLinesAreABlock(data: seq<byte>, lineStart: nat, n: nat)
    requires lineStart <= |data| && (lineStart == 0 || data[lineStart - 1] == NEWLINE)
    ensures Terminated(LastOf(WholeLines(data[..lineStart]), n)) == data[LinesBack(data, lineStart, n)..lineStart]
    decreases n
  {
    if n == 0 {
    } else if lineStart == 0 {
      assert data[..0] == [];
    } else {
      PreviousLine(data, lineStart);
      LastLinesAreABlock(data, LineStart(data, lineStart - 1), n - 1);
      LineAfterBlock(data, lineStart, n);
    }
  }

  lemma {:induction false} PushTerminated(out: seq<byte>, lines: seq<seq<byte>>)
    requires out != []
    ensures PushAll(out, lines) + [NEWLINE] == out + [NEWLINE] + Terminated(lines)
    decreases |lines|
  {
    if lines != [] {
      PushTerminated(Push(out, lines[0]), lines[1..]);
    }
  }

  /** Pushing lines onto nothing leaves out the leading blank ones. */
  lemma {:induction false} PushSkipsBlank(
    data: seq<byte>, from: nat, lineStart: nat, lines: seq<seq<byte>>, line: seq<byte>)
    requires from <= lineStart <= |data| && data[from..lineStart] == Terminated(lines)
    requires forall i :: 0 <= i < |lines| ==> NEWLINE !in lines[i]
    ensures Push(PushAll([], lines), line) == data[SkipBlankLines(data, from, lineStart)..lineStart] + line
    decreases |lines|
  {
    if lines != [] {
      assert data[from] == Terminated(lines)[0];
      if lines[0] == [] {
        assert data[from + 1..lineStart] == Terminated(lines)[1..];
        assert Terminated(lines)[1..] == Terminated(lines[1..]);
        PushSkipsBlank(data, from + 1, lineStart, lines[1..], line);
      } else {
        assert lines[0][0] in lines[0];
        PushTerminated(lines[0], lines[1..]);
        assert [] + lines[0] == lines[0];
      }
    }
  }

  // -- after the match ----------------------------------------------------------------------

  function Preceded(lines: seq<seq<byte>>): seq<byte> {
    if lines == [] then [] else [NEWLINE] + lines[0] + Preceded(lines[1..])
  }

  lemma {:induction false} PushPreceded(out: seq<byte>, lines: seq<seq<byte>>)
    requires out != []
    ensures PushAll(out, lines) == out + Preceded(lines)
    decreases |lines|
  {
    if lines != [] {
      PushPreceded(Push(out, lines[0]), lines[1..]);
    }
  }

  lemma WholeLinesCons(line: seq<byte>, s: seq<byte>)
    requires NEWLINE !in line
    ensures WholeLines(line + [NEWLINE] + s) == [line] + WholeLines(s)
    ensures line != [] ==> WholeLines(line) == [line]
  {
    NoNewlines(line);
    SplitAppend(line, s, NEWLINE);
    if line != [] {
      assert line[|line| - 1] in line;
    }
  }

  lemma NextLine(data: seq<byte>, lineEnd: nat)
    requires lineEnd + 1 < |data| && data[lineEnd] == NEWLINE
    ensures var next := LineEnd(data, lineEnd + 1);
            var line := data[lineEnd + 1..next];
            && NEWLINE !in line
            && data[lineEnd..next] == [NEWLINE] + line
            && (next < |data| ==> data[next] == NEWLINE)
  {
    LineEndMeaning(data, lineEnd + 1);
  }

  /** The lines after the line that ends at `lineEnd`. */
  function LinesAfter(data: seq<byte>, lineEnd: nat): seq<seq<byte>>
    requires lineEnd <= |data|
  {
    if lineEnd == |data| then [] else WholeLines(data[lineEnd + 1..])
  }

  lemma LinesFrom(line: seq<byte>, rest: seq<byte>, all: seq<byte>)
    requires NEWLINE !in line && all == line + [NEWLINE] + rest
    ensures WholeLines(all) == [line] + WholeLines(rest)
  {
    WholeLinesCons(line, rest);
  }

  lemma FirstWholeLine(data: seq<byte>, lineEnd: nat)
    requires lineEnd + 1 < |data| && data[lineEnd] == NEWLINE
    ensures var next := LineEnd(data, lineEnd + 1);
            LinesAfter(data, lineEnd) == [data[lineEnd + 1..next]] + LinesAfter(data, next)
  {
    NextLine(data, lineEnd);
    LinesAfterFirst(data, lineEnd, LineEnd(data, lineEnd + 1));
  }

  lemma LinesAfterFirst(data: seq<byte>, lineEnd: nat, next: nat)
    requires lineEnd + 1 < |data| && lineEnd + 1 <= next <= |data|
    requires NEWLINE !in data[lineEnd + 1..next] && (next < |data| ==> data[next] == NEWLINE)
    ensures LinesAfter(data, lineEnd) == [data[lineEnd + 1..next]] + LinesAfter(data, next)
  {
    var line := data[lineEnd + 1..next];
    if next == |data| {
      assert data[lineEnd + 1..] == line;
      OneWholeLine(line);
    } else {
      assert data[lineEnd + 1..] == line + [NEWLINE] + data[next + 1..];
      LinesFrom(line, data[next + 1..], data[lineEnd + 1..]);
    }
  }

  lemma OneWholeLine(line: seq<byte>)
    requires NEWLINE !in line && line != []
    ensures WholeLines(line) == [line]
  {
    WholeLinesCons(line, []);
  }

  lemma FirstOfCons<T>(x: T, xs: seq<T>, n: nat)
    requires n > 0
    ensures FirstOf([x] + xs, n) == [x] + FirstOf(xs, n - 1)
  {
  }

  lemma OneLineOn(
    data: seq<byte>, lineEnd: nat, next: nat, to: nat, line: seq<byte>, more: seq<seq<byte>>, n: nat)
    requires n > 0 && lineEnd <= next <= to <= |data|
    requires data[lineEnd..next] == [NEWLINE] + line
    requires Preceded(FirstOf(more, n - 1)) == data[next..to]
    ensures Preceded(FirstOf([line] + more, n)) == data[lineEnd..to]
  {
    FirstOfCons(line, more, n);
    SlicesJoin(data, lineEnd, next, to);
  }

  lemma LineThenBlock(data: seq<byte>, lineEnd: nat, n: nat)
    requires n > 0 && lineEnd + 1 < |data| && data[lineEnd] == NEWLINE
    requires var next := LineEnd(data, lineEnd + 1);
             Preceded(FirstOf(LinesAfter(data, next), n - 1)) == data[next..LinesOn(data, next, n - 1)]
    ensures Preceded(FirstOf(LinesAfter(data, lineEnd), n)) == data[lineEnd..LinesOn(data, lineEnd, n)]
  {
    var next := LineEnd(data, lineEnd + 1);
    NextLine(data, lineEnd);
    FirstWholeLine(data, lineEnd);
    OneLineOn(data, lineEnd, next, LinesOn(data, next, n - 1), data[lineEnd + 1..next], LinesAfter(data, next), n);
  }

  lemma {:induction false} FirstLinesAreABlock(data: seq<byte>, lineEnd: nat, n: nat)
    requires lineEnd <= |data| && (lineEnd < |data| ==> data[lineEnd] == NEWLINE)
    ensures Preceded(FirstOf(LinesAfter(data, lineEnd), n)) == data[lineEnd..LinesOn(data, lineEnd, n)]
    decreases n
  {
    if n == 0 || lineEnd + 1 >= |data| {
      assert FirstOf(LinesAfter(data, lineEnd), n) == [];
      assert LinesOn(data, lineEnd, n) == lineEnd;
    } else {
      LineEndMeaning(data, lineEnd + 1);
      FirstLinesAreABlock(data, LineEnd(data, lineEnd + 1), n - 1);
      LineThenBlock(data, lineEnd, n);
    }
  }
}
