/** The block of the data that `extract_context` returns, for every match (src/domain/output.rs). */
module ContextBlock {
  import opened Bytes
  import opened Lines
  import opened ContextLines

  // ---------------------------------------------------------------------------------------
  // The block
  // ---------------------------------------------------------------------------------------

  /** The end of the match's lines, a final newline left out. */
  function MatchStop(data: seq<byte>, start: nat, end: nat): (r: nat)
    requires start <= end <= |data|
    ensures LineStart(data, start) <= r <= |data|
  {
    var stop := MatchLineEnd(data, end);
    if LineStart(data, start) < stop && data[stop - 1] == NEWLINE then stop - 1 else stop
  }

  function FirstNonBlank(data: seq<byte>, start: nat, n: nat): (r: nat)
    requires start <= |data|
    ensures r <= LineStart(data, start)
  {
    var lineStart := LineStart(data, start);
    SkipBlankLines(data, LinesBack(data, lineStart, n), lineStart)
  }

  function BlockEnd(data: seq<byte>, start: nat, end: nat, n: nat): (r: nat)
    requires start <= end <= |data|
    ensures r <= |data|
  {
    if n == 0 then MatchLineEnd(data, end) else LinesOn(data, MatchStop(data, start, end), n)
  }

  /** The first line before the match, or of it, that is not blank; when there is none, the first line
  after it that is not. */
  function BlockStart(data: seq<byte>, start: nat, end: nat, n: nat): (r: nat)
    requires start <= end <= |data|
    ensures r <= BlockEnd(data, start, end, n)
  {
    var stop := MatchStop(data, start, end);
    if n == 0 then LineStart(data, start)
    else if FirstNonBlank(data, start, n) < stop then FirstNonBlank(data, start, n)
    else SkipBlankLines(data, stop, LinesOn(data, stop, n))
  }

  lemma WholeLinesHaveNoNewlines(s: seq<byte>, n: nat)
    ensures forall i :: 0 <= i < |LastOf(WholeLines(s), n)| ==> NEWLINE !in LastOf(WholeLines(s), n)[i]
  {
    PiecesHaveNoSeparator(s, NEWLINE);
  }

  lemma MatchLineStops(data: seq<byte>, start: nat, end: nat)
    requires start <= end <= |data|
    ensures var stop := MatchStop(data, start, end);
            && MatchLine(data, start, end) == data[LineStart(data, start)..stop]
            && (stop < |data| ==> data[stop] == NEWLINE && MatchLineEnd(data, end) == stop + 1)
            && (stop == |data| ==> MatchLineEnd(data, end) == stop)
  {
    LineEndMeaning(data, end);
    WithoutLast(data, LineStart(data, start), MatchLineEnd(data, end));
  }

  lemma WithoutLast(data: seq<byte>, from: nat, to: nat)
    requires from <= to <= |data|
    ensures var s := data[from..to];
            && (s == [] <==> from == to)
            && (from < to ==> s[|s| - 1] == data[to - 1] && s[..|s| - 1] == data[from..to - 1])
  {
  }

  lemma {:induction false} RestIsLinesAfter(data: seq<byte>, start: nat, end: nat)
    requires start <= end <= |data|
    ensures WholeLines(data[MatchLineEnd(data, end)..]) == LinesAfter(data, MatchStop(data, start, end))
  {
    MatchLineStops(data, start, end);
    if MatchStop(data, start, end) == |data| {
      assert data[|data|..] == [];
    }
  }

  /** The lines up to and including those of the match. */
  lemma {:induction false} UpToMatch(data: seq<byte>, start: nat, stop: nat, n: nat)
    requires start <= |data| && LineStart(data, start) <= stop <= |data|
    ensures var lineStart := LineStart(data, start);
            PushAll([], LastOf(WholeLines(data[..lineStart]), n) + [data[lineStart..stop]])
            == data[FirstNonBlank(data, start, n)..stop]
  {
    var lineStart := LineStart(data, start);
    var before := LastOf(WholeLines(data[..lineStart]), n);
    var line := data[lineStart..stop];
    LineStartMeaning(data, start);
    LastLinesAreABlock(data, lineStart, n);
    WholeLinesHaveNoNewlines(data[..lineStart], n);
    PushSkipsBlank(data, LinesBack(data, lineStart, n), lineStart, before, line);
    PushAllAppend([], before, [line]);
    SlicesJoin(data, FirstNonBlank(data, start, n), lineStart, stop);
  }

  /** Pushing lines after nothing leaves out the leading blank ones and the newline before the first. */
  lemma {:induction false} PushOntoNothing(data: seq<byte>, from: nat, to: nat, lines: seq<seq<byte>>)
    requires from <= to <= |data| && data[from..to] == Preceded(lines)
    requires forall i :: 0 <= i < |lines| ==> NEWLINE !in lines[i]
    ensures PushAll([], lines) == data[SkipBlankLines(data, from, to)..to]
    decreases |lines|
  {
    if lines != [] {
      var rest := Preceded(lines[1..]);
      assert data[from..to] == [NEWLINE] + (lines[0] + rest);
      assert data[from] == data[from..to][0];
      assert data[from + 1..to] == data[from..to][1..] == lines[0] + rest;
      if lines[0] == [] {
        assert [] + rest == rest;
        PushOntoNothing(data, from + 1, to, lines[1..]);
      } else {
        assert data[from + 1] == data[from + 1..to][0] == lines[0][0];
        assert lines[0][0] in lines[0];
        assert [] + lines[0] == lines[0];
        PushPreceded(lines[0], lines[1..]);
      }
    }
  }

  lemma AfterMatch(data: seq<byte>, from: nat, stop: nat, n: nat)
    requires from <= stop <= |data| && (stop < |data| ==> data[stop] == NEWLINE)
    ensures var to := LinesOn(data, stop, n);
            PushAll(data[from..stop], FirstOf(LinesAfter(data, stop), n))
            == data[(if from < stop then from else SkipBlankLines(data, stop, to))..to]
  {
    var to := LinesOn(data, stop, n);
    var after := FirstOf(LinesAfter(data, stop), n);
    FirstLinesAreABlock(data, stop, n);
    if from < stop {
      PushPreceded(data[from..stop], after);
      SlicesJoin(data, from, stop, to);
    } else {
      assert data[from..stop] == [];
      if stop < |data| {
        PiecesHaveNoSeparator(data[stop + 1..], NEWLINE);
      }
      PushOntoNothing(data, stop, to, after);
    }
  }

  /** Whatever the match, even empty or with newlines at its ends, the result is one block of the data. */
  lemma {:induction false} ContextIsABlock(data: seq<byte>, start: nat, end: nat, n: nat)
    requires start <= end <= |data|
    ensures ExtractContext(data, start, end, n) == data[BlockStart(data, start, end, n)..BlockEnd(data, start, end, n)]
  {
    if n > 0 {
      var stop := MatchStop(data, start, end);
      var lineStart := LineStart(data, start);
      MatchLineStops(data, start, end);
      RestIsLinesAfter(data, start, end);
      UpToMatch(data, start, stop, n);
      var upTo := LastOf(WholeLines(data[..lineStart]), n) + [data[lineStart..stop]];
      PushAllAppend([], upTo, FirstOf(LinesAfter(data, stop), n));
      AfterMatch(data, FirstNonBlank(data, start, n), stop, n);
    }
  }

  /** Without context lines: from just after the last newline before the match, or the start of the data, to just
  after the first newline from the end of the match on, or the end of the data. */
  lemma NoContextMeaning(data: seq<byte>, start: nat, end: nat)
    requires start <= end <= |data|
    ensures var from, to := BlockStart(data, start, end, 0), BlockEnd(data, start, end, 0);
            && from <= start && (from == 0 || data[from - 1] == 0x0A)
            && (forall i :: from <= i < start ==> data[i] != 0x0A)
            && end <= to
            && (if to == end then end == |data|
                else forall i :: end <= i < to - 1 ==> data[i] != 0x0A)
            && (to == |data| || (to > end && data[to - 1] == 0x0A))
  {
    LineStartMeaning(data, start);
    LineEndMeaning(data, end);
    var from, newline := LineStart(data, start), LineEnd(data, end);
    assert forall i :: from <= i < start ==> data[i] == data[from..start][i - from];
    assert forall i :: end <= i < newline ==> data[i] == data[end..newline][i - end];
  }

  // ---------------------------------------------------------------------------------------
  // When the block holds the match
  // ---------------------------------------------------------------------------------------

  /** The match takes in the newline that ends the data. */
  predicate TakesFinalNewline(data: seq<byte>, start: nat, end: nat) {
    start < end == |data| && data[end - 1] == NEWLINE
  }

  /** An empty match on a blank line that is not the last one, with only blank lines for context before. */
  predicate EmptyAmongBlanks(data: seq<byte>, start: nat, end: nat, n: nat) {
    && start == end && start + 1 < |data| && data[start] == NEWLINE
    && BlanksBefore(data, start, n)
  }

  /** The `n` lines before `pos`, or all there are, are blank, and `pos` begins a line. */
  predicate BlanksBefore(data: seq<byte>, pos: nat, n: nat) {
    forall i :: 0 <= i < pos <= |data| && pos <= i + n + 1 ==> data[i] == NEWLINE
  }

  predicate AllBlank(data: seq<byte>, from: nat, to: nat) {
    forall i :: from <= i < to <= |data| ==> data[i] == NEWLINE
  }

  lemma {:induction false} BlankContext(data: seq<byte>, lineStart: nat, n: nat)
    requires lineStart <= |data| && (lineStart == 0 || data[lineStart - 1] == NEWLINE)
    ensures AllBlank(data, LinesBack(data, lineStart, n), lineStart) <==> BlanksBefore(data, lineStart, n)
    decreases n
  {
    if n > 0 && lineStart > 0 {
      var previous := LineStart(data, lineStart - 1);
      LineStartMeaning(data, lineStart - 1);
      if previous == lineStart - 1 {
        BlankContext(data, previous, n - 1);
        var back := LinesBack(data, previous, n - 1);
        assert AllBlank(data, back, lineStart) <==> AllBlank(data, back, previous);
        assert BlanksBefore(data, lineStart, n) <==> BlanksBefore(data, previous, n - 1);
      } else {
        assert data[lineStart - 2] != NEWLINE;
      }
    }
  }

  lemma NoneLeftMeansBlank(data: seq<byte>, start: nat, n: nat)
    requires start <= |data|
    ensures var lineStart := LineStart(data, start);
            FirstNonBlank(data, start, n) == lineStart <==> BlanksBefore(data, lineStart, n)
  {
    var lineStart := LineStart(data, start);
    LineStartMeaning(data, start);
    BlankContext(data, lineStart, n);
    OnlyBlankLinesSkipped(data, LinesBack(data, lineStart, n), lineStart);
  }

  lemma StopsBeforeEnd(data: seq<byte>, start: nat, end: nat)
    requires start <= end <= |data|
    ensures var stop := MatchStop(data, start, end);
            if TakesFinalNewline(data, start, end) then stop == |data| - 1 else end <= stop
  {
    LineStartMeaning(data, start);
  }

  /** The match's own line is empty only for an empty match at the start of a blank line. */
  lemma NothingOnTheLine(data: seq<byte>, start: nat, end: nat)
    requires start <= end <= |data|
    ensures var stop := MatchStop(data, start, end);
            LineStart(data, start) == stop && stop + 1 < |data|
            <==> start == end && LineStart(data, start) == start && start + 1 < |data| && data[start] == NEWLINE
  {
    var lineStart, stop := LineStart(data, start), MatchStop(data, start, end);
    LineStartMeaning(data, start);
    MatchLineStops(data, start, end);
  }

  /** The block holds the match, from its start to its end, with no context lines asked for, and otherwise
  exactly for all but these two kinds of matches. */
  lemma ContextHoldsMatch(data: seq<byte>, start: nat, end: nat, n: nat)
    requires start <= end <= |data|
    ensures BlockStart(data, start, end, n) <= start && end <= BlockEnd(data, start, end, n)
            <==> n == 0 || !(TakesFinalNewline(data, start, end) || EmptyAmongBlanks(data, start, end, n))
  {
    if n > 0 {
      StopsBeforeEnd(data, start, end);
      StartsBefore(data, start, end, n);
    }
  }

  lemma StartsBefore(data: seq<byte>, start: nat, end: nat, n: nat)
    requires start <= end <= |data| && n > 0
    ensures BlockStart(data, start, end, n) <= start <==> !EmptyAmongBlanks(data, start, end, n)
  {
    var stop := MatchStop(data, start, end);
    var lineStart := LineStart(data, start);
    NoneLeftMeansBlank(data, start, n);
    NothingOnTheLine(data, start, end);
    MatchLineStops(data, start, end);
    LineStartMeaning(data, start);
  }

  /** A match of the one newline that is all the data: nothing is returned. */
  lemma FinalNewlineIsLost()
    ensures ExtractContext([NEWLINE], 0, 1, 1) == []
  {
    var data: seq<byte> := [NEWLINE];
    ContextIsABlock(data, 0, 1, 1);
    assert TakesFinalNewline(data, 0, 1);
    StopsBeforeEnd(data, 0, 1);
  }

  /** An empty match on a blank first line: what is returned begins after it. */
  lemma BlankLineIsLost()
    ensures ExtractContext([NEWLINE, 0x61], 0, 0, 1) == [0x61]
  {
    var data: seq<byte> := [NEWLINE, 0x61];
    ContextIsABlock(data, 0, 0, 1);
    assert MatchStop(data, 0, 0) == 0;
    assert LineEnd(data, 1) == 2;
    assert LinesOn(data, 0, 1) == 2;
    assert SkipBlankLines(data, 0, 2) == 1;
    assert data[1..2] == [0x61];
  }

  // ---------------------------------------------------------------------------------------
  // How many lines it has
  // ---------------------------------------------------------------------------------------

  lemma LineAddsOne(s: seq<byte>, line: seq<byte>)
    requires NEWLINE !in line
    ensures Newlines(s + (line + [NEWLINE])) == Newlines(s) + 1
    ensures Newlines(([NEWLINE] + line) + s) == 1 + Newlines(s)
  {
    NoNewlines(line);
    assert Newlines([NEWLINE]) == 1;
    NewlinesAppend(line, [NEWLINE]);
    NewlinesAppend([NEWLINE], line);
    NewlinesAppend(s, line + [NEWLINE]);
    NewlinesAppend([NEWLINE] + line, s);
  }

  lemma LineBeforeCounts(data: seq<byte>, from: nat, previous: nat, lineStart: nat, line: seq<byte>)
    requires from <= previous <= lineStart <= |data|
    requires NEWLINE !in line && data[previous..lineStart] == line + [NEWLINE]
    ensures Newlines(data[from..lineStart]) == Newlines(data[from..previous]) + 1
  {
    SlicesJoin(data, from, previous, lineStart);
    LineAddsOne(data[from..previous], line);
  }

  lemma LineAfterCounts(data: seq<byte>, lineEnd: nat, next: nat, to: nat, line: seq<byte>)
    requires lineEnd <= next <= to <= |data|
    requires NEWLINE !in line && data[lineEnd..next] == [NEWLINE] + line
    ensures Newlines(data[lineEnd..to]) == 1 + Newlines(data[next..to])
  {
    SlicesJoin(data, lineEnd, next, to);
    LineAddsOne(data[next..to], line);
  }

  /** The block before the match has `n` lines, or reaches the start of the data. */
  lemma {:induction false} LinesBackCounts(data: seq<byte>, lineStart: nat, n: nat)
    requires lineStart <= |data| && (lineStart == 0 || data[lineStart - 1] == NEWLINE)
    ensures var from := LinesBack(data, lineStart, n);
            && (from == 0 || data[from - 1] == NEWLINE)
            && Newlines(data[from..lineStart]) <= n
            && (from > 0 ==> Newlines(data[from..lineStart]) == n)
    decreases n
  {
    if n > 0 && lineStart > 0 {
      var previous := LineStart(data, lineStart - 1);
      var line := data[previous..lineStart - 1];
      var from := LinesBack(data, previous, n - 1);
      PreviousLine(data, lineStart);
      LinesBackCounts(data, previous, n - 1);
      LineBeforeCounts(data, from, previous, lineStart, line);
    } else {
      assert data[lineStart..lineStart] == [];
    }
  }

  /** The block after the match has `n` lines, or reaches the end of the data but for a final newline. */
  lemma {:induction false} LinesOnCounts(data: seq<byte>, lineEnd: nat, n: nat)
    requires lineEnd <= |data| && (lineEnd == |data| || data[lineEnd] == NEWLINE)
    ensures var to := LinesOn(data, lineEnd, n);
            && (to == |data| || data[to] == NEWLINE)
            && Newlines(data[lineEnd..to]) <= n
            && (to + 1 < |data| ==> Newlines(data[lineEnd..to]) == n)
    decreases n
  {
    if n > 0 && lineEnd + 1 < |data| {
      var next := LineEnd(data, lineEnd + 1);
      var line := data[lineEnd + 1..next];
      var to := LinesOn(data, next, n - 1);
      NextLine(data, lineEnd);
      LinesOnCounts(data, next, n - 1);
      LineAfterCounts(data, lineEnd, next, to, line);
    } else {
      assert data[lineEnd..lineEnd] == [];
    }
  }

  /** Blank lines before the match are lost only at the front of its context. */
  lemma {:induction false} OnlyBlankLinesSkipped(data: seq<byte>, from: nat, lineStart: nat)
    requires from <= lineStart <= |data|
    ensures var r := SkipBlankLines(data, from, lineStart);
            && (forall i :: from <= i < r ==> data[i] == NEWLINE)
            && (r < lineStart ==> data[r] != NEWLINE)
    decreases lineStart - from
  {
    if from < lineStart && data[from] == NEWLINE {
      OnlyBlankLinesSkipped(data, from + 1, lineStart);
    }
  }
}
