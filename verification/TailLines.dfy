/** What a tail read returns (`OutputRingBuffer::tail` in src/domain/output.rs). */
module TailLines {
  import opened Bytes
  import opened Lines
  import opened ContextLines

  /** With a newline after the last line, if there is a line and it has none yet. */
  function Closed(s: seq<byte>): seq<byte> {
    if s == [] || s[|s| - 1] == NEWLINE then s else s + [NEWLINE]
  }

  lemma {:induction false} LastPieceEmpty(s: seq<byte>)
    ensures var lines := Split(s, NEWLINE);
            lines[|lines| - 1] == [] <==> s == [] || s[|s| - 1] == NEWLINE
  {
    if |s| > 1 {
      LastPieceEmpty(s[1..]);
    } else if |s| == 1 {
      assert s[1..] == [];
    }
  }

  lemma WholeLinesOfClosed(s: seq<byte>)
    ensures WholeLines(Closed(s)) == WholeLines(s)
  {
    if Closed(s) != s {
      var none: seq<byte> := [];
      assert Split(none, NEWLINE) == [none];
      SplitAppend(s, none, NEWLINE);
      assert s + [NEWLINE] + none == s + [NEWLINE];
    }
  }

  lemma {:induction false} JoinTerminated(lines: seq<seq<byte>>)
    requires lines != []
    ensures Join(lines, NEWLINE) + [NEWLINE] == Terminated(lines)
  {
    if |lines| > 1 {
      JoinTerminated(lines[1..]);
    } else {
      assert Terminated(lines[1..]) == [];
    }
  }

  lemma SomeLine(s: seq<byte>)
    requires s != []
    ensures WholeLines(s) != []
  {
    if s[|s| - 1] == NEWLINE {
      var none: seq<byte> := [];
      assert s == s[..|s| - 1] + [NEWLINE] + none;
      SplitAppend(s[..|s| - 1], none, NEWLINE);
    }
  }

  lemma LinesAreWhole(s: seq<byte>)
    ensures LinesOf(s) == WholeLines(s)
  {
    LastPieceEmpty(s);
  }

  /** A tail read returns the end of what the ring holds, from the start of the `n`-th last line on and
  without the final newline; nothing only for no lines or no data. */
  lemma TailIsABlock(s: seq<byte>, n: nat)
    ensures n == 0 || s == [] ==> LastLines(s, n) == []
    ensures n > 0 && s != [] ==>
              LastLines(s, n) + [NEWLINE] == Closed(s)[LinesBack(Closed(s), |Closed(s)|, n)..]
  {
    LinesAreWhole(s);
    if n == 0 || s == [] {
      assert LastOf(LinesOf(s), n) == [];
    } else {
      var whole := Closed(s);
      WholeLinesOfClosed(s);
      SomeLine(s);
      LastLinesAreABlock(whole, |whole|, n);
      assert whole[..|whole|] == whole;
      JoinTerminated(LastOf(WholeLines(s), n));
    }
  }
}
