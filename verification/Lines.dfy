/** Splitting a sequence at a separator, joining it again, and the lines of bytes. */
module Lines {
  import opened Bytes

  const NEWLINE: byte := 0x0A

  /** The pieces between separators: one more than there are separators, the last one possibly empty. */
  function Split<T(==)>(s: seq<T>, sep: T): (pieces: seq<seq<T>>)
    ensures |pieces| >= 1
  {
    if s == [] then [[]]
    else
      var rest := Split(s[1..], sep);
      if s[0] == sep then [[]] + rest else [[s[0]] + rest[0]] + rest[1..]
  }

  function Join<T>(pieces: seq<seq<T>>, sep: T): seq<T> {
    if pieces == [] then []
    else if |pieces| == 1 then pieces[0]
    else pieces[0] + [sep] + Join(pieces[1..], sep)
  }

  lemma {:induction false} JoinAppend<T>(a: seq<seq<T>>, b: seq<seq<T>>, sep: T)
    requires a != [] && b != []
    ensures Join(a + b, sep) == Join(a, sep) + [sep] + Join(b, sep)
  {
    if |a| == 1 {
      assert (a + b)[1..] == b;
    } else {
      assert (a + b)[1..] == a[1..] + b;
      JoinAppend(a[1..], b, sep);
    }
  }

  lemma {:induction false} SplitAppend<T>(a: seq<T>, b: seq<T>, sep: T)
    ensures Split(a + [sep] + b, sep) == Split(a, sep) + Split(b, sep)
  {
    if a == [] {
      assert ([sep] + b)[1..] == b && a + [sep] + b == [sep] + b;
    } else {
      assert (a + [sep] + b)[1..] == a[1..] + [sep] + b;
      SplitAppend(a[1..], b, sep);
    }
  }

  lemma {:induction false} SplitOnePiece<T>(s: seq<T>, sep: T)
    requires sep !in s
    ensures Split(s, sep) == [s]
  {
    if s != [] {
      SplitOnePiece(s[1..], sep);
      assert [s[0]] + s[1..] == s;
    }
  }

  lemma {:induction false} PiecesHaveNoSeparator<T>(s: seq<T>, sep: T)
    ensures forall i :: 0 <= i < |Split(s, sep)| ==> sep !in Split(s, sep)[i]
  {
    if s != [] {
      PiecesHaveNoSeparator(s[1..], sep);
    }
  }

  /** Splitting and joining again gives the sequence back. */
  lemma {:induction false} JoinOfSplit<T>(s: seq<T>, sep: T)
    ensures Join(Split(s, sep), sep) == s
  {
    if s != [] {
      var rest := Split(s[1..], sep);
      JoinOfSplit(s[1..], sep);
      if s[0] == sep {
        JoinAppend([[]], rest, sep);
      } else {
        JoinWithFirst(s[0], rest, sep);
      }
    }
  }

  lemma JoinWithFirst<T>(x: T, pieces: seq<seq<T>>, sep: T)
    requires pieces != []
    ensures Join([[x] + pieces[0]] + pieces[1..], sep) == [x] + Join(pieces, sep)
  {
    var longer := [[x] + pieces[0]] + pieces[1..];
    assert longer[1..] == pieces[1..];
  }

  /** The loop that puts a newline before every line but the first. */
  method JoinLines(lines: seq<seq<byte>>) returns (out: seq<byte>)
    ensures out == Join(lines, NEWLINE)
  {
    out := [];
    var i := 0;
    while i < |lines|
      invariant 0 <= i <= |lines|
      invariant out == Join(lines[..i], NEWLINE)
    {
      if i > 0 {
        out := out + [NEWLINE];
        JoinAppend(lines[..i], [lines[i]], NEWLINE);
      }
      assert lines[..i + 1] == lines[..i] + [lines[i]];
      out := out + lines[i];
      i := i + 1;
    }
    assert lines[..i] == lines;
  }

  function LastOf<T>(xs: seq<T>, n: nat): seq<T> {
    xs[(if |xs| < n then 0 else |xs| - n)..]
  }

  lemma LastOfPrefix<T>(xs: seq<T>, k: nat, n: nat)
    requires k <= |xs|
    ensures LastOf(xs[..k], n) == xs[(if k < n then 0 else k - n)..k]
  {
  }

  /** Without an empty last piece. */
  function Effective(pieces: seq<seq<byte>>): seq<seq<byte>>
    requires pieces != []
  {
    if pieces[|pieces| - 1] == [] then pieces[..|pieces| - 1] else pieces
  }

  /** The lines, a final newline not starting another one. */
  function LinesOf(s: seq<byte>): seq<seq<byte>> {
    Effective(Split(s, NEWLINE))
  }

  /** The last `n` lines. */
  function LastLines(s: seq<byte>, n: nat): seq<byte> {
    Join(LastOf(LinesOf(s), n), NEWLINE)
  }
}
