/** The client's output ring (`OutputRingBuffer` in src/domain/output.rs). */
module OutputBuffer {
  import opened Bytes
  import opened Ring
  import opened Lines

  const MIN_BUFFER_SIZE: nat := 64 * 1024
  const MAX_BUFFER_SIZE: nat := 32 * 1024 * 1024

  datatype ReadSinceResult =
    ReadSinceResult(output: seq<byte>, newCursor: nat, hasMore: bool, isTruncated: bool)

  /** The cursor is outside what the ring holds: overwritten, or not yet written. */
  predicate Truncated(written: nat, size: nat, cursor: nat) {
    cursor < Oldest(written, size) || cursor > written
  }

  /** A read of a history through a ring: from the cursor, or the oldest byte still held when that is
  later, for at most `max` bytes. */
  function PageAt(history: seq<byte>, size: nat, cursor: nat, max: Option<nat>): ReadSinceResult {
    var from := Max(cursor, Oldest(|history|, size));
    if cursor >= |history| then
      ReadSinceResult([], |history|, false, Truncated(|history|, size, cursor))
    else
      var n := match max case None => |history| - from case Some(m) => Min(m, |history| - from);
      ReadSinceResult(
        history[from..from + n], from + n, from + n < |history|, Truncated(|history|, size, cursor))
  }

  /** Everything the ring holds from the cursor on. */
  function Unread(history: seq<byte>, size: nat, cursor: nat): seq<byte> {
    PageAt(history, size, cursor, None).output
  }

  class OutputRingBuffer {
    const inner: BufferInner

    ghost predicate Valid()
      reads this, inner, inner.buf
    {
      inner.Valid()
    }

    constructor (size: nat)
      ensures Valid() && fresh(inner) && fresh(inner.buf) && inner.history == []
      ensures inner.size == if size < 65536 then 65536 else if size > 33554432 then 33554432 else size
    {
      inner := new BufferInner(Max(MIN_BUFFER_SIZE, Min(size, MAX_BUFFER_SIZE)));
    }

    method Write(data: seq<byte>)
      requires Valid()
      modifies inner, inner.buf
      ensures Valid() && inner.history == old(inner.history) + data
    {
      inner.Write(data);
    }

    method Written() returns (w: nat)
      requires Valid()
      ensures w == |inner.history|
    {
      w := inner.written;
    }

    method IsTruncated(cursor: nat) returns (b: bool)
      requires Valid()
      ensures b == Truncated(|inner.history|, inner.size, cursor)
    {
      if inner.written <= inner.size {
        b := cursor > inner.written;
      } else {
        b := cursor < inner.written - inner.size || cursor > inner.written;
      }
    }

    method ReadSinceInner(cursor: nat, max: Option<nat>) returns (out: seq<byte>, newCursor: nat)
      requires Valid()
      ensures out == PageAt(inner.history, inner.size, cursor, max).output
      ensures newCursor == PageAt(inner.history, inner.size, cursor, max).newCursor
    {
      if cursor >= inner.written {
        return [], inner.written;
      }
      var earliest := if inner.written <= inner.size then 0 else inner.written - inner.size;
      var start := Max(cursor, earliest);
      var available := inner.written - start;
      var toRead := match max case None => available case Some(m) => Min(available, m);
      if toRead == 0 {
        return [], start;
      }
      out := inner.ReadRange(start, toRead);
      newCursor := start + toRead;
    }

    method ReadSince(cursor: nat) returns (out: seq<byte>)
      requires Valid()
      ensures out == Unread(inner.history, inner.size, cursor)
    {
      var next: nat;
      out, next := ReadSinceInner(cursor, None);
    }

    method ReadSinceMax(cursor: nat, maxBytes: nat) returns (r: ReadSinceResult)
      requires Valid()
      ensures r == PageAt(inner.history, inner.size, cursor, Some(maxBytes))
    {
      var output, newCursor := ReadSinceInner(cursor, Some(maxBytes));
      var available := if inner.written < newCursor then 0 else inner.written - newCursor;
      var truncated := IsTruncated(cursor);
      r := ReadSinceResult(output, newCursor, available > 0, truncated);
    }

    method Tail(nLines: nat) returns (out: seq<byte>)
      requires Valid()
      ensures out == LastLines(Unread(inner.history, inner.size, 0), nLines)
    {
      if nLines == 0 {
        assert LastOf(LinesOf(Unread(inner.history, inner.size, 0)), 0) == [];
        return [];
      }
      var full := ReadSince(0);
      out := LastPieces(Split(full, NEWLINE), nLines);
    }

    /** The last lines, given the pieces between newlines. */
    static method LastPieces(lines: seq<seq<byte>>, nLines: nat) returns (out: seq<byte>)
      requires lines != []
      ensures out == Join(LastOf(Effective(lines), nLines), NEWLINE)
    {
      var total := |lines|;
      var effective := if lines[total - 1] == [] then total - 1 else total;
      assert Effective(lines) == lines[..effective];
      LastOfPrefix(lines, effective, nLines);
      if effective == 0 {
        return [];
      }
      var start := if effective < nLines then 0 else effective - nLines;
      out := JoinLines(lines[start..effective]);
    }
  }
}
