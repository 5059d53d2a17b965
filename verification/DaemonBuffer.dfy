/** The daemon's ring (`RingBuffer` in agentd/src/buffer.rs). */
module DaemonBuffer {
  import opened Bytes
  import opened Ring
  import opened OutputBuffer

  const DEFAULT_BUFFER_SIZE: nat := 10 * 1024 * 1024

  datatype SinceResult =
    SinceResult(cursorStart: nat, cursorEnd: nat, isTruncated: bool, data: seq<byte>)

  function SinceAt(history: seq<byte>, size: nat, since: nat): SinceResult {
    if since >= |history| then SinceResult(since, |history|, false, [])
    else
      var from := Max(since, Oldest(|history|, size));
      SinceResult(from, |history|, since < from, history[from..])
  }

  class RingBuffer {
    const inner: BufferInner

    ghost predicate Valid()
      reads this, inner, inner.buf
    {
      inner.Valid()
    }

    constructor (size: nat)
      ensures Valid() && fresh(inner) && fresh(inner.buf) && inner.history == []
      ensures inner.size == if size == 0 then 10485760 else if size < 65536 then 65536 else size
    {
      inner := new BufferInner(if size == 0 then DEFAULT_BUFFER_SIZE else Max(size, MIN_BUFFER_SIZE));
    }

    method Write(data: seq<byte>)
      requires Valid()
      modifies inner, inner.buf
      ensures Valid() && inner.history == old(inner.history) + data
    {
      inner.Write(data);
    }

    method ReadSince(since: nat) returns (r: SinceResult)
      requires Valid()
      ensures r == SinceAt(inner.history, inner.size, since)
    {
      var cursorEnd := inner.written;
      if since >= inner.written {
        return SinceResult(since, cursorEnd, false, []);
      }
      var earliest := if inner.written <= inner.size then 0 else inner.written - inner.size;
      var isTruncated := since < earliest;
      var start := Max(since, earliest);
      var available := inner.written - start;
      var data := inner.ReadRange(start, available);
      assert inner.history[start..start + available] == inner.history[start..];
      r := SinceResult(start, cursorEnd, isTruncated, data);
    }

    method CursorStart() returns (c: nat)
      requires Valid()
      ensures c == Oldest(|inner.history|, inner.size)
    {
      c := if inner.written <= inner.size then 0 else inner.written - inner.size;
    }
  }

  /** Both rings give the same bytes, and the same truncation up to the end of the history; beyond it
  the client reports truncation and the daemon returns a start after its end. */
  lemma RingsAgree(history: seq<byte>, size: nat, cursor: nat)
    ensures var d := SinceAt(history, size, cursor);
            var c := PageAt(history, size, cursor, None);
            && d.data == c.output && d.cursorEnd == c.newCursor
            && (d.isTruncated == c.isTruncated <==> cursor <= |history|)
            && (d.cursorStart <= d.cursorEnd <==> cursor <= |history|)
            && (cursor <= |history| ==> d.data == history[d.cursorStart..d.cursorEnd])
  {
    if cursor < |history| {
      var from := Max(cursor, Oldest(|history|, size));
      assert history[from..from + (|history| - from)] == history[from..];
    }
  }
}
