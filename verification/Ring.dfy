/** The physical ring that src/domain/output.rs and agentd/src/buffer.rs both keep. */
module Ring {
  // A fixed array, a write position and a never-wrapping count of all bytes written. The ghost
  // `history` is the unbounded stream that the array is a window on.

  import opened Bytes

  /** The oldest position a ring of this size still holds. */
  function Oldest(written: nat, size: nat): nat {
    if written <= size then 0 else written - size
  }

  /** Array and write position hold the last `|buf|` bytes of the history, or all of a shorter one. */
  predicate Represents(buf: seq<byte>, head: nat, history: seq<byte>) {
    if |history| < |buf| then head == |history| && buf[..head] == history
    else
      && head <= |buf|
      && (buf != [] ==> head < |buf|)
      && (|history| == |buf| ==> head == 0)
      && buf[head..] + buf[..head] == history[|history| - |buf|..]
  }

  /** Where the array keeps history position `pos`. */
  function Physical(size: nat, head: nat, written: nat, pos: nat): nat
    requires size > 0 && head < size && Oldest(written, size) <= pos < written
  {
    if written <= size then pos else Wrap(head + (pos - Oldest(written, size)), size)
  }

  /** `a % size`, for the sums of two positions the ring computes. */
  function Wrap(a: nat, size: nat): nat {
    if a < size then a else a - size
  }

  lemma ModWrap(a: nat, size: nat)
    requires 0 < size && a < 2 * size
    ensures a % size == Wrap(a, size)
  {
    if a >= size {
      assert a == 1 * size + (a - size);
    }
  }

  /** One contiguous copy at the write position keeps the representation. */
  lemma CopyKeepsRepresentation(buf: seq<byte>, head: nat, history: seq<byte>, seg: seq<byte>, after: seq<byte>)
    requires Represents(buf, head, history) && seg != [] && head + |seg| <= |buf|
    requires after == buf[..head] + seg + buf[head + |seg|..]
    ensures Represents(after, Wrap(head + |seg|, |buf|), history + seg)
  {
    var n := |seg|;
    var longer := history + seg;
    if |longer| < |buf| {
      assert after[..head + n] == longer;
    } else {
      var oldWindow := if |history| < |buf| then history else history[|history| - |buf|..];
      var newHead := Wrap(head + n, |buf|);
      forall i | 0 <= i < |buf|
        ensures (after[newHead..] + after[..newHead])[i] == longer[|longer| - |buf| + i]
      {
        if |history| >= |buf| {
          assert oldWindow == buf[head..] + buf[..head];
          if i + n < |buf| {
            assert longer[|longer| - |buf| + i] == oldWindow[i + n];
          }
        }
      }
    }
  }

  /** The array position of a history position holds that byte. */
  lemma PhysicalHolds(buf: seq<byte>, head: nat, history: seq<byte>, pos: nat)
    requires Represents(buf, head, history) && Oldest(|history|, |buf|) <= pos < |history|
    ensures buf != [] && head < |buf|
    ensures Physical(|buf|, head, |history|, pos) < |buf|
    ensures buf[Physical(|buf|, head, |history|, pos)] == history[pos]
  {
    if |history| < |buf| {
      assert buf[..head][pos] == history[pos];
    } else {
      var k := pos - Oldest(|history|, |buf|);
      assert (buf[head..] + buf[..head])[k] == history[|history| - |buf|..][k];
    }
  }

  class BufferInner {
    const size: nat
    const buf: array<byte>
    var head: nat
    var written: nat
    ghost var history: seq<byte>

    ghost predicate Valid()
      reads this, buf
    {
      && buf.Length == size
      && written == |history|
      && Represents(buf[..], head, history)
    }

    constructor (size: nat)
      ensures Valid() && fresh(buf) && this.size == size && history == []
    {
      this.size := size;
      buf := new byte[size](_ => 0);
      head := 0;
      written := 0;
      history := [];
    }

    /** Appends to the history, whatever the length of `data`; the oldest bytes are overwritten. */
    method Write(data: seq<byte>)
      requires Valid()
      modifies this, buf
      ensures Valid()
      ensures history == old(history) + data
    {
      if data == [] {
        assert history + data == history;
        return;
      }
      var len := |data|;
      if len >= size {
        var start := len - size;
        forall i | 0 <= i < size {
          buf[i] := data[start + i];
        }
        head := 0;
        written := written + len;
        history := history + data;
        assert buf[..] == data[start..];
      } else {
        WriteWrapping(data);
      }
    }

    /** The copy loop for data shorter than the ring: at most two contiguous pieces. */
    method WriteWrapping(data: seq<byte>)
      requires Valid() && |data| < size
      modifies this, buf
      ensures Valid()
      ensures history == old(history) + data
    {
      ghost var before := history;
      var remaining := |data|;
      var src := 0;
      assert before + data[..0] == before;
      while remaining > 0
        invariant remaining == |data| - src && 0 <= src <= |data|
        invariant written == |before|
        invariant history == before + data[..src]
        invariant Represents(buf[..], head, history) && buf.Length == size && head < size
        modifies this, buf
      {
        var n := Min(remaining, size - head);
        CopyContiguous(data[src..src + n]);
        assert data[..src + n] == data[..src] + data[src..src + n];
        src := src + n;
        remaining := remaining - n;
      }
      assert data[..src] == data;
      written := written + |data|;
    }

    /** One piece, up to the end of the array at most; the count of written bytes follows later. */
    method CopyContiguous(seg: seq<byte>)
      requires buf.Length == size && Represents(buf[..], head, history)
      requires seg != [] && head + |seg| <= size
      modifies this, buf
      ensures history == old(history) + seg && written == old(written)
      ensures Represents(buf[..], head, history) && head < size
    {
      var n := |seg|;
      ghost var was := buf[..];
      forall i | 0 <= i < n {
        buf[head + i] := seg[i];
      }
      assert buf[..] == was[..head] + seg + was[head + n..];
      CopyKeepsRepresentation(was, head, history, seg, buf[..]);
      ModWrap(head + n, size);
      head := (head + n) % size;
      history := history + seg;
    }

    /** Exactly the bytes of the history from `start`. */
    method ReadRange(start: nat, n: nat) returns (out: seq<byte>)
      requires Valid()
      requires Oldest(written, size) <= start && start + n <= written
      ensures out == history[start..start + n]
    {
      if n == 0 {
        return [];
      }
      PhysicalHolds(buf[..], head, history, start);
      var phys := FirstPosition(start);
      out := [];
      var read := 0;
      while read < n
        invariant 0 <= read <= n
        invariant out == history[start..start + read]
        invariant read < n ==> phys == Physical(size, head, written, start + read)
      {
        var chunk, next := ReadContiguous(start + read, phys, n - read);
        out := out + chunk;
        phys := next;
        read := read + |chunk|;
      }
    }

    method FirstPosition(start: nat) returns (phys: nat)
      requires Valid() && size > 0 && head < size && Oldest(written, size) <= start < written
      ensures phys == Physical(size, head, written, start)
    {
      var earliest := Oldest(written, size);
      ModWrap(head + (start - earliest), size);
      phys := if written <= size then start else (head + (start - earliest)) % size;
    }

    /** The bytes up to the end of the array, at most `limit`, and the array position after them. */
    method ReadContiguous(ghost pos: nat, phys: nat, limit: nat) returns (chunk: seq<byte>, next: nat)
      requires Valid() && size > 0 && head < size && limit > 0
      requires Oldest(written, size) <= pos && pos + limit <= written
      requires phys == Physical(size, head, written, pos)
      ensures 0 < |chunk| <= limit && chunk == history[pos..pos + |chunk|]
      ensures |chunk| < limit ==> next == Physical(size, head, written, pos + |chunk|)
    {
      PhysicalHolds(buf[..], head, history, pos);
      var n := Min(size - phys, limit);
      ReadChunk(buf[..], head, history, pos, n);
      chunk := buf[phys..phys + n];
      ModWrap(phys + n, size);
      next := (phys + n) % size;
    }
  }

  /** A run of array bytes up to the end of the array is a run of the history, and the position after
  it, modulo the size, is where the history goes on. */
  lemma ReadChunk(buf: seq<byte>, head: nat, history: seq<byte>, pos: nat, n: nat)
    requires Represents(buf, head, history) && Oldest(|history|, |buf|) <= pos < |history|
    requires buf != [] && head < |buf|
    requires pos + n <= |history| && Physical(|buf|, head, |history|, pos) + n <= |buf|
    ensures var p := Physical(|buf|, head, |history|, pos);
            && buf[p..p + n] == history[pos..pos + n]
            && (pos + n < |history| ==> Wrap(p + n, |buf|) == Physical(|buf|, head, |history|, pos + n))
  {
    var p := Physical(|buf|, head, |history|, pos);
    var piece := buf[p..p + n];
    forall i | 0 <= i < n
      ensures piece[i] == history[pos..pos + n][i]
    {
      PhysicalHolds(buf, head, history, pos + i);
    }
  }
}
