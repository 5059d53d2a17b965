/** The queue of input on its way to the PTY (agentd/src/pty.rs, `PtyWriter`). */
module InputQueue {
  // Senders put chunks into a bounded queue, and one writer thread takes them out.

  import opened Bytes

  const WRITER_QUEUE_BYTES: nat := 256 * 1024
  const WRITER_CHUNK: nat := 64 * 1024

  // ---------------------------------------------------------------------------------------
  // The queue
  // ---------------------------------------------------------------------------------------

  type Chunk = c: seq<byte> | 0 < |c| <= WRITER_CHUNK witness [0]

  function TotalLength(chunks: seq<seq<byte>>): nat {
    if chunks == [] then 0 else |chunks[0]| + TotalLength(chunks[1..])
  }

  lemma {:induction false} TotalLengthSnoc(chunks: seq<seq<byte>>, c: seq<byte>)
    ensures TotalLength(chunks + [c]) == TotalLength(chunks) + |c|
  {
    if chunks == [] {
      assert chunks + [c] == [c] && [c][1..] == [];
    } else {
      assert (chunks + [c])[1..] == chunks[1..] + [c];
      TotalLengthSnoc(chunks[1..], c);
    }
  }

  datatype Queue = Queue(chunks: seq<Chunk>, queued: nat, closed: bool)

  predicate QueueOk(q: Queue) {
    q.queued == TotalLength(q.chunks) <= WRITER_QUEUE_BYTES
  }

  predicate Fits(q: Queue, c: Chunk) {
    q.queued + |c| <= WRITER_QUEUE_BYTES
  }

  function PushNext(q: Queue, c: Chunk): Queue {
    q.(chunks := q.chunks + [c], queued := q.queued + |c|)
  }

  function PopNext(q: Queue): Queue
    requires q.chunks != [] && q.queued >= |q.chunks[0]|
  {
    q.(chunks := q.chunks[1..], queued := q.queued - |q.chunks[0]|)
  }

  function DiscardNext(q: Queue): Queue {
    q.(chunks := [], queued := 0)
  }

  lemma QueueStaysOk(q: Queue, c: Chunk)
    requires QueueOk(q)
    ensures Fits(q, c) ==> QueueOk(PushNext(q, c))
    ensures q.chunks != [] ==> q.queued >= |q.chunks[0]| && QueueOk(PopNext(q))
    ensures QueueOk(DiscardNext(q))
  {
    TotalLengthSnoc(q.chunks, c);
  }

  datatype PushResult = Accepted | QueueClosed | QueueFull
  datatype PopResult = Popped(chunk: Chunk) | Empty | Discarded

  /** The fields behind the queue's lock. */
  class WriterQueue {
    var chunks: seq<Chunk>
    var queued: nat
    var closed: bool

    ghost function Model(): Queue
      reads this
    {
      Queue(chunks, queued, closed)
    }

    constructor ()
      ensures Model() == Queue([], 0, false)
    {
      chunks, queued, closed := [], 0, false;
    }

    /** The sender's lock region, up to waiting: closed is tested before room. */
    method TryPush(c: Chunk) returns (r: PushResult)
      requires QueueOk(Model())
      modifies this
      ensures QueueOk(Model())
      ensures r == if old(closed) then QueueClosed else if Fits(old(Model()), c) then Accepted else QueueFull
      ensures Model() == if r == Accepted then PushNext(old(Model()), c) else old(Model())
    {
      if closed {
        return QueueClosed;
      }
      if queued + |c| > WRITER_QUEUE_BYTES {
        return QueueFull;
      }
      QueueStaysOk(Model(), c);
      queued := queued + |c|;
      chunks := chunks + [c];
      r := Accepted;
    }

    /** The writer's lock region, up to waiting. */
    method TryPop() returns (r: PopResult)
      requires QueueOk(Model())
      modifies this
      ensures QueueOk(Model())
      ensures r == if old(closed) then Discarded else if old(chunks) == [] then Empty else Popped(old(chunks)[0])
      ensures Model() == match r
                         case Discarded => DiscardNext(old(Model()))
                         case Empty => old(Model())
                         case Popped(c) => Queue(old(chunks)[1..], old(queued) - |c|, old(closed))
    {
      if closed {
        chunks := [];
        queued := 0;
        return Discarded;
      }
      if chunks == [] {
        return Empty;
      }
      var c := chunks[0];
      chunks := chunks[1..];
      queued := queued - |c|;
      r := Popped(c);
    }

    method Close()
      modifies this
      ensures Model() == old(Model()).(closed := true)
    {
      closed := true;
    }
  }

  /** `data.chunks(WRITER_CHUNK)`. */
  function ChunksOf(data: seq<byte>): (chunks: seq<Chunk>)
    ensures Flatten(chunks) == data
  {
    if data == [] then []
    else if |data| <= WRITER_CHUNK then
      assert Flatten([data]) == data;
      [data]
    else
      assert data == data[..WRITER_CHUNK] + data[WRITER_CHUNK..];
      var rest := ChunksOf(data[WRITER_CHUNK..]);
      assert ([data[..WRITER_CHUNK]] + rest)[1..] == rest;
      [data[..WRITER_CHUNK]] + rest
  }

  /** Every chunk but the last is 65536 bytes long, and the last one has between 1 and 65536. */
  lemma {:induction false} ChunksAreFull(data: seq<byte>)
    ensures data == [] <==> ChunksOf(data) == []
    ensures forall i :: 0 <= i < |ChunksOf(data)| - 1 ==> |ChunksOf(data)[i]| == 65536
    ensures forall i :: 0 <= i < |ChunksOf(data)| ==> 1 <= |ChunksOf(data)[i]| <= 65536
  {
    if |data| > WRITER_CHUNK {
      ChunksAreFull(data[WRITER_CHUNK..]);
    }
  }

  datatype WriteCall = Wrote(n: nat) | Interrupted | HardError

  /** What the first `n` write calls have accepted. */
  function WroteTotal(results: seq<WriteCall>, n: nat): nat
    requires n <= |results|
  {
    if n == 0 then 0
    else WroteTotal(results, n - 1) + match results[n - 1] case Wrote(k) => k case _ => 0
  }

  /** The short-write loop, for the results the write calls give (a call accepts at most what it is
  given). What has been written is what the calls accepted: the whole chunk, unless one fails for
  good or the results given here run out. The rest of the results are left for later chunks. */
  method WriteChunk(chunk: Chunk, results: seq<WriteCall>) returns (written: nat, failed: bool, used: nat)
    ensures used <= |results| && written == Min(WroteTotal(results, used), |chunk|)
    ensures failed <==> used > 0 && results[used - 1] == HardError
    ensures forall i :: 0 <= i < used - 1 ==> results[i] != HardError
    ensures used > 0 ==> WroteTotal(results, used - 1) < |chunk|
    ensures !failed ==> written == |chunk| || used == |results|
  {
    written, failed, used := 0, false, 0;
    while written < |chunk| && used < |results|
      invariant used <= |results| && !failed
      invariant written == Min(WroteTotal(results, used), |chunk|)
      invariant used > 0 ==> WroteTotal(results, used - 1) < |chunk|
      invariant forall i :: 0 <= i < used ==> results[i] != HardError
    {
      match results[used] {
        case Wrote(n) => written := Min(written + n, |chunk|);
        case Interrupted =>
        case HardError => failed := true;
      }
      used := used + 1;
      if failed {
        break;
      }
    }
  }
}
