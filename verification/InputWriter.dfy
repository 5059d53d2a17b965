/** Senders and the writer thread together (agentd/src/pty.rs): every interleaving of their steps, and what
each of them keeps. One condition variable serves both. Each lock region, notification and write call is
a step, and waiters are woken in the order in which they began to wait. What follows for whole runs is in
`SendOutcomes`. */
module InputWriter {
  import opened Bytes
  import opened InputQueue

  type CallId = nat

  /** One call of `send`. `Pushed` is between releasing the lock and notifying. */
  datatype CallPhase = Ready | Parked | Pushed | Returned | Failed

  datatype Call = Call(data: seq<byte>, chunks: seq<Chunk>, pushed: nat, phase: CallPhase)

  datatype WriterPhase = Running | Sleeping | Writing(chunk: Chunk, off: nat) | Exited

  datatype Waiter = TheWriter | Sender(call: CallId)

  /** A chunk that the writer has taken out, and how much of it has been written. */
  datatype Taken = Taken(chunk: Chunk, written: nat, failed: bool)

  /** `accepted`, `taken`, `discarded` and `output` record what has happened; the program does not keep
  them. `closing` is set while the queue is closed and the closing thread has not yet notified. */
  datatype State = State(
    queue: Queue, closing: bool, waiters: seq<Waiter>, writer: WriterPhase, calls: map<CallId, Call>,
    accepted: seq<(CallId, Chunk)>, taken: seq<Taken>, discarded: seq<Chunk>, output: seq<byte>)

  const INITIAL := State(Queue([], 0, false), false, [], Running, map[], [], [], [], [])

  datatype Step =
    | Begin(call: CallId, data: seq<byte>)
    | Lock(call: CallId, late: bool)
    | Notify(call: CallId)
    | TimeOut(call: CallId)
    | WriterLock
    | Write(n: nat)
    | WriteFails
    | SetClosed
    | NotifyClosed

  predicate Enabled(s: State, step: Step) {
    match step
    case Begin(c, _) => c !in s.calls
    case Lock(c, _) => c in s.calls && s.calls[c].phase == Ready && s.calls[c].pushed < |s.calls[c].chunks|
    case Notify(c) => c in s.calls && s.calls[c].phase == Pushed
    case TimeOut(c) => c in s.calls && s.calls[c].phase == Parked
    case WriterLock => s.writer == Running && (s.queue.chunks != [] ==> s.queue.queued >= |s.queue.chunks[0]|)
    case Write(n) => s.writer.Writing? && n <= |s.writer.chunk| - s.writer.off && s.taken != []
    case WriteFails => s.writer.Writing? && s.taken != []
    case SetClosed => !s.queue.closed
    case NotifyClosed => s.closing
  }

  function Woken(c: Call): Call {
    if c.phase == Parked then c.(phase := Ready) else c
  }

  function WakeAll(s: State): State {
    s.(waiters := [],
       writer := if s.writer == Sleeping then Running else s.writer,
       calls := map c <- s.calls :: Woken(s.calls[c]))
  }

  /** The one that has waited longest. */
  function WakeOne(s: State): State {
    if s.waiters == [] then s
    else
      match s.waiters[0]
      case TheWriter => s.(waiters := s.waiters[1..], writer := if s.writer == Sleeping then Running else s.writer)
      case Sender(c) =>
        s.(waiters := s.waiters[1..],
           calls := if c in s.calls then s.calls[c := Woken(s.calls[c])] else s.calls)
  }

  function Remove(ws: seq<Waiter>, w: Waiter): seq<Waiter> {
    if ws == [] then [] else if ws[0] == w then ws[1..] else [ws[0]] + Remove(ws[1..], w)
  }

  function LockNext(s: State, c: CallId, late: bool): State
    requires Enabled(s, Lock(c, late))
  {
    var call := s.calls[c];
    var chunk := call.chunks[call.pushed];
    if s.queue.closed then s.(calls := s.calls[c := call.(phase := Failed)])
    else if Fits(s.queue, chunk) then
      s.(queue := PushNext(s.queue, chunk),
         calls := s.calls[c := call.(pushed := call.pushed + 1, phase := Pushed)],
         accepted := s.accepted + [(c, chunk)])
    else if late then s.(calls := s.calls[c := call.(phase := Failed)])
    else s.(calls := s.calls[c := call.(phase := Parked)], waiters := s.waiters + [Sender(c)])
  }

  function AfterNotify(c: Call): Call {
    c.(phase := if c.pushed < |c.chunks| then Ready else Returned)
  }

  function WriterLockNext(s: State): State
    requires Enabled(s, WriterLock)
  {
    if s.queue.closed then
      WakeAll(s.(queue := DiscardNext(s.queue), discarded := s.queue.chunks, writer := Exited))
    else if s.queue.chunks == [] then s.(writer := Sleeping, waiters := s.waiters + [TheWriter])
    else
      var chunk := s.queue.chunks[0];
      WakeAll(s.(queue := PopNext(s.queue), writer := Writing(chunk, 0), taken := s.taken + [Taken(chunk, 0, false)]))
  }

  function Next(s: State, step: Step): State
    requires Enabled(s, step)
  {
    match step
    case Begin(c, data) =>
      s.(calls := s.calls[c := Call(data, ChunksOf(data), 0, if data == [] then Returned else Ready)])
    case Lock(c, late) => LockNext(s, c, late)
    case Notify(c) => WakeOne(s.(calls := s.calls[c := AfterNotify(s.calls[c])]))
    case TimeOut(c) =>
      s.(calls := s.calls[c := s.calls[c].(phase := Ready)], waiters := Remove(s.waiters, Sender(c)))
    case WriterLock => WriterLockNext(s)
    case Write(n) =>
      var w := s.writer;
      var t := s.taken[|s.taken| - 1];
      s.(writer := if w.off + n == |w.chunk| then Running else Writing(w.chunk, w.off + n),
         taken := s.taken[..|s.taken| - 1] + [t.(written := t.written + n)],
         output := s.output + w.chunk[w.off..w.off + n])
    case WriteFails =>
      var t := s.taken[|s.taken| - 1];
      s.(writer := Running, taken := s.taken[..|s.taken| - 1] + [t.(failed := true)])
    case SetClosed => s.(queue := s.queue.(closed := true), closing := true)
    case NotifyClosed => WakeAll(s.(closing := false))
  }

  predicate IsRun(s: State, steps: seq<Step>)
    decreases |steps|
  {
    steps != [] ==> Enabled(s, steps[0]) && IsRun(Next(s, steps[0]), steps[1..])
  }

  function Final(s: State, steps: seq<Step>): State
    requires IsRun(s, steps)
    decreases |steps|
  {
    if steps == [] then s else Final(Next(s, steps[0]), steps[1..])
  }

  // ---------------------------------------------------------------------------------------
  // Waiting
  // ---------------------------------------------------------------------------------------

  /** The chunk that a parked sender waits with does not fit. */
  predicate LacksRoom(q: Queue, c: Call) {
    c.pushed < |c.chunks| && !Fits(q, c.chunks[c.pushed])
  }

  predicate SomePushed(s: State) {
    exists c <- s.calls :: s.calls[c].phase == Pushed
  }

  predicate Distinct(ws: seq<Waiter>) {
    ws != [] ==> ws[0] !in ws[1..] && Distinct(ws[1..])
  }

  lemma {:induction false} DistinctSnoc(ws: seq<Waiter>, w: Waiter)
    requires Distinct(ws) && w !in ws
    ensures Distinct(ws + [w])
  {
    if ws == [] {
      assert ws + [w] == [w] && [w][1..] == [];
    } else {
      assert (ws + [w])[1..] == ws[1..] + [w];
      DistinctSnoc(ws[1..], w);
    }
  }

  ghost predicate WaitersOk(s: State) {
    && Distinct(s.waiters)
    && (s.writer == Sleeping <==> TheWriter in s.waiters)
    && (forall c: CallId :: Sender(c) in s.waiters <==> c in s.calls && s.calls[c].phase == Parked)
  }

  /** Nobody sleeps without a reason: a parked sender lacks room; the sleeping writer is the first to be
  woken, and if there is something for it to do, a notification is still to come. */
  predicate SleepOk(s: State) {
    && (forall c <- s.calls :: s.calls[c].phase == Parked ==> LacksRoom(s.queue, s.calls[c]))
    && (s.writer == Sleeping ==> s.waiters != [] && s.waiters[0] == TheWriter)
    && (s.writer == Sleeping && s.queue.chunks != [] ==> SomePushed(s))
    && (s.writer == Sleeping && s.queue.closed ==> s.closing)
  }

  lemma {:induction false} RemoveMembers(ws: seq<Waiter>, w: Waiter)
    requires Distinct(ws)
    ensures forall x :: x in Remove(ws, w) <==> x in ws && x != w
    ensures Distinct(Remove(ws, w))
  {
    if ws != [] {
      assert ws == [ws[0]] + ws[1..];
      RemoveMembers(ws[1..], w);
    }
  }

  ghost predicate WaitsOk(s: State) {
    WaitersOk(s) && SleepOk(s)
  }

  /** Whoever has pushed and not yet notified still has to. */
  lemma PushedStays(s: State, t: State, c: CallId)
    requires c in s.calls && s.calls[c].phase != Pushed
    requires forall d <- s.calls :: d != c ==> d in t.calls && t.calls[d] == s.calls[d]
    ensures SomePushed(s) ==> SomePushed(t)
  {
    if SomePushed(s) {
      var d :| d in s.calls && s.calls[d].phase == Pushed;
      assert t.calls[d].phase == Pushed;
    }
  }

  lemma LockKeepsWaiters(s: State, c: CallId, late: bool)
    requires Enabled(s, Lock(c, late)) && WaitersOk(s)
    ensures WaitersOk(LockNext(s, c, late))
  {
    var t := LockNext(s, c, late);
    assert Sender(c) !in s.waiters;
    if t.waiters != s.waiters {
      DistinctSnoc(s.waiters, Sender(c));
    }
  }

  lemma LockWaits(s: State, c: CallId, late: bool)
    requires Enabled(s, Lock(c, late)) && WaitsOk(s)
    ensures WaitsOk(LockNext(s, c, late))
  {
    var t := LockNext(s, c, late);
    LockKeepsWaiters(s, c, late);
    PushedStays(s, t, c);
    if t.calls[c].phase == Pushed {
      assert SomePushed(t);
    }
  }

  lemma WakeOneWaits(s: State)
    requires WaitersOk(s)
    requires forall c <- s.calls :: s.calls[c].phase == Parked ==> LacksRoom(s.queue, s.calls[c])
    requires s.writer == Sleeping ==> s.waiters != [] && s.waiters[0] == TheWriter
    ensures WaitsOk(WakeOne(s)) && WakeOne(s).writer != Sleeping
  {
    if s.waiters != [] {
      var rest := s.waiters[1..];
      assert s.waiters == [s.waiters[0]] + rest;
      assert forall w :: w in rest <==> w in s.waiters && w != s.waiters[0];
    }
  }

  lemma {:induction false} NotifyWaits(s: State, c: CallId)
    requires Enabled(s, Notify(c)) && WaitsOk(s)
    ensures WaitsOk(Next(s, Notify(c)))
  {
    assert Sender(c) !in s.waiters;
    WakeOneWaits(s.(calls := s.calls[c := AfterNotify(s.calls[c])]));
  }

  lemma {:induction false} RemoveKeepsHead(ws: seq<Waiter>, w: Waiter)
    requires ws != [] && ws[0] != w
    ensures Remove(ws, w) != [] && Remove(ws, w)[0] == ws[0]
  {
  }

  lemma TimeOutWaits(s: State, c: CallId)
    requires Enabled(s, TimeOut(c)) && WaitsOk(s)
    ensures WaitsOk(Next(s, TimeOut(c)))
  {
    var t := Next(s, TimeOut(c));
    RemoveMembers(s.waiters, Sender(c));
    if s.writer == Sleeping {
      RemoveKeepsHead(s.waiters, Sender(c));
    }
    if SomePushed(s) {
      var d :| d in s.calls && s.calls[d].phase == Pushed;
      assert t.calls[d].phase == Pushed;
    }
  }

  lemma EmptyQueueHasNoWaiters(s: State)
    requires WaitsOk(s) && QueueOk(s.queue) && s.queue.chunks == [] && s.writer != Sleeping
    ensures s.waiters == []
  {
    if s.waiters != [] {
      match s.waiters[0] {
        case TheWriter => assert false;
        case Sender(c) => assert false;
      }
    }
  }

  /** The writer goes to sleep on an empty queue only, and then no sender can be parked. */
  lemma WriterLockWaits(s: State)
    requires Enabled(s, WriterLock) && WaitsOk(s) && QueueOk(s.queue)
    ensures WaitsOk(WriterLockNext(s))
  {
    if !s.queue.closed && s.queue.chunks == [] {
      EmptyQueueHasNoWaiters(s);
      assert WriterLockNext(s).waiters == [TheWriter] && [TheWriter][1..] == [];
    }
  }

  lemma StepKeepsWaits(s: State, step: Step)
    requires Enabled(s, step) && WaitsOk(s) && QueueOk(s.queue)
    ensures WaitsOk(Next(s, step))
  {
    match step {
      case Lock(c, late) => LockWaits(s, c, late);
      case Notify(c) => NotifyWaits(s, c);
      case TimeOut(c) => TimeOutWaits(s, c);
      case WriterLock => WriterLockWaits(s);
      case Begin(c, data) =>
        var t := Next(s, step);
        if SomePushed(s) {
          var d :| d in s.calls && s.calls[d].phase == Pushed;
          assert t.calls[d].phase == Pushed;
        }
      case SetClosed =>
        var t := Next(s, step);
        assert t.calls == s.calls;
        assert SomePushed(s) ==> SomePushed(t);
      case NotifyClosed =>
      case Write(n) => assert WriterElsewhere(s, Next(s, step));
      case WriteFails => assert WriterElsewhere(s, Next(s, step));
    }
  }

  predicate WriterElsewhere(s: State, t: State) {
    && s.writer != Sleeping && t.writer != Sleeping
    && t.waiters == s.waiters && t.calls == s.calls && t.queue == s.queue
  }

  // ---------------------------------------------------------------------------------------
  // The queue's account, and where every accepted chunk is
  // ---------------------------------------------------------------------------------------

  lemma StepKeepsQueue(s: State, step: Step)
    requires Enabled(s, step) && QueueOk(s.queue)
    ensures QueueOk(Next(s, step).queue)
  {
    match step {
      case Lock(c, _) => QueueStaysOk(s.queue, s.calls[c].chunks[s.calls[c].pushed]);
      case WriterLock => QueueStaysOk(s.queue, [0]);
      case _ =>
    }
  }

  function ChunksIn(accepted: seq<(CallId, Chunk)>): seq<Chunk> {
    if accepted == [] then [] else ChunksIn(accepted[..|accepted| - 1]) + [accepted[|accepted| - 1].1]
  }

  function ChunksTaken(taken: seq<Taken>): seq<Chunk> {
    if taken == [] then [] else ChunksTaken(taken[..|taken| - 1]) + [taken[|taken| - 1].chunk]
  }

  function WrittenPart(t: Taken): seq<byte> {
    t.chunk[..Min(t.written, |t.chunk|)]
  }

  /** What has been written of the chunks taken out, in order. */
  function WrittenOf(taken: seq<Taken>): seq<byte> {
    if taken == [] then [] else WrittenOf(taken[..|taken| - 1]) + WrittenPart(taken[|taken| - 1])
  }

  /** Done with: written to its end, or as far as a failing write let it. */
  predicate IsDone(t: Taken) {
    t.written <= |t.chunk| && (t.failed || t.written == |t.chunk|)
  }

  predicate AllDone(taken: seq<Taken>) {
    forall i :: 0 <= i < |taken| ==> IsDone(taken[i])
  }

  /** All chunks taken out are done with, but for the one that is being written. */
  predicate TakenAre(taken: seq<Taken>, writer: WriterPhase, output: seq<byte>) {
    && output == WrittenOf(taken)
    && (if writer.Writing? then
          && taken != []
          && AllDone(taken[..|taken| - 1])
          && taken[|taken| - 1] == Taken(writer.chunk, writer.off, false)
          && writer.off < |writer.chunk|
        else AllDone(taken))
  }

  predicate TakenOk(s: State) {
    TakenAre(s.taken, s.writer, s.output)
  }

  /** Accepted chunks are, in order, those taken out and those still queued; only the closed queue's
  writer discards any. */
  predicate ChunksAccounted(s: State) {
    && ChunksIn(s.accepted) == ChunksTaken(s.taken) + s.discarded + s.queue.chunks
    && (s.discarded != [] ==> s.writer == Exited)
    && (s.writer == Exited ==> s.queue.closed && s.queue.chunks == [])
  }

  lemma WrittenOfSnoc(taken: seq<Taken>, t: Taken)
    ensures WrittenOf(taken + [t]) == WrittenOf(taken) + WrittenPart(t)
    ensures AllDone(taken + [t]) <==> AllDone(taken) && IsDone(t)
  {
    assert (taken + [t])[..|taken|] == taken;
    assert (taken + [t])[|taken|] == t;
    assert forall i :: 0 <= i < |taken| ==> (taken + [t])[i] == taken[i];
  }

  /** The last chunk is written a piece further. */
  lemma WrittenFurther(before: seq<Taken>, t: Taken, u: Taken, piece: seq<byte>)
    requires WrittenPart(u) == WrittenPart(t) + piece
    ensures WrittenOf(before + [u]) == WrittenOf(before + [t]) + piece
    ensures AllDone(before + [u]) <==> AllDone(before) && IsDone(u)
  {
    WrittenOfSnoc(before, t);
    WrittenOfSnoc(before, u);
  }

  lemma LastOne(taken: seq<Taken>)
    requires taken != []
    ensures taken == taken[..|taken| - 1] + [taken[|taken| - 1]]
  {
  }

  lemma PieceWritten(before: seq<Taken>, chunk: Chunk, off: nat, n: nat, output: seq<byte>)
    requires off + n <= |chunk| && AllDone(before) && output == WrittenOf(before + [Taken(chunk, off, false)])
    ensures TakenAre(
              before + [Taken(chunk, off + n, false)],
              if off + n == |chunk| then Running else Writing(chunk, off + n),
              output + chunk[off..off + n])
  {
    var t, u := Taken(chunk, off, false), Taken(chunk, off + n, false);
    assert chunk[..off + n] == chunk[..off] + chunk[off..off + n];
    WrittenFurther(before, t, u, chunk[off..off + n]);
    assert (before + [u])[..|before|] == before;
  }

  lemma WriteKeepsTaken(s: State, n: nat)
    requires Enabled(s, Write(n)) && TakenOk(s)
    ensures TakenOk(Next(s, Write(n)))
  {
    LastOne(s.taken);
    PieceWritten(s.taken[..|s.taken| - 1], s.writer.chunk, s.writer.off, n, s.output);
  }

  lemma FailKeepsTaken(s: State)
    requires Enabled(s, WriteFails) && TakenOk(s)
    ensures TakenOk(Next(s, WriteFails))
  {
    var before, t := s.taken[..|s.taken| - 1], s.taken[|s.taken| - 1];
    LastOne(s.taken);
    WrittenFurther(before, t, t.(failed := true), []);
  }

  lemma PopKeepsTaken(s: State)
    requires Enabled(s, WriterLock) && TakenOk(s)
    ensures TakenOk(Next(s, WriterLock))
  {
    if !s.queue.closed && s.queue.chunks != [] {
      var t := Taken(s.queue.chunks[0], 0, false);
      WrittenOfSnoc(s.taken, t);
      assert WrittenPart(t) == [];
      assert (s.taken + [t])[..|s.taken|] == s.taken;
    }
  }

  lemma OtherStepsTakeNothing(s: State, step: Step)
    requires Enabled(s, step) && !step.Write? && !step.WriteFails? && !step.WriterLock?
    ensures var t := Next(s, step);
            && t.taken == s.taken && t.output == s.output
            && (t.writer == s.writer || (s.writer == Sleeping && t.writer == Running))
  {
  }

  lemma {:induction false} StepKeepsTaken(s: State, step: Step)
    requires Enabled(s, step) && TakenOk(s)
    ensures TakenOk(Next(s, step))
  {
    match step {
      case Write(n) => WriteKeepsTaken(s, n);
      case WriteFails => FailKeepsTaken(s);
      case WriterLock => PopKeepsTaken(s);
      case _ => OtherStepsTakeNothing(s, step);
    }
  }

  lemma LastTakenReplaced(taken: seq<Taken>, t: Taken)
    requires taken != [] && t.chunk == taken[|taken| - 1].chunk
    ensures ChunksTaken(taken[..|taken| - 1] + [t]) == ChunksTaken(taken)
  {
    assert (taken[..|taken| - 1] + [t])[..|taken| - 1] == taken[..|taken| - 1];
  }

  lemma Reassociate<T>(a: seq<T>, b: seq<T>, c: seq<T>, x: T)
    ensures (a + b + c) + [x] == a + b + (c + [x])
  {
  }

  lemma LockKeepsChunks(s: State, c: CallId, late: bool)
    requires Enabled(s, Lock(c, late)) && ChunksAccounted(s)
    ensures ChunksAccounted(LockNext(s, c, late))
  {
    var chunk := s.calls[c].chunks[s.calls[c].pushed];
    if !s.queue.closed && Fits(s.queue, chunk) {
      assert (s.accepted + [(c, chunk)])[..|s.accepted|] == s.accepted;
      assert ChunksIn(s.accepted + [(c, chunk)]) == ChunksIn(s.accepted) + [chunk];
      Reassociate(ChunksTaken(s.taken), s.discarded, s.queue.chunks, chunk);
    }
  }

  lemma FirstMoves<T>(a: seq<T>, d: seq<T>, q: seq<T>)
    requires d == []
    ensures a + d + q == a + q + []
    ensures q != [] ==> a + d + q == (a + [q[0]]) + d + q[1..]
  {
  }

  lemma ChunksTakenSnoc(taken: seq<Taken>, t: Taken)
    ensures ChunksTaken(taken + [t]) == ChunksTaken(taken) + [t.chunk]
  {
    assert (taken + [t])[..|taken|] == taken;
  }

  lemma PopKeepsChunks(s: State)
    requires Enabled(s, WriterLock) && ChunksAccounted(s)
    ensures ChunksAccounted(WriterLockNext(s))
  {
    FirstMoves(ChunksTaken(s.taken), s.discarded, s.queue.chunks);
    if !s.queue.closed && s.queue.chunks != [] {
      ChunksTakenSnoc(s.taken, Taken(s.queue.chunks[0], 0, false));
    }
  }

  lemma {:induction false} StepKeepsChunks(s: State, step: Step)
    requires Enabled(s, step) && ChunksAccounted(s) && TakenOk(s)
    ensures ChunksAccounted(Next(s, step))
  {
    match step {
      case Lock(c, late) => LockKeepsChunks(s, c, late);
      case WriterLock => PopKeepsChunks(s);
      case Write(n) => LastTakenReplaced(s.taken, Next(s, step).taken[|s.taken| - 1]);
      case WriteFails => LastTakenReplaced(s.taken, Next(s, step).taken[|s.taken| - 1]);
      case _ =>
    }
  }

  // ---------------------------------------------------------------------------------------
  // Each call
  // ---------------------------------------------------------------------------------------

  /** The accepted chunks of one call, in order. */
  function AcceptedOf(accepted: seq<(CallId, Chunk)>, c: CallId): seq<Chunk> {
    if accepted == [] then []
    else
      var last := accepted[|accepted| - 1];
      AcceptedOf(accepted[..|accepted| - 1], c) + if last.0 == c then [last.1] else []
  }

  predicate CallOk(s: State, c: CallId)
    requires c in s.calls
  {
    var call := s.calls[c];
    && call.pushed <= |call.chunks|
    && AcceptedOf(s.accepted, c) == call.chunks[..call.pushed]
    && (call.phase == Returned ==> call.pushed == |call.chunks|)
    && (call.phase == Failed || call.phase == Ready || call.phase == Parked ==> call.pushed < |call.chunks|)
  }

  ghost predicate CallsOk(s: State) {
    && (forall c <- s.calls :: CallOk(s, c))
    && (forall i :: 0 <= i < |s.accepted| ==> s.accepted[i].0 in s.calls)
  }

  lemma {:induction false} AcceptedOfStranger(accepted: seq<(CallId, Chunk)>, c: CallId)
    requires forall i :: 0 <= i < |accepted| ==> accepted[i].0 != c
    ensures AcceptedOf(accepted, c) == []
  {
    if accepted != [] {
      AcceptedOfStranger(accepted[..|accepted| - 1], c);
    }
  }

  lemma AcceptedOfSnoc(accepted: seq<(CallId, Chunk)>, c: CallId, chunk: Chunk, d: CallId)
    ensures AcceptedOf(accepted + [(c, chunk)], d) == AcceptedOf(accepted, d) + if c == d then [chunk] else []
  {
    assert (accepted + [(c, chunk)])[..|accepted|] == accepted;
  }

  lemma LockKeepsOwnCall(s: State, c: CallId, late: bool)
    requires Enabled(s, Lock(c, late)) && CallOk(s, c)
    ensures CallOk(LockNext(s, c, late), c)
  {
    var call := s.calls[c];
    var chunk := call.chunks[call.pushed];
    AcceptedOfSnoc(s.accepted, c, chunk, c);
    assert call.chunks[..call.pushed + 1] == call.chunks[..call.pushed] + [chunk];
  }

  lemma LockKeepsOtherCall(s: State, c: CallId, late: bool, d: CallId)
    requires Enabled(s, Lock(c, late)) && d in s.calls && c != d && CallOk(s, d)
    ensures CallOk(LockNext(s, c, late), d)
  {
    var chunk := s.calls[c].chunks[s.calls[c].pushed];
    AcceptedOfSnoc(s.accepted, c, chunk, d);
    assert AcceptedOf(s.accepted, d) + [] == AcceptedOf(s.accepted, d);
  }

  lemma LockKeepsCalls(s: State, c: CallId, late: bool, d: CallId)
    requires Enabled(s, Lock(c, late)) && CallsOk(s) && d in s.calls
    ensures CallOk(LockNext(s, c, late), d)
  {
    assert CallOk(s, d);
    if c == d {
      LockKeepsOwnCall(s, c, late);
    } else {
      LockKeepsOtherCall(s, c, late, d);
    }
  }

  lemma CallOkMoves(s: State, t: State, c: CallId)
    requires c in s.calls && c in t.calls && CallOk(s, c) && t.accepted == s.accepted
    requires t.calls[c].chunks == s.calls[c].chunks && t.calls[c].pushed == s.calls[c].pushed
    requires
      || t.calls[c].phase == s.calls[c].phase
      || (s.calls[c].phase == Parked && t.calls[c].phase == Ready)
      || t.calls[c] == AfterNotify(s.calls[c])
    ensures CallOk(t, c)
  {
  }

  lemma QuietStepMoves(s: State, step: Step, c: CallId)
    requires Enabled(s, step) && !step.Lock? && c in s.calls
    ensures var t := Next(s, step);
            && t.accepted == s.accepted
            && c in t.calls
            && t.calls[c].chunks == s.calls[c].chunks && t.calls[c].pushed == s.calls[c].pushed
            && (|| t.calls[c].phase == s.calls[c].phase
                || (s.calls[c].phase == Parked && t.calls[c].phase == Ready)
                || t.calls[c] == AfterNotify(s.calls[c]))
  {
  }

  /** The steps that push nothing. */
  lemma {:induction false} QuietStepKeepsCalls(s: State, step: Step, c: CallId)
    requires Enabled(s, step) && CallsOk(s) && !step.Lock? && c in Next(s, step).calls
    ensures CallOk(Next(s, step), c)
  {
    if c !in s.calls {
      AcceptedOfStranger(s.accepted, c);
    } else {
      QuietStepMoves(s, step, c);
      CallOkMoves(s, Next(s, step), c);
    }
  }

  lemma {:induction false} StepKeepsCall(s: State, step: Step, c: CallId)
    requires Enabled(s, step) && CallsOk(s) && c in Next(s, step).calls
    ensures CallOk(Next(s, step), c)
  {
    if step.Lock? {
      LockKeepsCalls(s, step.call, step.late, c);
    } else {
      QuietStepKeepsCalls(s, step, c);
    }
  }

  lemma AcceptedStayKnown(s: State, step: Step)
    requires Enabled(s, step) && forall i :: 0 <= i < |s.accepted| ==> s.accepted[i].0 in s.calls
    ensures var t := Next(s, step);
            forall i :: 0 <= i < |t.accepted| ==> t.accepted[i].0 in t.calls
  {
  }

  lemma {:induction false} StepKeepsCalls(s: State, step: Step)
    requires Enabled(s, step) && CallsOk(s)
    ensures CallsOk(Next(s, step))
  {
    var t := Next(s, step);
    AcceptedStayKnown(s, step);
    forall c | c in t.calls
      ensures CallOk(t, c)
    {
      StepKeepsCall(s, step, c);
    }
  }

  // ---------------------------------------------------------------------------------------
  // All of it
  // ---------------------------------------------------------------------------------------

  predicate ChunksCut(s: State) {
    forall c <- s.calls :: IsCut(s.calls[c])
  }

  predicate IsCut(call: Call) {
    call.chunks == ChunksOf(call.data)
  }

  lemma StepKeepsData(s: State, step: Step, c: CallId)
    requires Enabled(s, step) && c in s.calls
    ensures var t := Next(s, step);
            c in t.calls && t.calls[c].data == s.calls[c].data && t.calls[c].chunks == s.calls[c].chunks
  {
  }

  lemma {:induction false} StepKeepsCut(s: State, step: Step)
    requires Enabled(s, step) && ChunksCut(s)
    ensures ChunksCut(Next(s, step))
  {
    var t := Next(s, step);
    forall c | c in t.calls
      ensures IsCut(t.calls[c])
    {
      if c in s.calls {
        StepKeepsData(s, step, c);
        assert IsCut(s.calls[c]);
      }
    }
  }

  ghost predicate WriterOk(s: State) {
    WaitsOk(s) && QueueOk(s.queue) && TakenOk(s) && ChunksAccounted(s) && CallsOk(s) && ChunksCut(s)
  }

  lemma {:induction false} WriterStaysOk(s: State, steps: seq<Step>)
    requires IsRun(s, steps) && WriterOk(s)
    ensures WriterOk(Final(s, steps))
    decreases |steps|
  {
    if steps != [] {
      StepKeepsWaits(s, steps[0]);
      StepKeepsQueue(s, steps[0]);
      StepKeepsTaken(s, steps[0]);
      StepKeepsChunks(s, steps[0]);
      StepKeepsCalls(s, steps[0]);
      StepKeepsCut(s, steps[0]);
      WriterStaysOk(Next(s, steps[0]), steps[1..]);
    }
  }
}
