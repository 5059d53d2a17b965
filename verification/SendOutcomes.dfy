/** How calls of `send` end, and what the writer gets done (agentd/src/pty.rs). */
module SendOutcomes {
  import opened Bytes
  import opened InputQueue
  import opened InputWriter

  // ---------------------------------------------------------------------------------------
  // Nothing is lost
  // ---------------------------------------------------------------------------------------

  /** No wake-up is lost, in any run: if the writer sleeps while there is input (or the queue is closed),
  then someone has still to notify; and a sender sleeps only while its chunk does not fit. */
  lemma NoLostWakeUp(steps: seq<Step>)
    requires IsRun(INITIAL, steps)
    ensures var s := Final(INITIAL, steps);
            && (s.writer == Sleeping && s.queue.chunks != [] ==>
                  exists c <- s.calls :: s.calls[c].phase == Pushed)
            && (s.writer == Sleeping && s.queue.closed ==> s.closing)
            && (forall c <- s.calls :: s.calls[c].phase == Parked ==>
                  && s.calls[c].pushed < |s.calls[c].chunks|
                  && s.queue.queued + |s.calls[c].chunks[s.calls[c].pushed]| > 262144)
  {
    WriterStaysOk(INITIAL, steps);
  }

  lemma {:induction false} TakenInFull(taken: seq<Taken>)
    requires forall i :: 0 <= i < |taken| ==> taken[i].written == |taken[i].chunk|
    ensures WrittenOf(taken) == Flatten(ChunksTaken(taken))
  {
    if taken != [] {
      var before, last := taken[..|taken| - 1], taken[|taken| - 1];
      TakenInFull(before);
      FlattenSnoc(ChunksTaken(before), last.chunk);
      assert WrittenPart(last) == last.chunk;
    }
  }

  /** What the writer holds of the chunk it is writing. */
  function InHand(s: State): seq<byte> {
    if s.writer.Writing? && s.writer.off <= |s.writer.chunk| then s.writer.chunk[s.writer.off..] else []
  }

  lemma OutputAndHand(s: State)
    requires TakenOk(s) && forall i :: 0 <= i < |s.taken| ==> !s.taken[i].failed
    ensures s.output + InHand(s) == Flatten(ChunksTaken(s.taken))
  {
    if s.writer.Writing? {
      var before, t := s.taken[..|s.taken| - 1], s.taken[|s.taken| - 1];
      assert forall i :: 0 <= i < |before| ==> IsDone(before[i]) && before[i] == s.taken[i];
      TakenInFull(before);
      FlattenSnoc(ChunksTaken(before), s.writer.chunk);
      assert WrittenPart(t) + InHand(s) == s.writer.chunk;
    } else {
      assert forall i :: 0 <= i < |s.taken| ==> IsDone(s.taken[i]);
      TakenInFull(s.taken);
      assert s.output + [] == s.output;
    }
  }

  predicate NothingLost(s: State) {
    s.discarded == [] && forall i :: 0 <= i < |s.taken| ==> !s.taken[i].failed
  }

  lemma ConservedWithoutLoss(s: State)
    requires TakenOk(s) && ChunksAccounted(s) && NothingLost(s)
    ensures s.output + InHand(s) + Flatten(s.queue.chunks) == Flatten(ChunksIn(s.accepted))
  {
    OutputAndHand(s);
    assert ChunksTaken(s.taken) + s.discarded + s.queue.chunks == ChunksTaken(s.taken) + s.queue.chunks;
    FlattenAppend(ChunksTaken(s.taken), s.queue.chunks);
  }

  /** Of each chunk the writer took it has written a prefix: all of it, unless a write failed for good or
  it is the one in hand. */
  predicate WrittenInOrder(s: State) {
    && (forall i :: 0 <= i < |s.taken| ==>
          && s.taken[i].written <= |s.taken[i].chunk|
          && (s.taken[i].written == |s.taken[i].chunk| || s.taken[i].failed
              || (i == |s.taken| - 1 && s.writer.Writing?)))
    && s.output == WrittenOf(s.taken)
  }

  lemma DoneInOrder(s: State)
    requires TakenOk(s)
    ensures WrittenInOrder(s)
  {
    forall i | 0 <= i < |s.taken|
      ensures IsDone(s.taken[i]) || (i == |s.taken| - 1 && s.writer.Writing?)
    {
      if s.writer.Writing? && i < |s.taken| - 1 {
        assert IsDone(s.taken[..|s.taken| - 1][i]);
      }
    }
  }

  /** Input is conserved and bounded, in every run. The count is the length of the queue and never exceeds
  256 KiB. Accepted chunks are, in order, those the writer took, those it discarded after the close
  and those queued. With no failed write and no discard, the bytes written, the rest in hand and the
  queue are the accepted input. */
  lemma InputIsConserved(steps: seq<Step>)
    requires IsRun(INITIAL, steps)
    ensures var s := Final(INITIAL, steps);
            && s.queue.queued == TotalLength(s.queue.chunks) <= 262144
            && ChunksIn(s.accepted) == ChunksTaken(s.taken) + s.discarded + s.queue.chunks
            && (s.discarded != [] ==> s.queue.closed)
            && WrittenInOrder(s)
            && (NothingLost(s) ==>
                  s.output + InHand(s) + Flatten(s.queue.chunks) == Flatten(ChunksIn(s.accepted)))
  {
    WriterStaysOk(INITIAL, steps);
    var s := Final(INITIAL, steps);
    DoneInOrder(s);
    if NothingLost(s) {
      ConservedWithoutLoss(s);
    }
  }

  /** Each call's chunks are accepted in order: all of its data when it returns, a proper prefix of whole
  chunks when it fails. */
  lemma CallsKeepOrder(steps: seq<Step>, c: CallId)
    requires IsRun(INITIAL, steps) && c in Final(INITIAL, steps).calls
    ensures var s := Final(INITIAL, steps);
            var call := s.calls[c];
            && call.chunks == ChunksOf(call.data)
            && call.pushed <= |call.chunks|
            && AcceptedOf(s.accepted, c) == call.chunks[..call.pushed]
            && (call.phase == Returned ==> AcceptedOf(s.accepted, c) == call.chunks)
            && (call.phase == Failed ==> call.pushed < |call.chunks|)
  {
    WriterStaysOk(INITIAL, steps);
    var s := Final(INITIAL, steps);
    assert CallOk(s, c) && IsCut(s.calls[c]);
  }

  // ---------------------------------------------------------------------------------------
  // When a call fails
  // ---------------------------------------------------------------------------------------

  /** A call takes the lock and finds the queue closed, or finds, past its deadline, that its next chunk would
  bring the queue above 262144 bytes. */
  predicate FindsNoWay(s: State, step: Step, c: CallId) {
    && step.Lock? && step.call == c && c in s.calls && s.calls[c].pushed < |s.calls[c].chunks|
    && (s.queue.closed || (step.late && s.queue.queued + |s.calls[c].chunks[s.calls[c].pushed]| > 262144))
  }

  /** Some step of the run is such a one. */
  predicate FailsIn(s: State, steps: seq<Step>, c: CallId)
    requires IsRun(s, steps)
    decreases |steps|
  {
    steps != [] && (FindsNoWay(s, steps[0], c) || FailsIn(Next(s, steps[0]), steps[1..], c))
  }

  predicate HasFailed(s: State, c: CallId) {
    c in s.calls && s.calls[c].phase == Failed
  }

  lemma StepFails(s: State, step: Step, c: CallId)
    requires Enabled(s, step)
    ensures HasFailed(Next(s, step), c) <==> HasFailed(s, c) || FindsNoWay(s, step, c)
  {
  }

  lemma {:induction false} FailedFrom(s: State, steps: seq<Step>, c: CallId)
    requires IsRun(s, steps)
    ensures HasFailed(Final(s, steps), c) <==> HasFailed(s, c) || FailsIn(s, steps, c)
    decreases |steps|
  {
    if steps != [] {
      StepFails(s, steps[0], c);
      FailedFrom(Next(s, steps[0]), steps[1..], c);
    }
  }

  /** In every run a call has failed exactly when one of its lock steps found no way on. */
  lemma CallsFailExactly(steps: seq<Step>, c: CallId)
    requires IsRun(INITIAL, steps)
    ensures HasFailed(Final(INITIAL, steps), c) <==> FailsIn(INITIAL, steps, c)
  {
    FailedFrom(INITIAL, steps, c);
  }

  /** What a call does under the lock, in every reachable state: its chunk is accepted as the last one when the
  queue is open and has room, late or not; otherwise it keeps its accepted prefix, and waits if its
  deadline has not passed. */
  lemma LockDecides(s: State, c: CallId, late: bool)
    requires Enabled(s, Lock(c, late))
    ensures var t := Next(s, Lock(c, late));
            var x, y := s.calls[c], t.calls[c];
            var chunk := x.chunks[x.pushed];
            var room := s.queue.queued + |chunk| <= 262144;
            && y.data == x.data && y.chunks == x.chunks
            && (if !s.queue.closed && room then
                  && t.accepted == s.accepted + [(c, chunk)] && t.queue.chunks == s.queue.chunks + [chunk]
                  && y.pushed == x.pushed + 1 && y.phase == Pushed && t.waiters == s.waiters
                else
                  && t.accepted == s.accepted && t.queue == s.queue && y.pushed == x.pushed
                  && (!s.queue.closed && !late ==> y.phase == Parked && t.waiters == s.waiters + [Sender(c)])
                  && (s.queue.closed || late ==> y.phase == Failed && t.waiters == s.waiters))
  {
  }

  /** A call that waits is let go by its time-out, with its accepted prefix, and fails if there is still no room. */
  lemma WaitingEnds(s: State, c: CallId)
    requires Enabled(s, TimeOut(c)) && WaitsOk(s) && !s.queue.closed
    ensures var t := Next(s, TimeOut(c));
            && t.queue == s.queue && t.accepted == s.accepted && Sender(c) !in t.waiters
            && t.calls[c] == s.calls[c].(phase := Ready)
            && Enabled(t, Lock(c, true))
            && HasFailed(Next(t, Lock(c, true)), c)
            && Next(t, Lock(c, true)).calls[c].pushed == s.calls[c].pushed
  {
    RemoveMembers(s.waiters, Sender(c));
  }

  /** Closing lets everybody go who waits, and whoever comes to the lock afterwards fails. */
  lemma CloseLetsAllGo(s: State)
    requires Enabled(s, SetClosed)
    ensures var t := Next(s, SetClosed);
            && t.queue.closed && Enabled(t, NotifyClosed)
            && var u := Next(t, NotifyClosed);
            && u.waiters == [] && u.queue.closed && u.accepted == s.accepted
            && (forall c <- u.calls :: u.calls[c].phase != Parked)
            && forall c: CallId, late: bool :: Enabled(u, Lock(c, late)) ==> HasFailed(Next(u, Lock(c, late)), c)
  {
  }

  // ---------------------------------------------------------------------------------------
  // What gets done
  // ---------------------------------------------------------------------------------------

  /** These steps lead from one state to the other. */
  predicate Leads(s: State, steps: seq<Step>, t: State) {
    IsRun(s, steps) && Final(s, steps) == t
  }

  lemma First(s: State, step: Step, steps: seq<Step>, u: State)
    requires Enabled(s, step) && Leads(Next(s, step), steps, u)
    ensures Leads(s, [step] + steps, u)
  {
    assert ([step] + steps)[1..] == steps;
  }

  /** The chunks of a call that are still to be pushed. */
  function Rest(x: Call): seq<Chunk> {
    if x.pushed <= |x.chunks| then x.chunks[x.pushed..] else []
  }

  predicate CanPush(s: State, c: CallId) {
    && c in s.calls && s.calls[c].phase == Ready && Rest(s.calls[c]) != []
    && !s.queue.closed && s.queue.queued + TotalLength(Rest(s.calls[c])) <= 262144
  }

  /** One chunk pushed and notified. */
  lemma PushOne(s: State, c: CallId) returns (steps: seq<Step>, t: State)
    requires CanPush(s, c)
    ensures Leads(s, steps, t)
    ensures c in t.calls && t.queue.closed == s.queue.closed
    ensures var x := s.calls[c];
            && t.calls[c] == x.(pushed := x.pushed + 1, phase := if |Rest(x)| > 1 then Ready else Returned)
            && Rest(t.calls[c]) == Rest(x)[1..]
            && t.queue.chunks == s.queue.chunks + [Rest(x)[0]]
            && t.queue.queued == s.queue.queued + |Rest(x)[0]|
            && t.accepted == s.accepted + [(c, Rest(x)[0])]
  {
    var s1 := Next(s, Lock(c, false));
    t := Next(s1, Notify(c));
    assert Leads(t, [], t);
    First(s1, Notify(c), [], t);
    First(s, Lock(c, false), [Notify(c)] + [], t);
    steps := [Lock(c, false)] + ([Notify(c)] + []);
  }

  lemma {:induction false} LeadsOn(s: State, a: seq<Step>, t: State, b: seq<Step>, u: State)
    requires Leads(s, a, t) && Leads(t, b, u)
    ensures Leads(s, a + b, u)
    decreases |a|
  {
    if a == [] {
      assert a + b == b;
    } else {
      assert (a + b)[1..] == a[1..] + b;
      LeadsOn(Next(s, a[0]), a[1..], t, b, u);
    }
  }

  lemma RestOfSum(head: seq<byte>, sum: seq<seq<byte>>)
    requires sum != [] && head == sum[0]
    ensures TotalLength(sum) == |head| + TotalLength(sum[1..])
  {
  }

  lemma OneAndRest<T>(a: seq<T>, rest: seq<T>)
    requires rest != []
    ensures (a + [rest[0]]) + rest[1..] == a + rest
  {
  }

  /** Progress of a call: on an open queue with room for all its chunks it returns by its own steps, and has had
  all of them accepted, in order, behind what was queued. */
  lemma {:induction false} SendSucceeds(s: State, c: CallId) returns (steps: seq<Step>, t: State)
    requires CanPush(s, c)
    ensures Leads(s, steps, t)
    ensures c in t.calls && t.calls[c].phase == Returned
    ensures t.queue.chunks == s.queue.chunks + Rest(s.calls[c])
    decreases |Rest(s.calls[c])|
  {
    var rest := Rest(s.calls[c]);
    var a, s1 := PushOne(s, c);
    RestOfSum(rest[0], rest);
    OneAndRest(s.queue.chunks, rest);
    if |rest| == 1 {
      steps, t := a, s1;
    } else {
      var b;
      b, t := SendSucceeds(s1, c);
      LeadsOn(s, a, s1, b, t);
      steps := a + b;
    }
  }

  /** The writer takes the first chunk out and writes it. Everyone who waits for room is woken. */
  lemma WritesOne(s: State) returns (t: State)
    requires s.writer == Running && !s.queue.closed && QueueOk(s.queue) && s.queue.chunks != []
    ensures Leads(s, [WriterLock, Write(|s.queue.chunks[0]|)], t)
    ensures t.writer == Running && t.queue == PopNext(s.queue) && QueueOk(t.queue)
    ensures t.output == s.output + s.queue.chunks[0]
    ensures forall c <- t.calls :: t.calls[c].phase != Parked
    ensures t.calls.Keys == s.calls.Keys && t.waiters == []
  {
    var chunk := s.queue.chunks[0];
    QueueStaysOk(s.queue, chunk);
    var s1 := Next(s, WriterLock);
    t := Next(s1, Write(|chunk|));
    assert chunk[0..|chunk|] == chunk;
    assert Leads(t, [], t);
    First(s1, Write(|chunk|), [], t);
    First(s, WriterLock, [Write(|chunk|)] + [], t);
    assert [WriterLock, Write(|chunk|)] == [WriterLock] + ([Write(|chunk|)] + []);
  }

  /** Progress of the writer: a running writer of an open queue writes all that is queued by its own steps. */
  lemma {:induction false} WriterDrains(s: State) returns (steps: seq<Step>, t: State)
    requires s.writer == Running && !s.queue.closed && QueueOk(s.queue)
    ensures Leads(s, steps, t)
    ensures t.queue.chunks == [] && t.output == s.output + Flatten(s.queue.chunks)
    decreases |s.queue.chunks|
  {
    if s.queue.chunks == [] {
      steps, t := [], s;
      assert s.output + [] == s.output;
    } else {
      var first := [WriterLock, Write(|s.queue.chunks[0]|)];
      var s1 := WritesOne(s);
      var more;
      more, t := WriterDrains(s1);
      LeadsOn(s, first, s1, more, t);
      steps := first + more;
      assert s.output + Flatten(s.queue.chunks)
          == (s.output + s.queue.chunks[0]) + Flatten(s.queue.chunks[1..]);
    }
  }

  /** After a close: the writer discards what is queued and ends, and nobody goes on waiting. */
  lemma CloseEndsTheWriter(s: State)
    requires s.writer == Running && s.queue.closed && Enabled(s, WriterLock)
    ensures var t := Next(s, WriterLock);
            && t.writer == Exited && t.queue.chunks == [] && t.queue.queued == 0 && t.output == s.output
            && t.waiters == [] && forall c <- t.calls :: t.calls[c].phase != Parked
  {
  }

  /** The chunk in hand can be written to its end. */
  predicate CanFinish(s: State) {
    s.writer.Writing? ==>
      && s.writer.off < |s.writer.chunk|
      && Enabled(s, Write(|s.writer.chunk| - s.writer.off))
      && Next(s, Write(|s.writer.chunk| - s.writer.off)).writer == Running
  }

  /** A sleeping writer that has something to do can be woken by a step that is still to come. */
  ghost predicate CanBeWoken(s: State) {
    && (s.writer == Sleeping && s.queue.chunks != [] ==>
          exists c <- s.calls :: Enabled(s, Notify(c)) && Next(s, Notify(c)).writer == Running)
    && (s.writer == Sleeping && s.queue.closed ==>
          Enabled(s, NotifyClosed) && Next(s, NotifyClosed).writer == Running)
  }

  lemma HandCanBeFinished(s: State)
    requires TakenOk(s)
    ensures CanFinish(s)
  {
  }

  lemma SleeperCanBeWoken(s: State)
    requires SleepOk(s)
    ensures CanBeWoken(s)
  {
    if s.writer == Sleeping && s.queue.chunks != [] {
      var c :| c in s.calls && s.calls[c].phase == Pushed;
      assert Enabled(s, Notify(c)) && Next(s, Notify(c)).writer == Running;
    }
  }

  lemma RunnerCanLock(s: State)
    requires QueueOk(s.queue) && s.writer == Running
    ensures Enabled(s, WriterLock)
  {
    if s.queue.chunks != [] {
      QueueStaysOk(s.queue, s.queue.chunks[0]);
    }
  }

  /** In every reachable state the writer is not stuck: with an open queue it can write all that is queued, right
  away, after finishing the chunk in hand, or, when it sleeps, once the notification that is still to
  come has woken it. */
  lemma WriterIsNeverStuck(steps: seq<Step>)
    requires IsRun(INITIAL, steps)
    ensures var s := Final(INITIAL, steps);
            && QueueOk(s.queue)
            && (s.writer == Running ==> Enabled(s, WriterLock))
            && CanFinish(s) && CanBeWoken(s)
  {
    WriterStaysOk(INITIAL, steps);
    var s := Final(INITIAL, steps);
    HandCanBeFinished(s);
    SleeperCanBeWoken(s);
    if s.writer == Running {
      RunnerCanLock(s);
    }
  }
}
