/** What a client sees of one attach: the reply, then the events of its pump (agentd/src/rpc.rs). */
module PumpStream {
  import opened Bytes
  import opened DaemonBuffer
  import opened DaemonSession
  import opened SessionSafety

  // ---------------------------------------------------------------------------------------
  // Good streams
  // ---------------------------------------------------------------------------------------

  /** Where the data of the events ends, for a stream that begins at `start`. */
  function StreamEnd(start: nat, events: seq<Event>): nat {
    if events == [] then start
    else
      match events[|events| - 1]
      case PtyData(r) => r.cursorEnd
      case _ => StreamEnd(start, events[..|events| - 1])
  }

  predicate HasTerminal(events: seq<Event>) {
    exists i :: 0 <= i < |events| && !events[i].PtyData?
  }

  /** Data events are non-empty slices of the history in order, each starting where the one before ended
  or, exactly when it is flagged as truncated, later; a terminal event can only be the last. */
  predicate GoodStream(start: nat, events: seq<Event>, history: seq<byte>) {
    events != [] ==>
      var before := events[..|events| - 1];
      && GoodStream(start, before, history)
      && !HasTerminal(before)
      && match events[|events| - 1]
         case PtyData(r) =>
           && StreamEnd(start, before) <= r.cursorStart < r.cursorEnd <= |history|
           && r.data == history[r.cursorStart..r.cursorEnd]
           && (r.isTruncated <==> StreamEnd(start, before) < r.cursorStart)
         case _ => true
  }

  /** The reply to an attach that asked for what comes after `since`: a slice of the history that starts
  there or, exactly when it is flagged as truncated, later. Beyond the end of the history the reply is
  empty, and keeps the start that was asked for. */
  predicate GoodReply(since: nat, reply: SinceResult, history: seq<byte>) {
    && reply.cursorEnd <= |history|
    && since <= reply.cursorStart
    && (reply.isTruncated <==> since < reply.cursorStart)
    && (if since <= reply.cursorEnd
        then reply.cursorStart <= reply.cursorEnd && reply.data == history[reply.cursorStart..reply.cursorEnd]
        else reply.data == [])
  }

  lemma {:induction false} GoodStreamGrows(start: nat, events: seq<Event>, history: seq<byte>, longer: seq<byte>)
    requires GoodStream(start, events, history) && history <= longer
    ensures GoodStream(start, events, longer)
  {
    if events != [] {
      GoodStreamGrows(start, events[..|events| - 1], history, longer);
    }
  }

  function StreamData(events: seq<Event>): seq<byte> {
    if events == [] then []
    else
      StreamData(events[..|events| - 1])
      + match events[|events| - 1] case PtyData(r) => r.data case _ => []
  }

  predicate HasTruncation(events: seq<Event>) {
    exists i :: 0 <= i < |events| && events[i].PtyData? && events[i].slice.isTruncated
  }

  lemma {:induction false} StreamStaysInside(start: nat, events: seq<Event>, history: seq<byte>)
    requires GoodStream(start, events, history) && start <= |history|
    ensures start <= StreamEnd(start, events) <= |history|
  {
    if events != [] {
      StreamStaysInside(start, events[..|events| - 1], history);
    }
  }

  lemma TruncationOfPrefix(events: seq<Event>)
    requires events != [] && !HasTruncation(events)
    ensures !HasTruncation(events[..|events| - 1])
    ensures events[|events| - 1].PtyData? ==> !events[|events| - 1].slice.isTruncated
  {
    var before := events[..|events| - 1];
    assert forall i :: 0 <= i < |before| ==> before[i] == events[i];
  }

  /** What one event more does to a stream without truncation. */
  lemma LastEvent(start: nat, events: seq<Event>, history: seq<byte>)
    requires events != [] && GoodStream(start, events, history) && !HasTruncation(events)
    ensures var before, last := events[..|events| - 1], events[|events| - 1];
            if last.PtyData? then
              && StreamEnd(start, before) <= StreamEnd(start, events) == last.slice.cursorEnd <= |history|
              && StreamData(events) == StreamData(before) + history[StreamEnd(start, before)..last.slice.cursorEnd]
            else StreamEnd(start, events) == StreamEnd(start, before) && StreamData(events) == StreamData(before)
  {
    TruncationOfPrefix(events);
    var before := events[..|events| - 1];
    assert StreamData(before) + [] == StreamData(before);
  }

  /** Without truncation the data of the events is one slice of the history, from the start on. */
  lemma {:induction false} UntruncatedStreamIsSlice(start: nat, events: seq<Event>, history: seq<byte>)
    requires GoodStream(start, events, history) && start <= |history| && !HasTruncation(events)
    ensures start <= StreamEnd(start, events) <= |history|
    ensures StreamData(events) == history[start..StreamEnd(start, events)]
  {
    if events != [] {
      var before := events[..|events| - 1];
      TruncationOfPrefix(events);
      UntruncatedStreamIsSlice(start, before, history);
      LastEvent(start, events, history);
      if events[|events| - 1].PtyData? {
        SlicesJoin(history, start, StreamEnd(start, before), StreamEnd(start, events));
      }
    }
  }

  // ---------------------------------------------------------------------------------------
  // The invariant
  // ---------------------------------------------------------------------------------------

  predicate PumpOk(p: Pump, x: Session) {
    && GoodReply(p.since, p.reply, x.history)
    && GoodStream(p.reply.cursorEnd, p.events, x.history)
    && p.lastSent == StreamEnd(p.reply.cursorEnd, p.events) <= |x.history|
    && (p.phase != Stopped ==> !HasTerminal(p.events))
    && (p.phase == AtContains || p.phase == AtState || p.phase == AtTerminal ==> p.lastSent == p.readAt)
    && (p.phase == AtTerminal ==> x.state == Lost && |x.history| == p.stateAt)
    && (p.events != [] && p.events[|p.events| - 1].Finished? ==> ToldTheEnd(p, x))
    && (ToldClosed(p) ==> p.phase == Stopped && p.lastSent == p.readAt <= p.lookedAt <= |x.history|)
    && p.readAt <= |x.history|
  }

  /** What is true once the end of the session has been told. */
  predicate ToldTheEnd(p: Pump, x: Session)
  {
    && p.phase == Stopped
    && x.state == Lost && x.terminal.Some?
    && p.events != [] && p.events[|p.events| - 1] == Finished(x.terminal)
    && p.lastSent == p.readAt
    && |x.history| == p.stateAt
  }

  predicate ToldClosed(p: Pump) {
    p.events != [] && p.events[|p.events| - 1].Closed?
  }

  predicate ClosedStayGone(s: State) {
    forall i :: 0 <= i < |s.pumps| && ToldClosed(s.pumps[i]) ==> s.pumps[i].sid !in s.registered
  }

  lemma StepKeepsClosed(s: State, step: Step)
    requires Enabled(s, step) && ReferencesOk(s) && ClosedStayGone(s)
    ensures ClosedStayGone(Next(s, step))
  {
    var t := Next(s, step);
    forall i | 0 <= i < |t.pumps| && ToldClosed(t.pumps[i])
      ensures t.pumps[i].sid !in t.registered
    {
      assert i < |s.pumps|;
      assert t.pumps[i].events == s.pumps[i].events || step == PumpStep(i, true);
    }
  }

  predicate PumpsOk(s: State) {
    forall i :: 0 <= i < |s.pumps| ==> s.pumps[i].sid in s.sessions && PumpOk(s.pumps[i], s.sessions[s.pumps[i].sid])
  }

  /** The reply a connection in the middle of an attach holds. */
  predicate ReplyOk(s: State, c: Connection) {
    match c.phase
    case Replied(sid, since, reply) => sid in s.sessions && GoodReply(since, reply, s.sessions[sid].history)
    case FoundAgain(sid, since, reply) => sid in s.sessions && GoodReply(since, reply, s.sessions[sid].history)
    case Answering(sid, since, reply, _) => sid in s.sessions && GoodReply(since, reply, s.sessions[sid].history)
    case _ => true
  }

  predicate RepliesOk(s: State) {
    forall cid <- s.connections :: ReplyOk(s, s.connections[cid])
  }

  lemma SinceAtIsGood(history: seq<byte>, size: nat, since: nat)
    ensures var r := SinceAt(history, size, since);
            && GoodReply(since, r, history)
            && r.cursorEnd == |history|
            && (since <= |history| ==> since <= r.cursorStart <= r.cursorEnd)
            && (r.data != [] ==> r.cursorStart < r.cursorEnd && (r.isTruncated <==> since < r.cursorStart))
            && (since <= |history| && r.data == [] && size > 0 ==> since == |history|)
  {
  }

  lemma PumpOkEvolves(p: Pump, x: Session, y: Session)
    requires PumpOk(p, x) && Evolves(x, y) && SessionOk(x) && SessionOk(y)
    ensures PumpOk(p, y)
  {
    GoodStreamGrows(p.reply.cursorEnd, p.events, x.history, y.history);
  }

  lemma AppendEvent(start: nat, events: seq<Event>, e: Event, history: seq<byte>)
    requires GoodStream(start, events, history) && !HasTerminal(events)
    requires e.PtyData? ==>
               && StreamEnd(start, events) <= e.slice.cursorStart < e.slice.cursorEnd <= |history|
               && e.slice.data == history[e.slice.cursorStart..e.slice.cursorEnd]
               && (e.slice.isTruncated <==> StreamEnd(start, events) < e.slice.cursorStart)
    ensures GoodStream(start, events + [e], history)
    ensures StreamEnd(start, events + [e]) == if e.PtyData? then e.slice.cursorEnd else StreamEnd(start, events)
    ensures e.PtyData? ==> !HasTerminal(events + [e])
  {
    assert (events + [e])[..|events|] == events;
  }

  lemma ReadOk(p: Pump, x: Session, registered: bool, ok: bool)
    requires PumpOk(p, x) && p.phase == AtRead
    ensures PumpOk(PumpNext(p, x, registered, ok), x)
  {
    var r := SinceAt(x.history, DEFAULT_BUFFER_SIZE, p.lastSent);
    SinceAtIsGood(x.history, DEFAULT_BUFFER_SIZE, p.lastSent);
    if r.data != [] {
      AppendEvent(p.reply.cursorEnd, p.events, PtyData(r), x.history);
    }
  }

  lemma ContainsOk(p: Pump, x: Session, registered: bool, ok: bool)
    requires PumpOk(p, x) && p.phase == AtContains
    ensures PumpOk(PumpNext(p, x, registered, ok), x)
  {
    AppendEvent(p.reply.cursorEnd, p.events, Closed, x.history);
  }

  lemma TerminalOk(p: Pump, x: Session, registered: bool, ok: bool)
    requires PumpOk(p, x) && SessionOk(x) && p.phase == AtTerminal
    ensures PumpOk(PumpNext(p, x, registered, ok), x)
  {
    AppendEvent(p.reply.cursorEnd, p.events, Finished(x.terminal), x.history);
  }

  lemma PumpNextOk(p: Pump, x: Session, registered: bool, ok: bool)
    requires PumpOk(p, x) && SessionOk(x) && p.phase != Stopped
    ensures PumpOk(PumpNext(p, x, registered, ok), x)
  {
    match p.phase {
      case AtRead => ReadOk(p, x, registered, ok);
      case AtContains => ContainsOk(p, x, registered, ok);
      case AtTerminal => TerminalOk(p, x, registered, ok);
      case _ =>
    }
  }

  predicate DaemonOk(s: State) {
    SessionsOk(s) && ReferencesOk(s) && PumpsOk(s) && RepliesOk(s) && ClosedStayGone(s)
  }

  lemma ReplyOkEvolves(s: State, t: State, c: Connection)
    requires ReplyOk(s, c) && SessionsEvolve(s, t)
    ensures ReplyOk(t, c)
  {
    match c.phase {
      case Replied(sid, _, _) => assert Evolves(s.sessions[sid], t.sessions[sid]);
      case FoundAgain(sid, _, _) => assert Evolves(s.sessions[sid], t.sessions[sid]);
      case Answering(sid, _, _, _) => assert Evolves(s.sessions[sid], t.sessions[sid]);
      case _ =>
    }
  }

  lemma ActionKeepsReply(s: State, c: Connection, x: Session, a: ConnAction)
    requires ConnEnabled(c, a) && ReplyOk(s, c) && ConnectionOk(s, c)
    requires Subject(c).Some? ==> x == s.sessions[Subject(c).value]
    ensures ReplyOk(s, ConnectionAfter(s, c, x, a))
  {
    if a == ReadBuffer {
      SinceAtIsGood(x.history, DEFAULT_BUFFER_SIZE, c.phase.since);
    }
  }

  lemma StepKeepsReplies(s: State, step: Step)
    requires Enabled(s, step) && DaemonOk(s)
    ensures RepliesOk(Next(s, step))
  {
    var t := Next(s, step);
    StepKeepsSessions(s, step);
    forall cid | cid in t.connections
      ensures ReplyOk(t, t.connections[cid])
    {
      if cid in s.connections {
        var c := s.connections[cid];
        assert ReplyOk(s, c) && ConnectionOk(s, c);
        if step.ConnStep? && step.cid == cid {
          var x := if Subject(c).Some? then s.sessions[Subject(c).value] else NEW_SESSION;
          ActionKeepsReply(s, c, x, step.action);
        }
        ReplyOkEvolves(s, t, t.connections[cid]);
      }
    }
  }

  lemma OtherStepKeepsPump(s: State, step: Step, i: nat)
    requires Enabled(s, step) && SessionsOk(s) && i < |s.pumps| && !(step.PumpStep? && step.i == i)
    requires s.pumps[i].sid in s.sessions && PumpOk(s.pumps[i], s.sessions[s.pumps[i].sid])
    ensures var t := Next(s, step);
            t.pumps[i].sid in t.sessions && PumpOk(t.pumps[i], t.sessions[t.pumps[i].sid])
  {
    var t := Next(s, step);
    var sid := s.pumps[i].sid;
    StepKeepsSessions(s, step);
    assert Evolves(s.sessions[sid], t.sessions[sid]);
    PumpOkEvolves(s.pumps[i], s.sessions[sid], t.sessions[sid]);
  }

  lemma {:induction false} OwnStepKeepsPump(s: State, i: nat, ok: bool)
    requires Enabled(s, PumpStep(i, ok)) && SessionOk(s.sessions[s.pumps[i].sid])
    requires PumpOk(s.pumps[i], s.sessions[s.pumps[i].sid])
    ensures var t := Next(s, PumpStep(i, ok));
            t.pumps[i].sid in t.sessions && PumpOk(t.pumps[i], t.sessions[t.pumps[i].sid])
  {
    var p := s.pumps[i];
    PumpNextOk(p, s.sessions[p.sid], p.sid in s.registered, ok);
    assert PumpNext(p, s.sessions[p.sid], p.sid in s.registered, ok).sid == p.sid;
  }

  lemma StepKeepsPump(s: State, step: Step, i: nat)
    requires Enabled(s, step) && DaemonOk(s) && i < |s.pumps|
    ensures var t := Next(s, step);
            t.pumps[i].sid in t.sessions && PumpOk(t.pumps[i], t.sessions[t.pumps[i].sid])
  {
    assert SessionOk(s.sessions[s.pumps[i].sid]) && PumpOk(s.pumps[i], s.sessions[s.pumps[i].sid]);
    if step.PumpStep? && step.i == i {
      OwnStepKeepsPump(s, i, step.ok);
    } else {
      OtherStepKeepsPump(s, step, i);
    }
  }

  lemma {:induction false} StepKeepsPumps(s: State, step: Step)
    requires Enabled(s, step) && DaemonOk(s)
    ensures PumpsOk(Next(s, step))
  {
    var t := Next(s, step);
    forall i | 0 <= i < |t.pumps|
      ensures t.pumps[i].sid in t.sessions && PumpOk(t.pumps[i], t.sessions[t.pumps[i].sid])
    {
      if i < |s.pumps| {
        StepKeepsPump(s, step, i);
      } else {
        assert ReplyOk(s, s.connections[step.cid]);
      }
    }
  }

  lemma StepKeepsDaemon(s: State, step: Step)
    requires Enabled(s, step) && DaemonOk(s)
    ensures DaemonOk(Next(s, step))
  {
    StepKeepsSessions(s, step);
    StepKeepsReferences(s, step);
    StepKeepsReplies(s, step);
    StepKeepsPumps(s, step);
    StepKeepsClosed(s, step);
  }

  lemma {:induction false} DaemonStaysOk(s: State, steps: seq<Step>)
    requires IsRun(s, steps) && DaemonOk(s)
    ensures DaemonOk(Final(s, steps))
    decreases |steps|
  {
    if steps != [] {
      StepKeepsDaemon(s, steps[0]);
      DaemonStaysOk(Next(s, steps[0]), steps[1..]);
    }
  }

  // ---------------------------------------------------------------------------------------
  // The theorems
  // ---------------------------------------------------------------------------------------

  /** What reply and events carry when there is no gap between them. */
  function Delivered(p: Pump): seq<byte> {
    p.reply.data + StreamData(p.events)
  }

  /** Without gaps, reply and events together are one slice. */
  lemma DeliveredIsSlice(p: Pump, x: Session)
    requires PumpOk(p, x) && p.since <= p.reply.cursorEnd && !HasTruncation(p.events)
    ensures var to := StreamEnd(p.reply.cursorEnd, p.events);
            p.since <= p.reply.cursorStart <= to <= |x.history| && Delivered(p) == x.history[p.reply.cursorStart..to]
  {
    UntruncatedStreamIsSlice(p.reply.cursorEnd, p.events, x.history);
    SlicesJoin(x.history, p.reply.cursorStart, p.reply.cursorEnd, StreamEnd(p.reply.cursorEnd, p.events));
  }

  /** In every run, an attach reply is a slice of the session's history from the cursor that was asked for
  or, exactly when flagged as truncated, from a later one. The events of its pump are non-empty slices
  that go on from it in order and never leave the history, with gaps only where an event is flagged as
  truncated; at most one terminal event is sent, as the last. Without gaps, reply and events together
  are one slice. */
  lemma PumpStreamIsCorrect(steps: seq<Step>, i: nat)
    requires IsRun(INITIAL, steps) && i < |Final(INITIAL, steps).pumps|
    ensures var s := Final(INITIAL, steps);
            var p := s.pumps[i];
            && p.sid in s.sessions
            && var history := s.sessions[p.sid].history;
            && GoodReply(p.since, p.reply, history)
            && GoodStream(p.reply.cursorEnd, p.events, history)
            && p.reply.cursorEnd <= StreamEnd(p.reply.cursorEnd, p.events) <= |history|
            && (p.since <= p.reply.cursorEnd && !HasTruncation(p.events) ==>
                  && p.reply.cursorStart <= StreamEnd(p.reply.cursorEnd, p.events)
                  && Delivered(p) == history[p.reply.cursorStart..StreamEnd(p.reply.cursorEnd, p.events)])
  {
    DaemonStaysOk(INITIAL, steps);
    var s := Final(INITIAL, steps);
    var p := s.pumps[i];
    assert PumpOk(p, s.sessions[p.sid]);
    StreamStaysInside(p.reply.cursorEnd, p.events, s.sessions[p.sid].history);
    if p.since <= p.reply.cursorEnd && !HasTruncation(p.events) {
      DeliveredIsSlice(p, s.sessions[p.sid]);
    }
  }

  /** When the pump tells the end of a lost session, it tells what the read thread set, never the
  fallback. Its stream reaches the end of the history, which is final, exactly when nothing was
  written between its last buffer read and its state read; without gaps every byte from the start of
  the reply has then been sent. */
  lemma TailBeforeTerminal(steps: seq<Step>, i: nat)
    requires IsRun(INITIAL, steps) && i < |Final(INITIAL, steps).pumps|
    requires var p := Final(INITIAL, steps).pumps[i];
             p.events != [] && p.events[|p.events| - 1].Finished?
    ensures var s := Final(INITIAL, steps);
            var p := s.pumps[i];
            && p.sid in s.sessions
            && var x := s.sessions[p.sid];
            && p.events[|p.events| - 1].info.Some?
            && p.events[|p.events| - 1].info == x.terminal
            && x.state == Lost
            && (StreamEnd(p.reply.cursorEnd, p.events) == |x.history| <==> p.readAt == p.stateAt)
            && (p.since <= p.reply.cursorEnd && !HasTruncation(p.events) ==>
                  && p.reply.cursorStart <= |x.history|
                  && (Delivered(p) == x.history[p.reply.cursorStart..] <==> p.readAt == p.stateAt))
  {
    DaemonStaysOk(INITIAL, steps);
    var s := Final(INITIAL, steps);
    var p := s.pumps[i];
    assert PumpOk(p, s.sessions[p.sid]);
    if p.since <= p.reply.cursorEnd && !HasTruncation(p.events) {
      DeliveredIsSlice(p, s.sessions[p.sid]);
    }
  }

  /** When the pump tells that a session was closed, the session is out of the daemon's map for good. All that
  was there when the pump looked into the map has been sent, exactly when nothing was written between its
  last buffer read and that look. */
  lemma TailBeforeClosed(steps: seq<Step>, i: nat)
    requires IsRun(INITIAL, steps) && i < |Final(INITIAL, steps).pumps|
    requires ToldClosed(Final(INITIAL, steps).pumps[i])
    ensures var s := Final(INITIAL, steps);
            var p := s.pumps[i];
            && p.sid in s.sessions && p.sid !in s.registered
            && var history := s.sessions[p.sid].history;
            && StreamEnd(p.reply.cursorEnd, p.events) == p.readAt <= p.lookedAt <= |history|
            && (StreamEnd(p.reply.cursorEnd, p.events) == p.lookedAt <==> p.readAt == p.lookedAt)
            && (p.since <= p.reply.cursorEnd && !HasTruncation(p.events) ==>
                  && p.reply.cursorStart <= p.lookedAt
                  && (Delivered(p) == history[p.reply.cursorStart..p.lookedAt] <==> p.readAt == p.lookedAt))
  {
    DaemonStaysOk(INITIAL, steps);
    var s := Final(INITIAL, steps);
    var p := s.pumps[i];
    assert PumpOk(p, s.sessions[p.sid]);
    if p.since <= p.reply.cursorEnd && !HasTruncation(p.events) {
      DeliveredIsSlice(p, s.sessions[p.sid]);
    }
  }
}
