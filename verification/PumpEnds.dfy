/** How a pump ends (agentd/src/rpc.rs `event_pump`): with a terminal event, or without one. */
module PumpEnds {
  import opened Bytes
  import opened DaemonBuffer
  import opened DaemonSession
  import opened SessionSafety
  import opened Attachments
  import opened PumpStream
  import opened PumpEpochs

  // ---------------------------------------------------------------------------------------
  // The steps that end a pump without a terminal event
  // ---------------------------------------------------------------------------------------

  /** The pump finds at its check that its epoch has been bumped. */
  predicate FindsNewEpoch(s: State, step: Step, i: nat) {
    step.PumpStep? && step.i == i && i < |s.pumps| && s.pumps[i].phase == AtCheck && Superseded(s, i)
  }

  /** The pump finds that the session has been detached. */
  predicate FindsReleased(s: State, step: Step, i: nat) {
    && step.PumpStep? && step.i == i && i < |s.pumps| && s.pumps[i].phase == AtState
    && s.pumps[i].sid in s.sessions && s.sessions[s.pumps[i].sid].state == Detached
  }

  /** The pump has something to write: data, or a terminal event. */
  predicate HasToWrite(s: State, p: Pump) {
    p.sid in s.sessions &&
    match p.phase
    case AtRead => SinceAt(s.sessions[p.sid].history, DEFAULT_BUFFER_SIZE, p.lastSent).data != []
    case AtContains => p.sid !in s.registered
    case AtTerminal => true
    case _ => false
  }

  predicate WriteFails(s: State, step: Step, i: nat) {
    step == PumpStep(i, false) && i < |s.pumps| && HasToWrite(s, s.pumps[i])
  }

  predicate SilentStop(s: State, step: Step, i: nat) {
    FindsNewEpoch(s, step, i) || FindsReleased(s, step, i) || WriteFails(s, step, i)
  }

  /** Some step of the run is one of these. */
  predicate EndsSilently(s: State, steps: seq<Step>, i: nat)
    requires IsRun(s, steps)
    decreases |steps|
  {
    steps != [] && (SilentStop(s, steps[0], i) || EndsSilently(Next(s, steps[0]), steps[1..], i))
  }

  // ---------------------------------------------------------------------------------------
  // The invariant
  // ---------------------------------------------------------------------------------------

  /** A session that has a pump, or is being attached, has left `Created`. */
  predicate PastCreated(s: State, sid: SessionId) {
    sid in s.sessions && s.sessions[sid].state != Created
  }

  predicate StartedOk(s: State) {
    && (forall i :: 0 <= i < |s.pumps| ==> PastCreated(s, s.pumps[i].sid))
    && (forall cid <- s.connections :: ConnStarted(s, s.connections[cid]))
  }

  predicate ConnStarted(s: State, c: Connection) {
    Subject(c).Some? && (Attaching(c, Subject(c).value) || c.phase.Answering?) ==> PastCreated(s, Subject(c).value)
  }

  lemma StepKeepsPast(s: State, step: Step, sid: SessionId)
    requires Enabled(s, step) && SessionsOk(s) && PastCreated(s, sid)
    ensures PastCreated(Next(s, step), sid)
  {
    StepKeepsSession(s, step, sid);
  }

  lemma ConnStaysStarted(s: State, step: Step, cid: ConnectionId)
    requires Enabled(s, step) && SessionsOk(s) && StartedOk(s) && cid in Next(s, step).connections
    ensures ConnStarted(Next(s, step), Next(s, step).connections[cid])
  {
    if cid in s.connections {
      var c := s.connections[cid];
      assert ConnStarted(s, c);
      if Subject(c).Some? && PastCreated(s, Subject(c).value) {
        StepKeepsPast(s, step, Subject(c).value);
      }
    }
  }

  lemma StepKeepsStarted(s: State, step: Step)
    requires Enabled(s, step) && SessionsOk(s) && StartedOk(s)
    ensures StartedOk(Next(s, step))
  {
    var t := Next(s, step);
    forall cid | cid in t.connections
      ensures ConnStarted(t, t.connections[cid])
    {
      ConnStaysStarted(s, step, cid);
    }
    forall i | 0 <= i < |t.pumps|
      ensures PastCreated(t, t.pumps[i].sid)
    {
      if i < |s.pumps| {
        StepKeepsPast(s, step, s.pumps[i].sid);
      } else {
        assert ConnStarted(s, s.connections[step.cid]);
        StepKeepsPast(s, step, t.pumps[i].sid);
      }
    }
  }

  ghost predicate EndOk(s: State) {
    DaemonOk(s) && TicketsValid(s) && StartedOk(s)
  }

  lemma StepKeepsEnd(s: State, step: Step)
    requires Enabled(s, step) && EndOk(s)
    ensures EndOk(Next(s, step))
  {
    StepKeepsDaemon(s, step);
    StepKeepsTicketsValid(s, step);
    StepKeepsStarted(s, step);
  }

  // ---------------------------------------------------------------------------------------
  // The theorem
  // ---------------------------------------------------------------------------------------

  predicate IsStopped(s: State, i: nat) {
    i < |s.pumps| && s.pumps[i].phase == Stopped
  }

  /** One iteration step of a running pump: it stops in silence, or it stops with a terminal event, or it goes
  on. */
  lemma OwnStep(s: State, i: nat, ok: bool)
    requires Enabled(s, PumpStep(i, ok)) && EndOk(s)
    ensures var q := Next(s, PumpStep(i, ok)).pumps[i];
            && (q.phase == Stopped ==> (!HasTerminal(q.events) <==> SilentStop(s, PumpStep(i, ok), i)))
            && (q.phase != Stopped ==> !SilentStop(s, PumpStep(i, ok), i))
  {
    var p := s.pumps[i];
    var q := Next(s, PumpStep(i, ok)).pumps[i];
    assert PumpOk(p, s.sessions[p.sid]) && PastCreated(s, p.sid);
    assert Ticket(s, PumpHolder(i)) == Some((p.sid, p.epoch));
    if q.phase == Stopped && q.events != p.events {
      assert !q.events[|q.events| - 1].PtyData?;
    }
  }

  lemma {:induction false} StoppedStays(s: State, steps: seq<Step>, i: nat)
    requires IsRun(s, steps) && IsStopped(s, i)
    ensures IsStopped(Final(s, steps), i) && Final(s, steps).pumps[i] == s.pumps[i]
    ensures !EndsSilently(s, steps, i)
    decreases |steps|
  {
    if steps != [] {
      StoppedStays(Next(s, steps[0]), steps[1..], i);
    }
  }

  lemma {:induction false} SilenceFrom(s: State, steps: seq<Step>, i: nat)
    requires IsRun(s, steps) && EndOk(s) && !IsStopped(s, i) && IsStopped(Final(s, steps), i)
    ensures !HasTerminal(Final(s, steps).pumps[i].events) <==> EndsSilently(s, steps, i)
    decreases |steps|
  {
    var t := Next(s, steps[0]);
    StepKeepsEnd(s, steps[0]);
    if steps[0].PumpStep? && steps[0].i == i {
      OwnStep(s, i, steps[0].ok);
    }
    if IsStopped(t, i) {
      StoppedStays(t, steps[1..], i);
      StopsItself(s, steps[0], i);
    } else {
      SilenceFrom(t, steps[1..], i);
    }
  }

  /** Nothing but its own step stops a pump. */
  lemma StopsItself(s: State, step: Step, i: nat)
    requires Enabled(s, step) && !IsStopped(s, i) && IsStopped(Next(s, step), i)
    ensures step.PumpStep? && step.i == i
  {
  }

  /** In every run, a pump that has stopped has sent a terminal event, unless, and only unless, it found its
  epoch bumped at a check, or the session detached, or a write to its socket failed. */
  lemma TerminalEventUnless(steps: seq<Step>, i: nat)
    requires IsRun(INITIAL, steps) && IsStopped(Final(INITIAL, steps), i)
    ensures HasTerminal(Final(INITIAL, steps).pumps[i].events) <==> !EndsSilently(INITIAL, steps, i)
  {
    SilenceFrom(INITIAL, steps, i);
  }

  /** In every run, when a pump finds its session detached, its own connection's last attachment of it had been
  released. If that connection still has the session in its list and is not leaving, the release was
  another connection's: the pump then ends without a terminal event although its client has not left. */
  lemma WhoseReleaseItWas(steps: seq<Step>, i: nat, ok: bool)
    requires IsRun(INITIAL, steps) && FindsReleased(Final(INITIAL, steps), PumpStep(i, ok), i)
    ensures var s := Final(INITIAL, steps);
            var p := s.pumps[i];
            var w := WatchOf(INITIAL, steps, NOTHING_YET, p.sid, p.cid);
            && w.last.ReleasedBy?
            && (w.last == ReleasedBy(p.cid, false) && p.cid in s.connections ==>
                  !Holds(s.connections[p.cid], p.sid))
            && (w.last == ReleasedBy(p.cid, true) ==>
                  p.cid in s.connections && IsLeaving(s.connections[p.cid]))
            && (p.cid in s.connections && Holds(s.connections[p.cid], p.sid) && !IsLeaving(s.connections[p.cid]) ==>
                  w.last.who != p.cid)
            && Enabled(s, PumpStep(i, ok))
            && Next(s, PumpStep(i, ok)).pumps[i].phase == Stopped
            && !HasTerminal(Next(s, PumpStep(i, ok)).pumps[i].events)
  {
    var s := Final(INITIAL, steps);
    var p := s.pumps[i];
    WatchStaysOk(INITIAL, steps, NOTHING_YET, p.sid, p.cid);
    DaemonStaysOk(INITIAL, steps);
    assert PumpOk(p, s.sessions[p.sid]);
  }
}
