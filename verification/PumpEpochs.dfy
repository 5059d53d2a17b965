/** Pumps that a newer attach has superseded (agentd/src/rpc.rs `event_pump`, agentd/src/session.rs
`pump_epoch`). An attach bumps the session's epoch and gives its pump the epoch it then reads; a pump
that finds another epoch than its own has been superseded. A pump, or a connection about to start one,
that has been given an epoch holds a ticket for it. */
module PumpEpochs {
  import opened Bytes
  import opened DaemonSession
  import opened SessionSafety

  // ---------------------------------------------------------------------------------------
  // A superseded pump only finishes its iteration
  // ---------------------------------------------------------------------------------------

  predicate Superseded(s: State, i: nat) {
    && i < |s.pumps|
    && s.pumps[i].sid in s.sessions
    && s.pumps[i].epoch < s.sessions[s.pumps[i].sid].epoch
  }

  /** What pump `p` may still send when it never passes its epoch check again: in one iteration, at most
  one piece of data and then at most one terminal event. */
  predicate RestOfIteration(p: Pump, extra: seq<Event>) {
    match p.phase
    case AtRead =>
      || extra == []
      || |extra| == 1
      || (|extra| == 2 && extra[0].PtyData? && !extra[1].PtyData?)
    case AtContains => extra == [] || (|extra| == 1 && !extra[0].PtyData?)
    case AtState => extra == [] || (|extra| == 1 && !extra[0].PtyData?)
    case AtTerminal => extra == [] || (|extra| == 1 && !extra[0].PtyData?)
    case _ => extra == []
  }

  lemma SupersededStep(s: State, step: Step, i: nat)
    requires Enabled(s, step) && SessionsOk(s) && Superseded(s, i)
    ensures var t := Next(s, step);
            && Superseded(t, i)
            && (t.pumps[i] == s.pumps[i]
                || (exists registered, ok ::
                      t.pumps[i] == PumpNext(s.pumps[i], s.sessions[s.pumps[i].sid], registered, ok)))
  {
    StepKeepsSessions(s, step);
    assert Evolves(s.sessions[s.pumps[i].sid], Next(s, step).sessions[s.pumps[i].sid]);
  }

  lemma IterationGoesOn(p: Pump, x: Session, registered: bool, ok: bool, more: seq<Event>)
    requires p.epoch < x.epoch
    requires RestOfIteration(PumpNext(p, x, registered, ok), more)
    ensures var q := PumpNext(p, x, registered, ok);
            && p.events <= q.events
            && RestOfIteration(p, q.events[|p.events|..] + more)
  {
    assert p.events[|p.events|..] == [];
    assert [] + more == more;
  }

  lemma SuffixesJoin<T>(a: seq<T>, b: seq<T>, c: seq<T>)
    requires a <= b <= c
    ensures a <= c && c[|a|..] == b[|a|..] + c[|b|..]
  {
  }

  /** The first step of a run, and what the rest of it adds. */
  lemma IterationStep(s: State, step: Step, i: nat, later: seq<Event>)
    requires Enabled(s, step) && SessionsOk(s) && Superseded(s, i)
    requires var q := Next(s, step).pumps[i];
             q.events <= later && RestOfIteration(q, later[|q.events|..])
    ensures var p := s.pumps[i];
            p.events <= later && RestOfIteration(p, later[|p.events|..])
  {
    SupersededStep(s, step, i);
    var p, q := s.pumps[i], Next(s, step).pumps[i];
    if q != p {
      var registered, ok :| q == PumpNext(p, s.sessions[p.sid], registered, ok);
      IterationGoesOn(p, s.sessions[p.sid], registered, ok, later[|q.events|..]);
      SuffixesJoin(p.events, q.events, later);
    }
  }

  // ---------------------------------------------------------------------------------------
  // One pump for the current epoch
  // ---------------------------------------------------------------------------------------

  predicate PastBump(c: Connection, sid: SessionId) {
    Attaching(c, sid) && !c.phase.Claimed?
  }

  /** No session is taken over while another connection is between taking it over and reading its epoch. */
  predicate AttachesAreSerial(s: State, steps: seq<Step>)
    requires IsRun(s, steps)
    decreases |steps|
  {
    steps != [] ==> SerialStep(s, steps[0]) && AttachesAreSerial(Next(s, steps[0]), steps[1..])
  }

  predicate SerialStep(s: State, step: Step)
    requires Enabled(s, step)
  {
    step.ConnStep? && step.action == Claim ==>
      forall cid <- s.connections :: !Attaching(s.connections[cid], s.connections[step.cid].phase.sid)
  }

  /** A pump, or a connection about to start one, that has been given an epoch of a session. */
  datatype Holder = PumpHolder(i: nat) | ConnHolder(cid: ConnectionId)

  function Ticket(s: State, h: Holder): Option<(SessionId, nat)> {
    match h
    case PumpHolder(i) => if i < |s.pumps| then Some((s.pumps[i].sid, s.pumps[i].epoch)) else None
    case ConnHolder(cid) =>
      if cid in s.connections && s.connections[cid].phase.Answering?
      then Some((s.connections[cid].phase.sid, s.connections[cid].phase.epoch)) else None
  }

  ghost predicate TicketsValid(s: State) {
    forall h: Holder :: Ticket(s, h).Some? ==>
      && Ticket(s, h).value.0 in s.sessions
      && Ticket(s, h).value.1 <= s.sessions[Ticket(s, h).value.0].epoch
  }

  ghost predicate TicketsDiffer(s: State) {
    forall h: Holder, k: Holder :: h != k && Ticket(s, h).Some? && Ticket(s, k).Some? ==> Ticket(s, h) != Ticket(s, k)
  }

  /** The epoch that an attach has just produced is nobody's yet. */
  ghost predicate CurrentEpochFree(s: State) {
    forall cid: ConnectionId, h: Holder :: cid in s.connections && Ticket(s, h).Some?
      && PastBump(s.connections[cid], Ticket(s, h).value.0) && Ticket(s, h).value.0 in s.sessions
      ==> Ticket(s, h).value.1 < s.sessions[Ticket(s, h).value.0].epoch
  }

  predicate OneAttaching(s: State) {
    forall c <- s.connections, d <- s.connections :: c != d && Subject(s.connections[c]).Some?
      && Attaching(s.connections[c], Subject(s.connections[c]).value)
      ==> !Attaching(s.connections[d], Subject(s.connections[c]).value)
  }

  ghost predicate EpochsOk(s: State) {
    TicketsValid(s) && TicketsDiffer(s) && CurrentEpochFree(s) && OneAttaching(s)
  }

  /** Tickets only move: from a connection to its pump, or into existence when an epoch is read. */
  lemma TicketOrigin(s: State, step: Step, h: Holder) returns (k: Holder)
    requires Enabled(s, step) && ReferencesOk(s) && Ticket(Next(s, step), h).Some?
    ensures || (step.ConnStep? && step.action == TakeEpoch && h == ConnHolder(step.cid))
            || Ticket(s, k) == Ticket(Next(s, step), h)
    ensures k == if StartsPump(s, step, h) then ConnHolder(step.cid) else h
  {
    k := if StartsPump(s, step, h) then ConnHolder(step.cid) else h;
  }

  predicate StartsPump(s: State, step: Step, h: Holder) {
    step.ConnStep? && step.action == Answer(true) && h == PumpHolder(|s.pumps|)
  }

  lemma StepKeepsTicketsValid(s: State, step: Step)
    requires Enabled(s, step) && SessionsOk(s) && ReferencesOk(s) && TicketsValid(s)
    ensures TicketsValid(Next(s, step))
  {
    var t := Next(s, step);
    StepKeepsSessions(s, step);
    forall h: Holder | Ticket(t, h).Some?
      ensures Ticket(t, h).value.0 in t.sessions && Ticket(t, h).value.1 <= t.sessions[Ticket(t, h).value.0].epoch
    {
      var k := TicketOrigin(s, step, h);
      if Ticket(s, k) == Ticket(t, h) {
        assert Evolves(s.sessions[Ticket(s, k).value.0], t.sessions[Ticket(s, k).value.0]);
      }
    }
  }

  lemma StepKeepsTicketsDiffer(s: State, step: Step)
    requires Enabled(s, step) && SessionsOk(s) && ReferencesOk(s) && EpochsOk(s)
    ensures TicketsDiffer(Next(s, step))
  {
    var t := Next(s, step);
    forall h: Holder, k: Holder | h != k && Ticket(t, h).Some? && Ticket(t, k).Some?
      ensures Ticket(t, h) != Ticket(t, k)
    {
      var h0 := TicketOrigin(s, step, h);
      var k0 := TicketOrigin(s, step, k);
      if step.ConnStep? && step.action == TakeEpoch {
        assert PastBump(s.connections[step.cid], s.connections[step.cid].phase.sid);
      }
    }
  }

  lemma AttachingOrigin(s: State, step: Step, cid: ConnectionId, sid: SessionId)
    requires Enabled(s, step) && cid in Next(s, step).connections && Attaching(Next(s, step).connections[cid], sid)
    ensures || (cid in s.connections && Attaching(s.connections[cid], sid))
            || (step == ConnStep(cid, Claim) && s.connections[cid].phase.sid == sid)
  {
  }

  lemma {:induction false} StepKeepsOneAttaching(s: State, step: Step)
    requires Enabled(s, step) && ReferencesOk(s) && EpochsOk(s) && SerialStep(s, step)
    ensures OneAttaching(Next(s, step))
  {
    var t := Next(s, step);
    forall c, d | c in t.connections && d in t.connections && c != d && Subject(t.connections[c]).Some?
      && Attaching(t.connections[c], Subject(t.connections[c]).value)
      ensures !Attaching(t.connections[d], Subject(t.connections[c]).value)
    {
      var sid := Subject(t.connections[c]).value;
      if Attaching(t.connections[d], sid) {
        AttachingOrigin(s, step, c, sid);
        AttachingOrigin(s, step, d, sid);
        assert false;
      }
    }
  }

  /** A connection that attaches while another reads its epoch would not be serial. */
  lemma NoneElseAttaching(s: State, step: Step, cid: ConnectionId)
    requires Enabled(s, step) && OneAttaching(s) && SerialStep(s, step)
    requires step.ConnStep? && step.action == TakeEpoch && cid in Next(s, step).connections
    ensures !Attaching(Next(s, step).connections[cid], s.connections[step.cid].phase.sid)
  {
    var sid := s.connections[step.cid].phase.sid;
    assert Attaching(s.connections[step.cid], sid);
  }

  lemma StepKeepsEpochFree(s: State, step: Step)
    requires Enabled(s, step) && SessionsOk(s) && ReferencesOk(s) && EpochsOk(s) && SerialStep(s, step)
    ensures CurrentEpochFree(Next(s, step))
  {
    var t := Next(s, step);
    StepKeepsSessions(s, step);
    forall cid: ConnectionId, h: Holder | cid in t.connections && Ticket(t, h).Some?
      && PastBump(t.connections[cid], Ticket(t, h).value.0) && Ticket(t, h).value.0 in t.sessions
      ensures Ticket(t, h).value.1 < t.sessions[Ticket(t, h).value.0].epoch
    {
      EpochStaysFree(s, step, cid, h);
    }
  }

  lemma EpochStaysFree(s: State, step: Step, cid: ConnectionId, h: Holder)
    requires Enabled(s, step) && SessionsOk(s) && ReferencesOk(s) && EpochsOk(s) && SerialStep(s, step)
    requires var t := Next(s, step);
             && cid in t.connections && Ticket(t, h).Some?
             && PastBump(t.connections[cid], Ticket(t, h).value.0) && Ticket(t, h).value.0 in t.sessions
    ensures Ticket(Next(s, step), h).value.1 < Next(s, step).sessions[Ticket(Next(s, step), h).value.0].epoch
  {
    var t := Next(s, step);
    var sid := Ticket(t, h).value.0;
    var k := TicketOrigin(s, step, h);
    if step.ConnStep? && step.action == TakeEpoch && h == ConnHolder(step.cid) {
      NoneElseAttaching(s, step, cid);
      assert false;
    } else {
      AttachingOrigin(s, step, cid, sid);
      StepKeepsSession(s, step, sid);
    }
  }

  lemma {:induction false} EpochsStayOk(s: State, steps: seq<Step>)
    requires IsRun(s, steps) && AttachesAreSerial(s, steps)
    requires SessionsOk(s) && ReferencesOk(s) && EpochsOk(s)
    ensures EpochsOk(Final(s, steps))
    decreases |steps|
  {
    if steps != [] {
      StepKeepsSessions(s, steps[0]);
      StepKeepsReferences(s, steps[0]);
      StepKeepsTicketsValid(s, steps[0]);
      StepKeepsTicketsDiffer(s, steps[0]);
      StepKeepsOneAttaching(s, steps[0]);
      StepKeepsEpochFree(s, steps[0]);
      EpochsStayOk(Next(s, steps[0]), steps[1..]);
    }
  }
}
