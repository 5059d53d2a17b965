/** What every interleaving of the daemon keeps about its sessions and attachments: what a session may come to,
that every reference is to a known session, and that every attachment has a holder. */
module SessionSafety {
  import opened Bytes
  import opened DaemonSession

  // ---------------------------------------------------------------------------------------
  // One session
  // ---------------------------------------------------------------------------------------

  predicate SessionsOk(s: State) {
    forall sid <- s.sessions :: SessionOk(s.sessions[sid])
  }

  predicate SessionsEvolve(s: State, t: State) {
    forall sid <- s.sessions :: sid in t.sessions && Evolves(s.sessions[sid], t.sessions[sid])
  }

  lemma StepKeepsSession(s: State, step: Step, sid: SessionId)
    requires Enabled(s, step) && sid in s.sessions && SessionOk(s.sessions[sid])
    ensures var t := Next(s, step);
            sid in t.sessions && SessionOk(t.sessions[sid]) && Evolves(s.sessions[sid], t.sessions[sid])
  {
  }

  lemma StepKeepsSessions(s: State, step: Step)
    requires Enabled(s, step) && SessionsOk(s)
    ensures SessionsOk(Next(s, step)) && SessionsEvolve(s, Next(s, step))
  {
    var t := Next(s, step);
    forall sid | sid in t.sessions
      ensures SessionOk(t.sessions[sid])
      ensures sid in s.sessions ==> Evolves(s.sessions[sid], t.sessions[sid])
    {
      if sid in s.sessions {
        StepKeepsSession(s, step, sid);
      }
    }
    assert s.sessions.Keys <= t.sessions.Keys;
  }

  lemma {:induction false} RunKeepsSessions(s: State, steps: seq<Step>)
    requires IsRun(s, steps) && SessionsOk(s)
    ensures SessionsOk(Final(s, steps)) && SessionsEvolve(s, Final(s, steps))
    decreases |steps|
  {
    if steps != [] {
      var t := Next(s, steps[0]);
      StepKeepsSessions(s, steps[0]);
      RunKeepsSessions(t, steps[1..]);
      var u := Final(t, steps[1..]);
      forall sid | sid in s.sessions
        ensures sid in u.sessions && Evolves(s.sessions[sid], u.sessions[sid])
      {
        assert Evolves(s.sessions[sid], t.sessions[sid]);
        assert Evolves(t.sessions[sid], u.sessions[sid]);
      }
    }
  }

  /** In every reachable state `Lost` implies that the terminal info is there, and from then on neither
  changes and no byte is added; a session that has left `Created` never is `Created` again. */
  lemma LostIsFinal(before: seq<Step>, after: seq<Step>, sid: SessionId)
    requires IsRun(INITIAL, before) && IsRun(Final(INITIAL, before), after)
    requires sid in Final(INITIAL, before).sessions
    ensures var s := Final(INITIAL, before);
            var t := Final(s, after);
            && sid in t.sessions
            && (s.sessions[sid].state == Lost ==>
                  && s.sessions[sid].terminal.Some?
                  && t.sessions[sid].state == Lost
                  && t.sessions[sid].terminal == s.sessions[sid].terminal
                  && t.sessions[sid].history == s.sessions[sid].history)
            && (s.sessions[sid].state != Created ==> t.sessions[sid].state != Created)
  {
    RunKeepsSessions(INITIAL, before);
    var s := Final(INITIAL, before);
    RunKeepsSessions(s, after);
    assert SessionOk(s.sessions[sid]);
  }

  // ---------------------------------------------------------------------------------------
  // References
  // ---------------------------------------------------------------------------------------

  predicate ConnectionOk(s: State, c: Connection) {
    && (forall sid <- c.attached :: sid in s.sessions)
    && (Subject(c).Some? ==> Subject(c).value in s.sessions)
    && (c.phase == CleaningOne ==> c.attached != [])
    && (c.phase == Gone ==> c.attached == [])
  }

  predicate ReferencesOk(s: State) {
    && s.registered <= s.sessions.Keys
    && (forall cid <- s.connections :: ConnectionOk(s, s.connections[cid]))
    && (forall i :: 0 <= i < |s.pumps| ==> s.pumps[i].sid in s.sessions)
  }

  lemma {:induction false} WithoutMembers(xs: seq<SessionId>, sid: SessionId)
    ensures forall x :: x in Without(xs, sid) <==> x in xs && x != sid
  {
    if xs != [] {
      WithoutMembers(xs[1..], sid);
      assert xs == [xs[0]] + xs[1..];
    }
  }

  lemma ConnectionAfterOk(s: State, t: State, c: Connection, x: Session, a: ConnAction)
    requires ConnectionOk(s, c) && ConnEnabled(c, a) && s.sessions.Keys <= t.sessions.Keys
    requires s.registered <= s.sessions.Keys
    ensures ConnectionOk(t, ConnectionAfter(s, c, x, a))
  {
    if a == Release && c.phase.Releasing? {
      WithoutMembers(c.attached, c.phase.sid);
    } else if a.Close? {
      WithoutMembers(c.attached, a.sid);
    }
  }

  /** Every session a task refers to stays known, so no step is disabled for want of one. */
  lemma StepKeepsReferences(s: State, step: Step)
    requires Enabled(s, step) && ReferencesOk(s)
    ensures ReferencesOk(Next(s, step))
  {
    var t := Next(s, step);
    assert s.sessions.Keys <= t.sessions.Keys;
    forall cid | cid in t.connections
      ensures ConnectionOk(t, t.connections[cid])
    {
      if step.ConnStep? && step.cid == cid && step.action != Connect {
        var c := s.connections[cid];
        var x := if Subject(c).Some? then s.sessions[Subject(c).value] else NEW_SESSION;
        ConnectionAfterOk(s, t, c, x, step.action);
      } else if cid in s.connections {
        assert ConnectionOk(s, s.connections[cid]);
      }
    }
  }

  lemma {:induction false} ReferencesStayValid(s: State, steps: seq<Step>)
    requires IsRun(s, steps) && ReferencesOk(s)
    ensures ReferencesOk(Final(s, steps))
    decreases |steps|
  {
    if steps != [] {
      StepKeepsReferences(s, steps[0]);
      ReferencesStayValid(Next(s, steps[0]), steps[1..]);
    }
  }

  // ---------------------------------------------------------------------------------------
  // Attachments
  // ---------------------------------------------------------------------------------------

  /** The connection has taken the session over and has not yet read the epoch of its pump. */
  predicate Attaching(c: Connection, sid: SessionId) {
    (c.phase.Claimed? || c.phase.Bumped? || c.phase.Replied? || c.phase.FoundAgain?) && c.phase.sid == sid
  }

  /** The connection answers for the attachment: it is in the middle of this attach, or will detach the
  session when it goes. */
  predicate Holds(c: Connection, sid: SessionId) {
    sid in c.attached || Attaching(c, sid)
  }

  predicate IsHeld(s: State, sid: SessionId) {
    exists cid <- s.connections :: Holds(s.connections[cid], sid)
  }

  predicate NoOrphans(s: State) {
    forall sid <- s.registered :: sid in s.sessions && s.sessions[sid].state == Attached ==> IsHeld(s, sid)
  }

  lemma HolderKeepsHolding(s: State, c: Connection, x: Session, a: ConnAction, sid: SessionId)
    requires ConnEnabled(c, a) && ConnectionOk(s, c) && Holds(c, sid)
    requires a.Close? ==> a.sid != sid
    requires Subject(c) == Some(sid) ==> SessionEffect(c, x, a).state == Attached && sid in s.registered
    requires sid in s.registered
    ensures Holds(ConnectionAfter(s, c, x, a), sid)
  {
    if a == Release && c.phase.Releasing? {
      WithoutMembers(c.attached, c.phase.sid);
    } else if a.Close? {
      WithoutMembers(c.attached, a.sid);
    } else if (a == Release || a == CleanNext) && c.attached != [] {
      assert c.attached == [c.attached[0]] + c.attached[1..];
    }
  }

  lemma StepKeepsHolders(s: State, step: Step, sid: SessionId)
    requires Enabled(s, step) && ReferencesOk(s) && NoOrphans(s)
    requires sid in Next(s, step).registered && Next(s, step).sessions[sid].state == Attached
    ensures IsHeld(Next(s, step), sid)
  {
    var t := Next(s, step);
    if step.ConnStep? && step.action == Claim && Subject(s.connections[step.cid]) == Some(sid)
       && s.sessions[sid].state != Attached {
      assert Holds(t.connections[step.cid], sid);
    } else {
      assert s.sessions[sid].state == Attached;
      var cid :| cid in s.connections && Holds(s.connections[cid], sid);
      if step.ConnStep? && step.cid == cid {
        var c := s.connections[cid];
        var x := if Subject(c).Some? then s.sessions[Subject(c).value] else NEW_SESSION;
        assert ConnectionOk(s, c);
        HolderKeepsHolding(s, c, x, step.action, sid);
      }
      assert Holds(t.connections[cid], sid);
    }
  }

  lemma {:induction false} AttachmentsStayHeld(s: State, steps: seq<Step>)
    requires IsRun(s, steps) && ReferencesOk(s) && NoOrphans(s)
    ensures ReferencesOk(Final(s, steps)) && NoOrphans(Final(s, steps))
    decreases |steps|
  {
    if steps != [] {
      var t := Next(s, steps[0]);
      StepKeepsReferences(s, steps[0]);
      forall sid | sid in t.registered && t.sessions[sid].state == Attached
        ensures IsHeld(t, sid)
      {
        StepKeepsHolders(s, steps[0], sid);
      }
      AttachmentsStayHeld(t, steps[1..]);
    }
  }

  /** No attachment is orphaned, whichever connections attach and detach a session: in every reachable
  state an attached session that is still registered is held by a connection that is not gone. */
  lemma NoAttachmentIsOrphaned(steps: seq<Step>, sid: SessionId)
    requires IsRun(INITIAL, steps)
    requires sid in Final(INITIAL, steps).registered
    ensures var s := Final(INITIAL, steps);
            && sid in s.sessions
            && (s.sessions[sid].state == Attached ==>
                  exists cid <- s.connections :: Holds(s.connections[cid], sid) && s.connections[cid].phase != Gone)
  {
    AttachmentsStayHeld(INITIAL, steps);
    var s := Final(INITIAL, steps);
    if s.sessions[sid].state == Attached {
      assert IsHeld(s, sid);
      var cid :| cid in s.connections && Holds(s.connections[cid], sid);
      assert ConnectionOk(s, s.connections[cid]);
    }
  }

  /** Once every connection is gone, any registered session that is not lost can be attached again: a new
  connection that finds and claims it succeeds. */
  lemma ReattachAfterCleanup(steps: seq<Step>, sid: SessionId, cid: ConnectionId, since: nat)
    requires IsRun(INITIAL, steps)
    requires var s := Final(INITIAL, steps);
             && (forall c <- s.connections :: s.connections[c].phase == Gone)
             && sid in s.registered && sid in s.sessions && s.sessions[sid].state != Lost
             && cid !in s.connections
    ensures var s := Final(INITIAL, steps);
            && Enabled(s, ConnStep(cid, Connect))
            && var s1 := Next(s, ConnStep(cid, Connect));
            && Enabled(s1, ConnStep(cid, Find(sid, since)))
            && var s2 := Next(s1, ConnStep(cid, Find(sid, since)));
            && Enabled(s2, ConnStep(cid, Claim))
            && var s3 := Next(s2, ConnStep(cid, Claim));
            && s3.sessions[sid].state == Attached
            && s3.connections[cid].phase == Claimed(sid, since)
  {
    var s := Final(INITIAL, steps);
    if s.sessions[sid].state == Attached {
      NoAttachmentIsOrphaned(steps, sid);
    }
  }
}
