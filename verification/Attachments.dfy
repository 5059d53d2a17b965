/** Whose attachment the cleanup of a connection ends (agentd/src/rpc.rs, agentd/src/session.rs). */
module Attachments {
  import opened Bytes
  import opened DaemonSession
  import opened SessionSafety

  /** What became of a connection's last attachment of a session: it holds, or it was released, by which
  connection, and whether in a cleanup. */
  datatype Last = Never | Lasts | ReleasedBy(who: ConnectionId, cleaning: bool)

  /** The connection that attached the session last, while the attachment lasts; and the last attachment of
  one connection. */
  datatype Watch = Watch(owner: Option<ConnectionId>, last: Last)

  const NOTHING_YET := Watch(None, Never)

  predicate Claims(s: State, step: Step, sid: SessionId)
    requires Enabled(s, step)
  {
    && step.ConnStep? && step.action == Claim
    && Subject(s.connections[step.cid]) == Some(sid)
    && (s.sessions[sid].state == Created || s.sessions[sid].state == Detached)
  }

  predicate Releases(s: State, step: Step, sid: SessionId)
    requires Enabled(s, step)
  {
    && step.ConnStep? && step.action == Release
    && Subject(s.connections[step.cid]) == Some(sid)
    && s.sessions[sid].state == Attached
  }

  function Watched(w: Watch, s: State, step: Step, sid: SessionId, me: ConnectionId): Watch
    requires Enabled(s, step)
  {
    if Claims(s, step, sid) then Watch(Some(step.cid), if step.cid == me then Lasts else w.last)
    else if Releases(s, step, sid) then
      Watch(None,
            if w.last == Lasts then ReleasedBy(step.cid, s.connections[step.cid].phase == CleaningOne) else w.last)
    else w
  }

  function WatchOf(s: State, steps: seq<Step>, w: Watch, sid: SessionId, me: ConnectionId): Watch
    requires IsRun(s, steps)
    decreases |steps|
  {
    if steps == [] then w else WatchOf(Next(s, steps[0]), steps[1..], Watched(w, s, steps[0], sid, me), sid, me)
  }

  // ---------------------------------------------------------------------------------------
  // The invariant
  // ---------------------------------------------------------------------------------------

  predicate OwnerOk(s: State, w: Watch, sid: SessionId, me: ConnectionId) {
    && (w.owner.Some? ==> sid in s.sessions && s.sessions[sid].state in {Attached, Lost})
    && (sid in s.sessions && s.sessions[sid].state == Attached ==> w.owner.Some?)
    && (w.last == Lasts <==> w.owner == Some(me))
  }

  predicate IsLeaving(c: Connection) {
    c.phase == Cleaning || c.phase == CleaningOne || c.phase == Gone
  }

  /** A connection that still has the session in its list did not detach its last attachment itself. */
  predicate HeldOk(s: State, w: Watch, sid: SessionId, me: ConnectionId) {
    me in s.connections && Holds(s.connections[me], sid) ==> w.last != Never && w.last != ReleasedBy(me, false)
  }

  /** One that released it in a cleanup is on its way out. */
  predicate LeavingOk(s: State, w: Watch, me: ConnectionId) {
    w.last == ReleasedBy(me, true) ==> me in s.connections && IsLeaving(s.connections[me])
  }

  predicate StartsPumpFor(c: Connection, sid: SessionId) {
    c.phase.Answering? && c.phase.sid == sid
  }

  /** A connection that has started a pump for the session, or is about to, has attached it. */
  predicate PumpsWatched(s: State, w: Watch, sid: SessionId, me: ConnectionId) {
    && (me in s.connections && StartsPumpFor(s.connections[me], sid) ==> w.last != Never)
    && (forall i :: 0 <= i < |s.pumps| && s.pumps[i].sid == sid && s.pumps[i].cid == me ==> w.last != Never)
  }

  predicate WatchOk(s: State, w: Watch, sid: SessionId, me: ConnectionId) {
    OwnerOk(s, w, sid, me) && HeldOk(s, w, sid, me) && LeavingOk(s, w, me) && PumpsWatched(s, w, sid, me)
  }

  lemma StepKeepsOwner(s: State, step: Step, w: Watch, sid: SessionId, me: ConnectionId)
    requires Enabled(s, step) && OwnerOk(s, w, sid, me)
    ensures OwnerOk(Next(s, step), Watched(w, s, step, sid, me), sid, me)
  {
  }

  lemma OwnStepKeepsHolds(s: State, me: ConnectionId, a: ConnAction, w: Watch, sid: SessionId)
    requires Enabled(s, ConnStep(me, a)) && a != Connect && WatchOk(s, w, sid, me)
    ensures HeldOk(Next(s, ConnStep(me, a)), Watched(w, s, ConnStep(me, a), sid, me), sid, me)
  {
    var c := s.connections[me];
    if a == Release && c.phase.Releasing? {
      WithoutMembers(c.attached, c.phase.sid);
    } else if a.Close? {
      WithoutMembers(c.attached, a.sid);
    }
  }

  lemma StepKeepsLeaving(s: State, step: Step, w: Watch, sid: SessionId, me: ConnectionId)
    requires Enabled(s, step) && LeavingOk(s, w, me)
    ensures LeavingOk(Next(s, step), Watched(w, s, step, sid, me), me)
  {
  }

  lemma StepKeepsPumpsWatched(s: State, step: Step, w: Watch, sid: SessionId, me: ConnectionId)
    requires Enabled(s, step) && WatchOk(s, w, sid, me)
    ensures PumpsWatched(Next(s, step), Watched(w, s, step, sid, me), sid, me)
  {
    var t := Next(s, step);
    forall i | 0 <= i < |t.pumps| && t.pumps[i].sid == sid && t.pumps[i].cid == me
      ensures w.last != Never
    {
      if i < |s.pumps| {
        assert s.pumps[i].sid == sid && s.pumps[i].cid == me;
      }
    }
  }

  lemma StepKeepsWatch(s: State, step: Step, w: Watch, sid: SessionId, me: ConnectionId)
    requires Enabled(s, step) && WatchOk(s, w, sid, me)
    ensures WatchOk(Next(s, step), Watched(w, s, step, sid, me), sid, me)
  {
    StepKeepsOwner(s, step, w, sid, me);
    StepKeepsLeaving(s, step, w, sid, me);
    StepKeepsPumpsWatched(s, step, w, sid, me);
    if step.ConnStep? && step.cid == me && step.action != Connect {
      OwnStepKeepsHolds(s, me, step.action, w, sid);
    }
  }

  lemma {:induction false} WatchStaysOk(s: State, steps: seq<Step>, w: Watch, sid: SessionId, me: ConnectionId)
    requires IsRun(s, steps) && WatchOk(s, w, sid, me)
    ensures WatchOk(Final(s, steps), WatchOf(s, steps, w, sid, me), sid, me)
    decreases |steps|
  {
    if steps != [] {
      StepKeepsWatch(s, steps[0], w, sid, me);
      WatchStaysOk(Next(s, steps[0]), steps[1..], Watched(w, s, steps[0], sid, me), sid, me);
    }
  }

  // ---------------------------------------------------------------------------------------
  // The theorem
  // ---------------------------------------------------------------------------------------

  /** In every run: a connection that is about to clean up an entry for an attached session ends that
  attachment. It is another connection's exactly when this connection's own last attachment of the session
  had been released before, by another connection or by its own cleanup of an earlier entry. */
  lemma CleanupEndsAnothersExactly(steps: seq<Step>, me: ConnectionId, sid: SessionId)
    requires IsRun(INITIAL, steps)
    requires var s := Final(INITIAL, steps);
             && me in s.connections && s.connections[me].phase == CleaningOne
             && Subject(s.connections[me]) == Some(sid) && sid in s.sessions && s.sessions[sid].state == Attached
    ensures var s := Final(INITIAL, steps);
            var w := WatchOf(INITIAL, steps, NOTHING_YET, sid, me);
            && Enabled(s, ConnStep(me, Release))
            && Next(s, ConnStep(me, Release)).sessions[sid].state == Detached
            && w.owner.Some?
            && (w.owner.value != me <==> w.last.ReleasedBy? && (w.last.who != me || w.last.cleaning))
  {
    WatchStaysOk(INITIAL, steps, NOTHING_YET, sid, me);
    assert sid in Final(INITIAL, steps).connections[me].attached;
  }
}
