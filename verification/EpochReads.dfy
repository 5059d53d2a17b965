/** Exactly which pumps share an epoch, and which are superseded (agentd/src/rpc.rs, agentd/src/session.rs). */
module EpochReads {
  // It is a matter of where in the run the epoch was bumped and where it was read.

  import opened Bytes
  import opened DaemonSession
  import opened SessionSafety
  import opened PumpEpochs

  /** What is noted of a run about one session: the positions of the steps that bump its epoch. And of all
  sessions: where each connection last read an epoch, and where the epoch of each pump was read. */
  datatype Notes = Notes(bumps: seq<nat>, latest: map<ConnectionId, nat>, taken: seq<nat>)

  const NO_NOTES := Notes([], map[], [])

  function Noted(r: Notes, s: State, step: Step, at: nat, sid: SessionId): Notes
    requires Enabled(s, step)
  {
    if !step.ConnStep? then r
    else
      var cid := step.cid;
      match step.action
      case TakeEpoch => r.(latest := r.latest[cid := at])
      case Answer(ok) => if ok then r.(taken := r.taken + [if cid in r.latest then r.latest[cid] else 0]) else r
      case Bump => if Subject(s.connections[cid]) == Some(sid) then r.(bumps := r.bumps + [at]) else r
      case _ => r
  }

  /** The notes of a run whose first step has position `at`. */
  function NotesOf(s: State, steps: seq<Step>, at: nat, r: Notes, sid: SessionId): Notes
    requires IsRun(s, steps)
    decreases |steps|
  {
    if steps == [] then r
    else NotesOf(Next(s, steps[0]), steps[1..], at + 1, Noted(r, s, steps[0], at, sid), sid)
  }

  predicate BumpedIn(bumps: seq<nat>, from: nat, to: nat) {
    exists i :: 0 <= i < |bumps| && from <= bumps[i] < to
  }

  // ---------------------------------------------------------------------------------------
  // An epoch is the number of bumps before it was read
  // ---------------------------------------------------------------------------------------

  function Before(bumps: seq<nat>, at: nat): (n: nat)
    ensures n <= |bumps|
  {
    if bumps == [] then 0
    else Before(bumps[..|bumps| - 1], at) + if bumps[|bumps| - 1] < at then 1 else 0
  }

  lemma {:induction false} SameCount(bumps: seq<nat>, from: nat, to: nat)
    requires from <= to
    ensures Before(bumps, from) <= Before(bumps, to)
    ensures Before(bumps, from) == Before(bumps, to) <==> !BumpedIn(bumps, from, to)
  {
    if bumps != [] {
      var init, last := bumps[..|bumps| - 1], bumps[|bumps| - 1];
      SameCount(init, from, to);
      if BumpedIn(init, from, to) {
        var i :| 0 <= i < |init| && from <= init[i] < to;
        assert bumps[i] == init[i];
      } else if from <= last < to {
        assert bumps[|bumps| - 1] == last;
      }
    }
  }

  lemma {:induction false} AllBefore(bumps: seq<nat>, at: nat)
    requires forall i :: 0 <= i < |bumps| ==> bumps[i] < at
    ensures Before(bumps, at) == |bumps|
  {
    if bumps != [] {
      AllBefore(bumps[..|bumps| - 1], at);
    }
  }

  lemma BeforeSnoc(bumps: seq<nat>, at: nat, k: nat)
    requires k <= at
    ensures Before(bumps + [at], k) == Before(bumps, k)
  {
    assert (bumps + [at])[..|bumps|] == bumps;
  }

  predicate EpochCounts(s: State, r: Notes, at: nat, sid: SessionId) {
    && (forall i :: 0 <= i < |r.bumps| ==> r.bumps[i] < at)
    && (if sid in s.sessions then s.sessions[sid].epoch == |r.bumps| else r.bumps == [])
  }

  predicate AnswerCounts(r: Notes, cid: ConnectionId, c: Connection, at: nat, sid: SessionId) {
    c.phase.Answering? ==>
      && cid in r.latest && r.latest[cid] < at
      && (c.phase.sid == sid ==> c.phase.epoch == Before(r.bumps, r.latest[cid]))
  }

  predicate PumpCounts(r: Notes, i: nat, p: Pump, at: nat, sid: SessionId) {
    i < |r.taken| && r.taken[i] < at && (p.sid == sid ==> p.epoch == Before(r.bumps, r.taken[i]))
  }

  predicate NotesOk(s: State, r: Notes, at: nat, sid: SessionId) {
    && EpochCounts(s, r, at, sid)
    && (forall cid <- s.connections :: AnswerCounts(r, cid, s.connections[cid], at, sid))
    && |r.taken| == |s.pumps|
    && (forall i :: 0 <= i < |s.pumps| ==> PumpCounts(r, i, s.pumps[i], at, sid))
  }

  lemma StepKeepsCount(s: State, step: Step, r: Notes, at: nat, sid: SessionId)
    requires Enabled(s, step) && NotesOk(s, r, at, sid)
    ensures EpochCounts(Next(s, step), Noted(r, s, step, at, sid), at + 1, sid)
  {
  }

  /** A connection that answers has just read the epoch, or answered before. */
  lemma AnsweringOrigin(s: State, step: Step, cid: ConnectionId)
    requires Enabled(s, step) && cid in Next(s, step).connections && Next(s, step).connections[cid].phase.Answering?
    ensures cid in s.connections
    ensures var phase := Next(s, step).connections[cid].phase;
            if step == ConnStep(cid, TakeEpoch)
            then phase.sid in s.sessions && phase.epoch == s.sessions[phase.sid].epoch
            else s.connections[cid].phase == phase
  {
  }

  lemma AnswerStays(r: Notes, q: Notes, cid: ConnectionId, c: Connection, d: Connection, at: nat, sid: SessionId)
    requires AnswerCounts(r, cid, c, at, sid) && (d.phase.Answering? ==> c.phase == d.phase)
    requires cid in r.latest ==> cid in q.latest && q.latest[cid] == r.latest[cid]
    requires q.bumps == r.bumps || q.bumps == r.bumps + [at]
    ensures AnswerCounts(q, cid, d, at + 1, sid)
  {
    if d.phase.Answering? {
      BeforeSnoc(r.bumps, at, r.latest[cid]);
    }
  }

  lemma StepKeepsAnswers(s: State, step: Step, r: Notes, at: nat, sid: SessionId, cid: ConnectionId)
    requires Enabled(s, step) && NotesOk(s, r, at, sid) && cid in Next(s, step).connections
    ensures AnswerCounts(Noted(r, s, step, at, sid), cid, Next(s, step).connections[cid], at + 1, sid)
  {
    var d, q := Next(s, step).connections[cid], Noted(r, s, step, at, sid);
    if d.phase.Answering? {
      AnsweringOrigin(s, step, cid);
      if step == ConnStep(cid, TakeEpoch) {
        AllBefore(r.bumps, at);
      } else {
        AnswerStays(r, q, cid, s.connections[cid], d, at, sid);
      }
    }
  }

  lemma StepKeepsCounts(s: State, step: Step, r: Notes, at: nat, sid: SessionId, i: nat)
    requires Enabled(s, step) && NotesOk(s, r, at, sid) && i < |Next(s, step).pumps|
    ensures PumpCounts(Noted(r, s, step, at, sid), i, Next(s, step).pumps[i], at + 1, sid)
  {
    if i < |s.pumps| {
      assert PumpCounts(r, i, s.pumps[i], at, sid);
      BeforeSnoc(r.bumps, at, r.taken[i]);
    } else {
      assert AnswerCounts(r, step.cid, s.connections[step.cid], at, sid);
    }
  }

  lemma {:induction false} NotesStayOk(s: State, steps: seq<Step>, at: nat, r: Notes, sid: SessionId)
    requires IsRun(s, steps) && NotesOk(s, r, at, sid)
    ensures NotesOk(Final(s, steps), NotesOf(s, steps, at, r, sid), at + |steps|, sid)
    decreases |steps|
  {
    if steps != [] {
      var t, q := Next(s, steps[0]), Noted(r, s, steps[0], at, sid);
      StepKeepsCount(s, steps[0], r, at, sid);
      forall cid | cid in t.connections
        ensures AnswerCounts(q, cid, t.connections[cid], at + 1, sid)
      {
        StepKeepsAnswers(s, steps[0], r, at, sid, cid);
      }
      forall i | 0 <= i < |t.pumps|
        ensures PumpCounts(q, i, t.pumps[i], at + 1, sid)
      {
        StepKeepsCounts(s, steps[0], r, at, sid, i);
      }
      NotesStayOk(t, steps[1..], at + 1, q, sid);
    }
  }

  // ---------------------------------------------------------------------------------------
  // The theorems
  // ---------------------------------------------------------------------------------------

  /** In every run, two pumps of one session carry the same epoch exactly when no attach has bumped it between
  the two steps that read their epochs. */
  lemma SharedEpochsExactly(steps: seq<Step>, i: nat, j: nat)
    requires IsRun(INITIAL, steps)
    requires var s := Final(INITIAL, steps);
             i < |s.pumps| && j < |s.pumps| && s.pumps[i].sid == s.pumps[j].sid
    ensures var s := Final(INITIAL, steps);
            var r := NotesOf(INITIAL, steps, 0, NO_NOTES, s.pumps[i].sid);
            && |r.taken| == |s.pumps|
            && (s.pumps[i].epoch == s.pumps[j].epoch
                <==> !BumpedIn(r.bumps, Min(r.taken[i], r.taken[j]), Max(r.taken[i], r.taken[j])))
  {
    var s := Final(INITIAL, steps);
    var sid := s.pumps[i].sid;
    NotesStayOk(INITIAL, steps, 0, NO_NOTES, sid);
    var r := NotesOf(INITIAL, steps, 0, NO_NOTES, sid);
    assert PumpCounts(r, i, s.pumps[i], |steps|, sid) && PumpCounts(r, j, s.pumps[j], |steps|, sid);
    SameCount(r.bumps, Min(r.taken[i], r.taken[j]), Max(r.taken[i], r.taken[j]));
  }

  /** In every run, a pump is superseded exactly when its session's epoch was bumped after the step that read
  the pump's. */
  lemma SupersededExactly(steps: seq<Step>, i: nat)
    requires IsRun(INITIAL, steps) && i < |Final(INITIAL, steps).pumps|
    ensures var s := Final(INITIAL, steps);
            var r := NotesOf(INITIAL, steps, 0, NO_NOTES, s.pumps[i].sid);
            && |r.taken| == |s.pumps|
            && (Superseded(s, i) <==> BumpedIn(r.bumps, r.taken[i], |steps|))
  {
    var s := Final(INITIAL, steps);
    var sid := s.pumps[i].sid;
    NotesStayOk(INITIAL, steps, 0, NO_NOTES, sid);
    ReferencesStayValid(INITIAL, steps);
    var r := NotesOf(INITIAL, steps, 0, NO_NOTES, sid);
    assert PumpCounts(r, i, s.pumps[i], |steps|, sid);
    SameCount(r.bumps, r.taken[i], |steps|);
    AllBefore(r.bumps, |steps|);
  }

  /** Of two pumps of one session at most one is not superseded, exactly when the epoch was bumped after the
  earlier of the two steps that read their epochs. */
  lemma OneCurrentExactly(steps: seq<Step>, i: nat, j: nat)
    requires IsRun(INITIAL, steps)
    requires var s := Final(INITIAL, steps);
             i < |s.pumps| && j < |s.pumps| && s.pumps[i].sid == s.pumps[j].sid
    ensures var s := Final(INITIAL, steps);
            var r := NotesOf(INITIAL, steps, 0, NO_NOTES, s.pumps[i].sid);
            && |r.taken| == |s.pumps|
            && (Superseded(s, i) || Superseded(s, j)
                <==> BumpedIn(r.bumps, Min(r.taken[i], r.taken[j]), |steps|))
  {
    SupersededExactly(steps, i);
    SupersededExactly(steps, j);
    var s := Final(INITIAL, steps);
    var r := NotesOf(INITIAL, steps, 0, NO_NOTES, s.pumps[i].sid);
    SameCount(r.bumps, Min(r.taken[i], r.taken[j]), r.taken[i]);
    SameCount(r.bumps, Min(r.taken[i], r.taken[j]), r.taken[j]);
  }

  /** When attaches of a session do not overlap, at most one pump carries the session's current epoch, in
  every reachable state: all others are superseded. */
  lemma OnePumpPerEpoch(steps: seq<Step>, i: nat, j: nat)
    requires IsRun(INITIAL, steps) && AttachesAreSerial(INITIAL, steps)
    requires var s := Final(INITIAL, steps);
             i < |s.pumps| && j < |s.pumps| && i != j && s.pumps[i].sid == s.pumps[j].sid
    ensures var s := Final(INITIAL, steps);
            Superseded(s, i) || Superseded(s, j)
  {
    var s := Final(INITIAL, steps);
    EpochsStayOk(INITIAL, steps);
    assert Ticket(s, PumpHolder(i)) == Some((s.pumps[i].sid, s.pumps[i].epoch));
    assert Ticket(s, PumpHolder(j)) == Some((s.pumps[j].sid, s.pumps[j].epoch));
  }

  /** A superseded pump stays superseded, and sends at most the rest of its iteration, in every continuation. */
  lemma {:induction false} SupersededPumpStops(s: State, steps: seq<Step>, i: nat)
    requires IsRun(s, steps) && SessionsOk(s) && Superseded(s, i)
    ensures var t := Final(s, steps);
            && Superseded(t, i)
            && s.pumps[i].events <= t.pumps[i].events
            && RestOfIteration(s.pumps[i], t.pumps[i].events[|s.pumps[i].events|..])
    decreases |steps|
  {
    if steps != [] {
      var t := Next(s, steps[0]);
      SupersededStep(s, steps[0], i);
      StepKeepsSessions(s, steps[0]);
      SupersededPumpStops(t, steps[1..], i);
      IterationStep(s, steps[0], i, Final(t, steps[1..]).pumps[i].events);
    }
  }
}
