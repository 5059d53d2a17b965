/** Runs of the daemon that show why the theorems on pumps and attachments carry the conditions they do.

All of them are about session 0, which has no output until a run says so, and the two connections 1
and 2. A run is built one step at a time: `Reaches` says which state it has reached, and the lemmas
below add an attach, a detach, a cleanup or the steps of a pump to it.

The states that several runs go through are constants. */
module DaemonRuns {
  import opened Bytes
  import opened DaemonBuffer
  import opened DaemonSession
  import opened PumpStream
  import opened PumpEpochs

  predicate Reaches(steps: seq<Step>, t: State) {
    IsRun(INITIAL, steps) && Final(INITIAL, steps) == t
  }

  lemma {:induction false} RunSnoc(s: State, steps: seq<Step>, step: Step)
    requires IsRun(s, steps) && Enabled(Final(s, steps), step)
    ensures IsRun(s, steps + [step]) && Final(s, steps + [step]) == Next(Final(s, steps), step)
    decreases |steps|
  {
    if steps == [] {
      assert (steps + [step])[1..] == [];
    } else {
      assert (steps + [step])[1..] == steps[1..] + [step];
      RunSnoc(Next(s, steps[0]), steps[1..], step);
    }
  }

  lemma OneMore(steps: seq<Step>, s: State, step: Step, t: State) returns (longer: seq<Step>)
    requires Reaches(steps, s) && Enabled(s, step) && Next(s, step) == t
    ensures Reaches(longer, t)
  {
    RunSnoc(INITIAL, steps, step);
    longer := steps + [step];
  }

  const NO_DATA := SinceResult(0, 0, false, [])
  const IDLE := Connection(Idle, [])

  function Moved(s: State, cid: ConnectionId, c: Connection): State {
    s.(connections := s.connections[cid := c])
  }

  function WithSession(s: State, x: Session): State {
    s.(sessions := s.sessions[0 := x])
  }

  lemma Single<T>(x: T)
    ensures [] + [x] == [x]
  {
  }

  lemma SameEntry<K, V>(m: map<K, V>, k: K)
    requires k in m
    ensures m[k := m[k]] == m
  {
  }

  /** A step of a connection that changes nothing but the connection. */
  lemma Quietly(steps: seq<Step>, s: State, cid: ConnectionId, a: ConnAction, d: Connection)
    returns (longer: seq<Step>)
    requires Reaches(steps, s) && Enabled(s, ConnStep(cid, a)) && a != Connect && !a.Close? && a != Answer(true)
    requires var c := s.connections[cid];
             var x := if Subject(c).Some? then s.sessions[Subject(c).value] else NEW_SESSION;
             SessionEffect(c, x, a) == x && ConnectionAfter(s, c, x, a) == d
    ensures Reaches(longer, Moved(s, cid, d))
  {
    var c := s.connections[cid];
    if Subject(c).Some? {
      SameEntry(s.sessions, Subject(c).value);
    }
    longer := OneMore(steps, s, ConnStep(cid, a), Moved(s, cid, d));
  }

  /** A step of a connection on session 0. */
  lemma OnSession(steps: seq<Step>, s: State, cid: ConnectionId, a: ConnAction, y: Session, d: Connection)
    returns (longer: seq<Step>)
    requires Reaches(steps, s) && Enabled(s, ConnStep(cid, a)) && a in {Claim, Bump, Release}
    requires var c := s.connections[cid];
             && Subject(c) == Some(0)
             && SessionEffect(c, s.sessions[0], a) == y && ConnectionAfter(s, c, s.sessions[0], a) == d
    ensures Reaches(longer, WithSession(Moved(s, cid, d), y))
  {
    longer := OneMore(steps, s, ConnStep(cid, a), WithSession(Moved(s, cid, d), y));
  }

  /** One new session and two idle connections. */
  const START := State(map[0 := NEW_SESSION], {0}, map[1 := IDLE, 2 := IDLE], [])

  lemma Start() returns (steps: seq<Step>)
    ensures Reaches(steps, START)
  {
    var s1 := State(map[0 := NEW_SESSION], {0}, map[], []);
    steps := OneMore([], INITIAL, Create(0), s1);
    var s2 := State(map[0 := NEW_SESSION], {0}, map[1 := IDLE], []);
    steps := OneMore(steps, s1, ConnStep(1, Connect), s2);
    steps := OneMore(steps, s2, ConnStep(2, Connect), START);
  }

  predicate Waits(s: State, cid: ConnectionId, c: Connection) {
    0 in s.sessions && 0 in s.registered && cid in s.connections && s.connections[cid] == c
  }

  /** An attach from finding the session to having taken it over, by a connection that has `held` in its list. */
  lemma TakeOver(steps0: seq<Step>, s: State, cid: ConnectionId, held: seq<SessionId>) returns (steps: seq<Step>)
    requires Reaches(steps0, s) && Waits(s, cid, Connection(Idle, held))
    requires s.sessions[0].state == Created || s.sessions[0].state == Detached
    ensures Reaches(
              steps, WithSession(Moved(s, cid, Connection(Claimed(0, 0), held)), s.sessions[0].(state := Attached)))
  {
    var found, claimed := Connection(Found(0, 0), held), Connection(Claimed(0, 0), held);
    steps := Quietly(steps0, s, cid, Find(0, 0), found);
    var s1 := Moved(s, cid, found);
    steps := OnSession(steps, s1, cid, Claim, s.sessions[0].(state := Attached), claimed);
    assert Moved(s1, cid, claimed) == Moved(s, cid, claimed);
  }

  lemma Detaches(steps0: seq<Step>, s: State, cid: ConnectionId) returns (steps: seq<Step>)
    requires Reaches(steps0, s) && Waits(s, cid, IDLE) && s.sessions[0].state == Attached
    ensures Reaches(steps, WithSession(s, s.sessions[0].(state := Detached)))
  {
    var releasing := Connection(Releasing(0), []);
    steps := Quietly(steps0, s, cid, FindForDetach(0), releasing);
    var s1 := Moved(s, cid, releasing);
    assert Without([], 0) == [];
    steps := OnSession(steps, s1, cid, Release, s.sessions[0].(state := Detached), IDLE);
    SameEntry(s.connections, cid);
    assert Moved(s1, cid, IDLE) == s;
  }

  lemma Bumps(steps0: seq<Step>, s: State, cid: ConnectionId, held: seq<SessionId>) returns (steps: seq<Step>)
    requires Reaches(steps0, s) && Waits(s, cid, Connection(Claimed(0, 0), held))
    ensures Reaches(
              steps, WithSession(Moved(s, cid, Connection(Bumped(0, 0), held)), BumpNext(s.sessions[0])))
  {
    steps := OnSession(steps0, s, cid, Bump, BumpNext(s.sessions[0]), Connection(Bumped(0, 0), held));
  }

  function FirstPump(cid: ConnectionId, epoch: nat): Pump {
    Pump(0, cid, epoch, 0, NO_DATA, 0, AtCheck, [], 0, 0, 0)
  }

  /** From the bump to the running pump, for a session without output. */
  lemma FinishAttach(steps0: seq<Step>, s: State, cid: ConnectionId, held: seq<SessionId>) returns (steps: seq<Step>)
    requires Reaches(steps0, s) && Waits(s, cid, Connection(Bumped(0, 0), held)) && s.sessions[0].history == []
    ensures Reaches(
              steps,
              Moved(s, cid, Connection(Idle, held + [0])).(pumps := s.pumps + [FirstPump(cid, s.sessions[0].epoch)]))
  {
    var epoch := s.sessions[0].epoch;
    var c1, c2 := Connection(Replied(0, 0, NO_DATA), held), Connection(FoundAgain(0, 0, NO_DATA), held);
    steps := Quietly(steps0, s, cid, ReadBuffer, c1);
    var s1 := Moved(s, cid, c1);
    steps := Quietly(steps, s1, cid, FindAgain, c2);
    steps := Answers(steps, Moved(s1, cid, c2), cid, held);
    assert Moved(Moved(s1, cid, c2), cid, Connection(Idle, held + [0])) == Moved(s, cid, Connection(Idle, held + [0]));
  }

  lemma Answers(steps0: seq<Step>, s: State, cid: ConnectionId, held: seq<SessionId>) returns (steps: seq<Step>)
    requires Reaches(steps0, s) && Waits(s, cid, Connection(FoundAgain(0, 0, NO_DATA), held))
    ensures Reaches(
              steps,
              Moved(s, cid, Connection(Idle, held + [0])).(pumps := s.pumps + [FirstPump(cid, s.sessions[0].epoch)]))
  {
    var epoch := s.sessions[0].epoch;
    var answering := Connection(Answering(0, 0, NO_DATA, epoch), held + [0]);
    var idle := Connection(Idle, held + [0]);
    steps := Quietly(steps0, s, cid, TakeEpoch, answering);
    var s1 := Moved(s, cid, answering);
    SameEntry(s1.sessions, 0);
    assert s1.connections[cid := idle] == s.connections[cid := idle];
    steps := OneMore(
      steps, s1, ConnStep(cid, Answer(true)), Moved(s, cid, idle).(pumps := s.pumps + [FirstPump(cid, epoch)]));
  }

  /** A whole attach, for a session without output that nobody is attached to. */
  lemma Attaches(steps0: seq<Step>, s: State, cid: ConnectionId, held: seq<SessionId>) returns (steps: seq<Step>)
    requires Reaches(steps0, s) && Waits(s, cid, Connection(Idle, held)) && s.sessions[0].history == []
    requires s.sessions[0].state == Created || s.sessions[0].state == Detached
    ensures var x := BumpNext(s.sessions[0].(state := Attached));
            Reaches(
              steps,
              WithSession(Moved(s, cid, Connection(Idle, held + [0])), x)
              .(pumps := s.pumps + [FirstPump(cid, x.epoch)]))
  {
    var x := s.sessions[0].(state := Attached);
    var claimed, bumped := Connection(Claimed(0, 0), held), Connection(Bumped(0, 0), held);
    steps := TakeOver(steps0, s, cid, held);
    var s1 := WithSession(Moved(s, cid, claimed), x);
    steps := Bumps(steps, s1, cid, held);
    var s2 := WithSession(Moved(s, cid, bumped), BumpNext(x));
    assert WithSession(Moved(s1, cid, bumped), BumpNext(x)) == s2;
    steps := FinishAttach(steps, s2, cid, held);
    var done := Connection(Idle, held + [0]);
    assert Moved(s2, cid, done) == WithSession(Moved(s, cid, done), BumpNext(x));
  }

  const ATTACHED := NEW_SESSION.(state := Attached)
  const DONE := Connection(Idle, [0])

  /** Connection 1 has attached the session. */
  const ATTACHED_ONCE := State(
    map[0 := ATTACHED.(epoch := 1)], {0}, map[1 := DONE, 2 := IDLE], [FirstPump(1, 1)])

  lemma AttachOnce() returns (steps: seq<Step>)
    ensures Reaches(steps, ATTACHED_ONCE)
  {
    steps := Start();
    Single<SessionId>(0);
    Single(FirstPump(1, 1));
    steps := Attaches(steps, START, 1, []);
    assert START.connections[1 := DONE] == map[1 := DONE, 2 := IDLE];
    assert START.sessions[0 := ATTACHED.(epoch := 1)] == map[0 := ATTACHED.(epoch := 1)];
  }

  /** Connection 1 has attached the session again, after connection 2 detached it. */
  const ATTACHED_TWICE := State(
    map[0 := ATTACHED.(epoch := 2)], {0}, map[1 := Connection(Idle, [0, 0]), 2 := IDLE],
    [FirstPump(1, 1), FirstPump(1, 2)])

  lemma AttachTwice() returns (steps: seq<Step>)
    ensures Reaches(steps, ATTACHED_TWICE)
  {
    steps := AttachOnce();
    steps := Detaches(steps, ATTACHED_ONCE, 2);
    steps := Attaches(steps, WithSession(ATTACHED_ONCE, ATTACHED.(epoch := 1, state := Detached)), 1, [0]);
    assert [0] + [0] == [0, 0];
    assert [FirstPump(1, 1)] + [FirstPump(1, 2)] == [FirstPump(1, 1), FirstPump(1, 2)];
  }

  const BOTH_BUMPED := State(
    map[0 := ATTACHED.(epoch := 2)], {0},
    map[1 := Connection(Bumped(0, 0), []), 2 := Connection(Bumped(0, 0), [])], [])

  /** Two attaches overlap, with a detach in between: both have bumped the epoch before either reads it. */
  lemma BothBump() returns (steps: seq<Step>)
    ensures Reaches(steps, BOTH_BUMPED)
  {
    var claimed, bumped := Connection(Claimed(0, 0), []), Connection(Bumped(0, 0), []);
    steps := Start();
    steps := TakeOver(steps, START, 1, []);
    var s1 := WithSession(Moved(START, 1, claimed), ATTACHED);
    steps := Detaches(steps, s1, 2);
    var s2 := WithSession(s1, ATTACHED.(state := Detached));
    steps := TakeOver(steps, s2, 2, []);
    var s3 := WithSession(Moved(s2, 2, claimed), ATTACHED);
    steps := Bumps(steps, s3, 2, []);
    var s4 := WithSession(Moved(s3, 2, bumped), BumpNext(ATTACHED));
    steps := Bumps(steps, s4, 1, []);
  }

  const BOTH_ATTACHED := State(
    map[0 := ATTACHED.(epoch := 2)], {0}, map[1 := DONE, 2 := DONE], [FirstPump(1, 2), FirstPump(2, 2)])

  lemma BothAttach() returns (steps: seq<Step>)
    ensures Reaches(steps, BOTH_ATTACHED)
  {
    Single<SessionId>(0);
    Single(FirstPump(1, 2));
    steps := BothBump();
    steps := FinishAttach(steps, BOTH_BUMPED, 1, []);
    var s := Moved(BOTH_BUMPED, 1, DONE).(pumps := [FirstPump(1, 2)]);
    steps := FinishAttach(steps, s, 2, []);
    assert [FirstPump(1, 2)] + [FirstPump(2, 2)] == [FirstPump(1, 2), FirstPump(2, 2)];
  }

  /** Two attaches of one session that overlap, with a detach in between, can both read the epoch after both
  have bumped it: two running pumps then carry the current epoch, and neither is superseded. */
  lemma OverlappingAttachesShareAnEpoch() returns (steps: seq<Step>)
    ensures IsRun(INITIAL, steps)
    ensures var s := Final(INITIAL, steps);
            && |s.pumps| == 2 && s.pumps[0].sid == s.pumps[1].sid
            && s.pumps[0].phase != Stopped && s.pumps[1].phase != Stopped
            && !Superseded(s, 0) && !Superseded(s, 1)
  {
    steps := BothAttach();
  }

  /** Connection 1 has attached the session and connection 2 detached and attached it; then connection 1 went,
  and cleaned up the entry it still had. */
  const LEFT_OVER := State(
    map[0 := ATTACHED.(epoch := 2, state := Detached)], {0}, map[1 := Connection(Cleaning, []), 2 := DONE],
    [FirstPump(1, 1), FirstPump(2, 2)])

  lemma LeaveOver() returns (steps: seq<Step>)
    ensures Reaches(steps, LEFT_OVER)
  {
    steps := AttachOnce();
    steps := Detaches(steps, ATTACHED_ONCE, 2);
    var s1 := WithSession(ATTACHED_ONCE, ATTACHED.(epoch := 1, state := Detached));
    Single<SessionId>(0);
    assert [FirstPump(1, 1)] + [FirstPump(2, 2)] == LEFT_OVER.pumps;
    steps := Attaches(steps, s1, 2, []);
    var s2 := WithSession(Moved(s1, 2, DONE), ATTACHED.(epoch := 2)).(pumps := LEFT_OVER.pumps);
    steps := Leaves(steps, s2, 1);
    assert s2.connections[1 := Connection(Cleaning, [])] == LEFT_OVER.connections;
    assert s2.sessions[0 := LEFT_OVER.sessions[0]] == LEFT_OVER.sessions;
  }

  /** A connection cleans up every session it ever attached and did not detach itself, so its going can end
  an attachment that another connection has made since. */
  lemma LeftoverEntryEndsAnothersAttachment() returns (steps: seq<Step>)
    ensures IsRun(INITIAL, steps)
    ensures var s := Final(INITIAL, steps);
            && s.connections.Keys == {1, 2} && 0 in s.sessions && 0 in s.registered
            && s.connections[2] == Connection(Idle, [0])
            && |s.pumps| == 2 && !Superseded(s, 1) && s.pumps[1].phase != Stopped
            && s.sessions[0].state == Detached
  {
    steps := LeaveOver();
  }

  /** The pump of that attachment then stops without a terminal event, although its client never detached, no
  newer attach has superseded it, and no write has failed. */
  lemma AttachmentEndsInSilence() returns (steps: seq<Step>)
    ensures IsRun(INITIAL, steps)
    ensures var s := Final(INITIAL, steps);
            && 2 in s.connections && s.connections[2] == Connection(Idle, [0])
            && 0 in s.registered
            && |s.pumps| == 2 && s.pumps[1].cid == 2 && s.pumps[1].sid == 0
            && s.pumps[1].phase == Stopped && s.pumps[1].events == [] && !Superseded(s, 1)
  {
    steps := LeaveOver();
    steps := ReadsNothing(steps, LEFT_OVER, 1, FirstPump(2, 2));
    var p := FirstPump(2, 2).(phase := AtState);
    var s := LEFT_OVER.(pumps := LEFT_OVER.pumps[1 := p]);
    var t := LEFT_OVER.(pumps := LEFT_OVER.pumps[1 := p.(phase := Stopped)]);
    assert s.pumps[1 := p.(phase := Stopped)] == t.pumps;
    steps := OneMore(steps, s, PumpStep(1, true), t);
  }

  /** The entry that is left over can be the connection's own second one: its cleanup releases the session for
  the first, another connection takes it over, and the second entry is still to come. */
  lemma SecondEntryEndsAnothersAttachment() returns (steps: seq<Step>)
    ensures IsRun(INITIAL, steps)
    ensures var s := Final(INITIAL, steps);
            && s.connections.Keys == {1, 2} && 0 in s.sessions && s.sessions[0].state == Attached
            && s.connections[1] == Connection(CleaningOne, [0])
            && s.connections[2] == Connection(Claimed(0, 0), [])
  {
    steps := AttachTwice();
    steps := Quietly(steps, ATTACHED_TWICE, 1, Disconnect, Connection(Cleaning, [0, 0]));
    var s := Moved(ATTACHED_TWICE, 1, Connection(Cleaning, [0, 0]));
    assert [0] + [0] == [0, 0];
    steps := CleansUp(steps, s, 1, [0]);
    steps := TakenOverMeanwhile(
      steps, WithSession(Moved(s, 1, Connection(Cleaning, [0])), ATTACHED.(epoch := 2, state := Detached)));
  }

  lemma TakenOverMeanwhile(steps0: seq<Step>, s: State) returns (steps: seq<Step>)
    requires Reaches(steps0, s) && Waits(s, 1, Connection(Cleaning, [0])) && Waits(s, 2, IDLE)
    requires s.connections.Keys == {1, 2} && s.sessions[0].state == Detached
    ensures IsRun(INITIAL, steps)
    ensures var t := Final(INITIAL, steps);
            && t.connections.Keys == {1, 2} && 0 in t.sessions && t.sessions[0].state == Attached
            && t.connections[1] == Connection(CleaningOne, [0])
            && t.connections[2] == Connection(Claimed(0, 0), [])
  {
    steps := TakeOver(steps0, s, 2, []);
    var t := WithSession(Moved(s, 2, Connection(Claimed(0, 0), [])), s.sessions[0].(state := Attached));
    steps := Quietly(steps, t, 1, CleanNext, Connection(CleaningOne, [0]));
  }

  /** Two pumps can share an epoch and both be superseded: sharing one does not make two current. */
  lemma SharedEpochBothSuperseded() returns (steps: seq<Step>)
    ensures IsRun(INITIAL, steps)
    ensures var s := Final(INITIAL, steps);
            && |s.pumps| == 2 && s.pumps[0].sid == s.pumps[1].sid && s.pumps[0].epoch == s.pumps[1].epoch
            && Superseded(s, 0) && Superseded(s, 1)
  {
    var s := BOTH_ATTACHED;
    steps := BothAttach();
    var x := ATTACHED.(epoch := 2);
    steps := OneMore(steps, s, ConnStep(3, Connect), Moved(s, 3, IDLE));
    var s1 := Moved(s, 3, IDLE);
    steps := Detaches(steps, s1, 3);
    var s2 := WithSession(s1, x.(state := Detached));
    steps := TakeOver(steps, s2, 3, []);
    var s3 := WithSession(Moved(s2, 3, Connection(Claimed(0, 0), [])), x);
    steps := Bumps(steps, s3, 3, []);
  }

  lemma Leaves(steps0: seq<Step>, s: State, cid: ConnectionId) returns (steps: seq<Step>)
    requires Reaches(steps0, s) && Waits(s, cid, DONE) && s.sessions[0].state == Attached
    ensures Reaches(steps, WithSession(Moved(s, cid, Connection(Cleaning, [])), s.sessions[0].(state := Detached)))
  {
    steps := Quietly(steps0, s, cid, Disconnect, Connection(Cleaning, [0]));
    var s1 := Moved(s, cid, Connection(Cleaning, [0]));
    assert [0] + [] == [0];
    steps := CleansUp(steps, s1, cid, []);
    assert Moved(s1, cid, Connection(Cleaning, [])) == Moved(s, cid, Connection(Cleaning, []));
  }

  /** The first entry of the list is cleaned up. */
  lemma CleansUp(steps0: seq<Step>, s: State, cid: ConnectionId, more: seq<SessionId>) returns (steps: seq<Step>)
    requires Reaches(steps0, s) && Waits(s, cid, Connection(Cleaning, [0] + more)) && s.sessions[0].state == Attached
    ensures Reaches(steps, WithSession(Moved(s, cid, Connection(Cleaning, more)), s.sessions[0].(state := Detached)))
  {
    var one := Connection(CleaningOne, [0] + more);
    steps := Quietly(steps0, s, cid, CleanNext, one);
    var s1 := Moved(s, cid, one);
    assert ([0] + more)[1..] == more;
    steps := OnSession(steps, s1, cid, Release, s.sessions[0].(state := Detached), Connection(Cleaning, more));
    assert Moved(s1, cid, Connection(Cleaning, more)) == Moved(s, cid, Connection(Cleaning, more));
  }

  /** Output that arrives between a pump's buffer read and its state read, with the end of the session right
  behind it, is never sent: the terminal event comes although bytes are missing. */
  lemma TailCanBeLost() returns (steps: seq<Step>)
    ensures IsRun(INITIAL, steps)
    ensures var s := Final(INITIAL, steps);
            && |s.pumps| == 1
            && s.pumps[0].events == [Finished(Some(ExitedUnknown))]
            && s.pumps[0].phase == Stopped
            && 0 in s.sessions && s.sessions[0].history == [0x41]
            && StreamEnd(s.pumps[0].reply.cursorEnd, s.pumps[0].events) == 0
  {
    steps := AttachOnce();
    var p := FirstPump(1, 1).(phase := AtState);
    steps := ReadsNothing(steps, ATTACHED_ONCE, 0, FirstPump(1, 1));
    assert [FirstPump(1, 1)][0 := p] == [p];
    var s4 := ATTACHED_ONCE.(pumps := [p]);
    var x := ATTACHED.(epoch := 1, history := [0x41]);
    assert [] + [0x41] == x.history;
    var s5 := WithSession(s4, x);
    steps := OneMore(steps, s4, PtyStep(0, Output([0x41])), s5);
    steps := SessionEnds(steps, s5, p);
    assert [Finished(Some(ExitedUnknown))][..0] == [];
  }

  /** The same when the session is closed: the pump has read the buffer, output arrives, the session is taken
  out of the map, and the pump tells of the close without having sent the output. */
  lemma TailCanBeLostOnClose() returns (steps: seq<Step>)
    ensures IsRun(INITIAL, steps)
    ensures var s := Final(INITIAL, steps);
            && |s.pumps| == 1
            && s.pumps[0].events == [Closed] && s.pumps[0].phase == Stopped
            && 0 in s.sessions && s.sessions[0].history == [0x41] && s.pumps[0].lookedAt == 1
            && StreamEnd(s.pumps[0].reply.cursorEnd, s.pumps[0].events) == 0
  {
    steps := AttachOnce();
    var p := FirstPump(1, 1).(phase := AtContains);
    steps := FlushesNothing(steps, ATTACHED_ONCE, 0, FirstPump(1, 1));
    assert [FirstPump(1, 1)][0 := p] == [p];
    var s1 := ATTACHED_ONCE.(pumps := [p]);
    var x := ATTACHED.(epoch := 1, history := [0x41]);
    assert [] + [0x41] == x.history;
    var s2 := WithSession(s1, x);
    steps := OneMore(steps, s1, PtyStep(0, Output([0x41])), s2);
    steps := ToldOfClose(steps, s2, p);
    assert [Closed][..0] == [];
  }

  lemma ToldOfClose(steps0: seq<Step>, s: State, p: Pump) returns (steps: seq<Step>)
    requires Reaches(steps0, s) && Waits(s, 2, IDLE) && s.pumps == [p] && p.sid == 0
    requires p.phase == AtContains && p.events == []
    ensures var q := p.(phase := Stopped, lookedAt := |s.sessions[0].history|, events := [Closed]);
            Reaches(steps, s.(registered := s.registered - {0}, pumps := [q]))
  {
    var q := p.(phase := Stopped, lookedAt := |s.sessions[0].history|, events := [Closed]);
    var t := s.(registered := s.registered - {0});
    assert Without([], 0) == [];
    SameEntry(s.connections, 2);
    steps := OneMore(steps0, s, ConnStep(2, Close(0)), t);
    assert [p][0 := q] == [q] && [] + [Closed] == [Closed];
    steps := OneMore(steps, t, PumpStep(0, true), t.(pumps := [q]));
  }

  predicate JustStarted(s: State, i: nat, p: Pump) {
    && i < |s.pumps| && s.pumps[i] == p && p.phase == AtCheck
    && p.sid == 0 && 0 in s.sessions && p.epoch == s.sessions[0].epoch
    && p.lastSent == 0 && s.sessions[0].history == [] && p.readAt == p.lookedAt == 0
  }

  /** A pump that finds nothing to send goes on to look into the map. */
  lemma FlushesNothing(steps0: seq<Step>, s: State, i: nat, p: Pump) returns (steps: seq<Step>)
    requires Reaches(steps0, s) && JustStarted(s, i, p)
    ensures Reaches(steps, s.(pumps := s.pumps[i := p.(phase := AtContains)]))
  {
    var q, r := p.(phase := AtRead), p.(phase := AtContains);
    assert s.pumps[i := q][i := r] == s.pumps[i := r];
    steps := OneMore(steps0, s, PumpStep(i, true), s.(pumps := s.pumps[i := q]));
    steps := OneMore(steps, s.(pumps := s.pumps[i := q]), PumpStep(i, true), s.(pumps := s.pumps[i := r]));
  }

  /** And from there, if the session is still in it, at the session's state. */
  lemma ReadsNothing(steps0: seq<Step>, s: State, i: nat, p: Pump) returns (steps: seq<Step>)
    requires Reaches(steps0, s) && JustStarted(s, i, p) && 0 in s.registered
    ensures Reaches(steps, s.(pumps := s.pumps[i := p.(phase := AtState)]))
  {
    var q, r := p.(phase := AtContains), p.(phase := AtState);
    steps := FlushesNothing(steps0, s, i, p);
    assert s.pumps[i := q][i := r] == s.pumps[i := r];
    steps := OneMore(steps, s.(pumps := s.pumps[i := q]), PumpStep(i, true), s.(pumps := s.pumps[i := r]));
  }

  lemma SessionEnds(steps0: seq<Step>, s: State, p: Pump) returns (steps: seq<Step>)
    requires Reaches(steps0, s) && s.pumps == [p] && 0 in s.sessions && s.sessions[0].phase == Reading
    requires p.phase == AtState && p.sid == 0 && p.events == []
    ensures var x := s.sessions[0];
            var q := p.(phase := Stopped, stateAt := |x.history|, events := [Finished(Some(ExitedUnknown))]);
            Reaches(
              steps, WithSession(s, x.(state := Lost, terminal := Some(ExitedUnknown), phase := Ended)).(pumps := [q]))
  {
    var x := s.sessions[0];
    var y := x.(terminal := Some(ExitedUnknown), phase := Finishing);
    var z := y.(state := Lost, phase := Ended);
    var q := p.(phase := AtTerminal, stateAt := |x.history|);
    var r := q.(phase := Stopped, events := [Finished(Some(ExitedUnknown))]);
    assert [] + [Finished(Some(ExitedUnknown))] == r.events;
    assert [p][0 := q] == [q] && [q][0 := r] == [r];
    var s1 := WithSession(s, y);
    var s2 := WithSession(s, z);
    steps := OneMore(steps0, s, PtyStep(0, EndOfFile(ExitedUnknown)), s1);
    assert s1.sessions[0 := z] == s2.sessions;
    steps := OneMore(steps, s1, PtyStep(0, MarkLost), s2);
    steps := OneMore(steps, s2, PumpStep(0, true), s2.(pumps := [q]));
    steps := OneMore(steps, s2.(pumps := [q]), PumpStep(0, true), s2.(pumps := [r]));
  }
}
