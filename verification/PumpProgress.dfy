/** What a pump gets done by its own steps, while nothing else happens (agentd/src/rpc.rs `event_pump`). */
module PumpProgress {
  import opened Bytes
  import opened DaemonBuffer
  import opened DaemonSession
  import opened SessionSafety
  import opened PumpStream
  import opened PumpEpochs
  import opened PumpEnds

  /** `n` steps of pump `i`, each with a write that succeeds if it makes one. */
  function Own(i: nat, n: nat): seq<Step> {
    if n == 0 then [] else [PumpStep(i, true)] + Own(i, n - 1)
  }

  /** The pump after `n` steps of its own, or after the one that stops it. */
  function After(p: Pump, x: Session, registered: bool, n: nat): Pump
    decreases n
  {
    if n == 0 || p.phase == Stopped then p else After(PumpNext(p, x, registered, true), x, registered, n - 1)
  }

  /** How many of the `n` steps it makes before it stops. */
  function Made(p: Pump, x: Session, registered: bool, n: nat): (m: nat)
    ensures m <= n
    decreases n
  {
    if n == 0 || p.phase == Stopped then 0 else 1 + Made(PumpNext(p, x, registered, true), x, registered, n - 1)
  }

  function WithPump(s: State, i: nat, p: Pump): State
    requires i < |s.pumps|
  {
    s.(pumps := s.pumps[i := p])
  }

  lemma OneOwnStep(s: State, i: nat)
    requires i < |s.pumps| && s.pumps[i].sid in s.sessions && s.pumps[i].phase != Stopped
    ensures var p := s.pumps[i];
            && Enabled(s, PumpStep(i, true))
            && Next(s, PumpStep(i, true))
               == WithPump(s, i, PumpNext(p, s.sessions[p.sid], p.sid in s.registered, true))
  {
  }

  lemma ReplacedTwice(s: State, i: nat, p: Pump, q: Pump)
    requires i < |s.pumps|
    ensures WithPump(WithPump(s, i, p), i, q) == WithPump(s, i, q)
  {
  }

  lemma NextKeepsSid(p: Pump, x: Session, registered: bool)
    ensures PumpNext(p, x, registered, true).sid == p.sid && PumpNext(p, x, registered, true).epoch == p.epoch
  {
  }

  lemma {:induction false} OwnRun(s: State, i: nat, n: nat)
    requires i < |s.pumps| && s.pumps[i].sid in s.sessions
    ensures var p := s.pumps[i];
            var x, registered := s.sessions[p.sid], p.sid in s.registered;
            var m := Made(p, x, registered, n);
            && IsRun(s, Own(i, m))
            && Final(s, Own(i, m)) == WithPump(s, i, After(p, x, registered, n))
    decreases n
  {
    var p := s.pumps[i];
    var x, registered := s.sessions[p.sid], p.sid in s.registered;
    if n == 0 || p.phase == Stopped {
      assert s.pumps[i := p] == s.pumps;
    } else {
      var q := PumpNext(p, x, registered, true);
      OneOwnStep(s, i);
      NextKeepsSid(p, x, registered);
      OwnRun(WithPump(s, i, q), i, n - 1);
      ReplacedTwice(s, i, q, After(q, x, registered, n - 1));
      assert Own(i, Made(p, x, registered, n))[1..] == Own(i, Made(q, x, registered, n - 1));
    }
  }

  // ---------------------------------------------------------------------------------------
  // One round of the loop
  // ---------------------------------------------------------------------------------------

  predicate CaughtUp(p: Pump, x: Session) {
    p.lastSent == |x.history|
  }

  /** A read brings the pump up to the end of the history. */
  lemma ReadCatchesUp(p: Pump, x: Session, registered: bool)
    requires p.phase == AtRead && p.lastSent <= |x.history|
    ensures var q := PumpNext(p, x, registered, true);
            q == p.(phase := AtContains, readAt := |x.history|, lastSent := |x.history|, events := q.events)
  {
    var r := SinceAt(x.history, DEFAULT_BUFFER_SIZE, p.lastSent);
    SinceAtIsGood(x.history, DEFAULT_BUFFER_SIZE, p.lastSent);
  }

  /** The pump is running and holds the current epoch of a session that goes on. */
  predicate RunsOn(p: Pump, x: Session) {
    && p.phase != Stopped && p.phase != AtTerminal
    && p.epoch == x.epoch && x.state == Attached && p.lastSent <= |x.history|
  }

  lemma OneStepOn(p: Pump, x: Session)
    requires RunsOn(p, x)
    ensures var q := PumpNext(p, x, true, true);
            && RunsOn(q, x)
            && (CaughtUp(p, x) ==> CaughtUp(q, x))
            && (p.phase == AtRead ==> CaughtUp(q, x))
            && q.phase == (match p.phase
                           case AtCheck => AtRead
                           case AtRead => AtContains
                           case AtContains => AtState
                           case AtState => Waiting
                           case _ => AtCheck)
  {
    if p.phase == AtRead {
      ReadCatchesUp(p, x, true);
    }
  }

  /** Five steps go round the loop once, with one read. */
  lemma RoundCatchesUp(p: Pump, x: Session)
    requires RunsOn(p, x)
    ensures var q := After(p, x, true, 5);
            RunsOn(q, x) && CaughtUp(q, x) && Made(p, x, true, 5) == 5
  {
    var p1 := PumpNext(p, x, true, true);
    var p2 := PumpNext(p1, x, true, true);
    var p3 := PumpNext(p2, x, true, true);
    var p4 := PumpNext(p3, x, true, true);
    OneStepOn(p, x);
    OneStepOn(p1, x);
    OneStepOn(p2, x);
    OneStepOn(p3, x);
    OneStepOn(p4, x);
    Unrolled(p, x, true);
  }

  lemma Unrolled(p: Pump, x: Session, registered: bool)
    requires var p1 := PumpNext(p, x, registered, true);
             var p2 := PumpNext(p1, x, registered, true);
             var p3 := PumpNext(p2, x, registered, true);
             var p4 := PumpNext(p3, x, registered, true);
             && p.phase != Stopped && p1.phase != Stopped && p2.phase != Stopped && p3.phase != Stopped
             && p4.phase != Stopped
    ensures var p1 := PumpNext(p, x, registered, true);
            var p2 := PumpNext(p1, x, registered, true);
            var p3 := PumpNext(p2, x, registered, true);
            var p4 := PumpNext(p3, x, registered, true);
            After(p, x, registered, 5) == PumpNext(p4, x, registered, true) && Made(p, x, registered, 5) == 5
  {
    var p1 := PumpNext(p, x, registered, true);
    var p2 := PumpNext(p1, x, registered, true);
    var p3 := PumpNext(p2, x, registered, true);
    var p4 := PumpNext(p3, x, registered, true);
    assert After(p4, x, registered, 1) == PumpNext(p4, x, registered, true) && Made(p4, x, registered, 1) == 1;
    assert After(p3, x, registered, 2) == After(p4, x, registered, 1) && Made(p3, x, registered, 2) == 2;
    assert After(p2, x, registered, 3) == After(p3, x, registered, 2) && Made(p2, x, registered, 3) == 3;
    assert After(p1, x, registered, 4) == After(p2, x, registered, 3) && Made(p1, x, registered, 4) == 4;
  }

  /** The pump comes to the place where it reads the buffer before it looks at the session again. */
  predicate BeforeRead(p: Pump) {
    p.phase == Waiting || p.phase == AtCheck || p.phase == AtRead
  }

  /** What is still to come until a lost session's end is told, by phases. */
  function StepsToTheEnd(p: Pump): nat {
    match p.phase
    case Waiting => 6
    case AtCheck => 5
    case AtRead => 4
    case AtContains => 3
    case AtState => 2
    case AtTerminal => 1
    case Stopped => 0
  }

  lemma {:induction false} EndIsTold(p: Pump, x: Session)
    requires p.phase != Stopped && p.epoch == x.epoch && x.state == Lost && p.lastSent <= |x.history|
    ensures var q := After(p, x, true, StepsToTheEnd(p));
            && q.phase == Stopped && q.events != [] && q.events[|q.events| - 1] == Finished(x.terminal)
            && (BeforeRead(p) || CaughtUp(p, x) ==> CaughtUp(q, x))
    decreases StepsToTheEnd(p)
  {
    var q := PumpNext(p, x, true, true);
    if p.phase == AtRead {
      ReadCatchesUp(p, x, true);
    }
    if p.phase != AtTerminal {
      EndIsTold(q, x);
    }
  }

  lemma {:induction false} CloseIsTold(p: Pump, x: Session, n: nat)
    requires p.phase != Stopped && p.phase != AtState && p.phase != AtTerminal
    requires p.epoch == x.epoch && p.lastSent <= |x.history| && n == StepsToTheEnd(p) - 2
    ensures var q := After(p, x, false, n);
            && q.phase == Stopped && q.events != [] && q.events[|q.events| - 1] == Closed
            && (BeforeRead(p) || CaughtUp(p, x) ==> CaughtUp(q, x))
    decreases n
  {
    var q := PumpNext(p, x, false, true);
    if p.phase == AtRead {
      ReadCatchesUp(p, x, false);
    }
    if p.phase != AtContains {
      CloseIsTold(q, x, n - 1);
    }
  }

  lemma {:induction false} AfterKeepsSid(p: Pump, x: Session, registered: bool, n: nat)
    ensures After(p, x, registered, n).sid == p.sid && After(p, x, registered, n).epoch == p.epoch
    decreases n
  {
    if n > 0 && p.phase != Stopped {
      NextKeepsSid(p, x, registered);
      AfterKeepsSid(PumpNext(p, x, registered, true), x, registered, n - 1);
    }
  }

  lemma {:induction false} AfterOk(p: Pump, x: Session, registered: bool, n: nat)
    requires PumpOk(p, x) && SessionOk(x)
    ensures PumpOk(After(p, x, registered, n), x)
    decreases n
  {
    if n > 0 && p.phase != Stopped {
      var q := PumpNext(p, x, registered, true);
      PumpNextOk(p, x, registered, true);
      AfterOk(q, x, registered, n - 1);
      assert After(p, x, registered, n) == After(q, x, registered, n - 1);
    }
  }

  /** What `n` steps of pump `i` come to in a reachable state. */
  lemma OwnSteps(steps: seq<Step>, i: nat, n: nat)
    requires IsRun(INITIAL, steps) && i < |Final(INITIAL, steps).pumps|
    ensures var s := Final(INITIAL, steps);
            var p := s.pumps[i];
            && p.sid in s.sessions && PumpOk(p, s.sessions[p.sid])
            && var x, registered := s.sessions[p.sid], p.sid in s.registered;
            var q := After(p, x, registered, n);
            && IsRun(s, Own(i, Made(p, x, registered, n)))
            && Final(s, Own(i, Made(p, x, registered, n))) == WithPump(s, i, q)
            && PumpOk(q, x) && q.sid == p.sid && q.epoch == p.epoch
  {
    DaemonStaysOk(INITIAL, steps);
    var s := Final(INITIAL, steps);
    var p := s.pumps[i];
    assert PumpOk(p, s.sessions[p.sid]) && SessionOk(s.sessions[p.sid]);
    OwnRun(s, i, n);
    AfterOk(p, s.sessions[p.sid], p.sid in s.registered, n);
    AfterKeepsSid(p, s.sessions[p.sid], p.sid in s.registered, n);
  }

  // ---------------------------------------------------------------------------------------
  // The theorems
  // ---------------------------------------------------------------------------------------

  /** A running pump that no newer attach has superseded. */
  predicate IsCurrent(s: State, i: nat) {
    && i < |s.pumps| && s.pumps[i].phase != Stopped
    && s.pumps[i].sid in s.sessions && s.pumps[i].epoch == s.sessions[s.pumps[i].sid].epoch
  }

  /** The stream of pump `i`, reply and events, ends where the history does. */
  predicate StreamIsComplete(s: State, i: nat) {
    && i < |s.pumps| && s.pumps[i].sid in s.sessions
    && StreamEnd(s.pumps[i].reply.cursorEnd, s.pumps[i].events) == |s.sessions[s.pumps[i].sid].history|
  }

  /** Pump `i` has stopped, and told this last. */
  predicate HasTold(s: State, i: nat, e: Event) {
    IsStopped(s, i) && s.pumps[i].events != [] && s.pumps[i].events[|s.pumps[i].events| - 1] == e
  }

  lemma CompleteAfter(s: State, i: nat, q: Pump)
    requires i < |s.pumps| && q.sid == s.pumps[i].sid && q.sid in s.sessions && PumpOk(q, s.sessions[q.sid])
    ensures StreamIsComplete(WithPump(s, i, q), i) <==> CaughtUp(q, s.sessions[q.sid])
  {
  }

  /** Progress: in every reachable state, five steps of its own bring a current pump of an attached session up to
  the end of the history, and it is still running. */
  lemma PumpKeepsUp(steps: seq<Step>, i: nat)
    requires IsRun(INITIAL, steps)
    requires var s := Final(INITIAL, steps);
             && IsCurrent(s, i)
             && s.pumps[i].sid in s.registered && s.sessions[s.pumps[i].sid].state == Attached
    ensures var s := Final(INITIAL, steps);
            && IsRun(s, Own(i, 5))
            && StreamIsComplete(Final(s, Own(i, 5)), i) && IsCurrent(Final(s, Own(i, 5)), i)
  {
    var s := Final(INITIAL, steps);
    var p := s.pumps[i];
    var x := s.sessions[p.sid];
    OwnSteps(steps, i, 5);
    RoundCatchesUp(p, x);
    CompleteAfter(s, i, After(p, x, true, 5));
  }

  /** When the session is lost, at most six steps of its own make the pump send the terminal event and stop. If
  it had still to read the buffer, its stream is complete by then. */
  lemma PumpTellsTheEnd(steps: seq<Step>, i: nat) returns (n: nat)
    requires IsRun(INITIAL, steps)
    requires var s := Final(INITIAL, steps);
             && IsCurrent(s, i)
             && s.pumps[i].sid in s.registered && s.sessions[s.pumps[i].sid].state == Lost
    ensures n <= 6
    ensures var s := Final(INITIAL, steps);
            && IsRun(s, Own(i, n))
            && var t := Final(s, Own(i, n));
            && HasTold(t, i, Finished(s.sessions[s.pumps[i].sid].terminal))
            && (BeforeRead(s.pumps[i]) ==> StreamIsComplete(t, i))
  {
    var s := Final(INITIAL, steps);
    var p := s.pumps[i];
    var x := s.sessions[p.sid];
    var most := StepsToTheEnd(p);
    OwnSteps(steps, i, most);
    EndIsTold(p, x);
    CompleteAfter(s, i, After(p, x, true, most));
    n := Made(p, x, true, most);
  }

  /** The same when the session has been closed and the pump has still to look into the map. */
  lemma PumpTellsTheClose(steps: seq<Step>, i: nat) returns (n: nat)
    requires IsRun(INITIAL, steps)
    requires var s := Final(INITIAL, steps);
             && IsCurrent(s, i) && s.pumps[i].sid !in s.registered
             && (BeforeRead(s.pumps[i]) || s.pumps[i].phase == AtContains)
    ensures n <= 4
    ensures var s := Final(INITIAL, steps);
            && IsRun(s, Own(i, n))
            && var t := Final(s, Own(i, n));
            && HasTold(t, i, Closed)
            && (BeforeRead(s.pumps[i]) ==> StreamIsComplete(t, i))
  {
    var s := Final(INITIAL, steps);
    var p := s.pumps[i];
    var x := s.sessions[p.sid];
    var most := StepsToTheEnd(p) - 2;
    OwnSteps(steps, i, most);
    CloseIsTold(p, x, most);
    CompleteAfter(s, i, After(p, x, false, most));
    n := Made(p, x, false, most);
  }
}
