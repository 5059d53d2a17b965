/** How requests to the daemon end (`DaemonClient::call` in src/infrastructure/persistent.rs). */
module CallOutcomes {
  import opened Bytes
  import opened PendingCalls

  predicate HasSlot(s: State, c: CallId, slot: Slot) {
    c in s.calls && s.calls[c].slot == slot
  }

  lemma {:induction false} SlotOrigin(s: State, steps: seq<Step>, c: CallId, id: RequestId, body: seq<byte>)
    requires IsRun(s, steps) && HasSlot(Final(s, steps), c, Filled(Response(id, body)))
    ensures HasSlot(s, c, Filled(Response(id, body))) || Dispatch(id, body) in steps
    decreases |steps|
  {
    if steps != [] {
      SlotOrigin(Next(s, steps[0]), steps[1..], c, id, body);
    }
  }

  /** In every run, what a call returns is what the daemon has sent: the response with its id, and that body. */
  lemma AnswersWereSent(steps: seq<Step>, c: CallId, id: RequestId, body: seq<byte>)
    requires IsRun(INITIAL, steps) && InPhase(Final(INITIAL, steps), c, Returned(Answered(Response(id, body))))
    ensures id == Final(INITIAL, steps).calls[c].id && Dispatch(id, body) in steps
  {
    TableStaysOk(INITIAL, steps);
    assert CallOk(Final(INITIAL, steps), c);
    SlotOrigin(INITIAL, steps, c, id, body);
  }

  /** Some step of the run is this call's check, on a connection that is closed. */
  predicate RefusedIn(s: State, steps: seq<Step>, c: CallId)
    requires IsRun(s, steps)
    decreases |steps|
  {
    steps != [] && ((steps[0] == Check(c) && s.closed) || RefusedIn(Next(s, steps[0]), steps[1..], c))
  }

  lemma StepRefuses(s: State, step: Step, c: CallId)
    requires Enabled(s, step)
    ensures InPhase(Next(s, step), c, Returned(Refused)) <==>
              InPhase(s, c, Returned(Refused)) || (step == Check(c) && s.closed)
  {
  }

  lemma {:induction false} RefusedFrom(s: State, steps: seq<Step>, c: CallId)
    requires IsRun(s, steps)
    ensures InPhase(Final(s, steps), c, Returned(Refused)) <==>
              InPhase(s, c, Returned(Refused)) || RefusedIn(s, steps, c)
    decreases |steps|
  {
    if steps != [] {
      StepRefuses(s, steps[0], c);
      RefusedFrom(Next(s, steps[0]), steps[1..], c);
    }
  }

  /** In every run a call is refused exactly when it begins on a closed connection. */
  lemma RefusedExactly(steps: seq<Step>, c: CallId)
    requires IsRun(INITIAL, steps)
    ensures InPhase(Final(INITIAL, steps), c, Returned(Refused)) <==> RefusedIn(INITIAL, steps, c)
  {
    RefusedFrom(INITIAL, steps, c);
  }

  predicate Closes(step: Step) {
    step == Disconnect || step.StoreClosed?
  }

  lemma {:induction false} ClosedFrom(s: State, steps: seq<Step>)
    requires IsRun(s, steps)
    ensures Final(s, steps).closed <==> s.closed || exists i :: 0 <= i < |steps| && Closes(steps[i])
    decreases |steps|
  {
    if steps != [] {
      var rest := steps[1..];
      ClosedFrom(Next(s, steps[0]), rest);
      assert forall i :: 0 <= i < |rest| ==> rest[i] == steps[i + 1];
      assert forall i :: 0 < i < |steps| ==> steps[i] == rest[i - 1];
    }
  }

  /** The connection is closed exactly when the reader has met its end, or a call a write that failed. */
  lemma ClosedExactly(steps: seq<Step>)
    requires IsRun(INITIAL, steps)
    ensures Final(INITIAL, steps).closed <==> exists i :: 0 <= i < |steps| && Closes(steps[i])
  {
    ClosedFrom(INITIAL, steps);
  }

  // ---------------------------------------------------------------------------------------
  // What gets done
  // ---------------------------------------------------------------------------------------

  /** A new call on an open connection comes to wait, with the next id and an entry in the table. */
  lemma CallRegisters(s: State, c: CallId) returns (t: State)
    requires !s.closed && c !in s.calls && s.nextId !in s.pending && s.reader == Reading
    ensures Goes(s, [Check(c), Number(c), Register(c), Write(c, true)], t)
    ensures InPhase(t, c, Waiting) && t.calls[c].id == s.nextId && t.calls[c].slot == Empty
    ensures t.pending == s.pending[s.nextId := c] && t.nextId == s.nextId + 1
    ensures forall d <- s.calls :: d in t.calls && t.calls[d] == s.calls[d]
  {
    var s1 := Next(s, Check(c));
    var s2 := Next(s1, Number(c));
    var s3 := Next(s2, Register(c));
    t := Next(s3, Write(c, true));
    assert Goes(t, [], t);
    First(s3, Write(c, true), [], t);
    assert [Write(c, true)] + [] == [Write(c, true)];
    First(s2, Register(c), [Write(c, true)], t);
    assert [Register(c)] + [Write(c, true)] == [Register(c), Write(c, true)];
    First(s1, Number(c), [Register(c), Write(c, true)], t);
    assert [Number(c)] + [Register(c), Write(c, true)] == [Number(c), Register(c), Write(c, true)];
    First(s, Check(c), [Number(c), Register(c), Write(c, true)], t);
    assert [Check(c)] + [Number(c), Register(c), Write(c, true)]
        == [Check(c), Number(c), Register(c), Write(c, true)];
  }

  lemma First(s: State, step: Step, steps: seq<Step>, t: State)
    requires Enabled(s, step) && Goes(Next(s, step), steps, t)
    ensures Goes(s, [step] + steps, t)
  {
    assert ([step] + steps)[1..] == steps;
  }

  /** In every reachable state with the reader at work, a response reaches the call that waits for it, and no other
  call: it returns that body, and its entry is gone. */
  lemma ResponseReachesItsCall(steps: seq<Step>, c: CallId, body: seq<byte>) returns (t: State)
    requires IsRun(INITIAL, steps)
    requires var s := Final(INITIAL, steps);
             s.reader == Reading && InPhase(s, c, Waiting) && s.calls[c].slot == Empty
    ensures var s := Final(INITIAL, steps);
            var id := s.calls[c].id;
            && Enabled(s, Dispatch(id, body))
            && var s1 := Next(s, Dispatch(id, body));
            && Enabled(s1, Receive(c))
            && t == Next(s1, Receive(c))
            && InPhase(t, c, Returned(Answered(Response(id, body))))
            && t.pending == s.pending - {id}
            && forall d <- s.calls :: d != c ==> d in t.calls && t.calls[d] == s.calls[d]
  {
    TableStaysOk(INITIAL, steps);
    var s := Final(INITIAL, steps);
    assert CallOk(s, c) && InTable(s, s.calls[c].id, c);
    var s1 := Next(s, Dispatch(s.calls[c].id, body));
    t := Next(s1, Receive(c));
  }

  /** A call that has waited long enough leaves the table and says so. */
  lemma TimeOutLeaves(s: State, c: CallId) returns (t: State)
    requires InPhase(s, c, Waiting) && s.calls[c].slot == Empty
    ensures Enabled(s, Expire(c)) && Enabled(Next(s, Expire(c)), Unregister(c))
    ensures t == Next(Next(s, Expire(c)), Unregister(c))
    ensures InPhase(t, c, Returned(TimedOut)) && t.pending == s.pending - {s.calls[c].id}
  {
    t := Next(Next(s, Expire(c)), Unregister(c));
  }

  // ---------------------------------------------------------------------------------------
  // Whose answers, and what a disconnect does
  // ---------------------------------------------------------------------------------------

  /** In every run, a call that gets a response gets the one with its own id, which no other call has; and
  no call ever finds that its channel was dropped. */
  lemma AnswersAreTheCallsOwn(steps: seq<Step>, c: CallId, d: CallId)
    requires IsRun(INITIAL, steps) && c in Final(INITIAL, steps).calls && d in Final(INITIAL, steps).calls && c != d
    ensures var s := Final(INITIAL, steps);
            && (s.calls[c].phase.Returned? && s.calls[c].phase.outcome.Answered? ==>
                  var a := s.calls[c].phase.outcome.answer;
                  a == ConnectionClosed || (a.id == s.calls[c].id && (HasId(s.calls[d]) ==> a.id != s.calls[d].id)))
            && s.calls[c].phase != Returned(ChannelDropped)
  {
    TableStaysOk(INITIAL, steps);
    assert CallOk(Final(INITIAL, steps), c);
  }

  /** The table holds calls in progress only, and abandoned ones: once every call has returned it is empty. */
  lemma NoEntryLeaks(steps: seq<Step>)
    requires IsRun(INITIAL, steps)
    ensures var s := Final(INITIAL, steps);
            && (forall id <- s.pending :: s.pending[id] in s.calls && !s.calls[s.pending[id]].phase.Returned?)
            && ((forall c <- s.calls :: s.calls[c].phase.Returned?) ==> s.pending == map[])
  {
    TableStaysOk(INITIAL, steps);
    var s := Final(INITIAL, steps);
    forall id | id in s.pending
      ensures s.pending[id] in s.calls && !s.calls[s.pending[id]].phase.Returned?
    {
      assert EntryOk(s, id, s.pending[id]);
    }
  }

  /** Once the reader is gone, every call that still waits has been told, except exactly those that
  registered after the reader had taken the table. */
  lemma DisconnectTellsAllButLate(steps: seq<Step>, c: CallId)
    requires IsRun(INITIAL, steps) && Final(INITIAL, steps).reader == Gone
    requires InPhase(Final(INITIAL, steps), c, Waiting)
    ensures var x := Final(INITIAL, steps).calls[c];
            x.slot == Empty <==> x.late
  {
    TableStaysOk(INITIAL, steps);
    var s := Final(INITIAL, steps);
    assert CallOk(s, c);
  }

  lemma StepKeepsLate(s: State, step: Step, c: CallId)
    requires Enabled(s, step) && TableOk(s) && c in s.calls && s.calls[c].late
    ensures c in Next(s, step).calls && Next(s, step).calls[c].late
  {
    assert CallOk(s, c);
  }

  lemma {:induction false} LateStaysLate(s: State, steps: seq<Step>, c: CallId)
    requires IsRun(s, steps) && TableOk(s) && c in s.calls && s.calls[c].late
    ensures c in Final(s, steps).calls && Final(s, steps).calls[c].late
    decreases |steps|
  {
    if steps != [] {
      StepKeepsTable(s, steps[0]);
      StepKeepsLate(s, steps[0], c);
      LateStaysLate(Next(s, steps[0]), steps[1..], c);
    }
  }

  /** A late call never gets an answer, in whatever way the run goes on: it ends by timing out, or by a
  write that fails. */
  lemma LateCallsTimeOut(before: seq<Step>, after: seq<Step>, c: CallId)
    requires IsRun(INITIAL, before) && IsRun(Final(INITIAL, before), after)
    requires c in Final(INITIAL, before).calls && Final(INITIAL, before).calls[c].late
    ensures var t := Final(Final(INITIAL, before), after);
            && c in t.calls && t.calls[c].slot == Empty
            && (t.calls[c].phase.Returned? ==> t.calls[c].phase.outcome in {TimedOut, WriteFailed})
  {
    var s := Final(INITIAL, before);
    TableStaysOk(INITIAL, before);
    TableStaysOk(s, after);
    LateStaysLate(s, after, c);
    LateCallHasNoAnswer(Final(s, after), c);
  }

  lemma LateCallHasNoAnswer(s: State, c: CallId)
    requires TableOk(s) && c in s.calls && s.calls[c].late
    ensures s.calls[c].slot == Empty
    ensures s.calls[c].phase.Returned? ==> s.calls[c].phase.outcome in {TimedOut, WriteFailed}
  {
    assert CallOk(s, c);
  }

  /** There are late calls: one that has passed the closed check, with the disconnect right behind it,
  registers in the new table and waits for the whole time-out. */
  lemma CallsCanBeLate() returns (steps: seq<Step>)
    ensures IsRun(INITIAL, steps)
    ensures var s := Final(INITIAL, steps);
            && s.reader == Gone && s.closed
            && s.calls == map[0 := Call(Waiting, 1, Empty, true)] && s.pending == map[1 := 0]
  {
    var s1 := INITIAL.(calls := map[0 := Call(Checked, 0, Empty, false)]);
    var s2 := s1.(reader := Closing, closed := true);
    var s3 := s2.(reader := Failing(map[]));
    var s4 := s3.(reader := Gone);
    var t, r4 := RegistersAfterAll(s4);
    var r3 := Prepend(s3, Finish, s4, r4, t);
    var r2 := Prepend(s2, TakeTable, s3, r3, t);
    var r1 := Prepend(s1, Disconnect, s2, r2, t);
    steps := Prepend(INITIAL, Check(0), s1, r1, t);
  }

  lemma RegistersAfterAll(s: State) returns (t: State, steps: seq<Step>)
    requires s == State(1, true, map[], map[0 := Call(Checked, 0, Empty, false)], Gone)
    ensures t == State(2, true, map[1 := 0], map[0 := Call(Waiting, 1, Empty, true)], Gone)
    ensures Goes(s, steps, t)
  {
    var s1 := s.(nextId := 2, calls := map[0 := Call(Numbered, 1, Empty, false)]);
    var s2 := s1.(pending := map[1 := 0], calls := map[0 := Call(Writing, 1, Empty, true)]);
    t := s2.(calls := map[0 := Call(Waiting, 1, Empty, true)]);
    assert Goes(t, [], t);
    var r2 := Prepend(s2, Write(0, true), t, [], t);
    var r1 := Prepend(s1, Register(0), s2, r2, t);
    steps := Prepend(s, Number(0), s1, r1, t);
  }

  predicate Goes(s: State, steps: seq<Step>, t: State) {
    IsRun(s, steps) && Final(s, steps) == t
  }

  lemma Prepend(s: State, step: Step, t: State, steps: seq<Step>, u: State) returns (longer: seq<Step>)
    requires Enabled(s, step) && Next(s, step) == t && Goes(t, steps, u)
    ensures Goes(s, longer, u)
  {
    longer := [step] + steps;
    assert longer[1..] == steps;
  }
}
