/** Calls that move the mark, when they overlap (src/domain/output.rs). */
module OverlappingReads {
  // A call takes the mark, reads, and stores a new mark, under locks of their own; other calls and
  // writes may come between these steps.

  import opened Bytes
  import opened OutputBuffer

  type CallId = nat

  /** A call between taking the mark and storing the new one. `target` is what it will store, from its last
  read on; `stored` records the last mark another call has stored since, which no call keeps. */
  datatype Call = Call(taken: nat, target: Option<nat>, stored: Option<nat>)

  datatype State = State(history: seq<byte>, mark: nat, calls: map<CallId, Call>)

  const INITIAL := State([], 0, map[])

  /** `ReadUnread` is a settle read's, `Snapshot` that of a wait that hits or of `mark_to_latest`. `Drop` is a
  wait that times out, or any call that is abandoned. */
  datatype Step =
    | Write(data: seq<byte>)
    | Take(call: CallId)
    | ReadUnread(call: CallId)
    | Snapshot(call: CallId)
    | Store(call: CallId)
    | Drop(call: CallId)

  predicate Enabled(s: State, step: Step) {
    match step
    case Write(_) => true
    case Take(c) => c !in s.calls
    case ReadUnread(c) => c in s.calls
    case Snapshot(c) => c in s.calls
    case Store(c) => c in s.calls && s.calls[c].target.Some?
    case Drop(c) => c in s.calls
  }

  function Next(s: State, size: nat, step: Step): State
    requires Enabled(s, step)
  {
    match step
    case Write(data) => s.(history := s.history + data)
    case Take(c) => s.(calls := s.calls[c := Call(s.mark, None, None)])
    case ReadUnread(c) =>
      var x := s.calls[c];
      s.(calls := s.calls[c := x.(target := Some(x.taken + |Unread(s.history, size, x.taken)|))])
    case Snapshot(c) => s.(calls := s.calls[c := s.calls[c].(target := Some(|s.history|))])
    case Store(c) =>
      var v := s.calls[c].target.value;
      State(s.history, v, map d <- s.calls | d != c :: s.calls[d].(stored := Some(v)))
    case Drop(c) => s.(calls := s.calls - {c})
  }

  predicate IsRun(s: State, size: nat, steps: seq<Step>)
    decreases |steps|
  {
    steps != [] ==> Enabled(s, steps[0]) && IsRun(Next(s, size, steps[0]), size, steps[1..])
  }

  function Final(s: State, size: nat, steps: seq<Step>): State
    requires IsRun(s, size, steps)
    decreases |steps|
  {
    if steps == [] then s else Final(Next(s, size, steps[0]), size, steps[1..])
  }

  // ---------------------------------------------------------------------------------------
  // When a store moves the mark back
  // ---------------------------------------------------------------------------------------

  /** The mark is what the last other call has stored, or still what the call took. */
  predicate CallOk(s: State, x: Call) {
    && x.taken <= |s.history|
    && s.mark == (if x.stored.Some? then x.stored.value else x.taken)
    && (x.target.Some? ==> x.taken <= x.target.value <= |s.history|)
  }

  predicate StateOk(s: State) {
    s.mark <= |s.history| && forall c <- s.calls :: CallOk(s, s.calls[c])
  }

  lemma StepKeepsOk(s: State, size: nat, step: Step)
    requires Enabled(s, step) && StateOk(s)
    ensures StateOk(Next(s, size, step))
  {
    var t := Next(s, size, step);
    forall c | c in t.calls
      ensures CallOk(t, t.calls[c])
    {
      if c in s.calls {
        assert CallOk(s, s.calls[c]);
      }
    }
    if step.Store? {
      assert CallOk(s, s.calls[step.call]);
    }
  }

  lemma {:induction false} StaysOk(s: State, size: nat, steps: seq<Step>)
    requires IsRun(s, size, steps) && StateOk(s)
    ensures StateOk(Final(s, size, steps))
    decreases |steps|
  {
    if steps != [] {
      StepKeepsOk(s, size, steps[0]);
      StaysOk(Next(s, size, steps[0]), size, steps[1..]);
    }
  }

  /** In every run the mark stays inside the history. A store moves it back exactly when another call has stored
  since this one took the mark, and the last mark so stored exceeds what this one stores. */
  lemma StoreMovesBackExactly(size: nat, steps: seq<Step>, c: CallId)
    requires IsRun(INITIAL, size, steps) && Enabled(Final(INITIAL, size, steps), Store(c))
    ensures var s := Final(INITIAL, size, steps);
            var x := s.calls[c];
            var t := Next(s, size, Store(c));
            && s.mark <= |s.history| && t.mark == x.target.value <= |t.history|
            && (t.mark < s.mark <==> x.stored.Some? && x.stored.value > x.target.value)
  {
    StaysOk(INITIAL, size, steps);
    assert CallOk(Final(INITIAL, size, steps), Final(INITIAL, size, steps).calls[c]);
  }

  /** No call begins before the one before it is over. */
  predicate OneAtATime(s: State, size: nat, steps: seq<Step>)
    requires IsRun(s, size, steps)
    decreases |steps|
  {
    steps != [] ==>
      (steps[0].Take? ==> s.calls == map[]) && OneAtATime(Next(s, size, steps[0]), size, steps[1..])
  }

  predicate Alone(s: State) {
    forall c <- s.calls, d <- s.calls :: c == d && s.calls[c].stored.None?
  }

  /** Without overlap the mark never moves back. */
  lemma {:induction false} SerialMarksNeverMoveBack(s: State, size: nat, steps: seq<Step>)
    requires IsRun(s, size, steps) && StateOk(s) && Alone(s) && OneAtATime(s, size, steps)
    ensures s.mark <= Final(s, size, steps).mark
    decreases |steps|
  {
    if steps != [] {
      StepKeepsOk(s, size, steps[0]);
      if steps[0].Store? {
        assert CallOk(s, s.calls[steps[0].call]);
      }
      SerialMarksNeverMoveBack(Next(s, size, steps[0]), size, steps[1..]);
    }
  }

  predicate Goes(s: State, size: nat, steps: seq<Step>, t: State) {
    IsRun(s, size, steps) && Final(s, size, steps) == t
  }

  lemma Prepend(s: State, size: nat, step: Step, t: State, steps: seq<Step>, u: State) returns (longer: seq<Step>)
    requires Enabled(s, step) && Next(s, size, step) == t && Goes(t, size, steps, u)
    ensures Goes(s, size, longer, u)
  {
    longer := [step] + steps;
    assert longer[1..] == steps;
  }

  /** Two settle reads overlap: the first has read up to 3 when the second takes the same mark, reads up to 5
  and stores. The store of the first moves the mark back to 3, and the bytes from there were delivered. */
  lemma OverlapMovesBack(size: nat, data: seq<byte>) returns (steps: seq<Step>)
    requires size >= 5 && |data| == 5
    ensures IsRun(INITIAL, size, steps)
    ensures var s := Final(INITIAL, size, steps);
            && s == State(data, 5, map[0 := Call(0, Some(3), Some(5))])
            && Next(s, size, Store(0)).mark == 3
  {
    var a, b := data[..3], data[3..];
    assert [] + a == a && a + b == data;
    var taken, read := Call(0, None, None), Call(0, Some(3), None);
    var s1 := State(a, 0, map[]);
    var s2 := State(a, 0, map[0 := taken]);
    var s3 := State(a, 0, map[0 := read]);
    var s4 := State(data, 0, map[0 := read]);
    var t, r4 := SecondOvertakes(size, s4);
    var r3 := Prepend(s3, size, Write(b), s4, r4, t);
    var r2 := Prepend(s2, size, ReadUnread(0), s3, r3, t);
    var r1 := Prepend(s1, size, Take(0), s2, r2, t);
    steps := Prepend(INITIAL, size, Write(a), s1, r1, t);
  }

  lemma SecondOvertakes(size: nat, s: State) returns (t: State, steps: seq<Step>)
    requires size >= 5 && |s.history| == 5 && s.mark == 0 && s.calls == map[0 := Call(0, Some(3), None)]
    ensures t == State(s.history, 5, map[0 := Call(0, Some(3), Some(5))])
    ensures Goes(s, size, steps, t)
  {
    var s1 := s.(calls := s.calls[1 := Call(0, None, None)]);
    var s2 := s.(calls := s.calls[1 := Call(0, Some(5), None)]);
    t := State(s.history, 5, map[0 := Call(0, Some(3), Some(5))]);
    assert Next(s2, size, Store(1)).calls == t.calls;
    assert Goes(t, size, [], t);
    var r2 := Prepend(s2, size, Store(1), t, [], t);
    var r1 := Prepend(s1, size, ReadUnread(1), s2, r2, t);
    steps := Prepend(s, size, Take(1), s1, r1, t);
  }
}
