/** Requests to the daemon and their answers (`DaemonClient::call`, `dispatch_msg` and `handle_disconnect`
in src/infrastructure/persistent.rs). A call registers a channel under its request id, writes the
request and waits; the reader task answers. Each lock region, atomic access and await is a step.

The table in place comes first, then the steps, and the invariant that every interleaving keeps. What
follows from it for the calls is in `CallOutcomes`. */
module PendingCalls {
  import opened Bytes

  type CallId = nat
  type RequestId = nat

  datatype Answer = Response(id: RequestId, body: seq<byte>) | ConnectionClosed

  // ---------------------------------------------------------------------------------------
  // The table in place
  // ---------------------------------------------------------------------------------------

  /** A channel for one answer. */
  class Channel {
    var answer: Option<Answer>

    constructor ()
      ensures answer == None
    {
      answer := None;
    }
  }

  const SUBSCRIBER_CAPACITY: nat := 256

  /** A bounded channel to someone who wants the terminal's output; it ends when its sender is dropped. */
  class Subscriber {
    var queue: seq<seq<byte>>
    var ended: bool

    constructor ()
      ensures queue == [] && !ended
    {
      queue, ended := [], false;
    }
  }

  class PendingTable {
    var closed: bool
    var pending: map<RequestId, Channel>
    var subscribers: seq<Subscriber>

    ghost predicate Valid()
      reads this
    {
      forall i, j :: 0 <= i < j < |subscribers| ==> subscribers[i] != subscribers[j]
    }

    constructor ()
      ensures Valid() && !closed && pending == map[] && subscribers == []
    {
      closed, pending, subscribers := false, map[], [];
    }

    method Subscribe() returns (subscriber: Subscriber)
      requires Valid()
      modifies this`subscribers
      ensures Valid() && fresh(subscriber) && subscriber.queue == [] && !subscriber.ended
      ensures subscribers == old(subscribers) + [subscriber]
    {
      subscriber := new Subscriber();
      subscribers := subscribers + [subscriber];
    }

    /** Output goes to every subscriber whose channel is not full; the others lose it, and nobody waits. */
    method DeliverData(bytes: seq<byte>)
      requires Valid()
      modifies set x | x in subscribers
      ensures Valid()
      ensures forall x <- subscribers ::
                x.queue == if |old(x.queue)| < 256 then old(x.queue) + [bytes] else old(x.queue)
      ensures forall x <- subscribers :: x.ended == old(x.ended)
    {
      var i := 0;
      while i < |subscribers|
        invariant 0 <= i <= |subscribers| && Valid()
        invariant forall k :: 0 <= k < i ==> var x := subscribers[k];
                    x.queue == if |old(x.queue)| < SUBSCRIBER_CAPACITY then old(x.queue) + [bytes] else old(x.queue)
        invariant forall k :: i <= k < |subscribers| ==> subscribers[k].queue == old(subscribers[k].queue)
        invariant forall x <- subscribers :: x.ended == old(x.ended)
      {
        if |subscribers[i].queue| < SUBSCRIBER_CAPACITY {
          subscribers[i].queue := subscribers[i].queue + [bytes];
        }
        i := i + 1;
      }
    }

    method Register(id: RequestId) returns (channel: Channel)
      modifies this`pending
      ensures fresh(channel) && channel.answer == None
      ensures pending == old(pending)[id := channel]
    {
      channel := new Channel();
      pending := pending[id := channel];
    }

    /** A response goes to the channel under its id, and takes it out of the table; one that nobody waits
    for is dropped. */
    method DispatchResponse(id: RequestId, body: seq<byte>)
      modifies this`pending, if id in pending then {pending[id]} else {}
      ensures pending == old(pending) - {id}
      ensures id in old(pending) ==> old(pending)[id].answer == Some(Response(id, body))
    {
      if id in pending {
        var channel := pending[id];
        pending := pending - {id};
        channel.answer := Some(Response(id, body));
      }
    }

    /** Everyone registered gets an error, every subscriber's channel ends behind what is queued in it, and nobody
    is registered or subscribed any more. */
    method HandleDisconnect()
      modifies this, pending.Values, set x | x in subscribers
      ensures Valid() && closed && pending == map[] && subscribers == []
      ensures forall id <- old(pending) :: old(pending)[id].answer == Some(ConnectionClosed)
      ensures forall x <- old(subscribers) :: x.ended && x.queue == old(x.queue)
    {
      closed := true;
      var taken := pending;
      pending := map[];
      FailAll(taken);
      var senders := subscribers;
      subscribers := [];
      for i := 0 to |senders|
        invariant closed && pending == map[] && subscribers == []
        invariant forall k :: 0 <= k < i ==> senders[k].ended
        invariant forall x <- senders :: x.queue == old(x.queue)
        invariant forall id <- taken :: taken[id].answer == Some(ConnectionClosed)
      {
        senders[i].ended := true;
      }
    }
  }

  method FailAll(taken: map<RequestId, Channel>)
    modifies taken.Values
    ensures forall id <- taken :: taken[id].answer == Some(ConnectionClosed)
  {
    var rest := taken;
    while rest != map[]
      invariant rest.Keys <= taken.Keys && forall id <- rest :: rest[id] == taken[id]
      invariant forall id <- taken :: id in rest || taken[id].answer == Some(ConnectionClosed)
      decreases |rest.Keys|
    {
      var id :| id in rest;
      rest[id].answer := Some(ConnectionClosed);
      rest := rest - {id};
    }
  }

  // ---------------------------------------------------------------------------------------
  // Every interleaving
  // ---------------------------------------------------------------------------------------

  datatype Outcome = Refused | Answered(answer: Answer) | WriteFailed | ChannelDropped | TimedOut

  /** `Expired` is between the end of the 30 seconds and leaving the table, `Unwritten` between leaving the
  table after a failed write and marking the connection closed. An abandoned call has been dropped by
  its caller while it waited. */
  datatype Phase =
    | Checked | Numbered | Writing | Unwritten | Waiting | Expired | Abandoned | Returned(outcome: Outcome)

  datatype Slot = Empty | Filled(answer: Answer) | Dropped

  /** `late` records that the call registered after the reader had taken the table. */
  datatype Call = Call(phase: Phase, id: RequestId, slot: Slot, late: bool)

  datatype Reader = Reading | Closing | Failing(left: map<RequestId, CallId>) | Gone

  datatype State = State(
    nextId: RequestId, closed: bool, pending: map<RequestId, CallId>, calls: map<CallId, Call>, reader: Reader)

  const INITIAL := State(1, false, map[], map[], Reading)

  datatype Step =
    | Check(call: CallId)
    | Number(call: CallId)
    | Register(call: CallId)
    | Write(call: CallId, ok: bool)
    | StoreClosed(call: CallId)
    | Receive(call: CallId)
    | Expire(call: CallId)
    | Unregister(call: CallId)
    | Abandon(call: CallId)
    | Dispatch(id: RequestId, body: seq<byte>)
    | Disconnect
    | TakeTable
    | FailOne(id: RequestId)
    | Finish

  predicate InPhase(s: State, c: CallId, phase: Phase) {
    c in s.calls && s.calls[c].phase == phase
  }

  predicate Enabled(s: State, step: Step) {
    match step
    case Check(c) => c !in s.calls
    case Number(c) => InPhase(s, c, Checked)
    case Register(c) => InPhase(s, c, Numbered)
    case Write(c, _) => InPhase(s, c, Writing)
    case StoreClosed(c) => InPhase(s, c, Unwritten)
    case Receive(c) => InPhase(s, c, Waiting) && s.calls[c].slot != Empty
    case Expire(c) => InPhase(s, c, Waiting) && s.calls[c].slot == Empty
    case Unregister(c) => InPhase(s, c, Expired)
    case Abandon(c) => InPhase(s, c, Writing) || InPhase(s, c, Waiting)
    case Dispatch(_, _) => s.reader == Reading
    case Disconnect => s.reader == Reading
    case TakeTable => s.reader == Closing
    case FailOne(id) => s.reader.Failing? && id in s.reader.left
    case Finish => s.reader == Failing(map[])
  }

  predicate TableTaken(s: State) {
    s.reader.Failing? || s.reader == Gone
  }

  /** The sender that was registered under `id` is dropped unused. */
  function DropSender(calls: map<CallId, Call>, pending: map<RequestId, CallId>, id: RequestId): map<CallId, Call> {
    if id in pending && pending[id] in calls && calls[pending[id]].slot == Empty
    then calls[pending[id] := calls[pending[id]].(slot := Dropped)] else calls
  }

  function Send(calls: map<CallId, Call>, c: CallId, a: Answer): map<CallId, Call> {
    if c in calls then calls[c := calls[c].(slot := Filled(a))] else calls
  }

  function Move(s: State, c: CallId, phase: Phase): State
    requires c in s.calls
  {
    s.(calls := s.calls[c := s.calls[c].(phase := phase)])
  }

  /** A call takes its own entry out of the table and goes on. */
  function Leave(s: State, c: CallId, phase: Phase): State
    requires c in s.calls
  {
    Move(s, c, phase).(pending := s.pending - {s.calls[c].id})
  }

  function Next(s: State, step: Step): State
    requires Enabled(s, step)
  {
    match step
    case Check(c) => s.(calls := s.calls[c := Call(if s.closed then Returned(Refused) else Checked, 0, Empty, false)])
    case Number(c) =>
      s.(nextId := s.nextId + 1, calls := s.calls[c := s.calls[c].(phase := Numbered, id := s.nextId)])
    case Register(c) =>
      var x := s.calls[c];
      s.(pending := s.pending[x.id := c],
         calls := DropSender(s.calls, s.pending, x.id)[c := x.(phase := Writing, late := TableTaken(s))])
    case Write(c, ok) => if ok then Move(s, c, Waiting) else Leave(s, c, Unwritten)
    case StoreClosed(c) => Move(s, c, Returned(WriteFailed)).(closed := true)
    case Receive(c) =>
      if s.calls[c].slot.Filled? then Move(s, c, Returned(Answered(s.calls[c].slot.answer)))
      else Leave(s, c, Returned(ChannelDropped))
    case Expire(c) => Move(s, c, Expired)
    case Unregister(c) => Leave(s, c, Returned(TimedOut))
    case Abandon(c) => Move(s, c, Abandoned)
    case Dispatch(id, body) =>
      if id in s.pending
      then s.(pending := s.pending - {id}, calls := Send(s.calls, s.pending[id], Response(id, body))) else s
    case Disconnect => s.(reader := Closing, closed := true)
    case TakeTable => s.(reader := Failing(s.pending), pending := map[])
    case FailOne(id) =>
      s.(reader := Failing(s.reader.left - {id}), calls := Send(s.calls, s.reader.left[id], ConnectionClosed))
    case Finish => s.(reader := Gone)
  }

  predicate IsRun(s: State, steps: seq<Step>)
    decreases |steps|
  {
    steps != [] ==> Enabled(s, steps[0]) && IsRun(Next(s, steps[0]), steps[1..])
  }

  function Final(s: State, steps: seq<Step>): State
    requires IsRun(s, steps)
    decreases |steps|
  {
    if steps == [] then s else Final(Next(s, steps[0]), steps[1..])
  }

  // ---------------------------------------------------------------------------------------
  // The invariant
  // ---------------------------------------------------------------------------------------

  predicate HasId(x: Call) {
    x.phase != Checked && x.phase != Returned(Refused)
  }

  predicate WasRegistered(x: Call) {
    HasId(x) && x.phase != Numbered
  }

  predicate InTable(s: State, id: RequestId, c: CallId) {
    || (id in s.pending && s.pending[id] == c)
    || (s.reader.Failing? && id in s.reader.left && s.reader.left[id] == c)
  }

  /** What is true of every call. */
  predicate CallOk(s: State, c: CallId)
    requires c in s.calls
  {
    var x := s.calls[c];
    && (HasId(x) ==> x.id < s.nextId)
    && (!WasRegistered(x) ==> x.slot == Empty && !x.late)
    && x.slot != Dropped
    && (x.slot.Filled? && x.slot.answer.Response? ==> x.slot.answer.id == x.id)
    && (x.late ==> TableTaken(s) && x.slot == Empty)
    && ((x.phase == Writing || x.phase == Waiting) && x.slot == Empty ==> InTable(s, x.id, c))
    && (x.phase.Returned? && x.phase.outcome.Answered? ==> x.slot == Filled(x.phase.outcome.answer))
    && x.phase != Returned(ChannelDropped)
  }

  predicate CallsOk(s: State) {
    forall c <- s.calls :: CallOk(s, c)
  }

  predicate IdsDiffer(s: State) {
    forall c <- s.calls, d <- s.calls :: c != d && HasId(s.calls[c]) && HasId(s.calls[d]) ==>
      s.calls[c].id != s.calls[d].id
  }

  /** What is true of every entry of the table: its call is in progress or abandoned, and unanswered. */
  predicate EntryOk(s: State, id: RequestId, c: CallId) {
    && c in s.calls
    && s.calls[c].id == id
    && s.calls[c].phase in {Writing, Waiting, Expired, Abandoned}
    && s.calls[c].slot == Empty
  }

  predicate PendingOk(s: State) {
    forall id <- s.pending :: EntryOk(s, id, s.pending[id]) && (TableTaken(s) ==> s.calls[s.pending[id]].late)
  }

  predicate LeftOk(s: State) {
    s.reader.Failing? ==>
      forall id <- s.reader.left :: EntryOkOrGone(s, id, s.reader.left[id])
  }

  /** A call whose entry the reader has taken may go on without it. */
  predicate EntryOkOrGone(s: State, id: RequestId, c: CallId) {
    && c in s.calls
    && WasRegistered(s.calls[c]) && s.calls[c].id == id
    && s.calls[c].slot == Empty && !s.calls[c].late
    && (s.calls[c].phase.Returned? ==> !s.calls[c].phase.outcome.Answered?)
  }

  predicate TableOk(s: State) {
    CallsOk(s) && IdsDiffer(s) && PendingOk(s) && LeftOk(s)
  }

  /** Request ids are never used twice, so registering overwrites no other call's channel. */
  lemma RegisterDropsNobody(s: State, c: CallId)
    requires Enabled(s, Register(c)) && TableOk(s)
    ensures s.calls[c].id !in s.pending
    ensures s.reader.Failing? ==> s.calls[c].id !in s.reader.left
  {
    var id := s.calls[c].id;
    if id in s.pending {
      assert false;
    }
    if s.reader.Failing? && id in s.reader.left {
      assert false;
    }
  }

  lemma IdOrigin(s: State, step: Step, c: CallId)
    requires Enabled(s, step) && TableOk(s) && c in Next(s, step).calls && HasId(Next(s, step).calls[c])
    ensures var x := Next(s, step).calls[c];
            || (c in s.calls && HasId(s.calls[c]) && x.id == s.calls[c].id < s.nextId)
            || (step == Number(c) && x.id == s.nextId)
  {
    if c in s.calls {
      assert CallOk(s, c);
    }
    if step.Register? {
      RegisterDropsNobody(s, step.call);
    }
  }

  lemma {:induction false} StepKeepsIds(s: State, step: Step)
    requires Enabled(s, step) && TableOk(s)
    ensures IdsDiffer(Next(s, step))
  {
    var t := Next(s, step);
    forall c, d | c in t.calls && d in t.calls && c != d && HasId(t.calls[c]) && HasId(t.calls[d])
      ensures t.calls[c].id != t.calls[d].id
    {
      IdOrigin(s, step, c);
      IdOrigin(s, step, d);
    }
  }

  predicate IsCallStep(step: Step) {
    !(step.Dispatch? || step.Disconnect? || step.TakeTable? || step.FailOne? || step.Finish?)
  }

  predicate StaysPending(s: State, step: Step, id: RequestId)
    requires Enabled(s, step)
  {
    var t := Next(s, step);
    && id in s.pending && id in t.pending && t.pending[id] == s.pending[id]
    && EntryOk(t, id, s.pending[id])
    && (TableTaken(t) ==> TableTaken(s))
    && s.pending[id] in s.calls && t.calls[s.pending[id]].late == s.calls[s.pending[id]].late
  }

  /** An entry stays as it is, whatever its own call, the other calls and the reader do. */
  lemma OwnStepKeepsEntry(s: State, step: Step, id: RequestId)
    requires Enabled(s, step) && TableOk(s) && IsCallStep(step) && !step.Register?
    requires id in Next(s, step).pending && id in s.pending && s.pending[id] == step.call
    ensures StaysPending(s, step, id)
  {
    assert EntryOk(s, id, s.pending[id]);
  }

  lemma OtherStepKeepsEntry(s: State, step: Step, id: RequestId)
    requires Enabled(s, step) && TableOk(s) && IsCallStep(step) && id in Next(s, step).pending
    requires id in s.pending ==> s.pending[id] != step.call
    requires step.Register? ==> id != s.calls[step.call].id
    ensures StaysPending(s, step, id)
  {
    assert EntryOk(s, id, s.pending[id]);
    if step.Register? {
      RegisterDropsNobody(s, step.call);
    }
  }

  lemma ReaderStepKeepsEntry(s: State, step: Step, id: RequestId)
    requires Enabled(s, step) && TableOk(s) && id in Next(s, step).pending && !IsCallStep(step)
    ensures StaysPending(s, step, id)
  {
    assert EntryOk(s, id, s.pending[id]);
    if step.FailOne? {
      assert EntryOkOrGone(s, step.id, s.reader.left[step.id]);
    }
  }

  lemma StepKeepsPending(s: State, step: Step)
    requires Enabled(s, step) && TableOk(s)
    ensures PendingOk(Next(s, step))
  {
    var t := Next(s, step);
    forall id | id in t.pending
      ensures EntryOk(t, id, t.pending[id]) && (TableTaken(t) ==> t.calls[t.pending[id]].late)
    {
      if !IsCallStep(step) {
        ReaderStepKeepsEntry(s, step, id);
      } else if step.Register? && id == s.calls[step.call].id {
        RegisterDropsNobody(s, step.call);
      } else if id in s.pending && s.pending[id] == step.call {
        assert EntryOk(s, id, step.call);
        OwnStepKeepsEntry(s, step, id);
      } else {
        OtherStepKeepsEntry(s, step, id);
      }
    }
  }

  lemma CallStepKeepsLeft(s: State, step: Step, id: RequestId)
    requires Enabled(s, step) && TableOk(s) && IsCallStep(step) && s.reader.Failing? && id in s.reader.left
    ensures EntryOkOrGone(Next(s, step), id, s.reader.left[id])
  {
    var c := s.reader.left[id];
    assert EntryOkOrGone(s, id, c);
    if step.Register? {
      RegisterDropsNobody(s, step.call);
    }
    if step.call == c {
      OwnStepKeepsLeft(s, step, id);
    } else {
      assert Next(s, step).calls[c] == s.calls[c];
    }
  }

  lemma OwnStepKeepsLeft(s: State, step: Step, id: RequestId)
    requires Enabled(s, step) && IsCallStep(step) && step.call in s.calls && EntryOkOrGone(s, id, step.call)
    ensures EntryOkOrGone(Next(s, step), id, step.call)
  {
  }

  lemma ReaderStepKeepsLeft(s: State, step: Step, id: RequestId)
    requires Enabled(s, step) && TableOk(s) && !IsCallStep(step) && s.reader.Failing? && id in s.reader.left
    requires step != FailOne(id)
    ensures EntryOkOrGone(Next(s, step), id, s.reader.left[id])
  {
    assert EntryOkOrGone(s, id, s.reader.left[id]);
    if step.FailOne? {
      assert EntryOkOrGone(s, step.id, s.reader.left[step.id]);
    }
  }

  lemma {:induction false} StepKeepsLeft(s: State, step: Step)
    requires Enabled(s, step) && TableOk(s)
    ensures LeftOk(Next(s, step))
  {
    var t := Next(s, step);
    if t.reader.Failing? {
      forall id | id in t.reader.left
        ensures EntryOkOrGone(t, id, t.reader.left[id])
      {
        if step == TakeTable {
          assert EntryOk(s, id, s.pending[id]) && CallOk(s, s.pending[id]);
        } else if IsCallStep(step) {
          CallStepKeepsLeft(s, step, id);
        } else {
          ReaderStepKeepsLeft(s, step, id);
        }
      }
    }
  }

  /** Call `c` itself is as it was, and so is its entry in the table. */
  lemma CallOkStays(s: State, t: State, c: CallId)
    requires c in s.calls && c in t.calls && CallOk(s, c) && t.calls[c] == s.calls[c]
    requires s.nextId <= t.nextId && (TableTaken(s) ==> TableTaken(t))
    requires WasRegistered(s.calls[c]) && s.calls[c].slot == Empty && InTable(s, s.calls[c].id, c) ==>
               InTable(t, s.calls[c].id, c)
    ensures CallOk(t, c)
  {
  }

  lemma OtherStepKeepsCall(s: State, step: Step, c: CallId)
    requires Enabled(s, step) && TableOk(s) && c in s.calls && IsCallStep(step) && step.call != c
    ensures CallOk(Next(s, step), c)
  {
    if step.Register? {
      RegisterDropsNobody(s, step.call);
    }
    assert CallOk(s, c);
    CallOkStays(s, Next(s, step), c);
  }

  lemma RegisterKeepsCall(s: State, c: CallId)
    requires Enabled(s, Register(c)) && TableOk(s)
    ensures CallOk(Next(s, Register(c)), c)
  {
    assert CallOk(s, c);
    RegisterDropsNobody(s, c);
  }

  lemma OwnStepKeepsCall(s: State, step: Step)
    requires Enabled(s, step) && IsCallStep(step) && !step.Register?
    requires step.call in s.calls ==> CallOk(s, step.call)
    ensures CallOk(Next(s, step), step.call)
  {
  }

  lemma DispatchKeepsCall(s: State, id: RequestId, body: seq<byte>, c: CallId)
    requires Enabled(s, Dispatch(id, body)) && TableOk(s) && c in s.calls
    ensures CallOk(Next(s, Dispatch(id, body)), c)
  {
    assert CallOk(s, c);
    if id in s.pending {
      assert EntryOk(s, id, s.pending[id]);
    }
  }

  lemma ReaderStepKeepsCall(s: State, step: Step, c: CallId)
    requires Enabled(s, step) && TableOk(s) && c in s.calls
    requires step == Disconnect || step == TakeTable || step == Finish
    ensures CallOk(Next(s, step), c)
  {
    assert CallOk(s, c);
    CallOkStays(s, Next(s, step), c);
  }

  lemma FailOneKeepsCall(s: State, id: RequestId, c: CallId)
    requires Enabled(s, FailOne(id)) && TableOk(s) && c in s.calls
    ensures CallOk(Next(s, FailOne(id)), c)
  {
    assert CallOk(s, c) && EntryOkOrGone(s, id, s.reader.left[id]);
  }

  lemma {:induction false} StepKeepsCalls(s: State, step: Step)
    requires Enabled(s, step) && TableOk(s)
    ensures CallsOk(Next(s, step))
  {
    var t := Next(s, step);
    forall c | c in t.calls
      ensures CallOk(t, c)
    {
      if IsCallStep(step) {
        if step == Register(c) {
          RegisterKeepsCall(s, c);
        } else if c == step.call {
          OwnStepKeepsCall(s, step);
        } else {
          OtherStepKeepsCall(s, step, c);
        }
      } else {
        match step {
          case Dispatch(id, body) => DispatchKeepsCall(s, id, body, c);
          case FailOne(id) => FailOneKeepsCall(s, id, c);
          case _ => ReaderStepKeepsCall(s, step, c);
        }
      }
    }
  }

  lemma {:induction false} StepKeepsTable(s: State, step: Step)
    requires Enabled(s, step) && TableOk(s)
    ensures TableOk(Next(s, step))
  {
    StepKeepsIds(s, step);
    StepKeepsPending(s, step);
    StepKeepsLeft(s, step);
    StepKeepsCalls(s, step);
  }

  lemma {:induction false} TableStaysOk(s: State, steps: seq<Step>)
    requires IsRun(s, steps) && TableOk(s)
    ensures TableOk(Final(s, steps))
    decreases |steps|
  {
    if steps != [] {
      StepKeepsTable(s, steps[0]);
      TableStaysOk(Next(s, steps[0]), steps[1..]);
    }
  }
}
