/** The daemon's sessions, connections and event pumps (agentd/src/session.rs, agentd/src/rpc.rs) as a
state machine. Every lock region and atomic access of the program is one step; what a thread does
between two of them touches only its own locals and belongs to the step before. A pump's socket write
belongs to the read it sends: the pump touches nothing that is shared until it is done. */
module DaemonSession {
  import opened Bytes
  import opened DaemonBuffer

  type SessionId = nat
  type ConnectionId = nat

  // ---------------------------------------------------------------------------------------
  // Sessions and the PTY read thread
  // ---------------------------------------------------------------------------------------

  datatype SessionState = Created | Attached | Detached | Lost

  datatype TerminalInfo = Exited(code: int) | ExitedUnknown | Failed(reason: string)

  /** The read thread: reading, between setting the terminal info and setting the state, gone. */
  datatype ReadPhase = Reading | Finishing | Ended

  datatype Session = Session(
    state: SessionState, terminal: Option<TerminalInfo>, epoch: nat, history: seq<byte>, phase: ReadPhase)

  const NEW_SESSION := Session(Created, None, 0, [], Reading)

  datatype PtyAction = Output(data: seq<byte>) | EndOfFile(info: TerminalInfo) | MarkLost

  predicate PtyEnabled(x: Session, a: PtyAction) {
    match a
    case Output(_) => x.phase == Reading
    case EndOfFile(_) => x.phase == Reading
    case MarkLost => x.phase == Finishing
  }

  function PtyNext(x: Session, a: PtyAction): Session {
    match a
    case Output(data) => x.(history := x.history + data)
    case EndOfFile(info) => x.(terminal := Some(info), phase := Finishing)
    case MarkLost => x.(state := Lost, phase := Ended)
  }

  /** The state lock region of `attach`: taken over only when nobody is attached. */
  function ClaimNext(x: Session): Session {
    if x.state == Created || x.state == Detached then x.(state := Attached) else x
  }

  /** The state lock region of `detach`. */
  function ReleaseNext(x: Session): Session {
    if x.state == Attached then x.(state := Detached) else x
  }

  function BumpNext(x: Session): Session {
    x.(epoch := x.epoch + 1)
  }

  /** `Lost` exactly when the read thread is gone, terminal info exactly when it stopped reading. */
  predicate SessionOk(x: Session) {
    && (x.state == Lost <==> x.phase == Ended)
    && (x.terminal.Some? <==> x.phase != Reading)
  }

  /** What may happen to a session: history only grows, and only while the read thread reads; terminal
  info is set once; `Lost` is for ever; `Created` is never entered. */
  predicate Evolves(x: Session, y: Session) {
    && x.history <= y.history
    && (x.phase != Reading ==> y.history == x.history && y.phase != Reading)
    && x.epoch <= y.epoch
    && (x.terminal.Some? ==> y.terminal == x.terminal)
    && (x.state == Lost ==> y.state == Lost)
    && (y.state == Created ==> x.state == Created)
  }

  // ---------------------------------------------------------------------------------------
  // Connections
  // ---------------------------------------------------------------------------------------

  /** Where a connection's task is. The phases from `Found` to `Answering` are those of one attach. */
  datatype Phase =
    | Idle
    | Found(sid: SessionId, since: nat)
    | Claimed(sid: SessionId, since: nat)
    | Bumped(sid: SessionId, since: nat)
    | Replied(sid: SessionId, since: nat, reply: SinceResult)
    | FoundAgain(sid: SessionId, since: nat, reply: SinceResult)
    | Answering(sid: SessionId, since: nat, reply: SinceResult, epoch: nat)
    | Releasing(sid: SessionId)
    | Cleaning
    | CleaningOne
    | Gone

  /** `attached` is the connection's list of sessions to detach when it goes. */
  datatype Connection = Connection(phase: Phase, attached: seq<SessionId>)

  datatype ConnAction =
    | Connect
    | Find(sid: SessionId, since: nat)
    | Claim
    | Bump
    | ReadBuffer
    | FindAgain
    | TakeEpoch
    | Answer(ok: bool)
    | FindForDetach(sid: SessionId)
    | Release
    | Close(sid: SessionId)
    | Disconnect
    | CleanNext

  // ---------------------------------------------------------------------------------------
  // Pumps
  // ---------------------------------------------------------------------------------------

  /** `Finished` carries the terminal info the pump read (`None` is the program's fallback arm); `Closed`
  is the terminal event for a session that was removed. */
  datatype Event = PtyData(slice: SinceResult) | Finished(info: Option<TerminalInfo>) | Closed

  datatype PumpPhase = AtCheck | AtRead | AtContains | AtState | AtTerminal | Waiting | Stopped

  /** `cid` is the connection whose socket the pump writes to, `since` the cursor its attach asked for, `reply`
  what it returned. `readAt`, `lookedAt` and `stateAt` record the length of the history at the last
  buffer read, at the last look into the manager's map and at the last state read; the program does
  not keep them, nor `since`. */
  datatype Pump = Pump(
    sid: SessionId, cid: ConnectionId, epoch: nat, since: nat, reply: SinceResult, lastSent: nat,
    phase: PumpPhase, events: seq<Event>, readAt: nat, lookedAt: nat, stateAt: nat)

  /** One step of the pump loop; `ok` is whether its socket write, if it makes one, succeeds. */
  function PumpNext(p: Pump, x: Session, registered: bool, ok: bool): Pump {
    match p.phase
    case AtCheck => p.(phase := if x.epoch != p.epoch then Stopped else AtRead)
    case AtRead =>
      var r := SinceAt(x.history, DEFAULT_BUFFER_SIZE, p.lastSent);
      var q := p.(readAt := |x.history|);
      if r.data == [] then q.(phase := AtContains)
      else if ok then q.(phase := AtContains, events := p.events + [PtyData(r)], lastSent := r.cursorEnd)
      else q.(phase := Stopped)
    case AtContains =>
      var q := p.(lookedAt := |x.history|);
      if registered then q.(phase := AtState)
      else q.(phase := Stopped, events := if ok then p.events + [Closed] else p.events)
    case AtState =>
      p.(stateAt := |x.history|,
         phase := if x.state == Attached then Waiting else if x.state == Lost then AtTerminal else Stopped)
    case AtTerminal => p.(phase := Stopped, events := if ok then p.events + [Finished(x.terminal)] else p.events)
    case Waiting => p.(phase := AtCheck)
    case Stopped => p
  }

  // ---------------------------------------------------------------------------------------
  // The daemon
  // ---------------------------------------------------------------------------------------

  /** `sessions` holds every session ever created, `registered` those in the manager's map: a task keeps a
  session it found alive after it is removed from the map. */
  datatype State = State(
    sessions: map<SessionId, Session>, registered: set<SessionId>,
    connections: map<ConnectionId, Connection>, pumps: seq<Pump>)

  const INITIAL := State(map[], {}, map[], [])

  datatype Step =
    | Create(sid: SessionId)
    | PtyStep(sid: SessionId, pty: PtyAction)
    | ConnStep(cid: ConnectionId, action: ConnAction)
    | PumpStep(i: nat, ok: bool)

  /** The session a phase refers to. */
  function Subject(c: Connection): Option<SessionId> {
    match c.phase
    case Found(sid, _) => Some(sid)
    case Claimed(sid, _) => Some(sid)
    case Bumped(sid, _) => Some(sid)
    case Replied(sid, _, _) => Some(sid)
    case FoundAgain(sid, _, _) => Some(sid)
    case Answering(sid, _, _, _) => Some(sid)
    case Releasing(sid) => Some(sid)
    case CleaningOne => if c.attached == [] then None else Some(c.attached[0])
    case _ => None
  }

  predicate ConnEnabled(c: Connection, a: ConnAction) {
    match a
    case Connect => false
    case Find(_, _) => c.phase == Idle
    case Claim => c.phase.Found?
    case Bump => c.phase.Claimed?
    case ReadBuffer => c.phase.Bumped?
    case FindAgain => c.phase.Replied?
    case TakeEpoch => c.phase.FoundAgain?
    case Answer(_) => c.phase.Answering?
    case FindForDetach(_) => c.phase == Idle
    case Release => c.phase.Releasing? || (c.phase == CleaningOne && c.attached != [])
    case Close(_) => c.phase == Idle
    case Disconnect => c.phase == Idle
    case CleanNext => c.phase == Cleaning
  }

  /** A subject is always a known session (`ReferencesStayValid`), so that conjunct disables nothing. */
  predicate Enabled(s: State, step: Step) {
    match step
    case Create(sid) => sid !in s.sessions
    case PtyStep(sid, a) => sid in s.sessions && PtyEnabled(s.sessions[sid], a)
    case ConnStep(cid, a) =>
      if a == Connect then cid !in s.connections
      else
        && cid in s.connections
        && ConnEnabled(s.connections[cid], a)
        && (Subject(s.connections[cid]).Some? ==> Subject(s.connections[cid]).value in s.sessions)
    case PumpStep(i, _) => i < |s.pumps| && s.pumps[i].phase != Stopped && s.pumps[i].sid in s.sessions
  }

  function Without(xs: seq<SessionId>, sid: SessionId): seq<SessionId> {
    if xs == [] then []
    else (if xs[0] == sid then [] else [xs[0]]) + Without(xs[1..], sid)
  }

  /** What a connection's step does to the session it is about; `None` when it touches no session. */
  function SessionEffect(c: Connection, x: Session, a: ConnAction): Session {
    match a
    case Claim => ClaimNext(x)
    case Bump => BumpNext(x)
    case Release => ReleaseNext(x)
    case _ => x
  }

  /** `x` is the session that the phase refers to, when there is one. */
  function ConnectionAfter(s: State, c: Connection, x: Session, a: ConnAction): Connection
    requires ConnEnabled(c, a)
  {
    match a
    case Find(sid, since) => if sid in s.registered then c.(phase := Found(sid, since)) else c
    case Claim =>
      if x.state == Created || x.state == Detached
      then c.(phase := Claimed(c.phase.sid, c.phase.since)) else c.(phase := Idle)
    case Bump => c.(phase := Bumped(c.phase.sid, c.phase.since))
    case ReadBuffer =>
      c.(phase :=
           Replied(c.phase.sid, c.phase.since, SinceAt(x.history, DEFAULT_BUFFER_SIZE, c.phase.since)))
    case FindAgain =>
      if c.phase.sid in s.registered
      then c.(phase := FoundAgain(c.phase.sid, c.phase.since, c.phase.reply)) else c.(phase := Idle)
    case TakeEpoch =>
      Connection(Answering(c.phase.sid, c.phase.since, c.phase.reply, x.epoch), c.attached + [c.phase.sid])
    case Answer(ok) => c.(phase := if ok then Idle else Cleaning)
    case FindForDetach(sid) => if sid in s.registered then c.(phase := Releasing(sid)) else c
    case Release =>
      if c.phase == CleaningOne then Connection(Cleaning, c.attached[1..])
      else if x.state == Attached then Connection(Idle, Without(c.attached, c.phase.sid))
      else c.(phase := Idle)
    case Close(sid) => if sid in s.registered then c.(attached := Without(c.attached, sid)) else c
    case Disconnect => c.(phase := Cleaning)
    case CleanNext =>
      if c.attached == [] then c.(phase := Gone)
      else if c.attached[0] in s.registered then c.(phase := CleaningOne)
      else c.(attached := c.attached[1..])
  }

  function NewPump(cid: ConnectionId, c: Connection): Pump
    requires c.phase.Answering?
  {
    var r := c.phase.reply;
    Pump(c.phase.sid, cid, c.phase.epoch, c.phase.since, r, r.cursorEnd, AtCheck, [], 0, 0, 0)
  }

  function Next(s: State, step: Step): State
    requires Enabled(s, step)
  {
    match step
    case Create(sid) =>
      s.(sessions := s.sessions[sid := NEW_SESSION], registered := s.registered + {sid})
    case PtyStep(sid, a) => s.(sessions := s.sessions[sid := PtyNext(s.sessions[sid], a)])
    case ConnStep(cid, a) =>
      if a == Connect then s.(connections := s.connections[cid := Connection(Idle, [])])
      else
        var c := s.connections[cid];
        var subject := Subject(c);
        var x := if subject.Some? then s.sessions[subject.value] else NEW_SESSION;
        State(
          if subject.Some? then s.sessions[subject.value := SessionEffect(c, x, a)] else s.sessions,
          if a.Close? then s.registered - {a.sid} else s.registered,
          s.connections[cid := ConnectionAfter(s, c, x, a)],
          if a == Answer(true) then s.pumps + [NewPump(cid, c)] else s.pumps)
    case PumpStep(i, ok) =>
      var p := s.pumps[i];
      s.(pumps := s.pumps[i := PumpNext(p, s.sessions[p.sid], p.sid in s.registered, ok)])
  }

  predicate IsRun(s: State, steps: seq<Step>)
    decreases |steps|
  {
    steps != [] ==> Enabled(s, steps[0]) && IsRun(Next(s, steps[0]), steps[1..])
  }

  function Final(s: State, steps: seq<Step>): State
    requires IsRun(s, steps)
    decreases |steps|
  {
    if steps == [] then s else Final(Next(s, steps[0]), steps[1..])
  }

  // ---------------------------------------------------------------------------------------
  // The lock regions on the session object
  // ---------------------------------------------------------------------------------------

  datatype AttachError = IsLost | InvalidState

  /** The fields of the program's session that are locked and updated in place, and its buffer. */
  class SessionObject {
    const buffer: RingBuffer
    var state: SessionState
    var terminal: Option<TerminalInfo>
    var epoch: nat
    ghost var phase: ReadPhase

    ghost predicate Valid()
      reads buffer, buffer.inner, buffer.inner.buf
    {
      buffer.Valid() && buffer.inner.size == DEFAULT_BUFFER_SIZE
    }

    ghost function Model(): Session
      reads this, buffer.inner
    {
      Session(state, terminal, epoch, buffer.inner.history, phase)
    }

    constructor ()
      ensures Valid() && fresh(buffer) && fresh(buffer.inner) && fresh(buffer.inner.buf)
      ensures Model() == NEW_SESSION
    {
      buffer := new RingBuffer(0);
      state, terminal, epoch, phase := Created, None, 0, Reading;
    }

    method Claim() returns (error: Option<AttachError>)
      modifies this`state
      ensures Model() == ClaimNext(old(Model()))
      ensures SessionOk(old(Model())) ==> SessionOk(Model()) && Evolves(old(Model()), Model())
      ensures error == (match old(state)
                        case Lost => Some(IsLost)
                        case Attached => Some(InvalidState)
                        case _ => None)
    {
      match state {
        case Lost => error := Some(IsLost);
        case Attached => error := Some(InvalidState);
        case _ =>
          state := Attached;
          error := None;
      }
    }

    /** `attach` of a session that has been found: refused without any change, or taken over with a new epoch
    and a reply from the buffer. */
    method Attach(since: nat) returns (error: Option<AttachError>, reply: SinceResult)
      requires Valid()
      modifies this`state, this`epoch
      ensures error == (match old(state)
                        case Lost => Some(IsLost)
                        case Attached => Some(InvalidState)
                        case _ => None)
      ensures error.Some? ==> Model() == old(Model())
      ensures error.None? ==> Model() == old(Model()).(state := Attached, epoch := old(epoch) + 1)
      ensures error.None? ==> reply == SinceAt(Model().history, DEFAULT_BUFFER_SIZE, since)
      ensures SessionOk(old(Model())) ==> SessionOk(Model()) && Evolves(old(Model()), Model())
    {
      reply := SinceResult(0, 0, false, []);
      error := Claim();
      if error.None? {
        epoch := epoch + 1;
        reply := buffer.ReadSince(since);
      }
    }

    /** `detach` of a session that has been found. */
    method Release() returns (error: Option<AttachError>)
      modifies this`state
      ensures Model() == ReleaseNext(old(Model()))
      ensures SessionOk(old(Model())) ==> SessionOk(Model()) && Evolves(old(Model()), Model())
      ensures error == (match old(state)
                        case Attached => None
                        case Lost => Some(IsLost)
                        case _ => Some(InvalidState))
    {
      match state {
        case Attached =>
          state := Detached;
          error := None;
        case Lost => error := Some(IsLost);
        case _ => error := Some(InvalidState);
      }
    }

    /** The read thread, from its first read to its end: every piece of output goes into the buffer, then the
    terminal info is set, and only then the state. */
    method ReadLoop(pieces: seq<seq<byte>>, info: TerminalInfo)
      requires Valid() && phase == Reading && SessionOk(Model())
      modifies this`terminal, this`state, this`phase, buffer.inner, buffer.inner.buf
      ensures Valid()
      ensures Model() == Session(Lost, Some(info), old(epoch), old(Model()).history + Flatten(pieces), Ended)
      ensures SessionOk(Model()) && Evolves(old(Model()), Model())
    {
      ghost var first := Model();
      var i := 0;
      assert pieces[..0] == [] && first.history + [] == first.history;
      while i < |pieces|
        invariant 0 <= i <= |pieces| && Valid()
        invariant Model() == first.(history := first.history + Flatten(pieces[..i]))
      {
        FlattenSnoc(pieces[..i], pieces[i]);
        assert pieces[..i + 1] == pieces[..i] + [pieces[i]];
        buffer.Write(pieces[i]);
        i := i + 1;
      }
      assert pieces[..i] == pieces;
      terminal, phase := Some(info), Finishing;
      assert SessionOk(Model());
      state, phase := Lost, Ended;
    }
  }
}
