/** What a connection gets done by its own steps, while nothing else happens (agentd/src/rpc.rs): attach, detach,
close and cleanup each come to their end. */
module ConnectionProgress {
  import opened Bytes
  import opened DaemonBuffer
  import opened DaemonSession
  import opened SessionSafety

  /** These steps lead from one state to the other. */
  predicate Leads(s: State, steps: seq<Step>, t: State) {
    IsRun(s, steps) && Final(s, steps) == t
  }

  lemma First(s: State, step: Step, t: State, steps: seq<Step>, u: State)
    requires Enabled(s, step) && Next(s, step) == t && Leads(t, steps, u)
    ensures Leads(s, [step] + steps, u)
  {
    assert ([step] + steps)[1..] == steps;
  }

  predicate Has(s: State, cid: ConnectionId, phase: Phase) {
    cid in s.connections && s.connections[cid].phase == phase
  }

  function With(s: State, cid: ConnectionId, c: Connection): State {
    s.(connections := s.connections[cid := c])
  }

  // ---------------------------------------------------------------------------------------
  // Attach and detach
  // ---------------------------------------------------------------------------------------

  function AttachSteps(cid: ConnectionId, sid: SessionId, since: nat): seq<Step> {
    [ConnStep(cid, Find(sid, since)), ConnStep(cid, Claim)] + AfterClaim(cid)
  }

  function AfterClaim(cid: ConnectionId): seq<Step> {
    [ConnStep(cid, Bump)] + ([ConnStep(cid, ReadBuffer)] + AfterReply(cid))
  }

  function AfterReply(cid: ConnectionId): seq<Step> {
    [ConnStep(cid, FindAgain)] + ([ConnStep(cid, TakeEpoch)] + ([ConnStep(cid, Answer(true))] + []))
  }

  /** The session is attached with a new epoch, and the connection has a pump for it that starts with the reply. */
  function AfterAttach(s: State, cid: ConnectionId, sid: SessionId, since: nat): State
    requires cid in s.connections && sid in s.sessions
  {
    var x := s.sessions[sid];
    var reply := SinceAt(x.history, 10 * 1024 * 1024, since);
    State(
      s.sessions[sid := x.(state := Attached, epoch := x.epoch + 1)],
      s.registered,
      s.connections[cid := Connection(Idle, s.connections[cid].attached + [sid])],
      s.pumps + [Pump(sid, cid, x.epoch + 1, since, reply, reply.cursorEnd, AtCheck, [], 0, 0, 0)])
  }

  lemma RepliesLead(s: State, cid: ConnectionId, sid: SessionId, since: nat, reply: SinceResult)
    requires Has(s, cid, Replied(sid, since, reply)) && sid in s.sessions && sid in s.registered
    ensures var x := s.sessions[sid];
            var c := Connection(Idle, s.connections[cid].attached + [sid]);
            Leads(
              s, AfterReply(cid),
              With(s, cid, c).(pumps :=
                s.pumps + [Pump(sid, cid, x.epoch, since, reply, reply.cursorEnd, AtCheck, [], 0, 0, 0)]))
  {
    var epoch, held := s.sessions[sid].epoch, s.connections[cid].attached;
    var s1 := With(s, cid, Connection(FoundAgain(sid, since, reply), held));
    var s2 := With(s, cid, Connection(Answering(sid, since, reply, epoch), held + [sid]));
    var s3 := With(s, cid, Connection(Idle, held + [sid])).(pumps :=
      s.pumps + [Pump(sid, cid, epoch, since, reply, reply.cursorEnd, AtCheck, [], 0, 0, 0)]);
    assert s.sessions[sid := s.sessions[sid]] == s.sessions;
    assert s1.connections[cid := s2.connections[cid]] == s2.connections;
    assert s2.connections[cid := s3.connections[cid]] == s3.connections;
    assert Next(s, ConnStep(cid, FindAgain)) == s1;
    assert Next(s1, ConnStep(cid, TakeEpoch)) == s2;
    assert Next(s2, ConnStep(cid, Answer(true))) == s3;
    assert Leads(s3, [], s3);
    First(s2, ConnStep(cid, Answer(true)), s3, [], s3);
    First(s1, ConnStep(cid, TakeEpoch), s2, [ConnStep(cid, Answer(true))] + [], s3);
    First(s, ConnStep(cid, FindAgain), s1, [ConnStep(cid, TakeEpoch)] + ([ConnStep(cid, Answer(true))] + []), s3);
  }

  lemma ClaimLeads(s: State, cid: ConnectionId, sid: SessionId, since: nat)
    requires Has(s, cid, Claimed(sid, since)) && sid in s.sessions && sid in s.registered
    ensures s.sessions[sid].state == Attached ==> Leads(s, AfterClaim(cid), AfterAttach(s, cid, sid, since))
  {
    var x, held := s.sessions[sid], s.connections[cid].attached;
    var y := x.(epoch := x.epoch + 1);
    var reply := SinceAt(x.history, DEFAULT_BUFFER_SIZE, since);
    var s1 := With(s, cid, Connection(Bumped(sid, since), held)).(sessions := s.sessions[sid := y]);
    var s2 := With(s1, cid, Connection(Replied(sid, since, reply), held));
    assert Next(s, ConnStep(cid, Bump)) == s1;
    assert s1.sessions[sid := y] == s1.sessions;
    assert Next(s1, ConnStep(cid, ReadBuffer)) == s2;
    RepliesLead(s2, cid, sid, since, reply);
    var t := Final(s2, AfterReply(cid));
    assert t.connections == AfterAttach(s, cid, sid, since).connections;
    First(s1, ConnStep(cid, ReadBuffer), s2, AfterReply(cid), t);
    First(s, ConnStep(cid, Bump), s1, [ConnStep(cid, ReadBuffer)] + AfterReply(cid), t);
  }

  /** Progress of an attach: in every state, an idle connection can attach a registered session that is neither
  attached nor lost. It then has a pump for it, whose reply starts at the cursor that was asked for. */
  lemma AttachSucceeds(s: State, cid: ConnectionId, sid: SessionId, since: nat)
    requires Has(s, cid, Idle) && sid in s.sessions && sid in s.registered
    requires s.sessions[sid].state == Created || s.sessions[sid].state == Detached
    ensures Leads(s, AttachSteps(cid, sid, since), AfterAttach(s, cid, sid, since))
  {
    var held := s.connections[cid].attached;
    var x := s.sessions[sid].(state := Attached);
    var s1 := With(s, cid, Connection(Found(sid, since), held));
    var s2 := With(s, cid, Connection(Claimed(sid, since), held)).(sessions := s.sessions[sid := x]);
    assert Next(s, ConnStep(cid, Find(sid, since))) == s1;
    assert s1.connections[cid := Connection(Claimed(sid, since), held)] == s2.connections;
    assert Next(s1, ConnStep(cid, Claim)) == s2;
    ClaimLeads(s2, cid, sid, since);
    var t := AfterAttach(s, cid, sid, since);
    assert AfterAttach(s2, cid, sid, since).connections == t.connections;
    assert AfterAttach(s2, cid, sid, since).sessions == t.sessions;
    First(s1, ConnStep(cid, Claim), s2, AfterClaim(cid), t);
    First(s, ConnStep(cid, Find(sid, since)), s1, [ConnStep(cid, Claim)] + AfterClaim(cid), t);
    assert AttachSteps(cid, sid, since)
        == [ConnStep(cid, Find(sid, since))] + ([ConnStep(cid, Claim)] + AfterClaim(cid));
  }

  /** An attach of a session that is attached or lost changes nothing. */
  lemma AttachIsRefused(s: State, cid: ConnectionId, sid: SessionId, since: nat)
    requires Has(s, cid, Idle) && sid in s.sessions && sid in s.registered
    requires s.sessions[sid].state == Attached || s.sessions[sid].state == Lost
    ensures Leads(s, [ConnStep(cid, Find(sid, since)), ConnStep(cid, Claim)], s)
  {
    var s1 := With(s, cid, Connection(Found(sid, since), s.connections[cid].attached));
    assert s1.connections[cid := s.connections[cid]] == s.connections;
    assert s.sessions[sid := s.sessions[sid]] == s.sessions;
    assert Next(s1, ConnStep(cid, Claim)) == s;
    assert Leads(s, [], s);
    First(s1, ConnStep(cid, Claim), s, [], s);
    First(s, ConnStep(cid, Find(sid, since)), s1, [ConnStep(cid, Claim)] + [], s);
    assert [ConnStep(cid, Find(sid, since)), ConnStep(cid, Claim)]
        == [ConnStep(cid, Find(sid, since))] + ([ConnStep(cid, Claim)] + []);
  }

  /** A detach releases an attached session and takes it out of the connection's list. */
  lemma DetachSucceeds(s: State, cid: ConnectionId, sid: SessionId) returns (t: State)
    requires Has(s, cid, Idle) && sid in s.sessions && sid in s.registered && s.sessions[sid].state == Attached
    ensures Leads(s, [ConnStep(cid, FindForDetach(sid)), ConnStep(cid, Release)], t)
    ensures t.sessions == s.sessions[sid := s.sessions[sid].(state := Detached)] && t.pumps == s.pumps
    ensures Has(t, cid, Idle)
    ensures forall x :: x in t.connections[cid].attached <==> x in s.connections[cid].attached && x != sid
    ensures forall d <- s.connections :: d != cid ==> d in t.connections && t.connections[d] == s.connections[d]
  {
    var held := s.connections[cid].attached;
    var s1 := With(s, cid, Connection(Releasing(sid), held));
    t := Next(s1, ConnStep(cid, Release));
    WithoutMembers(held, sid);
    assert Leads(t, [], t);
    First(s1, ConnStep(cid, Release), t, [], t);
    First(s, ConnStep(cid, FindForDetach(sid)), s1, [ConnStep(cid, Release)] + [], t);
    assert [ConnStep(cid, FindForDetach(sid)), ConnStep(cid, Release)]
        == [ConnStep(cid, FindForDetach(sid))] + ([ConnStep(cid, Release)] + []);
  }

  /** A detach of a session that nobody is attached to changes nothing. */
  lemma DetachIsRefused(s: State, cid: ConnectionId, sid: SessionId)
    requires Has(s, cid, Idle) && sid in s.sessions && sid in s.registered && s.sessions[sid].state != Attached
    ensures Leads(s, [ConnStep(cid, FindForDetach(sid)), ConnStep(cid, Release)], s)
  {
    var s1 := With(s, cid, Connection(Releasing(sid), s.connections[cid].attached));
    assert s1.connections[cid := s.connections[cid]] == s.connections;
    assert s.sessions[sid := s.sessions[sid]] == s.sessions;
    assert Next(s1, ConnStep(cid, Release)) == s;
    assert Leads(s, [], s);
    First(s1, ConnStep(cid, Release), s, [], s);
    First(s, ConnStep(cid, FindForDetach(sid)), s1, [ConnStep(cid, Release)] + [], s);
    assert [ConnStep(cid, FindForDetach(sid)), ConnStep(cid, Release)]
        == [ConnStep(cid, FindForDetach(sid))] + ([ConnStep(cid, Release)] + []);
  }

  /** Whatever is asked of a session that is not in the map changes nothing. */
  lemma UnknownIsRefused(s: State, cid: ConnectionId, sid: SessionId, a: ConnAction)
    requires Has(s, cid, Idle) && sid !in s.registered
    requires a == FindForDetach(sid) || a == Close(sid) || (a.Find? && a.sid == sid)
    ensures Enabled(s, ConnStep(cid, a)) && Next(s, ConnStep(cid, a)) == s
  {
    assert s.connections[cid := s.connections[cid]] == s.connections;
    assert s.registered - {sid} == s.registered;
  }

  /** A session that is closed while it is being attached is not entered in the list, and gets no pump. */
  lemma AttachOfClosedFails(s: State, cid: ConnectionId, sid: SessionId, since: nat, reply: SinceResult)
    requires Has(s, cid, Replied(sid, since, reply)) && sid in s.sessions && sid !in s.registered
    ensures Enabled(s, ConnStep(cid, FindAgain))
    ensures var t := Next(s, ConnStep(cid, FindAgain));
            Has(t, cid, Idle) && t.connections[cid].attached == s.connections[cid].attached && t.pumps == s.pumps
  {
  }

  /** A new session is in the map, created, silent, alive and not attached. */
  lemma CreateMakesNew(s: State, sid: SessionId)
    requires sid !in s.sessions
    ensures Enabled(s, Create(sid))
    ensures var t := Next(s, Create(sid));
            && t.sessions == s.sessions[sid := Session(Created, None, 0, [], Reading)]
            && t.registered == s.registered + {sid} && t.connections == s.connections && t.pumps == s.pumps
  {
  }

  /** A close takes a registered session out of the map and out of the connection's list, and leaves the session
  itself to those who still hold it. */
  lemma CloseSucceeds(s: State, cid: ConnectionId, sid: SessionId)
    requires Has(s, cid, Idle) && sid in s.registered
    ensures Enabled(s, ConnStep(cid, Close(sid)))
    ensures var t := Next(s, ConnStep(cid, Close(sid)));
            && t.registered == s.registered - {sid} && t.sessions == s.sessions && t.pumps == s.pumps
            && Has(t, cid, Idle)
            && forall x :: x in t.connections[cid].attached <==> x in s.connections[cid].attached && x != sid
  {
    WithoutMembers(s.connections[cid].attached, sid);
  }

  /** A connection that meets its end, or whose answer cannot be written, goes on to its cleanup. */
  lemma EndLeadsToCleanup(s: State, cid: ConnectionId, a: ConnAction)
    requires Enabled(s, ConnStep(cid, a)) && (a == Disconnect || a == Answer(false))
    ensures var t := Next(s, ConnStep(cid, a));
            && Has(t, cid, Cleaning) && t.pumps == s.pumps && t.registered == s.registered
            && t.connections[cid].attached == s.connections[cid].attached
  {
  }

  // ---------------------------------------------------------------------------------------
  // Cleanup
  // ---------------------------------------------------------------------------------------

  /** Sessions are as they were, or detached that were attached. */
  predicate OnlyReleases(s: State, t: State) {
    && t.sessions.Keys == s.sessions.Keys
    && forall sid <- s.sessions ::
         t.sessions[sid] == s.sessions[sid] || t.sessions[sid] == ReleaseNext(s.sessions[sid])
  }

  predicate ListKnown(s: State, cid: ConnectionId) {
    cid in s.connections && forall sid <- s.connections[cid].attached :: sid in s.sessions
  }

  /** The entry at the head of the list has been dealt with. */
  lemma CleansFirst(s: State, cid: ConnectionId) returns (steps: seq<Step>, t: State)
    requires Has(s, cid, Cleaning) && ListKnown(s, cid) && s.connections[cid].attached != []
    ensures Leads(s, steps, t) && OnlyReleases(s, t) && t.registered == s.registered
    ensures t.connections == s.connections[cid := Connection(Cleaning, s.connections[cid].attached[1..])]
    ensures var sid := s.connections[cid].attached[0];
            sid in s.registered ==> t.sessions[sid].state != Attached
  {
    var held := s.connections[cid].attached;
    var sid := held[0];
    if sid in s.registered {
      var s1 := With(s, cid, Connection(CleaningOne, held));
      t := Next(s1, ConnStep(cid, Release));
      assert Next(s, ConnStep(cid, CleanNext)) == s1;
      assert s1.connections[cid := Connection(Cleaning, held[1..])] == t.connections;
      assert Leads(t, [], t);
      First(s1, ConnStep(cid, Release), t, [], t);
      First(s, ConnStep(cid, CleanNext), s1, [ConnStep(cid, Release)] + [], t);
      steps := [ConnStep(cid, CleanNext)] + ([ConnStep(cid, Release)] + []);
    } else {
      t := With(s, cid, Connection(Cleaning, held[1..]));
      assert Next(s, ConnStep(cid, CleanNext)) == t;
      assert Leads(t, [], t);
      First(s, ConnStep(cid, CleanNext), t, [], t);
      steps := [ConnStep(cid, CleanNext)] + [];
    }
  }

  lemma {:induction false} LeadsOn(s: State, a: seq<Step>, t: State, b: seq<Step>, u: State)
    requires Leads(s, a, t) && Leads(t, b, u)
    ensures Leads(s, a + b, u)
    decreases |a|
  {
    if a == [] {
      assert a + b == b;
    } else {
      assert (a + b)[1..] == a[1..] + b;
      LeadsOn(Next(s, a[0]), a[1..], t, b, u);
    }
  }

  lemma OnlyReleasesOn(s: State, t: State, u: State, sid: SessionId)
    requires OnlyReleases(s, t) && OnlyReleases(t, u)
    ensures OnlyReleases(s, u)
    ensures sid in s.sessions && t.sessions[sid].state != Attached ==> u.sessions[sid].state != Attached
  {
  }

  /** Progress of a cleanup: by its own steps a connection that goes comes to its end, and then none of the
  registered sessions in its list is attached. */
  lemma {:induction false} CleanupFinishes(s: State, cid: ConnectionId) returns (steps: seq<Step>, t: State)
    requires Has(s, cid, Cleaning) && ListKnown(s, cid)
    ensures Leads(s, steps, t) && OnlyReleases(s, t)
    ensures Has(t, cid, Gone)
    ensures forall sid <- s.connections[cid].attached :: sid in s.registered ==> t.sessions[sid].state != Attached
    decreases |s.connections[cid].attached|
  {
    var held := s.connections[cid].attached;
    if held == [] {
      t := With(s, cid, Connection(Gone, []));
      assert Next(s, ConnStep(cid, CleanNext)) == t;
      assert Leads(t, [], t);
      First(s, ConnStep(cid, CleanNext), t, [], t);
      steps := [ConnStep(cid, CleanNext)] + [];
    } else {
      var a, s1 := CleansFirst(s, cid);
      var b;
      b, t := CleanupFinishes(s1, cid);
      LeadsOn(s, a, s1, b, t);
      steps := a + b;
      OnlyReleasesOn(s, s1, t, held[0]);
      assert held == [held[0]] + held[1..];
    }
  }
}
