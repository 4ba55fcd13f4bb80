/** What the fields of the glue server's sessions and sockets mean, over whole runs (cmd/server/glue.go):
    whose paths a session has, when a socket was last used, when a session lost its last path; and exactly
    when the janitor, a client or a reader ends a flow. */
module GlueHistory {
  import opened Base
  import opened GlueServer
  import opened GlueInvariant
  import opened GlueSafety

  // ---------------------------------------------------------------- sockets

  /** A packet of the client goes out on socket f, or a reply comes in. */
  predicate Uses(s: Server, step: Step, f: SocketRef)
    requires f < |s.sockets|
  {
    match step
    case BeginsFlow(r, conn, flow, dst, now) =>
      var k := s.sockets[f];
      IsEntry(s, f) && k.session == r && k.flow == flow && k.dst == dst
    case ReaderReceives(g, now) => g == f
    case _ => false
  }

  function LastUse(s: Server, step: Step, f: SocketRef, last: int): int
    requires f < |s.sockets|
  {
    if Uses(s, step, f) then step.now else last
  }

  /** No socket changes but for being closed. */
  predicate OnlyCloses(s: Server, t: Server) {
    && |s.sockets| <= |t.sockets|
    && forall f :: 0 <= f < |s.sockets| ==> t.sockets[f].(isOpen := s.sockets[f].isOpen) == s.sockets[f]
  }

  lemma CloseFlowOnlyCloses(s: Server, f: SocketRef)
    requires f < |s.sockets| && s.sockets[f].session < |s.sessions|
    ensures OnlyCloses(s, CloseFlow(s, f))
  {
  }

  lemma RemoveOnlyCloses(s: Server, r: SessionRef)
    requires r < |s.sessions|
    ensures OnlyCloses(s, RemoveSession(s, r))
  {
  }

  lemma CleanOnlyCloses(s: Server, r: SessionRef, now: int)
    requires r < |s.sessions|
    ensures OnlyCloses(s, Clean(s, r, now))
  {
    var t := CloseFlows(s, r, IdleFlows(s, r, now));
    assert OnlyCloses(s, t);
    RemoveOnlyCloses(t, r);
    hide CloseFlows, RemoveSession, IdleFlows;
  }

  lemma VictimIsThere(s: Server, id: SessionId)
    requires TableOk(s) && id in s.table
    ensures s.table[id] < |s.sessions|
  {
  }

  lemma AttachOnlyCloses(s: Server, id: SessionId, owner: Key, conn: Conn, victim: Option<SessionId>)
    requires TableOk(s) && (victim.Some? ==> victim.value in s.table)
    ensures OnlyCloses(s, Attach(s, id, owner, conn, victim).s)
  {
    hide Attach, Room, RemoveSession, SessionsOf, TableOk;
    AttachByCases(s, id, owner, conn, victim);
    RoomByCases(s, owner, victim);
    if victim.Some? {
      VictimIsThere(s, victim.value);
      RemoveOnlyCloses(s, s.table[victim.value]);
    }
  }

  /** What a step does to a socket. */
  ghost predicate SocketFollows(s: Server, step: Step, t: Server, f: SocketRef)
    requires f < |s.sockets|
  {
    && f < |t.sockets|
    && t.sockets[f].lastSeen == LastUse(s, step, f, s.sockets[f].lastSeen)
    && t.sockets[f].(isOpen := s.sockets[f].isOpen, lastSeen := s.sockets[f].lastSeen) == s.sockets[f]
  }

  /** A packet of flow id of session r goes out on its entry, if that goes to the destination. */
  lemma PacketUses(s: Server, r: SessionRef, conn: Conn, id: FlowId, dst: nat, now: int, f: SocketRef)
    requires r < |s.sessions| && f < |s.sockets| && (id in s.sessions[r].flows ==> OwnsFlow(s, r, id))
    ensures Uses(s, BeginsFlow(r, conn, id, dst, now), f) <==>
            id in s.sessions[r].flows && s.sessions[r].flows[id] == f && s.sockets[f].dst == dst
  {
  }

  lemma BeginFlowUses(s: Server, r: SessionRef, conn: Conn, id: FlowId, dst: nat, now: int, f: SocketRef)
    requires Enabled(s, BeginsFlow(r, conn, id, dst, now)) && f < |s.sockets|
    ensures SocketFollows(s, BeginsFlow(r, conn, id, dst, now), BeginFlow(s, r, id, dst, now), f)
  {
    PacketUses(s, r, conn, id, dst, now, f);
    hide CloseFlow, Uses, IsEntry;
    if id in s.sessions[r].flows {
      CloseFlowOnlyCloses(s, s.sessions[r].flows[id]);
    }
  }

  lemma SocketStep(s: Server, step: Step, f: SocketRef)
    requires Enabled(s, step) && f < |s.sockets|
    ensures SocketFollows(s, step, Next(s, step), f)
  {
    hide Attach, Clean, BeginFlow, CloseFlow, IsEntry, TableOk, IsVictim;
    match step {
      case Attaches(id, owner, conn, victim) =>
        AttachOnlyCloses(s, id, owner, conn, victim);
      case Cleans(r, now) =>
        CleanOnlyCloses(s, r, now);
      case BeginsFlow(r, conn, flow, dst, now) =>
        BeginFlowUses(s, r, conn, flow, dst, now, f);
      case ReaderFails(g) =>
        CloseFlowOnlyCloses(s, g);
      case _ =>
    }
  }

  /** When socket f was last used, after the steps. */
  ghost function LastUseAfter(s: Server, steps: seq<Step>, f: SocketRef, last: int): int
    requires f < |s.sockets|
    decreases |steps|
  {
    if steps == [] || !Enabled(s, steps[0]) || f >= |Next(s, steps[0]).sockets| then last
    else LastUseAfter(Next(s, steps[0]), steps[1..], f, LastUse(s, steps[0], f, last))
  }

  /** Main result: over every run, a socket's lastSeen is the clock reading of the latest packet that went
      out on it or reply that came in, and its session, flow and destination never change. */
  lemma {:induction false} LastSeenIsLastUse(s: Server, steps: seq<Step>, t: Server, f: SocketRef)
    requires Leads(s, steps, t) && f < |s.sockets|
    ensures f < |t.sockets| && t.sockets[f].session == s.sockets[f].session
    ensures t.sockets[f].flow == s.sockets[f].flow && t.sockets[f].dst == s.sockets[f].dst
    ensures t.sockets[f].lastSeen == LastUseAfter(s, steps, f, s.sockets[f].lastSeen)
    decreases |steps|
  {
    hide Enabled, Next, LastUse;
    if steps != [] {
      SocketStep(s, steps[0], f);
      LastSeenIsLastUse(Next(s, steps[0]), steps[1..], t, f);
    }
  }

  // ---------------------------------------------------------------- how a flow ends

  /** The step ends the flow of socket f, which was last used at `last`: its reader fails, the client uses
      the flow ID for another destination, the janitor finds it idle or its session long empty, or its
      session makes room for a new one of the same client. */
  predicate Ends(s: Server, step: Step, f: SocketRef, last: int)
    requires TableOk(s) && f < |s.sockets|
  {
    var k := s.sockets[f];
    match step
    case ReaderFails(g) => g == f
    case BeginsFlow(r, conn, flow, dst, now) => k.session == r && k.flow == flow && k.dst != dst
    case Cleans(r, now) =>
      k.session == r && r < |s.sessions| && (now - last > GLUE_FLOW_IDLE || Gone(s.sessions[r], now))
    case Attaches(id, owner, conn, victim) =>
      && id !in s.table && |SessionsOf(s, owner)| >= MAX_SESSIONS_PER_CLIENT
      && victim.Some? && victim.value in s.table && s.table[victim.value] == k.session
    case _ => false
  }

  lemma ClosedEntries(s: Server, r: SessionRef, ids: set<FlowId>, f: SocketRef)
    requires r < |s.sessions| && ids <= s.sessions[r].flows.Keys && f < |s.sockets|
    ensures IsEntry(CloseFlows(s, r, ids), f) <==>
            IsEntry(s, f) && !(s.sockets[f].session == r && s.sockets[f].flow in ids)
  {
  }

  lemma RemovedEntries(s: Server, r: SessionRef, f: SocketRef)
    requires r < |s.sessions| && f < |s.sockets|
    ensures IsEntry(RemoveSession(s, r), f) <==> IsEntry(s, f) && s.sockets[f].session != r
  {
    var t := CloseFlows(s, r, s.sessions[r].flows.Keys);
    ClosedEntries(s, r, s.sessions[r].flows.Keys, f);
    assert forall q :: 0 <= q < |s.sessions| ==> RemoveSession(s, r).sessions[q].flows == t.sessions[q].flows;
    hide CloseFlows;
  }

  lemma IdleExactly(s: Server, r: SessionRef, now: int, f: SocketRef)
    requires SocketsOk(s) && r < |s.sessions| && f < |s.sockets| && IsEntry(s, f) && s.sockets[f].session == r
    ensures s.sockets[f].flow in IdleFlows(s, r, now) <==> now - s.sockets[f].lastSeen > GLUE_FLOW_IDLE
  {
  }

  lemma ClosedFields(s: Server, r: SessionRef, ids: set<FlowId>, f: SocketRef)
    requires r < |s.sessions| && ids <= s.sessions[r].flows.Keys && f < |s.sockets|
    ensures var t := CloseFlows(s, r, ids);
            |t.sessions| == |s.sessions| && f < |t.sockets| && t.sockets[f].session == s.sockets[f].session
  {
  }

  lemma IdleAreFlows(s: Server, r: SessionRef, now: int)
    requires r < |s.sessions|
    ensures IdleFlows(s, r, now) <= s.sessions[r].flows.Keys
  {
  }

  lemma CleanEnds(s: Server, r: SessionRef, now: int, f: SocketRef)
    requires TableOk(s) && SocketsOk(s) && r < |s.sessions| && f < |s.sockets| && IsEntry(s, f)
    ensures IsEntry(Clean(s, r, now), f) <==> !Ends(s, Cleans(r, now), f, s.sockets[f].lastSeen)
  {
    hide TableOk, SocketsOk, CloseFlows, RemoveSession, IsEntry, IdleFlows, Gone;
    IdleAreFlows(s, r, now);
    var ids := IdleFlows(s, r, now);
    ClosedEntries(s, r, ids, f);
    ClosedFields(s, r, ids, f);
    if s.sockets[f].session == r {
      IdleExactly(s, r, now, f);
    }
    RemovedEntries(CloseFlows(s, r, ids), r, f);
  }

  lemma SameEntries(s: Server, t: Server, f: SocketRef)
    requires f < |s.sockets| && |t.sockets| >= |s.sockets|
    requires t.sockets[f].session == s.sockets[f].session && t.sockets[f].flow == s.sockets[f].flow
    requires |s.sessions| <= |t.sessions| && s.sockets[f].session < |s.sessions|
    requires t.sessions[s.sockets[f].session].flows == s.sessions[s.sockets[f].session].flows
    ensures IsEntry(t, f) <==> IsEntry(s, f)
  {
  }

  lemma JoinEntries(s: Server, id: SessionId, owner: Key, conn: Conn, f: SocketRef)
    requires id in s.table && s.table[id] < |s.sessions| && f < |s.sockets| && s.sockets[f].session < |s.sessions|
    ensures IsEntry(Join(s, id, owner, conn).s, f) <==> IsEntry(s, f)
  {
    SameEntries(s, Join(s, id, owner, conn).s, f);
    hide IsEntry;
  }

  lemma AdmitEntries(t: Server, id: SessionId, owner: Key, conn: Conn, f: SocketRef)
    requires f < |t.sockets| && t.sockets[f].session < |t.sessions|
    ensures IsEntry(AdmitNew(t, id, owner, conn).s, f) <==> IsEntry(t, f)
  {
    if |t.table| < MAX_GLUE_SESSIONS {
      NewSessionIsJoined(t, id, owner, conn);
      SameEntries(t, AddJoined(t, id, owner, conn), f);
    }
    hide IsEntry, Join;
  }

  lemma SocketOk(s: Server, f: SocketRef)
    requires IsEntry(s, f)
    ensures f < |s.sockets| && s.sockets[f].session < |s.sessions|
  {
  }

  lemma RemoveKeepsCount(s: Server, r: SessionRef)
    requires r < |s.sessions|
    ensures |RemoveSession(s, r).sessions| == |s.sessions|
  {
  }

  /** What making room leaves of the sockets. */
  lemma RoomEntries(s: Server, owner: Key, victim: Option<SessionId>, f: SocketRef)
    requires TableOk(s) && (victim.Some? ==> victim.value in s.table) && IsEntry(s, f)
    ensures var t := Room(s, owner, victim);
            && f < |t.sockets| && t.sockets[f].session < |t.sessions|
            && (IsEntry(t, f) <==>
                  !(&& victim.Some? && |SessionsOf(s, owner)| >= MAX_SESSIONS_PER_CLIENT
                    && s.table[victim.value] == s.sockets[f].session))
  {
    hide TableOk, Room, RemoveSession, SessionsOf, IsEntry;
    SocketOk(s, f);
    RoomByCases(s, owner, victim);
    if victim.Some? {
      var r := s.table[victim.value];
      VictimIsThere(s, victim.value);
      RemovedEntries(s, r, f);
      RemoveOnlyCloses(s, r);
      RemoveKeepsCount(s, r);
    }
  }

  lemma AttachEnds(s: Server, id: SessionId, owner: Key, conn: Conn, victim: Option<SessionId>, f: SocketRef)
    requires Invariant(s) && Enabled(s, Attaches(id, owner, conn, victim)) && f < |s.sockets| && IsEntry(s, f)
    ensures IsEntry(Attach(s, id, owner, conn, victim).s, f)
       <==> !Ends(s, Attaches(id, owner, conn, victim), f, s.sockets[f].lastSeen)
  {
    assert TableOk(s) && (victim.Some? ==> victim.value in s.table);
    hide Invariant, Enabled, TableOk, Attach, AdmitNew, Join, Room, SessionsOf, IsEntry;
    AttachByCases(s, id, owner, conn, victim);
    SocketOk(s, f);
    if id in s.table {
      VictimIsThere(s, id);
      JoinEntries(s, id, owner, conn, f);
    } else {
      RoomEntries(s, owner, victim, f);
      AdmitEntries(Room(s, owner, victim), id, owner, conn, f);
    }
  }

  lemma EntriesDiffer(s: Server, f: SocketRef, g: SocketRef)
    requires IsEntry(s, f) && IsEntry(s, g)
    ensures s.sockets[f].session == s.sockets[g].session && s.sockets[f].flow == s.sockets[g].flow ==> f == g
  {
  }

  lemma CloseFlowEnds(s: Server, g: SocketRef, f: SocketRef)
    requires SocketsOk(s) && g < |s.sockets| && f < |s.sockets| && IsEntry(s, f)
    ensures s.sockets[g].session < |s.sessions|
    ensures IsEntry(CloseFlow(s, g), f) <==> f != g
  {
    CloseFlowIsCloseFlows(s, g);
    if IsEntry(s, g) {
      ClosedEntries(s, s.sockets[g].session, {s.sockets[g].flow}, f);
      EntriesDiffer(s, f, g);
    }
    hide CloseFlows, CloseFlow;
  }

  lemma SetCallEntries(s: Server, r: SessionRef, call: Call, f: SocketRef)
    requires r < |s.sessions|
    ensures IsEntry(SetCall(s, r, call), f) <==> IsEntry(s, f)
  {
  }

  lemma TouchEntries(s: Server, g: SocketRef, now: int, f: SocketRef)
    requires g < |s.sockets| && f < |s.sockets| && s.sockets[f].session < |s.sessions|
    ensures IsEntry(Touch(s, g, now), f) <==> IsEntry(s, f)
  {
    SameEntries(s, Touch(s, g, now), f);
  }

  lemma CloseFlowSessions(s: Server, g: SocketRef)
    requires g < |s.sockets| && s.sockets[g].session < |s.sessions|
    ensures var t := CloseFlow(s, g); |t.sessions| == |s.sessions|
  {
  }

  /** What is left of the flow with this ID when a packet to another destination comes. */
  lemma RebindEntries(s: Server, r: SessionRef, id: FlowId, dst: nat, now: int, f: SocketRef)
    requires SocketsOk(s) && f < |s.sockets| && IsEntry(s, f)
    requires r < |s.sessions| && id in s.sessions[r].flows && OwnsFlow(s, r, id)
    requires s.sockets[s.sessions[r].flows[id]].dst != dst
    ensures IsEntry(BeginFlow(s, r, id, dst, now), f) <==> f != s.sessions[r].flows[id]
  {
    var g := s.sessions[r].flows[id];
    CloseFlowEnds(s, g, f);
    CloseFlowSessions(s, g);
    SetCallEntries(CloseFlow(s, g), r, Reserving(id, dst, now), f);
    hide CloseFlow, SetCall, SocketsOk, IsEntry;
  }

  lemma OtherEntries(s: Server, r: SessionRef, id: FlowId, dst: nat, now: int, f: SocketRef)
    requires SocketsOk(s) && f < |s.sockets| && IsEntry(s, f) && r < |s.sessions|
    requires id in s.sessions[r].flows ==> OwnsFlow(s, r, id) && s.sockets[s.sessions[r].flows[id]].dst == dst
    ensures IsEntry(BeginFlow(s, r, id, dst, now), f)
  {
    if id in s.sessions[r].flows {
      TouchEntries(s, s.sessions[r].flows[id], now, f);
    } else {
      SetCallEntries(s, r, Reserving(id, dst, now), f);
    }
    hide CloseFlow, SetCall, SocketsOk, IsEntry;
  }

  lemma BeginFlowEnds(s: Server, r: SessionRef, conn: Conn, id: FlowId, dst: nat, now: int, f: SocketRef)
    requires TableOk(s) && SocketsOk(s) && Enabled(s, BeginsFlow(r, conn, id, dst, now))
    requires f < |s.sockets| && IsEntry(s, f)
    ensures IsEntry(BeginFlow(s, r, id, dst, now), f)
       <==> !Ends(s, BeginsFlow(r, conn, id, dst, now), f, s.sockets[f].lastSeen)
  {
    var flows := s.sessions[r].flows;
    var k := s.sockets[f];
    assert k.session == r && k.flow == id <==> id in flows && flows[id] == f;
    hide BeginFlow, TableOk, SocketsOk, IsEntry;
    if id in flows && s.sockets[flows[id]].dst != dst {
      RebindEntries(s, r, id, dst, now, f);
    } else {
      OtherEntries(s, r, id, dst, now, f);
    }
  }

  lemma DialEntries(s: Server, r: SessionRef, f: SocketRef)
    requires r < |s.sessions| && s.sessions[r].call.Dialing? && s.sessions[r].call.flow !in s.sessions[r].flows
    requires f < |s.sockets| && s.sockets[f].session < |s.sessions|
    ensures IsEntry(Dial(s, r, true), f) <==> IsEntry(s, f)
  {
  }

  predicate OfCall(step: Step) {
    step.Detaches? || step.AddsToTotal? || step.ChecksTotal? || step.UndoesTotal? || step.Dials?
  }

  lemma CallKeepsFlows(s: Server, step: Step)
    requires Enabled(s, step) && OfCall(step) && (step.Dials? ==> !step.succeeds)
    ensures var t := Next(s, step);
            && t.sockets == s.sockets && |t.sessions| == |s.sessions|
            && forall q :: 0 <= q < |s.sessions| ==> t.sessions[q].flows == s.sessions[q].flows
  {
    hide Attach, Clean, BeginFlow, CloseFlow, Touch, TableOk, IsVictim;
  }

  lemma CallIsOk(s: Server, r: SessionRef)
    requires SessionsOk(s) && r < |s.sessions| && s.sessions[r].call.Dialing?
    ensures s.sessions[r].call.flow !in s.sessions[r].flows
  {
    assert SessionOk(s.sessions[r]);
  }

  lemma CallEntries(s: Server, step: Step, f: SocketRef)
    requires SessionsOk(s) && SocketsOk(s) && Enabled(s, step) && f < |s.sockets| && OfCall(step)
    ensures IsEntry(Next(s, step), f) <==> IsEntry(s, f)
  {
    assert s.sockets[f].session < |s.sessions|;
    hide SessionsOk, SocketsOk, IsEntry, Attach, Clean, BeginFlow, CloseFlow, Touch, TableOk, IsVictim;
    if step.Dials? && step.succeeds {
      CallIsOk(s, step.r);
      DialEntries(s, step.r, f);
    } else {
      CallKeepsFlows(s, step);
      SameEntries(s, Next(s, step), f);
    }
  }

  predicate OfSessions(step: Step) {
    step.Attaches? || step.Cleans?
  }

  lemma SessionStepEnds(s: Server, step: Step, f: SocketRef)
    requires Invariant(s) && TableOk(s) && SocketsOk(s) && Enabled(s, step) && f < |s.sockets| && IsEntry(s, f)
    requires OfSessions(step)
    ensures IsEntry(Next(s, step), f) <==> !Ends(s, step, f, s.sockets[f].lastSeen)
  {
    hide Invariant, TableOk, SocketsOk, IsEntry, Attach, Clean, Ends;
    match step {
      case Attaches(id, owner, conn, victim) =>
        AttachEnds(s, id, owner, conn, victim, f);
      case Cleans(r, now) =>
        CleanEnds(s, r, now, f);
    }
  }

  lemma OtherStepEnds(s: Server, step: Step, f: SocketRef)
    requires TableOk(s) && SessionsOk(s) && SocketsOk(s) && Enabled(s, step) && f < |s.sockets| && IsEntry(s, f)
    requires !OfSessions(step)
    ensures IsEntry(Next(s, step), f) <==> !Ends(s, step, f, s.sockets[f].lastSeen)
  {
    hide TableOk, SessionsOk, SocketsOk, IsEntry, BeginFlow, CloseFlow, Touch, IsVictim;
    match step {
      case BeginsFlow(r, conn, flow, dst, now) =>
        BeginFlowEnds(s, r, conn, flow, dst, now, f);
      case ReaderFails(g) =>
        CloseFlowEnds(s, g, f);
      case ReaderReceives(g, now) =>
        SocketOk(s, f);
        TouchEntries(s, g, now, f);
      case _ =>
        CallEntries(s, step, f);
    }
  }

  /** A step closes the socket of a flow exactly when it ends the flow. */
  lemma ClosesExactlyWhen(s: Server, step: Step, f: SocketRef)
    requires Invariant(s) && Enabled(s, step) && f < |s.sockets| && IsEntry(s, f)
    ensures IsEntry(Next(s, step), f) <==> !Ends(s, step, f, s.sockets[f].lastSeen)
  {
    assert TableOk(s) && SessionsOk(s) && SocketsOk(s);
    hide *;
    if OfSessions(step) {
      SessionStepEnds(s, step, f);
    } else {
      OtherStepEnds(s, step, f);
    }
  }

  ghost function After(s: Server, steps: seq<Step>): Server
    decreases |steps|
  {
    if steps == [] || !Enabled(s, steps[0]) then s else After(Next(s, steps[0]), steps[1..])
  }

  /** No step of the run ends the flow of socket f; `last` is when it was last used. */
  ghost predicate Spared(s: Server, steps: seq<Step>, f: SocketRef, last: int)
    requires Invariant(s) && f < |s.sockets|
    decreases |steps|
  {
    if steps == [] || !Enabled(s, steps[0]) then true
    else
      NextKeeps(s, steps[0]);
      SocketStep(s, steps[0], f);
      !Ends(s, steps[0], f, last) && Spared(Next(s, steps[0]), steps[1..], f, LastUse(s, steps[0], f, last))
  }

  lemma NothingAfter(s: Server)
    ensures After(s, []) == s
  {
  }

  lemma AfterPrefix(s: Server, steps: seq<Step>, n: nat)
    requires 0 < n <= |steps| && Enabled(s, steps[0])
    ensures After(s, steps[..n]) == After(Next(s, steps[0]), steps[1..][..n - 1])
  {
    assert steps[..n][1..] == steps[1..][..n - 1];
    hide Enabled, Next;
  }

  lemma SparedStep(s: Server, steps: seq<Step>, f: SocketRef, last: int)
    requires Invariant(s) && f < |s.sockets| && steps != [] && Enabled(s, steps[0])
    ensures Invariant(Next(s, steps[0])) && f < |Next(s, steps[0]).sockets|
    ensures Spared(s, steps, f, last) <==>
            !Ends(s, steps[0], f, last) && Spared(Next(s, steps[0]), steps[1..], f, LastUse(s, steps[0], f, last))
  {
    hide Invariant, Enabled, Next, Ends, LastUse;
    NextKeeps(s, steps[0]);
    SocketStep(s, steps[0], f);
  }

  /** Main result: a flow of the server keeps its socket, and so the port the game server knows, at every
      moment of a run exactly when no step ends it: for the janitor, when it never comes more than two
      minutes after the flow's latest packet or reply, nor after two minutes without any path. */
  lemma {:induction false} SocketKeptExactlyWhen(s: Server, steps: seq<Step>, t: Server, f: SocketRef)
    requires Invariant(s) && Leads(s, steps, t) && f < |s.sockets| && IsEntry(s, f)
    ensures Spared(s, steps, f, s.sockets[f].lastSeen) <==>
            forall n :: 0 <= n <= |steps| ==> IsEntry(After(s, steps[..n]), f)
    decreases |steps|
  {
    hide Invariant, Enabled, Next, Ends, LastUse, IsEntry;
    if steps == [] {
      assert steps[..0] == [];
    } else {
      var u, rest := Next(s, steps[0]), steps[1..];
      SparedStep(s, steps, f, s.sockets[f].lastSeen);
      SocketStep(s, steps[0], f);
      ClosesExactlyWhen(s, steps[0], f);
      hide Spared, After;
      forall n | 0 < n <= |steps|
        ensures After(s, steps[..n]) == After(u, rest[..n - 1])
      {
        AfterPrefix(s, steps, n);
      }
      NothingAfter(s);
      NothingAfter(u);
      assert steps[..0] == [] && rest[..0] == [];
      if IsEntry(u, f) {
        SocketKeptExactlyWhen(u, rest, t, f);
        forall m | 0 <= m <= |rest|
          ensures After(u, rest[..m]) == After(s, steps[..m + 1])
        {
        }
      } else {
        assert !IsEntry(After(s, steps[..1]), f);
      }
    }
  }

  // ---------------------------------------------------------------- how a flow begins

  /** The latest packet the session's calls of flow() were about. */
  function LatestPacket(steps: seq<Step>, r: SessionRef): Option<Step>
    decreases |steps|
  {
    if steps == [] then None
    else
      var step := steps[|steps| - 1];
      if step.BeginsFlow? && step.r == r then Some(step) else LatestPacket(steps[..|steps| - 1], r)
  }

  /** The call is about the packet. */
  predicate IsAbout(c: Call, packet: Option<Step>) {
    c.Reserving? || c.Checking? || c.Dialing? ==>
      && packet.Some? && packet.value.BeginsFlow?
      && c.flow == packet.value.flow && c.dst == packet.value.dst && c.now == packet.value.now
  }

  /** A call of attachGluePath brought the path to the session, for this client. */
  ghost predicate AttachedBy(past: seq<Step>, id: SessionId, owner: Key, conn: Conn) {
    exists step :: step in past && step.Attaches? && step.id == id && step.owner == owner && step.conn == conn
  }

  /** When a path last left the session. */
  function LatestDetach(past: seq<Step>, r: SessionRef): Option<int>
    decreases |past|
  {
    if past == [] then None
    else
      var step := past[|past| - 1];
      if step.Detaches? && step.r == r then Some(step.now) else LatestDetach(past[..|past| - 1], r)
  }

  /** An attach adds its path to session q. */
  predicate Joins(s: Server, step: Step, q: SessionRef)
    requires q < |s.sessions|
  {
    && step.Attaches? && step.id in s.table && s.table[step.id] == q
    && s.sessions[q].owner == step.owner && |s.sessions[q].paths| < MAX_PATHS_PER_SESSION
  }

  function PathsAfter(s: Server, step: Step, q: SessionRef): set<Conn>
    requires q < |s.sessions|
  {
    if Joins(s, step, q) then s.sessions[q].paths + {step.conn}
    else if step.Detaches? && step.r == q then s.sessions[q].paths - {step.conn}
    else s.sessions[q].paths
  }

  function EmptySinceAfter(s: Server, step: Step, q: SessionRef): Option<int>
    requires q < |s.sessions|
  {
    if Joins(s, step, q) then None
    else if step.Detaches? && step.r == q && PathsAfter(s, step, q) == {} then Some(step.now)
    else s.sessions[q].emptySince
  }

  /** The call went on, ended, or began with the step's packet. */
  predicate CallFollows(step: Step, q: SessionRef, x: Call, y: Call) {
    || y == x || y.NoCall? || y.Undoing?
    || (step.BeginsFlow? && step.r == q && y == Reserving(step.flow, step.dst, step.now))
    || (x.Reserving? && y.Checking? && y == Checking(x.flow, x.dst, x.now, y.passes))
    || (x.Checking? && y == Dialing(x.flow, x.dst, x.now))
  }

  /** What a step does to a session. */
  predicate SessionFollows(s: Server, step: Step, t: Server, q: SessionRef)
    requires q < |s.sessions|
  {
    && q < |t.sessions|
    && var x := s.sessions[q];
       var y := t.sessions[q];
       && y.id == x.id && y.owner == x.owner
       && y.paths == PathsAfter(s, step, q) && y.emptySince == EmptySinceAfter(s, step, q)
       && CallFollows(step, q, x.call, y.call)
  }

  /** No session changes but in its flows and its place in the table. */
  predicate OnlyFlows(s: Server, t: Server) {
    && |t.sessions| == |s.sessions|
    && forall q :: 0 <= q < |s.sessions| ==>
         t.sessions[q].(flows := s.sessions[q].flows, live := s.sessions[q].live) == s.sessions[q]
  }

  lemma CloseFlowOnlyFlows(s: Server, f: SocketRef)
    requires f < |s.sockets| && s.sockets[f].session < |s.sessions|
    ensures OnlyFlows(s, CloseFlow(s, f))
  {
  }

  lemma RemoveOnlyFlows(s: Server, r: SessionRef)
    requires r < |s.sessions|
    ensures OnlyFlows(s, RemoveSession(s, r)) && RemoveSession(s, r).table == s.table - {s.sessions[r].id}
  {
  }

  lemma CleanOnlyFlows(s: Server, r: SessionRef, now: int)
    requires r < |s.sessions|
    ensures OnlyFlows(s, Clean(s, r, now))
  {
    var t := CloseFlows(s, r, IdleFlows(s, r, now));
    assert OnlyFlows(s, t);
    RemoveOnlyFlows(t, r);
    hide CloseFlows, RemoveSession, IdleFlows;
  }

  /** An attach on a session that is there. */
  lemma JoinFollows(s: Server, id: SessionId, owner: Key, conn: Conn, victim: Option<SessionId>, q: SessionRef)
    requires id in s.table && s.table[id] < |s.sessions| && q < |s.sessions|
    ensures SessionFollows(s, Attaches(id, owner, conn, victim), Join(s, id, owner, conn).s, q)
    ensures |Join(s, id, owner, conn).s.sessions| == |s.sessions|
  {
  }

  /** An attach on a new one. */
  lemma AdmitFollows(t: Server, id: SessionId, owner: Key, conn: Conn, q: SessionRef)
    requires q < |t.sessions|
    ensures var u := AdmitNew(t, id, owner, conn).s; q < |u.sessions| && u.sessions[q] == t.sessions[q]
    ensures var u := AdmitNew(t, id, owner, conn).s;
            if |t.table| >= MAX_GLUE_SESSIONS then u == t
            else u.sessions == t.sessions + [Session(id, owner, true, {conn}, None, map[], NoCall)]
  {
    NewSessionIsJoined(t, id, owner, conn);
    hide Join;
  }

  lemma RoomOnlyFlows(s: Server, owner: Key, victim: Option<SessionId>)
    requires TableOk(s) && (victim.Some? ==> victim.value in s.table)
    ensures OnlyFlows(s, Room(s, owner, victim))
  {
    hide Room, RemoveSession, SessionsOf;
    RoomByCases(s, owner, victim);
    if victim.Some? {
      RemoveOnlyFlows(s, s.table[victim.value]);
    }
  }

  lemma NotJoined(s: Server, t: Server, step: Step, q: SessionRef)
    requires step.Attaches? && step.id !in s.table && q < |s.sessions| && q < |t.sessions|
    requires t.sessions[q].(flows := s.sessions[q].flows, live := s.sessions[q].live) == s.sessions[q]
    ensures SessionFollows(s, step, t, q)
  {
  }

  lemma AttachFollows(s: Server, id: SessionId, owner: Key, conn: Conn, victim: Option<SessionId>, q: SessionRef)
    requires TableOk(s) && (victim.Some? ==> victim.value in s.table) && q < |s.sessions|
    ensures SessionFollows(s, Attaches(id, owner, conn, victim), Attach(s, id, owner, conn, victim).s, q)
  {
    hide Attach, AdmitNew, Join, Room, RemoveSession, SessionsOf, SessionFollows;
    AttachByCases(s, id, owner, conn, victim);
    if id in s.table {
      JoinFollows(s, id, owner, conn, victim, q);
    } else {
      RoomOnlyFlows(s, owner, victim);
      AdmitFollows(Room(s, owner, victim), id, owner, conn, q);
      NotJoined(s, Attach(s, id, owner, conn, victim).s, Attaches(id, owner, conn, victim), q);
    }
  }

  lemma JoinAddsNone(s: Server, id: SessionId, owner: Key, conn: Conn)
    requires TableOk(s) && id in s.table
    ensures |Join(s, id, owner, conn).s.sessions| == |s.sessions|
  {
  }

  lemma AdmitAdds(t: Server, id: SessionId, owner: Key, conn: Conn)
    ensures var u := AdmitNew(t, id, owner, conn).s;
            if |t.table| >= MAX_GLUE_SESSIONS then u == t
            else u.sessions == t.sessions + [Session(id, owner, true, {conn}, None, map[], NoCall)]
  {
    NewSessionIsJoined(t, id, owner, conn);
    hide Join;
  }

  /** Only an attach adds a session: one with its first path and nothing else. */
  lemma AttachAdds(s: Server, id: SessionId, owner: Key, conn: Conn, victim: Option<SessionId>)
    requires TableOk(s) && (victim.Some? ==> victim.value in s.table)
    ensures var t := Attach(s, id, owner, conn, victim).s;
            && |s.sessions| <= |t.sessions| <= |s.sessions| + 1
            && (|t.sessions| > |s.sessions| ==>
                  t.sessions[|s.sessions|] == Session(id, owner, true, {conn}, None, map[], NoCall))
  {
    hide Attach, AdmitNew, Join, Room, RemoveSession, SessionsOf;
    AttachByCases(s, id, owner, conn, victim);
    if id in s.table {
      JoinAddsNone(s, id, owner, conn);
    } else {
      RoomByCases(s, owner, victim);
      if victim.Some? {
        RemoveOnlyFlows(s, s.table[victim.value]);
      }
      AdmitAdds(Room(s, owner, victim), id, owner, conn);
    }
  }

  lemma BeginFlowFollows(s: Server, r: SessionRef, conn: Conn, id: FlowId, dst: nat, now: int, q: SessionRef)
    requires Enabled(s, BeginsFlow(r, conn, id, dst, now)) && q < |s.sessions|
    ensures var t := BeginFlow(s, r, id, dst, now);
            |t.sessions| == |s.sessions| && SessionFollows(s, BeginsFlow(r, conn, id, dst, now), t, q)
  {
    hide CloseFlow, TableOk, IsVictim;
    if id in s.sessions[r].flows {
      CloseFlowOnlyFlows(s, s.sessions[r].flows[id]);
    }
  }

  lemma SessionStep(s: Server, step: Step, q: SessionRef)
    requires Enabled(s, step) && q < |s.sessions|
    ensures SessionFollows(s, step, Next(s, step), q)
  {
    hide Attach, Clean, BeginFlow, CloseFlow, TableOk, IsVictim;
    match step {
      case Attaches(id, owner, conn, victim) =>
        AttachFollows(s, id, owner, conn, victim, q);
      case Cleans(r, now) =>
        CleanOnlyFlows(s, r, now);
      case BeginsFlow(r, conn, flow, dst, now) =>
        BeginFlowFollows(s, r, conn, flow, dst, now, q);
      case ReaderFails(g) =>
        CloseFlowOnlyFlows(s, g);
      case _ =>
    }
  }

  lemma NewSessions(s: Server, step: Step, q: SessionRef)
    requires Enabled(s, step) && |s.sessions| <= q < |Next(s, step).sessions|
    ensures step.Attaches?
    ensures Next(s, step).sessions[q] == Session(step.id, step.owner, true, {step.conn}, None, map[], NoCall)
  {
    hide Attach, Clean, BeginFlow, CloseFlow, TableOk, IsVictim;
    match step {
      case Attaches(id, owner, conn, victim) =>
        AttachAdds(s, id, owner, conn, victim);
      case Cleans(r, now) =>
        CleanOnlyFlows(s, r, now);
      case BeginsFlow(r, conn, flow, dst, now) =>
        BeginFlowFollows(s, r, conn, flow, dst, now, r);
      case ReaderFails(g) =>
        CloseFlowOnlyFlows(s, g);
      case _ =>
    }
  }

  // ---------------------------------------------------------------- runs

  lemma PastSnoc(past: seq<Step>, step: Step, r: SessionRef)
    ensures LatestPacket(past + [step], r) ==
            if step.BeginsFlow? && step.r == r then Some(step) else LatestPacket(past, r)
    ensures LatestDetach(past + [step], r) ==
            if step.Detaches? && step.r == r then Some(step.now) else LatestDetach(past, r)
  {
    assert (past + [step])[..|past|] == past;
  }

  lemma AttachedStays(past: seq<Step>, step: Step, id: SessionId, owner: Key, conn: Conn)
    ensures AttachedBy(past, id, owner, conn) ==> AttachedBy(past + [step], id, owner, conn)
    ensures step.Attaches? ==> AttachedBy(past + [step], step.id, step.owner, step.conn)
  {
    assert step in past + [step];
    if AttachedBy(past, id, owner, conn) {
      var x :| x in past && x.Attaches? && x.id == id && x.owner == owner && x.conn == conn;
      assert x in past + [step];
    }
  }

  /** What has been done so far explains the call in progress, whose paths the session has, and since when
      it has none. */
  ghost predicate ExplainsSession(past: seq<Step>, q: SessionRef, x: Session) {
    && IsAbout(x.call, LatestPacket(past, q))
    && (forall conn :: conn in x.paths ==> AttachedBy(past, x.id, x.owner, conn))
    && (x.paths == {} ==> x.emptySince == LatestDetach(past, q))
  }

  lemma CallExplained(past: seq<Step>, step: Step, q: SessionRef, x: Call, y: Call)
    requires IsAbout(x, LatestPacket(past, q)) && CallFollows(step, q, x, y)
    requires step.BeginsFlow? && step.r == q ==> x.NoCall?
    ensures IsAbout(y, LatestPacket(past + [step], q))
  {
    PastSnoc(past, step, q);
    hide LatestPacket, LatestDetach;
  }

  lemma PathsExplained(s: Server, past: seq<Step>, step: Step, q: SessionRef, conn: Conn)
    requires q < |s.sessions| && conn in PathsAfter(s, step, q)
    requires forall c :: c in s.sessions[q].paths ==> AttachedBy(past, s.sessions[q].id, s.sessions[q].owner, c)
    requires TableOk(s)
    ensures AttachedBy(past + [step], s.sessions[q].id, s.sessions[q].owner, conn)
  {
    AttachedStays(past, step, s.sessions[q].id, s.sessions[q].owner, conn);
    hide AttachedBy;
  }

  lemma EmptinessExplained(s: Server, past: seq<Step>, step: Step, q: SessionRef)
    requires q < |s.sessions| && PathsAfter(s, step, q) == {}
    requires s.sessions[q].paths == {} ==> s.sessions[q].emptySince == LatestDetach(past, q)
    ensures EmptySinceAfter(s, step, q) == LatestDetach(past + [step], q)
  {
    PastSnoc(past, step, q);
    hide LatestPacket, LatestDetach;
  }

  lemma ExplainsStep(s: Server, past: seq<Step>, step: Step, q: SessionRef)
    requires Enabled(s, step) && q < |s.sessions| && TableOk(s)
    requires ExplainsSession(past, q, s.sessions[q])
    ensures q < |Next(s, step).sessions| && ExplainsSession(past + [step], q, Next(s, step).sessions[q])
  {
    hide Next, TableOk, LatestPacket, LatestDetach, AttachedBy, IsAbout, CallFollows, PathsAfter, EmptySinceAfter;
    SessionStep(s, step, q);
    var x, y := s.sessions[q], Next(s, step).sessions[q];
    assert step.BeginsFlow? && step.r == q ==> x.call.NoCall?;
    hide Enabled;
    CallExplained(past, step, q, x.call, y.call);
    forall conn | conn in y.paths
      ensures AttachedBy(past + [step], y.id, y.owner, conn)
    {
      PathsExplained(s, past, step, q, conn);
    }
    if y.paths == {} {
      EmptinessExplained(s, past, step, q);
    }
  }

  ghost predicate Explains(past: seq<Step>, s: Server) {
    forall q :: 0 <= q < |s.sessions| ==> ExplainsSession(past, q, s.sessions[q])
  }

  lemma NewIsExplained(past: seq<Step>, step: Step, q: SessionRef)
    requires step.Attaches?
    ensures ExplainsSession(past + [step], q, Session(step.id, step.owner, true, {step.conn}, None, map[], NoCall))
  {
    AttachedStays(past, step, step.id, step.owner, step.conn);
  }

  lemma ExplainsNext(s: Server, past: seq<Step>, step: Step)
    requires Invariant(s) && Enabled(s, step) && Explains(past, s)
    ensures Explains(past + [step], Next(s, step))
  {
    hide Next, Enabled, ExplainsSession, LiveInTable, SocketsOk, QuotaOk, LimitsOk;
    forall q | 0 <= q < |Next(s, step).sessions|
      ensures ExplainsSession(past + [step], q, Next(s, step).sessions[q])
    {
      if q < |s.sessions| {
        ExplainsStep(s, past, step, q);
      } else {
        NewSessions(s, step, q);
        NewIsExplained(past, step, q);
      }
    }
  }

  lemma {:induction false} RunExplains(s: Server, past: seq<Step>, steps: seq<Step>, t: Server)
    requires Invariant(s) && Explains(past, s) && Leads(s, steps, t)
    ensures Explains(past + steps, t)
    decreases |steps|
  {
    hide Invariant, Enabled, Next, Explains;
    if steps == [] {
      assert past + steps == past;
    } else {
      NextKeeps(s, steps[0]);
      ExplainsNext(s, past, steps[0]);
      RunExplains(Next(s, steps[0]), past + [steps[0]], steps[1..], t);
      assert past + [steps[0]] + steps[1..] == past + steps;
    }
  }

  lemma StartIsExplained()
    ensures Explains([], EMPTY_SERVER)
  {
  }

  lemma FromStart(steps: seq<Step>, s: Server)
    requires Leads(EMPTY_SERVER, steps, s)
    ensures Invariant(s) && Explains(steps, s)
  {
    hide Leads, Invariant, Explains;
    EmptyIsInvariant();
    StartIsExplained();
    RunKeeps(EMPTY_SERVER, steps, s);
    RunExplains(EMPTY_SERVER, [], steps, s);
    assert [] + steps == steps;
  }

  /** Main result: over every run, a session only has paths that its own client attached to it. */
  lemma PathsAreTheOwners(steps: seq<Step>, s: Server, r: SessionRef, conn: Conn)
    requires Leads(EMPTY_SERVER, steps, s) && r < |s.sessions| && conn in s.sessions[r].paths
    ensures AttachedBy(steps, s.sessions[r].id, s.sessions[r].owner, conn)
  {
    FromStart(steps, s);
    hide Invariant, Leads, AttachedBy;
  }

  /** Main result: a session without paths lost its last one when it says. */
  lemma EmptySinceIsLastDetach(steps: seq<Step>, s: Server, r: SessionRef)
    requires Leads(EMPTY_SERVER, steps, s) && r < |s.sessions| && s.sessions[r].paths == {}
    ensures s.sessions[r].emptySince.Some? && s.sessions[r].emptySince == LatestDetach(steps, r)
  {
    FromStart(steps, s);
    SessionIsOk(s, r);
    hide Invariant, Leads, LatestDetach;
  }

  lemma DialOpens(s: Server, r: SessionRef)
    requires r < |s.sessions| && s.sessions[r].call.Dialing?
    ensures var c := s.sessions[r].call;
            var t := Dial(s, r, true);
            t.sockets == s.sockets + [Socket(r, c.flow, c.dst, c.now, true)] && IsEntry(t, |s.sockets|)
  {
  }

  /** Main result: the socket a call opens is that of the packet the call is about. */
  lemma NewSocketIsThePackets(steps: seq<Step>, s: Server, r: SessionRef)
    requires Leads(EMPTY_SERVER, steps, s) && Enabled(s, Dials(r, true))
    ensures LatestPacket(steps, r).Some? && LatestPacket(steps, r).value.BeginsFlow?
    ensures var packet := LatestPacket(steps, r).value;
            var t := Next(s, Dials(r, true));
            && t.sockets == s.sockets + [Socket(r, packet.flow, packet.dst, packet.now, true)]
            && IsEntry(t, |s.sockets|)
  {
    hide Invariant, Leads, LatestPacket, Attach, Clean, BeginFlow, CloseFlow, IsEntry, TableOk, Dial;
    FromStart(steps, s);
    DialOpens(s, r);
  }

  // ---------------------------------------------------------------- attaching

  /** The client has a session without paths. */
  ghost predicate HasEmpty(s: Server, owner: Key)
    requires TableOk(s)
  {
    exists id :: IsEmptyOf(s, owner, id)
  }

  /** When a client may attach a path to a session: it is its own and has a place, or it is new and the
      client and the server have one for it. */
  ghost predicate MayAttach(s: Server, id: SessionId, owner: Key)
    requires TableOk(s)
  {
    if id in s.table then
      s.sessions[s.table[id]].owner == owner && |s.sessions[s.table[id]].paths| < MAX_PATHS_PER_SESSION
    else if |SessionsOf(s, owner)| >= MAX_SESSIONS_PER_CLIENT then HasEmpty(s, owner)
    else |s.table| < MAX_GLUE_SESSIONS
  }

  lemma JoinStatus(s: Server, id: SessionId, owner: Key, conn: Conn)
    requires TableOk(s) && id in s.table
    ensures var o := Join(s, id, owner, conn);
            var x := s.sessions[s.table[id]];
            && (o.status == StatusRefused <==> x.owner != owner)
            && (o.status == StatusOK <==> x.owner == owner && |x.paths| < MAX_PATHS_PER_SESSION)
            && (o.status != StatusOK ==> o.s == s)
            && (o.status == StatusOK ==>
                  o.s == s.(sessions := s.sessions[s.table[id] := x.(paths := x.paths + {conn}, emptySince := None)]))
  {
  }

  lemma VictimOrNone(s: Server, owner: Key, victim: Option<SessionId>)
    requires TableOk(s) && IsVictim(s, owner, victim)
    ensures victim.Some? <==> HasEmpty(s, owner)
  {
    if victim.Some? {
      assert IsEmptyOf(s, owner, victim.value);
    }
  }

  lemma NewStatus(s: Server, id: SessionId, owner: Key, conn: Conn, victim: Option<SessionId>)
    requires Invariant(s) && Enabled(s, Attaches(id, owner, conn, victim)) && id !in s.table
    ensures victim.Some? ==> victim.value in s.table
    ensures var o := Attach(s, id, owner, conn, victim);
            var t := if |SessionsOf(s, owner)| >= MAX_SESSIONS_PER_CLIENT && victim.Some?
                     then RemoveSession(s, s.table[victim.value]) else s;
            && o.status != StatusRefused && (o.status == StatusOK <==> MayAttach(s, id, owner))
            && (o.status != StatusOK ==> o.s == s)
            && (o.status == StatusOK ==>
                  o.s == t.(table := t.table[id := |t.sessions|],
                            sessions := t.sessions + [Session(id, owner, true, {conn}, None, map[], NoCall)]))
  {
    AttachByCases(s, id, owner, conn, victim);
    RoomByCases(s, owner, victim);
    RoomForNew(s, id, owner, victim);
    NewSessionIsJoined(Room(s, owner, victim), id, owner, conn);
    VictimOrNone(s, owner, victim);
    if victim.Some? && |SessionsOf(s, owner)| >= MAX_SESSIONS_PER_CLIENT {
      VictimIsRemovable(s, owner, victim);
      RemovalMakesRoom(s, owner, victim.value);
    }
    hide Invariant, Attach, Room, RemoveSession, SessionsOf, IsVictim, Join, AddSession, HasEmpty;
  }

  /** The client's path is in the session of that id, which is its own. */
  predicate HasPath(t: Server, id: SessionId, owner: Key, conn: Conn) {
    && id in t.table && t.table[id] < |t.sessions|
    && var x := t.sessions[t.table[id]];
       x.owner == owner && conn in x.paths && x.emptySince == None
  }

  lemma JoinAnswers(s: Server, id: SessionId, owner: Key, conn: Conn)
    requires TableOk(s) && id in s.table
    ensures var o := Join(s, id, owner, conn);
            && (o.status == StatusRefused <==> s.sessions[s.table[id]].owner != owner)
            && (o.status == StatusOK <==> MayAttach(s, id, owner))
            && (if o.status == StatusOK then HasPath(o.s, id, owner, conn) else o.s == s)
  {
    JoinStatus(s, id, owner, conn);
    hide Join;
  }

  lemma NewAnswers(s: Server, id: SessionId, owner: Key, conn: Conn, victim: Option<SessionId>)
    requires Invariant(s) && Enabled(s, Attaches(id, owner, conn, victim)) && id !in s.table
    ensures victim.Some? ==> victim.value in s.table
    ensures var o := Attach(s, id, owner, conn, victim);
            && o.status != StatusRefused && (o.status == StatusOK <==> MayAttach(s, id, owner))
            && (if o.status == StatusOK then HasPath(o.s, id, owner, conn) else o.s == s)
  {
    hide Invariant, Enabled, Attach, RemoveSession, SessionsOf, MayAttach;
    NewStatus(s, id, owner, conn, victim);
  }

  /** Main result: the exact answer to a client that attaches a path. It is refused exactly when the session
      is another client's; it is let in exactly when it may be; else nothing changes. */
  lemma AttachAnswers(s: Server, id: SessionId, owner: Key, conn: Conn, victim: Option<SessionId>)
    requires Invariant(s) && Enabled(s, Attaches(id, owner, conn, victim))
    ensures TableOk(s) && (victim.Some? ==> victim.value in s.table)
    ensures var o := Attach(s, id, owner, conn, victim);
            && (o.status == StatusRefused <==> id in s.table && s.sessions[s.table[id]].owner != owner)
            && (o.status == StatusOK <==> MayAttach(s, id, owner))
            && (if o.status == StatusOK then HasPath(o.s, id, owner, conn) else o.s == s)
  {
    assert TableOk(s);
    hide Invariant, Enabled, Attach, Join, HasPath, MayAttach;
    if id in s.table {
      AttachByCases(s, id, owner, conn, victim);
      JoinAnswers(s, id, owner, conn);
    } else {
      NewAnswers(s, id, owner, conn, victim);
    }
  }
}
