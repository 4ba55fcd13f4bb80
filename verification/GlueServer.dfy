/**
 The glue sessions of cmd/server/glue.go as a state machine: the session table, the paths and the
 UDP sockets of each session, and the global quota of sockets.

 A step is what happens under one mutex, except that the atomic operations of the quota are steps
 of their own: between adding to the counter, checking the result and undoing the addition anything
 may happen in other sessions.
 */
module GlueServer {
  import opened Base

  const MAX_FLOWS_PER_SESSION: nat := 512
  const MAX_GLUE_SESSIONS: nat := 256
  const MAX_SESSIONS_PER_CLIENT: nat := 4
  const MAX_PATHS_PER_SESSION: nat := 8
  const MAX_TOTAL_FLOWS: nat := 4096
  const GLUE_FLOW_IDLE: int := 120_000_000_000
  const GLUE_SESSION_IDLE: int := 120_000_000_000

  /** A session object and a socket are named by their index: they stay reachable for the goroutines
      that hold them after the table and the flow maps have let them go. */
  type SessionRef = nat

  type SocketRef = nat

  type SessionId = nat

  type Key = nat

  type Conn = nat

  type FlowId = nat

  /** A UDP socket, with the session and flow it was made for. */
  datatype Socket = Socket(session: SessionRef, flow: FlowId, dst: nat, lastSeen: int, isOpen: bool)

  /** Where a call of flow() that needs a new socket is; it holds the session's mutex. `passes` is
      what the check of the counter will say. */
  datatype Call =
    | NoCall
    | Reserving(flow: FlowId, dst: nat, now: int)
    | Checking(flow: FlowId, dst: nat, now: int, passes: bool)
    | Dialing(flow: FlowId, dst: nat, now: int)
    | Undoing

  datatype Session = Session(
    id: SessionId,
    owner: Key,
    live: bool,
    paths: set<Conn>,
    emptySince: Option<int>,
    flows: map<FlowId, SocketRef>,
    call: Call)

  /** `total` is the counter totalFlows. */
  datatype Server = Server(
    table: map<SessionId, SessionRef>,
    sessions: seq<Session>,
    sockets: seq<Socket>,
    total: int)

  const EMPTY_SERVER := Server(map[], [], [], 0)

  // ---------------------------------------------------------------- sockets

  predicate IsEntry(s: Server, f: SocketRef) {
    && f < |s.sockets| && s.sockets[f].session < |s.sessions|
    && var flows := s.sessions[s.sockets[f].session].flows;
       s.sockets[f].flow in flows && flows[s.sockets[f].flow] == f
  }

  function WithSession(s: Server, r: SessionRef, x: Session): Server
    requires r < |s.sessions|
  {
    s.(sessions := s.sessions[r := x])
  }

  function CloseSocket(s: Server, f: SocketRef): Server
    requires f < |s.sockets|
  {
    s.(sockets := s.sockets[f := s.sockets[f].(isOpen := false)])
  }

  /** closeFlowLocked for socket f: the flow's entry and its slot go only if they are still f's. */
  function CloseFlow(s: Server, f: SocketRef): Server
    requires f < |s.sockets| && s.sockets[f].session < |s.sessions|
  {
    var r := s.sockets[f].session;
    var x := s.sessions[r];
    if !IsEntry(s, f) then CloseSocket(s, f)
    else
      var t := CloseSocket(s, f);
      t.(sessions := s.sessions[r := x.(flows := x.flows - {s.sockets[f].flow})], total := s.total - 1)
  }

  /** The sockets of a set of flows of session r are closed. */
  function CloseFlows(s: Server, r: SessionRef, ids: set<FlowId>): Server
    requires r < |s.sessions| && ids <= s.sessions[r].flows.Keys
  {
    var x := s.sessions[r];
    Server(
      s.table,
      s.sessions[r := x.(flows := x.flows - ids)],
      seq(|s.sockets|, f requires 0 <= f < |s.sockets| =>
        var k := s.sockets[f];
        k.(isOpen := k.isOpen && !(k.session == r && k.flow in ids && IsEntry(s, f)))),
      s.total - |ids|)
  }

  // ---------------------------------------------------------------- sessions

  /** A session leaves the table, with all its sockets. */
  function RemoveSession(s: Server, r: SessionRef): Server
    requires r < |s.sessions|
  {
    var t := CloseFlows(s, r, s.sessions[r].flows.Keys);
    t.(table := s.table - {s.sessions[r].id}, sessions := t.sessions[r := t.sessions[r].(live := false)])
  }

  /** The table holds live sessions under their own id. */
  predicate TableOk(s: Server) {
    forall id :: id in s.table ==>
      && s.table[id] < |s.sessions|
      && s.sessions[s.table[id]].id == id
      && s.sessions[s.table[id]].live
  }

  /** The ids of a client's sessions. */
  function SessionsOf(s: Server, key: Key): set<SessionId>
    requires TableOk(s)
  {
    set id | id in s.table && s.sessions[s.table[id]].owner == key
  }

  predicate IsEmptyOf(s: Server, key: Key, id: SessionId)
    requires TableOk(s)
  {
    id in s.table && s.sessions[s.table[id]].owner == key && s.sessions[s.table[id]].paths == {}
  }

  /** Go's zero time is before every other. */
  predicate Before(a: Option<int>, b: Option<int>) {
    b.Some? && (a.None? || a.value < b.value)
  }

  /** The client's session that has been without paths longest. */
  ghost predicate IsLongestEmpty(s: Server, key: Key, id: SessionId)
    requires TableOk(s)
  {
    && IsEmptyOf(s, key, id)
    && forall other :: IsEmptyOf(s, key, other) ==>
         !Before(s.sessions[s.table[other]].emptySince, s.sessions[s.table[id]].emptySince)
  }

  datatype Status = StatusOK | StatusBusy | StatusRefused

  datatype Attached = Attached(s: Server, status: Status)

  function NewSession(id: SessionId, owner: Key): Session {
    Session(id, owner, true, {}, None, map[], NoCall)
  }

  function AddSession(s: Server, id: SessionId, owner: Key): Server {
    s.(table := s.table[id := |s.sessions|], sessions := s.sessions + [NewSession(id, owner)])
  }

  /** The end of attachGluePath: the session is there. */
  function Join(s: Server, id: SessionId, owner: Key, conn: Conn): Attached
    requires id in s.table && s.table[id] < |s.sessions|
  {
    var x := s.sessions[s.table[id]];
    if x.owner != owner then Attached(s, StatusRefused)
    else if |x.paths| >= MAX_PATHS_PER_SESSION then Attached(s, StatusBusy)
    else Attached(WithSession(s, s.table[id], x.(paths := x.paths + {conn}, emptySince := None)), StatusOK)
  }

  /** attachGluePath; `victim` is the session makeRoomForSession picks when it has to remove one. */
  function Attach(s: Server, id: SessionId, owner: Key, conn: Conn, victim: Option<SessionId>): Attached
    requires TableOk(s) && (victim.Some? ==> victim.value in s.table)
  {
    if id in s.table then Join(s, id, owner, conn)
    else if |SessionsOf(s, owner)| >= MAX_SESSIONS_PER_CLIENT && victim.None? then Attached(s, StatusBusy)
    else
      var t := if |SessionsOf(s, owner)| >= MAX_SESSIONS_PER_CLIENT
               then RemoveSession(s, s.table[victim.value]) else s;
      if |t.table| >= MAX_GLUE_SESSIONS then Attached(t, StatusBusy)
      else Join(AddSession(t, id, owner), id, owner, conn)
  }

  /** The choice of makeRoomForSession. */
  ghost predicate IsVictim(s: Server, key: Key, victim: Option<SessionId>)
    requires TableOk(s)
  {
    match victim
    case None => forall id :: !IsEmptyOf(s, key, id)
    case Some(id) => IsLongestEmpty(s, key, id)
  }

  function Detach(s: Server, r: SessionRef, conn: Conn, now: int): Server
    requires r < |s.sessions|
  {
    var x := s.sessions[r];
    var paths := x.paths - {conn};
    WithSession(s, r, x.(paths := paths, emptySince := if paths == {} then Some(now) else x.emptySince))
  }

  function IdleFlows(s: Server, r: SessionRef, now: int): set<FlowId>
    requires r < |s.sessions|
  {
    var flows := s.sessions[r].flows;
    set id | id in flows && flows[id] < |s.sockets| && now - s.sockets[flows[id]].lastSeen > GLUE_FLOW_IDLE
  }

  predicate Gone(x: Session, now: int) {
    x.paths == {} && x.emptySince.Some? && now - x.emptySince.value > GLUE_SESSION_IDLE
  }

  /** What cleanupGlue does to one session. */
  function Clean(s: Server, r: SessionRef, now: int): Server
    requires r < |s.sessions|
  {
    var t := CloseFlows(s, r, IdleFlows(s, r, now));
    if Gone(s.sessions[r], now) then RemoveSession(t, r) else t
  }

  // ---------------------------------------------------------------- flow()

  function SetCall(s: Server, r: SessionRef, call: Call): Server
    requires r < |s.sessions|
  {
    WithSession(s, r, s.sessions[r].(call := call))
  }

  function Touch(s: Server, f: SocketRef, now: int): Server
    requires f < |s.sockets|
  {
    s.(sockets := s.sockets[f := s.sockets[f].(lastSeen := now)])
  }

  predicate OwnsFlow(s: Server, r: SessionRef, id: FlowId)
    requires r < |s.sessions| && id in s.sessions[r].flows
  {
    var f := s.sessions[r].flows[id];
    f < |s.sockets| && s.sockets[f].session == r && s.sockets[f].flow == id
  }

  /** flow() up to the reservation: a flow to the same destination is used again, a flow to another
      one is closed first, and a full session gets no more flows. */
  function BeginFlow(s: Server, r: SessionRef, id: FlowId, dst: nat, now: int): Server
    requires r < |s.sessions| && (id in s.sessions[r].flows ==> OwnsFlow(s, r, id))
  {
    var flows := s.sessions[r].flows;
    if id in flows && s.sockets[flows[id]].dst == dst then Touch(s, flows[id], now)
    else
      var t := if id in flows then CloseFlow(s, flows[id]) else s;
      if |t.sessions[r].flows| >= MAX_FLOWS_PER_SESSION then t
      else SetCall(t, r, Reserving(id, dst, now))
  }

  /** totalFlows.Add(1). */
  function AddToTotal(s: Server, r: SessionRef): Server
    requires r < |s.sessions| && s.sessions[r].call.Reserving?
  {
    var c := s.sessions[r].call;
    SetCall(s, r, Checking(c.flow, c.dst, c.now, s.total + 1 <= MAX_TOTAL_FLOWS)).(total := s.total + 1)
  }

  /** The check of what Add returned. */
  function CheckTotal(s: Server, r: SessionRef): Server
    requires r < |s.sessions| && s.sessions[r].call.Checking?
  {
    var c := s.sessions[r].call;
    SetCall(s, r, if c.passes then Dialing(c.flow, c.dst, c.now) else Undoing)
  }

  /** totalFlows.Add(-1): of a reservation over the limit or of a dial that failed. */
  function UndoTotal(s: Server, r: SessionRef): Server
    requires r < |s.sessions|
  {
    SetCall(s, r, NoCall).(total := s.total - 1)
  }

  /** DialUDP, and the new flow's entry when it succeeds. */
  function Dial(s: Server, r: SessionRef, succeeds: bool): Server
    requires r < |s.sessions| && s.sessions[r].call.Dialing?
  {
    if !succeeds then SetCall(s, r, Undoing)
    else
      var c := s.sessions[r].call;
      var x := s.sessions[r];
      s.(sessions := s.sessions[r := x.(flows := x.flows[c.flow := |s.sockets|], call := NoCall)],
         sockets := s.sockets + [Socket(r, c.flow, c.dst, c.now, true)])
  }

  // ---------------------------------------------------------------- steps

  datatype Step =
    | Attaches(id: SessionId, owner: Key, conn: Conn, victim: Option<SessionId>)
    | Detaches(r: SessionRef, conn: Conn, now: int)
    | Cleans(r: SessionRef, now: int)
    | BeginsFlow(r: SessionRef, conn: Conn, flow: FlowId, dst: nat, now: int)
    | AddsToTotal(r: SessionRef)
    | ChecksTotal(r: SessionRef)
    | UndoesTotal(r: SessionRef)
    | Dials(r: SessionRef, succeeds: bool)
    | ReaderFails(f: SocketRef)
    | ReaderReceives(f: SocketRef, now: int)

  /** No call holds the session's mutex. */
  predicate Unlocked(s: Server, r: SessionRef) {
    r < |s.sessions| && s.sessions[r].call.NoCall?
  }

  ghost predicate Enabled(s: Server, step: Step) {
    match step
    case Attaches(id, owner, conn, victim) =>
      && TableOk(s) && (victim.Some? ==> victim.value in s.table)
      && (if id in s.table then Unlocked(s, s.table[id]) else IsVictim(s, owner, victim))
    case Detaches(r, conn, now) => Unlocked(s, r) && conn in s.sessions[r].paths
    case Cleans(r, now) => Unlocked(s, r) && s.sessions[r].live
    case BeginsFlow(r, conn, flow, dst, now) =>
      && Unlocked(s, r) && conn in s.sessions[r].paths
      && (flow in s.sessions[r].flows ==> OwnsFlow(s, r, flow))
    case AddsToTotal(r) => r < |s.sessions| && s.sessions[r].call.Reserving?
    case ChecksTotal(r) => r < |s.sessions| && s.sessions[r].call.Checking?
    case UndoesTotal(r) => r < |s.sessions| && s.sessions[r].call.Undoing?
    case Dials(r, succeeds) => r < |s.sessions| && s.sessions[r].call.Dialing?
    case ReaderFails(f) => f < |s.sockets| && Unlocked(s, s.sockets[f].session)
    case ReaderReceives(f, now) => f < |s.sockets| && Unlocked(s, s.sockets[f].session)
  }

  ghost function Next(s: Server, step: Step): Server
    requires Enabled(s, step)
  {
    match step
    case Attaches(id, owner, conn, victim) => Attach(s, id, owner, conn, victim).s
    case Detaches(r, conn, now) => Detach(s, r, conn, now)
    case Cleans(r, now) => Clean(s, r, now)
    case BeginsFlow(r, conn, flow, dst, now) => BeginFlow(s, r, flow, dst, now)
    case AddsToTotal(r) => AddToTotal(s, r)
    case ChecksTotal(r) => CheckTotal(s, r)
    case UndoesTotal(r) => UndoTotal(s, r)
    case Dials(r, succeeds) => Dial(s, r, succeeds)
    case ReaderFails(f) => CloseFlow(s, f)
    case ReaderReceives(f, now) => Touch(s, f, now)
  }

  // ---------------------------------------------------------------- invariant

  predicate LiveInTable(s: Server) {
    forall r :: 0 <= r < |s.sessions| && s.sessions[r].live ==>
      s.sessions[r].id in s.table && s.table[s.sessions[r].id] == r
  }

  /** The flow a call is about to open; the call found room for it. */
  predicate CallOk(x: Session) {
    && (x.call.NoCall? || x.paths != {})
    && (x.call.Reserving? || x.call.Checking? || x.call.Dialing? ==>
          x.call.flow !in x.flows && |x.flows| < MAX_FLOWS_PER_SESSION)
  }

  predicate SessionOk(x: Session) {
    && |x.paths| <= MAX_PATHS_PER_SESSION
    && |x.flows| <= MAX_FLOWS_PER_SESSION
    && (x.emptySince.Some? <==> x.paths == {})
    && (!x.live ==> x.paths == {} && x.flows == map[])
    && CallOk(x)
  }

  predicate SessionsOk(s: Server) {
    forall r :: 0 <= r < |s.sessions| ==> SessionOk(s.sessions[r])
  }

  /** Every entry is the socket made for it; the open sockets are just the entries. */
  predicate SocketsOk(s: Server) {
    && (forall r, id :: 0 <= r < |s.sessions| && id in s.sessions[r].flows ==> OwnsFlow(s, r, id))
    && (forall f :: 0 <= f < |s.sockets| ==>
          s.sockets[f].session < |s.sessions| && (s.sockets[f].isOpen <==> IsEntry(s, f)))
  }

  /** Slots a call holds in the counter beyond its session's entries. */
  function Held(c: Call): nat {
    if c.Checking? || c.Dialing? || c.Undoing? then 1 else 0
  }

  /** Slots that are or will be used by an entry. */
  function Granted(c: Call): nat {
    if c.Dialing? || (c.Checking? && c.passes) then 1 else 0
  }

  function EntriesAt(s: Server): nat -> int {
    r => if 0 <= r < |s.sessions| then |s.sessions[r].flows| else 0
  }

  function SlotsAt(s: Server): nat -> int {
    r => if 0 <= r < |s.sessions| then |s.sessions[r].flows| + Held(s.sessions[r].call) else 0
  }

  function GrantedAt(s: Server): nat -> int {
    r => if 0 <= r < |s.sessions| then |s.sessions[r].flows| + Granted(s.sessions[r].call) else 0
  }

  /** The counter is the number of entries and of reservations in progress, and what has been
      granted never exceeds the limit. */
  predicate QuotaOk(s: Server) {
    && s.total == Sum(SlotsAt(s), |s.sessions|)
    && Sum(GrantedAt(s), |s.sessions|) <= MAX_TOTAL_FLOWS
  }

  ghost predicate LimitsOk(s: Server)
    requires TableOk(s)
  {
    && |s.table| <= MAX_GLUE_SESSIONS
    && forall key :: |SessionsOf(s, key)| <= MAX_SESSIONS_PER_CLIENT
  }

  ghost predicate Invariant(s: Server) {
    TableOk(s) && LiveInTable(s) && SessionsOk(s) && SocketsOk(s) && QuotaOk(s) && LimitsOk(s)
  }
}
