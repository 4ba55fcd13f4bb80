/** The functions of cmd/server/glue.go that scan its maps, as methods on the server's state. */
module GlueSessions {
  import opened Base
  import opened GlueServer
  import opened GlueInvariant
  import GlueSafety

  lemma NoneClosed(s: Server, r: SessionRef)
    requires r < |s.sessions|
    ensures CloseFlows(s, r, {}) == s
  {
    assert s.sessions[r].flows - {} == s.sessions[r].flows;
  }

  /** Closing one more flow of a partly closed session. */
  lemma OneMoreClosed(s: Server, r: SessionRef, done: set<FlowId>, id: FlowId)
    requires SocketsOk(s) && r < |s.sessions| && id in s.sessions[r].flows
    requires done <= s.sessions[r].flows.Keys && id !in done
    ensures var t := CloseFlows(s, r, done);
            && r < |t.sessions| && id in t.sessions[r].flows && t.sessions[r].flows[id] < |t.sockets|
            && t.sockets[t.sessions[r].flows[id]].session == r && t.sockets[t.sessions[r].flows[id]].flow == id
            && CloseFlow(t, t.sessions[r].flows[id]) == CloseFlows(s, r, done + {id})
  {
    var t := CloseFlows(s, r, done);
    assert OwnsFlow(s, r, id);
    var f := s.sessions[r].flows[id];
    CloseFlowsSockets(s, r, done);
    assert t.sessions[r].flows - {id} == s.sessions[r].flows - (done + {id});
    CloseFlowIsCloseFlows(t, f);
    assert IsEntry(t, f);
  }

  lemma CloseOneOf(s: Server, r: SessionRef, ids: set<FlowId>, rest: set<FlowId>, id: FlowId)
    requires SocketsOk(s) && r < |s.sessions| && ids <= s.sessions[r].flows.Keys && rest <= ids && id in rest
    ensures var t := CloseFlows(s, r, ids - rest);
            && r < |t.sessions| && id in t.sessions[r].flows && t.sessions[r].flows[id] < |t.sockets|
            && t.sockets[t.sessions[r].flows[id]].session == r && t.sockets[t.sessions[r].flows[id]].flow == id
            && CloseFlow(t, t.sessions[r].flows[id]) == CloseFlows(s, r, ids - (rest - {id}))
  {
    assert ids - rest + {id} == ids - (rest - {id});
    OneMoreClosed(s, r, ids - rest, id);
    hide *;
  }

  lemma NoneIdle(s: Server, r: SessionRef, now: int)
    requires r < |s.sessions|
    ensures CloseFlows(s, r, IdleFlows(s, r, now) - s.sessions[r].flows.Keys) == s
  {
    NoneClosed(s, r);
    assert IdleFlows(s, r, now) - s.sessions[r].flows.Keys == {};
  }

  lemma SameLastSeen(s: Server, r: SessionRef, ids: set<FlowId>, f: SocketRef, id: FlowId)
    requires r < |s.sessions| && ids <= s.sessions[r].flows.Keys && f < |s.sockets|
    requires id in s.sessions[r].flows && id !in ids && s.sessions[r].flows[id] == f
    ensures var t := CloseFlows(s, r, ids);
            t.sockets[f].lastSeen == s.sockets[f].lastSeen && t.sessions[r].flows[id] == f
  {
  }

  lemma IdleSplit(s: Server, r: SessionRef, now: int, rest: set<FlowId>, id: FlowId)
    requires r < |s.sessions| && id in s.sessions[r].flows && s.sessions[r].flows[id] < |s.sockets| && id in rest
    ensures IdleFlows(s, r, now) <= s.sessions[r].flows.Keys
    ensures if now - s.sockets[s.sessions[r].flows[id]].lastSeen > GLUE_FLOW_IDLE
            then IdleFlows(s, r, now) - (rest - {id}) == IdleFlows(s, r, now) - rest + {id}
            else IdleFlows(s, r, now) - (rest - {id}) == IdleFlows(s, r, now) - rest
  {
  }

  /** One turn of the loop over the flows: a flow is closed exactly when it is idle. */
  lemma IdleOrKept(s: Server, r: SessionRef, now: int, rest: set<FlowId>, id: FlowId)
    requires SocketsOk(s) && r < |s.sessions| && rest <= s.sessions[r].flows.Keys && id in rest
    ensures IdleFlows(s, r, now) <= s.sessions[r].flows.Keys
    ensures var t := CloseFlows(s, r, IdleFlows(s, r, now) - rest);
            && r < |t.sessions| && id in t.sessions[r].flows && t.sessions[r].flows[id] < |t.sockets|
            && var f := t.sessions[r].flows[id];
               && t.sockets[f].session == r && t.sockets[f].flow == id
               && CloseFlows(s, r, IdleFlows(s, r, now) - (rest - {id})) ==
                    if now - t.sockets[f].lastSeen > GLUE_FLOW_IDLE then CloseFlow(t, f) else t
  {
    var done := IdleFlows(s, r, now) - rest;
    OneMoreClosed(s, r, done, id);
    assert OwnsFlow(s, r, id);
    SameLastSeen(s, r, done, s.sessions[r].flows[id], id);
    IdleSplit(s, r, now, rest, id);
    hide CloseFlow, CloseFlows, SocketsOk, IdleFlows;
  }

  lemma AttachStart(s: Server, id: SessionId, owner: Key, conn: Conn)
    requires TableOk(s)
    ensures id in s.table ==> s.table[id] < |s.sessions| && Attach(s, id, owner, conn, None) == Join(s, id, owner, conn)
  {
  }

  lemma AttachNew(s: Server, id: SessionId, owner: Key, conn: Conn, victim: Option<SessionId>)
    requires Invariant(s) && id !in s.table && IsVictim(s, owner, victim)
    ensures victim.Some? ==> victim.value in s.table
    ensures var t := Room(s, owner, victim);
            Attach(s, id, owner, conn, victim) ==
              if |SessionsOf(s, owner)| >= MAX_SESSIONS_PER_CLIENT && victim.None? then Attached(t, StatusBusy)
              else if |t.table| >= MAX_GLUE_SESSIONS then Attached(t, StatusBusy)
              else Join(AddSession(t, id, owner), id, owner, conn)
  {
    if victim.Some? {
      VictimIsRemovable(s, owner, victim);
    }
    AttachByCases(s, id, owner, conn, victim);
    RoomByCases(s, owner, victim);
    hide Invariant, Attach, Room, RemoveSession, SessionsOf, IsVictim, Join, AddSession;
  }

  /** The client's sessions among those seen. */
  function Mine(s: Server, key: Key, seen: set<SessionId>): set<SessionId>
    requires TableOk(s)
  {
    set id | id in seen && id in s.table && s.sessions[s.table[id]].owner == key
  }

  /** What the scan knows after the sessions in `seen`. */
  ghost predicate Scanned(s: Server, key: Key, seen: set<SessionId>, count: nat, oldest: Option<SessionId>)
    requires TableOk(s)
  {
    && seen <= s.table.Keys
    && count == |Mine(s, key, seen)|
    && match oldest
       case None => forall id :: id in seen ==> !IsEmptyOf(s, key, id)
       case Some(best) =>
         && best in seen && IsEmptyOf(s, key, best)
         && forall id :: id in seen && IsEmptyOf(s, key, id) ==>
              !Before(s.sessions[s.table[id]].emptySince, s.sessions[s.table[best]].emptySince)
  }

  lemma ScanOne(s: Server, key: Key, seen: set<SessionId>, count: nat, oldest: Option<SessionId>, id: SessionId)
    requires TableOk(s) && Scanned(s, key, seen, count, oldest) && id in s.table && id !in seen
    ensures oldest.Some? ==> oldest.value in s.table && s.table[oldest.value] < |s.sessions|
    ensures s.table[id] < |s.sessions|
    ensures var x := s.sessions[s.table[id]];
            var better := x.owner == key && x.paths == {} &&
                          (oldest == None || Before(x.emptySince, s.sessions[s.table[oldest.value]].emptySince));
            Scanned(s, key, seen + {id}, if x.owner == key then count + 1 else count,
                    if better then Some(id) else oldest)
  {
    assert Mine(s, key, seen + {id}) ==
           Mine(s, key, seen) + if s.sessions[s.table[id]].owner == key then {id} else {};
  }

  lemma ScannedAll(s: Server, key: Key, seen: set<SessionId>, count: nat, oldest: Option<SessionId>)
    requires TableOk(s) && Scanned(s, key, seen, count, oldest) && seen == s.table.Keys
    ensures count == |SessionsOf(s, key)| && IsVictim(s, key, oldest)
  {
    assert Mine(s, key, seen) == SessionsOf(s, key);
  }

  lemma ScannedNone(s: Server, key: Key)
    requires TableOk(s)
    ensures Scanned(s, key, {}, 0, None)
  {
  }

  lemma CleanByParts(s: Server, r: SessionRef, now: int)
    requires Invariant(s) && Unlocked(s, r) && s.sessions[r].live
    ensures SocketsOk(s)
    ensures IdleFlows(s, r, now) <= s.sessions[r].flows.Keys
    ensures var t := CloseFlows(s, r, IdleFlows(s, r, now));
            && SocketsOk(t) && t.table == s.table && |t.sessions| == |s.sessions|
            && t.sessions[r] == s.sessions[r].(flows := t.sessions[r].flows)
            && s.sessions[r].id in s.table && s.table[s.sessions[r].id] == r
            && Clean(s, r, now) == if Gone(s.sessions[r], now) then RemoveSession(t, r) else t
  {
    CloseFlowsSockets(s, r, IdleFlows(s, r, now));
  }

  /** Other goroutines run until the mutex of session r is free; the table does not change. */
  ghost predicate WaitsForMutex(waits: (Server, SessionRef) -> Server) {
    forall s: Server, r: SessionRef :: Invariant(s) && r < |s.sessions| ==>
      Invariant(waits(s, r)) && waits(s, r).table == s.table && Unlocked(waits(s, r), r)
  }

  /** The sessions still to come are in the table as they were. */
  predicate StillListed(start: Server, rest: set<SessionId>, s: Server) {
    forall id :: id in rest ==> id in start.table && id in s.table && s.table[id] == start.table[id]
  }

  lemma CleanReady(s: Server, id: SessionId, now: int)
    requires Invariant(s) && id in s.table && Unlocked(s, s.table[id])
    ensures s.sessions[s.table[id]].live && s.sessions[s.table[id]].id == id
    ensures Enabled(s, Cleans(s.table[id], now))
  {
  }

  lemma WaitFrame(start: Server, rest: set<SessionId>, s: Server, id: SessionId, waits: (Server, SessionRef) -> Server)
    requires Invariant(s) && WaitsForMutex(waits) && StillListed(start, rest, s) && id in rest
    ensures id in s.table && s.table[id] < |s.sessions| && s.table[id] == start.table[id]
    ensures var t := waits(s, s.table[id]);
            Invariant(t) && t.table == s.table && Unlocked(t, s.table[id]) && StillListed(start, rest, t)
  {
    assert id in s.table;
    assert TableOk(s);
    hide Invariant;
  }

  /** Cleaning a session takes no other from the table and touches no call. */
  ghost predicate CleansOnly(s: Server, t: Server, id: SessionId) {
    && (t.table == s.table || t.table == s.table - {id})
    && |t.sessions| == |s.sessions|
    && forall r :: 0 <= r < |t.sessions| ==> t.sessions[r].call == s.sessions[r].call
  }

  lemma OthersStay(s: Server, t: Server, start: Server, rest: set<SessionId>, id: SessionId)
    requires CleansOnly(s, t, id) && StillListed(start, rest, s) && id in rest
    ensures StillListed(start, rest - {id}, t)
  {
  }

  lemma CleanTable(s: Server, id: SessionId, now: int)
    requires id in s.table && s.table[id] < |s.sessions| && s.sessions[s.table[id]].id == id
    ensures CleansOnly(s, Clean(s, s.table[id], now), id)
  {
  }

  /** What cleaning one session leaves to the others. */
  lemma CleanFrame(s: Server, start: Server, rest: set<SessionId>, id: SessionId, now: int)
    requires Invariant(s) && StillListed(start, rest, s) && id in rest
    requires id in s.table && Unlocked(s, s.table[id])
    ensures s.sessions[s.table[id]].live
    ensures var t := Clean(s, s.table[id], now); Invariant(t) && StillListed(start, rest - {id}, t)
  {
    CleanReady(s, id, now);
    hide Invariant, Clean, CleansOnly, StillListed, Enabled;
    CleanKeeps(s, s.table[id], now);
    CleanTable(s, id, now);
    OthersStay(s, Clean(s, s.table[id], now), start, rest, id);
  }

  /** t is s after its sessions in `order` were waited for and cleaned, one after the other. */
  ghost predicate CleansTo(
    s: Server, order: seq<SessionId>, now: int, waits: (Server, SessionRef) -> Server, t: Server)
    decreases |order|
  {
    if order == [] then t == s
    else
      var n := |order| - 1;
      && order[n] in s.table
      && exists m ::
           CleansTo(s, order[..n], now, waits, m) && s.table[order[n]] < |waits(m, s.table[order[n]]).sessions|
           && t == Clean(waits(m, s.table[order[n]]), s.table[order[n]], now)
  }

  lemma CleansNone(s: Server, now: int, waits: (Server, SessionRef) -> Server)
    ensures CleansTo(s, [], now, waits, s)
  {
  }

  lemma CleansToMore(
    s: Server, order: seq<SessionId>, now: int, waits: (Server, SessionRef) -> Server, m: Server, id: SessionId)
    requires CleansTo(s, order, now, waits, m) && id in s.table && s.table[id] < |waits(m, s.table[id]).sessions|
    ensures CleansTo(s, order + [id], now, waits, Clean(waits(m, s.table[id]), s.table[id], now))
  {
    assert (order + [id])[..|order|] == order;
    hide Clean;
  }

  /** What a call of flow() that found room does next: it reserves a slot, and dials. */
  function Reserved(s: Server, r: SessionRef, dials: bool): Server
    requires r < |s.sessions| && s.sessions[r].call.Reserving?
  {
    var t := CheckTotal(AddToTotal(s, r), r);
    if t.sessions[r].call.Undoing? then UndoTotal(t, r)
    else if dials then Dial(t, r, true)
    else UndoTotal(Dial(t, r, false), r)
  }

  /** A whole call of flow(), when no other step comes in between. */
  function FlowCall(s: Server, r: SessionRef, id: FlowId, dst: nat, now: int, dials: bool): Server
    requires r < |s.sessions| && (id in s.sessions[r].flows ==> OwnsFlow(s, r, id))
  {
    var t := BeginFlow(s, r, id, dst, now);
    if |t.sessions| == |s.sessions| && t.sessions[r].call.Reserving? then Reserved(t, r, dials) else t
  }

  /** The socket a call returns: the flow's, when it goes to the destination asked for. */
  function FlowAnswer(s: Server, r: SessionRef, id: FlowId, dst: nat): Option<SocketRef>
    requires r < |s.sessions|
  {
    var flows := s.sessions[r].flows;
    if id in flows && flows[id] < |s.sockets| && s.sockets[flows[id]].dst == dst then Some(flows[id]) else None
  }

  lemma ReservedCall(s: Server, r: SessionRef, id: FlowId, dst: nat, now: int, dials: bool)
    requires Unlocked(s, r)
    ensures var x := s.sessions[r];
            Reserved(SetCall(s, r, Reserving(id, dst, now)), r, dials) ==
              if s.total >= MAX_TOTAL_FLOWS || !dials then s
              else Server(s.table, s.sessions[r := x.(flows := x.flows[id := |s.sockets|])],
                          s.sockets + [Socket(r, id, dst, now, true)], s.total + 1)
  {
    assert s.sessions[r := s.sessions[r].(call := NoCall)] == s.sessions;
  }

  /** The server after the flow's old socket was closed. */
  function Cleared(s: Server, r: SessionRef, id: FlowId): Server
    requires r < |s.sessions| && (id in s.sessions[r].flows ==> OwnsFlow(s, r, id))
  {
    if id in s.sessions[r].flows then CloseFlow(s, s.sessions[r].flows[id]) else s
  }

  /** c is s but for flow id of session r, which is closed. */
  predicate IsCleared(s: Server, c: Server, r: SessionRef, id: FlowId)
    requires r < |s.sessions|
  {
    && Unlocked(c, r) && c.sessions[r].flows == s.sessions[r].flows - {id}
    && c.total == s.total - (if id in s.sessions[r].flows then 1 else 0)
    && |c.sockets| == |s.sockets|
    && forall f :: 0 <= f < |s.sockets| ==>
         && (IsEntry(c, f) <==> IsEntry(s, f) && !(s.sockets[f].session == r && s.sockets[f].flow == id))
         && (IsEntry(c, f) ==> c.sockets[f] == s.sockets[f])
  }

  lemma ClearedIs(s: Server, r: SessionRef, id: FlowId)
    requires SocketsOk(s) && Unlocked(s, r)
    ensures id in s.sessions[r].flows ==> OwnsFlow(s, r, id)
    ensures IsCleared(s, Cleared(s, r, id), r, id) && Unlocked(Cleared(s, r, id), r)
    ensures Cleared(s, r, id).sessions[r].flows == s.sessions[r].flows - {id}
    ensures Cleared(s, r, id).total == s.total - (if id in s.sessions[r].flows then 1 else 0)
  {
    if id in s.sessions[r].flows {
      assert OwnsFlow(s, r, id);
      var f := s.sessions[r].flows[id];
      CloseFlowIsCloseFlows(s, f);
      assert IsEntry(s, f);
    } else {
      assert s.sessions[r].flows - {id} == s.sessions[r].flows;
    }
  }

  /** The server after the flow got its socket. */
  function Opened(c: Server, r: SessionRef, id: FlowId, dst: nat, now: int): Server
    requires r < |c.sessions|
  {
    Server(c.table, c.sessions[r := c.sessions[r].(flows := c.sessions[r].flows[id := |c.sockets|])],
           c.sockets + [Socket(r, id, dst, now, true)], c.total + 1)
  }

  lemma FlowCallIs(s: Server, r: SessionRef, id: FlowId, dst: nat, now: int, dials: bool)
    requires Unlocked(s, r) && (id in s.sessions[r].flows ==> OwnsFlow(s, r, id)) && Unlocked(Cleared(s, r, id), r)
    ensures var flows := s.sessions[r].flows;
            var c := Cleared(s, r, id);
            FlowCall(s, r, id, dst, now, dials) ==
              if id in flows && s.sockets[flows[id]].dst == dst then Touch(s, flows[id], now)
              else if |c.sessions[r].flows| >= MAX_FLOWS_PER_SESSION || c.total >= MAX_TOTAL_FLOWS || !dials then c
              else Opened(c, r, id, dst, now)
  {
    var c := Cleared(s, r, id);
    ReservedCall(c, r, id, dst, now, dials);
    hide Reserved, CloseFlow;
  }

  lemma OpenedEntries(c: Server, r: SessionRef, id: FlowId, k: Socket)
    requires r < |c.sessions| && id !in c.sessions[r].flows && k.session == r && k.flow == id
    ensures var t := Server(c.table, c.sessions[r := c.sessions[r].(flows := c.sessions[r].flows[id := |c.sockets|])],
                            c.sockets + [k], c.total + 1);
            && IsEntry(t, |c.sockets|)
            && forall f :: 0 <= f < |c.sockets| ==> (IsEntry(t, f) <==> IsEntry(c, f)) && t.sockets[f] == c.sockets[f]
  {
  }

  lemma TouchedEntries(s: Server, f: SocketRef, now: int)
    requires f < |s.sockets|
    ensures var t := Touch(s, f, now);
            forall g :: 0 <= g < |s.sockets| ==>
              (IsEntry(t, g) <==> IsEntry(s, g)) && (g != f ==> t.sockets[g] == s.sockets[g])
  {
  }

  predicate KnownFlow(s: Server, r: SessionRef, id: FlowId, dst: nat)
    requires r < |s.sessions| && (id in s.sessions[r].flows ==> OwnsFlow(s, r, id))
  {
    id in s.sessions[r].flows && s.sockets[s.sessions[r].flows[id]].dst == dst
  }

  /** Session and server have room for the flow, once its old socket is closed. */
  predicate RoomForFlow(s: Server, r: SessionRef, id: FlowId)
    requires r < |s.sessions|
  {
    && |s.sessions[r].flows - {id}| < MAX_FLOWS_PER_SESSION
    && s.total - (if id in s.sessions[r].flows then 1 else 0) < MAX_TOTAL_FLOWS
  }

  /** The sockets of all other flows stay as they are. */
  predicate KeepsOthers(s: Server, t: Server, r: SessionRef, id: FlowId) {
    forall g :: 0 <= g < |s.sockets| && g < |t.sockets| && !(s.sockets[g].session == r && s.sockets[g].flow == id) ==>
      (IsEntry(t, g) <==> IsEntry(s, g)) && (IsEntry(s, g) ==> t.sockets[g] == s.sockets[g])
  }

  /** What a call of flow() for a packet leaves. */
  ghost predicate FlowAnswered(s: Server, t: Server, r: SessionRef, id: FlowId, dst: nat, now: int, dials: bool)
    requires r < |s.sessions| && (id in s.sessions[r].flows ==> OwnsFlow(s, r, id))
  {
    && r < |t.sessions| && |s.sockets| <= |t.sockets|
    && var answer := FlowAnswer(t, r, id, dst);
       && (answer.Some? <==> KnownFlow(s, r, id, dst) || (RoomForFlow(s, r, id) && dials))
       && (answer.Some? ==>
             && answer.value < |t.sockets| && IsEntry(t, answer.value)
             && t.sockets[answer.value] == Socket(r, id, dst, now, true)
             && answer.value == if KnownFlow(s, r, id, dst) then s.sessions[r].flows[id] else |s.sockets|)
       && (!KnownFlow(s, r, id, dst) && id in s.sessions[r].flows ==> !IsEntry(t, s.sessions[r].flows[id]))
       && KeepsOthers(s, t, r, id)
  }

  lemma KnownAnswered(s: Server, r: SessionRef, id: FlowId, dst: nat, now: int, dials: bool)
    requires SocketsOk(s) && Unlocked(s, r) && (id in s.sessions[r].flows ==> OwnsFlow(s, r, id))
    requires KnownFlow(s, r, id, dst)
    ensures FlowAnswered(s, Touch(s, s.sessions[r].flows[id], now), r, id, dst, now, dials)
  {
    var f := s.sessions[r].flows[id];
    assert IsEntry(s, f) && s.sockets[f].isOpen;
    TouchedEntries(s, f, now);
    hide SocketsOk;
  }

  lemma RefusedAnswered(s: Server, c: Server, r: SessionRef, id: FlowId, dst: nat, now: int, dials: bool)
    requires Unlocked(s, r) && (id in s.sessions[r].flows ==> OwnsFlow(s, r, id))
    requires IsCleared(s, c, r, id) && !KnownFlow(s, r, id, dst) && !(RoomForFlow(s, r, id) && dials)
    ensures FlowAnswered(s, c, r, id, dst, now, dials)
  {
  }

  lemma OpenedAnswered(s: Server, c: Server, r: SessionRef, id: FlowId, dst: nat, now: int)
    requires Unlocked(s, r) && (id in s.sessions[r].flows ==> OwnsFlow(s, r, id))
    requires IsCleared(s, c, r, id) && !KnownFlow(s, r, id, dst) && RoomForFlow(s, r, id)
    ensures FlowAnswered(s, Opened(c, r, id, dst, now), r, id, dst, now, true)
  {
    OpenedEntries(c, r, id, Socket(r, id, dst, now, true));
    hide IsEntry;
  }

  lemma FlowCallCases(s: Server, r: SessionRef, id: FlowId, dst: nat, now: int, dials: bool)
    requires Unlocked(s, r) && (id in s.sessions[r].flows ==> OwnsFlow(s, r, id)) && Unlocked(Cleared(s, r, id), r)
    requires IsCleared(s, Cleared(s, r, id), r, id)
    ensures FlowCall(s, r, id, dst, now, dials) ==
            if KnownFlow(s, r, id, dst) then Touch(s, s.sessions[r].flows[id], now)
            else if RoomForFlow(s, r, id) && dials then Opened(Cleared(s, r, id), r, id, dst, now)
            else Cleared(s, r, id)
  {
    FlowCallIs(s, r, id, dst, now, dials);
    hide FlowCall, Cleared, Opened, Touch;
  }

  lemma SocketsAreOk(s: Server)
    requires Invariant(s)
    ensures SocketsOk(s)
  {
  }

  /** Main result: an undisturbed call finds the flow a socket exactly when it has one to the destination,
      or when session and server have room for one and the dial succeeds. The socket is the flow's entry,
      active now; a socket the flow had to another destination is closed; no other flow is touched. */
  lemma FlowOpensExactlyWhen(s: Server, r: SessionRef, id: FlowId, dst: nat, now: int, dials: bool)
    requires Invariant(s) && Unlocked(s, r)
    ensures id in s.sessions[r].flows ==> OwnsFlow(s, r, id)
    ensures FlowAnswered(s, FlowCall(s, r, id, dst, now, dials), r, id, dst, now, dials)
  {
    hide Invariant, SocketsOk, FlowCall, Cleared, FlowAnswered, OwnsFlow;
    hide IsCleared, KnownFlow, RoomForFlow, Opened, Touch;
    SocketsAreOk(s);
    ClearedIs(s, r, id);
    FlowCallCases(s, r, id, dst, now, dials);
    var c := Cleared(s, r, id);
    if KnownFlow(s, r, id, dst) {
      KnownAnswered(s, r, id, dst, now, dials);
    } else if RoomForFlow(s, r, id) && dials {
      OpenedAnswered(s, c, r, id, dst, now);
    } else {
      RefusedAnswered(s, c, r, id, dst, now, dials);
    }
  }

  /** The steps of a call of flow() on its own. */
  function FlowSteps(s: Server, r: SessionRef, conn: Conn, id: FlowId, dst: nat, now: int, dials: bool): seq<Step>
    requires r < |s.sessions| && (id in s.sessions[r].flows ==> OwnsFlow(s, r, id))
  {
    var begin := BeginsFlow(r, conn, id, dst, now);
    var t := BeginFlow(s, r, id, dst, now);
    if |t.sessions| == |s.sessions| && t.sessions[r].call.Reserving? then
      [begin, AddsToTotal(r), ChecksTotal(r)] +
      if t.total >= MAX_TOTAL_FLOWS then [UndoesTotal(r)]
      else if dials then [Dials(r, true)]
      else [Dials(r, false), UndoesTotal(r)]
    else [begin]
  }

  function ReserveSteps(s: Server, r: SessionRef, dials: bool): seq<Step> {
    [AddsToTotal(r), ChecksTotal(r)] +
    if s.total >= MAX_TOTAL_FLOWS then [UndoesTotal(r)]
    else if dials then [Dials(r, true)]
    else [Dials(r, false), UndoesTotal(r)]
  }

  lemma OneStep(s: Server, step: Step)
    requires GlueServer.Enabled(s, step)
    ensures GlueSafety.Leads(s, [step], Next(s, step))
  {
    hide Next;
    assert [step][1..] == [];
  }

  lemma ReservedIsRun(s: Server, r: SessionRef, dials: bool)
    requires r < |s.sessions| && s.sessions[r].call.Reserving?
    ensures GlueSafety.Leads(s, ReserveSteps(s, r, dials), Reserved(s, r, dials))
  {
    var a := AddToTotal(s, r);
    var b := CheckTotal(a, r);
    var es := ReserveSteps(s, r, dials);
    assert es[1..][1..] == es[2..];
    if s.total < MAX_TOTAL_FLOWS && !dials {
      var c := Dial(b, r, false);
      assert es[2..] == [Dials(r, false), UndoesTotal(r)] && es[2..][1..] == [UndoesTotal(r)];
      OneStep(c, UndoesTotal(r));
      assert GlueSafety.Leads(b, es[2..], UndoTotal(c, r));
    } else {
      OneStep(b, es[2]);
      assert es[2..] == [es[2]];
    }
    assert GlueSafety.Leads(a, es[1..], Reserved(s, r, dials));
  }

  /** A call of flow() is a run of the step system, so what holds of every run holds around it. */
  lemma FlowIsRun(s: Server, r: SessionRef, conn: Conn, id: FlowId, dst: nat, now: int, dials: bool)
    requires GlueServer.Enabled(s, BeginsFlow(r, conn, id, dst, now))
    ensures GlueSafety.Leads(s, FlowSteps(s, r, conn, id, dst, now, dials), FlowCall(s, r, id, dst, now, dials))
  {
    var begin := BeginsFlow(r, conn, id, dst, now);
    var t := BeginFlow(s, r, id, dst, now);
    if |t.sessions| == |s.sessions| && t.sessions[r].call.Reserving? {
      ReservedIsRun(t, r, dials);
      assert FlowSteps(s, r, conn, id, dst, now, dials)[1..] == ReserveSteps(t, r, dials);
    } else {
      assert [begin][1..] == [];
    }
    hide BeginFlow, Reserved;
  }

  class Sessions {
    var table: map<SessionId, SessionRef>
    var sessions: seq<Session>
    var sockets: seq<Socket>
    var total: int

    function State(): Server
      reads this
    {
      Server(table, sessions, sockets, total)
    }

    constructor ()
      ensures State() == EMPTY_SERVER
    {
      table, sessions, sockets, total := map[], [], [], 0;
    }

    lemma AsFields()
      ensures State().table == table && State().sessions == sessions
      ensures State().sockets == sockets && State().total == total
    {
    }

    method CloseFlowLocked(id: FlowId, f: SocketRef)
      requires f < |sockets| && sockets[f].session < |sessions| && sockets[f].flow == id
      modifies this`sockets, this`sessions, this`total
      ensures State() == CloseFlow(old(State()), f)
    {
      var r := sockets[f].session;
      var flows := sessions[r].flows;
      sockets := sockets[f := sockets[f].(isOpen := false)];
      if !(id in flows && flows[id] == f) {
        return;
      }
      sessions := sessions[r := sessions[r].(flows := flows - {id})];
      total := total - 1;
    }

    /** Closes the given flows of session r, one by one. */
    method CloseEach(r: SessionRef, ids: set<FlowId>)
      requires r < |sessions| && SocketsOk(State()) && ids <= sessions[r].flows.Keys
      modifies this`sockets, this`sessions, this`total
      ensures State() == CloseFlows(old(State()), r, ids)
    {
      ghost var start := State();
      var rest := ids;
      NoneClosed(start, r);
      assert ids - rest == {};
      hide *;
      while rest != {}
        invariant rest <= ids && State() == CloseFlows(start, r, ids - rest)
        decreases rest
      {
        var id :| id in rest;
        CloseOneOf(start, r, ids, rest, id);
        rest := rest - {id};
        AsFields();
        var f := sessions[r].flows[id];
        CloseFlowLocked(id, f);
      }
      assert ids - rest == ids;
    }

    method CloseAllFlowsLocked(r: SessionRef)
      requires r < |sessions| && SocketsOk(State())
      modifies this`sockets, this`sessions, this`total
      ensures State() == CloseFlows(old(State()), r, old(sessions[r].flows.Keys))
    {
      CloseEach(r, sessions[r].flows.Keys);
    }

    /** Removes a session: its sockets are closed, the table lets it go. */
    method Remove(id: SessionId)
      requires id in table && table[id] < |sessions| && sessions[table[id]].id == id && SocketsOk(State())
      modifies this
      ensures State() == RemoveSession(old(State()), old(table[id]))
    {
      var r := table[id];
      CloseAllFlowsLocked(r);
      sessions := sessions[r := sessions[r].(live := false)];
      table := table - {id};
    }

    /** The scan of makeRoomForSession: how many sessions the client has, and the one of them that
        has been empty longest. */
    method Scan(key: Key) returns (count: nat, oldest: Option<SessionId>)
      requires TableOk(State())
      ensures count == |SessionsOf(State(), key)|
      ensures IsVictim(State(), key, oldest)
    {
      count, oldest := 0, None;
      var rest := table.Keys;
      ghost var seen: set<SessionId> := {};
      var oldestSince := None;
      ScannedNone(State(), key);
      hide Scanned, IsEmptyOf, SessionsOf;
      while rest != {}
        invariant rest <= table.Keys && seen == table.Keys - rest
        invariant Scanned(State(), key, seen, count, oldest)
        invariant oldest.Some? ==> oldestSince == sessions[table[oldest.value]].emptySince
        decreases rest
      {
        var id :| id in rest;
        rest := rest - {id};
        ScanOne(State(), key, seen, count, oldest, id);
        hide TableOk, Before;
        var x := sessions[table[id]];
        if x.owner == key {
          count := count + 1;
          if x.paths == {} && (oldest == None || Before(x.emptySince, oldestSince)) {
            oldest, oldestSince := Some(id), x.emptySince;
          }
        }
        seen := seen + {id};
      }
      ScannedAll(State(), key, seen, count, oldest);
    }

    method MakeRoomForSession(key: Key) returns (ok: bool, victim: Option<SessionId>)
      requires TableOk(State()) && SocketsOk(State())
      modifies this
      ensures IsVictim(old(State()), key, victim)
      ensures ok <==> |SessionsOf(old(State()), key)| < MAX_SESSIONS_PER_CLIENT || victim.Some?
      ensures State() == Room(old(State()), key, victim)
    {
      var count;
      count, victim := Scan(key);
      RoomByCases(State(), key, victim);
      if count < MAX_SESSIONS_PER_CLIENT {
        return true, victim;
      }
      if victim == None {
        return false, victim;
      }
      Remove(victim.value);
      return true, victim;
    }

    method AddTo(id: SessionId, owner: Key)
      modifies this
      ensures State() == AddSession(old(State()), id, owner)
    {
      table := table[id := |sessions|];
      sessions := sessions + [NewSession(id, owner)];
    }

    method JoinPath(id: SessionId, owner: Key, conn: Conn) returns (status: Status)
      requires id in table && table[id] < |sessions|
      modifies this`sessions
      ensures Attached(State(), status) == Join(old(State()), id, owner, conn)
    {
      var x := sessions[table[id]];
      if x.owner != owner {
        return StatusRefused;
      }
      if |x.paths| >= MAX_PATHS_PER_SESSION {
        return StatusBusy;
      }
      sessions := sessions[table[id] := x.(paths := x.paths + {conn}, emptySince := None)];
      return StatusOK;
    }

    /** attachGluePath, without the connection and the log. */
    method AttachGluePath(id: SessionId, owner: Key, conn: Conn) returns (status: Status, victim: Option<SessionId>)
      requires Invariant(State()) && (id in table ==> Unlocked(State(), table[id]))
      modifies this
      ensures victim.Some? ==> victim.value in old(table)
      ensures id !in old(table) ==> IsVictim(old(State()), owner, victim)
      ensures Attached(State(), status) == Attach(old(State()), id, owner, conn, victim)
    {
      victim := None;
      AttachStart(State(), id, owner, conn);
      if id !in table {
        var ok;
        ok, victim := MakeRoomForSession(owner);
        AttachNew(old(State()), id, owner, conn, victim);
        if !ok {
          return StatusBusy, victim;
        }
        if |table| >= MAX_GLUE_SESSIONS {
          return StatusBusy, victim;
        }
        AddTo(id, owner);
      }
      hide Invariant, Attach, IsVictim, AdmitNew, Room;
      status := JoinPath(id, owner, conn);
    }

    method DetachPath(r: SessionRef, conn: Conn, now: int)
      requires r < |sessions|
      modifies this`sessions
      ensures State() == Detach(old(State()), r, conn, now)
    {
      var x := sessions[r];
      x := x.(paths := x.paths - {conn});
      if |x.paths| == 0 {
        x := x.(emptySince := Some(now));
      }
      sessions := sessions[r := x];
    }

    /** reserveFlow, when nothing comes between adding and checking. */
    method ReserveFlow() returns (ok: bool)
      modifies this`total
      ensures ok <==> old(total) < MAX_TOTAL_FLOWS
      ensures total == old(total) + if ok then 1 else 0
    {
      total := total + 1;
      if total > MAX_TOTAL_FLOWS {
        total := total - 1;
        return false;
      }
      return true;
    }

    /** flow(); `dials` tells whether DialUDP succeeds. */
    method Flow(r: SessionRef, id: FlowId, dst: nat, now: int, dials: bool) returns (f: Option<SocketRef>)
      requires Unlocked(State(), r) && (id in sessions[r].flows ==> OwnsFlow(State(), r, id))
      modifies this
      ensures State() == FlowCall(old(State()), r, id, dst, now, dials)
      ensures f == FlowAnswer(State(), r, id, dst)
    {
      if id in sessions[r].flows {
        var known := sessions[r].flows[id];
        if sockets[known].dst == dst {
          sockets := sockets[known := sockets[known].(lastSeen := now)];
          return Some(known);
        }
        CloseFlowLocked(id, known);
      }
      ghost var cleared := State();
      if |sessions[r].flows| >= MAX_FLOWS_PER_SESSION {
        return None;
      }
      var ok := ReserveFlow();
      ReservedCall(cleared, r, id, dst, now, dials);
      hide BeginFlow, Reserved;
      if !ok {
        return None;
      }
      if !dials {
        total := total - 1;
        return None;
      }
      f := Some(|sockets|);
      sessions := sessions[r := sessions[r].(flows := sessions[r].flows[id := |sockets|])];
      sockets := sockets + [Socket(r, id, dst, now, true)];
    }

    /** The loop of cleanupGlue over the flows of a session. */
    method CloseIdle(r: SessionRef, now: int)
      requires r < |sessions| && SocketsOk(State())
      modifies this`sockets, this`sessions, this`total
      ensures State() == CloseFlows(old(State()), r, IdleFlows(old(State()), r, now))
    {
      ghost var start := State();
      var rest := sessions[r].flows.Keys;
      NoneIdle(start, r, now);
      hide *;
      while rest != {}
        invariant rest <= start.sessions[r].flows.Keys
        invariant State() == CloseFlows(start, r, IdleFlows(start, r, now) - rest)
        decreases rest
      {
        var id :| id in rest;
        IdleOrKept(start, r, now, rest, id);
        rest := rest - {id};
        AsFields();
        var f := sessions[r].flows[id];
        if now - sockets[f].lastSeen > GLUE_FLOW_IDLE {
          CloseFlowLocked(id, f);
        }
      }
      assert IdleFlows(start, r, now) - rest == IdleFlows(start, r, now);
    }

    method CleanSession(r: SessionRef, now: int)
      requires Invariant(State()) && Unlocked(State(), r) && sessions[r].live
      modifies this
      ensures State() == Clean(old(State()), r, now)
    {
      CleanByParts(State(), r, now);
      hide Invariant, Clean, CloseFlows;
      CloseIdle(r, now);
      if Gone(sessions[r], now) {
        Remove(sessions[r].id);
      }
    }

    /** What other goroutines did. */
    method Become(s: Server)
      modifies this
      ensures State() == s
    {
      table, sessions, sockets, total := s.table, s.sessions, s.sockets, s.total;
    }

    /** cleanupGlue. Before it cleans a session it waits for the session's mutex: meanwhile calls of
        flow(), readers and detaching paths go on (`waits` says how), but the table is locked. `order`
        lists the sessions as they came. */
    method CleanupGlue(now: int, waits: (Server, SessionRef) -> Server) returns (ghost order: seq<SessionId>)
      requires Invariant(State()) && WaitsForMutex(waits)
      modifies this
      ensures Invariant(State())
      ensures forall id :: id in order <==> id in old(table)
      ensures CleansTo(old(State()), order, now, waits, State())
    {
      order := [];
      var rest := table.Keys;
      ghost var start := State();
      hide Invariant, CleansTo, WaitsForMutex;
      CleansNone(start, now, waits);
      while rest != {}
        invariant Invariant(State()) && StillListed(start, rest, State())
        invariant forall id :: id in order <==> id in start.table && id !in rest
        invariant CleansTo(start, order, now, waits, State())
        decreases rest
      {
        var id :| id in rest;
        ghost var before := State();
        WaitFrame(start, rest, before, id, waits);
        Become(waits(State(), table[id]));
        CleanFrame(State(), start, rest, id, now);
        hide Clean;
        CleanSession(table[id], now);
        CleansToMore(start, order, now, waits, before, id);
        order := order + [id];
        rest := rest - {id};
      }
    }
  }
}
