/** Every step of the glue server keeps its invariant. */
module GlueInvariant {
  import opened Base
  import opened GlueServer

  // ---------------------------------------------------------------- sums and cardinalities

  /** Only session r changes, or nothing does. */
  predicate SessionsExcept(s: Server, t: Server, r: SessionRef) {
    |t.sessions| == |s.sessions| && forall q :: 0 <= q < |s.sessions| && q != r ==> t.sessions[q] == s.sessions[q]
  }

  /** What a session's change does to the sums behind the quota. */
  lemma SumsChange(s: Server, t: Server, r: SessionRef)
    requires r < |s.sessions| && SessionsExcept(s, t, r)
    ensures Sum(SlotsAt(t), |t.sessions|) - Sum(SlotsAt(s), |s.sessions|) == SlotsAt(t)(r) - SlotsAt(s)(r)
    ensures Sum(GrantedAt(t), |t.sessions|) - Sum(GrantedAt(s), |s.sessions|) == GrantedAt(t)(r) - GrantedAt(s)(r)
  {
    SumChange(SlotsAt(s), SlotsAt(t), r, |s.sessions|);
    SumChange(GrantedAt(s), GrantedAt(t), r, |s.sessions|);
  }

  lemma FewerEntries(flows: map<FlowId, SocketRef>, ids: set<FlowId>)
    requires ids <= flows.Keys
    ensures |flows - ids| == |flows| - |ids|
  {
    assert (flows - ids).Keys == flows.Keys - ids;
    assert flows.Keys == (flows.Keys - ids) + ids;
  }

  lemma OneMoreEntry(flows: map<FlowId, SocketRef>, id: FlowId, f: SocketRef)
    requires id !in flows
    ensures |flows[id := f]| == |flows| + 1
  {
    assert flows[id := f].Keys == flows.Keys + {id};
  }

  // ---------------------------------------------------------------- closing sockets

  lemma CloseFlowsSockets(s: Server, r: SessionRef, ids: set<FlowId>)
    requires SocketsOk(s) && r < |s.sessions| && ids <= s.sessions[r].flows.Keys
    ensures SocketsOk(CloseFlows(s, r, ids))
  {
    var t := CloseFlows(s, r, ids);
    forall f | 0 <= f < |t.sockets|
      ensures IsEntry(t, f) <==> IsEntry(s, f) && !(s.sockets[f].session == r && s.sockets[f].flow in ids)
    {
    }
    forall q, id | 0 <= q < |t.sessions| && id in t.sessions[q].flows
      ensures OwnsFlow(t, q, id)
    {
      assert id in s.sessions[q].flows && OwnsFlow(s, q, id);
    }
  }

  lemma CloseFlowsQuota(s: Server, r: SessionRef, ids: set<FlowId>)
    requires QuotaOk(s) && r < |s.sessions| && ids <= s.sessions[r].flows.Keys
    ensures QuotaOk(CloseFlows(s, r, ids))
  {
    FewerEntries(s.sessions[r].flows, ids);
    SumsChange(s, CloseFlows(s, r, ids), r);
  }

  lemma CloseFlowsSession(x: Session, ids: set<FlowId>)
    requires SessionOk(x) && ids <= x.flows.Keys
    ensures SessionOk(x.(flows := x.flows - ids))
  {
    FewerEntries(x.flows, ids);
  }

  /** Table, ids, owners and live flags stay. */
  predicate SameTable(s: Server, t: Server) {
    && t.table == s.table && |t.sessions| == |s.sessions|
    && forall q :: 0 <= q < |s.sessions| ==>
         && t.sessions[q].id == s.sessions[q].id
         && t.sessions[q].owner == s.sessions[q].owner
         && t.sessions[q].live == s.sessions[q].live
  }

  lemma SameTableKeeps(s: Server, t: Server)
    requires TableOk(s) && LiveInTable(s) && LimitsOk(s) && SameTable(s, t)
    ensures TableOk(t) && LiveInTable(t) && LimitsOk(t)
  {
    forall key
      ensures SessionsOf(t, key) == SessionsOf(s, key)
    {
    }
  }

  lemma SessionsKeep(s: Server, t: Server, r: SessionRef)
    requires SessionsOk(s) && r < |s.sessions| && SessionsExcept(s, t, r) && SessionOk(t.sessions[r])
    ensures SessionsOk(t)
  {
  }

  lemma ClosedShape(s: Server, r: SessionRef, ids: set<FlowId>)
    requires r < |s.sessions| && ids <= s.sessions[r].flows.Keys
    ensures var t := CloseFlows(s, r, ids);
            && SameTable(s, t) && SessionsExcept(s, t, r)
            && t.sessions[r] == s.sessions[r].(flows := s.sessions[r].flows - ids)
  {
  }

  lemma CloseFlowsKeeps(s: Server, r: SessionRef, ids: set<FlowId>)
    requires Invariant(s) && r < |s.sessions| && ids <= s.sessions[r].flows.Keys
    ensures Invariant(CloseFlows(s, r, ids))
  {
    var t := CloseFlows(s, r, ids);
    hide TableOk, LiveInTable, SocketsOk, QuotaOk, LimitsOk, SessionOk, CloseFlows, SameTable, SessionsExcept;
    ClosedShape(s, r, ids);
    assert SessionOk(s.sessions[r]);
    hide SessionsOk;
    CloseFlowsSockets(s, r, ids);
    CloseFlowsQuota(s, r, ids);
    CloseFlowsSession(s.sessions[r], ids);
    SameTableKeeps(s, t);
    SessionsKeep(s, t, r);
  }

  /** Closing one socket's flow is closing a set of flows, or nothing but the socket, which is closed
      already: a stale reader removes no entry and frees no slot. */
  lemma CloseFlowIsCloseFlows(s: Server, f: SocketRef)
    requires SocketsOk(s) && f < |s.sockets|
    ensures var k := s.sockets[f];
            CloseFlow(s, f) == if IsEntry(s, f) then CloseFlows(s, k.session, {k.flow}) else s
  {
    var k := s.sockets[f];
    if IsEntry(s, f) {
      assert forall g :: (0 <= g < |s.sockets| && g != f &&
                          s.sockets[g].session == k.session && s.sockets[g].flow == k.flow
                          ==> !IsEntry(s, g));
    }
  }

  lemma CloseFlowKeeps(s: Server, f: SocketRef)
    requires Invariant(s) && f < |s.sockets|
    ensures s.sockets[f].session < |s.sessions|
    ensures Invariant(CloseFlow(s, f))
  {
    CloseFlowIsCloseFlows(s, f);
    assert s.sockets[f].session < |s.sessions|;
    hide Invariant, CloseFlows, CloseFlow;
    if IsEntry(s, f) {
      CloseFlowsKeeps(s, s.sockets[f].session, {s.sockets[f].flow});
    }
  }

  lemma TouchSockets(s: Server, f: SocketRef, now: int)
    requires SocketsOk(s) && f < |s.sockets|
    ensures SocketsOk(Touch(s, f, now))
  {
    var t := Touch(s, f, now);
    assert forall g :: 0 <= g < |s.sockets| ==> (IsEntry(t, g) <==> IsEntry(s, g));
    forall r, id | 0 <= r < |t.sessions| && id in t.sessions[r].flows
      ensures OwnsFlow(t, r, id)
    {
      assert OwnsFlow(s, r, id);
    }
  }

  lemma TouchKeeps(s: Server, f: SocketRef, now: int)
    requires Invariant(s) && f < |s.sockets|
    ensures Invariant(Touch(s, f, now))
  {
    hide TableOk, LiveInTable, SocketsOk, LimitsOk;
    var t := Touch(s, f, now);
    SameTableKeeps(s, t);
    TouchSockets(s, f, now);
    SumEqual(SlotsAt(s), SlotsAt(t), |s.sessions|);
    SumEqual(GrantedAt(s), GrantedAt(t), |s.sessions|);
  }

  // ---------------------------------------------------------------- calls, paths and the counter

  /** x differs from session r in its paths and its call only. */
  predicate SameFlows(s: Server, r: SessionRef, x: Session)
    requires r < |s.sessions|
  {
    var y := s.sessions[r];
    x.id == y.id && x.owner == y.owner && x.live == y.live && x.flows == y.flows
  }

  lemma WithSessionSockets(s: Server, r: SessionRef, x: Session, total: int)
    requires SocketsOk(s) && r < |s.sessions| && SameFlows(s, r, x)
    ensures SocketsOk(WithSession(s, r, x).(total := total))
  {
    var t := WithSession(s, r, x).(total := total);
    assert forall g :: 0 <= g < |s.sockets| ==> (IsEntry(t, g) <==> IsEntry(s, g));
    forall q, id | 0 <= q < |t.sessions| && id in t.sessions[q].flows
      ensures OwnsFlow(t, q, id)
    {
      assert OwnsFlow(s, q, id);
    }
  }

  lemma {:induction false} SumMonotone(v: nat -> int, w: nat -> int, n: nat)
    requires forall i: nat :: i < n ==> v(i) <= w(i)
    ensures Sum(v, n) <= Sum(w, n)
  {
    if n > 0 {
      SumMonotone(v, w, n - 1);
    }
  }

  lemma GrantedWithinSlots(s: Server)
    ensures Sum(GrantedAt(s), |s.sessions|) <= Sum(SlotsAt(s), |s.sessions|)
  {
    SumMonotone(GrantedAt(s), SlotsAt(s), |s.sessions|);
  }

  lemma WithSessionQuota(s: Server, r: SessionRef, x: Session, total: int)
    requires QuotaOk(s) && r < |s.sessions| && SameFlows(s, r, x)
    requires total - s.total == Held(x.call) - Held(s.sessions[r].call)
    requires Granted(x.call) <= Granted(s.sessions[r].call) || total <= MAX_TOTAL_FLOWS
    ensures QuotaOk(WithSession(s, r, x).(total := total))
  {
    var t := WithSession(s, r, x).(total := total);
    SumsChange(s, t, r);
    GrantedWithinSlots(t);
  }

  /** A step of a call: it takes or gives back a slot of the counter, and is granted one only when
      the limit allows. */
  predicate CallStep(s: Server, r: SessionRef, x: Session, total: int)
    requires r < |s.sessions|
  {
    && SameFlows(s, r, x)
    && total - s.total == Held(x.call) - Held(s.sessions[r].call)
    && (Granted(x.call) <= Granted(s.sessions[r].call) || total <= MAX_TOTAL_FLOWS)
  }

  lemma WithSessionKeeps(s: Server, r: SessionRef, x: Session, total: int)
    requires Invariant(s) && r < |s.sessions| && CallStep(s, r, x, total) && SessionOk(x)
    ensures Invariant(WithSession(s, r, x).(total := total))
  {
    hide TableOk, LiveInTable, SessionsOk, SocketsOk, QuotaOk, LimitsOk, SessionOk;
    var t := WithSession(s, r, x).(total := total);
    SameTableKeeps(s, t);
    WithSessionSockets(s, r, x, total);
    SessionsKeep(s, t, r);
    WithSessionQuota(s, r, x, total);
  }

  lemma SessionIsOk(s: Server, r: SessionRef)
    requires Invariant(s) && r < |s.sessions|
    ensures SessionOk(s.sessions[r])
  {
  }

  lemma ReservedSession(x: Session, call: Call)
    requires SessionOk(x) && x.paths != {} && call.Reserving?
    requires call.flow !in x.flows && |x.flows| < MAX_FLOWS_PER_SESSION
    ensures SessionOk(x.(call := call))
  {
  }

  lemma ReserveStep(s: Server, r: SessionRef, x: Session)
    requires Unlocked(s, r) && x.call.Reserving? && x == s.sessions[r].(call := x.call)
    ensures CallStep(s, r, x, s.total)
    ensures SetCall(s, r, x.call) == WithSession(s, r, x).(total := s.total)
  {
  }

  lemma ReserveKeeps(s: Server, r: SessionRef, id: FlowId, dst: nat, now: int)
    requires Invariant(s) && Unlocked(s, r) && s.sessions[r].paths != {}
    requires id !in s.sessions[r].flows && |s.sessions[r].flows| < MAX_FLOWS_PER_SESSION
    ensures Invariant(SetCall(s, r, Reserving(id, dst, now)))
  {
    var x := s.sessions[r].(call := Reserving(id, dst, now));
    SessionIsOk(s, r);
    ReservedSession(s.sessions[r], x.call);
    ReserveStep(s, r, x);
    hide *;
    WithSessionKeeps(s, r, x, s.total);
  }

  /** The flow's old socket is closed before a new one is asked for. */
  lemma RebindKeeps(s: Server, r: SessionRef, id: FlowId)
    requires Invariant(s) && r < |s.sessions| && id in s.sessions[r].flows && OwnsFlow(s, r, id)
    ensures var t := CloseFlow(s, s.sessions[r].flows[id]);
            && Invariant(t)
            && |t.sessions| == |s.sessions|
            && t.sessions[r] == s.sessions[r].(flows := s.sessions[r].flows - {id})
  {
    CloseFlowKeeps(s, s.sessions[r].flows[id]);
    hide Invariant;
  }

  lemma BeginFlowKeeps(s: Server, r: SessionRef, conn: Conn, id: FlowId, dst: nat, now: int)
    requires Invariant(s) && Enabled(s, BeginsFlow(r, conn, id, dst, now))
    ensures Invariant(BeginFlow(s, r, id, dst, now))
  {
    hide Invariant, CloseFlow, SetCall, Touch;
    var flows := s.sessions[r].flows;
    if id in flows && s.sockets[flows[id]].dst == dst {
      TouchKeeps(s, flows[id], now);
    } else {
      var t := if id in flows then CloseFlow(s, flows[id]) else s;
      if id in flows {
        RebindKeeps(s, r, id);
      }
      if |t.sessions[r].flows| < MAX_FLOWS_PER_SESSION {
        ReserveKeeps(t, r, id, dst, now);
      }
    }
  }

  lemma CountedSession(x: Session, call: Call)
    requires SessionOk(x) && !x.call.NoCall?
    requires call.NoCall? || call.Undoing? ||
             ((call.Checking? || call.Dialing?) && (x.call.Reserving? || x.call.Checking?) && call.flow == x.call.flow)
    ensures SessionOk(x.(call := call))
  {
  }

  predicate Counts(step: Step) {
    step.AddsToTotal? || step.ChecksTotal? || step.UndoesTotal? || (step.Dials? && !step.succeeds)
  }

  lemma CountingStep(s: Server, step: Step)
    requires Enabled(s, step) && Counts(step) && SessionOk(s.sessions[step.r])
    ensures var t := Next(s, step);
            && |t.sessions| == |s.sessions|
            && t == WithSession(s, step.r, t.sessions[step.r]).(total := t.total)
            && CallStep(s, step.r, t.sessions[step.r], t.total)
            && SessionOk(t.sessions[step.r])
  {
    var t := Next(s, step);
    CountedSession(s.sessions[step.r], t.sessions[step.r].call);
    hide SessionOk;
  }

  lemma CountingKeeps(s: Server, step: Step)
    requires Invariant(s) && Enabled(s, step) && Counts(step)
    ensures Invariant(Next(s, step))
  {
    var r := step.r;
    assert r < |s.sessions|;
    SessionIsOk(s, r);
    CountingStep(s, step);
    hide *;
    var t := Next(s, step);
    WithSessionKeeps(s, r, t.sessions[r], t.total);
  }

  lemma DetachedSession(x: Session, conn: Conn, now: int)
    requires SessionOk(x) && x.call.NoCall?
    ensures var paths := x.paths - {conn};
            SessionOk(x.(paths := paths, emptySince := if paths == {} then Some(now) else x.emptySince))
  {
    var paths := x.paths - {conn};
    assert x.paths == paths + (x.paths * {conn});
    assert |paths| <= |x.paths|;
  }

  lemma DetachStep(s: Server, r: SessionRef, conn: Conn, now: int)
    requires Unlocked(s, r)
    ensures var t := Detach(s, r, conn, now);
            && |t.sessions| == |s.sessions|
            && t == WithSession(s, r, t.sessions[r]).(total := s.total)
            && CallStep(s, r, t.sessions[r], s.total)
  {
  }

  lemma DetachKeeps(s: Server, r: SessionRef, conn: Conn, now: int)
    requires Invariant(s) && Enabled(s, Detaches(r, conn, now))
    ensures Invariant(Detach(s, r, conn, now))
  {
    SessionIsOk(s, r);
    DetachedSession(s.sessions[r], conn, now);
    DetachStep(s, r, conn, now);
    var x := Detach(s, r, conn, now).sessions[r];
    assert SessionOk(x);
    assert r < |s.sessions|;
    hide *;
    WithSessionKeeps(s, r, x, s.total);
  }

  lemma DialSockets(s: Server, r: SessionRef)
    requires SocketsOk(s) && r < |s.sessions| && s.sessions[r].call.Dialing?
    requires s.sessions[r].call.flow !in s.sessions[r].flows
    ensures SocketsOk(Dial(s, r, true))
  {
    var t := Dial(s, r, true);
    var n := |s.sockets|;
    forall q, id | 0 <= q < |t.sessions| && id in t.sessions[q].flows
      ensures OwnsFlow(t, q, id)
    {
      if !(q == r && id == s.sessions[r].call.flow) {
        assert OwnsFlow(s, q, id);
      }
    }
    forall f | 0 <= f < |t.sockets|
      ensures t.sockets[f].session < |t.sessions| && (t.sockets[f].isOpen <==> IsEntry(t, f))
    {
      if f < n {
        assert IsEntry(t, f) <==> IsEntry(s, f);
      }
    }
  }

  lemma DialedSession(x: Session, f: SocketRef)
    requires SessionOk(x) && x.call.Dialing?
    ensures x.call.flow !in x.flows
    ensures SessionOk(x.(flows := x.flows[x.call.flow := f], call := NoCall))
  {
    OneMoreEntry(x.flows, x.call.flow, f);
  }

  lemma DialQuota(s: Server, r: SessionRef)
    requires QuotaOk(s) && r < |s.sessions| && s.sessions[r].call.Dialing?
    requires s.sessions[r].call.flow !in s.sessions[r].flows
    ensures QuotaOk(Dial(s, r, true))
  {
    OneMoreEntry(s.sessions[r].flows, s.sessions[r].call.flow, |s.sockets|);
    SumsChange(s, Dial(s, r, true), r);
  }

  lemma DialStep(s: Server, r: SessionRef)
    requires r < |s.sessions| && s.sessions[r].call.Dialing? && SessionOk(s.sessions[r])
    ensures var t := Dial(s, r, true);
            SameTable(s, t) && SessionsExcept(s, t, r) && SessionOk(t.sessions[r])
    ensures s.sessions[r].call.flow !in s.sessions[r].flows
  {
    DialedSession(s.sessions[r], |s.sockets|);
    hide SessionOk;
  }

  lemma DialParts(s: Server, r: SessionRef)
    requires Invariant(s) && r < |s.sessions| && s.sessions[r].call.Dialing?
    requires s.sessions[r].call.flow !in s.sessions[r].flows
    requires var t := Dial(s, r, true);
             SameTable(s, t) && SessionsExcept(s, t, r) && SessionOk(t.sessions[r])
    ensures Invariant(Dial(s, r, true))
  {
    hide TableOk, LiveInTable, SessionsOk, SocketsOk, QuotaOk, LimitsOk, SessionOk, SameTable, SessionsExcept, Dial;
    DialSockets(s, r);
    DialQuota(s, r);
    SameTableKeeps(s, Dial(s, r, true));
    SessionsKeep(s, Dial(s, r, true), r);
  }

  lemma DialKeeps(s: Server, r: SessionRef)
    requires Invariant(s) && r < |s.sessions| && s.sessions[r].call.Dialing?
    ensures Invariant(Dial(s, r, true))
  {
    SessionIsOk(s, r);
    DialStep(s, r);
    hide *;
    DialParts(s, r);
  }

  // ---------------------------------------------------------------- the table

  lemma {:induction false} SubsetCardinality(a: set<nat>, b: set<nat>)
    requires a <= b
    ensures |a| <= |b|
  {
    if a != {} {
      var x :| x in a;
      SubsetCardinality(a - {x}, b - {x});
    }
  }

  lemma RemovedTable(s: Server, t: Server, r: SessionRef)
    requires TableOk(s) && LiveInTable(s) && LimitsOk(s) && r < |s.sessions| && s.sessions[r].live
    requires t.table == s.table - {s.sessions[r].id} && |t.sessions| == |s.sessions|
    requires forall q :: 0 <= q < |s.sessions| ==>
               t.sessions[q].id == s.sessions[q].id && t.sessions[q].owner == s.sessions[q].owner
    requires forall q :: 0 <= q < |s.sessions| && q != r ==> t.sessions[q].live == s.sessions[q].live
    requires !t.sessions[r].live
    ensures TableOk(t) && LiveInTable(t) && LimitsOk(t)
    ensures |t.table| == |s.table| - 1
    ensures forall key :: SessionsOf(t, key) == SessionsOf(s, key) - {s.sessions[r].id}
  {
    var id := s.sessions[r].id;
    assert t.table.Keys == s.table.Keys - {id} && id in s.table.Keys;
    assert |t.table.Keys| == |s.table.Keys| - 1;
    forall key
      ensures SessionsOf(t, key) == SessionsOf(s, key) - {id}
      ensures |SessionsOf(t, key)| <= |SessionsOf(s, key)|
    {
      assert SessionsOf(t, key) == SessionsOf(s, key) - {id};
      SubsetCardinality(SessionsOf(t, key), SessionsOf(s, key));
    }
  }

  lemma DeadSockets(s: Server, t: Server)
    requires SocketsOk(s) && t.sockets == s.sockets && |t.sessions| == |s.sessions|
    requires forall q :: 0 <= q < |s.sessions| ==> t.sessions[q].flows == s.sessions[q].flows
    ensures SocketsOk(t)
  {
    assert forall g :: 0 <= g < |s.sockets| ==> (IsEntry(t, g) <==> IsEntry(s, g));
    forall q, id | 0 <= q < |t.sessions| && id in t.sessions[q].flows
      ensures OwnsFlow(t, q, id)
    {
      assert OwnsFlow(s, q, id);
    }
  }

  /** The session leaves the table after all its flows were closed. */
  function DropFromTable(s: Server, r: SessionRef): Server
    requires r < |s.sessions|
  {
    s.(table := s.table - {s.sessions[r].id}, sessions := s.sessions[r := s.sessions[r].(live := false)])
  }

  /** One session fewer in the table, that of session r. */
  ghost predicate OneSessionLess(s: Server, t: Server, r: SessionRef)
    requires TableOk(s) && TableOk(t) && r < |s.sessions|
  {
    && |t.table| == |s.table| - 1
    && t.table == s.table - {s.sessions[r].id}
    && forall key :: SessionsOf(t, key) == SessionsOf(s, key) - {s.sessions[r].id}
  }

  lemma DropTable(s: Server, r: SessionRef)
    requires TableOk(s) && LiveInTable(s) && LimitsOk(s) && r < |s.sessions| && s.sessions[r].live
    ensures var t := DropFromTable(s, r); TableOk(t) && LiveInTable(t) && LimitsOk(t)
    ensures OneSessionLess(s, DropFromTable(s, r), r)
  {
    RemovedTable(s, DropFromTable(s, r), r);
  }

  lemma DropRest(s: Server, r: SessionRef)
    requires SessionsOk(s) && SocketsOk(s) && QuotaOk(s) && r < |s.sessions|
    requires s.sessions[r].paths == {} && s.sessions[r].flows == map[]
    ensures var t := DropFromTable(s, r); SessionsOk(t) && SocketsOk(t) && QuotaOk(t)
  {
    assert SessionOk(s.sessions[r]);
    assert SessionOk(DropFromTable(s, r).sessions[r]);
    hide SessionOk;
    var t := DropFromTable(s, r);
    DeadSockets(s, t);
    SumsChange(s, t, r);
    SessionsKeep(s, t, r);
  }

  lemma DropKeeps(s: Server, r: SessionRef)
    requires Invariant(s) && r < |s.sessions| && s.sessions[r].live
    requires s.sessions[r].paths == {} && s.sessions[r].flows == map[]
    ensures Invariant(DropFromTable(s, r)) && OneSessionLess(s, DropFromTable(s, r), r)
  {
    hide TableOk, LiveInTable, SessionsOk, SocketsOk, QuotaOk, LimitsOk, DropFromTable, OneSessionLess;
    DropTable(s, r);
    DropRest(s, r);
  }

  lemma ClosingKeepsLive(s: Server, r: SessionRef)
    requires TableOk(s) && r < |s.sessions|
    ensures var t := CloseFlows(s, r, s.sessions[r].flows.Keys);
            && t.table == s.table && TableOk(t)
            && forall key :: SessionsOf(t, key) == SessionsOf(s, key)
  {
  }

  lemma ClosingKeepsTable(s: Server, r: SessionRef)
    requires TableOk(s) && r < |s.sessions|
    ensures var t := CloseFlows(s, r, s.sessions[r].flows.Keys);
            && t.sessions[r] == s.sessions[r].(flows := map[])
            && RemoveSession(s, r) == DropFromTable(t, r)
            && t.table == s.table && TableOk(t)
            && forall key :: SessionsOf(t, key) == SessionsOf(s, key)
  {
    ClosingKeepsLive(s, r);
    hide TableOk, SessionsOf;
    assert s.sessions[r].flows - s.sessions[r].flows.Keys == map[];
  }

  lemma RemoveKeeps(s: Server, r: SessionRef)
    requires Invariant(s) && r < |s.sessions| && s.sessions[r].live && s.sessions[r].paths == {}
    ensures Invariant(RemoveSession(s, r)) && OneSessionLess(s, RemoveSession(s, r), r)
  {
    var t := CloseFlows(s, r, s.sessions[r].flows.Keys);
    CloseFlowsKeeps(s, r, s.sessions[r].flows.Keys);
    ClosingKeepsTable(s, r);
    assert |t.sessions| == |s.sessions|;
    hide LiveInTable, SessionsOk, SocketsOk, QuotaOk, LimitsOk, TableOk;
    hide CloseFlows, RemoveSession, DropFromTable, SessionsOf;
    DropKeeps(t, r);
  }

  lemma CleanKeeps(s: Server, r: SessionRef, now: int)
    requires Invariant(s) && Enabled(s, Cleans(r, now))
    ensures Invariant(Clean(s, r, now))
  {
    var ids := IdleFlows(s, r, now);
    var t := CloseFlows(s, r, ids);
    CloseFlowsKeeps(s, r, ids);
    assert t.sessions[r].live && (Gone(s.sessions[r], now) ==> t.sessions[r].paths == {});
    hide Invariant, CloseFlows, RemoveSession;
    if Gone(s.sessions[r], now) {
      RemoveKeeps(t, r);
    }
  }

  // ---------------------------------------------------------------- attaching a path

  /** A new session with its first path. */
  function AddJoined(s: Server, id: SessionId, owner: Key, conn: Conn): Server {
    s.(table := s.table[id := |s.sessions|],
       sessions := s.sessions + [Session(id, owner, true, {conn}, None, map[], NoCall)])
  }

  lemma NewSessionIsJoined(s: Server, id: SessionId, owner: Key, conn: Conn)
    ensures Join(AddSession(s, id, owner), id, owner, conn) == Attached(AddJoined(s, id, owner, conn), StatusOK)
  {
  }

  lemma AddedTable(s: Server, id: SessionId, owner: Key, conn: Conn)
    requires TableOk(s) && LiveInTable(s) && id !in s.table
    ensures var t := AddJoined(s, id, owner, conn); TableOk(t) && LiveInTable(t)
  {
  }

  lemma AddedSessionsOf(s: Server, id: SessionId, owner: Key, conn: Conn, key: Key)
    requires TableOk(s) && id !in s.table && TableOk(AddJoined(s, id, owner, conn))
    ensures SessionsOf(AddJoined(s, id, owner, conn), key) == SessionsOf(s, key) + if key == owner then {id} else {}
  {
  }

  lemma AddedLimits(s: Server, id: SessionId, owner: Key, conn: Conn)
    requires TableOk(s) && LimitsOk(s) && id !in s.table
    requires |s.table| < MAX_GLUE_SESSIONS && |SessionsOf(s, owner)| < MAX_SESSIONS_PER_CLIENT
    ensures TableOk(AddJoined(s, id, owner, conn)) && LimitsOk(AddJoined(s, id, owner, conn))
  {
    var t := AddJoined(s, id, owner, conn);
    assert TableOk(t);
    assert t.table.Keys == s.table.Keys + {id};
    forall key
      ensures |SessionsOf(t, key)| <= MAX_SESSIONS_PER_CLIENT
    {
      AddedSessionsOf(s, id, owner, conn, key);
    }
  }

  lemma AddedSockets(s: Server, id: SessionId, owner: Key, conn: Conn)
    requires SocketsOk(s)
    ensures SocketsOk(AddJoined(s, id, owner, conn))
  {
    var t := AddJoined(s, id, owner, conn);
    assert forall g :: 0 <= g < |s.sockets| ==> (IsEntry(t, g) <==> IsEntry(s, g));
    forall q, i | 0 <= q < |t.sessions| && i in t.sessions[q].flows
      ensures OwnsFlow(t, q, i)
    {
      assert OwnsFlow(s, q, i);
    }
  }

  lemma AddedSessions(s: Server, id: SessionId, owner: Key, conn: Conn)
    requires SessionsOk(s)
    ensures SessionsOk(AddJoined(s, id, owner, conn))
  {
    var t := AddJoined(s, id, owner, conn);
    var x := t.sessions[|s.sessions|];
    assert SessionOk(x);
    hide SessionOk;
    assert forall r :: 0 <= r < |s.sessions| ==> t.sessions[r] == s.sessions[r];
  }

  lemma OneMoreNothing(w1: nat -> int, w2: nat -> int, n: nat)
    requires (forall i: nat :: i < n ==> w1(i) == w2(i)) && w2(n) == 0
    ensures Sum(w2, n + 1) == Sum(w1, n)
  {
    SumEqual(w1, w2, n);
  }

  lemma OneMoreSession(s: Server, t: Server)
    requires |t.sessions| == |s.sessions| + 1 && t.sessions[..|s.sessions|] == s.sessions
    requires var x := t.sessions[|s.sessions|]; x.flows == map[] && x.call == NoCall
    ensures SlotsAt(t)(|s.sessions|) == 0 && GrantedAt(t)(|s.sessions|) == 0
    ensures forall i: nat :: i < |s.sessions| ==>
              SlotsAt(s)(i) == SlotsAt(t)(i) && GrantedAt(s)(i) == GrantedAt(t)(i)
  {
    forall i | 0 <= i < |s.sessions|
      ensures t.sessions[i] == s.sessions[i]
    {
      assert t.sessions[..|s.sessions|][i] == t.sessions[i];
    }
  }

  lemma AddedQuota(s: Server, id: SessionId, owner: Key, conn: Conn)
    requires QuotaOk(s)
    ensures QuotaOk(AddJoined(s, id, owner, conn))
  {
    var t, n := AddJoined(s, id, owner, conn), |s.sessions|;
    hide Sum;
    assert |t.sessions| == n + 1 && t.total == s.total;
    OneMoreSession(s, t);
    hide SlotsAt, GrantedAt, AddJoined;
    OneMoreNothing(SlotsAt(s), SlotsAt(t), n);
    OneMoreNothing(GrantedAt(s), GrantedAt(t), n);
  }

  lemma AddKeeps(s: Server, id: SessionId, owner: Key, conn: Conn)
    requires Invariant(s) && id !in s.table
    requires |s.table| < MAX_GLUE_SESSIONS && |SessionsOf(s, owner)| < MAX_SESSIONS_PER_CLIENT
    ensures Invariant(AddJoined(s, id, owner, conn))
  {
    hide TableOk, LiveInTable, SessionsOk, SocketsOk, QuotaOk, LimitsOk, AddJoined;
    AddedTable(s, id, owner, conn);
    AddedLimits(s, id, owner, conn);
    AddedSockets(s, id, owner, conn);
    AddedSessions(s, id, owner, conn);
    AddedQuota(s, id, owner, conn);
  }

  lemma JoinedSession(x: Session, conn: Conn)
    requires SessionOk(x) && x.live && x.call.NoCall? && |x.paths| < MAX_PATHS_PER_SESSION
    ensures SessionOk(x.(paths := x.paths + {conn}, emptySince := None))
  {
  }

  lemma JoinStep(s: Server, id: SessionId, owner: Key, conn: Conn)
    requires id in s.table && Unlocked(s, s.table[id])
    ensures var a := Join(s, id, owner, conn); a.status != StatusOK ==> a.s == s
    ensures var r, a := s.table[id], Join(s, id, owner, conn);
            a.status == StatusOK ==>
              && r < |a.s.sessions| && a.s == WithSession(s, r, a.s.sessions[r]).(total := s.total)
              && CallStep(s, r, a.s.sessions[r], s.total)
  {
  }

  lemma JoinsSession(s: Server, id: SessionId, owner: Key, conn: Conn)
    requires id in s.table && Unlocked(s, s.table[id])
    requires SessionOk(s.sessions[s.table[id]]) && s.sessions[s.table[id]].live
    ensures var r, a := s.table[id], Join(s, id, owner, conn);
            a.status == StatusOK ==> r < |a.s.sessions| && SessionOk(a.s.sessions[r])
  {
    var x := s.sessions[s.table[id]];
    if |x.paths| < MAX_PATHS_PER_SESSION {
      JoinedSession(x, conn);
    }
    hide SessionOk;
  }

  lemma JoinKeeps(s: Server, id: SessionId, owner: Key, conn: Conn)
    requires Invariant(s) && id in s.table && Unlocked(s, s.table[id])
    ensures Invariant(Join(s, id, owner, conn).s)
  {
    var a := Join(s, id, owner, conn);
    assert s.table[id] < |s.sessions|;
    SessionIsOk(s, s.table[id]);
    JoinStep(s, id, owner, conn);
    JoinsSession(s, id, owner, conn);
    hide *;
    if a.status == StatusOK {
      WithSessionKeeps(s, s.table[id], a.s.sessions[s.table[id]], s.total);
    }
  }

  /** The state attachGluePath admits a new session in. */
  function Room(s: Server, owner: Key, victim: Option<SessionId>): Server
    requires TableOk(s) && (victim.Some? ==> victim.value in s.table)
  {
    if |SessionsOf(s, owner)| >= MAX_SESSIONS_PER_CLIENT && victim.Some?
    then RemoveSession(s, s.table[victim.value]) else s
  }

  lemma VictimIsRemovable(s: Server, owner: Key, victim: Option<SessionId>)
    requires Invariant(s) && IsVictim(s, owner, victim) && victim.Some?
    ensures victim.value in s.table
    ensures var r := s.table[victim.value];
            && r < |s.sessions| && s.sessions[r].live && s.sessions[r].paths == {} && s.sessions[r].id == victim.value
            && victim.value in SessionsOf(s, owner)
  {
  }

  lemma RemovalMakesRoom(s: Server, owner: Key, victim: SessionId)
    requires Invariant(s) && victim in s.table && victim in SessionsOf(s, owner)
    requires var r := s.table[victim]; s.sessions[r].paths == {} && s.sessions[r].id == victim && s.sessions[r].live
    ensures var t := RemoveSession(s, s.table[victim]);
            && Invariant(t) && t.table == s.table - {victim}
            && |t.table| < MAX_GLUE_SESSIONS && |SessionsOf(t, owner)| < MAX_SESSIONS_PER_CLIENT
  {
    RemoveKeeps(s, s.table[victim]);
    var t := RemoveSession(s, s.table[victim]);
    assert |SessionsOf(s, owner) - {victim}| == |SessionsOf(s, owner)| - 1;
    hide RemoveSession, SessionsOf;
  }

  /** The rest of attachGluePath for a new session. */
  function AdmitNew(t: Server, id: SessionId, owner: Key, conn: Conn): Attached {
    if |t.table| >= MAX_GLUE_SESSIONS then Attached(t, StatusBusy)
    else Join(AddSession(t, id, owner), id, owner, conn)
  }

  lemma AttachByCases(s: Server, id: SessionId, owner: Key, conn: Conn, victim: Option<SessionId>)
    requires TableOk(s) && (victim.Some? ==> victim.value in s.table)
    ensures Attach(s, id, owner, conn, victim) ==
            if id in s.table then Join(s, id, owner, conn)
            else if |SessionsOf(s, owner)| >= MAX_SESSIONS_PER_CLIENT && victim.None? then Attached(s, StatusBusy)
            else AdmitNew(Room(s, owner, victim), id, owner, conn)
  {
    hide Join, AddSession, RemoveSession, SessionsOf, TableOk;
  }

  lemma AdmitKeeps(t: Server, id: SessionId, owner: Key, conn: Conn)
    requires Invariant(t) && id !in t.table && |SessionsOf(t, owner)| < MAX_SESSIONS_PER_CLIENT
    ensures Invariant(AdmitNew(t, id, owner, conn).s)
  {
    hide Invariant, Join, AddSession, AddJoined, SessionsOf;
    if |t.table| < MAX_GLUE_SESSIONS {
      AddKeeps(t, id, owner, conn);
      NewSessionIsJoined(t, id, owner, conn);
    }
  }

  lemma RoomByCases(s: Server, owner: Key, victim: Option<SessionId>)
    requires TableOk(s) && (victim.Some? ==> victim.value in s.table)
    ensures Room(s, owner, victim) ==
            if |SessionsOf(s, owner)| >= MAX_SESSIONS_PER_CLIENT && victim.Some?
            then RemoveSession(s, s.table[victim.value]) else s
  {
    hide RemoveSession, SessionsOf;
  }

  lemma RoomForNew(s: Server, id: SessionId, owner: Key, victim: Option<SessionId>)
    requires Invariant(s) && IsVictim(s, owner, victim) && id !in s.table
    ensures victim.Some? ==> victim.value in s.table
    ensures !(|SessionsOf(s, owner)| >= MAX_SESSIONS_PER_CLIENT && victim.None?) ==>
              var t := Room(s, owner, victim);
              Invariant(t) && id !in t.table && |SessionsOf(t, owner)| < MAX_SESSIONS_PER_CLIENT
  {
    if victim.Some? {
      VictimIsRemovable(s, owner, victim);
    }
    RoomByCases(s, owner, victim);
    hide RemoveSession, SessionsOf, Invariant, Room, IsVictim;
    if victim.Some? && |SessionsOf(s, owner)| >= MAX_SESSIONS_PER_CLIENT {
      RemovalMakesRoom(s, owner, victim.value);
    }
  }

  lemma AttachKeeps(s: Server, id: SessionId, owner: Key, conn: Conn, victim: Option<SessionId>)
    requires Invariant(s) && Enabled(s, Attaches(id, owner, conn, victim))
    ensures victim.Some? ==> victim.value in s.table
    ensures Invariant(Attach(s, id, owner, conn, victim).s)
  {
    AttachByCases(s, id, owner, conn, victim);
    if id in s.table {
      JoinKeeps(s, id, owner, conn);
    } else {
      RoomForNew(s, id, owner, victim);
      hide Invariant, Attach, AdmitNew, Join, Room, SessionsOf;
      if !(|SessionsOf(s, owner)| >= MAX_SESSIONS_PER_CLIENT && victim.None?) {
        AdmitKeeps(Room(s, owner, victim), id, owner, conn);
      }
    }
  }

  /** Every step keeps the invariant. */
  lemma NextKeeps(s: Server, step: Step)
    requires Invariant(s) && Enabled(s, step)
    ensures Invariant(Next(s, step))
  {
    match step {
      case Attaches(id, owner, conn, victim) =>
        hide Invariant, Attach;
        AttachKeeps(s, id, owner, conn, victim);
      case Detaches(r, conn, now) =>
        hide Invariant, Detach;
        DetachKeeps(s, r, conn, now);
      case Cleans(r, now) =>
        hide Invariant, Clean;
        CleanKeeps(s, r, now);
      case BeginsFlow(r, conn, flow, dst, now) =>
        hide Invariant, BeginFlow;
        BeginFlowKeeps(s, r, conn, flow, dst, now);
      case Dials(r, succeeds) =>
        hide Invariant, Dial;
        if succeeds {
          DialKeeps(s, r);
        } else {
          CountingKeeps(s, step);
        }
      case ReaderFails(f) =>
        hide Invariant, CloseFlow;
        CloseFlowKeeps(s, f);
      case ReaderReceives(f, now) =>
        hide Invariant, Touch;
        TouchKeeps(s, f, now);
      case _ =>
        hide Invariant;
        CountingKeeps(s, step);
    }
  }
}
