/** What holds of the glue server in every state, under every interleaving of its steps. */
module GlueSafety {
  import opened Base
  import opened GlueServer
  import opened GlueInvariant

  ghost predicate Leads(s: Server, steps: seq<Step>, t: Server)
    decreases |steps|
  {
    if steps == [] then t == s
    else Enabled(s, steps[0]) && Leads(Next(s, steps[0]), steps[1..], t)
  }

  lemma EmptyIsInvariant()
    ensures Invariant(EMPTY_SERVER)
  {
    assert forall key :: SessionsOf(EMPTY_SERVER, key) == {};
  }

  lemma {:induction false} RunKeeps(s: Server, steps: seq<Step>, t: Server)
    requires Invariant(s) && Leads(s, steps, t)
    ensures Invariant(t)
    decreases |steps|
  {
    hide Invariant, Enabled, Next;
    if steps != [] {
      NextKeeps(s, steps[0]);
      RunKeeps(Next(s, steps[0]), steps[1..], t);
    }
  }

  // ---------------------------------------------------------------- the quota of sockets

  function HeldAt(s: Server): nat -> int {
    r => if 0 <= r < |s.sessions| then Held(s.sessions[r].call) else 0
  }

  /** Entries of all flow maps; only live sessions have any. */
  function Entries(s: Server): int {
    Sum(EntriesAt(s), |s.sessions|)
  }

  /** Slots taken by calls that have added to the counter, but not yet opened a flow or undone it. */
  function Reservations(s: Server): int {
    Sum(HeldAt(s), |s.sessions|)
  }

  lemma {:induction false} SumAdds(u: nat -> int, v: nat -> int, w: nat -> int, n: nat)
    requires forall i: nat :: i < n ==> w(i) == u(i) + v(i)
    ensures Sum(w, n) == Sum(u, n) + Sum(v, n)
  {
    if n > 0 {
      SumAdds(u, v, w, n - 1);
    }
  }

  /** Main result: however the calls of different sessions overlap, the counter is exactly the number
      of open flows plus the reservations in progress, so every slot is given back just once; there
      are never more than 4096 flows in all, nor 512 in one session. */
  lemma QuotaIsExact(steps: seq<Step>, s: Server)
    requires Leads(EMPTY_SERVER, steps, s)
    ensures s.total == Entries(s) + Reservations(s)
    ensures 0 <= Entries(s) <= MAX_TOTAL_FLOWS
    ensures forall r :: 0 <= r < |s.sessions| ==> |s.sessions[r].flows| <= MAX_FLOWS_PER_SESSION
  {
    EmptyIsInvariant();
    RunKeeps(EMPTY_SERVER, steps, s);
    SumAdds(EntriesAt(s), HeldAt(s), SlotsAt(s), |s.sessions|);
    SumMonotone(EntriesAt(s), GrantedAt(s), |s.sessions|);
    SumNonNegative(EntriesAt(s), |s.sessions|);
    assert forall r :: 0 <= r < |s.sessions| ==> SessionOk(s.sessions[r]);
  }

  /** Main result: a socket is open exactly while it is the entry of its flow in a live session. */
  lemma OpenSocketsAreEntries(steps: seq<Step>, s: Server, f: SocketRef)
    requires Leads(EMPTY_SERVER, steps, s) && f < |s.sockets|
    ensures s.sockets[f].isOpen <==> IsEntry(s, f)
    ensures IsEntry(s, f) ==> s.sessions[s.sockets[f].session].live
  {
    EmptyIsInvariant();
    RunKeeps(EMPTY_SERVER, steps, s);
    if IsEntry(s, f) {
      SessionIsOk(s, s.sockets[f].session);
    }
  }

  lemma ClosesOneEntry(s: Server, f: SocketRef)
    requires SocketsOk(s) && f < |s.sockets| && IsEntry(s, f)
    ensures var k := s.sockets[f]; var t := CloseFlows(s, k.session, {k.flow});
            && t.total == s.total - 1
            && forall g :: 0 <= g < |s.sockets| ==>
                 (IsEntry(t, g) <==> g != f && IsEntry(s, g)) && (g != f ==> t.sockets[g] == s.sockets[g])
  {
  }

  lemma FailedReader(s: Server, f: SocketRef)
    requires SocketsOk(s) && f < |s.sockets|
    ensures !IsEntry(s, f) ==> CloseFlow(s, f) == s
    ensures IsEntry(s, f) ==>
              var t := CloseFlow(s, f);
              && t.total == s.total - 1
              && forall g :: 0 <= g < |s.sockets| ==>
                   (IsEntry(t, g) <==> g != f && IsEntry(s, g)) && (g != f ==> t.sockets[g] == s.sockets[g])
  {
    hide SocketsOk, CloseFlows, CloseFlow, IsEntry;
    CloseFlowIsCloseFlows(s, f);
    if IsEntry(s, f) {
      ClosesOneEntry(s, f);
    }
  }

  /** Main result: the reader of a socket that is no longer its flow's, because the flow was rebound,
      idled out or its session removed, changes nothing when it fails; any other reader takes away
      its own entry, closes its own socket and frees one slot. */
  lemma ReaderFailsAlone(steps: seq<Step>, s: Server, f: SocketRef)
    requires Leads(EMPTY_SERVER, steps, s) && Enabled(s, ReaderFails(f))
    ensures !IsEntry(s, f) ==> Next(s, ReaderFails(f)) == s
    ensures IsEntry(s, f) ==>
              var t := Next(s, ReaderFails(f));
              && t.total == s.total - 1
              && forall g :: 0 <= g < |s.sockets| ==>
                   (IsEntry(t, g) <==> g != f && IsEntry(s, g)) && (g != f ==> t.sockets[g] == s.sockets[g])
  {
    EmptyIsInvariant();
    RunKeeps(EMPTY_SERVER, steps, s);
    assert SocketsOk(s);
    hide Invariant, Leads, SocketsOk, CloseFlow, IsEntry;
    FailedReader(s, f);
  }

  // ---------------------------------------------------------------- the session table

  /** Main result: the limits of the table. */
  lemma TableLimits(steps: seq<Step>, s: Server)
    requires Leads(EMPTY_SERVER, steps, s)
    ensures TableOk(s) && |s.table| <= MAX_GLUE_SESSIONS
    ensures forall key :: |SessionsOf(s, key)| <= MAX_SESSIONS_PER_CLIENT
    ensures forall r :: 0 <= r < |s.sessions| ==>
              && |s.sessions[r].paths| <= MAX_PATHS_PER_SESSION
              && (s.sessions[r].emptySince.Some? <==> s.sessions[r].paths == {})
  {
    EmptyIsInvariant();
    RunKeeps(EMPTY_SERVER, steps, s);
    assert forall r :: 0 <= r < |s.sessions| ==> SessionOk(s.sessions[r]);
  }

  /** Why a step took session q out of the table. */
  ghost predicate RemovedByJanitor(s: Server, step: Step, q: SessionRef)
    requires q < |s.sessions|
  {
    step.Cleans? && step.r == q && Gone(s.sessions[q], step.now)
  }

  ghost predicate RemovedForRoom(s: Server, step: Step, t: Server, q: SessionRef)
    requires TableOk(s) && q < |s.sessions|
  {
    && step.Attaches? && step.id !in s.table && step.id in t.table
    && |SessionsOf(s, step.owner)| >= MAX_SESSIONS_PER_CLIENT
    && step.victim == Some(s.sessions[q].id) && IsLongestEmpty(s, step.owner, s.sessions[q].id)
  }

  /** No session's live flag changes. */
  predicate SameLive(s: Server, t: Server) {
    |s.sessions| <= |t.sessions| && forall q :: 0 <= q < |s.sessions| ==> t.sessions[q].live == s.sessions[q].live
  }

  lemma JoinIsSameLive(s: Server, id: SessionId, owner: Key, conn: Conn)
    requires id in s.table && s.table[id] < |s.sessions|
    ensures SameLive(s, Join(s, id, owner, conn).s)
  {
  }

  lemma AdmitAdmits(t: Server, id: SessionId, owner: Key, conn: Conn)
    ensures SameLive(t, AdmitNew(t, id, owner, conn).s)
    ensures |t.table| < MAX_GLUE_SESSIONS ==>
              AdmitNew(t, id, owner, conn).status == StatusOK && id in AdmitNew(t, id, owner, conn).s.table
  {
    NewSessionIsJoined(t, id, owner, conn);
    hide Join, AddSession;
  }

  lemma RemovesOne(s: Server, r: SessionRef, q: SessionRef)
    requires r < |s.sessions| && q < |s.sessions| && q != r
    ensures var t := RemoveSession(s, r); q < |t.sessions| && t.sessions[q] == s.sessions[q]
  {
  }

  lemma EvictionAdmits(s: Server, id: SessionId, owner: Key, conn: Conn, victim: Option<SessionId>, q: SessionRef)
    requires Invariant(s) && Enabled(s, Attaches(id, owner, conn, victim))
    requires victim.Some? ==> victim.value in s.table
    requires q < |s.sessions| && s.sessions[q].live
    requires var t := Attach(s, id, owner, conn, victim).s; q < |t.sessions| && !t.sessions[q].live
    ensures id !in s.table && |SessionsOf(s, owner)| >= MAX_SESSIONS_PER_CLIENT
    ensures victim.Some? && q == s.table[victim.value]
    ensures Attach(s, id, owner, conn, victim).status == StatusOK
    ensures id in Attach(s, id, owner, conn, victim).s.table
  {
    AttachByCases(s, id, owner, conn, victim);
    if id in s.table {
      JoinIsSameLive(s, id, owner, conn);
    } else {
      RoomByCases(s, owner, victim);
      AdmitAdmits(Room(s, owner, victim), id, owner, conn);
      if victim.Some? && |SessionsOf(s, owner)| >= MAX_SESSIONS_PER_CLIENT {
        VictimIsRemovable(s, owner, victim);
        RemovalMakesRoom(s, owner, victim.value);
        if q != s.table[victim.value] {
          RemovesOne(s, s.table[victim.value], q);
        }
      }
    }
    hide Invariant, Enabled, Attach, AdmitNew, Join, Room, RemoveSession, SessionsOf;
  }

  lemma CloseFlowIsSameLive(s: Server, f: SocketRef)
    requires f < |s.sockets| && s.sockets[f].session < |s.sessions|
    ensures SameLive(s, CloseFlow(s, f))
  {
  }

  lemma BeginFlowIsSameLive(s: Server, r: SessionRef, id: FlowId, dst: nat, now: int)
    requires r < |s.sessions| && (id in s.sessions[r].flows ==> OwnsFlow(s, r, id))
    ensures SameLive(s, BeginFlow(s, r, id, dst, now))
  {
    if id in s.sessions[r].flows {
      CloseFlowIsSameLive(s, s.sessions[r].flows[id]);
      hide CloseFlow;
    }
  }

  lemma CleanLive(s: Server, r: SessionRef, now: int, q: SessionRef)
    requires r < |s.sessions| && q < |s.sessions|
    ensures var t := Clean(s, r, now);
            q < |t.sessions| && (t.sessions[q].live != s.sessions[q].live ==> q == r && Gone(s.sessions[r], now))
  {
  }

  /** Apart from the janitor, only an attach removes a session. */
  lemma OthersKeepLive(s: Server, step: Step, q: SessionRef)
    requires Enabled(s, step) && !step.Attaches? && q < |s.sessions|
    ensures q < |Next(s, step).sessions|
    ensures Next(s, step).sessions[q].live != s.sessions[q].live ==> RemovedByJanitor(s, step, q)
  {
    match step {
      case Cleans(r, now) =>
        hide Clean;
        CleanLive(s, r, now, q);
      case BeginsFlow(r, conn, flow, dst, now) =>
        hide BeginFlow;
        BeginFlowIsSameLive(s, r, flow, dst, now);
      case ReaderFails(f) =>
        hide CloseFlow;
        CloseFlowIsSameLive(s, f);
      case _ =>
        hide BeginFlow, CloseFlow, Clean, Attach;
    }
  }

  lemma AttachRemoval(s: Server, step: Step, q: SessionRef)
    requires Invariant(s) && Enabled(s, step) && step.Attaches?
    requires q < |s.sessions| && s.sessions[q].live
    requires q < |Next(s, step).sessions| && !Next(s, step).sessions[q].live
    ensures s.sessions[q].paths == {} && RemovedForRoom(s, step, Next(s, step), q)
  {
    EvictionAdmits(s, step.id, step.owner, step.conn, step.victim, q);
    assert s.sessions[q].id == step.victim.value;
    VictimIsRemovable(s, step.owner, step.victim);
    hide Invariant, Attach, SessionsOf, IsLongestEmpty;
  }

  lemma RemovesThat(s: Server, r: SessionRef)
    requires r < |s.sessions|
    ensures |RemoveSession(s, r).sessions| == |s.sessions| && !RemoveSession(s, r).sessions[r].live
  {
  }

  lemma CleanRemoves(s: Server, r: SessionRef, now: int)
    requires r < |s.sessions| && Gone(s.sessions[r], now)
    ensures r < |Clean(s, r, now).sessions| && !Clean(s, r, now).sessions[r].live
  {
    RemovesThat(CloseFlows(s, r, IdleFlows(s, r, now)), r);
    hide RemoveSession;
  }

  lemma JanitorRemoves(s: Server, step: Step, q: SessionRef)
    requires Enabled(s, step) && q < |s.sessions| && RemovedByJanitor(s, step, q)
    ensures q < |Next(s, step).sessions| && !Next(s, step).sessions[q].live
  {
    CleanRemoves(s, step.r, step.now);
    hide Clean;
  }

  lemma AttachRemoves(s: Server, step: Step, q: SessionRef)
    requires Invariant(s) && Enabled(s, step) && q < |s.sessions| && s.sessions[q].live
    requires step.Attaches? && step.id !in s.table && |SessionsOf(s, step.owner)| >= MAX_SESSIONS_PER_CLIENT
    requires step.victim == Some(s.sessions[q].id)
    ensures q < |Next(s, step).sessions| && !Next(s, step).sessions[q].live
  {
    assert s.table[s.sessions[q].id] == q;
    AttachByCases(s, step.id, step.owner, step.conn, step.victim);
    RoomByCases(s, step.owner, step.victim);
    RemovesThat(s, q);
    AdmitAdmits(Room(s, step.owner, step.victim), step.id, step.owner, step.conn);
    hide Invariant, Attach, AdmitNew, Room, RemoveSession, SessionsOf;
  }

  /** Main result: a session leaves the table only without paths, and exactly when the janitor finds that it
      has had none for two minutes, or to make room in a call that does admit a new session, and then it is
      the session of the same client that has been empty longest. */
  lemma RemovedExactlyWhen(steps: seq<Step>, s: Server, step: Step, q: SessionRef)
    requires Leads(EMPTY_SERVER, steps, s) && Enabled(s, step)
    requires q < |s.sessions| && s.sessions[q].live && q < |Next(s, step).sessions|
    ensures TableOk(s)
    ensures !Next(s, step).sessions[q].live ==> s.sessions[q].paths == {}
    ensures !Next(s, step).sessions[q].live <==>
            RemovedByJanitor(s, step, q) || RemovedForRoom(s, step, Next(s, step), q)
  {
    EmptyIsInvariant();
    RunKeeps(EMPTY_SERVER, steps, s);
    assert TableOk(s);
    hide Leads, Invariant, Enabled, Next, TableOk, SessionsOf, IsLongestEmpty;
    if !Next(s, step).sessions[q].live {
      if step.Attaches? {
        AttachRemoval(s, step, q);
      } else {
        OthersKeepLive(s, step, q);
      }
    } else if RemovedByJanitor(s, step, q) {
      JanitorRemoves(s, step, q);
    } else if RemovedForRoom(s, step, Next(s, step), q) {
      AttachRemoves(s, step, q);
    }
  }
}
