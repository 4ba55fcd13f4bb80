/** What makes FQ-CoDel favour new flows (section 4.2 of RFC 8290): a flow that becomes active is served
    before the old ones, for a quantum. */
module NewFlows {
  import opened Base
  import opened Codel
  import opened CodelLaw
  import opened FairQueue
  import opened FairQueueInvariant
  import opened Runs
  import opened NoStarvation
  import opened Batches
  import opened Order

  ghost predicate IsNew(s: State, g: nat) {
    g in s.flows && s.flows[g].inNew
  }

  /** Flow g is new in every state of the run. */
  ghost predicate StaysNew(cfg: Config, s: State, es: seq<Event>, g: nat)
    decreases |es|
  {
    && IsNew(s, g)
    && (es != [] ==> Enabled(cfg, s, es[0]) && StaysNew(cfg, Next(cfg, s, es[0]), es[1..], g))
  }

  /** The bytes of flow g the run passes on. */
  ghost function BytesOf(cfg: Config, s: State, es: seq<Event>, g: nat): nat {
    TotalLength(ForBucket(RunOutputs(cfg, s, es), g))
  }

  lemma {:induction false} TotalLengthConcat(a: seq<Bytes>, b: seq<Bytes>)
    ensures TotalLength(a + b) == TotalLength(a) + TotalLength(b)
    decreases |b|
  {
    if b == [] {
      assert a + b == a;
    } else {
      assert (a + b)[..|a + b| - 1] == a + b[..|b| - 1];
      TotalLengthConcat(a, b[..|b| - 1]);
    }
  }

  lemma BytesOfStep(cfg: Config, s: State, es: seq<Event>, g: nat)
    requires es != [] && Enabled(cfg, s, es[0])
    ensures BytesOf(cfg, s, es, g) ==
            TotalLength(ForBucket(StepOutputs(cfg, s, es[0]), g)) + BytesOf(cfg, Next(cfg, s, es[0]), es[1..], g)
  {
    hide Next, StepOutputs, Enabled;
    var rest := RunOutputs(cfg, Next(cfg, s, es[0]), es[1..]);
    ForBucketConcat(StepOutputs(cfg, s, es[0]), rest, g);
    TotalLengthConcat(ForBucket(StepOutputs(cfg, s, es[0]), g), ForBucket(rest, g));
    hide ForBucket, TotalLength;
  }

  // ---------------------------------------------------------------- one step

  lemma NoOutput(outs: seq<Output>, g: nat)
    requires outs == [] || (|outs| == 1 && outs[0].bucket != g)
    ensures TotalLength(ForBucket(outs, g)) == 0
  {
  }

  lemma OneOutput(g: nat, data: Bytes)
    ensures TotalLength(ForBucket([Output(g, data)], g)) == |data|
  {
    assert [Output(g, data)][1..] == [] && [data][..0] == [];
    assert ForBucket([Output(g, data)], g) == [data];
  }

  /** The turn of a new flow: it pays for the packet passed on, or it is no longer new. */
  lemma OwnTurn(cfg: Config, s: State, now: int, g: nat)
    requires ValidConfig(cfg) && Invariant(cfg, s) && IsNew(s, g) && Front(s) == Some(g)
    requires Enabled(cfg, s, DequeueTurn(now))
    ensures var e := DequeueTurn(now);
            var t := Next(cfg, s, e);
            if s.flows[g].deficit > 0 && s.flows[g].q != [] then
              && IsNew(t, g)
              && t.flows[g].deficit == s.flows[g].deficit - TotalLength(ForBucket(StepOutputs(cfg, s, e), g))
            else !IsNew(t, g)
  {
    hide FlowOk, Follows, ForBucket, TotalLength, CodelDequeue;
    var f := s.flows[g];
    if f.deficit > 0 {
      CodelDequeueKeeps(cfg, f, now);
      var r := CodelDequeue(cfg, f, now);
      if r.p.Some? {
        OneOutput(g, r.p.value.data);
      }
    }
  }

  /** Any other event leaves a new flow where it is, with its deficit. */
  lemma OthersLeaveNew(cfg: Config, s: State, e: Event, g: nat)
    requires ValidConfig(cfg) && Invariant(cfg, s) && IsNew(s, g) && Enabled(cfg, s, e)
    requires e.DequeueTurn? ==> Front(s) != Some(g)
    ensures var t := Next(cfg, s, e); IsNew(t, g) && t.flows[g].deficit == s.flows[g].deficit
    ensures TotalLength(ForBucket(StepOutputs(cfg, s, e), g)) == 0
  {
    hide CodelDequeue, ForBucket, TotalLength, Invariant;
    NoOutput(StepOutputs(cfg, s, e), g);
  }

  /** g's own turn found it without credit or without packets. */
  ghost predicate TurnEnds(s: State, e: Event, g: nat) {
    && e.DequeueTurn? && Front(s) == Some(g) && g in s.flows
    && (s.flows[g].deficit <= 0 || s.flows[g].q == [])
  }

  lemma NewStep(cfg: Config, s: State, e: Event, g: nat)
    requires ValidConfig(cfg) && Invariant(cfg, s) && IsNew(s, g) && Enabled(cfg, s, e)
    ensures var t := Next(cfg, s, e);
            if TurnEnds(s, e, g) then !IsNew(t, g)
            else
              && IsNew(t, g)
              && t.flows[g].deficit == s.flows[g].deficit - TotalLength(ForBucket(StepOutputs(cfg, s, e), g))
  {
    if e.DequeueTurn? && Front(s) == Some(g) {
      OwnTurn(cfg, s, e.now, g);
    } else {
      OthersLeaveNew(cfg, s, e, g);
    }
    hide Invariant, Next, StepOutputs, ForBucket, TotalLength, Enabled, Front;
  }

  // ---------------------------------------------------------------- runs

  lemma NoBytes(cfg: Config, s: State, g: nat)
    ensures BytesOf(cfg, s, [], g) == 0
  {
    NoOutput([], g);
  }

  lemma {:induction false} DeficitFalls(cfg: Config, s: State, es: seq<Event>, t: State, g: nat)
    requires ValidConfig(cfg) && Invariant(cfg, s) && StaysNew(cfg, s, es, g) && Leads(cfg, s, es, t)
    ensures IsNew(t, g) && t.flows[g].deficit == s.flows[g].deficit - BytesOf(cfg, s, es, g)
    decreases |es|
  {
    hide Invariant, Next, StepOutputs, ForBucket, TotalLength, Enabled;
    if es == [] {
      NoBytes(cfg, s, g);
    } else {
      NextKeeps(cfg, s, es[0]);
      NewStep(cfg, s, es[0], g);
      BytesOfStep(cfg, s, es, g);
      hide BytesOf, TurnEnds;
      DeficitFalls(cfg, Next(cfg, s, es[0]), es[1..], t, g);
    }
  }

  /** Main result, a conservation law: from the arrival that makes a flow new, as long as it is new, its
      deficit and the bytes of it that were passed on make up the quantum. */
  lemma NewFlowSpendsItsQuantum(cfg: Config, s: State, p: Packet, es: seq<Event>, t: State, g: nat)
    requires ValidConfig(cfg) && Invariant(cfg, s) && g < cfg.buckets && g !in s.flows
    requires StaysNew(cfg, Next(cfg, s, Arrival(g, p)), es, g) && Leads(cfg, Next(cfg, s, Arrival(g, p)), es, t)
    ensures g in t.flows && t.flows[g].deficit + BytesOf(cfg, Next(cfg, s, Arrival(g, p)), es, g) == cfg.quantum
  {
    var a := Next(cfg, s, Arrival(g, p));
    NextKeeps(cfg, s, Arrival(g, p));
    assert a.flows[g].deficit == cfg.quantum;
    hide Invariant, Next, BytesOf;
    DeficitFalls(cfg, a, es, t, g);
  }

  /** The turn at which a flow stops being new. */
  lemma {:induction false} StopsBeingNew(cfg: Config, s: State, es: seq<Event>, t: State, g: nat)
    returns (n: nat, u: State)
    requires ValidConfig(cfg) && Invariant(cfg, s) && IsNew(s, g) && Leads(cfg, s, es, t) && !IsNew(t, g)
    ensures n < |es| && StaysNew(cfg, s, es[..n], g) && Leads(cfg, s, es[..n], u) && TurnEnds(u, es[n], g)
    decreases |es|
  {
    hide Invariant, Next, StepOutputs, ForBucket, TotalLength, Enabled;
    NextKeeps(cfg, s, es[0]);
    NewStep(cfg, s, es[0], g);
    if TurnEnds(s, es[0], g) {
      n, u := 0, s;
    } else {
      var k;
      hide TurnEnds;
      k, u := StopsBeingNew(cfg, Next(cfg, s, es[0]), es[1..], t, g);
      n := k + 1;
      assert es[..n][1..] == es[1..][..k] && es[..n][0] == es[0];
    }
  }

  lemma OldInFront(cfg: Config, s: State, now: int, b: nat, data: Bytes, g: nat)
    requires Invariant(cfg, s) && Enabled(cfg, s, DequeueTurn(now)) && !IsNew(s, b)
    requires StepOutputs(cfg, s, DequeueTurn(now)) == [Output(b, data)]
    ensures !IsNew(s, g)
  {
    FrontIsActive(s);
    hide CodelDequeue, FlowsOk, Conserved;
  }

  /** Main result: new flows go first. Before a packet of a flow that is not new is passed on, every flow
      that became active before has come to its turn, and then it had passed on a whole quantum or had no
      packet left. */
  lemma NewFlowsGoFirst(
    cfg: Config, s: State, p: Packet, es: seq<Event>, t: State, now: int, b: nat, data: Bytes, g: nat)
    returns (n: nat, u: State)
    requires ValidConfig(cfg) && Invariant(cfg, s) && g < cfg.buckets && g !in s.flows
    requires Leads(cfg, Next(cfg, s, Arrival(g, p)), es, t)
    requires Enabled(cfg, t, DequeueTurn(now)) && StepOutputs(cfg, t, DequeueTurn(now)) == [Output(b, data)]
    requires !IsNew(t, b)
    ensures n < |es| && Leads(cfg, Next(cfg, s, Arrival(g, p)), es[..n], u)
    ensures es[n].DequeueTurn? && Front(u) == Some(g) && g in u.flows
    ensures BytesOf(cfg, Next(cfg, s, Arrival(g, p)), es[..n], g) >= cfg.quantum || u.flows[g].q == []
  {
    var a := Next(cfg, s, Arrival(g, p));
    assert IsNew(a, g);
    NextKeeps(cfg, s, Arrival(g, p));
    RunKeeps(cfg, a, es, t);
    hide Invariant, Next, BytesOf, Enabled, StepOutputs;
    OldInFront(cfg, t, now, b, data, g);
    n, u := StopsBeingNew(cfg, a, es, t, g);
    NewFlowSpendsItsQuantum(cfg, s, p, es[..n], u, g);
  }

  lemma PassesItsPacket(cfg: Config, s: State, p: Packet, now: int, g: nat)
    requires ValidConfig(cfg) && Invariant(cfg, s) && s.newFlows == [g] && g in s.flows
    requires s.flows[g].q == [p] && s.flows[g].deficit == cfg.quantum
    ensures Enabled(cfg, s, DequeueTurn(now)) && StepOutputs(cfg, s, DequeueTurn(now)) == [Output(g, p.data)]
  {
    hide FlowOk, Follows, CodelDequeue, Conserved, ListsMatch;
    CodelDequeueKeeps(cfg, s.flows[g], now);
  }

  /** With no other new flow, the packet that makes a flow new is the next to be passed on. */
  lemma NewPacketIsNext(cfg: Config, s: State, p: Packet, now: int, g: nat)
    requires ValidConfig(cfg) && Invariant(cfg, s) && g < cfg.buckets && g !in s.flows && s.newFlows == []
    ensures var a := Next(cfg, s, Arrival(g, p));
            Enabled(cfg, a, DequeueTurn(now)) && StepOutputs(cfg, a, DequeueTurn(now)) == [Output(g, p.data)]
  {
    hide Invariant;
    NextKeeps(cfg, s, Arrival(g, p));
    PassesItsPacket(cfg, Next(cfg, s, Arrival(g, p)), p, now, g);
  }

  // ---------------------------------------------------------------- the wait of a new flow

  lemma OnlyNewAhead(cfg: Config, s: State, p: Packet, maxLen: nat, g: nat, h: nat)
    requires ValidConfig(cfg) && Invariant(cfg, s) && maxLen > 0 && Bounded(cfg, s, maxLen)
    requires g !in s.flows
    ensures Ahead(cfg, Arrive(cfg, s, g, p), maxLen, g, h) <= if h in s.newFlows then FullTurn(cfg, maxLen) else 0
  {
    hide FlowsOk, Conserved;
  }

  lemma NewAheadAreFew(cfg: Config, s: State, p: Packet, maxLen: nat, g: nat)
    requires ValidConfig(cfg) && Invariant(cfg, s) && maxLen > 0 && Bounded(cfg, s, maxLen)
    requires g !in s.flows
    ensures Potential(cfg, Arrive(cfg, s, g, p), maxLen, g) <= |s.newFlows| * FullTurn(cfg, maxLen)
  {
    assert g in Arrive(cfg, s, g, p).flows;
    hide Invariant, Bounded, Ahead, Arrive, FullTurn;
    forall h: nat | h < cfg.buckets
      ensures AheadOf(cfg, Arrive(cfg, s, g, p), maxLen, g)(h) <= if h in s.newFlows then FullTurn(cfg, maxLen) else 0
    {
      OnlyNewAhead(cfg, s, p, maxLen, g, h);
    }
    SumOfFew(AheadOf(cfg, Arrive(cfg, s, g, p), maxLen, g), cfg.buckets, s.newFlows, FullTurn(cfg, maxLen));
  }

  /** Main result: until a flow that became active is in front, no more bytes are passed on than one full
      turn of each flow that was new when it came, whatever the old flows have queued. */
  lemma NewFlowWaitsForNewOnes(cfg: Config, s: State, p: Packet, es: seq<Event>, maxLen: nat, g: nat)
    requires ValidConfig(cfg) && Invariant(cfg, s) && maxLen > 0 && Bounded(cfg, s, maxLen)
    requires g < cfg.buckets && g !in s.flows && ArrivesBounded(Arrival(g, p), maxLen)
    requires forall e :: e in es ==> ArrivesBounded(e, maxLen)
    requires NeverInFront(cfg, Next(cfg, s, Arrival(g, p)), es, g)
    ensures RunBytesOut(cfg, Next(cfg, s, Arrival(g, p)), es) <= |s.newFlows| * FullTurn(cfg, maxLen)
  {
    hide Invariant, Bounded, Potential, RunBytesOut;
    NextKeeps(cfg, s, Arrival(g, p));
    NextBounded(cfg, s, Arrival(g, p), maxLen);
    NewAheadAreFew(cfg, s, p, maxLen, g);
    PotentialPaysForRun(cfg, Next(cfg, s, Arrival(g, p)), es, maxLen, g);
  }
}
