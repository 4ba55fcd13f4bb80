/** How many packets, not bytes, a flow waits for. With packets of at least minLen bytes the byte bound
    is one on packets; with empty packets there is none. */
module PacketBound {
  import opened Base
  import opened Codel
  import opened FairQueue
  import opened Runs
  import opened WorkConserving
  import opened NoStarvation
  import opened Order

  lemma OneMorePacket(n: nat, minLen: nat)
    ensures (n + 1) * minLen == n * minLen + minLen
  {
  }

  /** Every packet passed on has at least minLen bytes. */
  lemma {:induction false} PacketsHaveBytes(cfg: Config, s: State, es: seq<Event>, minLen: nat)
    requires ValidConfig(cfg) && Invariant(cfg, s) && AtLeast(s, minLen)
    requires forall e :: e in es ==> ArrivesAtLeast(e, minLen)
    ensures |RunOutputs(cfg, s, es)| * minLen <= RunBytesOut(cfg, s, es)
    decreases |es|
  {
    hide Next, Invariant, AtLeast, Enabled;
    if es != [] && Enabled(cfg, s, es[0]) {
      var t := Next(cfg, s, es[0]);
      NextKeeps(cfg, s, es[0]);
      NextAtLeast(cfg, s, es[0], minLen);
      PacketsHaveBytes(cfg, t, es[1..], minLen);
      OneMorePacket(|RunOutputs(cfg, t, es[1..])|, minLen);
    }
  }

  /** Main result: with packets of minLen to maxLen bytes, no more packets are passed on before g comes to
      the front than two full turns of every other flow hold, whatever arrives. */
  lemma FewPacketsBeforeFront(cfg: Config, s: State, es: seq<Event>, minLen: nat, maxLen: nat, g: nat)
    requires ValidConfig(cfg) && Invariant(cfg, s) && maxLen > 0 && Bounded(cfg, s, maxLen) && AtLeast(s, minLen)
    requires forall e :: e in es ==> ArrivesBounded(e, maxLen) && ArrivesAtLeast(e, minLen)
    requires g in s.flows && NeverInFront(cfg, s, es, g)
    ensures |RunOutputs(cfg, s, es)| * minLen <= WaitBound(cfg, maxLen)
  {
    hide WaitBound, Invariant, Bounded, AtLeast, NeverInFront, RunBytesOut, RunOutputs;
    FrontIsReached(cfg, s, es, maxLen, g);
    PacketsHaveBytes(cfg, s, es, minLen);
  }

  /** The same while g waits with a packet and none of its own is passed on. */
  lemma FewPacketsWhileWaiting(cfg: Config, s: State, es: seq<Event>, minLen: nat, maxLen: nat, g: nat)
    requires ValidConfig(cfg) && Invariant(cfg, s) && maxLen > 0 && Bounded(cfg, s, maxLen) && AtLeast(s, minLen)
    requires forall e :: e in es ==> ArrivesBounded(e, maxLen) && ArrivesAtLeast(e, minLen)
    requires Waits(cfg, s, es, g)
    ensures |RunOutputs(cfg, s, es)| * minLen
            <= (TopUps(cfg.quantum, s.flows[g].deficit) + 1) * WaitBound(cfg, maxLen)
  {
    hide WaitBound, Invariant, Bounded, AtLeast, RunBytesOut, RunOutputs;
    NoFlowStarves(cfg, s, es, maxLen, g);
    PacketsHaveBytes(cfg, s, es, minLen);
  }

  // ---------------------------------------------------------------- empty packets

  const NO_BYTES := Packet([], 0)

  /** Flow 0 is in front, out of packets but with credit; flow 1 waits behind it. */
  ghost predicate Stuck(cfg: Config, s: State) {
    && s.newFlows == [0, 1] && 0 in s.flows && 1 in s.flows
    && s.flows[0].q == [] && s.flows[0].bytes == 0 && s.flows[0].deficit == cfg.quantum
    && !s.flows[0].codel.dropping
    && s.flows[1].q != []
  }

  /** An empty packet comes and goes, and nothing has changed for flow 1. */
  lemma EmptyRound(cfg: Config, s: State)
    requires ValidConfig(cfg) && cfg.buckets > 1 && Stuck(cfg, s)
    ensures var a := Arrive(cfg, s, 0, NO_BYTES);
            && Enabled(cfg, a, DequeueTurn(0))
            && Output(cfg, a, DequeueTurn(0)) == Some((0, []))
            && Stuck(cfg, Next(cfg, a, DequeueTurn(0)))
            && 1 in a.flows && a.flows[1].q != []
  {
    var a := Arrive(cfg, s, 0, NO_BYTES);
    assert a.flows[0].q == [NO_BYTES] && a.flows[0].bytes == 0;
    var r := CodelDequeue(cfg, a.flows[0], 0);
    assert r.p == Some(NO_BYTES) && r.f.q == [] && r.f.bytes == 0 && !r.f.codel.dropping;
  }

  lemma {:induction false} RoundsOfEmptyPackets(cfg: Config, s: State, n: nat) returns (es: seq<Event>)
    requires ValidConfig(cfg) && cfg.buckets > 1 && Stuck(cfg, s)
    ensures |es| == 2 * n && |RunOutputs(cfg, s, es)| == n && Waits(cfg, s, es, 1)
    ensures forall e :: e in es ==> ArrivesBounded(e, 0)
    decreases n
  {
    if n == 0 {
      es := [];
    } else {
      EmptyRound(cfg, s);
      var x, y := Arrival(0, NO_BYTES), DequeueTurn(0);
      var a := Next(cfg, s, x);
      var rest := RoundsOfEmptyPackets(cfg, Next(cfg, a, y), n - 1);
      es := [x] + ([y] + rest);
      hide Turn, Stuck;
      assert es[1..] == [y] + rest && ([y] + rest)[1..] == rest;
      assert Waits(cfg, a, [y] + rest, 1);
      assert |RunOutputs(cfg, a, [y] + rest)| == n;
    }
  }

  /** Main result: the bound on packets needs packets with bytes. For every n there is a run from the
      empty scheduler after which a flow waits while n empty packets of another one are passed on. */
  lemma EmptyPacketsPassWithoutEnd(cfg: Config, p: Packet, n: nat)
    returns (first: seq<Event>, s: State, es: seq<Event>)
    requires ValidConfig(cfg) && cfg.buckets > 1
    ensures Leads(cfg, EMPTY, first, s) && first == [Arrival(0, NO_BYTES), Arrival(1, p), DequeueTurn(0)]
    ensures Waits(cfg, s, es, 1) && |RunOutputs(cfg, s, es)| == n
    ensures forall e :: e in es ==> ArrivesBounded(e, 0)
  {
    var a := Next(cfg, EMPTY, Arrival(0, NO_BYTES));
    var b := Next(cfg, a, Arrival(1, p));
    assert b.newFlows == [0, 1] && b.flows[0].q == [NO_BYTES] && b.flows[0].bytes == 0;
    var r := CodelDequeue(cfg, b.flows[0], 0);
    assert r.p == Some(NO_BYTES) && r.f.q == [] && r.f.bytes == 0 && !r.f.codel.dropping;
    s := Next(cfg, b, DequeueTurn(0));
    first := [Arrival(0, NO_BYTES), Arrival(1, p), DequeueTurn(0)];
    assert first[1..] == [Arrival(1, p), DequeueTurn(0)] && first[1..][1..] == [DequeueTurn(0)];
    assert Leads(cfg, b, [DequeueTurn(0)], s);
    es := RoundsOfEmptyPackets(cfg, s, n);
  }
}
