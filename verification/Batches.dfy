/** Batches of packets taken with repeated dequeues. */
module Batches {
  import opened Base
  import opened Codel
  import opened CodelLaw
  import opened FairQueue
  import opened FairQueueInvariant
  import opened WorkConserving

  lemma FruitlessKeepsQueued(cfg: Config, s: State, t: State, b: nat)
    requires ValidConfig(cfg) && b < cfg.buckets && FruitlessTurn(cfg, s, t, b)
    ensures QueuedPackets(cfg, t) == QueuedPackets(cfg, s)
  {
    SumsChange(cfg, s, t, b);
  }

  lemma PassedTakes(cfg: Config, s: State, b: nat, r: Dequeued, n: nat)
    requires b < cfg.buckets && b in s.flows && s.flows[b].q != [] && GoodDequeue(cfg, s.flows[b], r)
    ensures QueuedPackets(cfg, Passed(s, b, r, n)) < QueuedPackets(cfg, s)
  {
    SumsChange(cfg, s, Passed(s, b, r, n), b);
  }

  lemma FlowsAreOk(cfg: Config, s: State, b: nat)
    requires Invariant(cfg, s) && b in s.flows
    ensures b < cfg.buckets && FlowInvariant(cfg, s.flows[b])
  {
  }

  lemma ServedTakes(cfg: Config, s: State, now: int)
    requires ValidConfig(cfg) && Invariant(cfg, s)
    requires Front(s).Some? ==> Front(s).value in s.flows
    requires Turn(cfg, s, now).Served?
    ensures QueuedPackets(cfg, Turn(cfg, s, now).s) < QueuedPackets(cfg, s)
  {
    hide Invariant, QueuedPackets, Passed, GoodDequeue;
    TurnKeeps(cfg, s, now);
    var b := Front(s).value;
    var r := CodelDequeue(cfg, s.flows[b], now);
    assert b < cfg.buckets && FlowInvariant(cfg, s.flows[b]) by { FlowsAreOk(cfg, s, b); }
    CodelDequeueKeeps(cfg, s.flows[b], now);
    PassedTakes(cfg, s, b, r, |r.p.value.data|);
  }

  /** A dequeue that finds a packet leaves fewer queued. */
  lemma {:induction false} GotTakes(cfg: Config, s: State, now: int)
    requires ValidConfig(cfg) && Invariant(cfg, s)
    ensures Dequeue(cfg, s, now).Got? ==> QueuedPackets(cfg, Dequeue(cfg, s, now).s) < QueuedPackets(cfg, s)
    decreases TurnsLeft(cfg, s)
  {
    hide Invariant, QueuedPackets, Turn;
    TurnKeeps(cfg, s, now);
    match Turn(cfg, s, now)
    case Idle =>
    case Served(t, b, data) =>
      ServedTakes(cfg, s, now);
    case Again(t) =>
      AgainIsFruitless(cfg, s, now);
      FlowsAreOk(cfg, s, Front(s).value);
      FruitlessKeepsQueued(cfg, s, t, Front(s).value);
      TurnsFall(cfg, s, t, Front(s).value);
      GotTakes(cfg, t, now);
  }

  /** A packet passed on, with the bucket of its flow. */
  datatype Output = Output(bucket: nat, data: Bytes)

  datatype Batch = Batch(s: State, outputs: seq<Output>)

  /** n dequeues in a row; clock(i) is the time of the i-th. */
  ghost function DequeueMany(cfg: Config, s: State, clock: nat -> int, n: nat): (r: Batch)
    requires ValidConfig(cfg) && Invariant(cfg, s)
    ensures Invariant(cfg, r.s)
  {
    if n == 0 then Batch(s, [])
    else
      var m := DequeueMany(cfg, s, clock, n - 1);
      DequeueKeeps(cfg, m.s, clock(n - 1));
      match Dequeue(cfg, m.s, clock(n - 1))
      case Nothing(t) => Batch(t, m.outputs)
      case Got(t, b, data) => Batch(t, m.outputs + [Output(b, data)])
  }

  function Datas(outputs: seq<Output>): seq<Bytes> {
    seq(|outputs|, i requires 0 <= i < |outputs| => outputs[i].data)
  }

  function TotalLength(packets: seq<Bytes>): nat {
    if packets == [] then 0 else TotalLength(packets[..|packets| - 1]) + |packets[|packets| - 1]|
  }

  lemma TotalLengthAppend(packets: seq<Bytes>, p: Bytes)
    ensures TotalLength(packets + [p]) == TotalLength(packets) + |p|
  {
    assert (packets + [p])[..|packets|] == packets;
  }

  /** The dequeue's answer and the state it leaves. */
  ghost predicate Told(r: Result, data: Option<Bytes>, s: State) {
    match r
    case Nothing(t) => data == None && s == t
    case Got(t, b, d) => data == Some(d) && s == t
  }

  /** The packets are what `calls` dequeues from s passed on, and t is the state they left. */
  ghost predicate IsBatch(cfg: Config, s: State, clock: nat -> int, calls: nat, packets: seq<Bytes>, t: State)
    requires ValidConfig(cfg) && Invariant(cfg, s)
  {
    var m := DequeueMany(cfg, s, clock, calls);
    t == m.s && packets == Datas(m.outputs)
  }

  lemma BatchGrows(
    cfg: Config, s: State, clock: nat -> int, calls: nat, packets: seq<Bytes>, t: State,
    data: Option<Bytes>, u: State)
    requires ValidConfig(cfg) && Invariant(cfg, s) && Invariant(cfg, t)
    requires IsBatch(cfg, s, clock, calls, packets, t)
    requires Told(Dequeue(cfg, t, clock(calls)), data, u)
    ensures IsBatch(cfg, s, clock, calls + 1, if data.Some? then packets + [data.value] else packets, u)
    ensures data.Some? <==> HasPacket(t)
    ensures data.None? ==> !HasPacket(u)
    ensures data.Some? ==> QueuedPackets(cfg, u) < QueuedPackets(cfg, t)
  {
    hide Invariant, QueuedPackets, Dequeue;
    DequeueIsWorkConserving(cfg, t, clock(calls));
    GotTakes(cfg, t, clock(calls));
  }

  /** A batch as DequeueBatch builds it: its last packet was only taken while there was room. */
  ghost predicate IsRoomyBatch(
    cfg: Config, s: State, clock: nat -> int, calls: nat, packets: seq<Bytes>, maxBytes: int, t: State)
    requires ValidConfig(cfg) && Invariant(cfg, s)
  {
    && IsBatch(cfg, s, clock, calls, packets, t)
    && |packets| > 0
    && (|packets| > 1 ==> TotalLength(packets[..|packets| - 1]) < maxBytes)
  }

  lemma RoomyBatchGrows(
    cfg: Config, s: State, clock: nat -> int, calls: nat, packets: seq<Bytes>, maxBytes: int, t: State,
    data: Bytes, u: State)
    requires ValidConfig(cfg) && Invariant(cfg, s) && Invariant(cfg, t)
    requires IsBatch(cfg, s, clock, calls, packets, t)
    requires packets == [] ||
             (IsRoomyBatch(cfg, s, clock, calls, packets, maxBytes, t) && TotalLength(packets) < maxBytes)
    requires Told(Dequeue(cfg, t, clock(calls)), Some(data), u)
    ensures IsRoomyBatch(cfg, s, clock, calls + 1, packets + [data], maxBytes, u)
    ensures TotalLength(packets + [data]) == TotalLength(packets) + |data|
  {
    hide Invariant, Dequeue;
    BatchGrows(cfg, s, clock, calls, packets, t, Some(data), u);
    TotalLengthAppend(packets, data);
    assert (packets + [data])[..|packets|] == packets;
  }

  /** One more dequeue for a batch that still has room. */
  lemma RoomyBatchStep(
    cfg: Config, s: State, clock: nat -> int, calls: nat, packets: seq<Bytes>, maxBytes: int, t: State,
    data: Option<Bytes>, u: State)
    requires ValidConfig(cfg) && Invariant(cfg, s) && Invariant(cfg, t)
    requires IsRoomyBatch(cfg, s, clock, calls, packets, maxBytes, t) && TotalLength(packets) < maxBytes
    requires Told(Dequeue(cfg, t, clock(calls)), data, u)
    ensures data.Some? ==> IsRoomyBatch(cfg, s, clock, calls + 1, packets + [data.value], maxBytes, u)
    ensures data.Some? ==> TotalLength(packets + [data.value]) == TotalLength(packets) + |data.value|
    ensures data.Some? ==> QueuedPackets(cfg, u) < QueuedPackets(cfg, t)
    ensures data.None? ==> IsRoomyBatch(cfg, s, clock, calls + 1, packets, maxBytes, u) && !HasPacket(u)
  {
    hide Invariant, Dequeue, QueuedPackets;
    BatchGrows(cfg, s, clock, calls, packets, t, data, u);
    if data.Some? {
      RoomyBatchGrows(cfg, s, clock, calls, packets, maxBytes, t, data.value, u);
    }
  }
}
