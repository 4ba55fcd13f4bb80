/** The scheduler of internal/sched/fq.go as the program has it: flow objects, changed in place. */
module Scheduling {
  import opened Base
  import opened Codel
  import opened CodelLaw
  import opened FairQueue
  import opened FairQueueInvariant
  import opened WorkConserving
  import opened Runs
  import opened Batches

  class Flow {
    const bucket: nat
    var q: seq<Packet>
    var bytes: int
    var deficit: int
    // the program's elem != nil
    var listed: bool
    var inNew: bool
    var codel: CodelState
    ghost var hist: seq<Observation>

    constructor (bucket: nat)
      ensures this.bucket == bucket && q == [] && bytes == 0 && !listed && codel == INITIAL_CODEL && hist == []
    {
      this.bucket := bucket;
      q, bytes, deficit, listed, inNew, codel, hist := [], 0, 0, false, false, INITIAL_CODEL, [];
    }

    ghost function State(): FlowState
      reads this
    {
      FlowState(q, bytes, deficit, inNew, codel, hist)
    }
  }

  function Buckets(l: seq<Flow>): (r: seq<nat>)
    ensures |r| == |l| && forall i :: 0 <= i < |l| ==> r[i] == l[i].bucket
  {
    if l == [] then [] else [l[0].bucket] + Buckets(l[1..])
  }

  /** container/list's Remove: the list without the element that holds f. */
  function Remove(l: seq<Flow>, f: Flow): seq<Flow> {
    if l == [] then [] else if l[0] == f then l[1..] else [l[0]] + Remove(l[1..], f)
  }

  lemma {:induction false} RemoveBucket(l: seq<Flow>, f: Flow)
    requires forall g :: g in l && g.bucket == f.bucket ==> g == f
    ensures Buckets(Remove(l, f)) == Without(Buckets(l), f.bucket)
    ensures forall g :: g in Remove(l, f) ==> g in l
    ensures Distinct(Buckets(l)) ==> f !in Remove(l, f)
  {
    if l != [] {
      assert Buckets(l)[1..] == Buckets(l[1..]);
      assert Distinct(Buckets(l)) ==> Distinct(Buckets(l)[1..]);
      if l[0] == f {
        assert Distinct(Buckets(l)) ==> forall i :: 0 < i < |l| ==> l[i].bucket != f.bucket;
      } else {
        RemoveBucket(l[1..], f);
        assert Remove(l, f)[1..] == Remove(l[1..], f);
      }
    }
  }

  lemma BucketsAppend(l: seq<Flow>, f: Flow)
    ensures Buckets(l + [f]) == Buckets(l) + [f.bucket]
  {
  }

  function CountDrops(st: Stats, n: nat): Stats {
    st.(codelDrops := st.codelDrops + n)
  }

  lemma DropStepShrinks(cfg: Config, f: FlowState, now: int)
    ensures var g := DropStep(cfg, f, now).f;
            |g.q| < |f.q| || (|g.q| == |f.q| && !g.codel.dropping)
  {
  }

  lemma MovedState(s: State, t: State, b: nat)
    requires b in s.flows && t.total == s.total && t.stats == s.stats
    requires t.flows == s.flows[b := s.flows[b].(inNew := false)]
    requires t.newFlows == if s.flows[b].inNew then Without(s.newFlows, b) else s.newFlows
    requires t.oldFlows == (if s.flows[b].inNew then s.oldFlows else Without(s.oldFlows, b)) + [b]
    ensures t == FairQueue.MoveToOld(s, b)
  {
  }

  lemma ForgottenState(s: State, t: State, b: nat)
    requires b in s.flows && t.total == s.total && t.stats == s.stats
    requires t.flows == s.flows - {b}
    requires t.newFlows == if s.flows[b].inNew then Without(s.newFlows, b) else s.newFlows
    requires t.oldFlows == if s.flows[b].inNew then s.oldFlows else Without(s.oldFlows, b)
    ensures t == FairQueue.Deactivate(s, b)
  {
  }

  function Paid(s: State, b: nat, n: nat): State
    requires b in s.flows
  {
    s.(flows := s.flows[b := Charge(s.flows[b], n)], stats := s.stats.(dequeued := s.stats.dequeued + 1))
  }

  lemma PaidAfterTaken(s: State, b: nat, r: Dequeued, n: nat)
    requires b in s.flows
    ensures Paid(Taken(s, b, r), b, n) == Passed(s, b, r, n)
  {
  }

  lemma TakenKeepsLists(cfg: Config, s: State, b: nat, now: int)
    requires ValidConfig(cfg) && Invariant(cfg, s) && b in s.flows
    ensures ListsMatch(Taken(s, b, Codel.CodelDequeue(cfg, s.flows[b], now)))
  {
    CodelDequeueKeeps(cfg, s.flows[b], now);
    var r := Codel.CodelDequeue(cfg, s.flows[b], now);
    assert r.f.inNew == s.flows[b].inNew;
  }

  /** How a turn that left state s ended. */
  function OutcomeOf(s: State, b: nat, p: Option<Packet>): Outcome {
    match p
    case None => Again(s)
    case Some(packet) => Served(s, b, packet.data)
  }

  /** What one turn, leading from s to t, says about the whole dequeue. */
  ghost predicate AfterTurn(cfg: Config, s: State, now: int, idle: bool, data: Option<Bytes>, t: State)
    requires ValidConfig(cfg) && Invariant(cfg, s) && Invariant(cfg, t)
  {
    if idle || data.Some? then (idle ==> data == None) && Told(Dequeue(cfg, s, now), data, t)
    else Dequeue(cfg, t, now) == Dequeue(cfg, s, now) && TurnsLeft(cfg, t) < TurnsLeft(cfg, s)
  }

  lemma IdleTurn(cfg: Config, s: State, now: int)
    requires ValidConfig(cfg) && Invariant(cfg, s) && Front(s).None?
    ensures AfterTurn(cfg, s, now, true, None, s)
  {
    DequeueByTurns(cfg, s, now);
  }

  lemma PacketOrNot(cfg: Config, s: State, now: int, t: State, b: nat, p: Option<Packet>)
    requires ValidConfig(cfg) && Invariant(cfg, s) && (Front(s).Some? ==> Front(s).value in s.flows)
    requires FairQueue.Turn(cfg, s, now) == OutcomeOf(t, b, p)
    ensures Invariant(cfg, t)
    ensures AfterTurn(cfg, s, now, false, if p.Some? then Some(p.value.data) else None, t)
  {
    DequeueByTurns(cfg, s, now);
  }

  const DEFAULT_QUANTUM := 1514
  const DEFAULT_LIMIT_BYTES := 2 * 1024 * 1024
  const DEFAULT_TARGET := 5_000_000
  const DEFAULT_INTERVAL := 100_000_000
  const FLOW_BUCKETS := 1024

  function WithDefaults(quantum: int, limitBytes: int, target: int, interval: int, gap: nat -> int): (cfg: Config)
    ensures ValidConfig(cfg)
  {
    Config(
      if quantum <= 0 then DEFAULT_QUANTUM else quantum,
      if limitBytes <= 0 then DEFAULT_LIMIT_BYTES else limitBytes,
      if target <= 0 then DEFAULT_TARGET else target,
      if interval <= 0 then DEFAULT_INTERVAL else interval,
      gap,
      FLOW_BUCKETS)
  }

  lemma OverflowStep(cfg: Config, s: State, b: nat)
    requires Invariant(cfg, s) && IsFattest(s, b)
    ensures Invariant(cfg, Overflow(s, b))
    ensures QueuedPackets(cfg, Overflow(s, b)) < QueuedPackets(cfg, s)
  {
    OverflowKeeps(cfg, s, b);
    OverflowTakesOne(cfg, s, b);
  }

  function Unlisted(inNew: bool, deficit: int): FlowState {
    FlowState([], 0, deficit, inNew, INITIAL_CODEL, [])
  }

  lemma ArrivedState(cfg: Config, s: State, t: State, b: nat, p: Packet)
    requires t.flows == s.flows[b := Append(if b in s.flows then s.flows[b] else NewFlow(cfg), p)]
    requires t.newFlows == if b in s.flows then s.newFlows else s.newFlows + [b]
    requires t.oldFlows == s.oldFlows
    requires t.total == s.total + |p.data| && t.stats == s.stats.(enqueued := s.stats.enqueued + 1)
    ensures t == Arrive(cfg, s, b, p)
  {
  }

  /** What DequeueBatch returns: Waits where the program blocks until a packet arrives. */
  datatype BatchResult = Closed | Waits | Ready(packets: seq<Bytes>)

  lemma EmptyBatch(cfg: Config, s: State, clock: nat -> int)
    requires ValidConfig(cfg) && Invariant(cfg, s)
    ensures IsBatch(cfg, s, clock, 0, [], s)
    ensures TotalLength([]) == 0
  {
  }

  function Extended(batch: seq<Bytes>, data: Option<Bytes>): seq<Bytes> {
    if data.Some? then batch + [data.value] else batch
  }

  class Scheduler {
    const cfg: Config
    var flows: map<nat, Flow>
    var newFlows: seq<Flow>
    var oldFlows: seq<Flow>
    var total: int
    var closed: bool
    var stats: Stats
    // every flow object the scheduler has made
    ghost var made: set<Flow>

    ghost function FlowStates(): map<nat, FlowState>
      reads this`flows, flows.Values
    {
      map b | b in flows :: flows[b].State()
    }

    /** The state as a value. */
    ghost function State(): State
      reads this, flows.Values
    {
      FairQueue.State(FlowStates(), Buckets(newFlows), Buckets(oldFlows), total, stats)
    }

    /** Every flow object is in the map under its own bucket, and the lists hold only such flows. */
    ghost predicate Linked()
      reads this, flows.Values
    {
      && (forall b :: b in flows ==> flows[b].bucket == b && flows[b].listed && flows[b] in made)
      && (forall f :: f in newFlows ==> f.bucket in flows && flows[f.bucket] == f)
      && (forall f :: f in oldFlows ==> f.bucket in flows && flows[f.bucket] == f)
    }

    /** Only flow f changed. */
    twostate lemma OneFlowChanged(f: Flow)
      requires old(Linked()) && f in old(flows.Values) && flows == old(flows)
      requires forall g :: g in flows.Values && g != f ==> unchanged(g)
      ensures f.bucket in flows && flows[f.bucket] == f
      ensures FlowStates() == old(FlowStates())[f.bucket := f.State()]
    {
      forall b | b in flows && b != f.bucket
        ensures flows[b].State() == old(flows[b].State())
      {
        assert flows[b] in flows.Values && flows[b] != f;
      }
    }

    ghost predicate Valid()
      reads this, flows.Values
    {
      ValidConfig(cfg) && Linked() && Invariant(cfg, State())
    }

    /** New: fields of the configuration that are not positive get their defaults. */
    constructor (quantum: int, limitBytes: int, target: int, interval: int, gap: nat -> int)
      ensures Valid() && State() == EMPTY && !closed && made == {}
      ensures cfg.quantum == if quantum > 0 then quantum else 1514
      ensures cfg.limitBytes == if limitBytes > 0 then limitBytes else 2_097_152
      ensures cfg.target == if target > 0 then target else 5_000_000
      ensures cfg.interval == if interval > 0 then interval else 100_000_000
      ensures cfg.gap == gap && cfg.buckets == 1024
    {
      cfg := WithDefaults(quantum, limitBytes, target, interval, gap);
      flows, newFlows, oldFlows, total, closed, stats := map[], [], [], 0, false, Stats(0, 0, 0, 0);
      made := {};
      new;
      EmptyIsInvariant(cfg);
      assert State() == EMPTY;
    }

    /** The flow object for a bucket, made if there is none; a new one is on no list yet. */
    method FlowFor(bucket: nat) returns (f: Flow)
      requires Linked()
      modifies this`flows, this`made
      ensures f.bucket == bucket && flows == old(flows)[bucket := f] && made == old(made) + {f}
      ensures bucket in old(flows) ==> f == old(flows)[bucket]
      ensures bucket !in old(flows) ==> fresh(f) && f.State() == Unlisted(f.inNew, f.deficit) && !f.listed
    {
      if bucket in flows {
        f := flows[bucket];
      } else {
        f := new Flow(bucket);
        flows := flows[bucket := f];
      }
      made := made + {f};
    }

    /** A flow that is on no list becomes a new flow. */
    method Activate(f: Flow)
      modifies this`newFlows, f`deficit, f`listed, f`inNew
      ensures f.listed
      ensures old(f.listed) ==> newFlows == old(newFlows) && f.State() == old(f.State())
      ensures !old(f.listed) ==> newFlows == old(newFlows) + [f]
      ensures !old(f.listed) ==> f.State() == old(f.State()).(deficit := cfg.quantum, inNew := true)
    {
      if !f.listed {
        f.deficit := cfg.quantum;
        newFlows := newFlows + [f];
        f.listed := true;
        f.inNew := true;
      }
    }

    /** f stands in no other bucket. */
    twostate lemma OnlyNewBucket(new f: Flow)
      requires old(Linked()) && flows == old(flows)[f.bucket := f]
      ensures forall b :: b in flows && b != f.bucket ==> flows[b] in old(flows.Values) && flows[b] != f
    {
      forall b | b in flows && b != f.bucket
        ensures flows[b] in old(flows.Values) && flows[b] != f
      {
        assert b in old(flows) && old(flows)[b].bucket == b;
      }
    }

    /** Only flow f changed; it may be a new object, at the end of the new flows. */
    twostate lemma OneFlowArrived(new f: Flow)
      requires old(Linked()) && flows == old(flows)[f.bucket := f] && f in made && old(made) <= made
      requires f.bucket in old(flows) ==> f == old(flows)[f.bucket]
      requires f.bucket !in old(flows) ==> !old(allocated(f))
      requires forall g :: g in old(flows.Values) && g != f ==> unchanged(g)
      requires f.listed && oldFlows == old(oldFlows)
      requires newFlows == old(newFlows) || newFlows == old(newFlows) + [f]
      ensures Linked()
    {
      OnlyNewBucket(f);
      forall b | b in flows && b != f.bucket
        ensures flows[b].bucket == b && flows[b].listed
      {
        assert flows[b] in old(flows.Values) && flows[b] != f;
      }
    }

    twostate lemma OneFlowState(new f: Flow)
      requires old(Linked()) && flows == old(flows)[f.bucket := f]
      requires forall g :: g in old(flows.Values) && g != f ==> unchanged(g)
      ensures FlowStates() == old(FlowStates())[f.bucket := f.State()]
    {
      OnlyNewBucket(f);
      forall b | b in flows && b != f.bucket
        ensures flows[b].State() == old(flows[b].State())
      {
        assert flows[b] in old(flows.Values) && flows[b] != f;
      }
      hide Linked;
    }

    method AppendPacket(bucket: nat, data: Bytes, now: int)
      requires Linked()
      modifies this`flows, this`newFlows, this`total, this`stats, this`made, made
      ensures Linked() && made >= old(made) && fresh(made - old(made))
      ensures State() == Arrive(cfg, old(State()), bucket, Packet(data, now))
    {
      ghost var before := State();
      var f := FlowFor(bucket);
      f.q := f.q + [Packet(data, now)];
      f.bytes := f.bytes + |data|;
      total := total + |data|;
      stats := stats.(enqueued := stats.enqueued + 1);
      BucketsAppend(newFlows, f);
      Activate(f);
      ghost var g := if bucket in before.flows then before.flows[bucket] else NewFlow(cfg);
      assert f.State() == Append(g, Packet(data, now));
      OneFlowArrived(f);
      OneFlowState(f);
      hide Append, NewFlow;
      ArrivedState(cfg, before, State(), bucket, Packet(data, now));
    }

    method PopHead(f: Flow) returns (p: Packet)
      requires f.q != []
      modifies this`total, f`q, f`bytes
      ensures p == old(f.q[0])
      ensures f.State() == Codel.PopHead(old(f.State()))
      ensures total == old(total) + f.bytes - old(f.bytes)
    {
      p := f.q[0];
      f.q := f.q[1..];
      f.bytes := f.bytes - |p.data|;
      total := total - |p.data|;
    }

    method Fattest() returns (fat: Flow?)
      requires Linked()
      ensures fat == null <==> forall b :: b in flows ==> flows[b].q == []
      ensures fat != null ==> fat in flows.Values && fat.q != []
      ensures fat != null ==> forall b :: b in flows && flows[b].q != [] ==> flows[b].bytes <= fat.bytes
    {
      fat := null;
      var rest := flows.Keys;
      while rest != {}
        invariant rest <= flows.Keys
        invariant fat == null ==> forall b :: b in flows && b !in rest ==> flows[b].q == []
        invariant fat != null ==> fat in flows.Values && fat.q != []
        invariant fat != null ==>
                    forall b :: b in flows && b !in rest && flows[b].q != [] ==> flows[b].bytes <= fat.bytes
        decreases rest
      {
        var b :| b in rest;
        rest := rest - {b};
        var f := flows[b];
        if |f.q| > 0 && (fat == null || f.bytes > fat.bytes) {
          fat := f;
        }
      }
    }

    /** Drops a packet of the fattest flow; `victim` is its bucket. */
    method DropFromFattest() returns (ok: bool, ghost victim: nat)
      requires Linked()
      modifies this`total, this`stats, made
      ensures Linked()
      ensures ok ==> IsFattest(old(State()), victim) && State() == Overflow(old(State()), victim)
      ensures !ok ==> State() == old(State()) && !HasPacket(State())
    {
      var fat := Fattest();
      if fat == null {
        return false, 0;
      }
      assert IsFattest(State(), fat.bucket);
      var p := PopHead(fat);
      stats := stats.(overflowDrops := stats.overflowDrops + 1);
      OneFlowChanged(fat);
      return true, fat.bucket;
    }

    /** The loop of Enqueue. */
    method DropOverLimit() returns (ghost drops: seq<nat>)
      requires Valid()
      modifies this`total, this`stats, made
      ensures Valid()
      ensures DropsTo(cfg, old(State()), drops, State()) && total <= cfg.limitBytes
    {
      hide Invariant, IsFattest, Overflow, HasPacket, QueuedPackets;
      drops := [];
      var more := true;
      while total > cfg.limitBytes && more
        invariant Valid()
        invariant DropsTo(cfg, old(State()), drops, State())
        invariant !more ==> !HasPacket(State())
        decreases QueuedPackets(cfg, State()), more
      {
        hide AfterDrops, LegalDrops, DropsTo;
        ghost var before := State();
        ghost var victim;
        more, victim := DropFromFattest();
        if more {
          OverflowStep(cfg, before, victim);
          DropsToMore(cfg, old(State()), drops, before, victim);
          drops := drops + [victim];
        }
      }
      if !more {
        NothingQueued(cfg, State());
      }
    }

    /** `bucket` is the hash of the packet's flow key; `drops` are the buckets the overflow took
        packets from. */
    method Enqueue(bucket: nat, data: Bytes, now: int) returns (ghost drops: seq<nat>)
      requires Valid() && bucket < cfg.buckets
      modifies this`flows, this`newFlows, this`total, this`stats, this`made, made
      ensures Valid() && made >= old(made) && fresh(made - old(made))
      ensures old(closed) ==> State() == old(State())
      ensures !old(closed) ==>
                && DropsTo(cfg, Arrive(cfg, old(State()), bucket, Packet(data, now)), drops, State())
                && total <= cfg.limitBytes
    {
      hide Invariant, Arrive, DropsTo, Linked;
      drops := [];
      if !closed {
        ArriveKeeps(cfg, State(), bucket, Packet(data, now));
        AppendPacket(bucket, data, now);
        drops := DropOverLimit();
      }
    }

    method Close()
      modifies this`closed
      ensures closed
    {
      closed := true;
    }

    method DoDequeue(f: Flow, now: int) returns (p: Option<Packet>, okToDrop: bool)
      modifies this`total, f`q, f`bytes, f`codel, f`hist
      ensures Dodequeued(f.State(), p, okToDrop) == Codel.DoDequeue(cfg, old(f.State()), now)
      ensures total == old(total) + f.bytes - old(f.bytes)
    {
      okToDrop := false;
      if f.q == [] {
        f.codel := f.codel.(firstAboveTime := None);
        f.hist := f.hist + [SawNothing];
        return None, false;
      }
      var head := PopHead(f);
      f.hist := f.hist + [Saw(now, now - head.enq, f.bytes, false)];
      if now - head.enq < cfg.target || f.bytes <= MAX_PACKET {
        f.codel := f.codel.(firstAboveTime := None);
      } else if f.codel.firstAboveTime.None? {
        f.codel := f.codel.(firstAboveTime := Some(now + cfg.interval));
      } else if now >= f.codel.firstAboveTime.value {
        okToDrop := true;
      }
      p := Some(head);
    }

    /** The packet in hand is dropped in the dropping state, the next one is dequeued. */
    method DropAndDequeue(f: Flow, now: int) returns (p: Option<Packet>, okToDrop: bool)
      modifies this`total, this`stats, f`q, f`bytes, f`codel, f`hist
      ensures Dodequeued(f.State(), p, okToDrop) == DropStep(cfg, old(f.State()), now)
      ensures stats == CountDrops(old(stats), 1)
      ensures total == old(total) + f.bytes - old(f.bytes)
    {
      stats := CountDrops(stats, 1);
      f.codel := f.codel.(count := f.codel.count + 1);
      f.hist := MarkDropped(f.hist);
      assert f.State() == CountDrop(old(f.State()));
      p, okToDrop := DoDequeue(f, now);
      if !okToDrop {
        f.codel := f.codel.(dropping := false);
      } else {
        f.codel := f.codel.(dropNext := ControlLaw(cfg, f.codel.dropNext, f.codel.count));
      }
    }

    /** The packet in hand is dropped and the dropping state begins. */
    method BeginDropping(f: Flow, now: int) returns (p: Option<Packet>)
      modifies this`total, this`stats, f`q, f`bytes, f`codel, f`hist
      ensures Dequeued(f.State(), p, 1) == FirstDrop(cfg, old(f.State()), now)
      ensures stats == CountDrops(old(stats), 1)
      ensures total == old(total) + f.bytes - old(f.bytes)
    {
      stats := CountDrops(stats, 1);
      f.hist := MarkDropped(f.hist);
      var okToDrop;
      p, okToDrop := DoDequeue(f, now);
      var c := f.codel.(dropping := true);
      var delta := c.count - c.lastCount;
      c := c.(count := 1);
      if delta > 1 && c.dropNext.Some? && now - c.dropNext.value < 16 * cfg.interval {
        c := c.(count := delta);
      }
      c := c.(dropNext := ControlLaw(cfg, Some(now), c.count));
      c := c.(lastCount := c.count);
      f.codel := c;
    }

    method CodelDequeue(f: Flow, now: int) returns (p: Option<Packet>)
      modifies this`total, this`stats, f`q, f`bytes, f`codel, f`hist
      ensures f.State() == Codel.CodelDequeue(cfg, old(f.State()), now).f
      ensures p == Codel.CodelDequeue(cfg, old(f.State()), now).p
      ensures stats == CountDrops(old(stats), Codel.CodelDequeue(cfg, old(f.State()), now).drops)
      ensures total == old(total) + f.bytes - old(f.bytes)
    {
      var okToDrop;
      p, okToDrop := DoDequeue(f, now);
      ghost var d := Dodequeued(f.State(), p, okToDrop);
      if f.codel.dropping {
        if !okToDrop {
          f.codel := f.codel.(dropping := false);
        }
        assert f.State() == Settle(d);
        ghost var n: nat := 0;
        while f.codel.dropping && DropDue(f.codel, now)
          invariant total == old(total) + f.bytes - old(f.bytes)
          invariant stats == CountDrops(old(stats), n)
          invariant var rest := DropLoop(cfg, f.State(), p, now);
                    DropLoop(cfg, Settle(d), d.p, now) == Dequeued(rest.f, rest.p, rest.drops + n)
          decreases |f.q|, f.codel.dropping
        {
          ghost var before := f.State();
          p, okToDrop := DropAndDequeue(f, now);
          DropStepShrinks(cfg, before, now);
          n := n + 1;
        }
      } else if okToDrop {
        p := BeginDropping(f, now);
      }
    }

    method Unlink(f: Flow)
      modifies this`newFlows, this`oldFlows
      ensures newFlows == if f.inNew then Remove(old(newFlows), f) else old(newFlows)
      ensures oldFlows == if f.inNew then old(oldFlows) else Remove(old(oldFlows), f)
    {
      if f.inNew {
        newFlows := Remove(newFlows, f);
      } else {
        oldFlows := Remove(oldFlows, f);
      }
    }

    /** What unlinking f will do to the lists. */
    lemma Unlinked(f: Flow)
      requires Linked() && f in flows.Values
      ensures Buckets(Remove(newFlows, f)) == Without(Buckets(newFlows), f.bucket)
      ensures Buckets(Remove(oldFlows, f)) == Without(Buckets(oldFlows), f.bucket)
      ensures forall g :: g in Remove(newFlows, f) ==> g in newFlows
      ensures forall g :: g in Remove(oldFlows, f) ==> g in oldFlows
      ensures Distinct(Buckets(newFlows)) ==> f !in Remove(newFlows, f)
      ensures Distinct(Buckets(oldFlows)) ==> f !in Remove(oldFlows, f)
    {
      RemoveBucket(newFlows, f);
      RemoveBucket(oldFlows, f);
    }

    /** The flow object notes that it is an old flow. */
    method Relabel(f: Flow)
      requires Linked() && f in flows.Values
      modifies f`inNew, f`listed
      ensures Linked() && f.bucket in old(FlowStates())
      ensures FlowStates() == old(FlowStates())[f.bucket := old(FlowStates())[f.bucket].(inNew := false)]
    {
      f.listed := true;
      f.inNew := false;
      OneFlowChanged(f);
    }

    /** The flow goes to the end of the old list. */
    method Relist(f: Flow)
      requires Linked() && f in flows.Values
      modifies this`newFlows, this`oldFlows
      ensures Linked()
      ensures Buckets(newFlows) == if f.inNew then Without(Buckets(old(newFlows)), f.bucket) else Buckets(old(newFlows))
      ensures Buckets(oldFlows) ==
              (if f.inNew then Buckets(old(oldFlows)) else Without(Buckets(old(oldFlows)), f.bucket)) + [f.bucket]
    {
      hide Remove, Without, Buckets;
      Unlinked(f);
      Unlink(f);
      BucketsAppend(oldFlows, f);
      oldFlows := oldFlows + [f];
    }

    method MoveToOld(f: Flow)
      requires Linked() && f in flows.Values
      modifies this`newFlows, this`oldFlows, f`inNew, f`listed
      ensures Linked()
      ensures State() == FairQueue.MoveToOld(old(State()), f.bucket)
    {
      ghost var before := State();
      Relist(f);
      hide Without, Buckets, FairQueue.MoveToOld;
      Relabel(f);
      MovedState(before, State(), f.bucket);
    }

    /** Only flow f left the map and the lists. */
    twostate lemma OneFlowForgotten(f: Flow)
      requires old(Linked()) && f in old(flows.Values) && flows == old(flows) - {f.bucket} && made == old(made)
      requires forall g :: g in old(flows.Values) && g != f ==> unchanged(g)
      requires forall g :: g in newFlows ==> g in old(newFlows) && g != f
      requires forall g :: g in oldFlows ==> g in old(oldFlows) && g != f
      ensures Linked()
      ensures FlowStates() == old(FlowStates()) - {f.bucket}
    {
      forall b | b in flows
        ensures flows[b].State() == old(flows[b].State()) && flows[b].bucket == b && flows[b].listed
      {
        assert flows[b] in old(flows.Values) && flows[b] != f;
      }
    }

    /** f is not on the list its flag does not name. */
    lemma NotOnOtherList(f: Flow)
      requires Linked() && f in flows.Values && ListsMatch(State())
      ensures f.inNew ==> f !in oldFlows
      ensures !f.inNew ==> f !in newFlows
    {
      if f in oldFlows {
        var i :| 0 <= i < |oldFlows| && oldFlows[i] == f;
        assert Buckets(oldFlows)[i] == f.bucket;
        assert f.bucket in State().oldFlows;
      }
      if f in newFlows {
        var i :| 0 <= i < |newFlows| && newFlows[i] == f;
        assert Buckets(newFlows)[i] == f.bucket;
        assert f.bucket in State().newFlows;
      }
    }

    method Deactivate(f: Flow)
      requires Linked() && f in flows.Values && ListsMatch(State())
      modifies this`newFlows, this`oldFlows, this`flows, f`listed
      ensures Linked()
      ensures State() == FairQueue.Deactivate(old(State()), f.bucket)
    {
      ghost var before := State();
      Unlinked(f);
      NotOnOtherList(f);
      Unlink(f);
      f.listed := false;
      flows := flows - {f.bucket};
      OneFlowForgotten(f);
      ForgottenState(before, State(), f.bucket);
    }

    method AddDeficit(f: Flow, n: int)
      requires Linked() && f in flows.Values
      modifies f`deficit
      ensures Linked()
      ensures State() == FairQueue.AddDeficit(old(State()), f.bucket, n)
    {
      f.deficit := f.deficit + n;
      OneFlowChanged(f);
    }

    /** The flow in front is out of credit. */
    method TopUp(f: Flow)
      requires Linked() && f in flows.Values
      modifies this`newFlows, this`oldFlows, f`deficit, f`inNew, f`listed
      ensures Linked()
      ensures State() == FairQueue.TopUp(cfg, old(State()), f.bucket)
    {
      hide FairQueue.MoveToOld, FairQueue.AddDeficit;
      AddDeficit(f, cfg.quantum);
      MoveToOld(f);
    }

    /** A packet of n bytes of flow f is passed on. */
    method Pay(f: Flow, n: nat)
      requires Linked() && f in flows.Values
      modifies this`stats, f`deficit
      ensures Linked()
      ensures State() == Paid(old(State()), f.bucket, n)
    {
      f.deficit := f.deficit - n;
      stats := stats.(dequeued := stats.dequeued + 1);
      OneFlowChanged(f);
    }

    /** CoDel found flow f empty. */
    method Emptied(f: Flow)
      requires Linked() && f in flows.Values && ListsMatch(State())
      modifies this`newFlows, this`oldFlows, this`flows, f`inNew, f`listed
      ensures Linked()
      ensures State() == FairQueue.Emptied(old(State()), f.bucket)
    {
      if f.inNew && |oldFlows| > 0 {
        MoveToOld(f);
      } else {
        Deactivate(f);
      }
    }

    /** CoDel takes from the queue of flow f. */
    method TakeFrom(f: Flow, now: int) returns (p: Option<Packet>)
      requires Linked() && f in flows.Values
      modifies this`total, this`stats, f`q, f`bytes, f`codel, f`hist
      ensures Linked()
      ensures var r := Codel.CodelDequeue(cfg, old(f.State()), now);
              p == r.p && State() == Taken(old(State()), f.bucket, r)
    {
      p := CodelDequeue(f, now);
      OneFlowChanged(f);
    }

    /** The flow in front has credit: CoDel looks for a packet of it. */
    method Serve(f: Flow, now: int) returns (p: Option<Packet>)
      requires Valid() && f in flows.Values
      modifies this`flows, this`newFlows, this`oldFlows, this`total, this`stats, f
      ensures Linked()
      ensures AfterCodel(old(State()), f.bucket, Codel.CodelDequeue(cfg, old(f.State()), now))
              == OutcomeOf(State(), f.bucket, p)
    {
      ghost var before := State();
      ghost var r := Codel.CodelDequeue(cfg, f.State(), now);
      hide Codel.CodelDequeue, Invariant, ListsMatch, Taken, Passed, FairQueue.Emptied, Paid;
      TakenKeepsLists(cfg, before, f.bucket, now);
      p := TakeFrom(f, now);
      if p.None? {
        Emptied(f);
      } else {
        Pay(f, |p.value.data|);
        PaidAfterTaken(before, f.bucket, r, |p.value.data|);
      }
    }

    /** One turn of the loop of dequeueLocked, for the flow f in front. */
    method Turn(f: Flow, now: int) returns (p: Option<Packet>)
      requires Valid() && f in flows.Values && Front(State()) == Some(f.bucket)
      modifies this`flows, this`newFlows, this`oldFlows, this`total, this`stats, f
      ensures Linked()
      ensures FairQueue.Turn(cfg, old(State()), now) == OutcomeOf(State(), f.bucket, p)
    {
      hide FairQueue.TopUp, AfterCodel, Codel.CodelDequeue, Invariant;
      if f.deficit <= 0 {
        TopUp(f);
        p := None;
      } else {
        p := Serve(f, now);
      }
    }

    /** The first new flow, or else the first old one. */
    method FrontFlow() returns (f: Flow?)
      requires Linked()
      ensures f == null <==> Front(State()) == None
      ensures f != null ==> f in flows.Values && Front(State()) == Some(f.bucket)
    {
      if |newFlows| > 0 {
        f := newFlows[0];
      } else if |oldFlows| > 0 {
        f := oldFlows[0];
      } else {
        f := null;
      }
    }

    /** One turn of the loop of dequeueLocked; idle when no flow is active. */
    method OneTurn(now: int) returns (idle: bool, data: Option<Bytes>)
      requires Valid()
      modifies this`flows, this`newFlows, this`oldFlows, this`total, this`stats, made
      ensures Valid()
      ensures AfterTurn(cfg, old(State()), now, idle, data, State())
    {
      hide AfterTurn, FairQueue.Turn, OutcomeOf, Invariant, Front;
      ghost var before := State();
      var f := FrontFlow();
      if f == null {
        IdleTurn(cfg, before, now);
        return true, None;
      }
      var p := Turn(f, now);
      PacketOrNot(cfg, before, now, State(), f.bucket, p);
      idle, data := false, if p.Some? then Some(p.value.data) else None;
    }

    /** dequeueLocked: `now` is the clock while the lock is held. */
    method DequeueLocked(now: int) returns (data: Option<Bytes>)
      requires Valid()
      modifies this`flows, this`newFlows, this`oldFlows, this`total, this`stats, made
      ensures Valid()
      ensures Told(Dequeue(cfg, old(State()), now), data, State())
    {
      hide Invariant, Dequeue, TurnsLeft;
      var idle := false;
      data := None;
      while !idle && data == None
        invariant Valid()
        invariant if idle || data.Some?
                  then Told(Dequeue(cfg, old(State()), now), data, State())
                  else Dequeue(cfg, State(), now) == Dequeue(cfg, old(State()), now)
        decreases !idle, data == None, TurnsLeft(cfg, State())
      {
        idle, data := OneTurn(now);
      }
    }

    /** One more dequeue for a batch with room left. */
    method TakeOne(maxBytes: int, clock: nat -> int, calls: nat, ghost batch: seq<Bytes>, ghost start: State)
      returns (data: Option<Bytes>)
      requires Valid() && Invariant(cfg, start)
      requires IsRoomyBatch(cfg, start, clock, calls, batch, maxBytes, State()) && TotalLength(batch) < maxBytes
      modifies this`flows, this`newFlows, this`oldFlows, this`total, this`stats, made
      ensures Valid()
      ensures IsRoomyBatch(cfg, start, clock, calls + 1, Extended(batch, data), maxBytes, State())
      ensures TotalLength(Extended(batch, data)) == TotalLength(batch) + if data.Some? then |data.value| else 0
      ensures data.Some? ==> QueuedPackets(cfg, State()) < QueuedPackets(cfg, old(State()))
      ensures data.None? ==> !HasPacket(State())
    {
      hide Invariant, QueuedPackets, Dequeue, HasPacket, IsRoomyBatch, Told, TotalLength;
      ghost var before := State();
      data := DequeueLocked(clock(calls));
      RoomyBatchStep(cfg, start, clock, calls, batch, maxBytes, before, data, State());
    }

    /** The rest of DequeueBatch, with one packet in hand. */
    method MoreOfBatch(maxBytes: int, clock: nat -> int, head: Bytes, ghost start: State)
      returns (batch: seq<Bytes>, calls: nat)
      requires Valid() && Invariant(cfg, start)
      requires IsRoomyBatch(cfg, start, clock, 1, [] + [head], maxBytes, State())
      modifies this`flows, this`newFlows, this`oldFlows, this`total, this`stats, made
      ensures Valid()
      ensures IsRoomyBatch(cfg, start, clock, calls, batch, maxBytes, State())
      ensures TotalLength(batch) < maxBytes ==> !HasPacket(State())
    {
      TotalLengthAppend([], head);
      hide Invariant, QueuedPackets, HasPacket, IsRoomyBatch;
      var size, more := |head|, true;
      batch, calls := [] + [head], 1;
      while size < maxBytes && more
        invariant Valid()
        invariant IsRoomyBatch(cfg, start, clock, calls, batch, maxBytes, State())
        invariant size == TotalLength(batch)
        invariant !more ==> !HasPacket(State())
        decreases more, QueuedPackets(cfg, State())
      {
        hide TotalLength;
        var data := TakeOne(maxBytes, clock, calls, batch, start);
        if data == None {
          more := false;
        } else {
          size := size + |data.value|;
        }
        batch := Extended(batch, data);
        calls := calls + 1;
      }
    }

    /** `clock` gives the time of each dequeue of the call. Where the program waits for a packet,
        the method returns Waits: the call starts again when it is woken up. */
    method DequeueBatch(maxBytes: int, clock: nat -> int) returns (r: BatchResult, calls: nat)
      requires Valid()
      modifies this`flows, this`newFlows, this`oldFlows, this`total, this`stats, made
      ensures Valid()
      ensures r.Closed? <==> old(closed)
      ensures r.Closed? ==> State() == old(State())
      ensures !old(closed) ==> (r.Waits? <==> !HasPacket(old(State())))
      ensures r.Waits? ==> IsBatch(cfg, old(State()), clock, calls, [], State()) && !HasPacket(State())
      ensures r.Ready? ==>
                && IsRoomyBatch(cfg, old(State()), clock, calls, r.packets, maxBytes, State())
                && (TotalLength(r.packets) < maxBytes ==> !HasPacket(State()))
    {
      hide Invariant, QueuedPackets, Dequeue, HasPacket, IsBatch, IsRoomyBatch, Told, TotalLength;
      if closed {
        return Closed, 0;
      }
      EmptyBatch(cfg, State(), clock);
      ghost var before := State();
      var data := DequeueLocked(clock(0));
      BatchGrows(cfg, before, clock, 0, [], before, data, State());
      if data == None {
        return Waits, 1;
      }
      RoomyBatchGrows(cfg, before, clock, 0, [], maxBytes, before, data.value, State());
      var batch;
      batch, calls := MoreOfBatch(maxBytes, clock, data.value, before);
      r := Ready(batch);
    }
  }
}
