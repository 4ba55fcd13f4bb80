/** dequeueLocked as a whole: it terminates, and it finds a packet whenever one is queued. */
module WorkConserving {
  import opened Base
  import opened Codel
  import opened CodelLaw
  import opened FairQueue
  import opened FairQueueInvariant

  /** How often a quantum has to be added until the deficit is positive. */
  function TopUps(quantum: int, deficit: int): nat
    requires quantum > 0
    decreases -deficit
  {
    if deficit > 0 then 0 else 1 + TopUps(quantum, deficit + quantum)
  }

  function TurnsOf(cfg: Config, f: FlowState): nat
    requires cfg.quantum > 0
  {
    1 + (if f.inNew then 1 else 0) + TopUps(cfg.quantum, f.deficit)
  }

  function TurnsAt(cfg: Config, s: State): nat -> int
    requires cfg.quantum > 0
  {
    b => if b in s.flows then TurnsOf(cfg, s.flows[b]) else 0
  }

  /** The termination measure of the loop: turns the active flows may still need. */
  function TurnsLeft(cfg: Config, s: State): (n: nat)
    requires cfg.quantum > 0
  {
    SumNonNegative(TurnsAt(cfg, s), cfg.buckets);
    Sum(TurnsAt(cfg, s), cfg.buckets)
  }

  /** A turn that found no packet for flow b changed nothing else, left b with fewer turns, and
      took nothing from any queue. */
  ghost predicate FruitlessTurn(cfg: Config, s: State, t: State, b: nat)
    requires cfg.quantum > 0
  {
    && b in s.flows && SameExcept(s, t, b)
    && (b in t.flows ==> t.flows[b].q == s.flows[b].q && TurnsOf(cfg, t.flows[b]) < TurnsOf(cfg, s.flows[b]))
    && (b !in t.flows ==> s.flows[b].q == [])
    && t.stats == s.stats
  }

  lemma TopUpIsFruitless(cfg: Config, s: State, b: nat)
    requires ValidConfig(cfg) && b in s.flows && s.flows[b].deficit <= 0
    ensures FruitlessTurn(cfg, s, TopUp(cfg, s, b), b)
  {
  }

  lemma FailureIsFruitless(cfg: Config, s: State, b: nat, r: Dequeued)
    requires ValidConfig(cfg) && b in s.flows && s.flows[b].q == []
    requires GoodDequeue(cfg, s.flows[b], r)
    ensures FruitlessTurn(cfg, s, Emptied(Taken(s, b, r), b), b)
  {
  }

  lemma AgainIsFruitless(cfg: Config, s: State, now: int)
    requires ValidConfig(cfg) && Invariant(cfg, s)
    requires Front(s).Some? ==> Front(s).value in s.flows
    requires Turn(cfg, s, now).Again?
    ensures Front(s).Some?
    ensures FruitlessTurn(cfg, s, Turn(cfg, s, now).s, Front(s).value)
  {
    var b := Front(s).value;
    if s.flows[b].deficit <= 0 {
      TopUpIsFruitless(cfg, s, b);
    } else {
      CodelDequeueKeeps(cfg, s.flows[b], now);
      FailureIsFruitless(cfg, s, b, CodelDequeue(cfg, s.flows[b], now));
    }
  }

  lemma TurnsFall(cfg: Config, s: State, t: State, b: nat)
    requires ValidConfig(cfg) && b < cfg.buckets && FruitlessTurn(cfg, s, t, b)
    ensures TurnsLeft(cfg, t) < TurnsLeft(cfg, s)
  {
    SumChange(TurnsAt(cfg, s), TurnsAt(cfg, t), b, cfg.buckets);
  }

  datatype Result = Nothing(s: State) | Got(s: State, b: nat, data: Bytes)

  /** dequeueLocked: turns until one passes a packet on or no flow is active. */
  ghost function Dequeue(cfg: Config, s: State, now: int): Result
    requires ValidConfig(cfg) && Invariant(cfg, s)
    decreases TurnsLeft(cfg, s)
  {
    TurnKeeps(cfg, s, now);
    match Turn(cfg, s, now)
    case Idle => Nothing(s)
    case Served(t, b, data) => Got(t, b, data)
    case Again(t) =>
      AgainIsFruitless(cfg, s, now);
      TurnsFall(cfg, s, t, Front(s).value);
      Dequeue(cfg, t, now)
  }

  /** What one turn contributes to the whole dequeue. */
  lemma DequeueByTurns(cfg: Config, s: State, now: int)
    requires ValidConfig(cfg) && Invariant(cfg, s)
    ensures Front(s).Some? ==> Front(s).value in s.flows
    ensures var o := Turn(cfg, s, now); o.Idle? ==> Dequeue(cfg, s, now) == Nothing(s)
    ensures var o := Turn(cfg, s, now); o.Served? ==>
              Invariant(cfg, o.s) && Dequeue(cfg, s, now) == Got(o.s, o.b, o.data)
    ensures var o := Turn(cfg, s, now); o.Again? ==>
              && Invariant(cfg, o.s)
              && Dequeue(cfg, s, now) == Dequeue(cfg, o.s, now)
              && TurnsLeft(cfg, o.s) < TurnsLeft(cfg, s)
  {
    TurnKeeps(cfg, s, now);
    if Turn(cfg, s, now).Again? {
      AgainIsFruitless(cfg, s, now);
      TurnsFall(cfg, s, Turn(cfg, s, now).s, Front(s).value);
    }
  }

  ghost predicate HasPacket(s: State) {
    exists b :: b in s.flows && s.flows[b].q != []
  }

  lemma FruitlessKeepsPackets(cfg: Config, s: State, t: State, b: nat)
    requires cfg.quantum > 0 && FruitlessTurn(cfg, s, t, b)
    ensures HasPacket(s) <==> HasPacket(t)
  {
    if HasPacket(s) {
      var c :| c in s.flows && s.flows[c].q != [];
      assert c in t.flows && t.flows[c].q != [];
    }
    if HasPacket(t) {
      var c :| c in t.flows && t.flows[c].q != [];
      assert c in s.flows && s.flows[c].q != [];
    }
  }

  /** Main result: a packet comes out exactly when one is queued anywhere, whatever the deficits
      and the lists are; otherwise every flow has been forgotten. */
  lemma {:induction false} DequeueIsWorkConserving(cfg: Config, s: State, now: int)
    requires ValidConfig(cfg) && Invariant(cfg, s)
    ensures Dequeue(cfg, s, now).Got? <==> HasPacket(s)
    ensures Dequeue(cfg, s, now).Nothing? ==>
              var t := Dequeue(cfg, s, now).s; t.flows == map[] && t.newFlows == [] && t.oldFlows == []
    decreases TurnsLeft(cfg, s)
  {
    TurnKeeps(cfg, s, now);
    match Turn(cfg, s, now)
    case Idle =>
    case Served(t, b, data) =>
    case Again(t) =>
      AgainIsFruitless(cfg, s, now);
      TurnsFall(cfg, s, t, Front(s).value);
      FruitlessKeepsPackets(cfg, s, t, Front(s).value);
      DequeueIsWorkConserving(cfg, t, now);
  }

  lemma {:induction false} DequeueKeeps(cfg: Config, s: State, now: int)
    requires ValidConfig(cfg) && Invariant(cfg, s)
    ensures Invariant(cfg, Dequeue(cfg, s, now).s)
    decreases TurnsLeft(cfg, s)
  {
    TurnKeeps(cfg, s, now);
    match Turn(cfg, s, now)
    case Idle =>
    case Served(t, b, data) =>
    case Again(t) =>
      AgainIsFruitless(cfg, s, now);
      TurnsFall(cfg, s, t, Front(s).value);
      DequeueKeeps(cfg, t, now);
  }

  // ---------------------------------------------------------------- overflow

  ghost function AfterDrops(cfg: Config, s: State, drops: seq<nat>): State
    requires LegalDrops(cfg, s, drops)
    decreases |drops|, 1
  {
    if drops == [] then s else Overflow(AfterDrops(cfg, s, drops[..|drops| - 1]), drops[|drops| - 1])
  }

  /** Each of the drops takes from a fattest flow while the scheduler is over its limit. */
  ghost predicate LegalDrops(cfg: Config, s: State, drops: seq<nat>)
    decreases |drops|, 0
  {
    drops != [] ==>
      var n := |drops| - 1;
      && LegalDrops(cfg, s, drops[..n])
      && AfterDrops(cfg, s, drops[..n]).total > cfg.limitBytes
      && IsFattest(AfterDrops(cfg, s, drops[..n]), drops[n])
  }

  /** From s, a scheduler over its limit drops packets until it is not, and is left in t. */
  ghost predicate DropsTo(cfg: Config, s: State, drops: seq<nat>, t: State) {
    LegalDrops(cfg, s, drops) && t == AfterDrops(cfg, s, drops)
  }

  lemma DropsToMore(cfg: Config, s: State, drops: seq<nat>, t: State, b: nat)
    requires DropsTo(cfg, s, drops, t) && t.total > cfg.limitBytes && IsFattest(t, b)
    ensures DropsTo(cfg, s, drops + [b], Overflow(t, b))
  {
    assert (drops + [b])[..|drops|] == drops;
  }

  /** With no packet queued there are no bytes, so the limit is always reached. */
  lemma NothingQueued(cfg: Config, s: State)
    requires Invariant(cfg, s) && !HasPacket(s)
    ensures s.total == 0
  {
    SumEqual(BytesAt(s), _ => 0, cfg.buckets);
    SumBounds(_ => 0, cfg.buckets, 0);
  }
}
