/**
 The FQ-CoDel scheduler (section 4 of RFC 8290) of internal/sched/fq.go as a state machine on
 values. Class Scheduler implements it; the theorems about whole runs are stated here.
 */
module FairQueue {
  import opened Base
  import opened Codel
  import opened CodelLaw

  datatype Stats = Stats(enqueued: nat, dequeued: nat, codelDrops: nat, overflowDrops: nat)

  /** The lists name a flow by its bucket. */
  datatype State = State(
    flows: map<nat, FlowState>,
    newFlows: seq<nat>,
    oldFlows: seq<nat>,
    total: int,
    stats: Stats)

  const EMPTY := State(map[], [], [], 0, Stats(0, 0, 0, 0))

  // ---------------------------------------------------------------- steps

  function NewFlow(cfg: Config): FlowState {
    FlowState([], 0, cfg.quantum, true, INITIAL_CODEL, [])
  }

  function Append(f: FlowState, p: Packet): FlowState {
    f.(q := f.q + [p], bytes := f.bytes + |p.data|)
  }

  /** A packet for bucket b is queued; a flow without a queue becomes a new flow. */
  function Arrive(cfg: Config, s: State, b: nat, p: Packet): State {
    var known := b in s.flows;
    var f := if known then s.flows[b] else NewFlow(cfg);
    s.(flows := s.flows[b := Append(f, p)],
       newFlows := if known then s.newFlows else s.newFlows + [b],
       total := s.total + |p.data|,
       stats := s.stats.(enqueued := s.stats.enqueued + 1))
  }

  /** The flow an overflow takes a packet from: non-empty, and no non-empty flow has more bytes. */
  ghost predicate IsFattest(s: State, b: nat) {
    && b in s.flows && s.flows[b].q != []
    && forall c :: c in s.flows && s.flows[c].q != [] ==> s.flows[c].bytes <= s.flows[b].bytes
  }

  function Overflow(s: State, b: nat): State
    requires b in s.flows && s.flows[b].q != []
  {
    s.(flows := s.flows[b := PopHead(s.flows[b])],
       total := s.total - |s.flows[b].q[0].data|,
       stats := s.stats.(overflowDrops := s.stats.overflowDrops + 1))
  }

  /** The flow served next: the first new flow, or else the first old one. */
  function Front(s: State): Option<nat> {
    if s.newFlows != [] then Some(s.newFlows[0])
    else if s.oldFlows != [] then Some(s.oldFlows[0])
    else None
  }

  function Without(l: seq<nat>, b: nat): seq<nat> {
    if l == [] then [] else if l[0] == b then l[1..] else [l[0]] + Without(l[1..], b)
  }

  function Unlink(s: State, b: nat): State
    requires b in s.flows
  {
    if s.flows[b].inNew
    then s.(newFlows := Without(s.newFlows, b))
    else s.(oldFlows := Without(s.oldFlows, b))
  }

  function MoveToOld(s: State, b: nat): State
    requires b in s.flows
  {
    var u := Unlink(s, b);
    u.(oldFlows := u.oldFlows + [b], flows := u.flows[b := u.flows[b].(inNew := false)])
  }

  /** The flow is forgotten; its next packet makes it a new flow again. */
  function Deactivate(s: State, b: nat): State
    requires b in s.flows
  {
    var u := Unlink(s, b);
    u.(flows := u.flows - {b})
  }

  function AddDeficit(s: State, b: nat, n: int): State
    requires b in s.flows
  {
    s.(flows := s.flows[b := s.flows[b].(deficit := s.flows[b].deficit + n)])
  }

  function TopUp(cfg: Config, s: State, b: nat): State
    requires b in s.flows
  {
    MoveToOld(AddDeficit(s, b, cfg.quantum), b)
  }

  /** A flow found empty: a new one goes to the old flows once, so that it cannot stay new. */
  function Emptied(s: State, b: nat): State
    requires b in s.flows
  {
    if s.flows[b].inNew && s.oldFlows != [] then MoveToOld(s, b) else Deactivate(s, b)
  }

  /** The state after CoDel took packets from the queue of flow b. */
  function Taken(s: State, b: nat, r: Dequeued): State
    requires b in s.flows
  {
    s.(flows := s.flows[b := r.f],
       total := s.total - (s.flows[b].bytes - r.f.bytes),
       stats := s.stats.(codelDrops := s.stats.codelDrops + r.drops))
  }

  function Charge(f: FlowState, n: nat): FlowState {
    f.(deficit := f.deficit - n)
  }

  /** As Taken, and a packet of n bytes is passed on at the flow's expense. */
  function Passed(s: State, b: nat, r: Dequeued, n: nat): State
    requires b in s.flows
  {
    s.(flows := s.flows[b := Charge(r.f, n)],
       total := s.total - (s.flows[b].bytes - r.f.bytes),
       stats := s.stats.(codelDrops := s.stats.codelDrops + r.drops, dequeued := s.stats.dequeued + 1))
  }

  datatype Outcome =
    | Idle
    | Again(s: State)
    | Served(s: State, b: nat, data: Bytes)

  /** What dequeueLocked does with the result of the CoDel dequeue of flow b. */
  function AfterCodel(s: State, b: nat, r: Dequeued): Outcome
    requires b in s.flows
  {
    match r.p
    case None => Again(Emptied(Taken(s, b, r), b))
    case Some(p) => Served(Passed(s, b, r, |p.data|), b, p.data)
  }

  /** One turn of the loop of dequeueLocked. */
  function Turn(cfg: Config, s: State, now: int): Outcome
    requires Front(s).Some? ==> Front(s).value in s.flows
  {
    match Front(s)
    case None => Idle
    case Some(b) =>
      if s.flows[b].deficit <= 0
      then Again(TopUp(cfg, s, b))
      else AfterCodel(s, b, CodelDequeue(cfg, s.flows[b], now))
  }

  // ---------------------------------------------------------------- invariant

  /** Every flow in the map is on exactly one list, once: on the one its inNew flag names. */
  ghost predicate ListsMatch(s: State) {
    && Distinct(s.newFlows)
    && Distinct(s.oldFlows)
    && (forall b :: b in s.newFlows <==> b in s.flows && s.flows[b].inNew)
    && (forall b :: b in s.oldFlows <==> b in s.flows && !s.flows[b].inNew)
  }

  ghost predicate FlowsOk(cfg: Config, s: State) {
    forall b :: b in s.flows ==> b < cfg.buckets && FlowInvariant(cfg, s.flows[b])
  }

  function BytesAt(s: State): nat -> int {
    b => if b in s.flows then s.flows[b].bytes else 0
  }

  function PacketsAt(s: State): nat -> int {
    b => if b in s.flows then |s.flows[b].q| else 0
  }

  /** Byte and packet counters agree with what is queued. */
  ghost predicate Conserved(cfg: Config, s: State) {
    && s.total == Sum(BytesAt(s), cfg.buckets)
    && s.stats.enqueued == s.stats.dequeued + s.stats.codelDrops + s.stats.overflowDrops
                           + Sum(PacketsAt(s), cfg.buckets)
  }

  ghost predicate Invariant(cfg: Config, s: State) {
    ListsMatch(s) && FlowsOk(cfg, s) && Conserved(cfg, s)
  }
}
