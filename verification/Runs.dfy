/**
 Runs of the scheduler: arrivals, overflow drops and turns of dequeueLocked in any order. A run
 may interleave them more finely than the program's lock does.
 */
module Runs {
  import opened Base
  import opened Codel
  import opened CodelLaw
  import opened FairQueue
  import opened FairQueueInvariant

  datatype Event =
    | Arrival(bucket: nat, p: Packet)
    | OverflowDrop(bucket: nat)
    | DequeueTurn(now: int)

  ghost predicate Enabled(cfg: Config, s: State, e: Event) {
    match e
    case Arrival(b, p) => b < cfg.buckets
    case OverflowDrop(b) => IsFattest(s, b)
    case DequeueTurn(now) => Front(s).Some? ==> Front(s).value in s.flows
  }

  ghost function Next(cfg: Config, s: State, e: Event): State
    requires Enabled(cfg, s, e)
  {
    match e
    case Arrival(b, p) => Arrive(cfg, s, b, p)
    case OverflowDrop(b) => Overflow(s, b)
    case DequeueTurn(now) => var o := Turn(cfg, s, now); if o.Idle? then s else o.s
  }

  /** The packet the event passes on, with its flow. */
  ghost function Output(cfg: Config, s: State, e: Event): Option<(nat, Bytes)>
    requires Enabled(cfg, s, e)
  {
    if e.DequeueTurn? && Turn(cfg, s, e.now).Served?
    then Some((Turn(cfg, s, e.now).b, Turn(cfg, s, e.now).data))
    else None
  }

  /** The events lead from s to t. */
  ghost predicate Leads(cfg: Config, s: State, es: seq<Event>, t: State)
    decreases |es|
  {
    if es == [] then s == t
    else Enabled(cfg, s, es[0]) && Leads(cfg, Next(cfg, s, es[0]), es[1..], t)
  }

  lemma NextKeeps(cfg: Config, s: State, e: Event)
    requires ValidConfig(cfg) && Invariant(cfg, s) && Enabled(cfg, s, e)
    ensures Invariant(cfg, Next(cfg, s, e))
  {
    match e
    case Arrival(b, p) => ArriveKeeps(cfg, s, b, p);
    case OverflowDrop(b) => OverflowKeeps(cfg, s, b);
    case DequeueTurn(now) => TurnKeeps(cfg, s, now);
  }

  /** Main result: the invariant holds in every state any run reaches. */
  lemma {:induction false} RunKeeps(cfg: Config, s: State, es: seq<Event>, t: State)
    requires ValidConfig(cfg) && Invariant(cfg, s) && Leads(cfg, s, es, t)
    ensures Invariant(cfg, t)
    decreases |es|
  {
    hide Next, Invariant;
    if es != [] {
      NextKeeps(cfg, s, es[0]);
      RunKeeps(cfg, Next(cfg, s, es[0]), es[1..], t);
    }
  }

  lemma EmptyIsInvariant(cfg: Config)
    ensures Invariant(cfg, EMPTY)
  {
    SumEqual(BytesAt(EMPTY), _ => 0, cfg.buckets);
    SumEqual(PacketsAt(EMPTY), _ => 0, cfg.buckets);
    SumBounds(_ => 0, cfg.buckets, 0);
  }

  lemma {:induction false} LeadsTrans(cfg: Config, s: State, es: seq<Event>, t: State, fs: seq<Event>, u: State)
    requires Leads(cfg, s, es, t) && Leads(cfg, t, fs, u)
    ensures Leads(cfg, s, es + fs, u)
    decreases |es|
  {
    if es == [] {
      assert es + fs == fs;
    } else {
      assert (es + fs)[0] == es[0] && (es + fs)[1..] == es[1..] + fs;
      LeadsTrans(cfg, Next(cfg, s, es[0]), es[1..], t, fs, u);
    }
  }

  // ---------------------------------------------------------------- deficits and lengths

  predicate Sized(p: Packet, maxLen: nat) {
    |p.data| <= maxLen
  }

  predicate FlowBounded(cfg: Config, f: FlowState, maxLen: nat) {
    && 1 - maxLen <= f.deficit <= cfg.quantum
    && forall i :: 0 <= i < |f.q| ==> Sized(f.q[i], maxLen)
  }

  /** Packets are at most maxLen bytes long, and no deficit is below -(maxLen - 1) or above the
      quantum. */
  predicate Bounded(cfg: Config, s: State, maxLen: nat) {
    forall b :: b in s.flows ==> FlowBounded(cfg, s.flows[b], maxLen)
  }

  predicate ArrivesBounded(e: Event, maxLen: nat) {
    e.Arrival? ==> Sized(e.p, maxLen)
  }

  lemma BoundedExcept(cfg: Config, s: State, t: State, b: nat, maxLen: nat)
    requires Bounded(cfg, s, maxLen) && SameExcept(s, t, b)
    requires b in t.flows ==> FlowBounded(cfg, t.flows[b], maxLen)
    ensures Bounded(cfg, t, maxLen)
  {
    forall c | c in t.flows
      ensures FlowBounded(cfg, t.flows[c], maxLen)
    {
      if c != b {
        assert c in s.flows && t.flows[c] == s.flows[c];
      }
    }
  }

  lemma AfterCodelBounded(cfg: Config, s: State, b: nat, r: Dequeued, maxLen: nat)
    requires Bounded(cfg, s, maxLen) && b in s.flows && s.flows[b].deficit > 0
    requires GoodDequeue(cfg, s.flows[b], r)
    ensures Bounded(cfg, AfterCodel(s, b, r).s, maxLen)
    ensures r.p.Some? ==> Sized(r.p.value, maxLen)
  {
    BoundedExcept(cfg, s, AfterCodel(s, b, r).s, b, maxLen);
  }

  lemma TopUpBounded(cfg: Config, s: State, b: nat, maxLen: nat)
    requires ValidConfig(cfg) && Bounded(cfg, s, maxLen) && b in s.flows && s.flows[b].deficit <= 0
    ensures Bounded(cfg, TopUp(cfg, s, b), maxLen)
  {
    BoundedExcept(cfg, s, TopUp(cfg, s, b), b, maxLen);
  }

  lemma TurnBounded(cfg: Config, s: State, now: int, maxLen: nat)
    requires ValidConfig(cfg) && Invariant(cfg, s) && Enabled(cfg, s, DequeueTurn(now))
    requires maxLen > 0 && Bounded(cfg, s, maxLen) && Front(s).Some?
    ensures var o := Turn(cfg, s, now);
            && !o.Idle? && Bounded(cfg, o.s, maxLen) && (o.Served? ==> |o.data| <= maxLen)
  {
    var b := Front(s).value;
    if s.flows[b].deficit <= 0 {
      TopUpBounded(cfg, s, b, maxLen);
    } else {
      CodelDequeueKeeps(cfg, s.flows[b], now);
      AfterCodelBounded(cfg, s, b, CodelDequeue(cfg, s.flows[b], now), maxLen);
    }
    hide Bounded, Invariant, GoodDequeue, CodelDequeue, TopUp;
  }

  lemma NoTurn(cfg: Config, s: State, now: int)
    requires Front(s).None?
    ensures Turn(cfg, s, now).Idle?
  {
  }

  lemma NextBounded(cfg: Config, s: State, e: Event, maxLen: nat)
    requires ValidConfig(cfg) && Invariant(cfg, s) && Enabled(cfg, s, e)
    requires maxLen > 0 && Bounded(cfg, s, maxLen) && ArrivesBounded(e, maxLen)
    ensures Bounded(cfg, Next(cfg, s, e), maxLen)
    ensures Output(cfg, s, e).Some? ==> |Output(cfg, s, e).value.1| <= maxLen
  {
    match e
    case Arrival(b, p) => BoundedExcept(cfg, s, Arrive(cfg, s, b, p), b, maxLen);
    case OverflowDrop(b) => BoundedExcept(cfg, s, Overflow(s, b), b, maxLen);
    case DequeueTurn(now) =>
      hide Turn, Bounded, Invariant;
      if Front(s).Some? {
        TurnBounded(cfg, s, now, maxLen);
      } else {
        NoTurn(cfg, s, now);
      }
  }

  ghost predicate FlowAtLeast(f: FlowState, minLen: nat) {
    forall i :: 0 <= i < |f.q| ==> |f.q[i].data| >= minLen
  }

  /** Every packet queued has at least minLen bytes. */
  ghost predicate AtLeast(s: State, minLen: nat) {
    forall b :: b in s.flows ==> FlowAtLeast(s.flows[b], minLen)
  }

  predicate ArrivesAtLeast(e: Event, minLen: nat) {
    e.Arrival? ==> |e.p.data| >= minLen
  }

  lemma AtLeastExcept(s: State, t: State, b: nat, minLen: nat)
    requires AtLeast(s, minLen) && SameExcept(s, t, b)
    requires b in t.flows ==> FlowAtLeast(t.flows[b], minLen)
    ensures AtLeast(t, minLen)
  {
    forall c | c in t.flows
      ensures FlowAtLeast(t.flows[c], minLen)
    {
      if c != b {
        assert c in s.flows && t.flows[c] == s.flows[c];
      }
    }
  }

  lemma AfterCodelAtLeast(cfg: Config, s: State, b: nat, r: Dequeued, minLen: nat)
    requires AtLeast(s, minLen) && b in s.flows && GoodDequeue(cfg, s.flows[b], r)
    ensures AtLeast(AfterCodel(s, b, r).s, minLen)
    ensures r.p.Some? ==> |r.p.value.data| >= minLen
  {
    AtLeastExcept(s, AfterCodel(s, b, r).s, b, minLen);
  }

  lemma TurnAtLeast(cfg: Config, s: State, now: int, minLen: nat)
    requires ValidConfig(cfg) && Invariant(cfg, s) && Enabled(cfg, s, DequeueTurn(now))
    requires AtLeast(s, minLen) && Front(s).Some?
    ensures var o := Turn(cfg, s, now);
            && !o.Idle? && AtLeast(o.s, minLen) && (o.Served? ==> |o.data| >= minLen)
  {
    var b := Front(s).value;
    if s.flows[b].deficit <= 0 {
      AtLeastExcept(s, TopUp(cfg, s, b), b, minLen);
    } else {
      CodelDequeueKeeps(cfg, s.flows[b], now);
      AfterCodelAtLeast(cfg, s, b, CodelDequeue(cfg, s.flows[b], now), minLen);
    }
    hide AtLeast, Invariant, GoodDequeue, CodelDequeue, TopUp;
  }

  lemma NextAtLeast(cfg: Config, s: State, e: Event, minLen: nat)
    requires ValidConfig(cfg) && Invariant(cfg, s) && Enabled(cfg, s, e)
    requires AtLeast(s, minLen) && ArrivesAtLeast(e, minLen)
    ensures AtLeast(Next(cfg, s, e), minLen)
    ensures Output(cfg, s, e).Some? ==> |Output(cfg, s, e).value.1| >= minLen
  {
    hide Turn, Invariant;
    match e
    case Arrival(b, p) => AtLeastExcept(s, Arrive(cfg, s, b, p), b, minLen);
    case OverflowDrop(b) => AtLeastExcept(s, Overflow(s, b), b, minLen);
    case DequeueTurn(now) =>
      hide AtLeast;
      if Front(s).Some? {
        TurnAtLeast(cfg, s, now, minLen);
      } else {
        NoTurn(cfg, s, now);
      }
  }
}
