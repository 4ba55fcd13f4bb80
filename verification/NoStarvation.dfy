/**
 No starvation: a flow with packets waits for a bounded number of bytes of the other flows,
 whatever arrives in the meantime.

 The proof follows a potential. Every other flow h can still take a number of bytes before flow
 g: what its deficit allows (Allowance), plus a full turn if it can become a new flow again.
 */
module NoStarvation {
  import opened Base
  import opened Codel
  import opened CodelLaw
  import opened FairQueue
  import opened FairQueueInvariant
  import opened Runs
  import opened WorkConserving

  /** h stands before the first g in the list. */
  predicate Before(l: seq<nat>, h: nat, g: nat) {
    l != [] && l[0] != g && (l[0] == h || Before(l[1..], h, g))
  }

  lemma {:induction false} BeforeAppend(l: seq<nat>, x: nat, h: nat, g: nat)
    requires g in l
    ensures Before(l + [x], h, g) <==> Before(l, h, g)
  {
    assert (l + [x])[0] == l[0];
    if l[0] != g && l[0] != h {
      assert (l + [x])[1..] == l[1..] + [x];
      BeforeAppend(l[1..], x, h, g);
    }
  }

  lemma {:induction false} BeforeIsMember(l: seq<nat>, h: nat, g: nat)
    requires Before(l, h, g)
    ensures h in l && h != g
  {
    if l[0] != h {
      BeforeIsMember(l[1..], h, g);
    }
  }

  // ---------------------------------------------------------------- the potential

  /** The bytes one whole turn can take: a quantum and the rest of the last packet. */
  function FullTurn(cfg: Config, maxLen: nat): int {
    cfg.quantum + maxLen - 1
  }

  /** The bytes a flow can take before its deficit is used up. */
  function Allowance(deficit: int, maxLen: nat): int {
    if deficit > 0 then deficit + maxLen - 1 else 0
  }

  /** The bytes flow h can take before g comes to the head of its list with nothing before it. */
  function Ahead(cfg: Config, s: State, maxLen: nat, g: nat, h: nat): int
    requires g in s.flows
  {
    if h == g then 0
    else if s.flows[g].inNew then
      if h in s.flows && s.flows[h].inNew && Before(s.newFlows, h, g)
      then Allowance(s.flows[h].deficit, maxLen)
      else 0
    else if h !in s.flows then FullTurn(cfg, maxLen)
    else if s.flows[h].inNew then Allowance(s.flows[h].deficit, maxLen)
    else if Before(s.oldFlows, h, g) then Allowance(s.flows[h].deficit, maxLen) + FullTurn(cfg, maxLen)
    else 0
  }

  function AheadOf(cfg: Config, s: State, maxLen: nat, g: nat): nat -> int
    requires g in s.flows
  {
    (h: nat) => Ahead(cfg, s, maxLen, g, h)
  }

  function Potential(cfg: Config, s: State, maxLen: nat, g: nat): int
    requires g in s.flows
  {
    Sum(AheadOf(cfg, s, maxLen, g), cfg.buckets)
  }

  lemma AheadBounds(cfg: Config, s: State, maxLen: nat, g: nat, h: nat)
    requires ValidConfig(cfg) && maxLen > 0 && Bounded(cfg, s, maxLen) && g in s.flows
    ensures 0 <= Ahead(cfg, s, maxLen, g, h) <= 2 * FullTurn(cfg, maxLen)
  {
  }

  /** At most two full turns of every flow but g. */
  function WaitBound(cfg: Config, maxLen: nat): int {
    (cfg.buckets - 1) * (2 * FullTurn(cfg, maxLen))
  }

  lemma {:induction false} SumAtMost(w: nat -> int, n: nat, hi: int)
    requires forall i: nat :: i < n ==> w(i) <= hi
    ensures Sum(w, n) <= n * hi
  {
    if n > 0 {
      SumAtMost(w, n - 1, hi);
      assert n * hi == (n - 1) * hi + hi;
    }
  }

  lemma {:induction false} SumBoundsBut(w: nat -> int, n: nat, hi: int, g: nat)
    requires forall i: nat :: i < n ==> w(i) <= hi
    requires g < n && w(g) == 0
    ensures Sum(w, n) <= (n - 1) * hi
  {
    if g == n - 1 {
      SumAtMost(w, n - 1, hi);
    } else {
      SumBoundsBut(w, n - 1, hi, g);
      assert (n - 1) * hi == (n - 2) * hi + hi;
    }
  }

  lemma PotentialBounds(cfg: Config, s: State, maxLen: nat, g: nat)
    requires ValidConfig(cfg) && maxLen > 0 && Bounded(cfg, s, maxLen)
    requires g in s.flows && g < cfg.buckets
    ensures 0 <= Potential(cfg, s, maxLen, g) <= WaitBound(cfg, maxLen)
  {
    var w := AheadOf(cfg, s, maxLen, g);
    forall h: nat
      ensures 0 <= w(h) <= 2 * FullTurn(cfg, maxLen)
    {
      AheadBounds(cfg, s, maxLen, g, h);
    }
    SumNonNegative(w, cfg.buckets);
    SumBoundsBut(w, cfg.buckets, 2 * FullTurn(cfg, maxLen), g);
  }

  /** Only flow b changes, and n bytes are paid out of what it can take before g. */
  ghost predicate Pays(cfg: Config, s: State, t: State, maxLen: nat, g: nat, b: nat, n: nat) {
    && g in s.flows && g in t.flows
    && (forall h: nat :: h != b ==> Ahead(cfg, t, maxLen, g, h) == Ahead(cfg, s, maxLen, g, h))
    && Ahead(cfg, t, maxLen, g, b) + n <= Ahead(cfg, s, maxLen, g, b)
  }

  lemma PotentialPays(cfg: Config, s: State, t: State, maxLen: nat, g: nat, b: nat, n: nat)
    requires b < cfg.buckets && Pays(cfg, s, t, maxLen, g, b, n)
    ensures Potential(cfg, t, maxLen, g) + n <= Potential(cfg, s, maxLen, g)
  {
    SumChange(AheadOf(cfg, s, maxLen, g), AheadOf(cfg, t, maxLen, g), b, cfg.buckets);
  }

  // ---------------------------------------------------------------- how the lists move

  /** The flow in front, b, went to the end of the old flows. */
  ghost predicate HeadToOld(s: State, t: State, b: nat) {
    && Front(s) == Some(b) && SameExcept(s, t, b)
    && b in s.flows && s.flows[b].inNew == (s.newFlows != [])
    && b in t.flows && !t.flows[b].inNew
    && t.newFlows == (if s.flows[b].inNew then s.newFlows[1..] else s.newFlows)
    && t.oldFlows == (if s.flows[b].inNew then s.oldFlows else s.oldFlows[1..]) + [b]
  }

  /** The flow in front, b, was forgotten. */
  ghost predicate HeadLeaves(s: State, t: State, b: nat) {
    && Front(s) == Some(b) && SameExcept(s, t, b)
    && b in s.flows && s.flows[b].inNew == (s.newFlows != []) && b !in t.flows
    && t.newFlows == (if s.flows[b].inNew then s.newFlows[1..] else s.newFlows)
    && t.oldFlows == (if s.flows[b].inNew then s.oldFlows else s.oldFlows[1..])
  }

  lemma TopUpMovesHead(cfg: Config, s: State, b: nat)
    requires ListsMatch(s) && Front(s) == Some(b)
    ensures b in s.flows
    ensures HeadToOld(s, TopUp(cfg, s, b), b)
  {
    FrontIsActive(s);
  }

  lemma EmptiedMovesHead(s: State, b: nat, r: Dequeued)
    requires ListsMatch(s) && Front(s) == Some(b)
    requires b in s.flows ==> r.f.inNew == s.flows[b].inNew
    ensures b in s.flows
    ensures var t := Emptied(Taken(s, b, r), b);
            if s.flows[b].inNew && s.oldFlows != [] then HeadToOld(s, t, b) else HeadLeaves(s, t, b)
  {
    FrontIsActive(s);
  }

  /** Taking the head off the list changes nobody else's place before g. */
  lemma BeforeTail(l: seq<nat>, h: nat, g: nat)
    requires l != [] && l[0] != g && l[0] != h
    ensures Before(l[1..], h, g) <==> Before(l, h, g)
  {
  }

  lemma LastIsNotBefore(l: seq<nat>, x: nat, g: nat)
    requires g in l && x !in l
    ensures !Before(l + [x], x, g)
  {
    BeforeAppend(l, x, x, g);
    if Before(l, x, g) {
      BeforeIsMember(l, x, g);
    }
  }

  lemma HeadToOldPays(cfg: Config, s: State, t: State, maxLen: nat, g: nat, b: nat)
    requires ValidConfig(cfg) && maxLen > 0
    requires ListsMatch(s) && HeadToOld(s, t, b) && g in s.flows && g != b
    ensures Pays(cfg, s, t, maxLen, g, b, 0)
  {
    forall h: nat | h != b
      ensures Ahead(cfg, t, maxLen, g, h) == Ahead(cfg, s, maxLen, g, h)
    {
      if s.flows[g].inNew {
        BeforeTail(s.newFlows, h, g);
      } else if s.flows[b].inNew {
        BeforeAppend(s.oldFlows, b, h, g);
      } else {
        BeforeTail(s.oldFlows, h, g);
        BeforeAppend(s.oldFlows[1..], b, h, g);
      }
    }
    if !s.flows[g].inNew {
      LastIsNotBefore(if s.flows[b].inNew then s.oldFlows else s.oldFlows[1..], b, g);
    }
  }

  lemma HeadLeavesPays(cfg: Config, s: State, t: State, maxLen: nat, g: nat, b: nat)
    requires ValidConfig(cfg) && maxLen > 0
    requires ListsMatch(s) && HeadLeaves(s, t, b) && g in s.flows && g != b
    requires s.flows[b].inNew ==> s.oldFlows == []
    ensures Pays(cfg, s, t, maxLen, g, b, 0)
  {
    forall h: nat | h != b
      ensures Ahead(cfg, t, maxLen, g, h) == Ahead(cfg, s, maxLen, g, h)
    {
      if s.flows[g].inNew {
        BeforeTail(s.newFlows, h, g);
      } else {
        BeforeTail(s.oldFlows, h, g);
      }
    }
  }

  // ---------------------------------------------------------------- the steps

  lemma ServedPays(cfg: Config, s: State, maxLen: nat, g: nat, b: nat, r: Dequeued)
    requires ValidConfig(cfg) && ListsMatch(s) && Front(s) == Some(b) && b in s.flows
    requires s.flows[b].deficit > 0 && GoodDequeue(cfg, s.flows[b], r)
    requires r.p.Some? && |r.p.value.data| <= maxLen
    requires g in s.flows && g != b
    ensures Pays(cfg, s, Passed(s, b, r, |r.p.value.data|), maxLen, g, b, |r.p.value.data|)
  {
    FrontIsActive(s);
  }

  lemma ArrivalPays(cfg: Config, s: State, maxLen: nat, g: nat, b: nat, p: Packet)
    requires ValidConfig(cfg) && maxLen > 0 && ListsMatch(s) && g in s.flows
    ensures Pays(cfg, s, Arrive(cfg, s, b, p), maxLen, g, b, 0)
  {
    var t := Arrive(cfg, s, b, p);
    if b !in s.flows && s.flows[g].inNew {
      forall h: nat
        ensures Before(t.newFlows, h, g) <==> Before(s.newFlows, h, g)
      {
        BeforeAppend(s.newFlows, b, h, g);
      }
      LastIsNotBefore(s.newFlows, b, g);
    }
  }

  lemma OverflowPays(cfg: Config, s: State, maxLen: nat, g: nat, b: nat)
    requires b in s.flows && s.flows[b].q != [] && g in s.flows
    ensures Pays(cfg, s, Overflow(s, b), maxLen, g, b, 0)
  {
  }

  /** Bytes the event passes on. */
  ghost function BytesOut(cfg: Config, s: State, e: Event): nat
    requires Enabled(cfg, s, e)
  {
    match Output(cfg, s, e)
    case None => 0
    case Some((b, data)) => |data|
  }

  lemma FailurePays(cfg: Config, s: State, maxLen: nat, g: nat, b: nat, r: Dequeued)
    requires ValidConfig(cfg) && maxLen > 0 && ListsMatch(s) && Front(s) == Some(b) && b in s.flows
    requires GoodDequeue(cfg, s.flows[b], r)
    requires g in s.flows && g != b
    ensures Pays(cfg, s, Emptied(Taken(s, b, r), b), maxLen, g, b, 0)
  {
    var t := Emptied(Taken(s, b, r), b);
    EmptiedMovesHead(s, b, r);
    if s.flows[b].inNew && s.oldFlows != [] {
      HeadToOldPays(cfg, s, t, maxLen, g, b);
    } else {
      HeadLeavesPays(cfg, s, t, maxLen, g, b);
    }
  }

  /** A turn of a flow other than g is paid for out of the potential. */
  lemma TurnPays(cfg: Config, s: State, now: int, maxLen: nat, g: nat)
    requires ValidConfig(cfg) && Invariant(cfg, s) && maxLen > 0 && Bounded(cfg, s, maxLen)
    requires Enabled(cfg, s, DequeueTurn(now)) && Front(s).Some? && Front(s) != Some(g) && g in s.flows
    ensures var e := DequeueTurn(now);
            Pays(cfg, s, Next(cfg, s, e), maxLen, g, Front(s).value, BytesOut(cfg, s, e))
  {
    hide FlowOk, Follows, Pays, HeadToOld, CodelDequeue, Ahead, Distinct, Conserved;
    var b := Front(s).value;
    FrontIsActive(s);
    if s.flows[b].deficit <= 0 {
      TopUpMovesHead(cfg, s, b);
      HeadToOldPays(cfg, s, TopUp(cfg, s, b), maxLen, g, b);
    } else {
      var r := CodelDequeue(cfg, s.flows[b], now);
      CodelDequeueKeeps(cfg, s.flows[b], now);
      if r.p.None? {
        FailurePays(cfg, s, maxLen, g, b, r);
      } else {
        AfterCodelBounded(cfg, s, b, r, maxLen);
        ServedPays(cfg, s, maxLen, g, b, r);
      }
    }
  }

  // ---------------------------------------------------------------- runs

  /** What is left for the others to take: the potential, and a whole round for each top-up g
      still needs. */
  function Budget(cfg: Config, s: State, maxLen: nat, g: nat): int
    requires ValidConfig(cfg) && g in s.flows
  {
    Potential(cfg, s, maxLen, g) + TopUps(cfg.quantum, s.flows[g].deficit) * WaitBound(cfg, maxLen)
  }

  lemma OneRoundLess(k: int, w: int)
    ensures (k - 1) * w + w == k * w
  {
  }

  /** g is topped up: it goes behind all others, but needs one top-up less. */
  lemma OwnTopUpPays(cfg: Config, s: State, maxLen: nat, g: nat)
    requires ValidConfig(cfg) && maxLen > 0 && Bounded(cfg, s, maxLen)
    requires g in s.flows && g < cfg.buckets && s.flows[g].deficit <= 0
    ensures g in TopUp(cfg, s, g).flows
    ensures Budget(cfg, TopUp(cfg, s, g), maxLen, g) <= Budget(cfg, s, maxLen, g)
  {
    hide WaitBound, Potential;
    TopUpBounded(cfg, s, g, maxLen);
    PotentialBounds(cfg, s, maxLen, g);
    PotentialBounds(cfg, TopUp(cfg, s, g), maxLen, g);
    OneRoundLess(TopUps(cfg.quantum, s.flows[g].deficit), WaitBound(cfg, maxLen));
  }

  /** Flow g keeps its deficit unless the event is its own turn. */
  lemma DeficitStays(cfg: Config, s: State, e: Event, g: nat)
    requires ValidConfig(cfg) && Invariant(cfg, s) && Enabled(cfg, s, e) && g in s.flows
    requires e.DequeueTurn? ==> Front(s) != Some(g)
    requires g in Next(cfg, s, e).flows
    ensures Next(cfg, s, e).flows[g].deficit == s.flows[g].deficit
  {
    hide Invariant, CodelDequeue;
  }

  /** In every state of the run g has a packet queued, and no event passes one of g's on. */
  ghost predicate Waits(cfg: Config, s: State, es: seq<Event>, g: nat)
    decreases |es|
  {
    && g in s.flows && s.flows[g].q != []
    && (es != [] ==>
          && Enabled(cfg, s, es[0])
          && (Output(cfg, s, es[0]).Some? ==> Output(cfg, s, es[0]).value.0 != g)
          && Waits(cfg, Next(cfg, s, es[0]), es[1..], g))
  }

  /** Bytes the run passes on. */
  ghost function RunBytesOut(cfg: Config, s: State, es: seq<Event>): nat
    decreases |es|
  {
    if es == [] || !Enabled(cfg, s, es[0]) then 0
    else BytesOut(cfg, s, es[0]) + RunBytesOut(cfg, Next(cfg, s, es[0]), es[1..])
  }

  /** An event that is not g's own turn is paid for out of the potential, and leaves g alone. */
  lemma OthersPay(cfg: Config, s: State, e: Event, maxLen: nat, g: nat)
    requires ValidConfig(cfg) && Invariant(cfg, s) && maxLen > 0 && Bounded(cfg, s, maxLen)
    requires Enabled(cfg, s, e) && g in s.flows && (e.DequeueTurn? ==> Front(s) != Some(g))
    ensures g in Next(cfg, s, e).flows
    ensures Potential(cfg, Next(cfg, s, e), maxLen, g) + BytesOut(cfg, s, e) <= Potential(cfg, s, maxLen, g)
  {
    hide Potential;
    var t := Next(cfg, s, e);
    FrontIsActive(s);
    match e {
      case Arrival(b, p) =>
        ArrivalPays(cfg, s, maxLen, g, b, p);
        PotentialPays(cfg, s, t, maxLen, g, b, 0);
      case OverflowDrop(b) =>
        OverflowPays(cfg, s, maxLen, g, b);
        PotentialPays(cfg, s, t, maxLen, g, b, 0);
      case DequeueTurn(now) =>
        if Front(s).Some? {
          TurnPays(cfg, s, now, maxLen, g);
          PotentialPays(cfg, s, t, maxLen, g, Front(s).value, BytesOut(cfg, s, e));
        }
    }
  }

  lemma StepPays(cfg: Config, s: State, e: Event, maxLen: nat, g: nat)
    requires ValidConfig(cfg) && Invariant(cfg, s) && maxLen > 0 && Bounded(cfg, s, maxLen)
    requires Enabled(cfg, s, e) && g in s.flows && s.flows[g].q != []
    requires Output(cfg, s, e).Some? ==> Output(cfg, s, e).value.0 != g
    ensures g in Next(cfg, s, e).flows
    ensures Budget(cfg, Next(cfg, s, e), maxLen, g) + BytesOut(cfg, s, e) <= Budget(cfg, s, maxLen, g)
  {
    if e.DequeueTurn? && Front(s) == Some(g) {
      TurnKeeps(cfg, s, e.now);
      OwnTopUpPays(cfg, s, maxLen, g);
    } else {
      OthersPay(cfg, s, e, maxLen, g);
      DeficitStays(cfg, s, e, g);
    }
  }

  lemma NotNegative(k: nat, w: int)
    requires w >= 0
    ensures k * w >= 0
  {
  }

  lemma BudgetIsNotNegative(cfg: Config, s: State, maxLen: nat, g: nat)
    requires ValidConfig(cfg) && maxLen > 0 && Bounded(cfg, s, maxLen)
    requires g in s.flows && g < cfg.buckets
    ensures Budget(cfg, s, maxLen, g) >= 0
  {
    hide WaitBound, Potential;
    PotentialBounds(cfg, s, maxLen, g);
    NotNegative(TopUps(cfg.quantum, s.flows[g].deficit), WaitBound(cfg, maxLen));
  }

  lemma {:induction false} BudgetPays(cfg: Config, s: State, es: seq<Event>, maxLen: nat, g: nat)
    requires ValidConfig(cfg) && Invariant(cfg, s) && maxLen > 0 && Bounded(cfg, s, maxLen)
    requires forall e :: e in es ==> ArrivesBounded(e, maxLen)
    requires Waits(cfg, s, es, g)
    ensures RunBytesOut(cfg, s, es) <= Budget(cfg, s, maxLen, g)
    decreases |es|
  {
    assert g < cfg.buckets;
    BudgetIsNotNegative(cfg, s, maxLen, g);
    hide Budget, Invariant, Bounded, Next;
    if es == [] {
    } else {
      var t := Next(cfg, s, es[0]);
      StepPays(cfg, s, es[0], maxLen, g);
      NextKeeps(cfg, s, es[0]);
      NextBounded(cfg, s, es[0], maxLen);
      BudgetPays(cfg, t, es[1..], maxLen, g);
    }
  }

  lemma BudgetIsWithin(cfg: Config, s: State, maxLen: nat, g: nat)
    requires ValidConfig(cfg) && maxLen > 0 && Bounded(cfg, s, maxLen) && g in s.flows && g < cfg.buckets
    ensures Budget(cfg, s, maxLen, g) <= (TopUps(cfg.quantum, s.flows[g].deficit) + 1) * WaitBound(cfg, maxLen)
  {
    hide WaitBound, Potential, Bounded, TopUps;
    PotentialBounds(cfg, s, maxLen, g);
    OneRoundLess(TopUps(cfg.quantum, s.flows[g].deficit) + 1, WaitBound(cfg, maxLen));
  }

  /** Main result: no starvation. From any state, for every run of arrivals, overflow drops and
      dequeue turns in which flow g always has a packet queued and none of its packets is passed
      on, no more bytes are passed on than two full turns of every other flow, and two more for
      each top-up g needs before it may send. */
  lemma NoFlowStarves(cfg: Config, s: State, es: seq<Event>, maxLen: nat, g: nat)
    requires ValidConfig(cfg) && Invariant(cfg, s) && maxLen > 0 && Bounded(cfg, s, maxLen)
    requires forall e :: e in es ==> ArrivesBounded(e, maxLen)
    requires Waits(cfg, s, es, g)
    ensures RunBytesOut(cfg, s, es) <= (TopUps(cfg.quantum, s.flows[g].deficit) + 1) * WaitBound(cfg, maxLen)
  {
    assert g < cfg.buckets;
    hide Budget, WaitBound, Invariant, Bounded, RunBytesOut, TopUps;
    BudgetPays(cfg, s, es, maxLen, g);
    BudgetIsWithin(cfg, s, maxLen, g);
  }

  /** TopUps is the least number of quanta that makes the deficit positive. */
  lemma {:induction false} TopUpsAreNeeded(quantum: int, deficit: int)
    requires quantum > 0
    ensures deficit + TopUps(quantum, deficit) * quantum > 0
    ensures deficit <= 0 ==> deficit + (TopUps(quantum, deficit) - 1) * quantum <= 0
    decreases -deficit
  {
    if deficit <= 0 {
      TopUpsAreNeeded(quantum, deficit + quantum);
      OneRoundLess(TopUps(quantum, deficit), quantum);
      OneRoundLess(TopUps(quantum, deficit) - 1, quantum);
    }
  }

  /** No dequeue turn of the run finds g in front. */
  ghost predicate NeverInFront(cfg: Config, s: State, es: seq<Event>, g: nat)
    decreases |es|
  {
    es != [] ==>
      && Enabled(cfg, s, es[0])
      && (es[0].DequeueTurn? ==> Front(s) != Some(g))
      && NeverInFront(cfg, Next(cfg, s, es[0]), es[1..], g)
  }

  lemma {:induction false} PotentialPaysForRun(cfg: Config, s: State, es: seq<Event>, maxLen: nat, g: nat)
    requires ValidConfig(cfg) && Invariant(cfg, s) && maxLen > 0 && Bounded(cfg, s, maxLen)
    requires forall e :: e in es ==> ArrivesBounded(e, maxLen)
    requires g in s.flows && NeverInFront(cfg, s, es, g)
    ensures RunBytesOut(cfg, s, es) <= Potential(cfg, s, maxLen, g)
    decreases |es|
  {
    assert g < cfg.buckets;
    hide Potential, Invariant, Bounded, Next;
    if es == [] {
      PotentialBounds(cfg, s, maxLen, g);
    } else {
      OthersPay(cfg, s, es[0], maxLen, g);
      NextKeeps(cfg, s, es[0]);
      NextBounded(cfg, s, es[0], maxLen);
      PotentialPaysForRun(cfg, Next(cfg, s, es[0]), es[1..], maxLen, g);
    }
  }

  /** Main result: at most two full turns of every other flow are passed on before g comes to the
      front, even when g has no packet and whatever arrives for the others. */
  lemma FrontIsReached(cfg: Config, s: State, es: seq<Event>, maxLen: nat, g: nat)
    requires ValidConfig(cfg) && Invariant(cfg, s) && maxLen > 0 && Bounded(cfg, s, maxLen)
    requires forall e :: e in es ==> ArrivesBounded(e, maxLen)
    requires g in s.flows && NeverInFront(cfg, s, es, g)
    ensures RunBytesOut(cfg, s, es) <= WaitBound(cfg, maxLen)
  {
    assert g < cfg.buckets;
    hide WaitBound, Potential, Invariant, Bounded;
    PotentialPaysForRun(cfg, s, es, maxLen, g);
    PotentialBounds(cfg, s, maxLen, g);
  }
}
