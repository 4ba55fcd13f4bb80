/**
 Byte fairness: two flows that stay on the old list get nearly the same number of bytes.

 The proof is a conservation law. The lead of g over h, its deficit minus h's plus a quantum when
 g stands before h, falls by exactly the bytes g gets and rises by those h gets.
 */
module Fairness {
  import opened Base
  import opened Codel
  import opened CodelLaw
  import opened FairQueue
  import opened FairQueueInvariant
  import opened Runs
  import opened NoStarvation

  ghost predicate OnOld(s: State, g: nat) {
    g in s.flows && !s.flows[g].inNew
  }

  function Lead(cfg: Config, s: State, g: nat, h: nat): int
    requires g in s.flows && h in s.flows
  {
    s.flows[g].deficit - s.flows[h].deficit + if Before(s.oldFlows, g, h) then cfg.quantum else 0
  }

  /** Bytes of flow g the event passes on. */
  ghost function BytesFor(cfg: Config, s: State, e: Event, g: nat): nat
    requires Enabled(cfg, s, e)
  {
    match Output(cfg, s, e)
    case None => 0
    case Some((b, data)) => if b == g then |data| else 0
  }

  // ---------------------------------------------------------------- list order

  lemma {:induction false} BeforeOne(l: seq<nat>, g: nat, h: nat)
    requires g in l && h in l && g != h
    ensures Before(l, g, h) <==> !Before(l, h, g)
  {
    if l[0] != g && l[0] != h {
      BeforeOne(l[1..], g, h);
    }
  }

  /** The head h of the list goes to its end: every other member g comes before it. */
  lemma HeadGoesLast(l: seq<nat>, g: nat)
    requires Distinct(l) && l != [] && g in l && g != l[0]
    ensures Before(l, l[0], g) && !Before(l, g, l[0])
    ensures Before(l[1..] + [l[0]], g, l[0]) && !Before(l[1..] + [l[0]], l[0], g)
  {
    var r := l[1..] + [l[0]];
    LastIsNotBefore(l[1..], l[0], g);
    BeforeOne(r, g, l[0]);
  }

  lemma HeadToOldOrder(s: State, t: State, b: nat, g: nat, h: nat)
    requires ListsMatch(s) && HeadToOld(s, t, b) && OnOld(s, g) && OnOld(s, h)
    requires b != g && b != h
    ensures Before(t.oldFlows, g, h) <==> Before(s.oldFlows, g, h)
  {
    if s.flows[b].inNew {
      BeforeAppend(s.oldFlows, b, g, h);
    } else {
      BeforeTail(s.oldFlows, g, h);
      BeforeAppend(s.oldFlows[1..], b, g, h);
    }
  }

  lemma HeadLeavesOrder(s: State, t: State, b: nat, g: nat, h: nat)
    requires ListsMatch(s) && HeadLeaves(s, t, b) && OnOld(s, g) && OnOld(s, h)
    requires b != g && b != h
    ensures Before(t.oldFlows, g, h) <==> Before(s.oldFlows, g, h)
  {
    if !s.flows[b].inNew {
      BeforeTail(s.oldFlows, g, h);
    }
  }

  // ---------------------------------------------------------------- the conservation law

  lemma TopUpKeepsLead(cfg: Config, s: State, b: nat, g: nat, h: nat)
    requires ListsMatch(s) && Front(s) == Some(b) && OnOld(s, g) && OnOld(s, h) && g != h
    ensures b in s.flows && OnOld(TopUp(cfg, s, b), g) && OnOld(TopUp(cfg, s, b), h)
    ensures Lead(cfg, TopUp(cfg, s, b), g, h) == Lead(cfg, s, g, h)
  {
    var t := TopUp(cfg, s, b);
    FrontIsActive(s);
    TopUpMovesHead(cfg, s, b);
    if b == g {
      HeadGoesLast(s.oldFlows, h);
    } else if b == h {
      HeadGoesLast(s.oldFlows, g);
    } else {
      HeadToOldOrder(s, t, b, g, h);
    }
  }

  lemma FailureKeepsLead(cfg: Config, s: State, b: nat, r: Dequeued, g: nat, h: nat)
    requires ListsMatch(s) && Front(s) == Some(b) && b in s.flows && GoodDequeue(cfg, s.flows[b], r)
    requires OnOld(s, g) && OnOld(s, h) && g != h
    requires OnOld(Emptied(Taken(s, b, r), b), g) && OnOld(Emptied(Taken(s, b, r), b), h)
    ensures Lead(cfg, Emptied(Taken(s, b, r), b), g, h) == Lead(cfg, s, g, h)
  {
    var t := Emptied(Taken(s, b, r), b);
    EmptiedMovesHead(s, b, r);
    if s.flows[b].inNew && s.oldFlows != [] {
      HeadToOldOrder(s, t, b, g, h);
    } else {
      HeadLeavesOrder(s, t, b, g, h);
    }
  }

  lemma PassedMovesLead(cfg: Config, s: State, b: nat, r: Dequeued, n: nat, g: nat, h: nat)
    requires b in s.flows && GoodDequeue(cfg, s.flows[b], r) && g in s.flows && h in s.flows && g != h
    ensures var t := Passed(s, b, r, n);
            Lead(cfg, s, g, h) - Lead(cfg, t, g, h) == (if b == g then n else 0) - (if b == h then n else 0)
  {
  }

  lemma TurnKeepsLead(cfg: Config, s: State, now: int, g: nat, h: nat)
    requires ValidConfig(cfg) && Invariant(cfg, s) && Enabled(cfg, s, DequeueTurn(now)) && Front(s).Some?
    requires OnOld(s, g) && OnOld(s, h) && g != h
    requires var t := Next(cfg, s, DequeueTurn(now)); OnOld(t, g) && OnOld(t, h)
    ensures var e := DequeueTurn(now);
            Lead(cfg, s, g, h) - Lead(cfg, Next(cfg, s, e), g, h) == BytesFor(cfg, s, e, g) - BytesFor(cfg, s, e, h)
  {
    hide Lead, FlowOk, Follows, ListsMatch, Conserved;
    var b := Front(s).value;
    if s.flows[b].deficit <= 0 {
      TopUpKeepsLead(cfg, s, b, g, h);
    } else {
      var r := CodelDequeue(cfg, s.flows[b], now);
      CodelDequeueKeeps(cfg, s.flows[b], now);
      if r.p.None? {
        FailureKeepsLead(cfg, s, b, r, g, h);
      } else {
        PassedMovesLead(cfg, s, b, r, |r.p.value.data|, g, h);
      }
    }
  }

  lemma NextKeepsLead(cfg: Config, s: State, e: Event, g: nat, h: nat)
    requires ValidConfig(cfg) && Invariant(cfg, s) && Enabled(cfg, s, e)
    requires OnOld(s, g) && OnOld(s, h) && g != h
    requires OnOld(Next(cfg, s, e), g) && OnOld(Next(cfg, s, e), h)
    ensures Lead(cfg, s, g, h) - Lead(cfg, Next(cfg, s, e), g, h)
            == BytesFor(cfg, s, e, g) - BytesFor(cfg, s, e, h)
  {
    if e.DequeueTurn? && Front(s).Some? {
      TurnKeepsLead(cfg, s, e.now, g, h);
    }
  }

  /** Both flows are on the old list in every state of the run. */
  ghost predicate BothStayOld(cfg: Config, s: State, es: seq<Event>, g: nat, h: nat)
    decreases |es|
  {
    && OnOld(s, g) && OnOld(s, h)
    && (es != [] ==> Enabled(cfg, s, es[0]) && BothStayOld(cfg, Next(cfg, s, es[0]), es[1..], g, h))
  }

  /** Bytes of flow g the run passes on. */
  ghost function RunBytesFor(cfg: Config, s: State, es: seq<Event>, g: nat): nat
    decreases |es|
  {
    if es == [] || !Enabled(cfg, s, es[0]) then 0
    else BytesFor(cfg, s, es[0], g) + RunBytesFor(cfg, Next(cfg, s, es[0]), es[1..], g)
  }

  lemma LeadBounds(cfg: Config, s: State, maxLen: nat, g: nat, h: nat)
    requires ValidConfig(cfg) && maxLen > 0 && Bounded(cfg, s, maxLen) && g in s.flows && h in s.flows
    ensures -(cfg.quantum + maxLen - 1) <= Lead(cfg, s, g, h) <= 2 * cfg.quantum + maxLen - 1
  {
  }

  lemma {:induction false} RunConservesLead(
    cfg: Config, s: State, es: seq<Event>, t: State, maxLen: nat, g: nat, h: nat)
    requires ValidConfig(cfg) && Invariant(cfg, s) && Leads(cfg, s, es, t)
    requires maxLen > 0 && Bounded(cfg, s, maxLen) && forall e :: e in es ==> ArrivesBounded(e, maxLen)
    requires g != h && BothStayOld(cfg, s, es, g, h)
    ensures g in t.flows && h in t.flows && Bounded(cfg, t, maxLen)
    ensures RunBytesFor(cfg, s, es, g) - RunBytesFor(cfg, s, es, h) == Lead(cfg, s, g, h) - Lead(cfg, t, g, h)
    decreases |es|
  {
    if es != [] {
      NextKeepsLead(cfg, s, es[0], g, h);
      NextKeeps(cfg, s, es[0]);
      NextBounded(cfg, s, es[0], maxLen);
      RunConservesLead(cfg, Next(cfg, s, es[0]), es[1..], t, maxLen, g, h);
    }
  }

  /** Main result: byte fairness. Over every run in which flows g and h stay on the old list, the
      bytes they get differ by at most three quanta and the rests of two packets, whatever their
      packet sizes are and whatever the other flows do. */
  lemma OldFlowsShareFairly(cfg: Config, s: State, es: seq<Event>, t: State, maxLen: nat, g: nat, h: nat)
    requires ValidConfig(cfg) && Invariant(cfg, s) && Leads(cfg, s, es, t)
    requires maxLen > 0 && Bounded(cfg, s, maxLen) && forall e :: e in es ==> ArrivesBounded(e, maxLen)
    requires g != h && BothStayOld(cfg, s, es, g, h)
    ensures -(3 * cfg.quantum + 2 * maxLen - 2)
            <= RunBytesFor(cfg, s, es, g) - RunBytesFor(cfg, s, es, h)
            <= 3 * cfg.quantum + 2 * maxLen - 2
  {
    RunConservesLead(cfg, s, es, t, maxLen, g, h);
    LeadBounds(cfg, s, maxLen, g, h);
    LeadBounds(cfg, t, maxLen, g, h);
  }

  lemma AfterCodelStaysOld(cfg: Config, s: State, b: nat, r: Dequeued, g: nat)
    requires b in s.flows && GoodDequeue(cfg, s.flows[b], r)
    requires OnOld(s, g) && s.flows[g].q != []
    ensures OnOld(AfterCodel(s, b, r).s, g)
  {
  }

  /** A flow on the old list stays there as long as it has a packet queued. */
  lemma BackloggedStaysOld(cfg: Config, s: State, e: Event, g: nat)
    requires ValidConfig(cfg) && Invariant(cfg, s) && Enabled(cfg, s, e)
    requires OnOld(s, g) && s.flows[g].q != []
    ensures OnOld(Next(cfg, s, e), g)
  {
    hide AfterCodel, GoodDequeue;
    if e.DequeueTurn? && Front(s).Some? && s.flows[Front(s).value].deficit > 0 {
      var b := Front(s).value;
      CodelDequeueKeeps(cfg, s.flows[b], e.now);
      AfterCodelStaysOld(cfg, s, b, CodelDequeue(cfg, s.flows[b], e.now), g);
    }
  }

  /** Both flows have a packet queued in every state of the run. */
  ghost predicate BothBacklogged(cfg: Config, s: State, es: seq<Event>, g: nat, h: nat)
    decreases |es|
  {
    && g in s.flows && s.flows[g].q != [] && h in s.flows && s.flows[h].q != []
    && (es != [] ==> Enabled(cfg, s, es[0]) && BothBacklogged(cfg, Next(cfg, s, es[0]), es[1..], g, h))
  }

  /** Two old flows stay on the old list, and so share fairly, as long as both have packets. */
  lemma {:induction false} BackloggedFlowsStayOld(cfg: Config, s: State, es: seq<Event>, g: nat, h: nat)
    requires ValidConfig(cfg) && Invariant(cfg, s)
    requires OnOld(s, g) && OnOld(s, h) && BothBacklogged(cfg, s, es, g, h)
    ensures BothStayOld(cfg, s, es, g, h)
    decreases |es|
  {
    if es != [] {
      BackloggedStaysOld(cfg, s, es[0], g);
      BackloggedStaysOld(cfg, s, es[0], h);
      NextKeeps(cfg, s, es[0]);
      BackloggedFlowsStayOld(cfg, Next(cfg, s, es[0]), es[1..], g, h);
    }
  }
}
