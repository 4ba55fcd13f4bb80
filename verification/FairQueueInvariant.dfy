/** Every step of the scheduler keeps its invariant. */
module FairQueueInvariant {
  import opened Base
  import opened Codel
  import opened CodelLaw
  import opened FairQueue

  // ---------------------------------------------------------------- lists

  lemma {:induction false} WithoutMember(l: seq<nat>, b: nat)
    requires Distinct(l)
    ensures Distinct(Without(l, b))
    ensures forall x :: x in Without(l, b) <==> x in l && x != b
  {
    if l != [] {
      WithoutMember(l[1..], b);
      assert forall x :: x in l <==> x == l[0] || x in l[1..];
      if l[0] == b {
        assert b !in l[1..];
      } else {
        var w := Without(l[1..], b);
        assert Without(l, b) == [l[0]] + w;
        assert l[0] !in l[1..];
      }
    }
  }

  lemma AppendMember(l: seq<nat>, b: nat)
    requires Distinct(l) && b !in l
    ensures Distinct(l + [b])
    ensures forall x :: x in l + [b] <==> x in l || x == b
  {
  }

  // ---------------------------------------------------------------- sums

  /** The two states hold the same flows in every bucket but b. */
  ghost predicate SameExcept(s: State, t: State, b: nat) {
    forall c: nat :: c != b ==>
      && (c in s.flows <==> c in t.flows)
      && (c in s.flows ==> t.flows[c] == s.flows[c])
  }

  lemma SumsChange(cfg: Config, s: State, t: State, b: nat)
    requires b < cfg.buckets && SameExcept(s, t, b)
    ensures Sum(BytesAt(t), cfg.buckets) - Sum(BytesAt(s), cfg.buckets) == BytesAt(t)(b) - BytesAt(s)(b)
    ensures Sum(PacketsAt(t), cfg.buckets) - Sum(PacketsAt(s), cfg.buckets) == PacketsAt(t)(b) - PacketsAt(s)(b)
  {
    SumChange(BytesAt(s), BytesAt(t), b, cfg.buckets);
    SumChange(PacketsAt(s), PacketsAt(t), b, cfg.buckets);
  }

  lemma FlowsOkExcept(cfg: Config, s: State, t: State, b: nat)
    requires FlowsOk(cfg, s) && SameExcept(s, t, b)
    requires b in t.flows ==> b < cfg.buckets && FlowInvariant(cfg, t.flows[b])
    ensures FlowsOk(cfg, t)
  {
    forall c | c in t.flows
      ensures c < cfg.buckets && FlowInvariant(cfg, t.flows[c])
    {
      if c != b {
        assert c in s.flows && t.flows[c] == s.flows[c];
      }
    }
  }

  function QueuedPackets(cfg: Config, s: State): nat {
    SumNonNegative(PacketsAt(s), cfg.buckets);
    Sum(PacketsAt(s), cfg.buckets)
  }

  function Outgoing(st: Stats): nat {
    st.dequeued + st.codelDrops + st.overflowDrops
  }

  // ---------------------------------------------------------------- steps

  /** A step that only changes what flow b holds, and counts what left the queue. */
  lemma ReplaceKeeps(cfg: Config, s: State, t: State, b: nat, f: FlowState)
    requires Invariant(cfg, s) && b in s.flows
    requires t.flows == s.flows[b := f] && t.newFlows == s.newFlows && t.oldFlows == s.oldFlows
    requires FlowInvariant(cfg, f) && f.inNew == s.flows[b].inNew
    requires t.total - s.total == f.bytes - s.flows[b].bytes
    requires t.stats.enqueued == s.stats.enqueued
    requires Outgoing(t.stats) - Outgoing(s.stats) == |s.flows[b].q| - |f.q|
    ensures Invariant(cfg, t)
  {
    hide FlowInvariant;
    assert FlowsOk(cfg, t) by { FlowsOkExcept(cfg, s, t, b); }
    assert Conserved(cfg, t) by { SumsChange(cfg, s, t, b); }
  }

  lemma NewFlowOk(cfg: Config)
    ensures FlowInvariant(cfg, NewFlow(cfg))
  {
  }

  lemma AppendOk(cfg: Config, f: FlowState, p: Packet)
    requires FlowInvariant(cfg, f)
    ensures FlowInvariant(cfg, Append(f, p))
  {
    QueuedBytesAppend(f.q, p);
  }

  lemma PopHeadOk(cfg: Config, f: FlowState)
    requires FlowInvariant(cfg, f) && f.q != []
    ensures FlowInvariant(cfg, PopHead(f))
  {
  }

  lemma ArriveKeepsLists(cfg: Config, s: State, b: nat, p: Packet)
    requires ListsMatch(s)
    ensures ListsMatch(Arrive(cfg, s, b, p))
  {
    if b !in s.flows {
      AppendMember(s.newFlows, b);
    }
  }

  lemma ArriveKeepsFlows(cfg: Config, s: State, b: nat, p: Packet)
    requires FlowsOk(cfg, s) && b < cfg.buckets
    ensures FlowsOk(cfg, Arrive(cfg, s, b, p))
  {
    hide FlowInvariant, NewFlow, Append;
    NewFlowOk(cfg);
    if b in s.flows {
      AppendOk(cfg, s.flows[b], p);
    } else {
      AppendOk(cfg, NewFlow(cfg), p);
    }
    FlowsOkExcept(cfg, s, Arrive(cfg, s, b, p), b);
  }

  lemma ArriveKeeps(cfg: Config, s: State, b: nat, p: Packet)
    requires Invariant(cfg, s) && b < cfg.buckets
    ensures Invariant(cfg, Arrive(cfg, s, b, p))
  {
    hide FlowsOk, ListsMatch;
    ArriveKeepsLists(cfg, s, b, p);
    ArriveKeepsFlows(cfg, s, b, p);
    SumsChange(cfg, s, Arrive(cfg, s, b, p), b);
  }

  lemma OverflowKeeps(cfg: Config, s: State, b: nat)
    requires Invariant(cfg, s) && b in s.flows && s.flows[b].q != []
    ensures Invariant(cfg, Overflow(s, b))
  {
    PopHeadOk(cfg, s.flows[b]);
    ReplaceKeeps(cfg, s, Overflow(s, b), b, PopHead(s.flows[b]));
  }

  lemma BytesOfFlow(cfg: Config, f: FlowState)
    requires FlowInvariant(cfg, f)
    ensures f.bytes >= 0 && (f.q == [] ==> f.bytes == 0)
  {
  }

  lemma NoFatterThan(cfg: Config, s: State, b: nat, c: nat)
    requires ListsMatch(s) && FlowsOk(cfg, s) && IsFattest(s, b)
    ensures s.flows[b].bytes >= 0
    ensures BytesAt(s)(c) <= if c in s.newFlows + s.oldFlows then s.flows[b].bytes else 0
  {
    hide FlowInvariant;
    BytesOfFlow(cfg, s.flows[b]);
    if c in s.flows {
      BytesOfFlow(cfg, s.flows[c]);
    }
  }

  lemma NoneIsFatter(cfg: Config, s: State, b: nat)
    requires Invariant(cfg, s) && IsFattest(s, b)
    ensures b in s.flows && s.flows[b].bytes >= 0 && s.total == Sum(BytesAt(s), cfg.buckets)
    ensures forall c: nat :: c < cfg.buckets ==>
              BytesAt(s)(c) <= if c in s.newFlows + s.oldFlows then s.flows[b].bytes else 0
  {
    assert b in s.flows;
    NoFatterThan(cfg, s, b, b);
    hide ListsMatch, FlowsOk, IsFattest, BytesAt;
    forall c: nat | c < cfg.buckets
      ensures BytesAt(s)(c) <= if c in s.newFlows + s.oldFlows then s.flows[b].bytes else 0
    {
      NoFatterThan(cfg, s, b, c);
    }
  }

  /** The flow an overflow takes from holds at least its share of all bytes, so no flow within its share of
      the limit ever loses a packet to an overflow. */
  lemma OverflowSparesSmallFlows(cfg: Config, s: State, b: nat)
    requires Invariant(cfg, s) && IsFattest(s, b)
    ensures s.total <= (|s.newFlows| + |s.oldFlows|) * s.flows[b].bytes
  {
    hide *;
    NoneIsFatter(cfg, s, b);
    SumOfFew(BytesAt(s), cfg.buckets, s.newFlows + s.oldFlows, s.flows[b].bytes);
  }

  lemma OverflowTakesOne(cfg: Config, s: State, b: nat)
    requires b < cfg.buckets && b in s.flows && s.flows[b].q != []
    ensures QueuedPackets(cfg, Overflow(s, b)) == QueuedPackets(cfg, s) - 1
  {
    SumsChange(cfg, s, Overflow(s, b), b);
  }

  lemma DeficitOk(cfg: Config, f: FlowState, n: int)
    requires FlowInvariant(cfg, f)
    ensures FlowInvariant(cfg, f.(deficit := f.deficit + n))
  {
  }

  lemma AddDeficitKeeps(cfg: Config, s: State, b: nat, n: int)
    requires Invariant(cfg, s) && b in s.flows
    ensures Invariant(cfg, AddDeficit(s, b, n))
  {
    hide ListsMatch, Conserved, FlowInvariant;
    var f := s.flows[b].(deficit := s.flows[b].deficit + n);
    DeficitOk(cfg, s.flows[b], n);
    ReplaceKeeps(cfg, s, AddDeficit(s, b, n), b, f);
  }

  lemma MoveToOldKeepsLists(s: State, b: nat)
    requires ListsMatch(s) && b in s.flows
    ensures ListsMatch(MoveToOld(s, b))
  {
    WithoutMember(s.newFlows, b);
    WithoutMember(s.oldFlows, b);
    AppendMember(Unlink(s, b).oldFlows, b);
  }

  lemma MoveToOldKeeps(cfg: Config, s: State, b: nat)
    requires Invariant(cfg, s) && b in s.flows
    ensures Invariant(cfg, MoveToOld(s, b))
  {
    var t := MoveToOld(s, b);
    MoveToOldKeepsLists(s, b);
    FlowsOkExcept(cfg, s, t, b);
    SumsChange(cfg, s, t, b);
  }

  lemma DeactivateKeepsLists(s: State, b: nat)
    requires ListsMatch(s) && b in s.flows
    ensures ListsMatch(Deactivate(s, b))
  {
    WithoutMember(s.newFlows, b);
    WithoutMember(s.oldFlows, b);
  }

  lemma DeactivateKeeps(cfg: Config, s: State, b: nat)
    requires Invariant(cfg, s) && b in s.flows && s.flows[b].q == []
    ensures Invariant(cfg, Deactivate(s, b))
  {
    var t := Deactivate(s, b);
    DeactivateKeepsLists(s, b);
    FlowsOkExcept(cfg, s, t, b);
    SumsChange(cfg, s, t, b);
  }

  /** The head of the lists is an active flow on the list its flag names. */
  lemma FrontIsActive(s: State)
    requires ListsMatch(s)
    ensures Front(s).Some? ==> Front(s).value in s.flows
    ensures Front(s).Some? ==> s.flows[Front(s).value].inNew == (s.newFlows != [])
    ensures Front(s).None? ==> s.flows == map[]
  {
    if Front(s).Some? {
      var b := Front(s).value;
      assert b in s.newFlows || b in s.oldFlows;
      if s.newFlows == [] {
        assert b in s.oldFlows;
      }
    } else {
      assert forall b :: b !in s.flows;
    }
  }

  lemma EmptiedKeeps(cfg: Config, s: State, b: nat)
    requires Invariant(cfg, s) && b in s.flows && s.flows[b].q == []
    ensures Invariant(cfg, Emptied(s, b))
  {
    if s.flows[b].inNew && s.oldFlows != [] {
      MoveToOldKeeps(cfg, s, b);
    } else {
      DeactivateKeeps(cfg, s, b);
    }
  }

  lemma FailedKeeps(cfg: Config, s: State, b: nat, r: Dequeued)
    requires Invariant(cfg, s) && b in s.flows && s.flows[b].q == []
    requires GoodDequeue(cfg, s.flows[b], r)
    ensures AfterCodel(s, b, r).Again?
    ensures Invariant(cfg, AfterCodel(s, b, r).s)
  {
    var t := Taken(s, b, r);
    ReplaceKeeps(cfg, s, t, b, r.f);
    EmptiedKeeps(cfg, t, b);
  }

  lemma ServedKeeps(cfg: Config, s: State, b: nat, r: Dequeued)
    requires Invariant(cfg, s) && b in s.flows && s.flows[b].q != []
    requires GoodDequeue(cfg, s.flows[b], r)
    ensures AfterCodel(s, b, r).Served?
    ensures Invariant(cfg, AfterCodel(s, b, r).s)
  {
    var n := |r.p.value.data|;
    ReplaceKeeps(cfg, s, Passed(s, b, r, n), b, Charge(r.f, n));
  }

  /** One turn of dequeueLocked: idle only when no flow is active, and a packet is passed on
      exactly when the flow in front has credit and a packet. */
  lemma TurnKeeps(cfg: Config, s: State, now: int)
    requires ValidConfig(cfg) && Invariant(cfg, s)
    ensures Front(s).Some? ==> Front(s).value in s.flows
    ensures Turn(cfg, s, now).Idle? ==> s.flows == map[]
    ensures !Turn(cfg, s, now).Idle? ==> Invariant(cfg, Turn(cfg, s, now).s)
    ensures Turn(cfg, s, now).Served? <==>
            Front(s).Some? && s.flows[Front(s).value].deficit > 0 && s.flows[Front(s).value].q != []
  {
    FrontIsActive(s);
    if Front(s).Some? {
      var b := Front(s).value;
      if s.flows[b].deficit <= 0 {
        AddDeficitKeeps(cfg, s, b, cfg.quantum);
        MoveToOldKeeps(cfg, AddDeficit(s, b, cfg.quantum), b);
      } else {
        CodelDequeueKeeps(cfg, s.flows[b], now);
        if s.flows[b].q == [] {
          FailedKeeps(cfg, s, b, CodelDequeue(cfg, s.flows[b], now));
        } else {
          ServedKeeps(cfg, s, b, CodelDequeue(cfg, s.flows[b], now));
        }
      }
    }
  }

  lemma {:induction false} BelowCardinality(s: set<nat>, n: nat)
    requires forall b :: b in s ==> b < n
    ensures |s| <= n
  {
    if n > 0 {
      BelowCardinality(s - {n - 1}, n - 1);
    }
  }

  /** There are never more flows than buckets. */
  lemma FlowsAreFew(cfg: Config, s: State)
    requires Invariant(cfg, s)
    ensures |s.flows| <= cfg.buckets
  {
    BelowCardinality(s.flows.Keys, cfg.buckets);
    assert |s.flows| == |s.flows.Keys|;
  }
}
