/** The packets of each queue come out in the order they went in, over whole runs. */
module Order {
  import opened Base
  import opened Codel
  import opened CodelLaw
  import opened FairQueue
  import opened Runs
  import opened Batches

  // ---------------------------------------------------------------- subsequences

  /** a can be had from b by leaving out elements. */
  predicate Subsequence<T(==)>(a: seq<T>, b: seq<T>) {
    a == [] || (b != [] && ((a[0] == b[0] && Subsequence(a[1..], b[1..])) || Subsequence(a, b[1..])))
  }

  /** Elements in front that are left out. */
  lemma {:induction false} SubsequenceSkips<T>(a: seq<T>, skipped: seq<T>, b: seq<T>)
    requires Subsequence(a, b)
    ensures Subsequence(a, skipped + b)
  {
    if skipped == [] {
      assert skipped + b == b;
    } else {
      SubsequenceSkips(a, skipped[1..], b);
      assert (skipped + b)[1..] == skipped[1..] + b;
    }
  }

  lemma SubsequenceTakes<T>(x: T, a: seq<T>, b: seq<T>)
    requires Subsequence(a, b)
    ensures Subsequence([x] + a, [x] + b)
  {
    assert ([x] + a)[1..] == a && ([x] + b)[1..] == b;
  }

  lemma {:induction false} SubsequenceReflexive<T>(a: seq<T>)
    ensures Subsequence(a, a)
  {
    if a != [] {
      SubsequenceReflexive(a[1..]);
    }
  }

  // ---------------------------------------------------------------- what a run takes in and passes on

  function PacketDatas(q: seq<Packet>): seq<Bytes> {
    seq(|q|, i requires 0 <= i < |q| => q[i].data)
  }

  function QueueOf(s: State, b: nat): seq<Bytes> {
    if b in s.flows then PacketDatas(s.flows[b].q) else []
  }

  ghost function StepOutputs(cfg: Config, s: State, e: Event): seq<Output>
    requires Enabled(cfg, s, e)
  {
    match Runs.Output(cfg, s, e)
    case None => []
    case Some((b, data)) => [Output(b, data)]
  }

  /** The packets the run passes on, in order. */
  ghost function RunOutputs(cfg: Config, s: State, es: seq<Event>): seq<Output>
    decreases |es|
  {
    if es == [] || !Enabled(cfg, s, es[0]) then []
    else StepOutputs(cfg, s, es[0]) + RunOutputs(cfg, Next(cfg, s, es[0]), es[1..])
  }

  /** The packets of bucket b among them. */
  function ForBucket(outputs: seq<Output>, b: nat): seq<Bytes> {
    if outputs == [] then []
    else (if outputs[0].bucket == b then [outputs[0].data] else []) + ForBucket(outputs[1..], b)
  }

  function ArrivalsFor(es: seq<Event>, b: nat): seq<Bytes>
    decreases |es|
  {
    if es == [] then []
    else (if es[0].Arrival? && es[0].bucket == b then [es[0].p.data] else []) + ArrivalsFor(es[1..], b)
  }

  // ---------------------------------------------------------------- one event

  /** What the event does to queue b: it takes packets from the front, the last of which may be
      passed on, or it adds the arriving packet. */
  ghost predicate QueueMoves(before: seq<Bytes>, arrived: seq<Bytes>, passed: seq<Bytes>, after: seq<Bytes>) {
    exists lost: seq<Bytes> :: before + arrived == lost + passed + after
  }

  lemma Moves(before: seq<Bytes>, arrived: seq<Bytes>, lost: seq<Bytes>, passed: seq<Bytes>, after: seq<Bytes>)
    requires before + arrived == lost + passed + after
    ensures QueueMoves(before, arrived, passed, after)
  {
  }

  lemma NothingMoves(q: seq<Bytes>)
    ensures QueueMoves(q, [], [], q)
  {
    assert q + [] == [] + [] + q;
  }

  function PassedFor(o: Outcome, b: nat): seq<Bytes> {
    if o.Served? && o.b == b then [o.data] else []
  }

  lemma OutputsFor(cfg: Config, s: State, now: int, b: nat)
    requires Enabled(cfg, s, DequeueTurn(now))
    ensures ForBucket(StepOutputs(cfg, s, DequeueTurn(now)), b) == PassedFor(Turn(cfg, s, now), b)
  {
    hide Turn;
  }

  lemma DatasSplit(q: seq<Packet>, n: nat)
    requires n < |q|
    ensures PacketDatas(q) == PacketDatas(q[..n]) + [q[n].data] + PacketDatas(q[n + 1..])
  {
  }

  lemma AfterCodelMoves(cfg: Config, s: State, c: nat, r: Dequeued, b: nat)
    requires c in s.flows && GoodDequeue(cfg, s.flows[c], r)
    ensures var o := AfterCodel(s, c, r); QueueMoves(QueueOf(s, b), [], PassedFor(o, b), QueueOf(o.s, b))
  {
    hide FlowOk, Follows, DroppedIn;
    var o := AfterCodel(s, c, r);
    if b == c && r.p.Some? {
      var q := s.flows[b].q;
      DatasSplit(q, r.drops);
      hide PacketDatas;
      Moves(QueueOf(s, b), [], PacketDatas(q[..r.drops]), PassedFor(o, b), QueueOf(o.s, b));
    } else {
      NothingMoves(QueueOf(s, b));
    }
  }

  lemma TopUpMovesNothing(cfg: Config, s: State, c: nat, b: nat)
    requires c in s.flows
    ensures QueueOf(TopUp(cfg, s, c), b) == QueueOf(s, b)
  {
  }

  lemma TurnMoves(cfg: Config, s: State, now: int, b: nat)
    requires ValidConfig(cfg) && Invariant(cfg, s) && Enabled(cfg, s, DequeueTurn(now))
    ensures QueueMoves(QueueOf(s, b), [], PassedFor(Turn(cfg, s, now), b), QueueOf(Next(cfg, s, DequeueTurn(now)), b))
  {
    hide QueueMoves, QueueOf, AfterCodel, TopUp;
    NothingMoves(QueueOf(s, b));
    if Front(s).Some? {
      var c := Front(s).value;
      if s.flows[c].deficit > 0 {
        CodelDequeueKeeps(cfg, s.flows[c], now);
        hide CodelDequeue, GoodDequeue;
        AfterCodelMoves(cfg, s, c, CodelDequeue(cfg, s.flows[c], now), b);
      } else {
        TopUpMovesNothing(cfg, s, c, b);
      }
    }
  }

  lemma OverflowMoves(cfg: Config, s: State, c: nat, b: nat)
    requires c in s.flows && s.flows[c].q != []
    ensures QueueMoves(QueueOf(s, b), [], [], QueueOf(Overflow(s, c), b))
  {
    if b == c {
      var q := s.flows[b].q;
      assert q == [q[0]] + q[1..];
      Moves(QueueOf(s, b), [], [q[0].data], [], QueueOf(Overflow(s, c), b));
    } else {
      NothingMoves(QueueOf(s, b));
    }
  }

  lemma ArriveMoves(cfg: Config, s: State, c: nat, p: Packet, b: nat)
    ensures QueueMoves(QueueOf(s, b), if c == b then [p.data] else [], [], QueueOf(Arrive(cfg, s, c, p), b))
  {
    if b == c {
      Moves(QueueOf(s, b), [p.data], [], [], QueueOf(Arrive(cfg, s, c, p), b));
    } else {
      NothingMoves(QueueOf(s, b));
    }
  }

  lemma NextMoves(cfg: Config, s: State, e: Event, b: nat)
    requires ValidConfig(cfg) && Invariant(cfg, s) && Enabled(cfg, s, e)
    ensures QueueMoves(QueueOf(s, b), ArrivalsFor([e], b), ForBucket(StepOutputs(cfg, s, e), b),
                       QueueOf(Next(cfg, s, e), b))
  {
    assert [e][1..] == [];
    match e {
      case Arrival(c, p) =>
        hide Arrive, QueueOf, QueueMoves, Invariant;
        ArriveMoves(cfg, s, c, p, b);
      case OverflowDrop(c) =>
        hide Overflow, QueueOf, QueueMoves, Invariant;
        OverflowMoves(cfg, s, c, b);
      case DequeueTurn(now) =>
        hide Turn, QueueOf, QueueMoves, Invariant;
        OutputsFor(cfg, s, now, b);
        TurnMoves(cfg, s, now, b);
    }
  }

  // ---------------------------------------------------------------- whole runs

  lemma {:induction false} ForBucketConcat(xs: seq<Output>, ys: seq<Output>, b: nat)
    ensures ForBucket(xs + ys, b) == ForBucket(xs, b) + ForBucket(ys, b)
  {
    if xs == [] {
      assert xs + ys == ys;
    } else {
      assert (xs + ys)[1..] == xs[1..] + ys;
      ForBucketConcat(xs[1..], ys, b);
    }
  }

  lemma Regroup(lost: seq<Bytes>, passed: seq<Bytes>, mid: seq<Bytes>, arrivals: seq<Bytes>)
    ensures lost + (passed + (mid + arrivals)) == lost + passed + mid + arrivals
  {
  }

  lemma PassedInFront(passed: seq<Bytes>, a: seq<Bytes>, b: seq<Bytes>)
    requires |passed| <= 1 && Subsequence(a, b)
    ensures Subsequence(passed + a, passed + b)
  {
    if passed == [] {
      assert passed + a == a && passed + b == b;
    } else {
      SubsequenceTakes(passed[0], a, b);
      assert passed == [passed[0]];
    }
  }

  lemma MovesCompose(
    lost: seq<Bytes>, passed: seq<Bytes>, mid: seq<Bytes>, arrivals: seq<Bytes>, rest: seq<Bytes>)
    requires |passed| <= 1 && Subsequence(rest, mid + arrivals)
    ensures Subsequence(passed + rest, lost + passed + mid + arrivals)
  {
    PassedInFront(passed, rest, mid + arrivals);
    SubsequenceSkips(passed + rest, lost, passed + (mid + arrivals));
    Regroup(lost, passed, mid, arrivals);
  }

  lemma LostBy(before: seq<Bytes>, arrived: seq<Bytes>, passed: seq<Bytes>, after: seq<Bytes>)
    returns (lost: seq<Bytes>)
    requires QueueMoves(before, arrived, passed, after)
    ensures before + arrived == lost + passed + after
  {
    lost :| before + arrived == lost + passed + after;
  }

  lemma FifoComposes(
    before: seq<Bytes>, arrived: seq<Bytes>, passed: seq<Bytes>, mid: seq<Bytes>,
    arrivals: seq<Bytes>, outputs: seq<Bytes>, last: seq<Bytes>)
    requires QueueMoves(before, arrived, passed, mid) && |passed| <= 1
    requires Subsequence(outputs + last, mid + arrivals)
    ensures Subsequence((passed + outputs) + last, before + (arrived + arrivals))
  {
    hide Subsequence;
    var lost := LostBy(before, arrived, passed, mid);
    hide QueueMoves;
    MovesCompose(lost, passed, mid, arrivals, outputs + last);
    Associates(passed, outputs, last);
    Associates(before, arrived, arrivals);
  }

  lemma AtMostOne(cfg: Config, s: State, e: Event, b: nat)
    requires Enabled(cfg, s, e)
    ensures |ForBucket(StepOutputs(cfg, s, e), b)| <= 1
  {
    hide Enabled, Turn;
  }

  lemma FifoStep(cfg: Config, s: State, es: seq<Event>, t: State, b: nat)
    requires ValidConfig(cfg) && Invariant(cfg, s) && es != [] && Enabled(cfg, s, es[0])
    requires var m := Next(cfg, s, es[0]);
             Subsequence(ForBucket(RunOutputs(cfg, m, es[1..]), b) + QueueOf(t, b),
                         QueueOf(m, b) + ArrivalsFor(es[1..], b))
    ensures Subsequence(ForBucket(RunOutputs(cfg, s, es), b) + QueueOf(t, b), QueueOf(s, b) + ArrivalsFor(es, b))
  {
    hide Invariant, Next, QueueOf, QueueMoves, Subsequence, Enabled, ForBucket;
    var e, m := es[0], Next(cfg, s, es[0]);
    var passed, outputs := ForBucket(StepOutputs(cfg, s, e), b), ForBucket(RunOutputs(cfg, m, es[1..]), b);
    var arrived, arrivals := ArrivalsFor([e], b), ArrivalsFor(es[1..], b);
    NextMoves(cfg, s, e, b);
    AtMostOne(cfg, s, e, b);
    ForBucketConcat(StepOutputs(cfg, s, e), RunOutputs(cfg, m, es[1..]), b);
    FifoComposes(QueueOf(s, b), arrived, passed, QueueOf(m, b), arrivals, outputs, QueueOf(t, b));
    assert ArrivalsFor(es, b) == arrived + arrivals;
  }

  /** Main result: over every run, the packets of a queue that are passed on, followed by those
      still in it, are a subsequence of those it held at the start, followed by the arrivals. */
  lemma {:induction false} QueuesAreFifo(cfg: Config, s: State, es: seq<Event>, t: State, b: nat)
    requires ValidConfig(cfg) && Invariant(cfg, s) && Leads(cfg, s, es, t)
    ensures Subsequence(ForBucket(RunOutputs(cfg, s, es), b) + QueueOf(t, b), QueueOf(s, b) + ArrivalsFor(es, b))
    decreases |es|
  {
    hide Invariant, Next, QueueOf, QueueMoves, Subsequence, Enabled;
    if es == [] {
      SubsequenceReflexive(QueueOf(s, b));
      assert [] + QueueOf(t, b) == QueueOf(s, b) == QueueOf(s, b) + [];
    } else {
      var e, m := es[0], Next(cfg, s, es[0]);
      NextKeeps(cfg, s, e);
      QueuesAreFifo(cfg, m, es[1..], t, b);
      FifoStep(cfg, s, es, t, b);
    }
  }

  lemma SuffixGrows(
    before: seq<Bytes>, arrived: seq<Bytes>, passed: seq<Bytes>, mid: seq<Bytes>, more: seq<Bytes>, last: seq<Bytes>,
    k: nat)
    returns (n: nat)
    requires QueueMoves(before, arrived, passed, mid)
    requires k <= |mid + more| && last == (mid + more)[k..]
    ensures n <= |before + (arrived + more)| && last == (before + (arrived + more))[n..]
  {
    var lost := LostBy(before, arrived, passed, mid);
    var gone := lost + passed;
    assert before + arrived == gone + mid;
    assert before + (arrived + more) == (before + arrived) + more == gone + (mid + more);
    n := |gone| + k;
  }

  /** Main result: over every run a queue loses packets at its front only, to the link, to CoDel or to
      the overflow: what is in it are the last of those it held at the start and that arrived. */
  lemma {:induction false} QueuesAreSuffixes(cfg: Config, s: State, es: seq<Event>, t: State, b: nat) returns (n: nat)
    requires ValidConfig(cfg) && Invariant(cfg, s) && Leads(cfg, s, es, t)
    ensures n <= |QueueOf(s, b) + ArrivalsFor(es, b)| && QueueOf(t, b) == (QueueOf(s, b) + ArrivalsFor(es, b))[n..]
    decreases |es|
  {
    hide Invariant, Next, QueueOf, QueueMoves, Enabled;
    if es == [] {
      n := 0;
      assert QueueOf(s, b) + [] == QueueOf(s, b);
    } else {
      var e, m := es[0], Next(cfg, s, es[0]);
      NextKeeps(cfg, s, e);
      NextMoves(cfg, s, e, b);
      var k := QueuesAreSuffixes(cfg, m, es[1..], t, b);
      n := SuffixGrows(QueueOf(s, b), ArrivalsFor([e], b), ForBucket(StepOutputs(cfg, s, e), b), QueueOf(m, b),
                       ArrivalsFor(es[1..], b), QueueOf(t, b), k);
      assert ArrivalsFor(es, b) == ArrivalsFor([e], b) + ArrivalsFor(es[1..], b);
    }
  }
}
