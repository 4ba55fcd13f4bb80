/** What the reader of a vpn connection gets, for every history of calls of the scheduler and of writes
    (cmd/server/vpn.go). */
module Delivery {
  import opened Base
  import opened Codel
  import opened FairQueue
  import opened Runs
  import opened WorkConserving
  import opened Batches
  import opened Order
  import opened Calls
  import opened Framing

  lemma {:induction false} MembersOfSubsequence<T>(a: seq<T>, b: seq<T>)
    requires Subsequence(a, b)
    ensures forall x :: x in a ==> x in b
  {
    if a != [] {
      if a[0] == b[0] && Subsequence(a[1..], b[1..]) {
        MembersOfSubsequence(a[1..], b[1..]);
        assert forall x :: x in a ==> x == a[0] || x in a[1..];
      } else {
        MembersOfSubsequence(a, b[1..]);
      }
    }
  }

  lemma {:induction false} PrefixOfSubsequence<T>(a: seq<T>, c: seq<T>, b: seq<T>)
    requires Subsequence(a + c, b)
    ensures Subsequence(a, b)
  {
    if a != [] {
      var w := a + c;
      assert w[0] == a[0] && w[1..] == a[1..] + c;
      if w[0] == b[0] && Subsequence(w[1..], b[1..]) {
        PrefixOfSubsequence(a[1..], c, b[1..]);
      } else {
        PrefixOfSubsequence(a, c, b[1..]);
      }
    }
  }

  function FramesOfOne(p: Bytes): seq<Frame> {
    match Decode(p)
    case None => []
    case Some((f, _)) => [f]
  }

  lemma {:induction false} SubsequenceOfFrames(a: seq<Bytes>, b: seq<Bytes>)
    requires Subsequence(a, b)
    ensures Subsequence(FramesOf(a), FramesOf(b))
  {
    hide Decode;
    if a != [] {
      var one := FramesOfOne(b[0]);
      assert FramesOf(b) == one + FramesOf(b[1..]);
      if a[0] == b[0] && Subsequence(a[1..], b[1..]) {
        SubsequenceOfFrames(a[1..], b[1..]);
        assert FramesOf(a) == one + FramesOf(a[1..]);
        if one != [] {
          assert one == [one[0]];
          SubsequenceTakes(one[0], FramesOf(a[1..]), FramesOf(b[1..]));
        } else {
          assert one + FramesOf(a[1..]) == FramesOf(a[1..]) && one + FramesOf(b[1..]) == FramesOf(b[1..]);
        }
      } else {
        SubsequenceOfFrames(a, b[1..]);
        SubsequenceSkips(FramesOf(a), one, FramesOf(b[1..]));
      }
    }
  }

  lemma {:induction false} OutputInItsBucket(outs: seq<Output>, i: nat)
    requires i < |outs|
    ensures outs[i].data in ForBucket(outs, outs[i].bucket)
  {
    if i > 0 {
      OutputInItsBucket(outs[1..], i - 1);
    }
  }

  /** Every arrival of the run is a frame as Marshal writes it. */
  ghost predicate ArrivesAsFrames(es: seq<Event>) {
    forall e :: e in es && e.Arrival? ==> IsWire(e.p.data)
  }

  lemma {:induction false} ArrivalsAreWire(es: seq<Event>, b: nat)
    requires ArrivesAsFrames(es)
    ensures forall p :: p in ArrivalsFor(es, b) ==> IsWire(p)
    decreases |es|
  {
    if es != [] {
      ArrivalsAreWire(es[1..], b);
    }
  }

  /** The outputs of a run for one bucket: in arrival order. */
  lemma OutputsInOrder(cfg: Config, es: seq<Event>, t: State, b: nat)
    requires ValidConfig(cfg) && Leads(cfg, EMPTY, es, t)
    ensures Subsequence(ForBucket(RunOutputs(cfg, EMPTY, es), b), ArrivalsFor(es, b))
  {
    hide Leads, RunOutputs, Invariant, ForBucket, ArrivalsFor;
    EmptyIsInvariant(cfg);
    QueuesAreFifo(cfg, EMPTY, es, t, b);
    assert QueueOf(EMPTY, b) + ArrivalsFor(es, b) == ArrivalsFor(es, b);
    PrefixOfSubsequence(ForBucket(RunOutputs(cfg, EMPTY, es), b), QueueOf(t, b), ArrivalsFor(es, b));
  }

  /** Main result, from the queue to the reader: for every run of a scheduler that starts empty and
      is given frames, the reader of everything it passes on, written back to back, gets exactly
      the frames passed on; and the frames of each flow come in the order they were queued in. */
  lemma ReaderGetsFlowsInOrder(cfg: Config, es: seq<Event>, t: State, b: nat)
    requires ValidConfig(cfg) && Leads(cfg, EMPTY, es, t) && ArrivesAsFrames(es)
    ensures var outs := RunOutputs(cfg, EMPTY, es);
            DecodeAll(Flatten(Datas(outs))) == FramesOf(Datas(outs))
    ensures Subsequence(FramesOf(ForBucket(RunOutputs(cfg, EMPTY, es), b)), FramesOf(ArrivalsFor(es, b)))
  {
    hide Leads, RunOutputs, FramesOf, ForBucket, Subsequence, DecodeAll, IsWire;
    var outs := RunOutputs(cfg, EMPTY, es);
    forall p | p in Datas(outs)
      ensures IsWire(p)
    {
      var i :| 0 <= i < |outs| && outs[i].data == p;
      var c := outs[i].bucket;
      OutputInItsBucket(outs, i);
      OutputsInOrder(cfg, es, t, c);
      MembersOfSubsequence(ForBucket(outs, c), ArrivalsFor(es, c));
      ArrivalsAreWire(es, c);
    }
    StreamCarriesFrames(Datas(outs));
    OutputsInOrder(cfg, es, t, b);
    SubsequenceOfFrames(ForBucket(outs, b), ArrivalsFor(es, b));
  }

  // ---------------------------------------------------------------- histories of calls

  /** A packet is queued, the overflow taking packets from `drops`; or `calls` dequeues are made and
      their packets written. */
  datatype Call =
    | Queues(bucket: nat, p: Packet, drops: seq<nat>)
    | Writes(clock: nat -> int, calls: nat)

  ghost predicate LegalCall(cfg: Config, s: State, c: Call) {
    c.Queues? ==> c.bucket < cfg.buckets && LegalDrops(cfg, Arrive(cfg, s, c.bucket, c.p), c.drops)
  }

  ghost function AfterCall(cfg: Config, s: State, c: Call): State
    requires ValidConfig(cfg) && Invariant(cfg, s) && LegalCall(cfg, s, c)
  {
    match c
    case Queues(b, p, drops) => AfterDrops(cfg, Arrive(cfg, s, b, p), drops)
    case Writes(clock, n) => DequeueMany(cfg, s, clock, n).s
  }

  ghost function PassedBy(cfg: Config, s: State, c: Call): seq<Output>
    requires ValidConfig(cfg) && Invariant(cfg, s)
  {
    if c.Queues? then [] else DequeueMany(cfg, s, c.clock, c.calls).outputs
  }

  lemma {:induction false} NoArrivals(es: seq<Event>, b: nat)
    requires forall e :: e in es ==> !e.Arrival?
    ensures ArrivalsFor(es, b) == []
    decreases |es|
  {
    if es != [] {
      NoArrivals(es[1..], b);
    }
  }

  /** A call is a run. */
  lemma CallIsRun(cfg: Config, s: State, c: Call) returns (es: seq<Event>)
    requires ValidConfig(cfg) && Invariant(cfg, s) && LegalCall(cfg, s, c)
    ensures Leads(cfg, s, es, AfterCall(cfg, s, c))
    ensures RunOutputs(cfg, s, es) == PassedBy(cfg, s, c)
    ensures forall b :: ArrivalsFor(es, b) == if c.Queues? && c.bucket == b then [c.p.data] else []
    ensures forall e :: e in es && e.Arrival? ==> c.Queues? && e.p == c.p
  {
    match c {
      case Queues(b, p, drops) =>
        hide Leads, RunOutputs, Invariant, AfterDrops, LegalDrops;
        EnqueueIsRun(cfg, s, b, p, drops, AfterCall(cfg, s, c));
        es := [Arrival(b, p)] + OverflowEvents(drops);
        forall k
          ensures ArrivalsFor(es, k) == if b == k then [p.data] else []
        {
          assert es[1..] == OverflowEvents(drops);
          NoArrivals(OverflowEvents(drops), k);
        }
      case Writes(clock, n) =>
        hide Leads, RunOutputs, Invariant, DequeueMany;
        es := BatchIsRun(cfg, s, clock, n);
        forall k
          ensures ArrivalsFor(es, k) == []
        {
          NoArrivals(es, k);
        }
    }
  }

  lemma CallKeeps(cfg: Config, s: State, c: Call)
    requires ValidConfig(cfg) && Invariant(cfg, s) && LegalCall(cfg, s, c)
    ensures Invariant(cfg, AfterCall(cfg, s, c))
  {
    hide Invariant, AfterCall, LegalCall, Leads;
    var es := CallIsRun(cfg, s, c);
    RunKeeps(cfg, s, es, AfterCall(cfg, s, c));
  }

  /** The state a history leads to, from the empty scheduler. */
  ghost function After(cfg: Config, h: seq<Call>): (s: State)
    requires ValidConfig(cfg) && Legal(cfg, h)
    ensures Invariant(cfg, s)
    decreases |h|, 1
  {
    if h == [] then
      EmptyIsInvariant(cfg);
      EMPTY
    else
      var m := After(cfg, h[..|h| - 1]);
      CallKeeps(cfg, m, h[|h| - 1]);
      AfterCall(cfg, m, h[|h| - 1])
  }

  /** Every call of the history is legal in the state it meets. */
  ghost predicate Legal(cfg: Config, h: seq<Call>)
    requires ValidConfig(cfg)
    decreases |h|, 0
  {
    h == [] || (Legal(cfg, h[..|h| - 1]) && LegalCall(cfg, After(cfg, h[..|h| - 1]), h[|h| - 1]))
  }

  /** What the history passes on. */
  ghost function PassedOn(cfg: Config, h: seq<Call>): seq<Output>
    requires ValidConfig(cfg) && Legal(cfg, h)
    decreases |h|
  {
    if h == [] then []
    else PassedOn(cfg, h[..|h| - 1]) + PassedBy(cfg, After(cfg, h[..|h| - 1]), h[|h| - 1])
  }

  /** The packets queued for a bucket. */
  function Queued(h: seq<Call>, b: nat): seq<Bytes>
    decreases |h|
  {
    if h == [] then []
    else
      var c := h[|h| - 1];
      Queued(h[..|h| - 1], b) + if c.Queues? && c.bucket == b then [c.p.data] else []
  }

  ghost predicate QueuesFrames(h: seq<Call>) {
    forall c :: c in h && c.Queues? ==> IsWire(c.p.data)
  }

  lemma {:induction false} ArrivalsConcat(es: seq<Event>, fs: seq<Event>, b: nat)
    ensures ArrivalsFor(es + fs, b) == ArrivalsFor(es, b) + ArrivalsFor(fs, b)
    decreases |es|
  {
    if es == [] {
      assert es + fs == fs;
    } else {
      assert (es + fs)[0] == es[0] && (es + fs)[1..] == es[1..] + fs;
      ArrivalsConcat(es[1..], fs, b);
    }
  }

  /** A whole history is a run. */
  lemma {:induction false} HistoryIsRun(cfg: Config, h: seq<Call>) returns (es: seq<Event>)
    requires ValidConfig(cfg) && Legal(cfg, h) && QueuesFrames(h)
    ensures Leads(cfg, EMPTY, es, After(cfg, h))
    ensures RunOutputs(cfg, EMPTY, es) == PassedOn(cfg, h)
    ensures forall b :: ArrivalsFor(es, b) == Queued(h, b)
    ensures ArrivesAsFrames(es)
    decreases |h|
  {
    if h == [] {
      es := [];
      NoEvents(cfg, EMPTY);
    } else {
      var init, c := h[..|h| - 1], h[|h| - 1];
      var m := After(cfg, init);
      assert c in h;
      hide Leads, RunOutputs, Invariant, AfterCall, LegalCall, PassedBy, IsWire;
      var first := HistoryIsRun(cfg, init);
      var last := CallIsRun(cfg, m, c);
      es := first + last;
      LeadsTrans(cfg, EMPTY, first, m, last, After(cfg, h));
      OutputsCompose(cfg, EMPTY, first, m, last);
      forall b
        ensures ArrivalsFor(es, b) == Queued(h, b)
      {
        ArrivalsConcat(first, last, b);
      }
    }
  }

  /** Main result, from the queue to the reader: for every history of Enqueue calls and written batches
      of a scheduler that starts empty and is given frames, the reader of all that was written gets
      exactly the frames passed on; and the frames of each flow come in the order they were queued. */
  lemma ReaderGetsWhatWasQueued(cfg: Config, h: seq<Call>, b: nat)
    requires ValidConfig(cfg) && Legal(cfg, h) && QueuesFrames(h)
    ensures DecodeAll(Flatten(Datas(PassedOn(cfg, h)))) == FramesOf(Datas(PassedOn(cfg, h)))
    ensures Subsequence(FramesOf(ForBucket(PassedOn(cfg, h), b)), FramesOf(Queued(h, b)))
  {
    hide Leads, RunOutputs, FramesOf, ForBucket, Subsequence, DecodeAll, ArrivesAsFrames, QueuesFrames, PassedOn;
    var es := HistoryIsRun(cfg, h);
    ReaderGetsFlowsInOrder(cfg, es, After(cfg, h), b);
  }

  // ---------------------------------------------------------------- one more call

  lemma {:induction false} DatasConcat(a: seq<Output>, b: seq<Output>)
    ensures Flatten(Datas(a + b)) == Flatten(Datas(a)) + Flatten(Datas(b))
  {
    assert Datas(a + b) == Datas(a) + Datas(b);
    FlattenConcat(Datas(a), Datas(b));
  }

  /** The history with an Enqueue added. */
  lemma OneMoreQueued(cfg: Config, h: seq<Call>, b: nat, p: Packet, drops: seq<nat>, t: State)
    requires ValidConfig(cfg) && Legal(cfg, h) && b < cfg.buckets
    requires DropsTo(cfg, Arrive(cfg, After(cfg, h), b, p), drops, t)
    ensures Legal(cfg, h + [Queues(b, p, drops)])
    ensures After(cfg, h + [Queues(b, p, drops)]) == t
    ensures PassedOn(cfg, h + [Queues(b, p, drops)]) == PassedOn(cfg, h)
  {
    assert (h + [Queues(b, p, drops)])[..|h|] == h;
    hide Invariant, AfterDrops, LegalDrops, Arrive;
  }

  /** The history with a written batch added. */
  lemma OneMoreWritten(cfg: Config, h: seq<Call>, clock: nat -> int, n: nat, packets: seq<Bytes>, t: State)
    requires ValidConfig(cfg) && Legal(cfg, h) && IsBatch(cfg, After(cfg, h), clock, n, packets, t)
    ensures Legal(cfg, h + [Writes(clock, n)])
    ensures After(cfg, h + [Writes(clock, n)]) == t
    ensures Flatten(Datas(PassedOn(cfg, h + [Writes(clock, n)]))) == Flatten(Datas(PassedOn(cfg, h))) + Flatten(packets)
  {
    assert (h + [Writes(clock, n)])[..|h|] == h;
    hide Invariant, DequeueMany, Flatten, Datas;
    DatasConcat(PassedOn(cfg, h), DequeueMany(cfg, After(cfg, h), clock, n).outputs);
  }
}
