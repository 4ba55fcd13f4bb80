/** The vpn channel's peer and its write loop (cmd/server/vpn.go), and what its client reads. */
module VpnPeer {
  import opened Base
  import opened Codel
  import opened FairQueue
  import opened Batches
  import opened Framing
  import opened Delivery
  import opened Scheduling
  import Runs
  import WorkConserving
  import Order
  import Shaping

  const VPN_WRITE_BATCH: nat := 16 * 1024

  /** Everything the history passed on, back to back. */
  ghost function Stream(cfg: Config, h: seq<Call>): Bytes
    requires ValidConfig(cfg) && Legal(cfg, h)
  {
    Flatten(Datas(PassedOn(cfg, h)))
  }

  /** A connection took all of the stream, or broke off in it. */
  predicate IsSent(stream: Bytes, sent: Bytes, broken: bool) {
    sent <= stream && (!broken ==> sent == stream)
  }

  lemma PutIsSent(before: Bytes, buf: Bytes, takes: nat)
    ensures var broken := takes < |buf|;
            IsSent(before + buf, before + if broken then buf[..takes] else buf, broken)
  {
  }

  lemma NothingFlat()
    ensures Flatten([]) == []
  {
  }

  lemma QueuedStream(cfg: Config, h: seq<Call>, b: nat, p: Packet, drops: seq<nat>, t: State)
    requires ValidConfig(cfg) && Legal(cfg, h) && b < cfg.buckets
    requires WorkConserving.DropsTo(cfg, Arrive(cfg, After(cfg, h), b, p), drops, t)
    ensures Legal(cfg, h + [Queues(b, p, drops)]) && After(cfg, h + [Queues(b, p, drops)]) == t
    ensures Stream(cfg, h + [Queues(b, p, drops)]) == Stream(cfg, h)
  {
    hide Invariant, Legal, After, PassedOn, WorkConserving.DropsTo, Arrive, Flatten, Datas;
    OneMoreQueued(cfg, h, b, p, drops, t);
  }

  lemma WrittenStream(cfg: Config, h: seq<Call>, clock: nat -> int, n: nat, packets: seq<Bytes>, t: State)
    requires ValidConfig(cfg) && Legal(cfg, h) && IsBatch(cfg, After(cfg, h), clock, n, packets, t)
    ensures Legal(cfg, h + [Writes(clock, n)]) && After(cfg, h + [Writes(clock, n)]) == t
    ensures Stream(cfg, h + [Writes(clock, n)]) == Stream(cfg, h) + Flatten(packets)
  {
    hide Invariant, Legal, After, PassedOn, IsBatch, Flatten, Datas;
    OneMoreWritten(cfg, h, clock, n, packets, t);
  }

  /** What happens while the write loop waits for packets. */
  datatype Arriving = Arriving(bucket: nat, data: Bytes, now: int)

  datatype Wake = Wake(frames: seq<Arriving>, closes: bool)

  function FramesFor(frames: seq<Arriving>, b: nat): seq<Bytes> {
    if frames == [] then []
    else
      var x := frames[|frames| - 1];
      FramesFor(frames[..|frames| - 1], b) + if x.bucket == b then [x.data] else []
  }

  function WokenFor(wakes: seq<Wake>, b: nat): seq<Bytes> {
    if wakes == [] then []
    else WokenFor(wakes[..|wakes| - 1], b) + FramesFor(wakes[|wakes| - 1].frames, b)
  }

  /** There is something to send, and without its last packet it is below the limit. */
  predicate IsModest(batch: seq<Bytes>) {
    && batch != []
    && (|batch| > 1 ==> TotalLength(batch[..|batch| - 1]) < VPN_WRITE_BATCH)
  }

  /** From history h to history k just what the wakes bring was queued. */
  ghost predicate Gains(h: seq<Call>, k: seq<Call>, wakes: seq<Wake>) {
    forall b :: Queued(k, b) == Queued(h, b) + WokenFor(wakes, b)
  }

  lemma GainsNothing(h: seq<Call>, clock: nat -> int, n: nat)
    ensures Gains(h, h, []) && Gains(h, h + [Writes(clock, n)], [])
  {
    assert (h + [Writes(clock, n)])[..|h|] == h;
  }

  lemma WokenOne(wake: Wake, b: nat)
    ensures WokenFor([wake], b) == FramesFor(wake.frames, b)
  {
    assert [wake][..0] == [] && [] + FramesFor(wake.frames, b) == FramesFor(wake.frames, b);
  }

  lemma GainsOne(h: seq<Call>, k: seq<Call>, wake: Wake)
    requires forall b :: Queued(k, b) == Queued(h, b) + FramesFor(wake.frames, b)
    ensures Gains(h, k, [wake])
  {
    forall b
      ensures WokenFor([wake], b) == FramesFor(wake.frames, b)
    {
      WokenOne(wake, b);
    }
  }

  lemma GainsNoMore(h: seq<Call>, woken: seq<Call>, after: seq<Call>, wake: Wake)
    requires Gains(h, woken, [wake]) && Gains(woken, after, [])
    ensures Gains(h, after, [wake])
  {
    forall b
      ensures Queued(after, b) == Queued(h, b) + WokenFor([wake], b)
    {
      assert Queued(after, b) == Queued(woken, b) + WokenFor([], b) == Queued(woken, b);
    }
  }

  /** One more wake-up, and an attempt. */
  lemma GainsMore(h: seq<Call>, before: seq<Call>, after: seq<Call>, wakes: seq<Wake>, n: nat)
    requires n < |wakes| && Gains(h, before, wakes[..n]) && Gains(before, after, [wakes[n]])
    ensures Gains(h, after, wakes[..n + 1])
  {
    assert wakes[..n + 1][..n] == wakes[..n];
    forall b
      ensures Queued(after, b) == Queued(h, b) + WokenFor(wakes[..n + 1], b)
    {
      Associates(Queued(h, b), WokenFor(wakes[..n], b), FramesFor(wakes[n].frames, b));
      WokenOne(wakes[n], b);
    }
  }

  class Peer {
    const q: Scheduler
    // null when there is no limit
    const shaper: Shaping.Shaper?
    // the bytes the connection took so far
    var sent: Bytes
    // a write failed and the connection is closed
    var closed: bool
    ghost var history: seq<Call>

    /** The history explains the scheduler's state and what was sent. */
    ghost predicate Valid()
      reads this, q, q.flows.Values
    {
      && q.Valid() && (shaper != null ==> Shaping.IsLimit(shaper.limit))
      && Legal(q.cfg, history) && q.State() == After(q.cfg, history)
      && IsSent(Stream(q.cfg, history), sent, closed)
    }

    constructor (q: Scheduler, shaper: Shaping.Shaper?)
      requires q.Valid() && q.State() == EMPTY && (shaper != null ==> Shaping.IsLimit(shaper.limit))
      ensures this.q == q && this.shaper == shaper && Valid() && history == [] && !closed
    {
      this.q, this.shaper := q, shaper;
      sent, closed, history := [], false, [];
    }

    /** The TUN reader queues a frame. */
    method Queue(bucket: nat, data: Bytes, now: int)
      requires Valid() && bucket < q.cfg.buckets
      modifies this`history, q, q.made
      ensures Valid() && q.closed == old(q.closed)
      ensures q.made >= old(q.made) && fresh(q.made - old(q.made))
      ensures old(q.closed) ==> history == old(history)
      ensures !old(q.closed) ==>
                exists drops :: history == old(history) + [Queues(bucket, Codel.Packet(data, now), drops)]
    {
      hide Invariant, Legal, After, PassedOn, Stream, Runs.Leads;
      ghost var wasClosed := q.closed;
      ghost var drops := q.Enqueue(bucket, data, now);
      if !wasClosed {
        QueuedStream(q.cfg, history, bucket, Codel.Packet(data, now), drops, q.State());
        history := history + [Queues(bucket, Codel.Packet(data, now), drops)];
      }
    }

    /** The shaper holds the loop back by the length of the batch. */
    method Pace(n: nat, time: real) returns (sleep: real)
      requires shaper != null ==> Shaping.IsLimit(shaper.limit)
      modifies shaper
      ensures shaper == null ==> sleep == 0.0
      ensures shaper != null ==>
                && shaper.View() == Shaping.Charged(shaper.limit, old(shaper.View()), n, time)
                && sleep == Shaping.SleepFor(shaper.limit, shaper.tokens)
    {
      sleep := 0.0;
      if shaper != null {
        sleep := shaper.Wait(n, time);
      }
    }

    /** Frames are length-prefixed, so they may stand back to back. */
    static method Concatenate(batch: seq<Bytes>) returns (buf: Bytes)
      ensures buf == Flatten(batch)
    {
      buf := [];
      for i := 0 to |batch|
        invariant buf == Flatten(batch[..i])
      {
        FlattenConcat(batch[..i], [batch[i]]);
        assert batch[..i + 1] == batch[..i] + [batch[i]];
        buf := buf + batch[i];
      }
      assert batch[..|batch|] == batch;
    }

    /** One attempt at a batch; None when the scheduler is closed or there is nothing to send yet. */
    method TryBatch(clock: nat -> int) returns (batch: Option<seq<Bytes>>)
      requires Valid() && !closed
      modifies this`history, q, q.made
      ensures q.Valid() && Legal(q.cfg, history) && q.State() == After(q.cfg, history)
      ensures Stream(q.cfg, history) == sent + if batch.Some? then Flatten(batch.value) else []
      ensures q.closed == old(q.closed) && q.made == old(q.made)
      ensures batch.None? <==> q.closed || !WorkConserving.HasPacket(old(q.State()))
      ensures batch.None? ==> q.closed || !WorkConserving.HasPacket(q.State())
      ensures Gains(old(history), history, [])
      ensures batch.Some? ==> IsModest(batch.value)
    {
      hide Invariant, Legal, After, PassedOn, Stream, TotalLength, Flatten, IsBatch, Gains;
      var r, calls := q.DequeueBatch(VPN_WRITE_BATCH, clock);
      batch := if r.Ready? then Some(r.packets) else None;
      NothingFlat();
      GainsNothing(history, clock, calls);
      if !r.Closed? {
        WrittenStream(q.cfg, history, clock, calls, if r.Ready? then r.packets else [], q.State());
        history := history + [Writes(clock, calls)];
      }
    }

    /** While the loop waits: frames are queued, and the scheduler may be closed. */
    method WakeUp(wake: Wake)
      requires Valid() && !closed && !q.closed && forall x :: x in wake.frames ==> x.bucket < q.cfg.buckets
      modifies this`history, q, q.made
      ensures Valid() && !closed && q.closed == wake.closes
      ensures q.made >= old(q.made) && fresh(q.made - old(q.made))
      ensures Gains(old(history), history, [wake])
    {
      hide Invariant, Legal, After, PassedOn, Stream;
      for i := 0 to |wake.frames|
        invariant Valid() && !closed && !q.closed
        invariant q.made >= old(q.made) && fresh(q.made - old(q.made))
        invariant forall b :: Queued(history, b) == Queued(old(history), b) + FramesFor(wake.frames[..i], b)
      {
        var x := wake.frames[i];
        assert x in wake.frames;
        Queue(x.bucket, x.data, x.now);
        assert wake.frames[..i + 1] == wake.frames[..i] + [x];
        assert wake.frames[..i + 1][..i] == wake.frames[..i];
      }
      assert wake.frames[..|wake.frames|] == wake.frames;
      GainsOne(old(history), history, wake);
      if wake.closes {
        q.Close();
      }
    }

    method Retry(wake: Wake, clock: nat -> int) returns (batch: Option<seq<Bytes>>)
      requires Valid() && !closed && !q.closed && forall x :: x in wake.frames ==> x.bucket < q.cfg.buckets
      modifies this`history, q, q.made
      ensures q.Valid() && Legal(q.cfg, history) && q.State() == After(q.cfg, history)
      ensures Stream(q.cfg, history) == sent + if batch.Some? then Flatten(batch.value) else []
      ensures q.made >= old(q.made) && fresh(q.made - old(q.made))
      ensures Gains(old(history), history, [wake])
      ensures batch.None? ==> q.closed || !WorkConserving.HasPacket(q.State())
      ensures batch.Some? ==> IsModest(batch.value)
    {
      hide Invariant, Legal, After, PassedOn, Stream, IsModest, Flatten, WorkConserving.HasPacket, Gains;
      WakeUp(wake);
      ghost var woken := history;
      batch := TryBatch(clock);
      GainsNoMore(old(history), woken, history, wake);
    }

    /** The batch of one turn. While nothing is queued the loop waits; `wakes` says what happens then, and
        `used` how much of it did. None when the scheduler is closed, or still nothing is queued. */
    method NextBatch(clocks: nat -> (nat -> int), wakes: seq<Wake>)
      returns (batch: Option<seq<Bytes>>, used: nat)
      requires Valid() && !closed
      requires forall w, x :: w in wakes && x in w.frames ==> x.bucket < q.cfg.buckets
      modifies this`history, q, q.made
      ensures q.Valid() && Legal(q.cfg, history) && q.State() == After(q.cfg, history)
      ensures Stream(q.cfg, history) == sent + if batch.Some? then Flatten(batch.value) else []
      ensures used <= |wakes| && Gains(old(history), history, wakes[..used])
      ensures batch.None? ==> q.closed || (used == |wakes| && !WorkConserving.HasPacket(q.State()))
      ensures batch.Some? ==> IsModest(batch.value)
    {
      hide Invariant, Legal, After, PassedOn, Stream, IsModest, Flatten, WorkConserving.HasPacket, Gains;
      used := 0;
      batch := TryBatch(clocks(0));
      while batch.None? && !q.closed && used < |wakes|
        invariant q.Valid() && Legal(q.cfg, history) && q.State() == After(q.cfg, history)
        invariant Stream(q.cfg, history) == sent + if batch.Some? then Flatten(batch.value) else []
        invariant q.made >= old(q.made) && fresh(q.made - old(q.made))
        invariant used <= |wakes|
        invariant Gains(old(history), history, wakes[..used])
        invariant batch.None? && !q.closed ==> !WorkConserving.HasPacket(q.State())
        invariant batch.Some? ==> IsModest(batch.value)
        decreases |wakes| - used
      {
        ghost var before := history;
        batch := Retry(wakes[used], clocks(used + 1));
        GainsMore(old(history), before, history, wakes, used);
        used := used + 1;
      }
    }

    /** One write: the connection may take fewer bytes and fail. */
    method Put(buf: Bytes, takes: nat)
      requires !closed
      modifies this`sent, this`closed
      ensures closed <==> takes < |buf|
      ensures sent == old(sent) + if closed then buf[..takes] else buf
    {
      if takes < |buf| {
        sent := sent + buf[..takes];
        closed := true;
      } else {
        sent := sent + buf;
      }
    }

    /** One turn of writeLoop: a batch goes out with one write, `sleep` seconds after `time`. When the
        connection takes fewer bytes, the write fails and the loop ends. */
    method WriteTurn(clocks: nat -> (nat -> int), wakes: seq<Wake>, time: real, takes: nat)
      returns (batch: Option<seq<Bytes>>, used: nat, sleep: real)
      requires Valid() && !closed
      requires forall w, x :: w in wakes && x in w.frames ==> x.bucket < q.cfg.buckets
      modifies this`sent, this`closed, this`history, q, q.made, shaper
      ensures Valid()
      ensures batch.None? ==> sent == old(sent) && !closed
      ensures batch.None? ==> q.closed || (used == |wakes| && !WorkConserving.HasPacket(q.State()))
      ensures used <= |wakes| && Gains(old(history), history, wakes[..used])
      ensures batch.Some? ==>
                && (closed <==> takes < |Flatten(batch.value)|)
                && sent == old(sent) + if closed then Flatten(batch.value)[..takes] else Flatten(batch.value)
      ensures batch.Some? ==> IsModest(batch.value)
      ensures batch.Some? && shaper != null ==>
                && shaper.View() == Shaping.Charged(shaper.limit, old(shaper.View()), |Flatten(batch.value)|, time)
                && sleep == Shaping.SleepFor(shaper.limit, shaper.tokens)
    {
      hide Invariant, Legal, After, PassedOn, Stream, TotalLength, Flatten, Shaping.Charged, Shaping.SleepFor;
      hide Shaping.IsLimit, WorkConserving.HasPacket, Gains, IsModest;
      sleep := 0.0;
      batch, used := NextBatch(clocks, wakes);
      if batch.Some? {
        var buf := Concatenate(batch.value);
        sleep := Pace(|buf|, time);
        PutIsSent(sent, buf, takes);
        Put(buf, takes);
      }
      hide IsSent;
    }
  }

  /** The reader of a stream that breaks off gets the first of its frames. */
  lemma {:induction false} BrokenStream(start: Bytes, stream: Bytes)
    requires start <= stream
    ensures DecodeAll(start) <= DecodeAll(stream)
    decreases |start|
  {
    match Decode(start)
    case None =>
    case Some((f, rest)) =>
      var more := stream[|start| - |rest|..];
      DecodesExactlyWrittenFrames(start, f, rest);
      assert stream == Encode(f) + more;
      DecodesExactlyWrittenFrames(stream, f, more);
      BrokenStream(rest, more);
  }

  /** Main result: at every moment, the client of a peer that was given frames has read exactly the
      frames passed on, or the first of them when the connection broke; and the frames passed on for
      each flow are some of those queued, in order. */
  lemma ClientReadsWhatWasQueued(peer: Peer, b: nat)
    requires peer.Valid() && QueuesFrames(peer.history)
    ensures var frames := FramesOf(Datas(PassedOn(peer.q.cfg, peer.history)));
            DecodeAll(peer.sent) <= frames && (!peer.closed ==> DecodeAll(peer.sent) == frames)
    ensures Order.Subsequence(FramesOf(Order.ForBucket(PassedOn(peer.q.cfg, peer.history), b)),
                              FramesOf(Queued(peer.history, b)))
  {
    hide Invariant, Legal, After, PassedOn, FramesOf, DecodeAll, Order.ForBucket, Order.Subsequence;
    ReaderGetsWhatWasQueued(peer.q.cfg, peer.history, b);
    BrokenStream(peer.sent, Stream(peer.q.cfg, peer.history));
  }
}
