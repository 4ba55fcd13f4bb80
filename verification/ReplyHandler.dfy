/** The client's reply handler (cmd/client/gluepaths.go) and the writer of one path
    (internal/sched/pathwriter.go), as objects. */
module ReplyHandling {
  import opened Base
  import opened Framing
  import opened SeqWindow
  import opened Receiving
  import opened Multipath
  import FlowTable
  import Ipv4Udp
  import Router

  /** What a frame's payload decodes to. */
  datatype Envelope = Ping | Inbound(flow: FlowTable.FlowId, payload: Bytes) | Broken

  /** The packet for the device: from the flow's destination back to its source; none for a flow that is
      not known, or a payload that does not fit. */
  function ReplyPacket(t: FlowTable.Table, e: Envelope, ipId: Port): Option<Bytes> {
    if e.Inbound? && e.flow in t.flows && |e.payload| <= Ipv4Udp.MAX_UDP_PAYLOAD then
      var fi := t.flows[e.flow].info;
      Some(Ipv4Udp.Packet(fi.origDst, fi.origSrc, fi.origDstPort, fi.origSrcPort, e.payload, ipId))
    else None
  }

  lemma AddressIsKept(ip: Bytes)
    requires |ip| == 4
    ensures Ipv4Udp.AddressBytes(Router.AddressOf(ip)) == ip
  {
  }

  /** Main result: when the flow was made for a packet that parsed to `asked`, its reply parses to an
      answer: from where the packet went to where it came from, with the server's payload. */
  lemma ReplyGoesBack(t: FlowTable.Table, e: Envelope, ipId: Port, pad: Bytes, asked: Ipv4Udp.Info)
    requires ReplyPacket(t, e, ipId).Some? && |asked.src| == |asked.dst| == 4
    requires t.flows[e.flow].info == Router.FlowOf(asked)
    ensures Ipv4Udp.Parse(ReplyPacket(t, e, ipId).value + pad).Some?
    ensures var r := Ipv4Udp.Parse(ReplyPacket(t, e, ipId).value + pad).value;
            && r.version == 4 && r.proto == 17 && !r.fragment
            && r.src == asked.dst && r.srcPort == asked.dstPort
            && r.dst == asked.src && r.dstPort == asked.srcPort
            && r.payload == Some(e.payload)
  {
    var fi := Router.FlowOf(asked);
    AddressIsKept(asked.src);
    AddressIsKept(asked.dst);
    hide Ipv4Udp.Packet, Ipv4Udp.Parse, Ipv4Udp.Classify, Ipv4Udp.AddressBytes;
    Ipv4Udp.BuildThenParse(fi.origDst, fi.origSrc, fi.origDstPort, fi.origSrcPort, e.payload, ipId, pad);
  }

  class ReplyHandler {
    var epoch: nat
    var recv: Receiver

    ghost predicate Valid()
      reads this, recv
    {
      recv.Valid() && recv.maxAge == REPLY_MAX_AGE
    }

    ghost function State(): Client
      requires Valid()
      reads this, recv, recv.seen
    {
      Client(epoch, recv.State())
    }

    constructor ()
      ensures Valid() && fresh(recv) && fresh(recv.seen) && State() == INITIAL.client
    {
      epoch := 0;
      recv := new Receiver(REPLY_MAX_AGE);
    }

    method SetEpoch(newEpoch: nat)
      requires Valid()
      modifies this
      ensures Valid() && (recv == old(recv) || (fresh(recv) && fresh(recv.seen)))
      ensures State() == Multipath.SetEpoch(old(State()), newEpoch)
    {
      if newEpoch == epoch {
        return;
      }
      epoch := newEpoch;
      recv := new Receiver(REPLY_MAX_AGE);
    }

    /** A frame that is not a ping, from a path that joined the session with pathEpoch. */
    method Handle(pathEpoch: nat, f: Frame, now: int) returns (passedOn: bool)
      requires Valid()
      modifies recv, recv.seen
      ensures Valid()
      ensures Handled(State(), passedOn) == Multipath.Handle(old(State()), pathEpoch, f, now)
    {
      passedOn := pathEpoch == epoch;
      if passedOn {
        var verdict := recv.Accept(f, now);
        passedOn := verdict == Deliver;
      }
    }

    /** handle: `decode` reads the envelope, `later` is the clock when the flow is looked up, `ipId` the
        packet counter. A ping changes nothing here; any other frame meets the receiver, and one that is
        passed on notes the flow's activity and gives a packet. */
    method HandleFrame(
      pathEpoch: nat, f: Frame, now: int, decode: Bytes -> Envelope, flows: FlowTable.FlowIds, later: int, ipId: Port)
      returns (packet: array?<Byte>)
      requires Valid() && FlowTable.Valid(flows.State())
      modifies recv, recv.seen, flows
      ensures Valid() && FlowTable.Valid(flows.State())
      ensures decode(f.payload).Ping? ==>
                State() == old(State()) && flows.State() == old(flows.State()) && packet == null
      ensures !decode(f.payload).Ping? ==>
                State() == Multipath.Handle(old(State()), pathEpoch, f, now).c
      ensures !decode(f.payload).Ping? ==>
                var e := decode(f.payload);
                flows.State() == if Multipath.Handle(old(State()), pathEpoch, f, now).passedOn && e.Inbound?
                                 then FlowTable.Touch(old(flows.State()), e.flow, later) else old(flows.State())
      ensures !decode(f.payload).Ping? ==>
                var expected := if Multipath.Handle(old(State()), pathEpoch, f, now).passedOn
                                then ReplyPacket(old(flows.State()), decode(f.payload), ipId) else None;
                if expected.None? then packet == null else packet != null && packet[..] == expected.value
    {
      hide FlowTable.Valid, Ipv4Udp.Packet, Multipath.Handle;
      packet := null;
      var e := decode(f.payload);
      if e.Ping? {
        return;
      }
      var passedOn := Handle(pathEpoch, f, now);
      if !passedOn || e.Broken? {
        return;
      }
      var info := flows.Lookup(e.flow, later);
      if info.Some? {
        var fi := info.value;
        packet := Ipv4Udp.BuildIPv4UDP(fi.origDst, fi.origSrc, fi.origDstPort, fi.origSrcPort, e.payload, ipId);
      }
    }
  }

  datatype Queued = Queued(data: Bytes, t: int)

  /** A full queue drops its oldest frame. */
  function Push<T>(queue: seq<T>, x: T, depth: nat): seq<T>
    requires depth > 0
  {
    if |queue| < depth then queue + [x] else queue[|queue| - depth + 1..] + [x]
  }

  /** No other goroutine touches the writer. */
  ghost predicate Alone(others: (nat, seq<Queued>) -> seq<Queued>, closes: nat -> bool) {
    (forall k: nat, c: seq<Queued> :: others(k, c) == c) && forall k: nat :: !closes(k)
  }

  class PathWriter {
    const depth: nat
    const maxAge: int
    // the channel, oldest first
    var ch: seq<Queued>
    var done: bool
    var drops: nat
    // what went out on the connection
    var written: seq<Bytes>

    predicate Valid()
      reads this
    {
      depth > 0 && |ch| <= depth
    }

    constructor (depth: int, maxAge: int)
      ensures Valid() && ch == [] && written == [] && drops == 0 && !done
      ensures this.depth == if depth < 1 then 1 else depth
    {
      this.depth := if depth < 1 then 1 else depth;
      this.maxAge := maxAge;
      ch, done, drops, written := [], false, 0, [];
    }

    /** The first select of an attempt. */
    method Offer(
      q: Queued, others: (nat, seq<Queued>) -> seq<Queued>, closes: nat -> bool, picks: nat -> bool, attempt: nat)
      returns (queued: bool, over: bool)
      requires Valid() && forall k: nat, c: seq<Queued> :: |c| <= depth ==> |others(k, c)| <= depth
      modifies this`ch, this`done
      ensures Valid() && done == (old(done) || closes(2 * attempt))
      ensures over <==> queued || done
      ensures queued ==> ch != [] && ch[|ch| - 1] == q
      ensures !queued ==> ch == others(2 * attempt, old(ch))
      ensures Alone(others, closes) && !old(done) ==>
                queued == (|old(ch)| < depth) && ch == if queued then old(ch) + [q] else old(ch)
    {
      ch := others(2 * attempt, ch);
      done := done || closes(2 * attempt);
      queued := |ch| < depth && (!done || picks(attempt));
      over := queued || done;
      if queued {
        ch := ch + [q];
      }
    }

    /** The second select: the oldest frame makes room, if there is one. */
    method Evict(others: (nat, seq<Queued>) -> seq<Queued>, closes: nat -> bool, attempt: nat) returns (taken: nat)
      requires Valid() && forall k: nat, c: seq<Queued> :: |c| <= depth ==> |others(k, c)| <= depth
      modifies this`ch, this`drops, this`done
      ensures Valid() && done == (old(done) || closes(2 * attempt + 1))
      ensures taken <= 1 && drops == old(drops) + taken
      ensures taken <= |others(2 * attempt + 1, old(ch))| && ch == others(2 * attempt + 1, old(ch))[taken..]
      ensures taken == 0 ==> ch == []
    {
      ch := others(2 * attempt + 1, ch);
      done := done || closes(2 * attempt + 1);
      taken := 0;
      if |ch| > 0 {
        ch := ch[1..];
        drops := drops + 1;
        taken := 1;
      }
    }

    /** Send. Other goroutines may change the channel before each of its selects (`others` says how) and
        close the writer (`closes`); when it is closed and there is room, a select may do either
        (`picks`). It never blocks, and loses no frame unnoticed: its own is queued last, or counted,
        or the writer is closed; and every frame it takes out is counted. Left alone, it queues the
        frame and only a full queue loses its oldest one. */
    method Send(
      data: Bytes, now: int, others: (nat, seq<Queued>) -> seq<Queued>, closes: nat -> bool, picks: nat -> bool)
      returns (queued: bool, counted: bool, evicted: nat)
      requires Valid()
      requires forall k: nat, c: seq<Queued> :: |c| <= depth ==> |others(k, c)| <= depth
      modifies this`ch, this`drops, this`done
      ensures Valid() && (old(done) ==> done)
      ensures done ==> old(done) || exists k :: 0 <= k < 6 && closes(k)
      ensures old(done) ==> evicted == 0 && !counted
      ensures queued ==> ch != [] && ch[|ch| - 1] == Queued(data, now) && !counted
      ensures !queued && !counted ==> done
      ensures drops == old(drops) + evicted + if counted then 1 else 0
      ensures evicted <= if queued then 2 else 3
      ensures !old(done) && Alone(others, closes) ==>
                && queued && ch == Push(old(ch), Queued(data, now), depth)
                && evicted == (if |old(ch)| == depth then 1 else 0)
    {
      var q := Queued(data, now);
      queued, counted, evicted := false, false, 0;
      for attempt := 0 to 3
        invariant Valid() && evicted <= attempt && drops == old(drops) + evicted && !queued && !counted
        invariant old(done) ==> done && attempt == 0
        invariant done ==> old(done) || exists k :: 0 <= k < 6 && closes(k)
        invariant Alone(others, closes) ==>
                    && attempt == evicted < 2
                    && (attempt == 1 ==> |old(ch)| == depth)
                    && attempt <= |old(ch)| && ch == old(ch)[attempt..]
      {
        var over;
        queued, over := Offer(q, others, closes, picks, attempt);
        if over {
          return;
        }
        var taken := Evict(others, closes, attempt);
        evicted := evicted + taken;
      }
      drops := drops + 1;
      counted := true;
    }

    /** One turn of run, which waits for a frame or the end of the writer: it writes the oldest frame,
        or skips it when it is stale; a write that fails closes the writer. When the writer is closed
        and there is a frame, the select may do either (`takes`). */
    method RunTurn(now: int, fails: bool, takes: bool) returns (over: bool)
      requires Valid() && (done || ch != [])
      modifies this`ch, this`drops, this`written, this`done
      ensures Valid()
      ensures var q := if old(done) && !takes then [] else old(ch);
              if q == [] then over && unchanged(this)
              else
                var stale := maxAge > 0 && now - q[0].t > maxAge;
                && ch == q[1..]
                && written == old(written) + (if stale || fails then [] else [q[0].data])
                && drops == old(drops) + (if stale then 1 else 0)
                && done == (old(done) || over) && over == (!stale && fails)
    {
      over := done && (ch == [] || !takes);
      if over {
        return;
      }
      var q := ch[0];
      ch := ch[1..];
      if maxAge > 0 && now - q.t > maxAge {
        drops := drops + 1;
      } else if fails {
        done := true;
        over := true;
      } else {
        written := written + [q.data];
      }
    }
  }
}
