/**
 CoDel (section 5 of RFC 8289) on the queue of one flow, as internal/sched/fq.go runs it.

 Times are integers (nanoseconds); None stands for Go's zero time. A flow carries one field
 the program does not have: `hist`, what every dequeue since the flow was created has seen.
 Nothing reads it back; it is there to say why a packet was dropped.
 */
module Codel {
  import opened Base

  /** CoDel never drops when no more than this many bytes stay queued. */
  const MAX_PACKET: nat := 1514

  /** `gap(count)` stands for interval / sqrt(count), rounded as Go's float64 does; `buckets` is
      the number of queues flows are hashed into, a constant of the program. */
  datatype Config = Config(
    quantum: int,
    limitBytes: int,
    target: int,
    interval: int,
    gap: nat -> int,
    buckets: nat)

  predicate ValidConfig(cfg: Config) {
    cfg.quantum > 0 && cfg.limitBytes > 0 && cfg.target > 0 && cfg.interval > 0 && cfg.buckets > 0
  }

  datatype Packet = Packet(data: Bytes, enq: int)

  datatype CodelState = CodelState(
    firstAboveTime: Option<int>,
    dropNext: Option<int>,
    count: nat,
    lastCount: nat,
    dropping: bool)

  const INITIAL_CODEL := CodelState(None, None, 0, 0, false)

  /** One dequeue of a flow: on an empty queue, or of a packet that had waited `waited` and left
      `left` bytes behind. */
  datatype Observation = SawNothing | Saw(now: int, waited: int, left: int, dropped: bool)

  datatype FlowState = FlowState(
    q: seq<Packet>,
    bytes: int,
    deficit: int,
    inNew: bool,
    codel: CodelState,
    hist: seq<Observation>)

  function QueuedBytes(q: seq<Packet>): (n: nat) {
    if q == [] then 0 else |q[0].data| + QueuedBytes(q[1..])
  }

  lemma {:induction false} QueuedBytesAppend(q: seq<Packet>, p: Packet)
    ensures QueuedBytes(q + [p]) == QueuedBytes(q) + |p.data|
  {
    if q == [] {
      assert q + [p] == [p];
    } else {
      assert (q + [p])[1..] == q[1..] + [p];
      QueuedBytesAppend(q[1..], p);
    }
  }

  // ---------------------------------------------------------------- the algorithm

  function PopHead(f: FlowState): FlowState
    requires f.q != []
  {
    f.(q := f.q[1..], bytes := f.bytes - |f.q[0].data|)
  }

  datatype Dodequeued = Dodequeued(f: FlowState, p: Option<Packet>, okToDrop: bool)

  /** dodequeue() of RFC 8289. */
  function DoDequeue(cfg: Config, f: FlowState, now: int): Dodequeued {
    if f.q == [] then
      Dodequeued(f.(codel := f.codel.(firstAboveTime := None), hist := f.hist + [SawNothing]), None, false)
    else
      var p := f.q[0];
      var left := f.bytes - |p.data|;
      var g := PopHead(f).(hist := f.hist + [Saw(now, now - p.enq, left, false)]);
      if now - p.enq < cfg.target || left <= MAX_PACKET then
        Dodequeued(g.(codel := g.codel.(firstAboveTime := None)), Some(p), false)
      else if f.codel.firstAboveTime.None? then
        Dodequeued(g.(codel := g.codel.(firstAboveTime := Some(now + cfg.interval))), Some(p), false)
      else
        Dodequeued(g, Some(p), now >= f.codel.firstAboveTime.value)
  }

  /** The packet dequeued last is not passed on. */
  function MarkDropped(hist: seq<Observation>): seq<Observation> {
    if hist != [] && hist[|hist| - 1].Saw? then
      hist[|hist| - 1 := hist[|hist| - 1].(dropped := true)]
    else
      hist
  }

  predicate DropDue(c: CodelState, now: int) {
    c.dropNext.Some? ==> now >= c.dropNext.value
  }

  function ControlLaw(cfg: Config, t: Option<int>, count: nat): Option<int> {
    match t
    case None => Some(cfg.gap(count))
    case Some(v) => Some(v + cfg.gap(count))
  }

  datatype Dequeued = Dequeued(f: FlowState, p: Option<Packet>, drops: nat)

  /** The packet in hand is dropped in the dropping state. */
  function CountDrop(f: FlowState): FlowState {
    f.(codel := f.codel.(count := f.codel.count + 1), hist := MarkDropped(f.hist))
  }

  /** The dropping state goes on, with the next drop as the control law says, or it ends. */
  function NextDrop(cfg: Config, c: CodelState, okToDrop: bool): CodelState {
    if okToDrop
    then c.(dropNext := ControlLaw(cfg, c.dropNext, c.count))
    else c.(dropping := false)
  }

  /** One turn of the dropping loop: the packet in hand is dropped, the next one is dequeued. */
  function DropStep(cfg: Config, f: FlowState, now: int): Dodequeued {
    var d := DoDequeue(cfg, CountDrop(f), now);
    d.(f := d.f.(codel := NextDrop(cfg, d.f.codel, d.okToDrop)))
  }

  /** The loop of dequeue() in the dropping state; `cur` is the packet in hand. */
  function DropLoop(cfg: Config, f: FlowState, cur: Option<Packet>, now: int): Dequeued
    decreases |f.q|, f.codel.dropping
  {
    if f.codel.dropping && DropDue(f.codel, now) then
      var d := DropStep(cfg, f, now);
      var r := DropLoop(cfg, d.f, d.p, now);
      r.(drops := r.drops + 1)
    else
      Dequeued(f, cur, 0)
  }

  /** Entering the dropping state: the state of the control law after the first drop. */
  function StartDropping(cfg: Config, c: CodelState, now: int): CodelState {
    var delta := c.count - c.lastCount;
    var recent := c.dropNext.Some? && now - c.dropNext.value < 16 * cfg.interval;
    var count: nat := if delta > 1 && recent then delta else 1;
    c.(dropping := true, count := count, dropNext := ControlLaw(cfg, Some(now), count), lastCount := count)
  }

  /** Outside the dropping state: the packet in hand is dropped and the dropping state begins. */
  function FirstDrop(cfg: Config, f: FlowState, now: int): Dequeued {
    var d := DoDequeue(cfg, f.(hist := MarkDropped(f.hist)), now);
    Dequeued(d.f.(codel := StartDropping(cfg, d.f.codel, now)), d.p, 1)
  }

  /** The dropping state ends when a packet may not be dropped. */
  function Settle(d: Dodequeued): FlowState {
    if d.okToDrop then d.f else d.f.(codel := d.f.codel.(dropping := false))
  }

  /** dequeue() of RFC 8289, Linux variant. */
  function CodelDequeue(cfg: Config, f: FlowState, now: int): Dequeued {
    var d := DoDequeue(cfg, f, now);
    if d.f.codel.dropping then DropLoop(cfg, Settle(d), d.p, now)
    else if d.okToDrop then FirstDrop(cfg, d.f, now)
    else Dequeued(d.f, d.p, 0)
  }

  // ---------------------------------------------------------------- why packets are dropped

  /** A dequeue in a standing queue: the packet had waited at least the target and left more
      than one packet's worth of bytes behind. */
  predicate Standing(cfg: Config, o: Observation) {
    o.Saw? && o.waited >= cfg.target && o.left > MAX_PACKET
  }

  /** From dequeue i to dequeue k every dequeue saw a standing queue. */
  predicate StandingFrom(cfg: Config, hist: seq<Observation>, i: nat, k: nat) {
    i <= k < |hist| && forall j :: i <= j <= k ==> Standing(cfg, hist[j])
  }

  /** A standing queue seen by every dequeue for at least the interval, up to dequeue k. */
  ghost predicate Justified(cfg: Config, hist: seq<Observation>, k: nat) {
    exists i: nat :: StandingFrom(cfg, hist, i, k) && hist[i].now + cfg.interval <= hist[k].now
  }

  ghost predicate DropsJustified(cfg: Config, hist: seq<Observation>) {
    forall k: nat {:trigger Justified(cfg, hist, k)} ::
      k < |hist| && hist[k].Saw? && hist[k].dropped ==> Justified(cfg, hist, k)
  }

  /** Dequeue i began the present unbroken run of standing-queue dequeues. */
  predicate BeginsStanding(cfg: Config, hist: seq<Observation>, i: nat) {
    && i < |hist|
    && StandingFrom(cfg, hist, i, |hist| - 1)
    && (i == 0 || !Standing(cfg, hist[i - 1]))
  }

  /** The reference meaning of firstAboveTime: interval after the dequeue that began the present
      unbroken run of standing-queue dequeues, None when there is no such run. */
  ghost predicate IsFirstAbove(cfg: Config, hist: seq<Observation>, t: Option<int>) {
    match t
    case None => hist == [] || !Standing(cfg, hist[|hist| - 1])
    case Some(v) => exists i: nat :: BeginsStanding(cfg, hist, i) && v == hist[i].now + cfg.interval
  }

  ghost predicate FlowOk(cfg: Config, f: FlowState) {
    && f.bytes == QueuedBytes(f.q)
    && f.codel.lastCount <= f.codel.count
    && (f.codel.dropping ==> f.codel.dropNext.Some?)
    && IsFirstAbove(cfg, f.hist, f.codel.firstAboveTime)
    && DropsJustified(cfg, f.hist)
  }

  /** How many of the observed packets were dropped. */
  function DroppedIn(hist: seq<Observation>): nat {
    if hist == [] then 0
    else DroppedIn(hist[..|hist| - 1]) + if hist[|hist| - 1].Saw? && hist[|hist| - 1].dropped then 1 else 0
  }

  /** The packet seen last may be dropped: it is still in hand and its drop is justified. */
  ghost predicate MayDrop(cfg: Config, hist: seq<Observation>) {
    && hist != []
    && hist[|hist| - 1].Saw?
    && !hist[|hist| - 1].dropped
    && Justified(cfg, hist, |hist| - 1)
  }

  lemma JustifiedExtends(cfg: Config, hist: seq<Observation>, o: Observation, k: nat)
    requires k < |hist| && Justified(cfg, hist, k)
    ensures Justified(cfg, hist + [o], k)
  {
    var i: nat :| StandingFrom(cfg, hist, i, k) && hist[i].now + cfg.interval <= hist[k].now;
    assert StandingFrom(cfg, hist + [o], i, k);
  }

  lemma DropsJustifiedExtends(cfg: Config, hist: seq<Observation>, o: Observation)
    requires DropsJustified(cfg, hist)
    requires o.Saw? ==> !o.dropped
    ensures DropsJustified(cfg, hist + [o])
    ensures DroppedIn(hist + [o]) == DroppedIn(hist)
  {
    assert (hist + [o])[..|hist + [o]| - 1] == hist;
    forall k: nat | k < |hist + [o]| && (hist + [o])[k].Saw? && (hist + [o])[k].dropped
      ensures Justified(cfg, hist + [o], k)
    {
      JustifiedExtends(cfg, hist, o, k);
    }
  }

  /** Whether drops are justified does not depend on the flags that record them. */
  lemma SameStanding(cfg: Config, hist: seq<Observation>, h: seq<Observation>, t: Option<int>)
    requires |h| == |hist|
    requires forall k :: 0 <= k < |h| ==> (Standing(cfg, h[k]) <==> Standing(cfg, hist[k]))
    requires forall k :: 0 <= k < |h| && Standing(cfg, hist[k]) && Standing(cfg, h[k]) ==> h[k].now == hist[k].now
    ensures IsFirstAbove(cfg, hist, t) ==> IsFirstAbove(cfg, h, t)
    ensures forall k: nat :: k < |h| && Justified(cfg, hist, k) ==> Justified(cfg, h, k)
  {
    forall k: nat | k < |h| && Justified(cfg, hist, k)
      ensures Justified(cfg, h, k)
    {
      var i: nat :| StandingFrom(cfg, hist, i, k) && hist[i].now + cfg.interval <= hist[k].now;
      assert StandingFrom(cfg, h, i, k);
    }
    if IsFirstAbove(cfg, hist, t) && t.Some? {
      var i: nat :| BeginsStanding(cfg, hist, i) && t.value == hist[i].now + cfg.interval;
      assert BeginsStanding(cfg, h, i);
    }
  }

  lemma MarkDroppedKeeps(cfg: Config, hist: seq<Observation>, t: Option<int>)
    requires IsFirstAbove(cfg, hist, t) && DropsJustified(cfg, hist) && MayDrop(cfg, hist)
    ensures var h := MarkDropped(hist); IsFirstAbove(cfg, h, t)
    ensures var h := MarkDropped(hist); DropsJustified(cfg, h)
    ensures var h := MarkDropped(hist); DroppedIn(h) == DroppedIn(hist) + 1
  {
    var h := MarkDropped(hist);
    assert h[..|h| - 1] == hist[..|hist| - 1];
    SameStanding(cfg, hist, h, t);
  }

  /** firstAboveTime after one more dequeue. */
  function NextFirstAbove(cfg: Config, t: Option<int>, o: Observation): Option<int> {
    if !Standing(cfg, o) then None
    else if t.Some? then t
    else Some(o.now + cfg.interval)
  }

  /** firstAboveTime means the same after one more dequeue, and a packet may be dropped only
      when the standing queue is as old as the interval. */
  lemma FirstAboveAdvances(cfg: Config, hist: seq<Observation>, t: Option<int>, o: Observation)
    requires cfg.interval > 0 && IsFirstAbove(cfg, hist, t)
    ensures IsFirstAbove(cfg, hist + [o], NextFirstAbove(cfg, t, o))
    ensures Standing(cfg, o) && t.Some? && o.now >= t.value ==> Justified(cfg, hist + [o], |hist|)
  {
    var h := hist + [o];
    var n := |hist|;
    assert h[n] == o;
    if Standing(cfg, o) {
      if t.Some? {
        var i: nat :| BeginsStanding(cfg, hist, i) && t.value == hist[i].now + cfg.interval;
        assert forall j :: 0 <= j < n ==> h[j] == hist[j];
        assert StandingFrom(cfg, h, i, n);
        assert BeginsStanding(cfg, h, i);
      } else {
        assert n == 0 || h[n - 1] == hist[n - 1];
        assert StandingFrom(cfg, h, n, n);
        assert BeginsStanding(cfg, h, n);
      }
    }
  }

  ghost predicate TakesHead(f: FlowState, d: Dodequeued) {
    && d.f.bytes == QueuedBytes(d.f.q)
    && d.f.deficit == f.deficit && d.f.inNew == f.inNew
    && (d.okToDrop ==> d.f.q != [])
    && d.p == (if f.q == [] then None else Some(f.q[0]))
    && d.f.q == (if f.q == [] then [] else f.q[1..])
  }

  lemma DoDequeueTakesHead(cfg: Config, f: FlowState, now: int)
    requires f.bytes == QueuedBytes(f.q)
    ensures TakesHead(f, DoDequeue(cfg, f, now))
  {
  }

  ghost predicate KeepsHistory(cfg: Config, f: FlowState, d: Dodequeued) {
    && FlowOk(cfg, d.f)
    && DroppedIn(d.f.hist) == DroppedIn(f.hist)
    && (d.okToDrop ==> MayDrop(cfg, d.f.hist))
  }

  lemma DoDequeueKeeps(cfg: Config, f: FlowState, now: int)
    requires ValidConfig(cfg) && FlowOk(cfg, f)
    ensures KeepsHistory(cfg, f, DoDequeue(cfg, f, now))
  {
    hide IsFirstAbove, DropsJustified, Justified, DroppedIn;
    var d := DoDequeue(cfg, f, now);
    var o := if f.q == [] then SawNothing else Saw(now, now - f.q[0].enq, f.bytes - |f.q[0].data|, false);
    assert d.f.hist == f.hist + [o];
    DoDequeueTakesHead(cfg, f, now);
    DropsJustifiedExtends(cfg, f.hist, o);
    FirstAboveAdvances(cfg, f.hist, f.codel.firstAboveTime, o);
    assert d.f.codel == f.codel.(firstAboveTime := NextFirstAbove(cfg, f.codel.firstAboveTime, o));
  }

  /** The control law's part of the CoDel state does not matter to the history. */
  lemma SetCodelKeeps(cfg: Config, f: FlowState, codel: CodelState)
    requires FlowOk(cfg, f)
    requires codel.firstAboveTime == f.codel.firstAboveTime && codel.lastCount <= codel.count
    requires codel.dropping ==> codel.dropNext.Some?
    ensures FlowOk(cfg, f.(codel := codel))
  {
  }

  lemma CountDropKeeps(cfg: Config, f: FlowState)
    requires FlowOk(cfg, f) && MayDrop(cfg, f.hist)
    ensures FlowOk(cfg, CountDrop(f))
    ensures DroppedIn(CountDrop(f).hist) == DroppedIn(f.hist) + 1
  {
    MarkDroppedKeeps(cfg, f.hist, f.codel.firstAboveTime);
  }

  lemma DropStepTakesHead(cfg: Config, f: FlowState, now: int)
    requires f.bytes == QueuedBytes(f.q) && f.q != []
    ensures var d := DropStep(cfg, f, now); d.p == Some(f.q[0]) && d.f.q == f.q[1..]
    ensures var d := DropStep(cfg, f, now); d.f.codel.dropping ==> d.f.q != []
    ensures var d := DropStep(cfg, f, now); d.f.deficit == f.deficit && d.f.inNew == f.inNew
  {
    DoDequeueTakesHead(cfg, CountDrop(f), now);
  }

  lemma DropStepKeeps(cfg: Config, f: FlowState, now: int)
    requires ValidConfig(cfg) && FlowOk(cfg, f)
    requires f.q != [] && MayDrop(cfg, f.hist)
    ensures FlowOk(cfg, DropStep(cfg, f, now).f)
    ensures DroppedIn(DropStep(cfg, f, now).f.hist) == DroppedIn(f.hist) + 1
    ensures var d := DropStep(cfg, f, now).f; d.codel.dropping ==> MayDrop(cfg, d.hist)
  {
    CountDropKeeps(cfg, f);
    DoDequeueKeeps(cfg, CountDrop(f), now);
    var d := DoDequeue(cfg, CountDrop(f), now);
    SetCodelKeeps(cfg, d.f, NextDrop(cfg, d.f.codel, d.okToDrop));
  }

  /** The loop took packets from the front of the queue; the last one is in hand. */
  ghost predicate LoopTakes(f: FlowState, cur: Option<Packet>, r: Dequeued) {
    && r.drops <= |f.q|
    && r.f.q == f.q[r.drops..]
    && r.p == (if r.drops == 0 then cur else Some(f.q[r.drops - 1]))
    && r.f.deficit == f.deficit && r.f.inNew == f.inNew
  }

  lemma LoopTakesOneMore(f: FlowState, cur: Option<Packet>, d: Dodequeued, r: Dequeued)
    requires f.q != [] && d.p == Some(f.q[0]) && d.f.q == f.q[1..]
    requires d.f.deficit == f.deficit && d.f.inNew == f.inNew
    requires LoopTakes(d.f, d.p, r)
    ensures LoopTakes(f, cur, r.(drops := r.drops + 1))
  {
  }

  lemma LoopStep(cfg: Config, f: FlowState, cur: Option<Packet>, now: int)
    ensures DropLoop(cfg, f, cur, now) ==
            if f.codel.dropping && DropDue(f.codel, now) then
              var d := DropStep(cfg, f, now);
              var r := DropLoop(cfg, d.f, d.p, now);
              r.(drops := r.drops + 1)
            else Dequeued(f, cur, 0)
  {
  }

  lemma {:induction false} DropLoopKeeps(cfg: Config, f: FlowState, cur: Option<Packet>, now: int)
    requires ValidConfig(cfg) && FlowOk(cfg, f)
    requires f.codel.dropping ==> f.q != [] && MayDrop(cfg, f.hist)
    ensures var r := DropLoop(cfg, f, cur, now); FlowOk(cfg, r.f)
    ensures var r := DropLoop(cfg, f, cur, now); DroppedIn(r.f.hist) == DroppedIn(f.hist) + r.drops
    ensures LoopTakes(f, cur, DropLoop(cfg, f, cur, now))
    decreases |f.q|, f.codel.dropping
  {
    assert f.bytes == QueuedBytes(f.q);
    LoopStep(cfg, f, cur, now);
    hide FlowOk, MayDrop, DropStep, DropDue, DroppedIn, QueuedBytes, DropLoop;
    if f.codel.dropping && DropDue(f.codel, now) {
      DropStepTakesHead(cfg, f, now);
      DropStepKeeps(cfg, f, now);
      var d := DropStep(cfg, f, now);
      DropLoopKeeps(cfg, d.f, d.p, now);
      hide LoopTakes;
      LoopTakesOneMore(f, cur, d, DropLoop(cfg, d.f, d.p, now));
    }
  }

  /** What a CoDel dequeue does to a flow: it keeps the invariant, so every packet it ever drops
      is dropped from a standing queue at least one interval old; it fails only on an empty
      queue, a drop never empties the queue, and it takes packets from the front, dropping all
      but the last. */
  ghost predicate DequeueOk(cfg: Config, f: FlowState, r: Dequeued) {
    && FlowOk(cfg, r.f)
    && DroppedIn(r.f.hist) == DroppedIn(f.hist) + r.drops
    && r.f.deficit == f.deficit && r.f.inNew == f.inNew
    && (f.q == [] ==> r.p == None && r.drops == 0 && r.f.q == [])
    && (f.q != [] ==> r.drops < |f.q| && r.p == Some(f.q[r.drops]) && r.f.q == f.q[r.drops + 1..])
  }

  lemma DroppingKeeps(cfg: Config, f: FlowState, d: Dodequeued, now: int)
    requires ValidConfig(cfg) && TakesHead(f, d) && KeepsHistory(cfg, f, d)
    ensures DequeueOk(cfg, f, DropLoop(cfg, Settle(d), d.p, now))
  {
    SetCodelKeeps(cfg, d.f, d.f.codel.(dropping := false));
    DropLoopKeeps(cfg, Settle(d), d.p, now);
  }

  lemma FirstDropKeeps(cfg: Config, f: FlowState, d: Dodequeued, now: int)
    requires ValidConfig(cfg) && TakesHead(f, d) && KeepsHistory(cfg, f, d) && d.okToDrop
    ensures DequeueOk(cfg, f, FirstDrop(cfg, d.f, now))
  {
    var g := d.f.(hist := MarkDropped(d.f.hist));
    MarkDroppedKeeps(cfg, d.f.hist, d.f.codel.firstAboveTime);
    DoDequeueKeeps(cfg, g, now);
    DoDequeueTakesHead(cfg, g, now);
    var e := DoDequeue(cfg, g, now).f;
    SetCodelKeeps(cfg, e, StartDropping(cfg, e.codel, now));
  }

  lemma CodelDequeueIsOk(cfg: Config, f: FlowState, now: int)
    requires ValidConfig(cfg) && FlowOk(cfg, f)
    ensures DequeueOk(cfg, f, CodelDequeue(cfg, f, now))
  {
    var d := DoDequeue(cfg, f, now);
    DoDequeueKeeps(cfg, f, now);
    DoDequeueTakesHead(cfg, f, now);
    if d.f.codel.dropping {
      DroppingKeeps(cfg, f, d, now);
    } else if d.okToDrop {
      FirstDropKeeps(cfg, f, d, now);
    }
  }
}
