/** When CoDel drops (section 5 of RFC 8289, Linux variant), told from the history of a flow's dequeues
    alone: a reference dequeue that looks back at what every dequeue saw and dropped. The program keeps
    five registers instead; its dequeue is shown to be the reference. */
module CodelLaw {
  import opened Base
  import opened Codel

  predicate Dropped(o: Observation) {
    o.Saw? && o.dropped
  }

  predicate LastDropped(hist: seq<Observation>) {
    hist != [] && Dropped(hist[|hist| - 1])
  }

  /** The queue has been standing for an interval: the dequeue that began the present unbroken run of
      standing-queue dequeues was at least one interval before the last. */
  ghost predicate Ripe(cfg: Config, hist: seq<Observation>) {
    exists i: nat :: BeginsStanding(cfg, hist, i) && hist[i].now + cfg.interval <= hist[|hist| - 1].now
  }

  /** The dropping state as the drops of the history tell it: whether it is on, and whether the last packet
      was the one whose drop began it; the count it began with, how many drops came after the first, and
      when the next falls due. When it is off, these are about the last time it was on. */
  datatype Spell = Spell(on: bool, opening: bool, first: nat, more: nat, due: Option<int>)

  const NEVER := Spell(false, false, 0, 0, None)

  /** The count a new dropping state begins with: the drops after the first one of the last dropping state
      if there were several and its next drop fell due less than 16 intervals ago, else 1. */
  function FirstCount(cfg: Config, p: Spell, now: int): nat {
    if p.more > 1 && p.due.Some? && now - p.due.value < 16 * cfg.interval then p.more else 1
  }

  /** When the next drop falls due; after a drop, a gap later than that one was. */
  function NextDue(cfg: Config, p: Spell, afterDrop: bool): Option<int> {
    if p.due.Some? && afterDrop then Some(p.due.value + cfg.gap(p.first + p.more)) else p.due
  }

  /** One more observation. */
  function Continue(cfg: Config, p: Spell, afterDrop: bool, ripe: bool, o: Observation): Spell {
    if p.opening then p.(opening := false)
    else if !p.on then
      if Dropped(o) then
        var first := FirstCount(cfg, p, o.now);
        Spell(true, true, first, 0, Some(o.now + cfg.gap(first)))
      else p
    else if !ripe then p.(on := false)
    else p.(more := p.more + (if Dropped(o) then 1 else 0), due := NextDue(cfg, p, afterDrop))
  }

  ghost function Account(cfg: Config, hist: seq<Observation>): Spell {
    if hist == [] then NEVER
    else
      var before := hist[..|hist| - 1];
      Continue(cfg, Account(cfg, before), LastDropped(before), Ripe(cfg, hist), hist[|hist| - 1])
  }

  /** The law: the packet seen last must be dropped. Outside the dropping state when the queue is ripe; in
      it when the queue is ripe and a drop is due; never right after the drop that began it. */
  ghost predicate MustDrop(cfg: Config, hist: seq<Observation>)
    requires hist != []
  {
    var before := hist[..|hist| - 1];
    var p := Account(cfg, before);
    var due := NextDue(cfg, p, LastDropped(before));
    && Ripe(cfg, hist)
    && !p.opening
    && (p.on ==> due.Some? && hist[|hist| - 1].now >= due.value)
  }

  /** Every packet ever dequeued was dropped exactly when the law says so. */
  ghost predicate Lawful(cfg: Config, hist: seq<Observation>) {
    forall k {:trigger hist[k]} :: 0 <= k < |hist| && hist[k].Saw? ==>
      (hist[k].dropped <==> MustDrop(cfg, hist[..k + 1]))
  }

  datatype Answer = Answer(q: seq<Packet>, hist: seq<Observation>, p: Option<Packet>, drops: nat)

  /** The reference dequeue. */
  ghost function Reference(cfg: Config, q: seq<Packet>, hist: seq<Observation>, now: int): Answer
    decreases |q|, 0
  {
    if q == [] then Answer([], hist + [SawNothing], None, 0)
    else Decide(cfg, q[1..], hist + [Saw(now, now - q[0].enq, QueuedBytes(q[1..]), false)], Some(q[0]), now)
  }

  /** The packet in hand was seen last: it is dropped and the next one taken, as the law says. */
  ghost function Decide(cfg: Config, q: seq<Packet>, hist: seq<Observation>, p: Option<Packet>, now: int): Answer
    requires hist != []
    decreases |q|, 1
  {
    if MustDrop(cfg, hist)
    then var r := Reference(cfg, q, MarkDropped(hist), now); r.(drops := r.drops + 1)
    else Answer(q, hist, p, 0)
  }

  // ---------------------------------------------------------------- the account, one observation at a time

  lemma BeginsOnce(cfg: Config, hist: seq<Observation>, i: nat, j: nat)
    requires BeginsStanding(cfg, hist, i) && BeginsStanding(cfg, hist, j)
    ensures i == j
  {
  }

  /** The queue is ripe after one more observation exactly when firstAboveTime says so. */
  lemma RipeExactly(cfg: Config, hist: seq<Observation>, t: Option<int>, o: Observation)
    requires cfg.interval > 0 && IsFirstAbove(cfg, hist, t)
    ensures Ripe(cfg, hist + [o]) <==> Standing(cfg, o) && t.Some? && o.now >= t.value
  {
    var h, n := hist + [o], |hist|;
    assert h[n] == o && forall j :: 0 <= j < n ==> h[j] == hist[j];
    if Standing(cfg, o) {
      if t.Some? {
        var i: nat :| BeginsStanding(cfg, hist, i) && t.value == hist[i].now + cfg.interval;
        assert StandingFrom(cfg, h, i, n) && BeginsStanding(cfg, h, i);
        forall j: nat | BeginsStanding(cfg, h, j)
          ensures j == i
        {
          BeginsOnce(cfg, h, i, j);
        }
      } else {
        assert StandingFrom(cfg, h, n, n) && BeginsStanding(cfg, h, n);
        forall j: nat | BeginsStanding(cfg, h, j)
          ensures j == n
        {
          BeginsOnce(cfg, h, n, j);
        }
      }
    }
  }

  lemma SnocParts(hist: seq<Observation>, o: Observation)
    ensures (hist + [o])[..|hist + [o]| - 1] == hist && (hist + [o])[|hist + [o]| - 1] == o
  {
  }

  lemma AccountSnoc(cfg: Config, hist: seq<Observation>, o: Observation)
    ensures Account(cfg, hist + [o]) ==
            Continue(cfg, Account(cfg, hist), LastDropped(hist), Ripe(cfg, hist + [o]), o)
  {
    SnocParts(hist, o);
    hide Continue, Ripe, LastDropped;
  }

  lemma MustDropSnoc(cfg: Config, hist: seq<Observation>, o: Observation)
    ensures MustDrop(cfg, hist + [o]) <==>
            var p := Account(cfg, hist);
            var due := NextDue(cfg, p, LastDropped(hist));
            Ripe(cfg, hist + [o]) && !p.opening && (p.on ==> due.Some? && o.Saw? && o.now >= due.value)
  {
    SnocParts(hist, o);
    hide Account, NextDue, LastDropped;
  }

  /** Whether the queue is ripe does not depend on what was dropped. */
  lemma RipeIgnoresDrops(cfg: Config, hist: seq<Observation>, o: Observation, d: Observation)
    requires o.Saw? && d == o.(dropped := true)
    ensures Ripe(cfg, hist + [d]) <==> Ripe(cfg, hist + [o])
  {
    var a, b, n := hist + [o], hist + [d], |hist|;
    assert forall j :: 0 <= j < n ==> a[j] == b[j];
    assert a[n] == o && b[n] == d;
    forall i: nat
      ensures BeginsStanding(cfg, a, i) <==> BeginsStanding(cfg, b, i)
    {
      assert StandingFrom(cfg, a, i, n) <==> StandingFrom(cfg, b, i, n);
    }
  }

  lemma MarkSnoc(hist: seq<Observation>, o: Observation)
    requires o.Saw?
    ensures MarkDropped(hist + [o]) == hist + [o.(dropped := true)]
  {
  }

  // ---------------------------------------------------------------- the registers

  predicate Holds(c: CodelState, a: Spell) {
    && !a.opening
    && c.dropping == a.on && c.lastCount == a.first && c.count == a.first + a.more && c.dropNext == a.due
  }

  /** The CoDel registers hold the account between two calls. */
  ghost predicate Registers(cfg: Config, c: CodelState, hist: seq<Observation>) {
    Holds(c, Account(cfg, hist)) && !LastDropped(hist)
  }

  /** In the dropping state, with the packet seen last in hand. */
  ghost predicate Looping(cfg: Config, c: CodelState, hist: seq<Observation>) {
    && hist != [] && Registers(cfg, c, hist)
    && var p := Account(cfg, hist[..|hist| - 1]);
       p.on && !p.opening && p.due.Some?
  }

  lemma LoopingDue(cfg: Config, c: CodelState, hist: seq<Observation>)
    requires Looping(cfg, c, hist)
    ensures MustDrop(cfg, hist) <==> c.dropping && c.dropNext.Some? && hist[|hist| - 1].Saw? &&
                                     hist[|hist| - 1].now >= c.dropNext.value
  {
    var before, o := hist[..|hist| - 1], hist[|hist| - 1];
    assert hist == before + [o];
    MustDropSnoc(cfg, before, o);
    AccountSnoc(cfg, before, o);
    hide Account, MustDrop;
    if Ripe(cfg, hist) {
      assert o.Saw?;
    }
  }

  lemma NextDropFollows(
    cfg: Config, c: CodelState, p: Spell, afterDrop: bool, ripe: bool, o: Observation, next: Observation, ok: bool)
    requires p.on && !p.opening && p.due.Some? && o.Saw? && !o.dropped && !Dropped(next)
    requires c.dropping && Holds(c, Continue(cfg, p, afterDrop, ripe, o))
    ensures var d := Continue(cfg, p, afterDrop, ripe, o.(dropped := true));
            && d.on && !d.opening && d.due.Some?
            && Holds(NextDrop(cfg, c.(count := c.count + 1), ok), Continue(cfg, d, true, ok, next))
  {
  }

  lemma LoopDropped(cfg: Config, c: CodelState, before: seq<Observation>, o: Observation, next: Observation, ok: bool)
    requires Looping(cfg, c, before + [o]) && c.dropping && o.Saw? && !Dropped(next)
    requires ok <==> Ripe(cfg, before + [o.(dropped := true)] + [next])
    ensures Looping(cfg, NextDrop(cfg, c.(count := c.count + 1), ok), before + [o.(dropped := true)] + [next])
  {
    hide Account, Ripe, Holds, Continue, NextDrop;
    var d := o.(dropped := true);
    SnocParts(before, o);
    AccountSnoc(cfg, before, o);
    RipeIgnoresDrops(cfg, before, o, d);
    AccountSnoc(cfg, before, d);
    SnocParts(before, d);
    AccountSnoc(cfg, before + [d], next);
    SnocParts(before + [d], next);
    NextDropFollows(cfg, c, Account(cfg, before), LastDropped(before), Ripe(cfg, before + [o]), o, next, ok);
  }

  // ---------------------------------------------------------------- the program follows the law

  lemma FirstObservation(cfg: Config, f: FlowState, now: int)
    requires ValidConfig(cfg) && FlowOk(cfg, f) && f.q != []
    ensures var o := Saw(now, now - f.q[0].enq, QueuedBytes(f.q[1..]), false);
            var d := DoDequeue(cfg, f, now);
            && d.f.hist == f.hist + [o] && d.p == Some(f.q[0]) && d.f.q == f.q[1..]
            && d.f.codel.(firstAboveTime := f.codel.firstAboveTime) == f.codel
            && (d.okToDrop <==> Ripe(cfg, f.hist + [o]))
  {
    RipeExactly(cfg, f.hist, f.codel.firstAboveTime, Saw(now, now - f.q[0].enq, QueuedBytes(f.q[1..]), false));
    hide Ripe, IsFirstAbove, DropsJustified;
  }

  lemma NothingSeen(cfg: Config, f: FlowState, now: int)
    requires ValidConfig(cfg) && FlowOk(cfg, f) && f.q == []
    ensures var d := DoDequeue(cfg, f, now);
            && d.f.hist == f.hist + [SawNothing] && d.p == None && d.f.q == [] && !d.okToDrop
            && d.f.codel.(firstAboveTime := f.codel.firstAboveTime) == f.codel
    ensures !Ripe(cfg, f.hist + [SawNothing])
  {
    RipeExactly(cfg, f.hist, f.codel.firstAboveTime, SawNothing);
    hide Ripe, IsFirstAbove, DropsJustified;
  }

  /** The reference took what the program took. */
  ghost predicate Agrees(a: Answer, r: Dequeued) {
    a == Answer(r.f.q, r.f.hist, r.p, r.drops)
  }

  /** The packet is in hand in the dropping loop. */
  ghost predicate InLoop(cfg: Config, f: FlowState, now: int) {
    && FlowOk(cfg, f) && Looping(cfg, f.codel, f.hist)
    && (f.codel.dropping ==> f.q != [] && MayDrop(cfg, f.hist) && f.hist[|f.hist| - 1].now == now)
  }

  /** What DropStep does to history and registers. */
  lemma DropStepShape(cfg: Config, f: FlowState, now: int)
    requires ValidConfig(cfg) && FlowOk(cfg, f) && f.q != [] && MayDrop(cfg, f.hist)
    ensures var next := Saw(now, now - f.q[0].enq, QueuedBytes(f.q[1..]), false);
            var hist := MarkDropped(f.hist) + [next];
            var d := DropStep(cfg, f, now);
            var c := NextDrop(cfg, f.codel.(count := f.codel.count + 1), Ripe(cfg, hist));
            && d.f.hist == hist && d.f.codel == c.(firstAboveTime := d.f.codel.firstAboveTime)
  {
    CountDropKeeps(cfg, f);
    FirstObservation(cfg, CountDrop(f), now);
    hide FlowOk, Ripe, MayDrop;
  }

  lemma SameRegisters(cfg: Config, c: CodelState, hist: seq<Observation>, t: Option<int>)
    requires Looping(cfg, c, hist)
    ensures Looping(cfg, c.(firstAboveTime := t), hist)
  {
  }

  lemma LoopParts(cfg: Config, f: FlowState, now: int) returns (before: seq<Observation>, o: Observation)
    requires InLoop(cfg, f, now) && f.codel.dropping
    ensures f.hist == before + [o] && o.Saw? && f.bytes == QueuedBytes(f.q) && f.q != []
    ensures FlowOk(cfg, f) && Looping(cfg, f.codel, f.hist) && MayDrop(cfg, f.hist)
  {
    before, o := f.hist[..|f.hist| - 1], f.hist[|f.hist| - 1];
  }

  lemma BackInLoop(cfg: Config, f: FlowState, now: int)
    requires FlowOk(cfg, f) && Looping(cfg, f.codel, f.hist)
    requires f.codel.dropping ==> f.q != [] && MayDrop(cfg, f.hist)
    requires f.hist[|f.hist| - 1].Saw? ==> f.hist[|f.hist| - 1].now == now
    ensures InLoop(cfg, f, now)
  {
  }

  lemma LoopGoesOn(cfg: Config, f: FlowState, now: int)
    requires ValidConfig(cfg) && InLoop(cfg, f, now) && f.codel.dropping
    ensures var d := DropStep(cfg, f, now);
            && InLoop(cfg, d.f, now) && d.p == Some(f.q[0]) && d.f.q == f.q[1..]
            && d.f.hist == MarkDropped(f.hist) + [Saw(now, now - f.q[0].enq, QueuedBytes(f.q[1..]), false)]
  {
    hide InLoop, Looping, Ripe, NextDrop, DropStep, FlowOk, MayDrop, MarkDropped;
    var before, o := LoopParts(cfg, f, now);
    var next := Saw(now, now - f.q[0].enq, QueuedBytes(f.q[1..]), false);
    var d := DropStep(cfg, f, now);
    MarkSnoc(before, o);
    DropStepShape(cfg, f, now);
    var c := NextDrop(cfg, f.codel.(count := f.codel.count + 1), Ripe(cfg, d.f.hist));
    LoopDropped(cfg, f.codel, before, o, next, Ripe(cfg, d.f.hist));
    assert Looping(cfg, c, d.f.hist);
    SameRegisters(cfg, c, d.f.hist, d.f.codel.firstAboveTime);
    DropStepKeeps(cfg, f, now);
    DropStepTakesHead(cfg, f, now);
    BackInLoop(cfg, d.f, now);
  }

  lemma Dropping(cfg: Config, f: FlowState, now: int)
    requires ValidConfig(cfg) && InLoop(cfg, f, now)
    ensures MustDrop(cfg, f.hist) <==> f.codel.dropping && DropDue(f.codel, now)
    ensures Registers(cfg, f.codel, f.hist) && f.hist != [] && (f.codel.dropping ==> f.q != [])
  {
    LoopingDue(cfg, f.codel, f.hist);
  }

  lemma DecideStep(cfg: Config, q: seq<Packet>, hist: seq<Observation>, p: Option<Packet>, now: int)
    requires hist != []
    ensures Decide(cfg, q, hist, p, now) ==
            if !MustDrop(cfg, hist) then Answer(q, hist, p, 0)
            else if q == [] then Answer([], MarkDropped(hist) + [SawNothing], None, 1)
            else
              var o := Saw(now, now - q[0].enq, QueuedBytes(q[1..]), false);
              var r := Decide(cfg, q[1..], MarkDropped(hist) + [o], Some(q[0]), now);
              r.(drops := r.drops + 1)
  {
    hide MustDrop, MarkDropped, QueuedBytes;
  }

  lemma {:induction false} DropLoopFollows(cfg: Config, f: FlowState, cur: Option<Packet>, now: int)
    requires ValidConfig(cfg) && InLoop(cfg, f, now)
    ensures f.hist != []
    ensures var r := DropLoop(cfg, f, cur, now);
            Agrees(Decide(cfg, f.q, f.hist, cur, now), r) && Registers(cfg, r.f.codel, r.f.hist)
    decreases |f.q|, f.codel.dropping
  {
    hide InLoop, DropStep, DropDue, MustDrop, Registers, DropLoop, QueuedBytes, Decide, Reference, MarkDropped;
    Dropping(cfg, f, now);
    LoopStep(cfg, f, cur, now);
    DecideStep(cfg, f.q, f.hist, cur, now);
    if f.codel.dropping && DropDue(f.codel, now) {
      LoopGoesOn(cfg, f, now);
      var d := DropStep(cfg, f, now);
      DropLoopFollows(cfg, d.f, d.p, now);
    }
  }

  // ---------------------------------------------------------------- a whole dequeue

  lemma OneObservation(cfg: Config, f: FlowState, d: Dodequeued, o: Observation)
    requires Registers(cfg, f.codel, f.hist) && !Dropped(o)
    requires d.f.hist == f.hist + [o] && d.f.codel.(firstAboveTime := f.codel.firstAboveTime) == f.codel
    requires d.okToDrop <==> Ripe(cfg, f.hist + [o])
    requires f.codel.dropping ==> f.codel.dropNext.Some?
    ensures !f.codel.dropping ==> Registers(cfg, d.f.codel, d.f.hist) && (MustDrop(cfg, d.f.hist) <==> d.okToDrop)
    ensures f.codel.dropping ==> Looping(cfg, Settle(d).codel, Settle(d).hist)
  {
    AccountSnoc(cfg, f.hist, o);
    MustDropSnoc(cfg, f.hist, o);
    SnocParts(f.hist, o);
    hide Account, Ripe, MustDrop;
  }

  /** The drop that begins the dropping state, and the packet after it. */
  lemma OpeningFollows(cfg: Config, hist: seq<Observation>, c: CodelState, o: Observation, next: Observation)
    requires Registers(cfg, c, hist) && !c.dropping && o.Saw? && !Dropped(next)
    ensures var h := hist + [o.(dropped := true)] + [next];
            !MustDrop(cfg, h) && Registers(cfg, StartDropping(cfg, c, o.now), h)
  {
    var d := o.(dropped := true);
    AccountSnoc(cfg, hist, d);
    AccountSnoc(cfg, hist + [d], next);
    MustDropSnoc(cfg, hist + [d], next);
    SnocParts(hist + [d], next);
    hide Account, Ripe, MustDrop;
  }

  lemma ReferenceStep(cfg: Config, q: seq<Packet>, hist: seq<Observation>, now: int)
    ensures Reference(cfg, q, hist, now) ==
            if q == [] then Answer([], hist + [SawNothing], None, 0)
            else
              Decide(cfg, q[1..], hist + [Saw(now, now - q[0].enq, QueuedBytes(q[1..]), false)], Some(q[0]), now)
  {
  }

  lemma LoopingHolds(cfg: Config, c: CodelState, hist: seq<Observation>)
    requires Looping(cfg, c, hist)
    ensures Registers(cfg, c, hist)
  {
  }

  lemma EmptyFollows(cfg: Config, f: FlowState, now: int)
    requires ValidConfig(cfg) && FlowOk(cfg, f) && Registers(cfg, f.codel, f.hist) && f.q == []
    ensures var r := CodelDequeue(cfg, f, now);
            Agrees(Reference(cfg, f.q, f.hist, now), r) && Registers(cfg, r.f.codel, r.f.hist)
  {
    hide Registers, MustDrop, Ripe, IsFirstAbove, DropsJustified, Reference, Looping;
    var d := DoDequeue(cfg, f, now);
    NothingSeen(cfg, f, now);
    ReferenceStep(cfg, f.q, f.hist, now);
    OneObservation(cfg, f, d, SawNothing);
    if f.codel.dropping {
      LoopingHolds(cfg, Settle(d).codel, Settle(d).hist);
    }
  }

  lemma DueIsSet(cfg: Config, f: FlowState)
    requires FlowOk(cfg, f) && f.codel.dropping
    ensures f.codel.dropNext.Some?
  {
  }

  lemma StoppedIsOk(cfg: Config, f: FlowState)
    requires FlowOk(cfg, f)
    ensures FlowOk(cfg, f.(codel := f.codel.(dropping := false)))
  {
    SetCodelKeeps(cfg, f, f.codel.(dropping := false));
  }

  lemma BytesAre(cfg: Config, f: FlowState)
    requires FlowOk(cfg, f)
    ensures f.bytes == QueuedBytes(f.q)
  {
  }

  lemma DroppingFollows(cfg: Config, f: FlowState, now: int)
    requires ValidConfig(cfg) && FlowOk(cfg, f) && Registers(cfg, f.codel, f.hist) && f.q != [] && f.codel.dropping
    ensures var r := CodelDequeue(cfg, f, now);
            Agrees(Reference(cfg, f.q, f.hist, now), r) && Registers(cfg, r.f.codel, r.f.hist)
  {
    hide FlowOk, Registers, MustDrop, Ripe, Reference, Looping, Decide, DropLoop, DoDequeue, MayDrop, InLoop;
    hide Account, Continue;
    DueIsSet(cfg, f);
    var d := DoDequeue(cfg, f, now);
    var o := Saw(now, now - f.q[0].enq, QueuedBytes(f.q[1..]), false);
    FirstObservation(cfg, f, now);
    DoDequeueKeeps(cfg, f, now);
    ReferenceStep(cfg, f.q, f.hist, now);
    OneObservation(cfg, f, d, o);
    StoppedIsOk(cfg, d.f);
    BytesAre(cfg, f);
    DoDequeueTakesHead(cfg, f, now);
    BackInLoop(cfg, Settle(d), now);
    DropLoopFollows(cfg, Settle(d), d.p, now);
  }

  lemma MarkedIsOk(cfg: Config, f: FlowState)
    requires FlowOk(cfg, f) && MayDrop(cfg, f.hist)
    ensures FlowOk(cfg, f.(hist := MarkDropped(f.hist)))
  {
    MarkDroppedKeeps(cfg, f.hist, f.codel.firstAboveTime);
  }

  lemma OtherRegister(cfg: Config, c: CodelState, hist: seq<Observation>, t: Option<int>)
    requires Registers(cfg, c, hist)
    ensures Registers(cfg, c.(firstAboveTime := t), hist)
  {
  }

  lemma BeginningFollows(cfg: Config, f: FlowState, now: int)
    requires ValidConfig(cfg) && FlowOk(cfg, f) && Registers(cfg, f.codel, f.hist) && f.q != [] && !f.codel.dropping
    ensures var r := CodelDequeue(cfg, f, now);
            Agrees(Reference(cfg, f.q, f.hist, now), r) && Registers(cfg, r.f.codel, r.f.hist)
  {
    hide FlowOk, MustDrop, Ripe, Reference, Decide, DoDequeue, MayDrop, MarkDropped, Registers, StartDropping;
    var d := DoDequeue(cfg, f, now);
    var o := Saw(now, now - f.q[0].enq, QueuedBytes(f.q[1..]), false);
    FirstObservation(cfg, f, now);
    DoDequeueKeeps(cfg, f, now);
    ReferenceStep(cfg, f.q, f.hist, now);
    DecideStep(cfg, f.q[1..], f.hist + [o], Some(f.q[0]), now);
    OneObservation(cfg, f, d, o);
    if d.okToDrop {
      var g := d.f.(hist := MarkDropped(d.f.hist));
      BytesAre(cfg, f);
      DoDequeueTakesHead(cfg, f, now);
      MarkedIsOk(cfg, d.f);
      FirstObservation(cfg, g, now);
      var e := DoDequeue(cfg, g, now);
      var next := Saw(now, now - g.q[0].enq, QueuedBytes(g.q[1..]), false);
      MarkSnoc(f.hist, o);
      OtherRegister(cfg, f.codel, f.hist, e.f.codel.firstAboveTime);
      OpeningFollows(cfg, f.hist, e.f.codel, o, next);
      DecideStep(cfg, g.q[1..], g.hist + [next], Some(g.q[0]), now);
    }
  }

  // ---------------------------------------------------------------- every drop of a history

  /** Whether a packet must be dropped does not depend on whether it was. */
  lemma LawIgnoresDrop(cfg: Config, before: seq<Observation>, o: Observation)
    requires o.Saw?
    ensures MustDrop(cfg, before + [o.(dropped := true)]) <==> MustDrop(cfg, before + [o])
  {
    var d := o.(dropped := true);
    MustDropSnoc(cfg, before, o);
    MustDropSnoc(cfg, before, d);
    RipeIgnoresDrops(cfg, before, o, d);
    hide MustDrop, Ripe, Account;
  }

  lemma LawfulSnoc(cfg: Config, before: seq<Observation>, o: Observation)
    requires Lawful(cfg, before)
    requires o.Saw? ==> (o.dropped <==> MustDrop(cfg, before + [o]))
    ensures Lawful(cfg, before + [o])
  {
    hide MustDrop;
    var h := before + [o];
    forall k | 0 <= k < |h| && h[k].Saw?
      ensures h[k].dropped <==> MustDrop(cfg, h[..k + 1])
    {
      if k < |before| {
        assert h[k] == before[k] && h[..k + 1] == before[..k + 1];
      } else {
        assert h[..k + 1] == h;
      }
    }
  }

  lemma {:induction false} DecideKeepsLaw(
    cfg: Config, q: seq<Packet>, before: seq<Observation>, o: Observation, p: Option<Packet>, now: int)
    requires Lawful(cfg, before) && o.Saw? && !o.dropped
    ensures Lawful(cfg, Decide(cfg, q, before + [o], p, now).hist)
    decreases |q|
  {
    hide MustDrop, Lawful, MarkDropped;
    DecideStep(cfg, q, before + [o], p, now);
    if MustDrop(cfg, before + [o]) {
      var d := o.(dropped := true);
      MarkSnoc(before, o);
      LawIgnoresDrop(cfg, before, o);
      LawfulSnoc(cfg, before, d);
      if q == [] {
        LawfulSnoc(cfg, before + [d], SawNothing);
      } else {
        var next := Saw(now, now - q[0].enq, QueuedBytes(q[1..]), false);
        DecideKeepsLaw(cfg, q[1..], before + [d], next, Some(q[0]), now);
      }
    } else {
      LawfulSnoc(cfg, before, o);
    }
  }

  lemma ReferenceKeepsLaw(cfg: Config, q: seq<Packet>, hist: seq<Observation>, now: int)
    requires Lawful(cfg, hist)
    ensures Lawful(cfg, Reference(cfg, q, hist, now).hist)
  {
    hide Lawful, Decide;
    ReferenceStep(cfg, q, hist, now);
    if q == [] {
      LawfulSnoc(cfg, hist, SawNothing);
    } else {
      DecideKeepsLaw(cfg, q[1..], hist, Saw(now, now - q[0].enq, QueuedBytes(q[1..]), false), Some(q[0]), now);
    }
  }

  /** Outside the dropping state a dequeue drops exactly one packet when the first one it takes finds the
      queue ripe, else none. */
  lemma OutsideDropsAtMostOne(cfg: Config, q: seq<Packet>, hist: seq<Observation>, now: int)
    requires q != [] && !Account(cfg, hist).on && !Account(cfg, hist).opening
    ensures var o := Saw(now, now - q[0].enq, QueuedBytes(q[1..]), false);
            Reference(cfg, q, hist, now).drops == if Ripe(cfg, hist + [o]) then 1 else 0
  {
    var o := Saw(now, now - q[0].enq, QueuedBytes(q[1..]), false);
    ReferenceStep(cfg, q, hist, now);
    DecideStep(cfg, q[1..], hist + [o], Some(q[0]), now);
    MustDropSnoc(cfg, hist, o);
    hide Ripe, MustDrop, Reference, Decide;
    if Ripe(cfg, hist + [o]) && q[1..] != [] {
      var d := o.(dropped := true);
      var next := Saw(now, now - q[1..][0].enq, QueuedBytes(q[1..][1..]), false);
      MarkSnoc(hist, o);
      AccountSnoc(cfg, hist, d);
      MustDropSnoc(cfg, hist + [d], next);
      DecideStep(cfg, q[1..][1..], hist + [d] + [next], Some(q[1..][0]), now);
      hide Account;
    }
  }

  // ---------------------------------------------------------------- what a dequeue keeps

  /** Registers and history of a flow between two calls. */
  ghost predicate Follows(cfg: Config, c: CodelState, hist: seq<Observation>) {
    Registers(cfg, c, hist) && Lawful(cfg, hist)
  }

  ghost predicate FlowInvariant(cfg: Config, f: FlowState) {
    FlowOk(cfg, f) && Follows(cfg, f.codel, f.hist)
  }

  /** What a CoDel dequeue does to a flow: it keeps the invariant, so of all packets ever dequeued just
      those were dropped that the law says must be; it fails only on an empty queue, a drop never
      empties the queue, and it takes packets from the front, dropping all but the last. */
  ghost predicate GoodDequeue(cfg: Config, f: FlowState, r: Dequeued) {
    DequeueOk(cfg, f, r) && Follows(cfg, r.f.codel, r.f.hist)
  }

  /** Main result: CoDel with its five registers is the reference that looks back at the whole history. */
  lemma CodelIsReference(cfg: Config, f: FlowState, now: int)
    requires ValidConfig(cfg) && FlowInvariant(cfg, f)
    ensures var r := CodelDequeue(cfg, f, now);
            Agrees(Reference(cfg, f.q, f.hist, now), r) && Registers(cfg, r.f.codel, r.f.hist)
  {
    hide FlowOk, Registers, Lawful, CodelDequeue, Reference;
    if f.q == [] {
      EmptyFollows(cfg, f, now);
    } else if f.codel.dropping {
      DroppingFollows(cfg, f, now);
    } else {
      BeginningFollows(cfg, f, now);
    }
  }

  lemma CodelDequeueKeeps(cfg: Config, f: FlowState, now: int)
    requires ValidConfig(cfg) && FlowInvariant(cfg, f)
    ensures GoodDequeue(cfg, f, CodelDequeue(cfg, f, now))
  {
    hide FlowOk, Registers, Lawful, CodelDequeue, Reference, DequeueOk;
    CodelDequeueIsOk(cfg, f, now);
    CodelIsReference(cfg, f, now);
    ReferenceKeepsLaw(cfg, f.q, f.hist, now);
  }
}
