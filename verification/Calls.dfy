/** Calls of the scheduler's methods are runs: what is proved of every run holds of every history
    of calls. */
module Calls {
  import opened Codel
  import opened FairQueue
  import opened Runs
  import opened WorkConserving
  import opened Batches
  import opened Order

  lemma {:induction false} OutputsCompose(cfg: Config, s: State, es: seq<Event>, t: State, fs: seq<Event>)
    requires Leads(cfg, s, es, t)
    ensures RunOutputs(cfg, s, es + fs) == RunOutputs(cfg, s, es) + RunOutputs(cfg, t, fs)
    decreases |es|
  {
    hide Enabled, Next, StepOutputs;
    if es == [] {
      assert es + fs == fs;
    } else {
      assert (es + fs)[0] == es[0] && (es + fs)[1..] == es[1..] + fs;
      OutputsCompose(cfg, Next(cfg, s, es[0]), es[1..], t, fs);
    }
  }

  /** A run of one event. */
  lemma OneEvent(cfg: Config, s: State, e: Event)
    requires Enabled(cfg, s, e)
    ensures Leads(cfg, s, [e], Next(cfg, s, e))
    ensures RunOutputs(cfg, s, [e]) == StepOutputs(cfg, s, e)
  {
    hide Next, StepOutputs;
    assert [e][1..] == [];
  }

  function OverflowEvents(drops: seq<nat>): seq<Event> {
    seq(|drops|, i requires 0 <= i < |drops| => OverflowDrop(drops[i]))
  }

  lemma OverflowSnoc(drops: seq<nat>)
    requires drops != []
    ensures OverflowEvents(drops) == OverflowEvents(drops[..|drops| - 1]) + [OverflowDrop(drops[|drops| - 1])]
  {
  }

  lemma OneDrop(cfg: Config, s: State, b: nat)
    requires Enabled(cfg, s, OverflowDrop(b))
    ensures Leads(cfg, s, [OverflowDrop(b)], Overflow(s, b))
    ensures RunOutputs(cfg, s, [OverflowDrop(b)]) == []
  {
    OneEvent(cfg, s, OverflowDrop(b));
    hide Overflow;
  }

  lemma {:induction false} DropsAreRun(cfg: Config, s: State, drops: seq<nat>, t: State)
    requires DropsTo(cfg, s, drops, t)
    ensures Leads(cfg, s, OverflowEvents(drops), t)
    ensures RunOutputs(cfg, s, OverflowEvents(drops)) == []
    decreases |drops|
  {
    if drops != [] {
      hide Overflow, IsFattest;
      var init, b := drops[..|drops| - 1], drops[|drops| - 1];
      var m := AfterDrops(cfg, s, init);
      DropsAreRun(cfg, s, init, m);
      OneDrop(cfg, m, b);
      OverflowSnoc(drops);
      hide *;
      LeadsTrans(cfg, s, OverflowEvents(init), m, [OverflowDrop(b)], t);
      OutputsCompose(cfg, s, OverflowEvents(init), m, [OverflowDrop(b)]);
    }
  }

  /** Enqueue is an arrival followed by overflow drops. */
  lemma EnqueueIsRun(cfg: Config, s: State, b: nat, p: Packet, drops: seq<nat>, t: State)
    requires b < cfg.buckets && DropsTo(cfg, Arrive(cfg, s, b, p), drops, t)
    ensures Leads(cfg, s, [Arrival(b, p)] + OverflowEvents(drops), t)
    ensures RunOutputs(cfg, s, [Arrival(b, p)] + OverflowEvents(drops)) == []
  {
    hide DropsTo, Arrive;
    var e := Arrival(b, p);
    OneEvent(cfg, s, e);
    DropsAreRun(cfg, Next(cfg, s, e), drops, t);
    LeadsTrans(cfg, s, [e], Next(cfg, s, e), OverflowEvents(drops), t);
    OutputsCompose(cfg, s, [e], Next(cfg, s, e), OverflowEvents(drops));
  }

  function OutputOf(r: Result): seq<Output> {
    match r
    case Nothing(t) => []
    case Got(t, b, data) => [Output(b, data)]
  }

  ghost predicate OnlyTurns(es: seq<Event>) {
    forall e :: e in es ==> e.DequeueTurn?
  }

  /** dequeueLocked is a run of turns that passes on the packet it returns. */
  lemma {:induction false} DequeueIsRun(cfg: Config, s: State, now: int) returns (es: seq<Event>)
    requires ValidConfig(cfg) && Invariant(cfg, s)
    ensures OnlyTurns(es) && Leads(cfg, s, es, Dequeue(cfg, s, now).s)
    ensures RunOutputs(cfg, s, es) == OutputOf(Dequeue(cfg, s, now))
    decreases TurnsLeft(cfg, s)
  {
    hide Invariant, TurnsLeft, Turn, RunOutputs;
    DequeueByTurns(cfg, s, now);
    var e := DequeueTurn(now);
    OneEvent(cfg, s, e);
    es := [e];
    if Turn(cfg, s, now).Again? {
      var t := Next(cfg, s, e);
      var rest := DequeueIsRun(cfg, t, now);
      es := [e] + rest;
      LeadsTrans(cfg, s, [e], t, rest, Dequeue(cfg, s, now).s);
      OutputsCompose(cfg, s, [e], t, rest);
    }
  }

  lemma NoEvents(cfg: Config, s: State)
    ensures RunOutputs(cfg, s, []) == []
  {
  }

  /** Main result: any number of dequeues in a row are a run of turns that passes on just the
      packets of the batch, in order. */
  lemma {:induction false} BatchIsRun(cfg: Config, s: State, clock: nat -> int, n: nat) returns (es: seq<Event>)
    requires ValidConfig(cfg) && Invariant(cfg, s)
    ensures OnlyTurns(es) && Leads(cfg, s, es, DequeueMany(cfg, s, clock, n).s)
    ensures RunOutputs(cfg, s, es) == DequeueMany(cfg, s, clock, n).outputs
  {
    hide Invariant, Dequeue, RunOutputs;
    if n == 0 {
      es := [];
      NoEvents(cfg, s);
    } else {
      var m := DequeueMany(cfg, s, clock, n - 1).s;
      var first := BatchIsRun(cfg, s, clock, n - 1);
      var rest := DequeueIsRun(cfg, m, clock(n - 1));
      es := first + rest;
      LeadsTrans(cfg, s, first, m, rest, DequeueMany(cfg, s, clock, n).s);
      OutputsCompose(cfg, s, first, m, rest);
    }
  }
}
