/**
 Where the copies of a reply are: between the broadcast that made it and its arrival, a copy is lost
 only when the path loses it or dies (broadcast in cmd/server/glue.go, PathWriter in
 internal/sched/pathwriter.go).
 */
module PathCopies {
  import opened SeqWindow
  import opened Multipath

  function Count<T(==)>(l: seq<T>, x: T): nat {
    multiset(l)[x]
  }

  /** The copies c on their way to the client over path p: picked for it or sent on it. */
  function OnTheWay(w: World, p: PathId, c: Copy): nat {
    Count(w.sends, Send(p, c)) + if p in w.paths then Count(w.paths[p].queue, c) else 0
  }

  lemma CountJoins<T>(a: seq<T>, b: seq<T>, x: T)
    ensures Count(a + b, x) == Count(a, x) + Count(b, x)
  {
  }

  lemma CountRemoved<T>(l: seq<T>, i: nat, x: T)
    requires i < |l|
    ensures Count(l, x) == Count(RemoveAt(l, i), x) + if l[i] == x then 1 else 0
  {
    assert l == l[..i] + ([l[i]] + l[i + 1..]);
  }

  function ToSend(writers: seq<PathId>, c: Copy): seq<Send> {
    seq(|writers|, i requires 0 <= i < |writers| => Send(writers[i], c))
  }

  lemma {:induction false} CountToSend(writers: seq<PathId>, c: Copy, p: PathId, d: Copy)
    ensures Count(ToSend(writers, c), Send(p, d)) == if c == d then Count(writers, p) else 0
  {
    if writers != [] {
      var rest := writers[1..];
      CountToSend(rest, c, p, d);
      assert ToSend(writers, c) == [Send(writers[0], c)] + ToSend(rest, c);
      assert writers == [writers[0]] + rest;
      hide ToSend;
    }
  }

  /** How many copies c the step gives to p: as often as p is among the writers of its broadcast. */
  function Given(w: World, step: Step, p: PathId, c: Copy): nat
    requires Enabled(w, step)
  {
    if step.Broadcasts? && c == NextCopy(w, step.timestampMS, step.payload) then Count(step.writers, p) else 0
  }

  /** How many copies c leave p: one when p loses it, or it arrives at the client. */
  function Gone(w: World, step: Step, p: PathId, c: Copy): nat
    requires Enabled(w, step)
  {
    if (step.Loses? || step.Arrives?) && step.p == p && w.paths[p].queue[step.i] == c then 1 else 0
  }

  lemma SendMoves(w: World, i: nat, p: PathId, c: Copy)
    requires p in w.paths && i < |w.sends|
    ensures p in SendOn(w, i).paths && OnTheWay(SendOn(w, i), p, c) == OnTheWay(w, p, c)
  {
    CountRemoved(w.sends, i, Send(p, c));
    var s := w.sends[i];
    if s.path == p {
      CountJoins(w.paths[p].queue, [s.copy], c);
    }
    hide RemoveAt;
  }

  lemma TakenOff(w: World, q: PathId, i: nat, p: PathId, c: Copy)
    requires q in w.paths && i < |w.paths[q].queue|
    ensures TakeOff(w, q, i).paths.Keys == w.paths.Keys
    ensures OnTheWay(w, p, c)
         == OnTheWay(TakeOff(w, q, i), p, c) + if q == p && w.paths[p].queue[i] == c then 1 else 0
  {
    CountRemoved(w.paths[q].queue, i, c);
    hide RemoveAt, Count;
  }

  lemma ReceiveMovesNothing(w: World, epoch: nat, d: Copy, now: int, p: PathId, c: Copy)
    ensures Receive(w, epoch, d, now).paths == w.paths
    ensures OnTheWay(Receive(w, epoch, d, now), p, c) == OnTheWay(w, p, c)
  {
    hide Handle, Take, Count;
  }

  lemma BroadcastGives(w: World, d: Copy, writers: seq<PathId>, p: PathId, c: Copy)
    requires w.session.Session?
    ensures Broadcast(w, d, writers).paths == w.paths
    ensures OnTheWay(Broadcast(w, d, writers), p, c)
         == OnTheWay(w, p, c) + if c == d then Count(writers, p) else 0
  {
    CountToSend(writers, d, p, c);
    CountJoins(w.sends, ToSend(writers, d), Send(p, c));
    assert Broadcast(w, d, writers).sends == w.sends + ToSend(writers, d);
    hide Count, ToSend;
  }

  lemma OthersMoveNothing(w: World, step: Step, p: PathId, c: Copy)
    requires Enabled(w, step) && p in w.paths && step != PathDies(p)
    requires !step.Broadcasts? && !step.Sends? && !step.Loses? && !step.Arrives?
    ensures p in Next(w, step).paths && OnTheWay(Next(w, step), p, c) == OnTheWay(w, p, c)
  {
    hide Count;
  }

  /** One step: nothing on the way over a path that lives on is lost or doubled but by the path itself. */
  lemma StepConserves(w: World, step: Step, p: PathId, c: Copy)
    requires Enabled(w, step) && p in w.paths && step != PathDies(p)
    ensures p in Next(w, step).paths
    ensures OnTheWay(Next(w, step), p, c) + Gone(w, step, p, c) == OnTheWay(w, p, c) + Given(w, step, p, c)
  {
    hide OnTheWay, Receive, TakeOff, SendOn, Broadcast, Count;
    match step {
      case Broadcasts(ts, payload, writers) => BroadcastGives(w, NextCopy(w, ts, payload), writers, p, c);
      case Sends(i) => SendMoves(w, i, p, c);
      case Loses(q, i) => TakenOff(w, q, i, p, c);
      case Arrives(q, i, now) =>
        TakenOff(w, q, i, p, c);
        ReceiveMovesNothing(TakeOff(w, q, i), w.paths[q].epoch, w.paths[q].queue[i], now, p, c);
      case _ => OthersMoveNothing(w, step, p, c);
    }
  }

  // ---------------------------------------------------------------- runs

  predicate CanRun(w: World, steps: seq<Step>)
    decreases |steps|
  {
    steps != [] ==> Enabled(w, steps[0]) && CanRun(Next(w, steps[0]), steps[1..])
  }

  function RunOf(w: World, steps: seq<Step>): World
    requires CanRun(w, steps)
    decreases |steps|
  {
    if steps == [] then w else RunOf(Next(w, steps[0]), steps[1..])
  }

  function AllGiven(w: World, steps: seq<Step>, p: PathId, c: Copy): nat
    requires CanRun(w, steps)
    decreases |steps|
  {
    if steps == [] then 0 else Given(w, steps[0], p, c) + AllGiven(Next(w, steps[0]), steps[1..], p, c)
  }

  function AllGone(w: World, steps: seq<Step>, p: PathId, c: Copy): nat
    requires CanRun(w, steps)
    decreases |steps|
  {
    if steps == [] then 0 else Gone(w, steps[0], p, c) + AllGone(Next(w, steps[0]), steps[1..], p, c)
  }

  lemma {:induction false} RunConserves(w: World, steps: seq<Step>, p: PathId, c: Copy)
    requires CanRun(w, steps) && p in w.paths && PathDies(p) !in steps
    ensures OnTheWay(RunOf(w, steps), p, c) + AllGone(w, steps, p, c)
         == OnTheWay(w, p, c) + AllGiven(w, steps, p, c)
    decreases |steps|
  {
    hide OnTheWay, Given, Gone, Enabled, Next;
    if steps != [] {
      assert steps[0] in steps;
      StepConserves(w, steps[0], p, c);
      RunConserves(Next(w, steps[0]), steps[1..], p, c);
    }
  }

  lemma NothingYetOnTheWay(w: World, p: PathId, c: Copy)
    requires Enabled(w, PathJoins(p))
    ensures p in Next(w, PathJoins(p)).paths && OnTheWay(Next(w, PathJoins(p)), p, c) == 0
  {
  }

  /** Main result: over every run from the moment a path joins, while it lives, the copies of a reply
      that were picked for the path are those that arrived, those it lost and those on their way. */
  lemma CopiesAreConserved(w: World, p: PathId, steps: seq<Step>, c: Copy)
    requires Enabled(w, PathJoins(p)) && CanRun(Next(w, PathJoins(p)), steps) && PathDies(p) !in steps
    ensures var joined := Next(w, PathJoins(p));
            AllGiven(joined, steps, p, c) == AllGone(joined, steps, p, c) + OnTheWay(RunOf(joined, steps), p, c)
  {
    hide OnTheWay, AllGiven, AllGone, CanRun, RunOf, Enabled, Next;
    NothingYetOnTheWay(w, p, c);
    RunConserves(Next(w, PathJoins(p)), steps, p, c);
  }
}
