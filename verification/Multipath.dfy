/**
 Replies over several paths: the server sends every reply on all paths of a session, the client
 passes on one copy (broadcast in cmd/server/glue.go, replyHandler in cmd/client/gluepaths.go, the
 queue of one path in internal/sched/pathwriter.go).

 The world is a state machine over its atomic steps. Any path may lose, delay and reorder what is
 on it, sends of different replies may overlap, sessions end and start again with a new epoch.
 */
module Multipath {
  import opened Base
  import opened Framing
  import opened SeqWindow
  import opened AgeFilter
  import opened Receiving

  const REPLY_MAX_AGE: int := 150 * MILLISECOND

  type PathId = nat

  /** One copy of a reply: the `number`-th broadcast of a session. The client sees the frame only. */
  datatype Copy = Copy(epoch: nat, number: nat, frame: Frame)

  /** A connection that joined the session with this epoch, with the copies on their way. */
  datatype Path = Path(epoch: nat, queue: seq<Copy>)

  /** The session the server has now; `count` is the number of its broadcasts so far. */
  datatype Session = NoSession | Session(epoch: nat, replySeq: U32, count: nat)

  datatype Client = Client(epoch: nat, recv: ReceiverState)

  datatype Send = Send(path: PathId, copy: Copy)

  datatype World = World(
    session: Session,
    usedEpochs: set<nat>,
    paths: map<PathId, Path>,
    // broadcasts in progress: writers picked, Send not yet called
    sends: seq<Send>,
    client: Client,
    // history: every copy ever sent; what the client passed on, each after how many changes of the
    // epoch, and how many there were; and, since the last change, the numbers passed on and the
    // arrival times of all copies
    sent: set<Copy>,
    passed: seq<Copy>,
    eras: seq<nat>,
    era: nat,
    numbers: Numbers,
    heard: seq<Arrival>)

  const INITIAL := World(NoSession, {}, map[], [], Client(0, NEW_RECEIVER), {}, [], [], 0, NothingYet, [])

  // ---------------------------------------------------------------- the client

  /** setEpoch: a new epoch gets a new receiver. */
  function SetEpoch(c: Client, epoch: nat): Client {
    if epoch == c.epoch then c else Client(epoch, NEW_RECEIVER)
  }

  datatype Handled = Handled(c: Client, passedOn: bool)

  /** handle, for a frame that is not a ping, from a path that joined the session with `epoch`. */
  function Handle(c: Client, epoch: nat, f: Frame, now: int): Handled {
    if epoch != c.epoch then Handled(c, false)
    else
      var r := AcceptFrame(REPLY_MAX_AGE, c.recv, f, now);
      Handled(c.(recv := r.r), r.verdict == Deliver)
  }

  // ---------------------------------------------------------------- steps

  function RemoveAt<T>(l: seq<T>, i: nat): seq<T>
    requires i < |l|
  {
    l[..i] + l[i + 1..]
  }

  datatype Step =
    | SessionStarts(epoch: nat)
    | SessionEnds
    | PathJoins(p: PathId)
    | PathDies(p: PathId)
    | Installs(p: PathId)
    | Broadcasts(timestampMS: I64, payload: Bytes, writers: seq<PathId>)
    | Sends(i: nat)
    | Loses(p: PathId, i: nat)
    | Arrives(p: PathId, i: nat, now: int)

  /** When a step can happen. Epochs are random 64-bit numbers other than 0: they do not repeat. */
  predicate Enabled(w: World, step: Step) {
    match step
    case SessionStarts(epoch) => epoch != 0 && epoch !in w.usedEpochs
    case SessionEnds => true
    case PathJoins(p) => w.session.Session? && p !in w.paths && forall s :: s in w.sends ==> s.path != p
    case PathDies(p) => true
    case Installs(p) => p in w.paths
    case Broadcasts(ts, payload, writers) =>
      && w.session.Session?
      && forall p :: p in writers ==> p in w.paths && w.paths[p].epoch == w.session.epoch
    case Sends(i) => i < |w.sends|
    case Loses(p, i) => p in w.paths && i < |w.paths[p].queue|
    case Arrives(p, i, now) => p in w.paths && i < |w.paths[p].queue|
  }

  function NextCopy(w: World, timestampMS: I64, payload: Bytes): Copy
    requires w.session.Session?
  {
    Copy(w.session.epoch, w.session.count, Frame(w.session.replySeq, timestampMS, payload))
  }

  function Broadcast(w: World, c: Copy, writers: seq<PathId>): World
    requires w.session.Session?
  {
    w.(session := w.session.(replySeq := Wrap(w.session.replySeq + 1), count := w.session.count + 1),
       sends := w.sends + seq(|writers|, i requires 0 <= i < |writers| => Send(writers[i], c)),
       sent := w.sent + {c})
  }

  function SendOn(w: World, i: nat): World
    requires i < |w.sends|
  {
    var s := w.sends[i];
    var v := w.(sends := RemoveAt(w.sends, i));
    if s.path !in w.paths then v
    else v.(paths := w.paths[s.path := w.paths[s.path].(queue := w.paths[s.path].queue + [s.copy])])
  }

  function TakeOff(w: World, p: PathId, i: nat): World
    requires p in w.paths && i < |w.paths[p].queue|
  {
    w.(paths := w.paths[p := w.paths[p].(queue := RemoveAt(w.paths[p].queue, i))])
  }

  function Install(w: World, epoch: nat): World {
    if epoch == w.client.epoch then w
    else w.(client := SetEpoch(w.client, epoch), era := w.era + 1, numbers := NothingYet, heard := [])
  }

  function ArrivalOf(f: Frame, now: int): Arrival {
    Arrival(now, RawDelay(f, now))
  }

  function Receive(w: World, epoch: nat, c: Copy, now: int): World {
    var h := Handle(w.client, epoch, c.frame, now);
    var v := if epoch == w.client.epoch then w.(heard := w.heard + [ArrivalOf(c.frame, now)]) else w;
    if h.passedOn
    then v.(client := h.c, passed := w.passed + [c], eras := w.eras + [w.era], numbers := Take(w.numbers, c.number))
    else v.(client := h.c)
  }

  function Next(w: World, step: Step): World
    requires Enabled(w, step)
  {
    match step
    case SessionStarts(epoch) => w.(session := Session(epoch, 0, 0), usedEpochs := w.usedEpochs + {epoch})
    case SessionEnds => w.(session := NoSession)
    case PathJoins(p) => w.(paths := w.paths[p := Path(w.session.epoch, [])])
    case PathDies(p) => w.(paths := w.paths - {p})
    case Installs(p) => Install(w, w.paths[p].epoch)
    case Broadcasts(ts, payload, writers) => Broadcast(w, NextCopy(w, ts, payload), writers)
    case Sends(i) => SendOn(w, i)
    case Loses(p, i) => TakeOff(w, p, i)
    case Arrives(p, i, now) => Receive(TakeOff(w, p, i), w.paths[p].epoch, w.paths[p].queue[i], now)
  }

  // ---------------------------------------------------------------- invariant

  /** The session numbers its broadcasts in wrapping 32-bit numbers, and every copy is known by its
      epoch and number. */
  ghost predicate SentOk(w: World) {
    && (w.session.Session? ==> w.session.epoch in w.usedEpochs && w.session.replySeq == Wrap(w.session.count))
    && (forall c :: c in w.sent ==>
          && c.epoch in w.usedEpochs && c.frame.sn == Wrap(c.number)
          && (w.session.Session? && c.epoch == w.session.epoch ==> c.number < w.session.count))
    && (forall c, d :: c in w.sent && d in w.sent && c.epoch == d.epoch && c.number == d.number ==> c == d)
  }

  /** On a path there are only copies of the session it joined. */
  ghost predicate PathsOk(w: World) {
    && (forall p :: p in w.paths ==>
          forall c :: c in w.paths[p].queue ==> c in w.sent && c.epoch == w.paths[p].epoch)
    && (forall s :: s in w.sends ==> s.copy in w.sent && (s.path in w.paths ==> s.copy.epoch == w.paths[s.path].epoch))
  }

  ghost predicate PassedInEpoch(w: World, epoch: nat, number: int) {
    exists c :: c in w.passed && c.epoch == epoch && c.number == number
  }

  /** Passed on since the epoch last changed. */
  ghost predicate PassedNow(w: World, number: int) {
    exists i :: 0 <= i < |w.passed| && i < |w.eras| && w.eras[i] == w.era && w.passed[i].number == number
  }

  /** What was passed on since the last change of the epoch is of the present one. */
  ghost predicate ErasOk(w: World) {
    && |w.eras| == |w.passed|
    && (forall i :: 0 <= i < |w.eras| ==> w.eras[i] <= w.era)
    && (forall i :: 0 <= i < |w.eras| && w.eras[i] == w.era ==> w.passed[i].epoch == w.client.epoch)
  }

  /** The client's window shows exactly what was passed on since the last change of the epoch. */
  ghost predicate ClientOk(w: World) {
    && Shows(w.client.recv.window, w.numbers)
    && (forall n :: (w.numbers.Numbers? && n in w.numbers.accepted) <==> PassedNow(w, n))
  }

  /** The client's age registers stand for the arrivals since the last change of the epoch. */
  ghost predicate AgesOk(w: World) {
    Tracks(w.client.recv.ages, MarksOf(REPLY_MAX_AGE, w.heard), w.heard)
  }

  /** Everything passed on was sent; between two changes of the epoch no number is passed on twice. */
  ghost predicate PassedOk(w: World) {
    && |w.eras| == |w.passed|
    && (forall c :: c in w.passed ==> c in w.sent)
    && (forall i, j :: 0 <= i < j < |w.passed| ==>
          w.eras[i] < w.eras[j] || (w.eras[i] == w.eras[j] && w.passed[i].number != w.passed[j].number))
  }

  ghost predicate Invariant(w: World) {
    SentOk(w) && PathsOk(w) && ErasOk(w) && ClientOk(w) && AgesOk(w) && PassedOk(w)
  }

  /** No reply was passed on twice, and nothing of the present epoch before it last changed. */
  ghost predicate Once(w: World) {
    && (forall i, j :: 0 <= i < j < |w.passed| ==>
          w.passed[i].epoch != w.passed[j].epoch || w.passed[i].number != w.passed[j].number)
    && (forall i :: 0 <= i < |w.passed| && i < |w.eras| && w.eras[i] != w.era ==> w.passed[i].epoch != w.client.epoch)
  }

  // ---------------------------------------------------------------- what the client can rely on

  /** An arriving number is within half the number space of the client's top. */
  ghost predicate InRange(w: World, step: Step)
    requires Enabled(w, step)
  {
    step.Arrives? && w.paths[step.p].epoch == w.client.epoch ==>
      InHalfRange(w.numbers, w.paths[step.p].queue[step.i].number)
  }

  /** Installing the epoch cannot lead to a second delivery: it is the present one, or nothing of
      it has been passed on. An epoch that was never installed before is always safe. */
  ghost predicate SafeToInstall(w: World, epoch: nat) {
    epoch == w.client.epoch || forall c :: c in w.passed ==> c.epoch != epoch
  }

  /** No epoch comes back after something of it has been passed on. */
  ghost predicate Safe(w: World, step: Step)
    requires Enabled(w, step)
  {
    step.Installs? ==> SafeToInstall(w, w.paths[step.p].epoch)
  }

  // ---------------------------------------------------------------- every step keeps the invariant

  /** Steps that touch neither the client nor its history. */
  lemma ClientKeeps(w: World, v: World)
    requires ClientOk(w) && v.client == w.client && v.numbers == w.numbers
    requires v.passed == w.passed && v.eras == w.eras && v.era == w.era
    ensures ClientOk(v)
  {
    hide Shows;
    forall n
      ensures PassedNow(v, n) <==> PassedNow(w, n)
    {
    }
  }

  lemma SessionStartsKeeps(w: World, epoch: nat)
    requires Invariant(w) && Enabled(w, SessionStarts(epoch))
    ensures Invariant(Next(w, SessionStarts(epoch)))
  {
    ClientKeeps(w, Next(w, SessionStarts(epoch)));
  }

  lemma BroadcastKeeps(w: World, ts: I64, payload: Bytes, writers: seq<PathId>)
    requires Invariant(w) && Enabled(w, Broadcasts(ts, payload, writers))
    ensures Invariant(Next(w, Broadcasts(ts, payload, writers)))
  {
    var c := NextCopy(w, ts, payload);
    var v := Broadcast(w, c, writers);
    ClientKeeps(w, v);
    hide ClientOk;
    assert Wrap(w.session.replySeq + 1) == Wrap(w.session.count + 1) by { WrapAdds(w.session.count, 1); }
    hide Wrap;
    forall s | s in v.sends
      ensures s.copy in v.sent && (s.path in v.paths ==> s.copy.epoch == v.paths[s.path].epoch)
    {
      if s !in w.sends {
        var i :| 0 <= i < |writers| && s == Send(writers[i], c);
        assert writers[i] in writers;
      }
    }
  }

  lemma SendOnKeeps(w: World, i: nat)
    requires Invariant(w) && i < |w.sends|
    ensures Invariant(SendOn(w, i))
  {
    var v := SendOn(w, i);
    ClientKeeps(w, v);
    assert w.sends[i] in w.sends;
  }

  lemma TakeOffKeeps(w: World, p: PathId, i: nat)
    requires Invariant(w) && p in w.paths && i < |w.paths[p].queue|
    ensures Invariant(TakeOff(w, p, i))
  {
    ClientKeeps(w, TakeOff(w, p, i));
  }

  lemma InstallKeeps(w: World, epoch: nat)
    requires Invariant(w)
    ensures Invariant(Install(w, epoch))
  {
    var v := Install(w, epoch);
    if epoch != w.client.epoch {
      forall n
        ensures !PassedNow(v, n)
      {
      }
    }
  }

  /** By the arrivals since the epoch last changed, the frame is not refused for its age: it is at most the
      maximum above the least delay since the previous window began, or everything has been late for
      so long that it sets a new baseline. */
  predicate OnTime(w: World, f: Frame, now: int) {
    !RefStep(REPLY_MAX_AGE, MarksOf(REPLY_MAX_AGE, w.heard), w.heard + [ArrivalOf(f, now)]).refused
  }

  lemma HeardGrows(w: World, f: Frame, now: int)
    requires AgesOk(w)
    ensures var aged := AgeStep(REPLY_MAX_AGE, w.client.recv.ages, now, RawDelay(f, now));
            && (aged.refused <==> !OnTime(w, f, now))
            && var heard := w.heard + [ArrivalOf(f, now)];
               Tracks(aged.a, MarksOf(REPLY_MAX_AGE, heard), heard)
  {
    var x := ArrivalOf(f, now);
    AgeStepTracks(REPLY_MAX_AGE, w.client.recv.ages, MarksOf(REPLY_MAX_AGE, w.heard), w.heard, x);
    assert (w.heard + [x])[..|w.heard|] == w.heard;
    hide AgeStep, RefStep, Tracks;
  }

  /** Exactly when the client passes a copy on: its path belongs to the present epoch, it is on time,
      and its number is due: above all others, or less than 1024 behind and not passed on before. */
  lemma HandleDecides(w: World, c: Copy, now: int)
    requires ClientOk(w) && AgesOk(w) && c.frame.sn == Wrap(c.number)
    requires c.epoch == w.client.epoch ==> InHalfRange(w.numbers, c.number)
    ensures var h := Handle(w.client, c.epoch, c.frame, now);
            h.passedOn <==> c.epoch == w.client.epoch && OnTime(w, c.frame, now) && Due(w.numbers, c.number)
    ensures var h := Handle(w.client, c.epoch, c.frame, now);
            Shows(h.c.recv.window, if h.passedOn then Take(w.numbers, c.number) else w.numbers)
    ensures Handle(w.client, c.epoch, c.frame, now).c.epoch == w.client.epoch
  {
    if c.epoch == w.client.epoch {
      AcceptRefines(w.client.recv.window, w.numbers, c.number);
      HeardGrows(w, c.frame, now);
    }
    hide AgeStep, Admit, OnTime, AgesOk;
  }

  /** A due number is new, and taking it adds it. */
  lemma TakenNumbers(r: Numbers, n: int)
    requires r.Numbers? ==> forall a :: a in r.accepted ==> a <= r.top
    requires Due(r, n)
    ensures !(r.Numbers? && n in r.accepted)
    ensures Take(r, n).Numbers?
    ensures forall m :: m in Take(r, n).accepted <==> m == n || (r.Numbers? && m in r.accepted)
  {
  }

  lemma ReceiveKeepsAges(w: World, c: Copy, now: int)
    requires AgesOk(w)
    ensures AgesOk(Receive(w, c.epoch, c, now))
  {
    HeardGrows(w, c.frame, now);
    hide AgeStep, Admit, Tracks, MarksOf, Take, OnTime;
  }

  lemma ClientKeepsNumbers(w: World, v: World)
    requires ClientOk(w) && v.client.epoch == w.client.epoch && v.numbers == w.numbers
    requires v.passed == w.passed && v.eras == w.eras && v.era == w.era
    requires Shows(v.client.recv.window, v.numbers)
    ensures ClientOk(v)
  {
    hide Shows;
    forall n
      ensures PassedNow(v, n) <==> PassedNow(w, n)
    {
    }
  }

  /** The world with one more copy passed on. */
  function PassOn(w: World, c: Copy): World {
    w.(passed := w.passed + [c], eras := w.eras + [w.era])
  }

  lemma PassedGrows(w: World, c: Copy)
    requires ErasOk(w) && PassedOk(w) && c in w.sent && c.epoch == w.client.epoch && !PassedNow(w, c.number)
    ensures ErasOk(PassOn(w, c)) && PassedOk(PassOn(w, c))
    ensures Once(w) ==> Once(PassOn(w, c))
  {
    var v := PassOn(w, c);
    assert v.eras[|w.passed|] == v.era && v.passed[|w.passed|] == c;
    forall i | 0 <= i < |w.passed|
      ensures v.eras[i] == w.eras[i] && v.passed[i] == w.passed[i]
      ensures w.eras[i] != w.era || w.passed[i].number != c.number
    {
    }
  }

  lemma PassedNowGrows(w: World, c: Copy, n: int)
    requires |w.eras| == |w.passed|
    ensures PassedNow(PassOn(w, c), n) <==> n == c.number || PassedNow(w, n)
  {
    var v := PassOn(w, c);
    assert v.eras[|w.passed|] == v.era && v.passed[|w.passed|] == c;
    if PassedNow(w, n) {
      var i :| 0 <= i < |w.passed| && w.eras[i] == w.era && w.passed[i].number == n;
      assert v.eras[i] == v.era && v.passed[i].number == n;
    }
  }

  /** The history after a copy that was due was passed on. */
  lemma PassOnKeeps(w: World, c: Copy, v: World)
    requires ErasOk(w) && ClientOk(w) && PassedOk(w) && c in w.sent && c.epoch == w.client.epoch
    requires Due(w.numbers, c.number) && v.numbers == Take(w.numbers, c.number)
    requires v.client.epoch == w.client.epoch && Shows(v.client.recv.window, v.numbers) && v.sent == w.sent
    requires v.passed == PassOn(w, c).passed && v.eras == PassOn(w, c).eras && v.era == w.era
    ensures ErasOk(v) && ClientOk(v) && PassedOk(v)
    ensures Once(w) ==> Once(v)
  {
    assert w.numbers.Numbers? ==> forall a :: a in w.numbers.accepted ==> a <= w.numbers.top;
    TakenNumbers(w.numbers, c.number);
    hide Shows, Due, Take;
    PassedGrows(w, c);
    forall n
      ensures PassedNow(v, n) <==> n == c.number || PassedNow(w, n)
    {
      PassedNowGrows(w, c, n);
      assert PassedNow(v, n) <==> PassedNow(PassOn(w, c), n);
    }
  }

  lemma ReceiveKeepsClient(w: World, c: Copy, now: int)
    requires ErasOk(w) && ClientOk(w) && AgesOk(w) && PassedOk(w) && c in w.sent && c.frame.sn == Wrap(c.number)
    requires c.epoch == w.client.epoch ==> InHalfRange(w.numbers, c.number)
    ensures var v := Receive(w, c.epoch, c, now);
            ErasOk(v) && ClientOk(v) && PassedOk(v) && (Once(w) ==> Once(v))
  {
    HandleDecides(w, c, now);
    var h := Handle(w.client, c.epoch, c.frame, now);
    var v := Receive(w, c.epoch, c, now);
    hide Handle, Take, AgesOk, OnTime, InHalfRange, Wrap, Due, Shows;
    if h.passedOn {
      hide ErasOk, ClientOk, PassedOk, Once;
      PassOnKeeps(w, c, v);
    } else {
      ClientKeepsNumbers(w, v);
    }
  }

  lemma ReceiveLeavesServer(w: World, c: Copy, now: int)
    requires SentOk(w) && PathsOk(w)
    ensures SentOk(Receive(w, c.epoch, c, now)) && PathsOk(Receive(w, c.epoch, c, now))
  {
    hide Handle, Take;
    var v := Receive(w, c.epoch, c, now);
    assert v.session == w.session && v.usedEpochs == w.usedEpochs && v.sent == w.sent;
    assert v.paths == w.paths && v.sends == w.sends;
  }

  lemma ReceiveKeeps(w: World, c: Copy, now: int)
    requires Invariant(w) && c in w.sent
    requires c.epoch == w.client.epoch ==> InHalfRange(w.numbers, c.number)
    ensures Invariant(Receive(w, c.epoch, c, now))
    ensures Once(w) ==> Once(Receive(w, c.epoch, c, now))
  {
    assert c.frame.sn == Wrap(c.number);
    hide ErasOk, ClientOk, AgesOk, PassedOk, SentOk, PathsOk, Once, Handle, Take, Wrap, InHalfRange, Receive;
    ReceiveKeepsAges(w, c, now);
    ReceiveKeepsClient(w, c, now);
    ReceiveLeavesServer(w, c, now);
  }

  lemma OnPath(w: World, p: PathId, i: nat)
    requires Invariant(w) && p in w.paths && i < |w.paths[p].queue|
    ensures var c := w.paths[p].queue[i]; c in w.sent && c.epoch == w.paths[p].epoch && c.frame.sn == Wrap(c.number)
  {
    assert w.paths[p].queue[i] in w.paths[p].queue;
    hide Wrap;
  }

  lemma ArrivalKeeps(w: World, p: PathId, i: nat, now: int)
    requires Invariant(w) && Enabled(w, Arrives(p, i, now)) && InRange(w, Arrives(p, i, now))
    ensures Invariant(Next(w, Arrives(p, i, now)))
    ensures Once(w) ==> Once(Next(w, Arrives(p, i, now)))
  {
    OnPath(w, p, i);
    TakeOffKeeps(w, p, i);
    assert Once(w) ==> Once(TakeOff(w, p, i));
    hide Invariant, Once, Receive, InHalfRange;
    ReceiveKeeps(TakeOff(w, p, i), w.paths[p].queue[i], now);
  }

  /** Every step keeps the invariant. */
  lemma NextKeeps(w: World, step: Step)
    requires Invariant(w) && Enabled(w, step) && InRange(w, step)
    ensures Invariant(Next(w, step))
  {
    match step {
      case SessionStarts(epoch) => SessionStartsKeeps(w, epoch);
      case SessionEnds => ClientKeeps(w, Next(w, step));
      case PathJoins(p) => ClientKeeps(w, Next(w, step));
      case PathDies(p) => ClientKeeps(w, Next(w, step));
      case Installs(p) =>
        hide Invariant;
        InstallKeeps(w, w.paths[p].epoch);
      case Broadcasts(ts, payload, writers) =>
        hide Invariant;
        BroadcastKeeps(w, ts, payload, writers);
      case Sends(i) =>
        hide Invariant;
        SendOnKeeps(w, i);
      case Loses(p, i) =>
        hide Invariant;
        TakeOffKeeps(w, p, i);
      case Arrives(p, i, now) =>
        hide Invariant;
        ArrivalKeeps(w, p, i, now);
    }
  }

  lemma InstallKeepsOnce(w: World, epoch: nat)
    requires Once(w) && SafeToInstall(w, epoch)
    ensures Once(Install(w, epoch))
  {
  }

  /** With safe installs only, no reply is passed on twice. */
  lemma NextKeepsOnce(w: World, step: Step)
    requires Invariant(w) && Once(w) && Enabled(w, step) && InRange(w, step) && Safe(w, step)
    ensures Once(Next(w, step))
  {
    match step {
      case Arrives(p, i, now) =>
        hide Invariant, Once;
        ArrivalKeeps(w, p, i, now);
      case Installs(p) =>
        hide Invariant;
        InstallKeepsOnce(w, w.paths[p].epoch);
      case _ =>
        hide Invariant;
    }
  }

  /** The steps lead from w to v, and every number that arrives is within half range. */
  ghost predicate Leads(w: World, steps: seq<Step>, v: World)
    decreases |steps|
  {
    if steps == [] then v == w
    else Enabled(w, steps[0]) && InRange(w, steps[0]) && Leads(Next(w, steps[0]), steps[1..], v)
  }

  /** Every install of the run is safe. */
  ghost predicate AllSafe(w: World, steps: seq<Step>)
    decreases |steps|
  {
    steps != [] ==>
      Enabled(w, steps[0]) && Safe(w, steps[0]) && AllSafe(Next(w, steps[0]), steps[1..])
  }

  lemma {:induction false} RunKeeps(w: World, steps: seq<Step>, v: World)
    requires Invariant(w) && Leads(w, steps, v)
    ensures Invariant(v)
    decreases |steps|
  {
    hide Invariant, Enabled, InRange, Next;
    if steps != [] {
      NextKeeps(w, steps[0]);
      RunKeeps(Next(w, steps[0]), steps[1..], v);
    }
  }

  lemma {:induction false} RunKeepsOnce(w: World, steps: seq<Step>, v: World)
    requires Invariant(w) && Once(w) && Leads(w, steps, v) && AllSafe(w, steps)
    ensures Once(v)
    decreases |steps|
  {
    hide Invariant, Once, Enabled, InRange, Safe, Next;
    if steps != [] {
      NextKeeps(w, steps[0]);
      NextKeepsOnce(w, steps[0]);
      RunKeepsOnce(Next(w, steps[0]), steps[1..], v);
    }
  }

  /** Main result: whatever the paths, the sessions, the sends and the installs do, everything passed on
      was sent as it is, and a reply is passed on again only after the epoch has changed. */
  lemma RepliesPassOncePerInstall(steps: seq<Step>, w: World)
    requires Leads(INITIAL, steps, w)
    ensures forall c :: c in w.passed ==> c in w.sent
    ensures |w.eras| == |w.passed|
    ensures forall i, j :: 0 <= i < j < |w.passed| && w.passed[i] == w.passed[j] ==> w.eras[i] < w.eras[j]
  {
    RunKeeps(INITIAL, steps, w);
  }

  /** Main result: at most once. When no epoch is installed again after something of it was passed on, no
      run passes the same reply on twice. */
  lemma RepliesPassAtMostOnce(steps: seq<Step>, w: World)
    requires Leads(INITIAL, steps, w) && AllSafe(INITIAL, steps)
    ensures forall i, j :: 0 <= i < j < |w.passed| ==>
              w.passed[i].epoch != w.passed[j].epoch || w.passed[i].number != w.passed[j].number
  {
    RunKeepsOnce(INITIAL, steps, w);
  }

  /** Main result: in every state a run reaches, an arriving copy is passed on exactly when its path
      joined the session of the present epoch, it is on time, and no copy of its reply was passed on
      since the epoch last changed, unless it is 1024 or more behind the highest number passed on since.
      No assumption on the epochs: for a reply that was passed on before, this is when it is repeated. */
  lemma CopyPassesExactlyWhenDue(steps: seq<Step>, w: World, p: PathId, i: nat, now: int)
    requires Leads(INITIAL, steps, w) && Enabled(w, Arrives(p, i, now)) && InRange(w, Arrives(p, i, now))
    ensures var c := w.paths[p].queue[i];
            Next(w, Arrives(p, i, now)).passed == w.passed + [c] <==>
              && c.epoch == w.client.epoch
              && OnTime(w, c.frame, now)
              && !PassedNow(w, c.number)
              && (w.numbers.Numbers? ==> w.numbers.top - c.number < SEQ_WINDOW)
  {
    RunKeeps(INITIAL, steps, w);
    var c := w.paths[p].queue[i];
    OnPath(w, p, i);
    HandleDecides(w, c, now);
    hide Handle, OnTime;
  }

  /** With safe installs, what was passed on of the present epoch was passed on since it last changed. */
  lemma PassedNowIsPassed(w: World, number: int)
    requires ErasOk(w) && Once(w)
    ensures PassedNow(w, number) <==> PassedInEpoch(w, w.client.epoch, number)
  {
    if PassedNow(w, number) {
      var i :| 0 <= i < |w.passed| && w.eras[i] == w.era && w.passed[i].number == number;
      assert w.passed[i] in w.passed;
    }
  }

  /** A new receiver passes on whatever comes first. */
  lemma FirstCopyPasses(epoch: nat, f: Frame, now: int)
    ensures Handle(Client(epoch, NEW_RECEIVER), epoch, f, now).passedOn
  {
  }

  /** Some reply already passed on would be passed on once more right after the epoch is installed. */
  ghost predicate PassesAgain(w: World, epoch: nat, c: Copy, now: int) {
    c in w.passed && Handle(Install(w, epoch).client, c.epoch, c.frame, now).passedOn
  }

  /** The assumption on epochs is exact: installing an epoch opens the way to a second delivery if and
      only if it is not the present one and something of it has been passed on before. A path of a
      session that is long gone, but whose setEpoch comes late, does just that. */
  lemma InstallRepeatsExactlyWhenUnsafe(w: World, epoch: nat)
    requires Invariant(w) && Once(w)
    requires forall c :: c in w.passed && c.epoch == w.client.epoch ==> InHalfRange(w.numbers, c.number)
    ensures (exists c, now :: PassesAgain(w, epoch, c, now)) <==> !SafeToInstall(w, epoch)
  {
    if !SafeToInstall(w, epoch) {
      var c :| c in w.passed && c.epoch == epoch;
      FirstCopyPasses(epoch, c.frame, 0);
      assert PassesAgain(w, epoch, c, 0);
    } else {
      forall c, now
        ensures !PassesAgain(w, epoch, c, now)
      {
        if c in w.passed && c.epoch == w.client.epoch == epoch {
          assert PassedInEpoch(w, w.client.epoch, c.number);
          PassedNowIsPassed(w, c.number);
          HandleDecides(w, c, now);
        }
      }
    }
  }

  /** The path's setEpoch runs, then the copy arrives on the other path. */
  function InstallThenArrive(w: World, q: PathId, p: PathId, i: nat, now: int): World
    requires q in w.paths && p in w.paths && i < |w.paths[p].queue|
  {
    Next(Next(w, Installs(q)), Arrives(p, i, now))
  }

  predicate PassesOnOneMore(w: World, v: World, c: Copy) {
    v.passed == w.passed + [c]
  }

  /** Main result: in every state a run with safe installs reaches, with a copy of a reply that was
      passed on still on its way: installing the epoch of a path makes the client pass it on again exactly
      when the path and the copy belong to the same epoch and that is not the present one. So a setEpoch
      that comes late does harm exactly when copies of its session are still on other paths. */
  lemma LateInstallRepeatsExactlyWhen(steps: seq<Step>, w: World, q: PathId, p: PathId, i: nat, now: int)
    requires Leads(INITIAL, steps, w) && AllSafe(INITIAL, steps)
    requires q in w.paths && p in w.paths && i < |w.paths[p].queue|
    requires w.paths[p].queue[i] in w.passed
    requires w.paths[p].epoch == w.client.epoch ==> InHalfRange(w.numbers, w.paths[p].queue[i].number)
    ensures PassesOnOneMore(w, InstallThenArrive(w, q, p, i, now), w.paths[p].queue[i])
       <==> w.paths[q].epoch == w.paths[p].queue[i].epoch != w.client.epoch
  {
    RunKeeps(INITIAL, steps, w);
    RunKeepsOnce(INITIAL, steps, w);
    var c := w.paths[p].queue[i];
    OnPath(w, p, i);
    assert PassedInEpoch(w, c.epoch, c.number);
    if w.paths[q].epoch == w.client.epoch {
      PassedNowIsPassed(w, c.number);
      CopyPassesExactlyWhenDue(steps, w, p, i, now);
    } else {
      FirstCopyPasses(w.paths[q].epoch, c.frame, now);
    }
    hide Invariant, Once, OnTime, AcceptFrame;
  }
}
