/** A run of the reply protocol that passes a reply on twice (cmd/client/gluepaths.go): what happens
    when a path's setEpoch comes after its session was replaced. */
module LateInstall {
  import opened Framing
  import opened Receiving
  import opened SeqWindow
  import opened Multipath

  lemma {:induction false} OneMore(w: World, steps: seq<Step>, v: World, step: Step)
    requires Leads(w, steps, v) && Enabled(v, step) && InRange(v, step)
    ensures Leads(w, steps + [step], Next(v, step))
    decreases |steps|
  {
    hide Enabled, InRange, Next;
    if steps == [] {
      assert [step][1..] == [] && [] + [step] == [step];
    } else {
      assert (steps + [step])[0] == steps[0] && (steps + [step])[1..] == steps[1..] + [step];
      OneMore(Next(w, steps[0]), steps[1..], v, step);
    }
  }

  /** The reply: the first broadcast of the session with epoch 1. */
  const REPLY := Copy(1, 0, Frame(0, 0, []))

  const BEFORE := Path(1, [])
  const AFTER := Path(1, [REPLY])

  /** Three paths joined the session of epoch 1. */
  function Joined(): World {
    INITIAL.(session := Session(1, 0, 0), usedEpochs := {1}, paths := map[0 := BEFORE, 1 := BEFORE, 2 := BEFORE])
  }

  lemma ToJoined() returns (steps: seq<Step>)
    ensures |steps| == 4 && Leads(INITIAL, steps, Joined())
  {
    var a := Next(INITIAL, SessionStarts(1));
    var b := Next(a, PathJoins(0));
    var c := Next(b, PathJoins(1));
    assert Next(c, PathJoins(2)) == Joined();
    steps := [];
    OneMore(INITIAL, steps, INITIAL, SessionStarts(1));
    OneMore(INITIAL, steps + [SessionStarts(1)], a, PathJoins(0));
    OneMore(INITIAL, steps + [SessionStarts(1)] + [PathJoins(0)], b, PathJoins(1));
    OneMore(INITIAL, steps + [SessionStarts(1)] + [PathJoins(0)] + [PathJoins(1)], c, PathJoins(2));
    steps := steps + [SessionStarts(1)] + [PathJoins(0)] + [PathJoins(1)] + [PathJoins(2)];
  }

  /** The first path's setEpoch ran, and the reply was sent on the first two paths. */
  function Sent(): World {
    Joined().(session := Session(1, 1, 1), sent := {REPLY}, client := Client(1, NEW_RECEIVER), era := 1,
              paths := map[0 := AFTER, 1 := AFTER, 2 := BEFORE])
  }

  function Picked(): World {
    Sent().(paths := Joined().paths, sends := [Send(0, REPLY), Send(1, REPLY)])
  }

  lemma ToPicked() returns (steps: seq<Step>)
    ensures |steps| == 6 && Leads(INITIAL, steps, Picked())
  {
    steps := ToJoined();
    var a := Next(Joined(), Installs(0));
    var broadcast := Broadcasts(0, [], [0, 1]);
    assert Next(a, broadcast) == Picked() by {
      assert Next(a, broadcast).sends == [Send(0, REPLY), Send(1, REPLY)];
    }
    OneMore(INITIAL, steps, Joined(), Installs(0));
    OneMore(INITIAL, steps + [Installs(0)], a, broadcast);
    steps := steps + [Installs(0)] + [broadcast];
  }

  lemma ToSent() returns (steps: seq<Step>)
    ensures |steps| == 8 && Leads(INITIAL, steps, Sent())
  {
    steps := ToPicked();
    var a := Next(Picked(), Sends(0));
    var b := Next(a, Sends(0));
    assert a.sends == [Send(1, REPLY)] && b.sends == [] && [] + [REPLY] == [REPLY];
    assert a.paths == map[0 := AFTER, 1 := BEFORE, 2 := BEFORE];
    assert b.paths == Sent().paths;
    assert b == Sent();
    OneMore(INITIAL, steps, Picked(), Sends(0));
    OneMore(INITIAL, steps + [Sends(0)], a, Sends(0));
    steps := steps + [Sends(0)] + [Sends(0)];
  }

  /** The reply arrived on the first path and was passed on. */
  ghost predicate PassedOnce(w: World) {
    && w.paths == map[0 := BEFORE, 1 := AFTER, 2 := BEFORE]
    && w.sends == [] && w.usedEpochs == {1} && w.client.epoch == 1 && w.passed == [REPLY]
  }

  lemma ToPassedOnce() returns (steps: seq<Step>, w: World)
    ensures |steps| == 9 && Leads(INITIAL, steps, w) && PassedOnce(w)
  {
    steps := ToSent();
    var arrives := Arrives(0, 0, 0);
    OneMore(INITIAL, steps, Sent(), arrives);
    FirstCopyPasses(1, REPLY.frame, 0);
    hide AcceptFrame;
    w := Next(Sent(), arrives);
    assert RemoveAt([REPLY], 0) == [];
    assert w.paths == map[0 := BEFORE, 1 := AFTER, 2 := BEFORE];
    assert w.passed == [REPLY];
    steps := steps + [arrives];
  }

  /** The session started again with epoch 2, and a new path's setEpoch ran. */
  ghost predicate Replaced(w: World) {
    && w.paths == map[0 := BEFORE, 1 := AFTER, 2 := BEFORE, 3 := Path(2, [])]
    && w.client == Client(2, NEW_RECEIVER) && w.passed == [REPLY] && w.numbers == NothingYet
  }

  lemma ToReplaced() returns (steps: seq<Step>, w: World)
    ensures |steps| == 12 && Leads(INITIAL, steps, w) && Replaced(w)
  {
    var v;
    steps, v := ToPassedOnce();
    var a := Next(v, SessionStarts(2));
    var b := Next(a, PathJoins(3));
    OneMore(INITIAL, steps, v, SessionStarts(2));
    OneMore(INITIAL, steps + [SessionStarts(2)], a, PathJoins(3));
    OneMore(INITIAL, steps + [SessionStarts(2)] + [PathJoins(3)], b, Installs(3));
    w := Next(b, Installs(3));
    steps := steps + [SessionStarts(2)] + [PathJoins(3)] + [Installs(3)];
  }

  /** The failure: the third old path's setEpoch comes now, and the reply's copy on the second one is
      passed on as well. */
  lemma LateInstallPassesTwice() returns (steps: seq<Step>, w: World)
    ensures |steps| == 14 && Leads(INITIAL, steps, w) && w.passed == [REPLY, REPLY]
  {
    var v;
    steps, v := ToReplaced();
    var a := Next(v, Installs(2));
    var arrives := Arrives(1, 0, 0);
    OneMore(INITIAL, steps, v, Installs(2));
    OneMore(INITIAL, steps + [Installs(2)], a, arrives);
    FirstCopyPasses(1, REPLY.frame, 0);
    hide AcceptFrame;
    w := Next(a, arrives);
    steps := steps + [Installs(2)] + [arrives];
  }
}
