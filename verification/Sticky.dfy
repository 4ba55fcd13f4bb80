/** Sticky routing over whole runs (cmd/client/router.go, cmd/client/flows.go): for how long a flow
    keeps its channel and its flow ID, whatever the clocks, the sweeps and the port table do. */
module Sticky {
  import opened Base
  import opened FlowTable
  import opened Router
  import Ipv4Udp

  lemma RunPrefix(cfg: Config, s: State, es: seq<Event>, n: nat)
    requires Valid(s.flows) && 0 < n <= |es|
    ensures Valid(Next(cfg, s, es[0]).flows)
    ensures Run(cfg, s, es[..n]) == Run(cfg, Next(cfg, s, es[0]), es[1..][..n - 1])
  {
    hide Valid, Next;
    NextKeeps(cfg, s, es[0]);
    assert es[..n][1..] == es[1..][..n - 1];
  }

  // ---------------------------------------------------------------- routes

  /** When the route was last used, after the event. */
  function RouteUsed(e: Event, key: FlowKey, lastSeen: int): int {
    if PacketOf(e, key) then e.now else lastSeen
  }

  /** No sweep of the routes reads a clock more than `idle` ahead of the flow's latest packet. */
  predicate SweptInTime(es: seq<Event>, key: FlowKey, lastSeen: int, idle: nat)
    decreases |es|
  {
    es == [] ||
    ((es[0].SweepRoutes? ==> es[0].now - lastSeen <= idle) &&
     SweptInTime(es[1..], key, RouteUsed(es[0], key, lastSeen), idle))
  }

  lemma {:induction false} SweptInTimePrefix(es: seq<Event>, key: FlowKey, lastSeen: int, idle: nat, n: nat)
    requires SweptInTime(es, key, lastSeen, idle) && n <= |es|
    ensures SweptInTime(es[..n], key, lastSeen, idle)
    decreases |es|
  {
    if n > 0 {
      assert es[..n][1..] == es[1..][..n - 1];
      SweptInTimePrefix(es[1..], key, RouteUsed(es[0], key, lastSeen), idle, n - 1);
    }
  }

  /** A flow's route after the packets of a run that belong to it, whatever else happens. */
  function Follow(cfg: Config, r: Route, es: seq<Event>, key: FlowKey): Route
    decreases |es|
  {
    if es == [] then r
    else if PacketOf(es[0], key) then
      Follow(cfg, Decide(cfg, r.(lastSeen := es[0].now), es[0].owner, es[0].now), es[1..], key)
    else Follow(cfg, r, es[1..], key)
  }

  lemma RouteStep(cfg: Config, s: State, e: Event, key: FlowKey)
    requires Valid(s.flows) && key in s.routes
    requires e.SweepRoutes? ==> e.now - s.routes[key].lastSeen <= cfg.idle
    ensures key in Next(cfg, s, e).routes
    ensures Next(cfg, s, e).routes[key] ==
            if PacketOf(e, key) then Decide(cfg, s.routes[key].(lastSeen := e.now), e.owner, e.now) else s.routes[key]
  {
    hide Valid;
  }

  /** As long as no sweep is ahead of a flow's packets by more than the idle time, sweeps and other
      flows leave its route alone: it depends only on the flow's own packets. */
  lemma {:induction false} RouteFollowsItsPackets(cfg: Config, s: State, es: seq<Event>, key: FlowKey)
    requires Valid(s.flows) && key in s.routes
    requires SweptInTime(es, key, s.routes[key].lastSeen, cfg.idle)
    ensures key in Run(cfg, s, es).routes && Run(cfg, s, es).routes[key] == Follow(cfg, s.routes[key], es, key)
    decreases |es|
  {
    if es != [] {
      NextKeeps(cfg, s, es[0]);
      RouteStep(cfg, s, es[0], key);
      hide Valid, Next;
      RouteFollowsItsPackets(cfg, Next(cfg, s, es[0]), es[1..], key);
    }
  }

  lemma SweepForgets(cfg: Config, s: State, e: Event, key: FlowKey)
    requires Valid(s.flows) && key in s.routes && e.SweepRoutes? && e.now - s.routes[key].lastSeen > cfg.idle
    ensures key !in Next(cfg, s, e).routes
  {
    hide Valid;
  }

  lemma {:induction false} LateSweepForgets(cfg: Config, s: State, es: seq<Event>, key: FlowKey) returns (n: nat)
    requires Valid(s.flows) && key in s.routes
    requires !SweptInTime(es, key, s.routes[key].lastSeen, cfg.idle)
    ensures n <= |es| && key !in Run(cfg, s, es[..n]).routes
    decreases |es|
  {
    var t := s.routes[key].lastSeen;
    NextKeeps(cfg, s, es[0]);
    hide Valid, Next;
    if es[0].SweepRoutes? && es[0].now - t > cfg.idle {
      SweepForgets(cfg, s, es[0], key);
      n := 1;
      RunPrefix(cfg, s, es, n);
      assert es[1..][..0] == [];
    } else {
      RouteStep(cfg, s, es[0], key);
      var k := LateSweepForgets(cfg, Next(cfg, s, es[0]), es[1..], key);
      n := k + 1;
      RunPrefix(cfg, s, es, n);
    }
  }

  /** Main result: a route survives every moment of a run exactly when no sweep is ahead of the flow's
      latest packet by more than the idle time. No assumption on the clock readings. */
  lemma RouteSurvivesExactlyWhen(cfg: Config, s: State, es: seq<Event>, key: FlowKey)
    requires Valid(s.flows) && key in s.routes
    ensures SweptInTime(es, key, s.routes[key].lastSeen, cfg.idle)
       <==> forall n :: 0 <= n <= |es| ==> key in Run(cfg, s, es[..n]).routes
  {
    if SweptInTime(es, key, s.routes[key].lastSeen, cfg.idle) {
      forall n | 0 <= n <= |es|
        ensures key in Run(cfg, s, es[..n]).routes
      {
        SweptInTimePrefix(es, key, s.routes[key].lastSeen, cfg.idle, n);
        RouteFollowsItsPackets(cfg, s, es[..n], key);
      }
    } else {
      var n := LateSweepForgets(cfg, s, es, key);
    }
  }

  lemma {:induction false} DecidedStays(cfg: Config, r: Route, es: seq<Event>, key: FlowKey)
    requires r.decided
    ensures Follow(cfg, r, es, key).decided && Follow(cfg, r, es, key).glue == r.glue
    decreases |es|
  {
    if es != [] {
      DecidedStays(cfg, if PacketOf(es[0], key) then r.(lastSeen := es[0].now) else r, es[1..], key);
    }
  }

  /** Main result: once a packet of a flow has been sent, every later packet is sent, and to the same
      channel, whatever the port table says by then. */
  lemma ChannelIsSticky(cfg: Config, s: State, es: seq<Event>, key: FlowKey)
    requires Valid(s.flows) && key in s.routes && s.routes[key].decided
    requires SweptInTime(es, key, s.routes[key].lastSeen, cfg.idle)
    ensures key in Run(cfg, s, es).routes
    ensures ChoiceOf(Run(cfg, s, es).routes[key]) == ChoiceOf(s.routes[key])
  {
    RouteFollowsItsPackets(cfg, s, es, key);
    DecidedStays(cfg, s.routes[key], es, key);
  }

  /** A forgotten route is decided anew by the owner of the moment. */
  lemma ForgottenIsDecidedAnew(cfg: Config, s: State, fi: FlowInfo, name: string, now: int)
    requires FlowKeyOf(fi) !in s.routes
    ensures ChoiceOf(Classified(cfg, s.routes, FlowKeyOf(fi), Some(name), now)[FlowKeyOf(fi)])
         == Choice(name in cfg.games, true, false)
  {
  }

  /** The flow's packets are sent, to glue or not. */
  predicate Sends(routes: Routes, key: FlowKey, glue: bool) {
    key in routes && ChoiceOf(routes[key]) == Choice(glue, true, false)
  }

  /** The runs differ at most in what the port table says at the flow's packets. */
  ghost predicate SameButOwners(es: seq<Event>, fs: seq<Event>, key: FlowKey) {
    && |es| == |fs|
    && forall i :: 0 <= i < |es| ==>
         es[i] == fs[i] || (PacketOf(es[i], key) && PacketOf(fs[i], key) && fs[i] == es[i].(owner := fs[i].owner))
  }

  lemma {:induction false} OwnersDoNotSweep(es: seq<Event>, fs: seq<Event>, key: FlowKey, lastSeen: int, idle: nat)
    requires SameButOwners(es, fs, key)
    ensures SweptInTime(es, key, lastSeen, idle) <==> SweptInTime(fs, key, lastSeen, idle)
    decreases |es|
  {
    if es != [] {
      assert SameButOwners(es[1..], fs[1..], key);
      assert es[0] == fs[0] || (PacketOf(es[0], key) && PacketOf(fs[0], key) && fs[0].now == es[0].now);
      OwnersDoNotSweep(es[1..], fs[1..], key, RouteUsed(es[0], key, lastSeen), idle);
    }
  }

  /** The run with one name for the owner at each of the flow's packets. */
  function WithOwner(es: seq<Event>, key: FlowKey, name: string): seq<Event> {
    seq(|es|, i requires 0 <= i < |es| =>
      if PacketOf(es[i], key) then Packet(es[i].fi, Some(name), es[i].now) else es[i])
  }

  lemma WithOwnerIs(es: seq<Event>, key: FlowKey, name: string)
    ensures SameButOwners(es, WithOwner(es, key, name), key)
    ensures forall e :: e in WithOwner(es, key, name) && PacketOf(e, key) ==> e.owner == Some(name)
    ensures es != [] && PacketOf(es[|es| - 1], key) ==>
              PacketOf(WithOwner(es, key, name)[|WithOwner(es, key, name)| - 1], key)
  {
  }

  /** The flow has no route, or one to the channel. */
  ghost predicate Turned(s: State, key: FlowKey, glue: bool) {
    key in s.routes ==> s.routes[key].decided && s.routes[key].glue == glue
  }

  lemma TurnedStep(cfg: Config, s: State, e: Event, key: FlowKey, name: string)
    requires Valid(s.flows) && Turned(s, key, name in cfg.games)
    requires PacketOf(e, key) ==> e.owner == Some(name)
    ensures Turned(Next(cfg, s, e), key, name in cfg.games)
    ensures PacketOf(e, key) ==> key in Next(cfg, s, e).routes
  {
    hide Valid;
  }

  /** Once the route is gone, the flow goes where its owner's name says from then on. */
  lemma {:induction false} TurnedStays(cfg: Config, s: State, es: seq<Event>, key: FlowKey, name: string)
    requires Valid(s.flows) && Turned(s, key, name in cfg.games)
    requires forall e :: e in es && PacketOf(e, key) ==> e.owner == Some(name)
    ensures Turned(Run(cfg, s, es), key, name in cfg.games)
    ensures es != [] && PacketOf(es[|es| - 1], key) ==> key in Run(cfg, s, es).routes
    decreases |es|
  {
    if es != [] {
      NextKeeps(cfg, s, es[0]);
      assert es[0] in es;
      TurnedStep(cfg, s, es[0], key, name);
      hide Valid, Next, Turned;
      TurnedStays(cfg, Next(cfg, s, es[0]), es[1..], key, name);
      if |es| == 1 {
        assert es[1..] == [];
        assert Run(cfg, s, es) == Run(cfg, Next(cfg, s, es[0]), []);
      }
    }
  }

  lemma {:induction false} RunSplits(cfg: Config, s: State, es: seq<Event>, n: nat)
    requires Valid(s.flows) && n <= |es|
    ensures Run(cfg, s, es) == Run(cfg, Run(cfg, s, es[..n]), es[n..])
    decreases n
  {
    hide Valid, Next;
    if n == 0 {
      assert es[0..] == es;
    } else {
      RunPrefix(cfg, s, es, n);
      RunSplits(cfg, Next(cfg, s, es[0]), es[1..], n - 1);
      assert es[1..][n - 1..] == es[n..];
    }
  }

  lemma LastIsThere(cfg: Config, s: State, es: seq<Event>, key: FlowKey)
    requires Valid(s.flows) && es != [] && PacketOf(es[|es| - 1], key)
    ensures key in Run(cfg, s, es).routes
  {
    var n := |es| - 1;
    RunSplits(cfg, s, es, n);
    var u := Run(cfg, s, es[..n]);
    NextKeeps(cfg, u, es[n]);
    assert es[n..] == [es[n]] && [es[n]][1..] == [];
    assert Run(cfg, u, [es[n]]) == Run(cfg, Next(cfg, u, es[n]), []);
    hide Valid, Run;
  }

  /** A late sweep, and the flow moves when its owner's name does. */
  lemma LateSweepMoves(cfg: Config, s: State, es: seq<Event>, key: FlowKey, name: string)
    requires Valid(s.flows) && key in s.routes && es != [] && PacketOf(es[|es| - 1], key)
    requires !SweptInTime(es, key, s.routes[key].lastSeen, cfg.idle)
    ensures SameButOwners(es, WithOwner(es, key, name), key)
    ensures Sends(Run(cfg, s, WithOwner(es, key, name)).routes, key, name in cfg.games)
  {
    hide Valid, Next, Run, SweptInTime, WithOwner;
    var fs := WithOwner(es, key, name);
    WithOwnerIs(es, key, name);
    OwnersDoNotSweep(es, fs, key, s.routes[key].lastSeen, cfg.idle);
    var n := LateSweepForgets(cfg, s, fs, key);
    var u := Run(cfg, s, fs[..n]);
    if n == |fs| {
      assert fs[..n] == fs;
      LastIsThere(cfg, s, fs, key);
    }
    RunSplits(cfg, s, fs, n);
    TurnedStays(cfg, u, fs[n..], key, name);
  }

  /** Main result: a flow whose packets are sent goes on to the same channel, up to a given packet and
      whatever the port table says in between, exactly when no sweep is ahead of its latest packet by more
      than the idle time. */
  lemma ChannelIsKeptExactlyWhen(
    cfg: Config, s: State, es: seq<Event>, key: FlowKey, game: string, another: string)
    requires Valid(s.flows) && key in s.routes && s.routes[key].decided
    requires es != [] && PacketOf(es[|es| - 1], key)
    requires game in cfg.games && another !in cfg.games
    ensures SweptInTime(es, key, s.routes[key].lastSeen, cfg.idle)
       <==> forall fs :: SameButOwners(es, fs, key) ==> Sends(Run(cfg, s, fs).routes, key, s.routes[key].glue)
  {
    hide Valid, SweptInTime, Run;
    if SweptInTime(es, key, s.routes[key].lastSeen, cfg.idle) {
      forall fs | SameButOwners(es, fs, key)
        ensures Sends(Run(cfg, s, fs).routes, key, s.routes[key].glue)
      {
        OwnersDoNotSweep(es, fs, key, s.routes[key].lastSeen, cfg.idle);
        ChannelIsSticky(cfg, s, fs, key);
      }
    } else {
      LateSweepMoves(cfg, s, es, key, if s.routes[key].glue then another else game);
    }
  }

  /** The condition is needed. The client reads the clock once for a batch of packets: a sweep that
      reads it a moment later but runs first moves a flow to the other channel, although its packets
      are exactly the idle time apart. */
  lemma RaceMovesAFlow(cfg: Config, s: State, fi: FlowInfo, game: string, other: string, t: int)
    requires Valid(s.flows) && FlowKeyOf(fi) !in s.routes && game in cfg.games && other !in cfg.games
    ensures Sends(Run(cfg, s, [Packet(fi, Some(game), t)]).routes, FlowKeyOf(fi), true)
    ensures var es := [Packet(fi, Some(game), t), SweepRoutes(t + cfg.idle + 1), Packet(fi, Some(other), t + cfg.idle)];
            Sends(Run(cfg, s, es).routes, FlowKeyOf(fi), false)
  {
    var a, b := Packet(fi, Some(game), t), SweepRoutes(t + cfg.idle + 1);
    var c := Packet(fi, Some(other), t + cfg.idle);
    hide Valid;
    NextKeeps(cfg, s, a);
    TwoSections(cfg, Next(cfg, s, a), b, c);
    assert [a, b, c][1..] == [b, c] && [a][1..] == [];
  }

  // ---------------------------------------------------------------- the decision

  /** The channel as the design states it: that of the first owner seen, vpn once the wait is over;
      None while the packets are held back. */
  function Verdict(cfg: Config, first: int, es: seq<Event>, key: FlowKey): Option<bool>
    decreases |es|
  {
    if es == [] then None
    else if PacketOf(es[0], key) && es[0].owner.Some? then Some(es[0].owner.value in cfg.games)
    else if PacketOf(es[0], key) && es[0].now >= first + cfg.unknownWait then Some(false)
    else Verdict(cfg, first, es[1..], key)
  }

  lemma {:induction false} FollowIsVerdict(cfg: Config, r: Route, es: seq<Event>, key: FlowKey)
    requires !r.decided && !r.glue
    ensures var f := Follow(cfg, r, es, key);
            match Verdict(cfg, r.first, es, key)
            case None => !f.decided
            case Some(glue) => f.decided && f.glue == glue
    decreases |es|
  {
    if es != [] {
      if PacketOf(es[0], key) {
        var d := Decide(cfg, r.(lastSeen := es[0].now), es[0].owner, es[0].now);
        if d.decided {
          DecidedStays(cfg, d, es[1..], key);
        } else {
          FollowIsVerdict(cfg, d, es[1..], key);
        }
      } else {
        FollowIsVerdict(cfg, r, es[1..], key);
      }
    }
  }

  /** Main result: from a flow's first packet on, its packets go where their history says, and are
      held back exactly while the owner was unknown at each of them and less than the wait has passed
      since the first. */
  lemma DecisionFollowsHistory(cfg: Config, s: State, es: seq<Event>, key: FlowKey)
    requires Valid(s.flows) && key !in s.routes && es != [] && PacketOf(es[0], key)
    requires SweptInTime(es, key, es[0].now, cfg.idle)
    ensures key in Run(cfg, s, es).routes
    ensures ChoiceOf(Run(cfg, s, es).routes[key]) ==
            (match Verdict(cfg, es[0].now, es, key)
             case None => Choice(false, false, true)
             case Some(glue) => Choice(glue, true, false))
  {
    var r := Route(false, false, es[0].now, es[0].now);
    var u := Next(cfg, s, es[0]);
    NextKeeps(cfg, s, es[0]);
    RouteFollowsItsPackets(cfg, u, es[1..], key);
    FollowIsVerdict(cfg, r, es, key);
    assert Follow(cfg, r, es, key) == Follow(cfg, u.routes[key], es[1..], key);
  }

  /** No packet that comes `unknownWait` or more after the flow's first is held back. */
  lemma {:induction false} WaitEnds(cfg: Config, first: int, es: seq<Event>, key: FlowKey)
    requires es != [] && PacketOf(es[|es| - 1], key) && es[|es| - 1].now >= first + cfg.unknownWait
    ensures Verdict(cfg, first, es, key).Some?
    decreases |es|
  {
    if |es| > 1 {
      WaitEnds(cfg, first, es[1..], key);
    }
  }

  // ---------------------------------------------------------------- glue flow IDs

  /** The flow has the ID. */
  predicate Holds(t: Table, key: FlowKey, id: FlowId) {
    key in t.ids && t.ids[key] == id && id in t.flows
  }

  /** When the flow was last active, after the event. A reply may have read the clock before a packet
      that came first. */
  function FlowUsed(e: Event, key: FlowKey, id: FlowId, lastSeen: int): int {
    if AsksFor(e, key) || (e.Reply? && e.id == id) then e.now else lastSeen
  }

  /** No sweep of the flows reads a clock more than `idle` ahead of the flow's latest activity. */
  predicate FlowSweptInTime(es: seq<Event>, key: FlowKey, id: FlowId, lastSeen: int, idle: nat)
    decreases |es|
  {
    es == [] ||
    ((es[0].SweepFlows? ==> es[0].now - lastSeen <= idle) &&
     FlowSweptInTime(es[1..], key, id, FlowUsed(es[0], key, id, lastSeen), idle))
  }

  lemma {:induction false} FlowSweptPrefix(es: seq<Event>, key: FlowKey, id: FlowId, lastSeen: int, idle: nat, n: nat)
    requires FlowSweptInTime(es, key, id, lastSeen, idle) && n <= |es|
    ensures FlowSweptInTime(es[..n], key, id, lastSeen, idle)
    decreases |es|
  {
    if n > 0 {
      assert es[..n][1..] == es[1..][..n - 1];
      FlowSweptPrefix(es[1..], key, id, FlowUsed(es[0], key, id, lastSeen), idle, n - 1);
    }
  }

  lemma FlowStep(cfg: Config, s: State, e: Event, key: FlowKey, id: FlowId)
    requires Valid(s.flows) && Holds(s.flows, key, id)
    requires e.SweepFlows? ==> e.now - s.flows.flows[id].lastSeen <= cfg.idle
    ensures Holds(Next(cfg, s, e).flows, key, id)
    ensures Next(cfg, s, e).flows.flows[id].lastSeen == FlowUsed(e, key, id, s.flows.flows[id].lastSeen)
    ensures AsksFor(e, key) ==> ActionOf(cfg, s, e) == Some(ToGlue(id))
  {
    if e.AskId? {
      IdsAreGivenFairly(s.flows, e.fi, e.now);
    }
  }

  lemma {:induction false} FlowKept(cfg: Config, s: State, es: seq<Event>, key: FlowKey, id: FlowId)
    requires Valid(s.flows) && Holds(s.flows, key, id)
    requires FlowSweptInTime(es, key, id, s.flows.flows[id].lastSeen, cfg.idle)
    ensures Holds(Run(cfg, s, es).flows, key, id)
    decreases |es|
  {
    if es != [] {
      NextKeeps(cfg, s, es[0]);
      FlowStep(cfg, s, es[0], key, id);
      hide Valid, Next;
      FlowKept(cfg, Next(cfg, s, es[0]), es[1..], key, id);
    }
  }

  lemma {:induction false} LateSweepRemoves(cfg: Config, s: State, es: seq<Event>, key: FlowKey, id: FlowId)
    returns (n: nat)
    requires Valid(s.flows) && Holds(s.flows, key, id)
    requires !FlowSweptInTime(es, key, id, s.flows.flows[id].lastSeen, cfg.idle)
    ensures n <= |es| && !Holds(Run(cfg, s, es[..n]).flows, key, id)
    decreases |es|
  {
    NextKeeps(cfg, s, es[0]);
    if es[0].SweepFlows? && es[0].now - s.flows.flows[id].lastSeen > cfg.idle {
      n := 1;
      RunPrefix(cfg, s, es, n);
      assert id in IdleIds(s.flows, es[0].now, cfg.idle);
    } else {
      FlowStep(cfg, s, es[0], key, id);
      hide Next;
      var k := LateSweepRemoves(cfg, Next(cfg, s, es[0]), es[1..], key, id);
      n := k + 1;
      RunPrefix(cfg, s, es, n);
    }
    hide Valid;
  }

  /** Main result: a flow keeps its ID at every moment of a run exactly when no sweep is ahead of its
      latest activity by more than the idle time. */
  lemma FlowKeptExactlyWhen(cfg: Config, s: State, es: seq<Event>, key: FlowKey, id: FlowId)
    requires Valid(s.flows) && Holds(s.flows, key, id)
    ensures FlowSweptInTime(es, key, id, s.flows.flows[id].lastSeen, cfg.idle)
       <==> forall n :: 0 <= n <= |es| ==> Holds(Run(cfg, s, es[..n]).flows, key, id)
  {
    if FlowSweptInTime(es, key, id, s.flows.flows[id].lastSeen, cfg.idle) {
      forall n | 0 <= n <= |es|
        ensures Holds(Run(cfg, s, es[..n]).flows, key, id)
      {
        FlowSweptPrefix(es, key, id, s.flows.flows[id].lastSeen, cfg.idle, n);
        FlowKept(cfg, s, es[..n], key, id);
      }
    } else {
      var n := LateSweepRemoves(cfg, s, es, key, id);
    }
  }

  /** Main result: as long as the flow is kept, a glue packet of it gets the same ID. */
  lemma GlueFlowKeepsItsId(cfg: Config, s: State, es: seq<Event>, key: FlowKey, id: FlowId, e: Event)
    requires Valid(s.flows) && Holds(s.flows, key, id) && AsksFor(e, key)
    requires FlowSweptInTime(es, key, id, s.flows.flows[id].lastSeen, cfg.idle)
    ensures ActionOf(cfg, Run(cfg, s, es), e) == Some(ToGlue(id))
  {
    FlowKept(cfg, s, es, key, id);
    FlowStep(cfg, Run(cfg, s, es), e, key, id);
  }

  /** Main result: as long as the flow is kept, no UDP fragment to its destination goes to vpn, and none
      changes anything. */
  lemma NoFragmentSplitsAFlow(
    cfg: Config, s: State, es: seq<Event>, key: FlowKey, id: FlowId,
    info: Ipv4Udp.Info, owner: Option<string>, now: int)
    requires Valid(s.flows) && Holds(s.flows, key, id)
    requires FlowSweptInTime(es, key, id, s.flows.flows[id].lastSeen, cfg.idle)
    requires info.proto == Ipv4Udp.UDP && info.fragment && AddressOf(info.dst) == key.dst
    ensures var u := Run(cfg, s, es);
            var call := Sections(cfg, u, info, owner, now);
            Answer(cfg, u, call) == Some(DropFragment) && Run(cfg, u, call) == u
  {
    FlowKept(cfg, s, es, key, id);
    var u := Run(cfg, s, es);
    assert id in u.flows.flows && u.flows.flows[id].info.origDst == key.dst;
    HasDstIsExact(u.flows, key.dst);
    OneSection(cfg, u, Fragment(key.dst, now));
    hide Valid, HasDst, Run;
  }

  /** The condition is needed: a sweep that read the clock after a packet, but runs between its two
      sections, gives a flow a second ID, although it asks at exactly the idle time. */
  lemma RaceChangesAnId(cfg: Config, fi: FlowInfo, t: int)
    ensures Valid(EMPTY_TABLE)
    ensures var s := State(map[], EMPTY_TABLE);
            && ActionOf(cfg, s, AskId(fi, t)) == Some(ToGlue(1))
            && var u := Run(cfg, s, [AskId(fi, t), SweepFlows(t + cfg.idle + 1)]);
               ActionOf(cfg, u, AskId(fi, t + cfg.idle)) == Some(ToGlue(2))
  {
    EmptyIsValid();
    var s := State(map[], EMPTY_TABLE);
    var a, b := AskId(fi, t), SweepFlows(t + cfg.idle + 1);
    TwoSections(cfg, s, a, b);
    var u := Next(cfg, s, a).flows;
    assert u.flows.Keys == {1} && u.next == 1;
    var v := Sweep(u, b.now, cfg.idle);
    assert 1 in IdleIds(u, b.now, cfg.idle);
    assert v.flows.Keys == {} && v.ids.Keys == {} && v.next == 1;
  }

  /** So does a reply that read the clock before a packet, but looks its flow up after it. */
  lemma LateReplyChangesAnId(cfg: Config, fi: FlowInfo, t: int)
    ensures Valid(EMPTY_TABLE)
    ensures var s := State(map[], EMPTY_TABLE);
            && ActionOf(cfg, s, AskId(fi, t)) == Some(ToGlue(1))
            && var u := Run(cfg, s, [AskId(fi, t), Reply(1, t - 1), SweepFlows(t + cfg.idle)]);
               ActionOf(cfg, u, AskId(fi, t + cfg.idle)) == Some(ToGlue(2))
  {
    EmptyIsValid();
    var s := State(map[], EMPTY_TABLE);
    var a, b, c := AskId(fi, t), Reply(1, t - 1), SweepFlows(t + cfg.idle);
    NextKeeps(cfg, s, a);
    TwoSections(cfg, Next(cfg, s, a), b, c);
    assert [a, b, c][1..] == [b, c];
    var u := Next(cfg, Next(cfg, s, a), b).flows;
    assert u.flows.Keys == {1} && u.next == 1;
    var v := Sweep(u, c.now, cfg.idle);
    assert 1 in IdleIds(u, c.now, cfg.idle);
    assert v.flows.Keys == {} && v.ids.Keys == {} && v.next == 1;
  }

  // ---------------------------------------------------------------- clocks that lag

  predicate IsSweep(e: Event) {
    e.SweepRoutes? || e.SweepFlows?
  }

  /** Sweeps may read old clocks (their ticker's); anything else reads a clock at most `lag` behind
      what has been read before it. */
  ghost predicate Lags(es: seq<Event>, lag: nat) {
    forall i, j :: 0 <= i < j < |es| && !IsSweep(es[j]) ==> es[i].now <= es[j].now + lag
  }

  /** Every event of the run that `hit` picks comes at most `gap` after the one before it; the first
      at most `gap` after t. */
  ghost predicate Steady(es: seq<Event>, hit: Event -> bool, t: int, gap: nat)
    decreases |es|
  {
    es == [] ||
    if hit(es[0]) then es[0].now - t <= gap && Steady(es[1..], hit, es[0].now, gap)
    else Steady(es[1..], hit, t, gap)
  }

  /** No event before the last hit is later than the gap and the lag allow. */
  lemma {:induction false} WithinGap(es: seq<Event>, hit: Event -> bool, t: int, gap: nat, lag: nat, k: nat)
    requires k < |es| && Lags(es, lag) && Steady(es[k..], hit, t, gap)
    requires hit(es[|es| - 1]) && forall e :: hit(e) ==> !IsSweep(e)
    ensures es[0].now <= t + gap + lag
    decreases |es| - k
  {
    if !hit(es[k]) {
      assert es[k..][1..] == es[k + 1..];
      WithinGap(es, hit, t, gap, lag, k + 1);
    }
  }

  lemma LagsTail(es: seq<Event>, lag: nat)
    requires es != [] && Lags(es, lag)
    ensures Lags(es[1..], lag)
  {
  }

  /** Main result: up to a flow's last packet its route survives if the gaps between its packets are
      no longer than the idle time less the lag of the clocks; without lag, than the idle time. */
  lemma {:induction false} ShortGapsKeepTheRoute(es: seq<Event>, key: FlowKey, t: int, idle: nat, lag: nat)
    requires Lags(es, lag) && lag <= idle
    requires Steady(es, e => PacketOf(e, key), t, idle - lag)
    requires es != [] ==> PacketOf(es[|es| - 1], key)
    ensures SweptInTime(es, key, t, idle)
    decreases |es|
  {
    if es != [] {
      assert es[0..] == es;
      WithinGap(es, e => PacketOf(e, key), t, idle - lag, lag, 0);
      LagsTail(es, lag);
      ShortGapsKeepTheRoute(es[1..], key, RouteUsed(es[0], key, t), idle, lag);
    }
  }

  /** The same for a flow's ID, where replies also count as activity and may lag themselves: `asked` is
      the reading of the flow's latest packet. */
  lemma {:induction false} ShortGapsKeepTheId(
    es: seq<Event>, key: FlowKey, id: FlowId, asked: int, t: int, idle: nat, lag: nat)
    requires Lags(es, lag) && 2 * lag <= idle && t >= asked - lag
    requires forall e :: e in es && !IsSweep(e) ==> e.now >= asked - lag
    requires Steady(es, e => AsksFor(e, key), asked, idle - 2 * lag)
    requires es != [] ==> AsksFor(es[|es| - 1], key)
    ensures FlowSweptInTime(es, key, id, t, idle)
    decreases |es|
  {
    if es != [] {
      assert es[0..] == es;
      WithinGap(es, e => AsksFor(e, key), asked, idle - 2 * lag, lag, 0);
      LagsTail(es, lag);
      var next := if AsksFor(es[0], key) then es[0].now else asked;
      assert forall e :: e in es[1..] && !IsSweep(e) ==> e.now >= next - lag;
      ShortGapsKeepTheId(es[1..], key, id, next, FlowUsed(es[0], key, id, t), idle, lag);
    }
  }

  /** And up to a fragment that comes soon enough after a flow's packet. */
  lemma {:induction false} SoonEnoughKeepsTheId(
    es: seq<Event>, key: FlowKey, id: FlowId, asked: int, t: int, idle: nat, lag: nat, e: Event)
    requires Lags(es + [e], lag) && t >= asked - lag && e.Fragment? && e.now + 2 * lag <= asked + idle
    requires forall d :: d in es && !IsSweep(d) ==> d.now >= asked - lag
    ensures FlowSweptInTime(es, key, id, t, idle)
    decreases |es|
  {
    if es != [] {
      assert (es + [e])[0].now <= (es + [e])[|es|].now + lag;
      LagsTail(es + [e], lag);
      assert (es + [e])[1..] == es[1..] + [e];
      SoonEnoughKeepsTheId(es[1..], key, id, asked, FlowUsed(es[0], key, id, t), idle, lag, e);
    }
  }
}
