/** The client's per-packet choice between glue and vpn (cmd/client/router.go): decided once per flow,
    never moved. */
module Router {
  import opened Base
  import opened FlowTable
  import Ipv4Udp

  /** One second (router.go:42) and the idle time both sweeps use are parameters, in the clock's unit;
      `games` are the configured process names. */
  datatype Config = Config(unknownWait: nat, idle: nat, games: seq<string>)

  datatype Route = Route(decided: bool, glue: bool, first: int, lastSeen: int)

  type Routes = map<FlowKey, Route>

  // ---------------------------------------------------------------- operations

  datatype Choice = Choice(glue: bool, send: bool, refresh: bool)

  /** The route of a flow when one of its packets arrives; a new one starts undecided. */
  function Arrived(routes: Routes, key: FlowKey, now: int): Route {
    (if key in routes then routes[key] else Route(false, false, now, now)).(lastSeen := now)
  }

  /** Decides an undecided route, if it can be: `owner` is what the port table says right now. */
  function Decide(cfg: Config, r: Route, owner: Option<string>, now: int): Route {
    if r.decided then r
    else if owner.Some? then r.(decided := true, glue := owner.value in cfg.games)
    else if now - r.first >= cfg.unknownWait then r.(decided := true)
    else r
  }

  function ChoiceOf(r: Route): Choice {
    Choice(r.decided && r.glue, r.decided, !r.decided)
  }

  /** classify's new routes and answer. */
  function Classified(cfg: Config, routes: Routes, key: FlowKey, owner: Option<string>, now: int): Routes {
    routes[key := Decide(cfg, Arrived(routes, key, now), owner, now)]
  }

  function SweptRoutes(routes: Routes, now: int, idle: int): Routes {
    map key | key in routes && now - routes[key].lastSeen <= idle :: routes[key]
  }

  // ---------------------------------------------------------------- runs

  datatype State = State(routes: Routes, flows: Table)

  /** The mutex sections. A packet that classify sends to glue asks for its flow ID in a section of its
      own: sweeps and replies may come in between. */
  datatype Event =
    | Packet(fi: FlowInfo, owner: Option<string>, now: int)
    | AskId(fi: FlowInfo, now: int)
    | Fragment(dst: Address, now: int)
    | Reply(id: FlowId, now: int)
    | SweepRoutes(now: int)
    | SweepFlows(now: int)

  datatype Action = ToVPN | ToGlue(id: FlowId) | DropUnknown | DropFragment

  function Next(cfg: Config, s: State, e: Event): State
    requires Valid(s.flows)
  {
    match e
    case Packet(fi, owner, now) =>
      s.(routes := Classified(cfg, s.routes, FlowKeyOf(fi), owner, now))
    case AskId(fi, now) => s.(flows := GiveId(s.flows, fi, now).t)
    case Fragment(_, _) => s
    case Reply(id, now) => s.(flows := Touch(s.flows, id, now))
    case SweepRoutes(now) => s.(routes := SweptRoutes(s.routes, now, cfg.idle))
    case SweepFlows(now) => s.(flows := Sweep(s.flows, now, cfg.idle))
  }

  /** What happens to the packet an event is about; None when it goes on to ask for its ID, and for
      events without a packet. */
  function ActionOf(cfg: Config, s: State, e: Event): Option<Action>
    requires Valid(s.flows)
  {
    match e
    case Packet(fi, owner, now) =>
      var c := ChoiceOf(Classified(cfg, s.routes, FlowKeyOf(fi), owner, now)[FlowKeyOf(fi)]);
      if !c.send then Some(DropUnknown) else if c.glue then None else Some(ToVPN)
    case AskId(fi, now) =>
      (match GiveId(s.flows, fi, now).id
       case Some(id) => Some(ToGlue(id))
       case None => Some(DropUnknown))
    case Fragment(dst, _) => Some(if HasDst(s.flows, dst) then DropFragment else ToVPN)
    case _ => None
  }

  lemma NextKeeps(cfg: Config, s: State, e: Event)
    requires Valid(s.flows)
    ensures Valid(Next(cfg, s, e).flows)
  {
    hide Valid;
    match e
    case AskId(fi, now) => IdsAreGivenFairly(s.flows, fi, now);
    case Reply(id, now) => TouchKeeps(s.flows, id, now);
    case SweepFlows(now) => SweepKeeps(s.flows, now, cfg.idle);
    case _ =>
  }

  function Run(cfg: Config, s: State, es: seq<Event>): (u: State)
    requires Valid(s.flows)
    ensures Valid(u.flows)
    decreases |es|
  {
    if es == [] then s
    else
      NextKeeps(cfg, s, es[0]);
      Run(cfg, Next(cfg, s, es[0]), es[1..])
  }

  predicate PacketOf(e: Event, key: FlowKey) {
    e.Packet? && FlowKeyOf(e.fi) == key
  }

  predicate AsksFor(e: Event, key: FlowKey) {
    e.AskId? && FlowKeyOf(e.fi) == key
  }

  // ---------------------------------------------------------------- the objects

  class UdpRouter {
    const cfg: Config
    var routes: Routes

    constructor (cfg: Config)
      ensures this.cfg == cfg && routes == map[]
    {
      this.cfg := cfg;
      routes := map[];
    }

    /** `owner` is what the port table answers; refresh tells that a reload is asked for. */
    method Classify(key: FlowKey, owner: Option<string>, now: int) returns (glue: bool, send: bool, refresh: bool)
      modifies this
      ensures routes == Classified(cfg, old(routes), key, owner, now)
      ensures Choice(glue, send, refresh) == ChoiceOf(routes[key])
    {
      var rt := Route(false, false, now, now);
      if key in routes {
        rt := routes[key];
      }
      rt := rt.(lastSeen := now);
      routes := routes[key := rt];
      if rt.decided {
        return rt.glue, true, false;
      }
      if owner.Some? {
        rt := rt.(decided := true, glue := owner.value in cfg.games);
      } else if now - rt.first >= cfg.unknownWait {
        rt := rt.(decided := true);
      } else {
        return false, false, true;
      }
      routes := routes[key := rt];
      return rt.glue, true, false;
    }

    method Sweep(now: int, idle: int)
      modifies this
      ensures routes == SweptRoutes(old(routes), now, idle)
    {
      ghost var start := routes;
      var rest := routes.Keys;
      while rest != {}
        invariant rest <= start.Keys
        invariant routes == map key | key in start && (key in rest || now - start[key].lastSeen <= idle) :: start[key]
        decreases rest
      {
        var key :| key in rest;
        rest := rest - {key};
        if now - routes[key].lastSeen > idle {
          routes := routes - {key};
        }
      }
    }
  }

  /** copy(dst[:], ip.To4()): zero for an address that is not IPv4. */
  function AddressOf(ip: Bytes): Address {
    match Ipv4Udp.To4(ip)
    case Some(a) => a
    case None => Address(0, 0, 0, 0)
  }

  function FlowOf(info: Ipv4Udp.Info): FlowInfo {
    FlowInfo(AddressOf(info.src), AddressOf(info.dst), info.srcPort, info.dstPort)
  }

  /** decide's mutex sections for one parsed packet. */
  function Sections(cfg: Config, s: State, info: Ipv4Udp.Info, owner: Option<string>, now: int): seq<Event> {
    if info.proto != Ipv4Udp.UDP then []
    else if info.fragment then [Fragment(AddressOf(info.dst), now)]
    else if info.payload.None? then []
    else
      var fi := FlowOf(info);
      var packet := Packet(fi, owner, now);
      if ChoiceOf(Classified(cfg, s.routes, FlowKeyOf(fi), owner, now)[FlowKeyOf(fi)]).glue
      then [packet, AskId(fi, now)] else [packet]
  }

  /** The answer of a run of sections: that of the last one; a packet without any goes to vpn. */
  function Answer(cfg: Config, s: State, es: seq<Event>): Option<Action>
    requires Valid(s.flows)
    decreases |es|
  {
    if es == [] then Some(ToVPN)
    else if |es| == 1 then ActionOf(cfg, s, es[0])
    else
      NextKeeps(cfg, s, es[0]);
      Answer(cfg, Next(cfg, s, es[0]), es[1..])
  }

  lemma OneSection(cfg: Config, s: State, e: Event)
    requires Valid(s.flows)
    ensures Run(cfg, s, [e]) == Next(cfg, s, e) && Answer(cfg, s, [e]) == ActionOf(cfg, s, e)
  {
    hide Valid, Next, ActionOf;
    NextKeeps(cfg, s, e);
    assert [e][1..] == [];
  }

  lemma TwoSections(cfg: Config, s: State, e: Event, f: Event)
    requires Valid(s.flows)
    ensures Valid(Next(cfg, s, e).flows)
    ensures Run(cfg, s, [e, f]) == Next(cfg, Next(cfg, s, e), f)
    ensures Answer(cfg, s, [e, f]) == ActionOf(cfg, Next(cfg, s, e), f)
  {
    hide Valid, Next, ActionOf;
    NextKeeps(cfg, s, e);
    NextKeeps(cfg, Next(cfg, s, e), f);
    var u := Next(cfg, s, e);
    assert [e, f][1..] == [f] && [f][1..] == [];
    assert Run(cfg, u, [f]) == Run(cfg, Next(cfg, u, f), []);
    assert Answer(cfg, u, [f]) == ActionOf(cfg, u, f);
    assert Answer(cfg, s, [e, f]) == Answer(cfg, u, [f]);
  }

  // ---------------------------------------------------------------- what becomes of a packet

  function KeyOf(info: Ipv4Udp.Info): FlowKey {
    FlowKey(info.srcPort, AddressOf(info.dst), info.dstPort)
  }

  /** The channel of a flow's packet as the design states it: a decided flow keeps its own; else the
      owner's name decides, or the end of the wait; None while the packet is held back. */
  function ChannelFor(cfg: Config, routes: Routes, key: FlowKey, owner: Option<string>, now: int): Option<bool> {
    if key in routes && routes[key].decided then Some(routes[key].glue)
    else if owner.Some? then Some(owner.value in cfg.games)
    else if cfg.unknownWait <= now - (if key in routes then routes[key].first else now) then Some(false)
    else None
  }

  /** The route the packet leaves behind; no other flow's changes. */
  ghost predicate RoutesAfter(cfg: Config, s: Routes, t: Routes, key: FlowKey, channel: Option<bool>, now: int) {
    && t.Keys == s.Keys + {key} && (forall other :: other in s && other != key ==> t[other] == s[other])
    && t[key].lastSeen == now && t[key].first == (if key in s then s[key].first else now)
    && (t[key].decided <==> channel.Some?) && (channel.Some? ==> t[key].glue == channel.value)
  }

  /** A glue packet goes out under its flow's ID: that of the table, or a free one for a new flow; it is
      dropped only when there is none. */
  ghost predicate GoesToGlue(s: Table, t: Table, info: Ipv4Udp.Info, now: int, action: Action) {
    var key := KeyOf(info);
    match action
    case ToGlue(id) =>
      && key in t.ids && t.ids[key] == id && id in t.flows && t.flows[id].lastSeen == now
      && (key in s.ids ==> s.ids[key] == id)
      && (key !in s.ids ==>
            && id !in s.flows
            && t.flows[id].info == FlowInfo(AddressOf(info.src), AddressOf(info.dst), info.srcPort, info.dstPort))
    case DropUnknown => t == s && key !in s.ids && forall id: FlowId :: id in s.flows
    case _ => false
  }

  /** What decide makes of a packet: of the packet and the two tables alone. */
  ghost predicate Decides(
    cfg: Config, s: State, info: Ipv4Udp.Info, owner: Option<string>, now: int, t: State, action: Action)
  {
    if info.proto != Ipv4Udp.UDP || (!info.fragment && info.payload.None?) then t == s && action == ToVPN
    else if info.fragment then
      && t == s
      && action == if exists id :: id in s.flows.flows && s.flows.flows[id].info.origDst == AddressOf(info.dst)
                   then DropFragment else ToVPN
    else
      var channel := ChannelFor(cfg, s.routes, KeyOf(info), owner, now);
      && RoutesAfter(cfg, s.routes, t.routes, KeyOf(info), channel, now)
      && match channel
         case None => t.flows == s.flows && action == DropUnknown
         case Some(glue) =>
           if glue then GoesToGlue(s.flows, t.flows, info, now, action) else t.flows == s.flows && action == ToVPN
  }

  /** A route that is not decided is not marked for glue. */
  predicate RoutesOk(routes: Routes) {
    forall key :: key in routes && !routes[key].decided ==> !routes[key].glue
  }

  lemma RoutesKeep(cfg: Config, s: State, e: Event)
    requires Valid(s.flows) && RoutesOk(s.routes)
    ensures RoutesOk(Next(cfg, s, e).routes)
  {
    hide Valid;
  }

  lemma ClassifiedAsTold(cfg: Config, routes: Routes, key: FlowKey, owner: Option<string>, now: int)
    requires RoutesOk(routes)
    ensures var t := Classified(cfg, routes, key, owner, now);
            var channel := ChannelFor(cfg, routes, key, owner, now);
            && RoutesAfter(cfg, routes, t, key, channel, now)
            && ChoiceOf(t[key]) == Choice(channel == Some(true), channel.Some?, channel.None?)
  {
  }

  lemma GivenAsTold(s: Table, info: Ipv4Udp.Info, now: int)
    requires Valid(s)
    ensures var g := GiveId(s, FlowOf(info), now);
            GoesToGlue(s, g.t, info, now, if g.id.Some? then ToGlue(g.id.value) else DropUnknown)
  {
    IdsAreGivenFairly(s, FlowOf(info), now);
    hide Valid, GiveId;
  }

  /** Main result: the sections of a call, run without others in between, do to the packet what the design
      says. */
  lemma SectionsDecide(cfg: Config, s: State, info: Ipv4Udp.Info, owner: Option<string>, now: int)
    requires Valid(s.flows) && RoutesOk(s.routes)
    ensures var es := Sections(cfg, s, info, owner, now);
            && Answer(cfg, s, es).Some?
            && Decides(cfg, s, info, owner, now, Run(cfg, s, es), Answer(cfg, s, es).value)
            && RoutesOk(Run(cfg, s, es).routes)
  {
    var es := Sections(cfg, s, info, owner, now);
    if info.proto == Ipv4Udp.UDP && info.fragment {
      OneSection(cfg, s, es[0]);
      HasDstIsExact(s.flows, AddressOf(info.dst));
    } else if info.proto == Ipv4Udp.UDP && info.payload.Some? {
      ClassifiedAsTold(cfg, s.routes, KeyOf(info), owner, now);
      RoutesKeep(cfg, s, es[0]);
      if |es| == 2 {
        TwoSections(cfg, s, es[0], es[1]);
        GivenAsTold(s.flows, info, now);
      } else {
        OneSection(cfg, s, es[0]);
      }
    }
    hide Valid, RoutesAfter, GoesToGlue, Classified, GiveId, HasDst, RoutesOk;
  }

  class GameSplit {
    const router: UdpRouter
    const flows: FlowIds

    constructor (router: UdpRouter, flows: FlowIds)
      ensures this.router == router && this.flows == flows
    {
      this.router, this.flows := router, flows;
    }

    function View(): State
      reads router, flows
    {
      State(router.routes, flows.State())
    }

    ghost predicate Ok()
      reads router, flows
    {
      Valid(flows.State()) && RoutesOk(router.routes)
    }

    /** Without other sections in between, a call is the run of its own, and decides as the design says. */
    method DecidePacket(info: Ipv4Udp.Info, owner: Option<string>, now: int) returns (action: Action)
      requires Ok()
      modifies router, flows
      ensures Ok()
      ensures Decides(router.cfg, old(View()), info, owner, now, View(), action)
      ensures View() == Run(router.cfg, old(View()), Sections(router.cfg, old(View()), info, owner, now))
      ensures Some(action) == Answer(router.cfg, old(View()), Sections(router.cfg, old(View()), info, owner, now))
    {
      SectionsDecide(router.cfg, View(), info, owner, now);
      hide Valid, Decides;
      if info.proto != Ipv4Udp.UDP {
        return ToVPN;
      }
      if info.fragment {
        return if HasDst(flows.State(), AddressOf(info.dst)) then DropFragment else ToVPN;
      }
      if info.payload.None? {
        return ToVPN;
      }
      var fi := FlowOf(info);
      var glue, send, refresh := router.Classify(FlowKeyOf(fi), owner, now);
      if !send {
        return DropUnknown;
      }
      if !glue {
        return ToVPN;
      }
      TwoSections(router.cfg, old(View()), Packet(fi, owner, now), AskId(fi, now));
      var id := flows.Id(fi, now);
      if id.None? {
        return DropUnknown;
      }
      return ToGlue(id.value);
    }
  }
}
