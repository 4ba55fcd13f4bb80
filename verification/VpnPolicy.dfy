/** What the vpn channel's rules do to each packet (cmd/server/vpn_setup.go). */
module VpnPolicy {
  import opened Base
  import opened Firewall
  import opened FirewallChains
  import opened VpnRules
  import Ipv4Udp

  // ---------------------------------------------------------------- verdicts

  datatype Packet = Packet(
    inIface: string,
    outIface: string,
    src: Address,
    dst: Address,
    proto: Byte,
    dstPort: Port,
    syn: bool,
    reply: bool)

  const TCP: Byte := 6

  function Pow2(n: nat): (r: nat)
    ensures r > 0
  {
    if n == 0 then 1 else 2 * Pow2(n - 1)
  }

  function Value(a: Address): nat {
    ((a.b0 * 256 + a.b1) * 256 + a.b2) * 256 + a.b3
  }

  predicate InNet(n: Net, a: Address) {
    Value(a) / Pow2(32 - n.bits) == Value(n.base) / Pow2(32 - n.bits)
  }

  /** `other` decides the matches that are not ours. */
  predicate Holds(other: (string, Packet) -> bool, m: Match, p: Packet) {
    match m
    case InIface(name) => p.inIface == name
    case OutIface(name) => p.outIface == name
    case Source(net) => InNet(net, p.src)
    case Destination(net) => InNet(net, p.dst)
    case TcpPort(port) => p.proto == TCP && p.dstPort == port
    case TcpSyn => p.proto == TCP && p.syn
    case Reply => p.reply
    case OtherMatch(text) => other(text, p)
  }

  predicate Hits(other: (string, Packet) -> bool, x: Spec, p: Packet) {
    forall m :: m in x.matches ==> Holds(other, m, p)
  }

  /** The target of the first rule that matches. */
  function FirstMatch(other: (string, Packet) -> bool, c: seq<Spec>, p: Packet): Option<Target> {
    if c == [] then None
    else if Hits(other, c[0], p) then Some(c[0].target)
    else FirstMatch(other, c[1..], p)
  }

  /** RFC 1918, the shared address space of RFC 6598 and the benchmarking range of RFC 2544. */
  predicate IsPrivate(a: Address) {
    || a.b0 == 10
    || (a.b0 == 172 && a.b1 / 16 == 1)
    || (a.b0 == 192 && a.b1 == 168)
    || (a.b0 == 100 && a.b1 / 64 == 1)
    || (a.b0 == 198 && a.b1 / 2 == 9)
  }

  /** Where vpn clients must not get. */
  predicate Forbidden(s: Setup, p: Packet) {
    || (p.dst.b0 == 169 && p.dst.b1 == 254)
    || (!s.allowPrivate && IsPrivate(p.dst))
    || (exists ip :: ip in s.publicIPs && Ipv4Udp.To4(ip) == Some(p.dst))
    || (p.proto == TCP && p.dstPort == 25)
  }

  /** The policy for forwarded packets; None leaves a packet to the other rules. */
  function Policy(s: Setup, p: Packet): Option<Target> {
    if p.inIface == s.tun && Forbidden(s, p) then Some(DROP)
    else if p.outIface == s.tun then Some(if p.reply then ACCEPT else DROP)
    else if p.inIface == s.tun then Some(ACCEPT)
    else None
  }

  lemma Powers()
    ensures Pow2(16) == 0x10000 && Pow2(17) == 0x20000 && Pow2(20) == 0x100000 && Pow2(22) == 0x400000
    ensures Pow2(24) == 0x1000000
  {
    assert Pow2(8) == 256;
    assert Pow2(16) == 0x10000;
    assert Pow2(20) == 0x100000;
  }

  lemma Leading8(a: Address)
    ensures Value(a) / Pow2(24) == a.b0
  {
    Powers();
    assert Value(a) == (a.b0) * 0x1000000 + (a.b1 * 0x10000 + a.b2 * 256 + a.b3);
  }

  lemma Leading12(a: Address)
    ensures Value(a) / Pow2(20) == a.b0 * 16 + a.b1 / 16
  {
    Powers();
    assert Value(a) == (a.b0 * 16 + a.b1 / 16) * 0x100000 + (a.b1 % 16 * 0x10000 + a.b2 * 256 + a.b3);
  }

  lemma Leading16(a: Address)
    ensures Value(a) / Pow2(16) == a.b0 * 256 + a.b1
  {
    Powers();
    assert Value(a) == (a.b0 * 256 + a.b1) * 0x10000 + (a.b2 * 256 + a.b3);
  }

  lemma Leading10(a: Address)
    ensures Value(a) / Pow2(22) == a.b0 * 4 + a.b1 / 64
  {
    Powers();
    assert Value(a) == (a.b0 * 4 + a.b1 / 64) * 0x400000 + (a.b1 % 64 * 0x10000 + a.b2 * 256 + a.b3);
  }

  lemma Leading15(a: Address)
    ensures Value(a) / Pow2(17) == a.b0 * 128 + a.b1 / 2
  {
    Powers();
    assert Value(a) == (a.b0 * 128 + a.b1 / 2) * 0x20000 + (a.b1 % 2 * 0x10000 + a.b2 * 256 + a.b3);
  }

  /** The leading bits of an address, for each prefix length used. */
  lemma LeadingBits(a: Address)
    ensures Value(a) / Pow2(24) == a.b0
    ensures Value(a) / Pow2(20) == a.b0 * 16 + a.b1 / 16
    ensures Value(a) / Pow2(16) == a.b0 * 256 + a.b1
    ensures Value(a) / Pow2(22) == a.b0 * 4 + a.b1 / 64
    ensures Value(a) / Pow2(17) == a.b0 * 128 + a.b1 / 2
  {
    hide *;
    Leading8(a);
    Leading12(a);
    Leading16(a);
    Leading10(a);
    Leading15(a);
  }

  /** Each listed prefix as a range. */
  lemma NetRanges(a: Address)
    ensures InNet(LINK_LOCAL, a) <==> a.b0 == 169 && a.b1 == 254
    ensures InNet(PRIVATE_NETS[0], a) <==> a.b0 == 10
    ensures InNet(PRIVATE_NETS[1], a) <==> a.b0 == 172 && a.b1 / 16 == 1
    ensures InNet(PRIVATE_NETS[2], a) <==> a.b0 == 192 && a.b1 == 168
    ensures InNet(PRIVATE_NETS[3], a) <==> a.b0 == 100 && a.b1 / 64 == 1
    ensures InNet(PRIVATE_NETS[4], a) <==> a.b0 == 198 && a.b1 / 2 == 9
  {
    LeadingBits(a);
    forall n | n in PRIVATE_NETS
    {
      LeadingBits(n.base);
    }
    LeadingBits(LINK_LOCAL.base);
    hide Value, Pow2;
  }

  lemma PrivateNetsAreRanges(a: Address)
    ensures (exists n :: n in PRIVATE_NETS && InNet(n, a)) <==> IsPrivate(a)
    ensures InNet(LINK_LOCAL, a) <==> a.b0 == 169 && a.b1 == 254
  {
    NetRanges(a);
    hide InNet;
  }

  lemma SamePair(a: Byte, b: Byte, c: Byte, d: Byte)
    requires a * 256 + b == c * 256 + d
    ensures a == c && b == d
  {
  }

  lemma SingleAddress(a: Address, b: Address)
    ensures InNet(Net(a, 32), b) <==> a == b
  {
    if Value(a) == Value(b) {
      Leading16(a);
      Leading16(b);
      SamePair(a.b0, a.b1, b.b0, b.b1);
      SamePair(a.b2, a.b3, b.b2, b.b3);
    }
    assert Pow2(0) == 1;
  }

  function DropSpec(s: Setup, m: Match): Spec {
    Spec([InIface(s.tun), m], DROP)
  }

  function DropSpecs(s: Setup, ms: seq<Match>): seq<Spec> {
    seq(|ms|, i requires 0 <= i < |ms| => DropSpec(s, ms[i]))
  }

  function TailSpecs(s: Setup): seq<Spec> {
    [Spec([OutIface(s.tun), Reply], ACCEPT), Spec([OutIface(s.tun)], DROP), Spec([InIface(s.tun)], ACCEPT)]
  }

  /** A forward chain's rules from top to bottom, as listed. */
  function ForwardSpecs(s: Setup): seq<Spec> {
    DropSpecs(s, DropMatches(s)) + TailSpecs(s)
  }

  lemma {:induction false} SpecsAtOne(rs: seq<Rule>, k: ChainId, xs: seq<Spec>)
    requires |xs| == |rs| && forall i :: 0 <= i < |rs| ==> rs[i].at == k && rs[i].spec == xs[i]
    ensures SpecsAt(rs, k) == xs
  {
    if rs != [] {
      SpecsAtOne(rs[1..], k, xs[1..]);
      assert xs == [xs[0]] + xs[1..];
    }
  }

  lemma {:induction false} SpecsAtNone(rs: seq<Rule>, k: ChainId)
    requires forall i :: 0 <= i < |rs| ==> rs[i].at != k
    ensures SpecsAt(rs, k) == []
  {
    if rs != [] {
      SpecsAtNone(rs[1..], k);
    }
  }

  lemma ForwardRulesAt(s: Setup, k: ChainId, j: ChainId)
    ensures SpecsAt(ForwardRules(s, k), j) == if k == j then ForwardSpecs(s) else []
  {
    if k == j {
      SpecsAtOne(ForwardRules(s, k), k, ForwardSpecs(s));
    } else {
      SpecsAtNone(ForwardRules(s, k), j);
    }
  }

  /** A chain's rules, part by part of the list. */
  lemma RuleListParts(s: Setup, k: ChainId)
    ensures SpecsAt(RuleList(s), k) ==
            SpecsAt(BaseRules(s), k)
            + (if k == ChainId(Filter, FORWARD) then ForwardSpecs(s) else [])
            + (if s.docker && k == ChainId(Filter, DOCKER_USER) then ForwardSpecs(s) else [])
            + SpecsAt([ClampRule(s)], k)
  {
    var a := ForwardRules(s, ChainId(Filter, FORWARD));
    var b := if s.docker then ForwardRules(s, ChainId(Filter, DOCKER_USER)) else [];
    assert RuleList(s) == BaseRules(s) + a + b + [ClampRule(s)];
    hide RuleList, ForwardRules, ForwardSpecs, BaseRules, ClampRule, SpecsAt;
    ForwardRulesAt(s, ChainId(Filter, FORWARD), k);
    ForwardRulesAt(s, ChainId(Filter, DOCKER_USER), k);
    SpecsAtNone([], k);
    SpecsAtJoin(BaseRules(s), a, k);
    SpecsAtJoin(BaseRules(s) + a, b, k);
    SpecsAtJoin(BaseRules(s) + a + b, [ClampRule(s)], k);
  }

  lemma OthersElsewhere(s: Setup, k: ChainId)
    requires k in ForwardChains(s)
    ensures SpecsAt(BaseRules(s), k) == [] && SpecsAt([ClampRule(s)], k) == []
  {
    SpecsAtNone(BaseRules(s), k);
    SpecsAtNone([ClampRule(s)], k);
  }

  lemma ForwardChainIs(s: Setup, k: ChainId)
    requires k in ForwardChains(s)
    ensures k == ChainId(Filter, FORWARD) || (s.docker && k == ChainId(Filter, DOCKER_USER))
  {
  }

  lemma OnePart(xs: seq<Spec>)
    ensures [] + xs + [] + [] == xs && [] + [] + xs + [] == xs
  {
  }

  lemma RuleListAt(s: Setup, k: ChainId)
    requires k in ForwardChains(s)
    ensures SpecsAt(RuleList(s), k) == ForwardSpecs(s)
  {
    hide *;
    RuleListParts(s, k);
    OthersElsewhere(s, k);
    ForwardChainIs(s, k);
    OnePart(ForwardSpecs(s));
  }

  lemma ForwardRulesInserted(s: Setup, k: ChainId)
    ensures forall r :: r in ForwardRules(s, k) ==> r.insert && !r.optional
  {
  }

  lemma RuleListInserted(s: Setup, k: ChainId)
    requires k in ForwardChains(s)
    ensures AllInserted(RuleList(s), k)
  {
    ForwardRulesInserted(s, ChainId(Filter, FORWARD));
    ForwardRulesInserted(s, ChainId(Filter, DOCKER_USER));
    hide ForwardRules;
  }

  predicate AnyHits(other: (string, Packet) -> bool, xs: seq<Spec>, p: Packet) {
    exists x :: x in xs && Hits(other, x, p)
  }

  lemma {:induction false} DropsFirst(other: (string, Packet) -> bool, xs: seq<Spec>, ys: seq<Spec>, p: Packet)
    requires forall x :: x in xs ==> x.target == DROP
    ensures FirstMatch(other, xs + ys, p) == if AnyHits(other, xs, p) then Some(DROP) else FirstMatch(other, ys, p)
  {
    if xs == [] {
      assert xs + ys == ys;
    } else {
      assert (xs + ys)[0] == xs[0] && (xs + ys)[1..] == xs[1..] + ys;
      DropsFirst(other, xs[1..], ys, p);
      if AnyHits(other, xs, p) && !Hits(other, xs[0], p) {
        var x :| x in xs && Hits(other, x, p);
        assert x in xs[1..];
      }
    }
  }

  lemma {:induction false} PublicMatchesAre(ips: seq<Bytes>, m: Match)
    ensures m in PublicMatches(ips) <==>
            m.Destination? && m.net.bits == 32 && exists ip :: ip in ips && Ipv4Udp.To4(ip) == Some(m.net.base)
  {
    if ips != [] {
      PublicMatchesAre(ips[1..], m);
    }
  }

  lemma AnyDropHits(s: Setup, other: (string, Packet) -> bool, ms: seq<Match>, p: Packet)
    ensures AnyHits(other, DropSpecs(s, ms), p) <==> p.inIface == s.tun && exists m :: m in ms && Holds(other, m, p)
  {
    var xs := DropSpecs(s, ms);
    if x :| x in xs && Hits(other, x, p) {
      var i :| 0 <= i < |xs| && xs[i] == x;
      assert InIface(s.tun) in x.matches && ms[i] in x.matches;
    }
    if m :| m in ms && Holds(other, m, p) && p.inIface == s.tun {
      var i :| 0 <= i < |ms| && ms[i] == m;
      assert xs[i] in xs && Hits(other, xs[i], p);
    }
  }

  lemma MatchesForbid(s: Setup, other: (string, Packet) -> bool, p: Packet)
    ensures (exists m :: m in DropMatches(s) && Holds(other, m, p)) <==> Forbidden(s, p)
  {
    PrivateNetsAreRanges(p.dst);
    if m :| m in DropMatches(s) && Holds(other, m, p) {
      PublicMatchesAre(s.publicIPs, m);
      if m in PublicMatches(s.publicIPs) {
        SingleAddress(m.net.base, p.dst);
      } else if m in PrivateMatches() {
        assert m.net in PRIVATE_NETS;
      }
    }
    if Forbidden(s, p) {
      assert Destination(LINK_LOCAL) in DropMatches(s) && TcpPort(25) in DropMatches(s);
      if !s.allowPrivate && IsPrivate(p.dst) {
        var n :| n in PRIVATE_NETS && InNet(n, p.dst);
        var i :| 0 <= i < |PRIVATE_NETS| && PRIVATE_NETS[i] == n;
        assert PrivateMatches()[i] == Destination(n);
        assert Destination(n) in DropMatches(s) && Holds(other, Destination(n), p);
      } else if exists ip :: ip in s.publicIPs && Ipv4Udp.To4(ip) == Some(p.dst) {
        PublicMatchesAre(s.publicIPs, Destination(Net(p.dst, 32)));
        SingleAddress(p.dst, p.dst);
        assert Destination(Net(p.dst, 32)) in DropMatches(s);
      }
    }
  }

  /** A packet hits one of the DROPs exactly when it comes from a client and is forbidden. */
  lemma DropsAreForbidden(s: Setup, other: (string, Packet) -> bool, p: Packet)
    ensures AnyHits(other, DropSpecs(s, DropMatches(s)), p) <==> p.inIface == s.tun && Forbidden(s, p)
  {
    AnyDropHits(s, other, DropMatches(s), p);
    MatchesForbid(s, other, p);
  }

  lemma FirstMatchEmpty(other: (string, Packet) -> bool, p: Packet)
    ensures FirstMatch(other, [], p) == None
  {
  }

  lemma {:induction false} FirstMatchJoin(other: (string, Packet) -> bool, a: seq<Spec>, b: seq<Spec>, p: Packet)
    ensures FirstMatch(other, a + b, p) ==
            if FirstMatch(other, a, p).Some? then FirstMatch(other, a, p) else FirstMatch(other, b, p)
  {
    if a == [] {
      assert a + b == b;
    } else {
      assert (a + b)[0] == a[0] && (a + b)[1..] == a[1..] + b;
      FirstMatchJoin(other, a[1..], b, p);
    }
  }

  lemma FirstOf(other: (string, Packet) -> bool, x: Spec, c: seq<Spec>, p: Packet)
    ensures FirstMatch(other, [x] + c, p) == if Hits(other, x, p) then Some(x.target) else FirstMatch(other, c, p)
  {
    assert ([x] + c)[1..] == c;
  }

  lemma TailVerdict(s: Setup, other: (string, Packet) -> bool, c: seq<Spec>, p: Packet)
    ensures FirstMatch(other, TailSpecs(s) + c, p) ==
            if p.outIface == s.tun then Some(if p.reply then ACCEPT else DROP)
            else if p.inIface == s.tun then Some(ACCEPT)
            else FirstMatch(other, c, p)
  {
    var t := TailSpecs(s);
    assert t + c == [t[0]] + ([t[1]] + ([t[2]] + c));
    FirstOf(other, t[0], [t[1]] + ([t[2]] + c), p);
    FirstOf(other, t[1], [t[2]] + c, p);
    FirstOf(other, t[2], c, p);
    assert OutIface(s.tun) in t[0].matches && Reply in t[0].matches;
    assert OutIface(s.tun) in t[1].matches && InIface(s.tun) in t[2].matches;
  }

  lemma DropsAreDistinctFromTail(s: Setup)
    ensures Distinct(TailSpecs(s)) && forall x :: x in DropSpecs(s, DropMatches(s)) ==> x !in TailSpecs(s)
  {
    forall x | x in DropSpecs(s, DropMatches(s))
      ensures x !in TailSpecs(s)
    {
      assert |x.matches| == 2 && x.target == DROP;
    }
  }

  lemma SameHits(other: (string, Packet) -> bool, xs: seq<Spec>, p: Packet)
    ensures AnyHits(other, KeepLast(xs), p) <==> AnyHits(other, xs, p)
    ensures forall x :: x in KeepLast(xs) ==> x in xs
  {
    forall x
      ensures x in KeepLast(xs) <==> x in xs
    {
      KeepLastMembers(xs, x);
    }
  }

  lemma {:induction false} NoneHit(other: (string, Packet) -> bool, xs: seq<Spec>, c: seq<Spec>, p: Packet)
    requires !AnyHits(other, xs, p)
    ensures FirstMatch(other, xs + c, p) == FirstMatch(other, c, p)
  {
    if xs == [] {
      assert xs + c == c;
    } else {
      FirstOf(other, xs[0], xs[1..] + c, p);
      assert xs[0] in xs && xs + c == [xs[0]] + (xs[1..] + c);
      forall x | x in xs[1..]
        ensures !Hits(other, x, p)
      {
        assert x in xs;
      }
      NoneHit(other, xs[1..], c, p);
    }
  }

  /** Our rules with equal ones listed once: the DROPs, then the last three. */
  lemma OursOnce(s: Setup)
    ensures KeepLast(ForwardSpecs(s)) == KeepLast(DropSpecs(s, DropMatches(s))) + TailSpecs(s)
  {
    DropsAreDistinctFromTail(s);
    KeepLastJoin(DropSpecs(s, DropMatches(s)), TailSpecs(s));
  }

  /** Our rules on top decide what the policy decides, and leave the rest to the chain below. */
  lemma OursOnTop(s: Setup, other: (string, Packet) -> bool, rest: seq<Spec>, p: Packet)
    ensures FirstMatch(other, KeepLast(ForwardSpecs(s)) + rest, p) ==
            if Policy(s, p).Some? then Policy(s, p) else FirstMatch(other, rest, p)
  {
    var ds := DropSpecs(s, DropMatches(s));
    OursOnce(s);
    SameHits(other, ds, p);
    DropsFirst(other, KeepLast(ds), TailSpecs(s) + rest, p);
    DropsAreForbidden(s, other, p);
    TailVerdict(s, other, rest, p);
    Associates(KeepLast(ds), TailSpecs(s), rest);
  }

  /** Every one of our rules is about the tunnel. */
  lemma OursNeedTheTunnel(s: Setup, other: (string, Packet) -> bool, x: Spec, p: Packet)
    requires x in KeepLast(ForwardSpecs(s)) && Policy(s, p).None?
    ensures !Hits(other, x, p)
  {
    KeepLastMembers(ForwardSpecs(s), x);
    if x in TailSpecs(s) {
      assert OutIface(s.tun) in x.matches || InIface(s.tun) in x.matches;
    } else {
      var ds := DropSpecs(s, DropMatches(s));
      var i :| 0 <= i < |ds| && ds[i] == x;
      assert InIface(s.tun) in x.matches;
    }
  }

  /** What apply makes of a chain whose own rules of ours are the last of the list, on top of it. */
  lemma ToppedVerdict(s: Setup, other: (string, Packet) -> bool, c: seq<Spec>, p: Packet)
    requires TailIsOnTop(c, KeepLast(ForwardSpecs(s)))
    ensures FirstMatch(other, Topped(c, ForwardSpecs(s)), p) ==
            if Policy(s, p).Some? then Policy(s, p) else FirstMatch(other, c, p)
  {
    var ours := KeepLast(ForwardSpecs(s));
    hide ForwardSpecs, KeepLast, Topped;
    KeepLastIsDistinct(ForwardSpecs(s));
    ToppedOnce(c, ForwardSpecs(s));
    var m :| 0 <= m <= |ours| && TailFrom(c, ours, m);
    TailThere(c, ours, m);
    var rest := c[|ours| - m..];
    assert c == ours[m..] + rest;
    assert ours == ours[..m] + ours[m..];
    assert ours[..m] + c == ours + rest;
    OursOnTop(s, other, rest, p);
    if Policy(s, p).None? {
      forall x | x in ours[m..]
        ensures !Hits(other, x, p)
      {
        OursNeedTheTunnel(s, other, x, p);
      }
      NoneHit(other, ours[m..], rest, p);
    }
  }

  /** Main result: after a successful apply, in each forward chain whose own rules of ours were the last
      of the list, in order, on top of it (none, all of them, or those a run that broke off had added),
      a packet meets the policy first, and else what was there before. */
  lemma ForwardingFollowsPolicy(
    s: Setup, store: Store, can: seq<bool>, k: ChainId, other: (string, Packet) -> bool, p: Packet)
    requires |can| == |RuleList(s)| && k in ForwardChains(s) && k in store
    requires TailIsOnTop(DeletedAt(store[k], StaleList(s), k), KeepLast(ForwardSpecs(s)))
    requires Applied(store, RuleList(s), StaleList(s), can).ok
    ensures k in Applied(store, RuleList(s), StaleList(s), can).store
    ensures FirstMatch(other, Applied(store, RuleList(s), StaleList(s), can).store[k], p) ==
            if Policy(s, p).Some? then Policy(s, p) else FirstMatch(other, DeletedAt(store[k], StaleList(s), k), p)
  {
    hide TailIsOnTop;
    RuleListAt(s, k);
    RuleListInserted(s, k);
    DeleteAllAt(store, StaleList(s), k);
    InstallTops(DeleteAll(store, StaleList(s)), RuleList(s), can, k);
    ToppedVerdict(s, other, DeletedAt(store[k], StaleList(s), k), p);
  }

  const INPUT_CHAIN := ChainId(Filter, INPUT)

  function InputSpec(s: Setup): Spec {
    Spec([InIface(s.tun)], DROP)
  }

  lemma InputRulesAt(s: Setup)
    ensures SpecsAt(RuleList(s), INPUT_CHAIN) == [InputSpec(s)]
  {
    RuleListParts(s, INPUT_CHAIN);
    SpecsAtNone([BaseRules(s)[0]], INPUT_CHAIN);
    SpecsAtOne([BaseRules(s)[1]], INPUT_CHAIN, [InputSpec(s)]);
    SpecsAtJoin([BaseRules(s)[0]], [BaseRules(s)[1]], INPUT_CHAIN);
    assert [BaseRules(s)[0]] + [BaseRules(s)[1]] == BaseRules(s);
    SpecsAtNone([ClampRule(s)], INPUT_CHAIN);
    hide RuleList, BaseRules, ClampRule, SpecsAt;
    assert [] + [InputSpec(s)] == [InputSpec(s)];
  }

  lemma ForwardRulesStay(s: Setup, k: ChainId)
    ensures forall r :: r in ForwardRules(s, k) ==> r.at == k
  {
  }

  lemma InputInserted(s: Setup)
    ensures AllInserted(RuleList(s), INPUT_CHAIN)
  {
    ForwardRulesStay(s, ChainId(Filter, FORWARD));
    ForwardRulesStay(s, ChainId(Filter, DOCKER_USER));
    hide ForwardRules;
  }

  /** What stands above the first occurrence of x; the whole chain when there is none. */
  function AboveFirst(c: seq<Spec>, x: Spec): seq<Spec> {
    if c == [] || c[0] == x then [] else [c[0]] + AboveFirst(c[1..], x)
  }

  lemma InputHits(s: Setup, other: (string, Packet) -> bool, p: Packet)
    ensures Hits(other, InputSpec(s), p) <==> p.inIface == s.tun
  {
    assert InIface(s.tun) in InputSpec(s).matches;
  }

  /** Our rule in its place: above it the chain decides first, and it drops what the tunnel brings. */
  lemma {:induction false} InputVerdict(s: Setup, other: (string, Packet) -> bool, c: seq<Spec>, p: Packet)
    requires InputSpec(s) in c && p.inIface == s.tun
    ensures var above := FirstMatch(other, AboveFirst(c, InputSpec(s)), p);
            FirstMatch(other, c, p) == if above.Some? then above else Some(DROP)
  {
    InputHits(s, other, p);
    if c[0] != InputSpec(s) {
      FirstOf(other, c[0], AboveFirst(c[1..], InputSpec(s)), p);
      InputVerdict(s, other, c[1..], p);
    }
  }

  /** The server itself drops all that comes from the tunnel. */
  ghost predicate Closed(s: Setup, other: (string, Packet) -> bool, c: seq<Spec>) {
    forall p: Packet :: p.inIface == s.tun ==> FirstMatch(other, c, p) == Some(DROP)
  }

  /** None of the rules lets through, or hands on, what comes from the tunnel. */
  ghost predicate LetsNothingIn(s: Setup, other: (string, Packet) -> bool, c: seq<Spec>) {
    forall p: Packet :: p.inIface == s.tun ==> FirstMatch(other, c, p) in {None, Some(DROP)}
  }

  lemma InputTopped(s: Setup, other: (string, Packet) -> bool, c: seq<Spec>)
    ensures Closed(s, other, Topped(c, [InputSpec(s)]))
       <==> InputSpec(s) !in c || LetsNothingIn(s, other, AboveFirst(c, InputSpec(s)))
    ensures forall p: Packet :: p.inIface != s.tun ==>
              FirstMatch(other, Topped(c, [InputSpec(s)]), p) == FirstMatch(other, c, p)
  {
    var r := Topped(c, [InputSpec(s)]);
    assert [InputSpec(s)][1..] == [] && Topped(c, []) == c;
    assert r == if InputSpec(s) in c then c else [InputSpec(s)] + c;
    forall p: Packet
      ensures InputSpec(s) !in c ==>
                FirstMatch(other, r, p) == if p.inIface == s.tun then Some(DROP) else FirstMatch(other, c, p)
      ensures var above := FirstMatch(other, AboveFirst(c, InputSpec(s)), p);
              InputSpec(s) in c && p.inIface == s.tun ==>
                FirstMatch(other, r, p) == if above.Some? then above else Some(DROP)
    {
      InputHits(s, other, p);
      if InputSpec(s) !in c {
        FirstOf(other, InputSpec(s), c, p);
      } else if p.inIface == s.tun {
        InputVerdict(s, other, c, p);
      }
    }
    hide InputSpec, AboveFirst, FirstMatch, Topped;
  }

  /** Main result: after a successful apply no packet from a vpn client gets to the server itself exactly
      when our rule was not there before, or nothing above it lets such a packet in; other packets meet
      what was there before. */
  lemma ServerIsClosedExactlyWhen(s: Setup, store: Store, can: seq<bool>, other: (string, Packet) -> bool)
    requires |can| == |RuleList(s)| && INPUT_CHAIN in store
    requires Applied(store, RuleList(s), StaleList(s), can).ok
    ensures INPUT_CHAIN in Applied(store, RuleList(s), StaleList(s), can).store
    ensures var c := DeletedAt(store[INPUT_CHAIN], StaleList(s), INPUT_CHAIN);
            var r := Applied(store, RuleList(s), StaleList(s), can).store[INPUT_CHAIN];
            Closed(s, other, r) <==> (InputSpec(s) !in c || LetsNothingIn(s, other, AboveFirst(c, InputSpec(s))))
    ensures forall p: Packet :: p.inIface != s.tun ==>
              FirstMatch(other, Applied(store, RuleList(s), StaleList(s), can).store[INPUT_CHAIN], p) ==
              FirstMatch(other, DeletedAt(store[INPUT_CHAIN], StaleList(s), INPUT_CHAIN), p)
  {
    InputRulesAt(s);
    InputInserted(s);
    DeleteAllAt(store, StaleList(s), INPUT_CHAIN);
    InstallTops(DeleteAll(store, StaleList(s)), RuleList(s), can, INPUT_CHAIN);
    hide Closed, LetsNothingIn, FirstMatch, AboveFirst, InputSpec;
    InputTopped(s, other, DeletedAt(store[INPUT_CHAIN], StaleList(s), INPUT_CHAIN));
  }

  /** The rule of older versions that accepted everything towards the client. */
  function OldAccept(s: Setup): Spec {
    Spec([OutIface(s.tun)], ACCEPT)
  }

  lemma StaleRulesAt(s: Setup, k: ChainId, j: ChainId)
    ensures forall x :: x in SpecsAt(StaleRules(s, k), j) ==>
              x == OldAccept(s) || (s.allowPrivate && x in DropSpecs(s, PrivateMatches()))
  {
    forall x | x in SpecsAt(StaleRules(s, k), j)
      ensures x == OldAccept(s) || (s.allowPrivate && x in DropSpecs(s, PrivateMatches()))
    {
      var r := SpecsAtSource(StaleRules(s, k), j, x);
      if r in DropRules(s, k, PrivateMatches()) {
        var i :| 0 <= i < |PrivateMatches()| && r == DropRules(s, k, PrivateMatches())[i];
        assert x == DropSpecs(s, PrivateMatches())[i];
      }
    }
  }

  /** What the stale rules of a chain are. */
  lemma StaleListAt(s: Setup, k: ChainId, x: Spec)
    requires x in SpecsAt(StaleList(s), k)
    ensures k in ForwardChains(s)
    ensures x == OldAccept(s) || (s.allowPrivate && x in DropSpecs(s, PrivateMatches()))
  {
    var r := SpecsAtSource(StaleList(s), k, x);
    ListedAt(StaleRules(s, r.at), r.at, x);
    StaleRulesAt(s, r.at, r.at);
    hide DropSpecs, PrivateMatches;
  }

  lemma StaleAccept(s: Setup)
    ensures OldAccept(s) !in ForwardSpecs(s)
  {
    var x := OldAccept(s);
    assert forall y :: y in DropSpecs(s, DropMatches(s)) ==> y.target == DROP;
    assert x.matches[0] != InIface(s.tun);
    assert |x.matches| != |TailSpecs(s)[0].matches|;
    assert x.matches != TailSpecs(s)[2].matches;
  }

  lemma StalePrivate(s: Setup, m: Match)
    requires s.allowPrivate && m in PrivateMatches()
    ensures DropSpec(s, m) !in ForwardSpecs(s)
  {
    PublicMatchesAre(s.publicIPs, m);
    assert m !in DropMatches(s);
    forall y | y in DropSpecs(s, DropMatches(s))
      ensures y != DropSpec(s, m)
    {
      var i :| 0 <= i < |DropMatches(s)| && y == DropSpec(s, DropMatches(s)[i]);
      assert y.matches[1] == DropMatches(s)[i] && DropSpec(s, m).matches[1] == m;
    }
    assert forall y :: y in TailSpecs(s) && y.target == DROP ==> |y.matches| == 1;
  }

  /** The stale rules are none of ours. */
  lemma StaleIsNotOurs(s: Setup, k: ChainId, x: Spec)
    requires x in SpecsAt(StaleList(s), k)
    ensures x !in SpecsAt(RuleList(s), k)
  {
    StaleListAt(s, k, x);
    RuleListAt(s, k);
    hide SpecsAt, StaleList, RuleList;
    if x == OldAccept(s) {
      StaleAccept(s);
    } else {
      var i :| 0 <= i < |PrivateMatches()| && x == DropSpecs(s, PrivateMatches())[i];
      StalePrivate(s, PrivateMatches()[i]);
    }
  }
}
