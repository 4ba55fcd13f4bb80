/** The rule list of the vpn channel (cmd/server/vpn_setup.go). */
module VpnRules {
  import opened Base
  import opened Firewall
  import Ipv4Udp

  /** `docker` tells that the DOCKER-USER chain exists. */
  datatype Setup = Setup(
    subnet: Net,
    egress: string,
    tun: string,
    allowPrivate: bool,
    publicIPs: seq<Bytes>,
    docker: bool)

  const LINK_LOCAL := Net(Address(169, 254, 0, 0), 16)

  const PRIVATE_NETS: seq<Net> := [
    Net(Address(10, 0, 0, 0), 8),
    Net(Address(172, 16, 0, 0), 12),
    Net(Address(192, 168, 0, 0), 16),
    Net(Address(100, 64, 0, 0), 10),
    Net(Address(198, 18, 0, 0), 15)]

  function ForwardChains(s: Setup): seq<ChainId> {
    [ChainId(Filter, FORWARD)] + if s.docker then [ChainId(Filter, DOCKER_USER)] else []
  }

  function DropRule(s: Setup, k: ChainId, m: Match): Rule {
    Rule(k, Spec([InIface(s.tun), m], DROP), true, false)
  }

  function DropRules(s: Setup, k: ChainId, ms: seq<Match>): seq<Rule> {
    seq(|ms|, i requires 0 <= i < |ms| => DropRule(s, k, ms[i]))
  }

  function PrivateMatches(): seq<Match> {
    seq(|PRIVATE_NETS|, i requires 0 <= i < |PRIVATE_NETS| => Destination(PRIVATE_NETS[i]))
  }

  /** The IPv4 ones of the server's own public addresses. */
  function PublicMatches(ips: seq<Bytes>): seq<Match> {
    if ips == [] then []
    else
      (match Ipv4Udp.To4(ips[0])
       case Some(a) => [Destination(Net(a, 32))]
       case None => [])
      + PublicMatches(ips[1..])
  }

  function DropMatches(s: Setup): seq<Match> {
    [Destination(LINK_LOCAL)] + (if s.allowPrivate then [] else PrivateMatches())
    + PublicMatches(s.publicIPs) + [TcpPort(25)]
  }

  function ForwardTail(s: Setup, k: ChainId): seq<Rule> {
    [Rule(k, Spec([OutIface(s.tun), Reply], ACCEPT), true, false),
     Rule(k, Spec([OutIface(s.tun)], DROP), true, false),
     Rule(k, Spec([InIface(s.tun)], ACCEPT), true, false)]
  }

  function ForwardRules(s: Setup, k: ChainId): seq<Rule> {
    DropRules(s, k, DropMatches(s)) + ForwardTail(s, k)
  }

  function BaseRules(s: Setup): seq<Rule> {
    [Rule(ChainId(Nat, POSTROUTING), Spec([Source(s.subnet), OutIface(s.egress)], MASQUERADE), false, false),
     Rule(ChainId(Filter, INPUT), Spec([InIface(s.tun)], DROP), true, false)]
  }

  function ClampRule(s: Setup): Rule {
    Rule(ChainId(Mangle, FORWARD), Spec([OutIface(s.tun), TcpSyn], TCPMSS), false, true)
  }

  function RuleList(s: Setup): seq<Rule> {
    BaseRules(s) + ForwardRules(s, ChainId(Filter, FORWARD))
    + (if s.docker then ForwardRules(s, ChainId(Filter, DOCKER_USER)) else [])
    + [ClampRule(s)]
  }

  function StaleRules(s: Setup, k: ChainId): seq<Rule> {
    (if s.allowPrivate then DropRules(s, k, PrivateMatches()) else [])
    + [Rule(k, Spec([OutIface(s.tun)], ACCEPT), false, false)]
  }

  function StaleList(s: Setup): seq<Rule> {
    StaleRules(s, ChainId(Filter, FORWARD)) + if s.docker then StaleRules(s, ChainId(Filter, DOCKER_USER)) else []
  }

  lemma {:induction false} PublicMatchesJoin(a: seq<Bytes>, b: seq<Bytes>)
    ensures PublicMatches(a + b) == PublicMatches(a) + PublicMatches(b)
  {
    if a == [] {
      assert a + b == b;
    } else {
      assert (a + b)[0] == a[0] && (a + b)[1..] == a[1..] + b;
      PublicMatchesJoin(a[1..], b);
    }
  }

  lemma PublicMatchesSnoc(ips: seq<Bytes>, i: nat)
    requires i < |ips|
    ensures PublicMatches(ips[..i + 1]) ==
            PublicMatches(ips[..i]) + match Ipv4Udp.To4(ips[i])
                                      case Some(a) => [Destination(Net(a, 32))]
                                      case None => []
  {
    assert ips[..i + 1] == ips[..i] + [ips[i]];
    PublicMatchesJoin(ips[..i], [ips[i]]);
    assert PublicMatches([ips[i]][1..]) == [];
  }

  /** One round of the loop over the forward chains. */
  method ChainRules(s: Setup, k: ChainId) returns (rules: seq<Rule>, stale: seq<Rule>)
    ensures rules == ForwardRules(s, k) && stale == StaleRules(s, k)
  {
    rules := [DropRule(s, k, Destination(LINK_LOCAL))];
    stale := [];
    var ms: seq<Match> := [Destination(LINK_LOCAL)];
    for i := 0 to |PRIVATE_NETS|
      invariant ms == [Destination(LINK_LOCAL)] + if s.allowPrivate then [] else PrivateMatches()[..i]
      invariant rules == DropRules(s, k, ms)
      invariant stale == if s.allowPrivate then DropRules(s, k, PrivateMatches()[..i]) else []
    {
      var m := Destination(PRIVATE_NETS[i]);
      assert PrivateMatches()[..i + 1] == PrivateMatches()[..i] + [m];
      if s.allowPrivate {
        stale := stale + [DropRule(s, k, m)];
      } else {
        rules := rules + [DropRule(s, k, m)];
        ms := ms + [m];
      }
    }
    assert PrivateMatches()[..|PRIVATE_NETS|] == PrivateMatches();
    ghost var before := ms;
    for i := 0 to |s.publicIPs|
      invariant ms == before + PublicMatches(s.publicIPs[..i])
      invariant rules == DropRules(s, k, ms)
    {
      PublicMatchesSnoc(s.publicIPs, i);
      if Ipv4Udp.To4(s.publicIPs[i]).Some? {
        var m := Destination(Net(Ipv4Udp.To4(s.publicIPs[i]).value, 32));
        rules := rules + [DropRule(s, k, m)];
        ms := ms + [m];
      }
    }
    assert s.publicIPs[..|s.publicIPs|] == s.publicIPs;
    rules := rules + [DropRule(s, k, TcpPort(25))];
    ms := ms + [TcpPort(25)];
    assert ms == DropMatches(s);
    assert rules == DropRules(s, k, ms);
    rules := rules + ForwardTail(s, k);
    stale := stale + [Rule(k, Spec([OutIface(s.tun)], ACCEPT), false, false)];
  }

  /** Builds the rule list chain by chain. */
  method NewVPNFirewall(s: Setup) returns (f: VpnFirewall)
    ensures fresh(f) && f.rules == RuleList(s) && f.stale == StaleList(s)
  {
    var rules := BaseRules(s);
    var stale: seq<Rule> := [];
    var chains := ForwardChains(s);
    hide BaseRules, ForwardRules, StaleRules;
    for c := 0 to |chains|
      invariant rules == BaseRules(s) + (if c > 0 then ForwardRules(s, chains[0]) else [])
                         + (if c > 1 then ForwardRules(s, chains[1]) else [])
      invariant stale == (if c > 0 then StaleRules(s, chains[0]) else [])
                         + (if c > 1 then StaleRules(s, chains[1]) else [])
    {
      var more, gone := ChainRules(s, chains[c]);
      rules := rules + more;
      stale := stale + gone;
    }
    rules := rules + [ClampRule(s)];
    f := new VpnFirewall(rules, stale);
  }
}
