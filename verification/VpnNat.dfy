/** What apply leaves in the chains that get one appended rule (cmd/server/vpn_setup.go): NAT for the vpn
    subnet and the MSS clamp. */
module VpnNat {
  import opened Base
  import opened Firewall
  import opened FirewallChains
  import opened VpnRules
  import opened VpnPolicy

  // ---------------------------------------------------------------- one appended rule

  lemma {:induction false} InstallElsewhere(store: Store, rs: seq<Rule>, can: seq<bool>, k: ChainId)
    requires |can| == |rs| && k in store && forall r :: r in rs ==> r.at != k
    ensures k in Install(store, rs, can).store && Install(store, rs, can).store[k] == store[k]
    decreases |rs|
  {
    if rs != [] {
      InstallElsewhere(store, rs[1..], can[1..], k);
      var rest := Install(store, rs[1..], can[1..]);
      TryAt(rest.store, rs[0], can[0], k);
      OneInstalled(rest.store[k], rs[0], can[0], k);
      assert rs[0] in rs;
    }
  }

  /** The chain after a rule was appended, unless it was there or, being optional, was refused. */
  ghost predicate Appended(c: seq<Spec>, r: Rule, can: bool, d: seq<Spec>) {
    d == if r.spec in c || (r.optional && !can) then c else c + [r.spec]
  }

  lemma {:induction false} InstallAppends(store: Store, rs: seq<Rule>, can: seq<bool>, j: nat)
    requires |can| == |rs| && j < |rs| && rs[j].at in store && !rs[j].insert
    requires forall i :: 0 <= i < |rs| && i != j ==> rs[i].at != rs[j].at
    requires Install(store, rs, can).ok
    ensures rs[j].at in Install(store, rs, can).store
    ensures Appended(store[rs[j].at], rs[j], can[j], Install(store, rs, can).store[rs[j].at])
    decreases |rs|
  {
    var k := rs[j].at;
    var rest := Install(store, rs[1..], can[1..]);
    if j == 0 {
      InstallElsewhere(store, rs[1..], can[1..], k);
    } else {
      InstallAppends(store, rs[1..], can[1..], j - 1);
    }
    TryAt(rest.store, rs[0], can[0], k);
    OneInstalled(rest.store[k], rs[0], can[0], k);
  }

  lemma {:induction false} ListedDecides(other: (string, Packet) -> bool, c: seq<Spec>, x: Spec, p: Packet)
    requires x in c && Hits(other, x, p)
    ensures FirstMatch(other, c, p).Some?
  {
    if !Hits(other, c[0], p) {
      ListedDecides(other, c[1..], x, p);
    }
  }

  lemma AppendedDecides(other: (string, Packet) -> bool, c: seq<Spec>, r: Rule, d: seq<Spec>, p: Packet)
    requires Appended(c, r, true, d)
    ensures FirstMatch(other, d, p) ==
            if FirstMatch(other, c, p).Some? then FirstMatch(other, c, p)
            else if Hits(other, r.spec, p) then Some(r.spec.target)
            else None
  {
    if r.spec in c {
      if Hits(other, r.spec, p) {
        ListedDecides(other, c, r.spec, p);
      }
    } else {
      FirstMatchJoin(other, c, [r.spec], p);
      FirstOf(other, r.spec, [], p);
      FirstMatchEmpty(other, p);
      assert [r.spec] + [] == [r.spec];
    }
  }

  // ---------------------------------------------------------------- NAT and the clamp

  const NAT_CHAIN := ChainId(Nat, POSTROUTING)
  const CLAMP_CHAIN := ChainId(Mangle, FORWARD)

  /** Only the first rule of the list is in the NAT chain, and only the last one in the clamp's. */
  lemma OnlyOnes(s: Setup)
    ensures var rs := RuleList(s);
            && rs[0].at == NAT_CHAIN && rs[|rs| - 1].at == CLAMP_CHAIN
            && (forall i :: 0 < i < |rs| ==> rs[i].at != NAT_CHAIN)
            && (forall i :: 0 <= i < |rs| - 1 ==> rs[i].at != CLAMP_CHAIN)
            && !rs[0].insert && !rs[0].optional && !rs[|rs| - 1].insert && rs[|rs| - 1].optional
  {
    var a := ForwardRules(s, ChainId(Filter, FORWARD));
    var b := if s.docker then ForwardRules(s, ChainId(Filter, DOCKER_USER)) else [];
    assert RuleList(s) == BaseRules(s) + a + b + [ClampRule(s)];
    ForwardRulesStay(s, ChainId(Filter, FORWARD));
    ForwardRulesStay(s, ChainId(Filter, DOCKER_USER));
    hide ForwardRules;
    forall i | 0 < i < |RuleList(s)| - 1
      ensures RuleList(s)[i].at != NAT_CHAIN && RuleList(s)[i].at != CLAMP_CHAIN
    {
      assert RuleList(s)[i] in BaseRules(s)[1..] + a + b;
    }
  }

  /** Main result: after a successful apply, a packet that leaves by the egress interface with an address of
      the vpn subnet is masqueraded, unless a rule that was in the chain before decides otherwise; no other
      packet is treated differently than before. */
  lemma ClientsAreMasqueraded(s: Setup, store: Store, can: seq<bool>, other: (string, Packet) -> bool, p: Packet)
    requires |can| == |RuleList(s)| && NAT_CHAIN in store && Applied(store, RuleList(s), StaleList(s), can).ok
    ensures NAT_CHAIN in Applied(store, RuleList(s), StaleList(s), can).store
    ensures var c := DeletedAt(store[NAT_CHAIN], StaleList(s), NAT_CHAIN);
            FirstMatch(other, Applied(store, RuleList(s), StaleList(s), can).store[NAT_CHAIN], p) ==
              if FirstMatch(other, c, p).Some? then FirstMatch(other, c, p)
              else if InNet(s.subnet, p.src) && p.outIface == s.egress then Some(MASQUERADE)
              else None
  {
    var rs := RuleList(s);
    var start := DeleteAll(store, StaleList(s));
    OnlyOnes(s);
    DeleteAllAt(store, StaleList(s), NAT_CHAIN);
    InstallAppends(start, rs, can, 0);
    var d := Install(start, rs, can).store[NAT_CHAIN];
    assert rs[0] == BaseRules(s)[0];
    hide RuleList;
    AppendedDecides(other, start[NAT_CHAIN], rs[0], d, p);
    assert Source(s.subnet) in rs[0].spec.matches && OutIface(s.egress) in rs[0].spec.matches;
    hide FirstMatch, Install, DeleteAll;
  }

  /** Main result: when iptables takes the clamp, connections towards the clients are clamped. */
  lemma ConnectionsAreClamped(s: Setup, store: Store, can: seq<bool>, other: (string, Packet) -> bool, p: Packet)
    requires |can| == |RuleList(s)| && CLAMP_CHAIN in store && Applied(store, RuleList(s), StaleList(s), can).ok
    requires can[|can| - 1]
    ensures CLAMP_CHAIN in Applied(store, RuleList(s), StaleList(s), can).store
    ensures var c := DeletedAt(store[CLAMP_CHAIN], StaleList(s), CLAMP_CHAIN);
            FirstMatch(other, Applied(store, RuleList(s), StaleList(s), can).store[CLAMP_CHAIN], p) ==
              if FirstMatch(other, c, p).Some? then FirstMatch(other, c, p)
              else if p.outIface == s.tun && p.proto == TCP && p.syn then Some(TCPMSS)
              else None
  {
    var rs := RuleList(s);
    var n := |rs| - 1;
    var start := DeleteAll(store, StaleList(s));
    OnlyOnes(s);
    DeleteAllAt(store, StaleList(s), CLAMP_CHAIN);
    InstallAppends(start, rs, can, n);
    var d := Install(start, rs, can).store[CLAMP_CHAIN];
    assert rs[n] == ClampRule(s);
    hide RuleList;
    AppendedDecides(other, start[CLAMP_CHAIN], rs[n], d, p);
    assert OutIface(s.tun) in rs[n].spec.matches && TcpSyn in rs[n].spec.matches;
    hide FirstMatch, Install, DeleteAll;
  }
}
