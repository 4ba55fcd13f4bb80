/** When the vpn channel's rules work in whatever order a chain holds some of them already, and when
    they do not (cmd/server/vpn_setup.go). */
module VpnOrder {
  import opened Base
  import opened Firewall
  import opened FirewallChains
  import opened FirewallTwice
  import opened VpnRules
  import opened VpnPolicy
  import Ipv4Udp

  // ---------------------------------------------------------------- order in a chain

  /** y is in the chain, and x stands above its first occurrence. */
  predicate Above(c: seq<Spec>, x: Spec, y: Spec) {
    y in c && forall k :: 0 <= k < |c| && c[k] == y ==> x in c[..k]
  }

  lemma AboveTrans(c: seq<Spec>, x: Spec, y: Spec, z: Spec)
    requires Above(c, x, y) && Above(c, y, z)
    ensures Above(c, x, z)
  {
    forall k | 0 <= k < |c| && c[k] == z
      ensures x in c[..k]
    {
      var j :| 0 <= j < k && c[..k][j] == y;
      var i :| 0 <= i < j && c[..j][i] == x;
      assert c[..k][i] == x;
    }
  }

  lemma AboveAdd(z: Spec, w: seq<Spec>, x: Spec, y: Spec)
    requires z != y && y in w && (z == x || Above(w, x, y))
    ensures Above([z] + w, x, y)
  {
    var c := [z] + w;
    forall k | 0 <= k < |c| && c[k] == y
      ensures x in c[..k]
    {
      assert k > 0 && w[k - 1] == y;
      assert c[..k] == [z] + w[..k - 1];
    }
  }

  lemma AboveTail(c: seq<Spec>, x: Spec, y: Spec)
    requires c != [] && Above(c, x, y)
    ensures c[0] != y && y in c[1..]
    ensures c[0] != x ==> Above(c[1..], x, y)
  {
    assert c[..0] == [];
    var w := c[1..];
    if c[0] != x {
      forall k | 0 <= k < |w| && w[k] == y
        ensures x in w[..k]
      {
        assert c[k + 1] == y && c[..k + 1] == [c[0]] + w[..k];
      }
    }
  }

  /** Leaving other rules out keeps the order. */
  lemma {:induction false} AboveWithout(zs: seq<Spec>, c: seq<Spec>, x: Spec, y: Spec)
    requires Above(zs, x, y) && x !in c && y !in c
    ensures Above(Without(zs, c), x, y)
  {
    AboveTail(zs, x, y);
    var z, w := zs[0], zs[1..];
    WithoutMembers(w, c, y);
    WithoutFirst(z, w, c);
    assert zs == [z] + w;
    if z == x {
      AboveAdd(z, Without(w, c), x, y);
    } else {
      AboveWithout(w, c, x, y);
      if z !in c {
        AboveAdd(z, Without(w, c), x, y);
      }
    }
  }

  lemma BelowMissing(missing: seq<Spec>, c: seq<Spec>, k: nat)
    requires k < |c|
    ensures (missing + c)[|missing| + k] == c[k]
    ensures (missing + c)[..|missing| + k] == missing + c[..k]
  {
  }

  lemma FoundBelow(missing: seq<Spec>, c: seq<Spec>, y: Spec, k: nat)
    requires k < |missing + c| && (missing + c)[k] == y && y !in missing
    ensures k >= |missing|
  {
  }

  lemma OldOccurrences(missing: seq<Spec>, c: seq<Spec>, x: Spec, y: Spec)
    requires y in c && y !in missing
    requires x in missing ==> x !in c
    ensures Above(missing + c, x, y) <==> (x in missing || Above(c, x, y))
  {
    var r, n := missing + c, |missing|;
    if Above(r, x, y) && x !in missing {
      forall k | 0 <= k < |c| && c[k] == y
        ensures x in c[..k]
      {
        BelowMissing(missing, c, k);
        assert r[n + k] == y;
        assert x in missing + c[..k];
      }
    }
    if x in missing || Above(c, x, y) {
      forall k | 0 <= k < |r| && r[k] == y
        ensures x in r[..k]
      {
        FoundBelow(missing, c, y, k);
        BelowMissing(missing, c, k - n);
        assert c[k - n] == y && r[..k] == missing + c[..k - n];
      }
    }
  }

  /** Missing rules were put on top: x stands above y unless x was there and did not. */
  lemma AboveOnTop(missing: seq<Spec>, c: seq<Spec>, x: Spec, y: Spec)
    requires forall z :: z in missing ==> z !in c
    requires x in missing || x in c
    requires y in missing || y in c
    requires x in missing && y in missing ==> Above(missing, x, y)
    ensures Above(missing + c, x, y) <==> (x in c ==> Above(c, x, y))
  {
    var r := missing + c;
    if y in missing {
      var k :| 0 <= k < |missing| && missing[k] == y;
      assert r[k] == y && r[..k] == missing[..k];
      if x in missing {
        forall j | 0 <= j < |r| && r[j] == y
          ensures x in r[..j]
        {
          assert j < |missing| && r[..j] == missing[..j];
        }
      }
    } else {
      OldOccurrences(missing, c, x, y);
    }
  }

  // ---------------------------------------------------------------- our rules

  function RepliesIn(s: Setup): Spec {
    Spec([OutIface(s.tun), Reply], ACCEPT)
  }

  function NothingElseIn(s: Setup): Spec {
    Spec([OutIface(s.tun)], DROP)
  }

  function ClientsOut(s: Setup): Spec {
    Spec([InIface(s.tun)], ACCEPT)
  }

  function Drops(s: Setup): seq<Spec> {
    DropSpecs(s, DropMatches(s))
  }

  /** Every DROP for clients stands above the rule for replies, that above the DROP towards clients,
      and that above the ACCEPT for clients. */
  ghost predicate Ordered(s: Setup, c: seq<Spec>) {
    && (forall d :: d in Drops(s) ==> Above(c, d, RepliesIn(s)))
    && Above(c, RepliesIn(s), NothingElseIn(s))
    && Above(c, NothingElseIn(s), ClientsOut(s))
  }

  /** Each of our rules that is there has the next kind of rule below it. */
  ghost predicate OrderedStart(s: Setup, c: seq<Spec>) {
    && (forall d :: d in Drops(s) && d in c ==> Above(c, d, RepliesIn(s)))
    && (RepliesIn(s) in c ==> Above(c, RepliesIn(s), NothingElseIn(s)))
    && (NothingElseIn(s) in c ==> Above(c, NothingElseIn(s), ClientsOut(s)))
  }

  ghost predicate OnlyOurs(s: Setup, c: seq<Spec>) {
    forall x :: x in c ==> x in ForwardSpecs(s)
  }

  lemma TailIs(s: Setup)
    ensures TailSpecs(s) == [RepliesIn(s), NothingElseIn(s), ClientsOut(s)]
    ensures RepliesIn(s) != NothingElseIn(s) && RepliesIn(s) != ClientsOut(s) && NothingElseIn(s) != ClientsOut(s)
  {
  }

  lemma AboveInTail(a: seq<Spec>, x: Spec, y: Spec, z: Spec)
    requires x != y && x != z && y != z && x !in a && y !in a && z !in a
    ensures Above(a + [x, y, z], x, y) && Above(a + [x, y, z], y, z)
    ensures forall d :: d in a ==> Above(a + [x, y, z], d, x)
  {
    var c := a + [x, y, z];
    assert c[|a|] == x && c[|a| + 1] == y && c[|a| + 2] == z;
    forall k | 0 <= k < |a|
      ensures c[k] == a[k] && c[k] in a
    {
    }
    assert c[..|a|] == a && c[..|a| + 1] == a + [x] && c[..|a| + 2] == a + [x, y];
  }

  /** The list itself, equal rules listed once, is ordered. */
  lemma ListIsOrdered(s: Setup)
    ensures Ordered(s, KeepLast(ForwardSpecs(s)))
  {
    OursOnce(s);
    TailIs(s);
    DropsAreDistinctFromTail(s);
    forall d
      ensures d in KeepLast(Drops(s)) <==> d in Drops(s)
    {
      KeepLastMembers(Drops(s), d);
    }
    hide DropSpecs, DropMatches, KeepLast, ForwardSpecs, TailSpecs;
    AboveInTail(KeepLast(Drops(s)), RepliesIn(s), NothingElseIn(s), ClientsOut(s));
  }

  lemma OursAre(s: Setup, x: Spec)
    ensures x in ForwardSpecs(s) <==>
            x in Drops(s) || x == RepliesIn(s) || x == NothingElseIn(s) || x == ClientsOut(s)
  {
    TailIs(s);
    hide TailSpecs, DropSpecs;
  }

  lemma ToppedPair(s: Setup, c: seq<Spec>, x: Spec, y: Spec)
    requires x in ForwardSpecs(s) && y in ForwardSpecs(s) && Above(KeepLast(ForwardSpecs(s)), x, y)
    ensures Above(Topped(c, ForwardSpecs(s)), x, y) <==> (x in c ==> Above(c, x, y))
  {
    var ours := ForwardSpecs(s);
    var missing := KeepLast(Without(ours, c));
    hide ForwardSpecs, Above;
    ToppedIs(c, ours);
    KeepLastWithout(ours, c);
    forall z
      ensures z in missing <==> z in ours && z !in c
    {
      WithoutMembers(ours, c, z);
      KeepLastMembers(Without(ours, c), z);
    }
    hide Without, KeepLast, Topped;
    if x in missing && y in missing {
      AboveWithout(KeepLast(ours), c, x, y);
    }
    AboveOnTop(missing, c, x, y);
  }

  /** What apply leaves is ordered exactly when the start was. */
  lemma ToppedOrder(s: Setup, c: seq<Spec>)
    ensures Ordered(s, Topped(c, ForwardSpecs(s))) <==> OrderedStart(s, c)
  {
    ListIsOrdered(s);
    forall d | d in Drops(s)
      ensures Above(Topped(c, ForwardSpecs(s)), d, RepliesIn(s)) <==> (d in c ==> Above(c, d, RepliesIn(s)))
    {
      OursAre(s, d);
      OursAre(s, RepliesIn(s));
      ToppedPair(s, c, d, RepliesIn(s));
    }
    OursAre(s, RepliesIn(s));
    OursAre(s, NothingElseIn(s));
    OursAre(s, ClientsOut(s));
    ToppedPair(s, c, RepliesIn(s), NothingElseIn(s));
    ToppedPair(s, c, NothingElseIn(s), ClientsOut(s));
    hide Topped, Above, KeepLast, ForwardSpecs, Drops;
  }

  /** Apply leaves exactly our rules in a chain that held only some of them. */
  lemma ToppedOurs(s: Setup, c: seq<Spec>, x: Spec)
    requires OnlyOurs(s, c)
    ensures x in Topped(c, ForwardSpecs(s)) <==> x in ForwardSpecs(s)
  {
    ToppedIs(c, ForwardSpecs(s));
    WithoutMembers(ForwardSpecs(s), c, x);
    KeepLastMembers(Without(ForwardSpecs(s), c), x);
    hide ForwardSpecs;
  }

  // ---------------------------------------------------------------- order and policy

  /** The first rule that matches, if one does. */
  lemma {:induction false} FirstHit(other: (string, Packet) -> bool, c: seq<Spec>, p: Packet) returns (k: nat)
    requires AnyHits(other, c, p)
    ensures k < |c| && Hits(other, c[k], p) && FirstMatch(other, c, p) == Some(c[k].target)
    ensures forall x :: x in c[..k] ==> !Hits(other, x, p)
  {
    if Hits(other, c[0], p) {
      k := 0;
    } else {
      var x :| x in c && Hits(other, x, p);
      assert x in c[1..];
      var j := FirstHit(other, c[1..], p);
      k := j + 1;
      assert c[..k] == [c[0]] + c[1..][..j];
    }
  }

  /** Which of the last three rules match a packet. */
  lemma TailHits(s: Setup, other: (string, Packet) -> bool, p: Packet)
    ensures Hits(other, RepliesIn(s), p) <==> p.outIface == s.tun && p.reply
    ensures Hits(other, NothingElseIn(s), p) <==> p.outIface == s.tun
    ensures Hits(other, ClientsOut(s), p) <==> p.inIface == s.tun
  {
    assert OutIface(s.tun) in RepliesIn(s).matches && Reply in RepliesIn(s).matches;
    assert OutIface(s.tun) in NothingElseIn(s).matches && InIface(s.tun) in ClientsOut(s).matches;
  }

  lemma DropTargets(s: Setup)
    ensures forall d :: d in Drops(s) ==> d.target == DROP
  {
  }

  /** Whatever stands first among the matching rules, the policy decides the same. */
  lemma OrderGivesPolicy(s: Setup, other: (string, Packet) -> bool, r: seq<Spec>, p: Packet)
    requires Ordered(s, r) && forall x :: x in r <==> x in ForwardSpecs(s)
    ensures FirstMatch(other, r, p) == Policy(s, p)
  {
    AboveTrans(r, RepliesIn(s), NothingElseIn(s), ClientsOut(s));
    TailHits(s, other, p);
    DropsAreForbidden(s, other, p);
    DropTargets(s);
    if AnyHits(other, r, p) {
      var k := FirstHit(other, r, p);
      OursAre(s, r[k]);
      assert r[k] in r;
      if p.inIface == s.tun && Forbidden(s, p) {
        var d :| d in Drops(s) && Hits(other, d, p);
        AboveTrans(r, d, RepliesIn(s), ClientsOut(s));
        assert Above(r, d, RepliesIn(s));
      }
      hide Forbidden, ForwardSpecs, Drops, Hits, FirstMatch;
    } else {
      NoneHit(other, r, [], p);
      assert r + [] == r;
      OursAre(s, NothingElseIn(s));
      OursAre(s, ClientsOut(s));
      hide Forbidden, ForwardSpecs, Drops, Hits;
    }
  }

  /** Two of our rules are in the wrong order only if the lower one can be the first to match. */
  lemma WrongOrder(other: (string, Packet) -> bool, r: seq<Spec>, x: Spec, y: Spec, p: Packet) returns (k: nat)
    requires x != y && y in r && !Above(r, x, y) && Hits(other, y, p)
    ensures k < |r| && Hits(other, r[k], p) && r[k] != x && FirstMatch(other, r, p) == Some(r[k].target)
    ensures forall z :: z in r[..k] ==> !Hits(other, z, p)
  {
    assert AnyHits(other, r, p);
    k := FirstHit(other, r, p);
    var j :| 0 <= j < |r| && r[j] == y && x !in r[..j];
    assert forall i :: 0 <= i < k ==> r[..k][i] == r[i];
    assert k < j ==> r[k] in r[..j];
  }

  predicate IsOpen(a: Address) {
    !(a.b0 == 169 && a.b1 == 254) && !IsPrivate(a)
  }

  /** The server's own public addresses are public. */
  ghost predicate Public(s: Setup) {
    forall ip :: ip in s.publicIPs && Ipv4Udp.To4(ip).Some? ==> IsOpen(Ipv4Udp.To4(ip).value)
  }

  /** An address that no rule names. */
  ghost predicate IsFree(s: Setup, a: Address) {
    IsOpen(a) && forall ip :: ip in s.publicIPs ==> Ipv4Udp.To4(ip) != Some(a)
  }

  /** A packet from client to client that only one of the matches forbids. */
  function Through(s: Setup, dst: Address, proto: Byte, reply: bool): Packet {
    Packet(s.tun, s.tun, dst, dst, proto, 25, false, reply)
  }

  function OnlyFor(s: Setup, m: Match, free: Address, reply: bool): Packet
    requires m.Destination? || m.TcpPort?
  {
    if m.Destination? then Through(s, m.net.base, Ipv4Udp.UDP, reply) else Through(s, free, TCP, reply)
  }

  lemma ListedBases(n: Net, k: Net)
    requires n in PRIVATE_NETS + [LINK_LOCAL] && k in PRIVATE_NETS + [LINK_LOCAL]
    ensures InNet(n, k.base) <==> n == k
    ensures !IsOpen(k.base)
  {
    NetRanges(k.base);
    hide InNet;
  }

  lemma OpenIsOutside(n: Net, a: Address)
    requires n in PRIVATE_NETS + [LINK_LOCAL] && IsOpen(a)
    ensures !InNet(n, a)
  {
    NetRanges(a);
    hide InNet;
  }

  ghost predicate IsOwn(s: Setup, n: Net) {
    n.bits == 32 && IsOpen(n.base) && exists ip :: ip in s.publicIPs && Ipv4Udp.To4(ip) == Some(n.base)
  }

  /** What a forbidding match is. */
  lemma DropMatchKinds(s: Setup, m: Match)
    requires m in DropMatches(s) && Public(s)
    ensures m == TcpPort(25) || (m.Destination? && (m.net in PRIVATE_NETS + [LINK_LOCAL] || IsOwn(s, m.net)))
  {
    PublicMatchesAre(s.publicIPs, m);
  }

  lemma OnlyOneForbids(s: Setup, other: (string, Packet) -> bool, m: Match, n: Match, free: Address, reply: bool)
    requires Public(s) && IsFree(s, free) && m in DropMatches(s) && n in DropMatches(s)
    ensures m.Destination? || m.TcpPort?
    ensures Holds(other, n, OnlyFor(s, m, free, reply)) <==> n == m
  {
    DropMatchKinds(s, m);
    DropMatchKinds(s, n);
    var p := OnlyFor(s, m, free, reply);
    if n.Destination? {
      if n.net in PRIVATE_NETS + [LINK_LOCAL] {
        if m.Destination? && m.net in PRIVATE_NETS + [LINK_LOCAL] {
          ListedBases(n.net, m.net);
        } else {
          OpenIsOutside(n.net, p.dst);
        }
      } else {
        SingleAddress(n.net.base, p.dst);
        if m.Destination? && m.net in PRIVATE_NETS + [LINK_LOCAL] {
          ListedBases(m.net, m.net);
        }
      }
    }
    hide InNet, DropMatches;
  }

  /** Only the DROP of that match, and the last three, match the packet. */
  lemma OnlyOneDrops(s: Setup, other: (string, Packet) -> bool, m: Match, d: Spec, free: Address)
    requires Public(s) && IsFree(s, free) && m in DropMatches(s) && d in Drops(s)
    ensures m.Destination? || m.TcpPort?
    ensures Hits(other, d, OnlyFor(s, m, free, true)) <==> d == DropSpec(s, m)
  {
    var ms := DropMatches(s);
    var i :| 0 <= i < |ms| && d == DropSpec(s, ms[i]);
    OnlyOneForbids(s, other, m, ms[i], free, true);
    assert InIface(s.tun) in d.matches && ms[i] in d.matches;
    assert d.matches[1] == ms[i] && DropSpec(s, m).matches[1] == m;
    hide DropMatches;
  }

  /** The policy for the packets that tell the orders apart. */
  ghost predicate FollowsPolicy(s: Setup, other: (string, Packet) -> bool, r: seq<Spec>) {
    forall p :: FirstMatch(other, r, p) == Policy(s, p)
  }

  lemma PolicyOrdersReplies(s: Setup, other: (string, Packet) -> bool, r: seq<Spec>)
    requires FollowsPolicy(s, other, r) && forall x :: x in r <==> x in ForwardSpecs(s)
    ensures Above(r, RepliesIn(s), NothingElseIn(s))
  {
    var p := Packet(s.tun + "x", s.tun, Address(0, 0, 0, 0), Address(0, 0, 0, 0), 0, 0, false, true);
    assert p.inIface != s.tun;
    OursAre(s, NothingElseIn(s));
    TailHits(s, other, p);
    DropsAreForbidden(s, other, p);
    assert FirstMatch(other, r, p) == Some(ACCEPT);
    if !Above(r, RepliesIn(s), NothingElseIn(s)) {
      var k := WrongOrder(other, r, RepliesIn(s), NothingElseIn(s), p);
      assert r[k] in r;
      OursAre(s, r[k]);
      hide Above, Drops, ForwardSpecs, Hits, FirstMatch;
    }
  }

  lemma PolicyOrdersClients(s: Setup, other: (string, Packet) -> bool, r: seq<Spec>, free: Address)
    requires FollowsPolicy(s, other, r) && forall x :: x in r <==> x in ForwardSpecs(s)
    requires IsFree(s, free)
    ensures Above(r, NothingElseIn(s), ClientsOut(s))
  {
    var p := Through(s, free, Ipv4Udp.UDP, false);
    OursAre(s, ClientsOut(s));
    TailHits(s, other, p);
    DropsAreForbidden(s, other, p);
    assert !Forbidden(s, p);
    assert FirstMatch(other, r, p) == Some(DROP);
    if !Above(r, NothingElseIn(s), ClientsOut(s)) {
      var k := WrongOrder(other, r, NothingElseIn(s), ClientsOut(s), p);
      assert r[k] in r;
      OursAre(s, r[k]);
      hide Above, Drops, ForwardSpecs, Hits, FirstMatch;
    }
  }

  lemma PolicyOrdersDrop(s: Setup, other: (string, Packet) -> bool, r: seq<Spec>, free: Address, m: Match)
    requires FollowsPolicy(s, other, r) && forall x :: x in r <==> x in ForwardSpecs(s)
    requires Public(s) && IsFree(s, free) && m in DropMatches(s)
    requires Above(r, RepliesIn(s), NothingElseIn(s)) && Above(r, NothingElseIn(s), ClientsOut(s))
    ensures Above(r, DropSpec(s, m), RepliesIn(s))
  {
    OnlyOneForbids(s, other, m, m, free, true);
    var p := OnlyFor(s, m, free, true);
    MatchesForbid(s, other, p);
    assert Forbidden(s, p);
    assert FirstMatch(other, r, p) == Some(DROP);
    OursAre(s, RepliesIn(s));
    TailHits(s, other, p);
    AboveTrans(r, RepliesIn(s), NothingElseIn(s), ClientsOut(s));
    if !Above(r, DropSpec(s, m), RepliesIn(s)) {
      var k := WrongOrder(other, r, DropSpec(s, m), RepliesIn(s), p);
      assert r[k] in r;
      OursAre(s, r[k]);
      if r[k] in Drops(s) {
        OnlyOneDrops(s, other, m, r[k], free);
      }
      hide Drops, ForwardSpecs, Hits, FirstMatch, Forbidden, DropMatches;
    }
  }

  lemma PolicyGivesOrder(s: Setup, other: (string, Packet) -> bool, r: seq<Spec>, free: Address)
    requires FollowsPolicy(s, other, r) && forall x :: x in r <==> x in ForwardSpecs(s)
    requires Public(s) && IsFree(s, free)
    ensures Ordered(s, r)
  {
    PolicyOrdersReplies(s, other, r);
    PolicyOrdersClients(s, other, r, free);
    forall d | d in Drops(s)
      ensures Above(r, d, RepliesIn(s))
    {
      var ms := DropMatches(s);
      var i :| 0 <= i < |ms| && d == DropSpec(s, ms[i]);
      PolicyOrdersDrop(s, other, r, free, ms[i]);
    }
    hide FollowsPolicy, ForwardSpecs, Above;
  }

  /** A chain that holds some of our rules and nothing else: what apply leaves decides every packet as
      the policy does if each rule there already has the next kind of rule below it, and only then when
      the server's public addresses are public and `free` is an address that no rule names. */
  lemma OwnOrderDecides(s: Setup, other: (string, Packet) -> bool, c: seq<Spec>, free: Address)
    requires OnlyOurs(s, c)
    ensures OrderedStart(s, c) ==> FollowsPolicy(s, other, Topped(c, ForwardSpecs(s)))
    ensures Public(s) && IsFree(s, free) && FollowsPolicy(s, other, Topped(c, ForwardSpecs(s))) ==> OrderedStart(s, c)
  {
    var r := Topped(c, ForwardSpecs(s));
    ToppedOrder(s, c);
    forall x
      ensures x in r <==> x in ForwardSpecs(s)
    {
      ToppedOurs(s, c, x);
    }
    hide Topped, ForwardSpecs, OrderedStart, Ordered, OnlyOurs, Public, IsFree;
    if Public(s) && IsFree(s, free) && FollowsPolicy(s, other, r) {
      PolicyGivesOrder(s, other, r, free);
    }
    if Ordered(s, r) {
      forall p
        ensures FirstMatch(other, r, p) == Policy(s, p)
      {
        OrderGivesPolicy(s, other, r, p);
      }
    }
  }

  // ---------------------------------------------------------------- inputs that fail

  lemma OthersMiss(s: Setup, other: (string, Packet) -> bool, p: Packet)
    requires p.dst == Address(169, 254, 169, 254) && p.proto != TCP && s.publicIPs == []
    ensures forall m :: m in DropMatches(s)[1..] ==> !Holds(other, m, p)
  {
    PrivateNetsAreRanges(p.dst);
    forall m | m in DropMatches(s)[1..]
      ensures !Holds(other, m, p)
    {
      assert m in PrivateMatches() || m == TcpPort(25);
      if m in PrivateMatches() {
        assert m.net in PRIVATE_NETS;
      }
    }
  }

  lemma OthersDiffer(s: Setup)
    requires s.publicIPs == []
    ensures forall x :: x in DropSpecs(s, DropMatches(s)[1..]) ==>
              x != DropSpec(s, Destination(LINK_LOCAL)) && x !in TailSpecs(s)
  {
    var ms := DropMatches(s)[1..];
    forall x | x in DropSpecs(s, ms)
      ensures x != DropSpec(s, Destination(LINK_LOCAL)) && x !in TailSpecs(s)
    {
      var i :| 0 <= i < |ms| && x == DropSpec(s, ms[i]);
      assert ms[i] in PrivateMatches() || ms[i] == TcpPort(25);
      assert x.matches[1] == ms[i] && x.target == DROP && |x.matches| == 2;
    }
  }

  /** The rules that are still missing when only the first one is there. */
  lemma LeftOver(s: Setup)
    requires s.publicIPs == []
    ensures KeepLast(Without(ForwardSpecs(s), [DropSpec(s, Destination(LINK_LOCAL))])) ==
            KeepLast(DropSpecs(s, DropMatches(s)[1..])) + TailSpecs(s)
  {
    var first := DropSpec(s, Destination(LINK_LOCAL));
    var ms := DropMatches(s)[1..];
    var ds := DropSpecs(s, ms);
    var t := TailSpecs(s);
    assert ForwardSpecs(s) == [first] + (ds + t);
    OthersDiffer(s);
    DropsAreDistinctFromTail(s);
    assert first.matches != t[0].matches && first !in t;
    hide DropSpecs, TailSpecs, ForwardSpecs, DropMatches;
    WithoutJoin([first], ds + t, [first]);
    assert Without([first], [first]) == [];
    WithoutAbsent(ds + t, [first]);
    hide Without;
    assert [] + (ds + t) == ds + t;
    KeepLastJoin(ds, t);
  }

  lemma LeftoverLetsThrough(s: Setup, other: (string, Packet) -> bool, p: Packet)
    requires p.inIface == s.tun && p.outIface != s.tun && p.dst == Address(169, 254, 169, 254) && p.proto != TCP
    requires s.publicIPs == []
    ensures Policy(s, p) == Some(DROP)
    ensures FirstMatch(other, Topped([DropSpec(s, Destination(LINK_LOCAL))], ForwardSpecs(s)), p) == Some(ACCEPT)
  {
    var ms := DropMatches(s)[1..];
    var ds := DropSpecs(s, ms);
    var c := [DropSpec(s, Destination(LINK_LOCAL))];
    var t := TailSpecs(s);
    OthersMiss(s, other, p);
    AnyDropHits(s, other, ms, p);
    LeftOver(s);
    ToppedIs(c, ForwardSpecs(s));
    Associates(KeepLast(ds), t, c);
    SameHits(other, ds, p);
    DropsFirst(other, KeepLast(ds), t + c, p);
    TailVerdict(s, other, c, p);
  }

  lemma {:induction false} InstallSucceeds(store: Store, rs: seq<Rule>, can: seq<bool>)
    requires |can| == |rs| && (forall i :: 0 <= i < |can| ==> can[i]) && forall r :: r in rs ==> r.at in store
    ensures Install(store, rs, can).ok
    decreases |rs|
  {
    if rs != [] {
      InstallSucceeds(store, rs[1..], can[1..]);
      InstallKeys(store, rs[1..], can[1..]);
      assert rs[0] in rs;
    }
  }

  lemma LeftoverIsNotPrivate(s: Setup)
    ensures DropSpec(s, Destination(LINK_LOCAL)) !in DropSpecs(s, PrivateMatches())
  {
    forall i | 0 <= i < |PrivateMatches()|
      ensures DropSpec(s, Destination(LINK_LOCAL)) != DropSpecs(s, PrivateMatches())[i]
    {
      assert PrivateMatches()[i] == Destination(PRIVATE_NETS[i]) && PRIVATE_NETS[i] != LINK_LOCAL;
      assert DropSpecs(s, PrivateMatches())[i].matches[1] == PrivateMatches()[i];
      assert DropSpec(s, Destination(LINK_LOCAL)).matches[1] == Destination(LINK_LOCAL);
    }
  }

  lemma LeftoverIsNotStale(s: Setup, k: ChainId)
    ensures DropSpec(s, Destination(LINK_LOCAL)) !in SpecsAt(StaleList(s), k)
  {
    LeftoverIsNotPrivate(s);
    if DropSpec(s, Destination(LINK_LOCAL)) in SpecsAt(StaleList(s), k) {
      StaleListAt(s, k, DropSpec(s, Destination(LINK_LOCAL)));
    }
    hide SpecsAt, DropSpecs, StaleList;
  }

  lemma NotDeleted(c: seq<Spec>, rs: seq<Rule>, k: ChainId)
    requires |c| == 1 && c[0] !in SpecsAt(rs, k)
    ensures DeletedAt(c, rs, k) == c
  {
    forall x | x in SpecsAt(rs, k)
      ensures x !in c && multiset(c)[x] == 0
    {
    }
    DeletedIsFilter(c, rs, k);
    WithoutAbsent(c, SpecsAt(rs, k));
  }

  /** A rule left over from before spoils the order: with only the link-local DROP in the FORWARD chain,
      apply succeeds, and a client's packet to the metadata service is accepted. */
  lemma PartialStartLetsThrough(s: Setup, store: Store, can: seq<bool>, other: (string, Packet) -> bool, p: Packet)
    requires |can| == |RuleList(s)| && (forall i :: 0 <= i < |can| ==> can[i])
    requires forall r :: r in RuleList(s) ==> r.at in store
    requires ChainId(Filter, FORWARD) in store
    requires store[ChainId(Filter, FORWARD)] == [DropSpec(s, Destination(LINK_LOCAL))]
    requires p.inIface == s.tun && p.outIface != s.tun && p.dst == Address(169, 254, 169, 254) && p.proto != TCP
    requires s.publicIPs == []
    ensures Applied(store, RuleList(s), StaleList(s), can).ok && Policy(s, p) == Some(DROP)
    ensures ChainId(Filter, FORWARD) in Applied(store, RuleList(s), StaleList(s), can).store
    ensures FirstMatch(other, Applied(store, RuleList(s), StaleList(s), can).store[ChainId(Filter, FORWARD)], p)
         == Some(ACCEPT)
  {
    var k := ChainId(Filter, FORWARD);
    var start := DeleteAll(store, StaleList(s));
    RuleListAt(s, k);
    RuleListInserted(s, k);
    DeleteKeys(store, StaleList(s));
    InstallSucceeds(start, RuleList(s), can);
    DeleteAllAt(store, StaleList(s), k);
    LeftoverIsNotStale(s, k);
    NotDeleted(store[k], StaleList(s), k);
    InstallTops(start, RuleList(s), can, k);
    LeftoverLetsThrough(s, other, p);
  }

  lemma OldAcceptAt(s: Setup) returns (drops: seq<Spec>)
    ensures SpecsAt(StaleList(s), ChainId(Filter, FORWARD)) == drops + [OldAccept(s)]
    ensures forall d :: d in drops ==> d.target == DROP
  {
    var k := ChainId(Filter, FORWARD);
    var a := if s.allowPrivate then DropRules(s, k, PrivateMatches()) else [];
    drops := if s.allowPrivate then DropSpecs(s, PrivateMatches()) else [];
    var b := [Rule(k, OldAccept(s), false, false)];
    var docker := if s.docker then StaleRules(s, ChainId(Filter, DOCKER_USER)) else [];
    SpecsAtOne(a, k, drops);
    SpecsAtOne(b, k, [OldAccept(s)]);
    SpecsAtNone(docker, k);
    assert StaleList(s) == a + b + docker;
    hide SpecsAt, StaleList, StaleRules, DropRules, DropSpecs;
    SpecsAtJoin(a, b, k);
    SpecsAtJoin(a + b, docker, k);
  }

  lemma NotAmongDrops(s: Setup, drops: seq<Spec>)
    requires forall d :: d in drops ==> d.target == DROP
    ensures multiset(drops)[OldAccept(s)] == 0
  {
    assert OldAccept(s) !in drops;
  }

  lemma OldAcceptOnce(s: Setup)
    ensures Rule(ChainId(Filter, FORWARD), OldAccept(s), false, false) in StaleList(s)
    ensures multiset(SpecsAt(StaleList(s), ChainId(Filter, FORWARD)))[OldAccept(s)] == 1
  {
    var k := ChainId(Filter, FORWARD);
    var rules := StaleRules(s, k);
    assert rules[|rules| - 1] == Rule(k, OldAccept(s), false, false);
    assert rules[|rules| - 1] in StaleList(s);
    var drops := OldAcceptAt(s);
    hide *;
    assert multiset(drops + [OldAccept(s)]) == multiset(drops) + multiset{OldAccept(s)};
    NotAmongDrops(s, drops);
  }

  /** With two copies of that rule in the FORWARD chain, the second apply takes the second one: it does
      change the store. */
  lemma DoubledStaleRuleChanges(s: Setup, store: Store, can: seq<bool>)
    requires |can| == |RuleList(s)| && (forall i :: 0 <= i < |can| ==> can[i])
    requires forall r :: r in RuleList(s) ==> r.at in store
    requires ChainId(Filter, FORWARD) in store && store[ChainId(Filter, FORWARD)] == [OldAccept(s), OldAccept(s)]
    ensures Applied(store, RuleList(s), StaleList(s), can).ok
    ensures !UnchangedBy(Applied(store, RuleList(s), StaleList(s), can).store, RuleList(s), StaleList(s), can)
  {
    var k := ChainId(Filter, FORWARD);
    DeleteKeys(store, StaleList(s));
    InstallSucceeds(DeleteAll(store, StaleList(s)), RuleList(s), can);
    forall j, x | x in SpecsAt(StaleList(s), j)
      ensures x !in SpecsAt(RuleList(s), j)
    {
      StaleIsNotOurs(s, j, x);
    }
    SecondApplyChangesNothingExactlyWhen(store, RuleList(s), StaleList(s), can, can);
    OldAcceptOnce(s);
    var r := Rule(k, OldAccept(s), false, false);
    assert r in StaleList(s);
    assert !StaleListed(store, StaleList(s));
  }
}
