/** The vpn channel's rules in chains that hold rules of other programs as well (cmd/server/vpn_setup.go):
    exactly when apply leaves the policy in force. */
module VpnForeign {
  import opened Base
  import opened Firewall
  import opened FirewallChains
  import opened VpnRules
  import opened VpnPolicy
  import opened VpnOrder

  /** The rules of a chain that are in a list. */
  function Only(c: seq<Spec>, xs: seq<Spec>): seq<Spec> {
    if c == [] then []
    else (if c[0] in xs then [c[0]] else []) + Only(c[1..], xs)
  }

  lemma {:induction false} OnlyMembers(c: seq<Spec>, xs: seq<Spec>, x: Spec)
    ensures x in Only(c, xs) <==> x in c && x in xs
  {
    if c != [] {
      OnlyMembers(c[1..], xs, x);
    }
  }

  /** Only what the list and the chain share matters for what is missing. */
  lemma {:induction false} SameMissing(xs: seq<Spec>, c: seq<Spec>, d: seq<Spec>)
    requires forall x :: x in xs ==> (x in c <==> x in d)
    ensures Without(xs, c) == Without(xs, d)
  {
    if xs != [] {
      SameMissing(xs[1..], c, d);
    }
  }

  // ---------------------------------------------------------------- first matches

  /** Rules that do not match a packet may be left out. */
  lemma {:induction false} FirstMatchOnly(other: (string, Packet) -> bool, c: seq<Spec>, xs: seq<Spec>, p: Packet)
    requires forall x :: x in c && x !in xs ==> !Hits(other, x, p)
    ensures FirstMatch(other, c, p) == FirstMatch(other, Only(c, xs), p)
  {
    if c != [] {
      FirstMatchOnly(other, c[1..], xs, p);
      assert c[0] in c;
      if c[0] in xs {
        FirstOf(other, c[0], Only(c[1..], xs), p);
      } else {
        assert Only(c, xs) == Only(c[1..], xs);
      }
    }
  }

  // ---------------------------------------------------------------- our rules among others

  /** The rule leaves alone every packet the policy is about. */
  ghost predicate Neutral(s: Setup, other: (string, Packet) -> bool, x: Spec) {
    forall p :: Policy(s, p).Some? ==> !Hits(other, x, p)
  }

  /** The chain is `mine` and below it `rest`: none of our rules is in `rest`, and the rules of others in
      `mine` leave alone what the policy is about. */
  ghost predicate Splits(s: Setup, other: (string, Packet) -> bool, mine: seq<Spec>, rest: seq<Spec>) {
    && (forall x :: x in rest ==> x !in ForwardSpecs(s))
    && (forall x :: x in mine && x !in ForwardSpecs(s) ==> Neutral(s, other, x))
  }

  /** Of our rules, those in the chain. */
  function Ours(s: Setup, c: seq<Spec>): seq<Spec> {
    Only(c, ForwardSpecs(s))
  }

  /** The policy comes first; what it does not decide meets the chain as it was. */
  ghost predicate PolicyFirst(s: Setup, other: (string, Packet) -> bool, r: seq<Spec>, was: seq<Spec>) {
    forall p :: FirstMatch(other, r, p) == if Policy(s, p).Some? then Policy(s, p) else FirstMatch(other, was, p)
  }

  lemma NoneOfOursHits(s: Setup, other: (string, Packet) -> bool, xs: seq<Spec>, p: Packet)
    requires Policy(s, p).None? && forall x :: x in xs ==> x in ForwardSpecs(s)
    ensures !AnyHits(other, xs, p)
  {
    forall x | x in xs
      ensures !Hits(other, x, p)
    {
      KeepLastMembers(ForwardSpecs(s), x);
      OursNeedTheTunnel(s, other, x, p);
    }
  }

  /** A packet the policy decides matches one of our rules. */
  lemma OursDecide(s: Setup, other: (string, Packet) -> bool, r: seq<Spec>, p: Packet)
    requires Policy(s, p).Some? && forall x :: x in ForwardSpecs(s) ==> x in r
    ensures FirstMatch(other, r, p).Some?
  {
    TailHits(s, other, p);
    DropsAreForbidden(s, other, p);
    OursAre(s, NothingElseIn(s));
    OursAre(s, ClientsOut(s));
    if p.inIface == s.tun && Forbidden(s, p) {
      var d :| d in Drops(s) && Hits(other, d, p);
      OursAre(s, d);
    }
    assert AnyHits(other, r, p);
    var k := FirstHit(other, r, p);
  }

  /** What apply adds to the chain is what it would add to our rules alone. */
  lemma SameOnTop(s: Setup, other: (string, Packet) -> bool, mine: seq<Spec>, rest: seq<Spec>)
    returns (missing: seq<Spec>)
    requires Splits(s, other, mine, rest)
    ensures Topped(mine + rest, ForwardSpecs(s)) == (missing + mine) + rest
    ensures Topped(Ours(s, mine), ForwardSpecs(s)) == missing + Ours(s, mine)
    ensures forall x :: x in missing ==> x in ForwardSpecs(s)
  {
    var xs := ForwardSpecs(s);
    var c := mine + rest;
    hide ForwardSpecs;
    forall x | x in xs
      ensures x in c <==> x in Ours(s, mine)
    {
      OnlyMembers(mine, xs, x);
    }
    SameMissing(xs, c, Ours(s, mine));
    ToppedIs(c, xs);
    ToppedIs(Ours(s, mine), xs);
    missing := KeepLast(Without(xs, c));
    forall x | x in missing
      ensures x in xs
    {
      KeepLastMembers(Without(xs, c), x);
      WithoutMembers(xs, c, x);
    }
    Associates(missing, mine, rest);
  }

  /** For each packet, the chain with others decides as our rules alone, and else as it was. */
  lemma OthersDoNotMatter(
    s: Setup, other: (string, Packet) -> bool, mine: seq<Spec>, rest: seq<Spec>, p: Packet)
    requires Splits(s, other, mine, rest)
    ensures var alone := FirstMatch(other, Topped(Ours(s, mine), ForwardSpecs(s)), p);
            && (alone.Some? <==> Policy(s, p).Some?)
            && FirstMatch(other, Topped(mine + rest, ForwardSpecs(s)), p) ==
               if alone.Some? then alone else FirstMatch(other, mine + rest, p)
  {
    var xs := ForwardSpecs(s);
    var missing := SameOnTop(s, other, mine, rest);
    var alone := missing + Ours(s, mine);
    forall x
      ensures x in Ours(s, mine) <==> x in mine && x in xs
    {
      OnlyMembers(mine, xs, x);
    }
    forall x | x in xs
      ensures x in alone
    {
      ToppedOurs(s, Ours(s, mine), x);
    }
    FirstMatchEmpty(other, p);
    if Policy(s, p).Some? {
      FirstMatchOnly(other, mine, xs, p);
    }
    hide ForwardSpecs, Ours, Topped, Policy, FirstMatch, Only;
    if Policy(s, p).Some? {
      OursDecide(s, other, alone, p);
      FirstMatchJoin(other, missing, mine, p);
      FirstMatchJoin(other, missing, Ours(s, mine), p);
      FirstMatchJoin(other, missing + mine, rest, p);
    } else {
      NoneOfOursHits(s, other, missing, p);
      NoneOfOursHits(s, other, alone, p);
      NoneHit(other, missing, mine + rest, p);
      NoneHit(other, alone, [], p);
      assert alone + [] == alone;
      Associates(missing, mine, rest);
    }
  }

  /** Main result: in a chain where rules of ours and of others are mixed, those of others that stand
      above one of ours leaving alone what the policy is about, apply puts the policy first if each of
      our rules that is there has the next kind of rule below it; and only then, when the server's public
      addresses are public and `free` is an address that no rule names. */
  lemma PolicyHoldsExactlyWhen(
    s: Setup, other: (string, Packet) -> bool, mine: seq<Spec>, rest: seq<Spec>, free: Address)
    requires Splits(s, other, mine, rest)
    ensures OrderedStart(s, Ours(s, mine)) ==>
              PolicyFirst(s, other, Topped(mine + rest, ForwardSpecs(s)), mine + rest)
    ensures Public(s) && IsFree(s, free) ==>
              (PolicyFirst(s, other, Topped(mine + rest, ForwardSpecs(s)), mine + rest)
               <==> OrderedStart(s, Ours(s, mine)))
  {
    var alone := Topped(Ours(s, mine), ForwardSpecs(s));
    forall x | x in Ours(s, mine)
      ensures x in ForwardSpecs(s)
    {
      OnlyMembers(mine, ForwardSpecs(s), x);
    }
    OwnOrderDecides(s, other, Ours(s, mine), free);
    forall p
      ensures FirstMatch(other, Topped(mine + rest, ForwardSpecs(s)), p) ==
              (if FirstMatch(other, alone, p).Some? then FirstMatch(other, alone, p)
               else FirstMatch(other, mine + rest, p))
      ensures FirstMatch(other, alone, p).Some? <==> Policy(s, p).Some?
    {
      OthersDoNotMatter(s, other, mine, rest, p);
    }
    hide Splits, ForwardSpecs, Ours, Topped, Policy, FirstMatch, OrderedStart, Public, IsFree;
  }

  /** The same for what a successful apply leaves in a forward chain. */
  lemma ApplyFollowsPolicyExactlyWhen(
    s: Setup, store: Store, can: seq<bool>, k: ChainId, other: (string, Packet) -> bool,
    mine: seq<Spec>, rest: seq<Spec>, free: Address)
    requires |can| == |RuleList(s)| && k in ForwardChains(s) && k in store
    requires DeletedAt(store[k], StaleList(s), k) == mine + rest && Splits(s, other, mine, rest)
    requires Applied(store, RuleList(s), StaleList(s), can).ok
    ensures k in Applied(store, RuleList(s), StaleList(s), can).store
    ensures var r := Applied(store, RuleList(s), StaleList(s), can).store[k];
            OrderedStart(s, Ours(s, mine)) ==> PolicyFirst(s, other, r, mine + rest)
    ensures var r := Applied(store, RuleList(s), StaleList(s), can).store[k];
            Public(s) && IsFree(s, free) ==>
              (PolicyFirst(s, other, r, mine + rest) <==> OrderedStart(s, Ours(s, mine)))
  {
    RuleListAt(s, k);
    RuleListInserted(s, k);
    DeleteAllAt(store, StaleList(s), k);
    InstallTops(DeleteAll(store, StaleList(s)), RuleList(s), can, k);
    hide PolicyFirst, OrderedStart, Splits, Public, IsFree, ForwardSpecs, Ours;
    PolicyHoldsExactlyWhen(s, other, mine, rest, free);
  }

  // ---------------------------------------------------------------- private networks switched on

  function Strict(s: Setup): Setup {
    s.(allowPrivate := false)
  }

  /** What the strict list has more: the DROPs of the private networks. */
  lemma StrictParts(s: Setup) returns (a: seq<Spec>, b: seq<Spec>)
    requires s.allowPrivate
    ensures ForwardSpecs(s) == a + b
    ensures ForwardSpecs(Strict(s)) == a + DropSpecs(s, PrivateMatches()) + b
  {
    var m := PublicMatches(s.publicIPs) + [TcpPort(25)];
    a := DropSpecs(s, [Destination(LINK_LOCAL)]);
    b := DropSpecs(s, m) + TailSpecs(s);
    assert DropMatches(s) == [Destination(LINK_LOCAL)] + m;
    assert DropMatches(Strict(s)) == [Destination(LINK_LOCAL)] + PrivateMatches() + m;
    assert DropSpecs(s, DropMatches(s)) == a + DropSpecs(s, m);
    assert DropSpecs(Strict(s), DropMatches(Strict(s))) == a + DropSpecs(s, PrivateMatches()) + DropSpecs(s, m);
  }

  lemma PrivateIsStale(s: Setup, k: ChainId)
    requires s.allowPrivate && k in ForwardChains(s)
    ensures forall x :: x in DropSpecs(s, PrivateMatches()) ==> x in SpecsAt(StaleList(s), k)
  {
    forall x | x in DropSpecs(s, PrivateMatches())
      ensures x in SpecsAt(StaleList(s), k)
    {
      var i :| 0 <= i < |PrivateMatches()| && x == DropSpecs(s, PrivateMatches())[i];
      var r := DropRules(s, k, PrivateMatches())[i];
      assert r in DropRules(s, k, PrivateMatches()) && r in StaleRules(s, k);
      assert r in StaleList(s);
      ListedAt(StaleList(s), k, x);
    }
  }

  lemma StaleAreOthers(s: Setup, k: ChainId, c: seq<Spec>)
    requires k in ForwardChains(s) && forall x :: x in c ==> x in ForwardSpecs(s)
    ensures forall x :: x in SpecsAt(StaleList(s), k) ==> x !in c
  {
    RuleListAt(s, k);
    hide SpecsAt, StaleList, RuleList, ForwardSpecs;
    forall x | x in SpecsAt(StaleList(s), k)
      ensures x !in c
    {
      StaleIsNotOurs(s, k, x);
    }
  }

  /** Without the stale rules the strict list is the list. */
  lemma StrictWithoutStale(s: Setup, k: ChainId)
    requires s.allowPrivate && k in ForwardChains(s)
    ensures Without(ForwardSpecs(Strict(s)), SpecsAt(StaleList(s), k)) == ForwardSpecs(s)
  {
    hide ForwardSpecs, DropSpecs, SpecsAt, StaleList, RuleList, Without, ForwardChains, PrivateMatches;
    var st := SpecsAt(StaleList(s), k);
    var a, b := StrictParts(s);
    var d := DropSpecs(s, PrivateMatches());
    PrivateIsStale(s, k);
    StaleAreOthers(s, k, a);
    StaleAreOthers(s, k, b);
    WithoutJoin(a + d, b, st);
    WithoutJoin(a, d, st);
    WithoutAbsent(a, st);
    WithoutAbsent(b, st);
    WithoutAll(d, st);
    assert a + [] + b == a + b;
  }

  lemma {:induction false} DistinctCount(c: seq<Spec>, x: Spec)
    requires Distinct(c)
    ensures multiset(c)[x] <= 1
  {
    if c != [] {
      DistinctCount(c[1..], x);
      assert c == [c[0]] + c[1..];
      assert c[0] == x ==> x !in c[1..];
    }
  }

  lemma OnceEach(c: seq<Spec>, rest: seq<Spec>, xs: seq<Spec>)
    requires Distinct(c) && forall x :: x in xs ==> x !in rest
    ensures Fits(c + rest, xs)
  {
    forall x | x in xs
      ensures multiset(c + rest)[x] <= multiset(xs)[x]
    {
      DistinctCount(c, x);
      assert multiset(c + rest)[x] == multiset(c)[x] + multiset(rest)[x];
    }
  }

  lemma OnTop(ours: seq<Spec>, rest: seq<Spec>)
    ensures TailIsOnTop(ours + rest, ours)
  {
    assert ours[0..] == ours;
    assert TailFrom(ours + rest, ours, 0);
  }

  /** Main result: when private networks are allowed after an earlier run without them, the DROPs of that run
      go, and the chain follows the new policy. */
  lemma SwitchingOnPrivateWorks(
    s: Setup, store: Store, can: seq<bool>, k: ChainId, other: (string, Packet) -> bool, rest: seq<Spec>, p: Packet)
    requires s.allowPrivate && |can| == |RuleList(s)| && k in ForwardChains(s) && k in store
    requires store[k] == KeepLast(ForwardSpecs(Strict(s))) + rest
    requires forall x :: x in rest ==> x !in SpecsAt(StaleList(s), k) && x !in ForwardSpecs(s)
    requires Applied(store, RuleList(s), StaleList(s), can).ok
    ensures k in Applied(store, RuleList(s), StaleList(s), can).store
    ensures FirstMatch(other, Applied(store, RuleList(s), StaleList(s), can).store[k], p) ==
            if Policy(s, p).Some? then Policy(s, p) else FirstMatch(other, rest, p)
  {
    var st := SpecsAt(StaleList(s), k);
    var strict, ours := ForwardSpecs(Strict(s)), ForwardSpecs(s);
    KeepLastIsDistinct(strict);
    OnceEach(KeepLast(strict), rest, st);
    DeletedIsFilter(store[k], StaleList(s), k);
    WithoutJoin(KeepLast(strict), rest, st);
    WithoutAbsent(rest, st);
    KeepLastWithout(strict, st);
    StrictWithoutStale(s, k);
    var c := DeletedAt(store[k], StaleList(s), k);
    assert c == KeepLast(ours) + rest;
    hide DeletedAt, Without, SpecsAt, StaleList, RuleList, Applied, FirstMatch;
    OnTop(KeepLast(ours), rest);
    ForwardingFollowsPolicy(s, store, can, k, other, p);
    OursOnTop(s, other, rest, p);
  }
}
