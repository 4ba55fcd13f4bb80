/** What installing and removing a rule list does to each chain (cmd/server/vpn_setup.go). */
module FirewallChains {
  import opened Base
  import opened Firewall

  /** The rules of a list that belong to a chain, in list order. */
  function SpecsAt(rs: seq<Rule>, k: ChainId): seq<Spec>
    decreases |rs|
  {
    if rs == [] then []
    else (if rs[0].at == k then [rs[0].spec] else []) + SpecsAt(rs[1..], k)
  }

  lemma {:induction false} SpecsAtJoin(a: seq<Rule>, b: seq<Rule>, k: ChainId)
    ensures SpecsAt(a + b, k) == SpecsAt(a, k) + SpecsAt(b, k)
    decreases |a|
  {
    if a == [] {
      assert a + b == b;
    } else {
      assert (a + b)[0] == a[0] && (a + b)[1..] == a[1..] + b;
      SpecsAtJoin(a[1..], b, k);
    }
  }

  lemma {:induction false} ListedAt(rs: seq<Rule>, k: ChainId, x: Spec)
    ensures x in SpecsAt(rs, k) <==> exists r :: r in rs && r.at == k && r.spec == x
  {
    if rs != [] {
      ListedAt(rs[1..], k, x);
      if r :| r in rs && r.at == k && r.spec == x {
        assert r == rs[0] || r in rs[1..];
      }
    }
  }

  lemma {:induction false} SpecsAtSource(rs: seq<Rule>, k: ChainId, x: Spec) returns (r: Rule)
    requires x in SpecsAt(rs, k)
    ensures r in rs && r.at == k && r.spec == x
  {
    if rs[0].at == k && rs[0].spec == x {
      r := rs[0];
    } else {
      r := SpecsAtSource(rs[1..], k, x);
    }
  }

  // ---------------------------------------------------------------- removal

  /** A chain without every rule of a list. */
  function Without(c: seq<Spec>, xs: seq<Spec>): seq<Spec> {
    if c == [] then []
    else (if c[0] in xs then [] else [c[0]]) + Without(c[1..], xs)
  }

  lemma {:induction false} WithoutMembers(c: seq<Spec>, xs: seq<Spec>, x: Spec)
    ensures x in Without(c, xs) <==> x in c && x !in xs
  {
    if c != [] {
      WithoutMembers(c[1..], xs, x);
    }
  }

  lemma {:induction false} WithoutAbsent(c: seq<Spec>, xs: seq<Spec>)
    requires forall x :: x in xs ==> x !in c
    ensures Without(c, xs) == c
  {
    if c != [] {
      WithoutAbsent(c[1..], xs);
    }
  }

  lemma {:induction false} WithoutJoin(a: seq<Spec>, b: seq<Spec>, xs: seq<Spec>)
    ensures Without(a + b, xs) == Without(a, xs) + Without(b, xs)
  {
    if a == [] {
      assert a + b == b;
    } else {
      assert (a + b)[0] == a[0] && (a + b)[1..] == a[1..] + b;
      WithoutJoin(a[1..], b, xs);
    }
  }

  lemma {:induction false} SameFilter(c: seq<Spec>, xs: seq<Spec>, ys: seq<Spec>)
    requires forall x :: x in xs <==> x in ys
    ensures Without(c, xs) == Without(c, ys)
  {
    if c != [] {
      SameFilter(c[1..], xs, ys);
    }
  }

  lemma {:induction false} OnlyOthers(c: seq<Spec>, x: Spec, ys: seq<Spec>)
    requires x !in c
    ensures Without(c, [x] + ys) == Without(c, ys)
  {
    if c != [] {
      OnlyOthers(c[1..], x, ys);
    }
  }

  /** Removing one occurrence of x first makes no difference if x goes altogether, or occurs once. */
  lemma {:induction false} WithoutOneFirst(c: seq<Spec>, x: Spec, ys: seq<Spec>)
    requires x in ys || multiset(c)[x] <= 1
    ensures Without(Without1(c, x), ys) == Without(c, [x] + ys)
  {
    if c == [] {
    } else {
      assert c == [c[0]] + c[1..];
      if c[0] == x {
        if x in ys {
          SameFilter(c[1..], ys, [x] + ys);
        } else {
          assert x !in c[1..] by {
            assert multiset(c)[x] == multiset([c[0]])[x] + multiset(c[1..])[x];
          }
          OnlyOthers(c[1..], x, ys);
        }
      } else {
        WithoutOneFirst(c[1..], x, ys);
      }
    }
  }

  /** Deleting takes one occurrence of a rule each time it is listed. */
  lemma {:induction false} Without1Counts(c: seq<Spec>, x: Spec)
    ensures multiset(Without1(c, x)) == multiset(c) - multiset{x}
  {
    if c != [] {
      assert c == [c[0]] + c[1..];
      Without1Counts(c[1..], x);
    }
  }

  lemma {:induction false} DeletedCounts(c: seq<Spec>, rs: seq<Rule>, k: ChainId)
    ensures multiset(DeletedAt(c, rs, k)) == multiset(c) - multiset(SpecsAt(rs, k))
    decreases |rs|
  {
    if rs != [] {
      if rs[0].at == k {
        Without1Counts(c, rs[0].spec);
        DeletedCounts(Without1(c, rs[0].spec), rs[1..], k);
      } else {
        DeletedCounts(c, rs[1..], k);
        assert [] + SpecsAt(rs[1..], k) == SpecsAt(rs[1..], k);
      }
    }
  }

  /** No rule of the list occurs in the chain more often than in the list. */
  ghost predicate Fits(c: seq<Spec>, xs: seq<Spec>) {
    forall x :: x in xs ==> multiset(c)[x] <= multiset(xs)[x]
  }

  lemma {:induction false} DeletedIsFilter(c: seq<Spec>, rs: seq<Rule>, k: ChainId)
    requires Fits(c, SpecsAt(rs, k))
    ensures DeletedAt(c, rs, k) == Without(c, SpecsAt(rs, k))
    decreases |rs|
  {
    if rs == [] {
      WithoutAbsent(c, []);
    } else {
      var ys := SpecsAt(rs[1..], k);
      if rs[0].at == k {
        var x := rs[0].spec;
        assert multiset(SpecsAt(rs, k)) == multiset{x} + multiset(ys);
        Without1Counts(c, x);
        forall y | y in ys
          ensures multiset(Without1(c, x))[y] <= multiset(ys)[y]
        {
          assert y in SpecsAt(rs, k);
        }
        DeletedIsFilter(Without1(c, x), rs[1..], k);
        assert x in SpecsAt(rs, k);
        WithoutOneFirst(c, x, ys);
      } else {
        assert SpecsAt(rs, k) == ys;
        DeletedIsFilter(c, rs[1..], k);
      }
    }
  }

  /** Main result: deleting a rule list clears a chain of its rules exactly when no rule occurs in the
      chain more often than in the list. */
  lemma DeletingClearsExactlyWhen(c: seq<Spec>, rs: seq<Rule>, k: ChainId)
    ensures DeletedAt(c, rs, k) == Without(c, SpecsAt(rs, k))
       <==> Fits(c, SpecsAt(rs, k))
  {
    if DeletedAt(c, rs, k) == Without(c, SpecsAt(rs, k)) {
      forall x | x in SpecsAt(rs, k)
        ensures multiset(c)[x] <= multiset(SpecsAt(rs, k))[x]
      {
        WithoutMembers(c, SpecsAt(rs, k), x);
        DeletedCounts(c, rs, k);
        assert x !in multiset(DeletedAt(c, rs, k));
      }
    } else if Fits(c, SpecsAt(rs, k)) {
      DeletedIsFilter(c, rs, k);
    }
  }

  lemma AddedRule(d: seq<Spec>, y: Spec, xs: seq<Spec>)
    requires y in xs
    ensures Without([y] + d, xs) == Without(d + [y], xs) == Without(d, xs)
  {
    WithoutJoin([y], d, xs);
    WithoutJoin(d, [y], xs);
    assert Without([y], xs) == [];
    hide Without;
  }

  /** Installing touches no other rule. */
  lemma {:induction false} InstalledOthers(c: seq<Spec>, rs: seq<Rule>, can: seq<bool>, k: ChainId, xs: seq<Spec>)
    requires |can| == |rs| && forall x :: x in SpecsAt(rs, k) ==> x in xs
    ensures Without(InstalledAt(c, rs, can, k), xs) == Without(c, xs)
    decreases |rs|
  {
    if rs != [] {
      forall x | x in SpecsAt(rs[1..], k)
        ensures x in xs
      {
        assert x in SpecsAt(rs, k);
      }
      InstalledOthers(c, rs[1..], can[1..], k, xs);
      var d := InstalledAt(c, rs[1..], can[1..], k);
      if rs[0].at == k && rs[0].spec !in d && can[0] {
        assert rs[0].spec in SpecsAt(rs, k);
        AddedRule(d, rs[0].spec, xs);
      }
    }
  }

  lemma AddedCounts(d: seq<Spec>, y: Spec)
    ensures multiset([y] + d) == multiset(d) + multiset{y} == multiset(d + [y])
  {
  }

  /** Installing adds a rule once, when it is not there. */
  lemma {:induction false} InstalledCounts(c: seq<Spec>, rs: seq<Rule>, can: seq<bool>, k: ChainId, x: Spec)
    requires |can| == |rs|
    ensures var n := multiset(InstalledAt(c, rs, can, k))[x];
            multiset(c)[x] <= n && (n == multiset(c)[x] || n == 1)
    decreases |rs|
  {
    if rs != [] {
      InstalledCounts(c, rs[1..], can[1..], k, x);
      var d := InstalledAt(c, rs[1..], can[1..], k);
      AddedCounts(d, rs[0].spec);
      assert rs[0].spec in d <==> multiset(d)[rs[0].spec] > 0;
    }
  }

  lemma {:induction false} SuffixSpecs(rs: seq<Rule>, i: nat, k: ChainId)
    requires i <= |rs|
    ensures forall x :: x in SpecsAt(rs[i..], k) ==> x in SpecsAt(rs, k)
  {
    if i == 0 {
      assert rs[0..] == rs;
    } else {
      assert rs[i - 1..][1..] == rs[i..];
      SuffixSpecs(rs, i - 1, k);
    }
  }

  lemma CountsAbsent(c: seq<Spec>, xs: seq<Spec>)
    requires forall x :: x in xs ==> x !in c
    ensures forall x :: x in xs ==> multiset(c)[x] == 0
    ensures Without(c, xs) == c
  {
    WithoutAbsent(c, xs);
  }

  lemma NothingLeft(c: seq<Spec>, xs: seq<Spec>)
    ensures forall x :: x in xs ==> x !in Without(c, xs)
  {
    forall x | x in xs
      ensures x !in Without(c, xs)
    {
      WithoutMembers(c, xs, x);
    }
  }

  lemma InstalledFits(c: seq<Spec>, rs: seq<Rule>, can: seq<bool>, k: ChainId, xs: seq<Spec>)
    requires |can| == |rs|
    ensures Fits(InstalledAt(c, rs, can, k), xs) <==> Fits(c, xs)
  {
    forall x | x in xs
      ensures multiset(InstalledAt(c, rs, can, k))[x] <= multiset(xs)[x] <==> multiset(c)[x] <= multiset(xs)[x]
    {
      InstalledCounts(c, rs, can, k, x);
    }
  }

  /** Main result: after remove, and after an apply that failed, a chain holds what it held before
      without the stale rules and without ours exactly when it held none of ours more often than the
      list does. */
  lemma RemoveUndoesApplyExactlyWhen(store: Store, rs: seq<Rule>, stale: seq<Rule>, can: seq<bool>, k: ChainId)
    requires |can| == |rs| && k in store
    ensures var o := Applied(store, rs, stale, can);
            var c := DeletedAt(store[k], stale, k);
            var ours := SpecsAt(rs, k);
            && o.store.Keys == store.Keys == DeleteAll(o.store, rs).Keys
            && (o.ok ==> (DeleteAll(o.store, rs)[k] == Without(c, ours) <==> Fits(c, ours)))
            && (!o.ok ==> (o.store[k] == Without(c, ours) <==> Fits(c, ours)))
            && (Fits(c, ours) ==> DeleteAll(o.store, rs)[k] == Without(c, ours))
  {
    var start := DeleteAll(store, stale);
    DeleteAllAt(store, stale, k);
    var i := InstallAt(start, rs, can, k);
    var mid := Install(start, rs, can).store;
    var ours := SpecsAt(rs, k);
    SuffixSpecs(rs, i, k);
    InstalledOthers(start[k], rs[i..], can[i..], k, ours);
    InstalledFits(start[k], rs[i..], can[i..], k, ours);
    DeletingClearsExactlyWhen(mid[k], rs, k);
    DeleteAllAt(mid, rs, k);
    var cleared := DeleteAll(mid, rs);
    if Fits(start[k], ours) {
      NothingLeft(mid[k], ours);
      CountsAbsent(cleared[k], ours);
      DeletedIsFilter(cleared[k], rs, k);
    }
    DeleteAllAt(cleared, rs, k);
  }

  // ---------------------------------------------------------------- order

  /** The rules of a list that is inserted whole, above what the chain holds. */
  function Topped(c: seq<Spec>, xs: seq<Spec>): seq<Spec> {
    if xs == [] then c
    else
      var d := Topped(c, xs[1..]);
      if xs[0] in d then d else [xs[0]] + d
  }

  /** Of equal rules, only the last. */
  function KeepLast(xs: seq<Spec>): seq<Spec> {
    if xs == [] then []
    else (if xs[0] in xs[1..] then [] else [xs[0]]) + KeepLast(xs[1..])
  }

  lemma {:induction false} KeepLastMembers(xs: seq<Spec>, x: Spec)
    ensures x in KeepLast(xs) <==> x in xs
  {
    if xs != [] {
      KeepLastMembers(xs[1..], x);
    }
  }

  lemma KeepLastFirst(x: Spec, w: seq<Spec>)
    ensures KeepLast([x] + w) == if x in w then KeepLast(w) else [x] + KeepLast(w)
  {
    assert ([x] + w)[1..] == w;
  }

  lemma {:induction false} KeepLastDistinct(b: seq<Spec>)
    requires Distinct(b)
    ensures KeepLast(b) == b
  {
    if b != [] {
      KeepLastDistinct(b[1..]);
    }
  }

  lemma {:induction false} KeepLastJoin(a: seq<Spec>, b: seq<Spec>)
    requires Distinct(b) && forall x :: x in a ==> x !in b
    ensures KeepLast(a + b) == KeepLast(a) + b
  {
    if a == [] {
      assert a + b == b;
      KeepLastDistinct(b);
    } else {
      assert (a + b)[0] == a[0] && (a + b)[1..] == a[1..] + b;
      KeepLastJoin(a[1..], b);
      hide Distinct;
      assert a[0] in a[1..] + b <==> a[0] in a[1..];
      Associates(if a[0] in a[1..] then [] else [a[0]], KeepLast(a[1..]), b);
    }
  }

  /** All rules of the chain are inserted, and none may be left out. */
  ghost predicate AllInserted(rs: seq<Rule>, k: ChainId) {
    forall r :: r in rs && r.at == k ==> r.insert && !r.optional
  }

  lemma OneInstalled(c: seq<Spec>, r: Rule, can: bool, k: ChainId)
    ensures InstalledAt(c, [r], [can], k) ==
            if r.at != k || r.spec in c || !can then c else if r.insert then [r.spec] + c else c + [r.spec]
  {
    assert [r][1..] == [] && [can][1..] == [];
  }

  /** A chain that gets only mandatory inserted rules, when apply succeeds. */
  lemma {:induction false} InstallTops(store: Store, rs: seq<Rule>, can: seq<bool>, k: ChainId)
    requires |can| == |rs| && k in store && AllInserted(rs, k) && Install(store, rs, can).ok
    ensures k in Install(store, rs, can).store
    ensures Install(store, rs, can).store[k] == Topped(store[k], SpecsAt(rs, k))
    decreases |rs|
  {
    if rs != [] {
      InstallTops(store, rs[1..], can[1..], k);
      var rest := Install(store, rs[1..], can[1..]);
      var o := Try(rest.store, rs[0], can[0]);
      TryAt(rest.store, rs[0], can[0], k);
      OneInstalled(rest.store[k], rs[0], can[0], k);
      if rs[0].at == k {
        assert rs[0] in rs;
        assert rs[0].insert && rs[0].spec in o.store[k];
        assert SpecsAt(rs, k)[0] == rs[0].spec && SpecsAt(rs, k)[1..] == SpecsAt(rs[1..], k);
      } else {
        assert SpecsAt(rs, k) == SpecsAt(rs[1..], k);
      }
    }
  }

  /** The missing rules go on top, in list order. */
  lemma {:induction false} ToppedIs(c: seq<Spec>, xs: seq<Spec>)
    ensures Topped(c, xs) == KeepLast(Without(xs, c)) + c
  {
    if xs == [] {
      assert [] + c == c;
    } else {
      ToppedIs(c, xs[1..]);
      var w := Without(xs[1..], c);
      KeepLastMembers(w, xs[0]);
      WithoutMembers(xs[1..], c, xs[0]);
      if xs[0] in c {
        assert Without(xs, c) == w;
      } else {
        assert Without(xs, c) == [xs[0]] + w;
        KeepLastFirst(xs[0], w);
        hide KeepLast, Without;
        Associates([xs[0]], KeepLast(w), c);
      }
    }
  }

  predicate TailFrom(c: seq<Spec>, ys: seq<Spec>, m: nat)
    requires m <= |ys|
  {
    ys[m..] <= c && forall i :: 0 <= i < m ==> ys[i] !in c
  }

  /** Of the rules ys, the last ones are on top of the chain, in order, and the others not in it. */
  ghost predicate TailIsOnTop(c: seq<Spec>, ys: seq<Spec>) {
    exists m :: 0 <= m <= |ys| && TailFrom(c, ys, m)
  }

  lemma {:induction false} WithoutAll(c: seq<Spec>, xs: seq<Spec>)
    requires forall x :: x in c ==> x in xs
    ensures Without(c, xs) == []
  {
    if c != [] {
      WithoutAll(c[1..], xs);
    }
  }

  lemma MissingStart(c: seq<Spec>, xs: seq<Spec>, m: nat)
    requires Distinct(xs) && m <= |xs| && TailFrom(c, xs, m)
    ensures KeepLast(Without(xs, c)) == xs[..m]
  {
    assert xs == xs[..m] + xs[m..];
    WithoutJoin(xs[..m], xs[m..], c);
    WithoutAbsent(xs[..m], c);
    WithoutAll(xs[m..], c);
    KeepLastDistinct(xs[..m]);
    hide *;
    assert Without(xs, c) == xs[..m] + [] == xs[..m];
  }

  lemma TailOnTop(c: seq<Spec>, xs: seq<Spec>, m: nat)
    requires m <= |xs| && xs[m..] <= c
    ensures xs <= xs[..m] + c
  {
  }

  lemma TailThere(c: seq<Spec>, xs: seq<Spec>, m: nat)
    requires Distinct(xs) && m <= |xs| && TailFrom(c, xs, m)
    ensures xs <= Topped(c, xs) == xs[..m] + c
  {
    ToppedIs(c, xs);
    MissingStart(c, xs, m);
    TailOnTop(c, xs, m);
  }

  lemma {:induction false} WithoutShorter(c: seq<Spec>, xs: seq<Spec>)
    ensures |Without(c, xs)| <= |c|
  {
    if c != [] {
      WithoutShorter(c[1..], xs);
    }
  }

  lemma {:induction false} WithoutDistinct(c: seq<Spec>, xs: seq<Spec>)
    requires Distinct(c)
    ensures Distinct(Without(c, xs))
  {
    if c != [] {
      WithoutDistinct(c[1..], xs);
      WithoutMembers(c[1..], xs, c[0]);
    }
  }

  lemma DistinctOrder(c: seq<Spec>, xs: seq<Spec>)
    requires Distinct(xs)
    ensures xs <= Topped(c, xs) <==> TailIsOnTop(c, xs)
  {
    ToppedIs(c, xs);
    WithoutDistinct(xs, c);
    KeepLastDistinct(Without(xs, c));
    var missing := Without(xs, c);
    if xs <= Topped(c, xs) {
      WithoutShorter(xs, c);
      var m := |missing|;
      assert missing == xs[..m];
      assert xs[m..] <= c;
      forall i | 0 <= i < m
        ensures xs[i] !in c
      {
        WithoutMembers(xs, c, missing[i]);
      }
      assert TailFrom(c, xs, m);
    }
    forall m | 0 <= m <= |xs| && TailFrom(c, xs, m)
      ensures xs <= Topped(c, xs)
    {
      TailThere(c, xs, m);
    }
  }

  lemma {:induction false} KeepLastIsDistinct(xs: seq<Spec>)
    ensures Distinct(KeepLast(xs))
  {
    if xs != [] {
      KeepLastIsDistinct(xs[1..]);
      KeepLastMembers(xs[1..], xs[0]);
    }
  }

  lemma WithoutFirst(x: Spec, w: seq<Spec>, c: seq<Spec>)
    ensures Without([x] + w, c) == if x in c then Without(w, c) else [x] + Without(w, c)
  {
    assert ([x] + w)[1..] == w;
  }

  lemma {:induction false} KeepLastWithout(xs: seq<Spec>, c: seq<Spec>)
    ensures KeepLast(Without(xs, c)) == Without(KeepLast(xs), c)
  {
    if xs != [] {
      var x, tail := xs[0], xs[1..];
      KeepLastWithout(tail, c);
      WithoutMembers(tail, c, x);
      assert xs == [x] + tail;
      KeepLastFirst(x, tail);
      WithoutFirst(x, tail, c);
      WithoutFirst(x, KeepLast(tail), c);
      KeepLastFirst(x, Without(tail, c));
      hide *;
    }
  }

  /** Of equal rules in the list, apply adds the last one. */
  lemma ToppedOnce(c: seq<Spec>, xs: seq<Spec>)
    ensures Topped(c, xs) == Topped(c, KeepLast(xs))
  {
    ToppedIs(c, xs);
    ToppedIs(c, KeepLast(xs));
    KeepLastIsDistinct(xs);
    KeepLastWithout(xs, c);
    WithoutDistinct(KeepLast(xs), c);
    KeepLastDistinct(Without(KeepLast(xs), c));
  }

  /** Main result: apply leaves its rules on top of a chain, in list order, exactly when those already
      there are the last of the list, in order, on top of the chain. */
  lemma OrderHoldsExactlyWhen(c: seq<Spec>, xs: seq<Spec>)
    ensures KeepLast(xs) <= Topped(c, xs) <==> TailIsOnTop(c, KeepLast(xs))
  {
    KeepLastIsDistinct(xs);
    ToppedOnce(c, xs);
    DistinctOrder(c, KeepLast(xs));
    hide *;
  }
}
