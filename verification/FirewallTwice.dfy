/** What a second apply of the same rule list changes (cmd/server/vpn_setup.go). */
module FirewallTwice {
  import opened Firewall
  import opened FirewallChains

  predicate Present(store: Store, r: Rule) {
    r.at in store && r.spec in store[r.at]
  }

  /** Every rule of the list is in its chain, but for optional ones that cannot be added. */
  ghost predicate Settled(store: Store, rs: seq<Rule>, can: seq<bool>)
    requires |can| == |rs|
  {
    forall i :: 0 <= i < |rs| ==>
      Present(store, rs[i]) || (rs[i].optional && !(can[i] && rs[i].at in store))
  }

  /** No rule of the list is in its chain. */
  ghost predicate NonePresent(store: Store, rs: seq<Rule>) {
    forall r :: r in rs && r.at in store ==> r.spec !in store[r.at]
  }

  lemma {:induction false} NothingToInstall(store: Store, rs: seq<Rule>, can: seq<bool>)
    requires |can| == |rs| && Settled(store, rs, can)
    ensures Install(store, rs, can) == Result(store, true)
    decreases |rs|
  {
    if rs != [] {
      assert Settled(store, rs[1..], can[1..]) by {
        forall i | 0 <= i < |rs[1..]|
          ensures Present(store, rs[1..][i]) || (rs[1..][i].optional && !(can[1..][i] && rs[1..][i].at in store))
        {
          assert rs[1..][i] == rs[i + 1] && can[1..][i] == can[i + 1];
        }
      }
      NothingToInstall(store, rs[1..], can[1..]);
      assert Present(store, rs[0]) || (rs[0].optional && !(can[0] && rs[0].at in store));
    }
  }

  lemma {:induction false} NothingToDelete(store: Store, rs: seq<Rule>)
    requires NonePresent(store, rs)
    ensures DeleteAll(store, rs) == store
    decreases |rs|
  {
    if rs != [] {
      assert rs[0] in rs;
      assert Deleted(store, rs[0]) == store;
      NothingToDelete(store, rs[1..]);
    }
  }

  lemma {:induction false} InstalledCounts(c: seq<Spec>, rs: seq<Rule>, can: seq<bool>, k: ChainId, x: Spec)
    requires |can| == |rs| && x !in SpecsAt(rs, k)
    ensures multiset(InstalledAt(c, rs, can, k))[x] == multiset(c)[x]
    decreases |rs|
  {
    if rs != [] {
      InstalledCounts(c, rs[1..], can[1..], k, x);
    }
  }

  /** What becomes of a stale rule that is not one of ours. */
  lemma StaleCount(store: Store, rs: seq<Rule>, stale: seq<Rule>, can: seq<bool>, k: ChainId, x: Spec)
    requires |can| == |rs| && k in store && x !in SpecsAt(rs, k) && Applied(store, rs, stale, can).ok
    ensures k in Applied(store, rs, stale, can).store
    ensures multiset(Applied(store, rs, stale, can).store[k])[x] ==
            (multiset(store[k]) - multiset(SpecsAt(stale, k)))[x]
  {
    var start := DeleteAll(store, stale);
    DeleteAllAt(store, stale, k);
    DeletedCounts(store[k], stale, k);
    var i := InstallAt(start, rs, can, k);
    assert rs[0..] == rs && can[0..] == can;
    InstalledCounts(start[k], rs, can, k, x);
  }

  lemma {:induction false} InstalledPresent(c: seq<Spec>, rs: seq<Rule>, can: seq<bool>, i: nat)
    requires |can| == |rs| && i < |rs| && can[i]
    ensures rs[i].spec in InstalledAt(c, rs, can, rs[i].at)
    decreases |rs|
  {
    if i > 0 {
      InstalledPresent(c, rs[1..], can[1..], i - 1);
    }
  }

  /** After a success every mandatory rule is in its chain. */
  lemma {:induction false} MandatoryPresent(store: Store, rs: seq<Rule>, can: seq<bool>, i: nat)
    requires |can| == |rs| && i < |rs| && !rs[i].optional && Install(store, rs, can).ok
    ensures Present(Install(store, rs, can).store, rs[i])
    decreases |rs|
  {
    var rest := Install(store, rs[1..], can[1..]);
    if i > 0 {
      MandatoryPresent(store, rs[1..], can[1..], i - 1);
      TryAt(rest.store, rs[0], can[0], rs[i].at);
      OneInstalled(rest.store[rs[i].at], rs[0], can[0], rs[i].at);
    }
  }

  /** When an optional rule is missing and can be added, apply changes the store. */
  lemma UnsettledChanges(store: Store, rs: seq<Rule>, can: seq<bool>, i: nat)
    requires |can| == |rs| && i < |rs| && can[i] && rs[i].at in store && !Present(store, rs[i])
    ensures Install(store, rs, can) != Result(store, true)
  {
    if Install(store, rs, can).ok {
      var k := InstallAt(store, rs, can, rs[i].at);
      assert rs[0..] == rs && can[0..] == can;
      InstalledPresent(store[rs[i].at], rs, can, i);
    }
  }

  predicate UnchangedBy(store: Store, rs: seq<Rule>, stale: seq<Rule>, can: seq<bool>)
    requires |can| == |rs|
  {
    Applied(store, rs, stale, can) == Result(store, true)
  }

  /** Apply changes nothing exactly when no stale rule is there and nothing is left to add. */
  lemma NothingToDo(store: Store, rs: seq<Rule>, stale: seq<Rule>, can: seq<bool>)
    requires |can| == |rs|
    requires forall i :: 0 <= i < |rs| && !rs[i].optional ==> Present(store, rs[i])
    requires forall k, x :: x in SpecsAt(stale, k) ==> x !in SpecsAt(rs, k)
    ensures UnchangedBy(store, rs, stale, can) <==> NonePresent(store, stale) && Settled(store, rs, can)
  {
    if NonePresent(store, stale) {
      NothingToDelete(store, stale);
      if Settled(store, rs, can) {
        NothingToInstall(store, rs, can);
      } else {
        var i :| 0 <= i < |rs| && !(Present(store, rs[i]) || (rs[i].optional && !(can[i] && rs[i].at in store)));
        UnsettledChanges(store, rs, can, i);
      }
    } else if UnchangedBy(store, rs, stale, can) {
      var r :| r in stale && r.at in store && r.spec in store[r.at];
      ListedAt(stale, r.at, r.spec);
      StaleCount(store, rs, stale, can, r.at, r.spec);
      assert false;
    }
  }

  /** The start holds no stale rule more often than the list deletes it. */
  ghost predicate StaleListed(store: Store, stale: seq<Rule>) {
    forall r :: r in stale && r.at in store ==>
      multiset(store[r.at])[r.spec] <= multiset(SpecsAt(stale, r.at))[r.spec]
  }

  lemma {:induction false} DeleteKeys(store: Store, rs: seq<Rule>)
    ensures DeleteAll(store, rs).Keys == store.Keys
    decreases |rs|
  {
    if rs != [] {
      DeleteKeys(Deleted(store, rs[0]), rs[1..]);
      assert Deleted(store, rs[0]).Keys == store.Keys;
    }
  }

  lemma {:induction false} InstallKeys(store: Store, rs: seq<Rule>, can: seq<bool>)
    requires |can| == |rs|
    ensures Install(store, rs, can).store.Keys == store.Keys
    decreases |rs|
  {
    if rs != [] {
      InstallKeys(store, rs[1..], can[1..]);
      var rest := Install(store, rs[1..], can[1..]).store;
      assert Try(rest, rs[0], can[0]).store.Keys == rest.Keys;
    }
  }

  lemma SameChains(store: Store, rs: seq<Rule>, stale: seq<Rule>, can: seq<bool>, k: ChainId)
    requires |can| == |rs|
    ensures k in Applied(store, rs, stale, can).store <==> k in store
  {
    DeleteKeys(store, stale);
    InstallKeys(DeleteAll(store, stale), rs, can);
    DeleteKeys(Install(DeleteAll(store, stale), rs, can).store, rs);
  }

  lemma StaleGone(store: Store, rs: seq<Rule>, stale: seq<Rule>, can: seq<bool>)
    requires |can| == |rs| && Applied(store, rs, stale, can).ok
    requires forall k, x :: x in SpecsAt(stale, k) ==> x !in SpecsAt(rs, k)
    ensures NonePresent(Applied(store, rs, stale, can).store, stale) <==> StaleListed(store, stale)
  {
    var u := Applied(store, rs, stale, can).store;
    forall r | r in stale
      ensures r.at in u <==> r.at in store
      ensures r.at in store ==>
                (r.spec !in u[r.at] <==> multiset(store[r.at])[r.spec] <= multiset(SpecsAt(stale, r.at))[r.spec])
    {
      SameChains(store, rs, stale, can, r.at);
      if r.at in store {
        ListedAt(stale, r.at, r.spec);
        StaleCount(store, rs, stale, can, r.at, r.spec);
      }
    }
    hide Applied, SpecsAt;
  }

  /** Main result: after a success, a second apply changes nothing exactly when no stale rule occurred
      more often than the list deletes it, and no optional rule that was refused can be added now. */
  lemma SecondApplyChangesNothingExactlyWhen(
    store: Store, rs: seq<Rule>, stale: seq<Rule>, can: seq<bool>, again: seq<bool>)
    requires |can| == |again| == |rs| && Applied(store, rs, stale, can).ok
    requires forall k, x :: x in SpecsAt(stale, k) ==> x !in SpecsAt(rs, k)
    ensures UnchangedBy(Applied(store, rs, stale, can).store, rs, stale, again)
       <==> StaleListed(store, stale) && Settled(Applied(store, rs, stale, can).store, rs, again)
  {
    var u := Applied(store, rs, stale, can).store;
    forall i | 0 <= i < |rs| && !rs[i].optional
      ensures Present(u, rs[i])
    {
      MandatoryPresent(DeleteAll(store, stale), rs, can, i);
    }
    NothingToDo(u, rs, stale, again);
    StaleGone(store, rs, stale, can);
    hide *;
  }
}
