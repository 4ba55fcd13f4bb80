/** The vpn channel's iptables rules (cmd/server/vpn_setup.go): how they are added and removed. */
module Firewall {
  import opened Base

  // ---------------------------------------------------------------- rules and chains

  datatype Table = Filter | Nat | Mangle

  datatype Chain = INPUT | FORWARD | DOCKER_USER | POSTROUTING | Chain(name: string)

  datatype ChainId = ChainId(table: Table, chain: Chain)

  type Prefix = n: nat | n <= 32

  datatype Net = Net(base: Address, bits: Prefix)

  datatype Match =
    | InIface(name: string)
    | OutIface(name: string)
    | Source(net: Net)
    | Destination(net: Net)
    | TcpPort(port: Port)
    | TcpSyn
    | Reply
    | OtherMatch(text: string)

  datatype Target = DROP | ACCEPT | MASQUERADE | TCPMSS | OtherTarget(text: string)

  datatype Spec = Spec(matches: seq<Match>, target: Target)

  datatype Rule = Rule(at: ChainId, spec: Spec, insert: bool, optional: bool)

  /** The chains that exist, each with its rules from top to bottom. */
  type Store = map<ChainId, seq<Spec>>

  // ---------------------------------------------------------------- commands

  datatype Op = Check | Append | Insert | Delete

  datatype Word =
    | TableFlag
    | TableName(table: Table)
    | OpWord(op: Op)
    | ChainName(chain: Chain)
    | Position(n: nat)
    | SpecWords(spec: Spec)

  datatype Command = Command(at: ChainId, op: Op, spec: Spec)

  /** The command line of a rule: no -t for the filter table, and -I goes to position 1. */
  function Args(r: Rule, op: Op): seq<Word> {
    (if r.at.table == Filter then [] else [TableFlag, TableName(r.at.table)])
    + [OpWord(op), ChainName(r.at.chain)]
    + (if op == Insert then [Position(1)] else [])
    + [SpecWords(r.spec)]
  }

  /** How iptables reads a command line; None for one it does not understand. */
  function Understood(args: seq<Word>): Option<Command> {
    var inTable := |args| >= 2 && args[0] == TableFlag && args[1].TableName?;
    var table := if inTable then args[1].table else Filter;
    var rest := if inTable then args[2..] else args;
    if |rest| >= 3 && rest[0].OpWord? && rest[1].ChainName? then
      var at := ChainId(table, rest[1].chain);
      if rest[0].op == Insert then
        if |rest| == 4 && rest[2] == Position(1) && rest[3].SpecWords? then Some(Command(at, Insert, rest[3].spec))
        else None
      else if |rest| == 3 && rest[2].SpecWords? then Some(Command(at, rest[0].op, rest[2].spec))
      else None
    else None
  }

  /** The arguments say what they are meant to say. */
  lemma ArgsAreUnderstood(r: Rule, op: Op)
    ensures Understood(Args(r, op)) == Some(Command(r.at, op, r.spec))
  {
    var args := Args(r, op);
    if r.at.table != Filter {
      assert args[2..] == Args(r.(at := r.at.(table := Filter)), op);
    }
  }

  /** The chain without the first occurrence of a rule. */
  function Without1(c: seq<Spec>, x: Spec): seq<Spec> {
    if c == [] then []
    else if c[0] == x then c[1..]
    else [c[0]] + Without1(c[1..], x)
  }

  datatype Result = Result(store: Store, ok: bool)

  /** iptables: checking and deleting are faithful; adding may fail for reasons of its own. */
  function Execute(store: Store, cmd: Command, can: bool): Result {
    if cmd.at !in store then Result(store, false)
    else
      var c := store[cmd.at];
      match cmd.op
      case Check => Result(store, cmd.spec in c)
      case Append => if can then Result(store[cmd.at := c + [cmd.spec]], true) else Result(store, false)
      case Insert => if can then Result(store[cmd.at := [cmd.spec] + c], true) else Result(store, false)
      case Delete =>
        if cmd.spec in c then Result(store[cmd.at := Without1(c, cmd.spec)], true) else Result(store, false)
  }

  // ---------------------------------------------------------------- apply and remove

  function Deleted(store: Store, r: Rule): Store {
    Execute(store, Command(r.at, Delete, r.spec), true).store
  }

  /** Deletes the rules, first to last; missing ones are fine. */
  function DeleteAll(store: Store, rs: seq<Rule>): Store
    decreases |rs|
  {
    if rs == [] then store else DeleteAll(Deleted(store, rs[0]), rs[1..])
  }

  /** One round of apply's loop. */
  function Try(store: Store, r: Rule, can: bool): Result {
    if Execute(store, Command(r.at, Check, r.spec), can).ok then Result(store, true)
    else
      var added := Execute(store, Command(r.at, if r.insert then Insert else Append, r.spec), can);
      Result(added.store, added.ok || r.optional)
  }

  /** The loop of apply, from the last rule up; it stops at the first mandatory rule it cannot add. */
  function Install(store: Store, rs: seq<Rule>, can: seq<bool>): Result
    requires |can| == |rs|
    decreases |rs|
  {
    if rs == [] then Result(store, true)
    else
      var rest := Install(store, rs[1..], can[1..]);
      if rest.ok then Try(rest.store, rs[0], can[0]) else rest
  }

  function Applied(store: Store, rs: seq<Rule>, stale: seq<Rule>, can: seq<bool>): Result
    requires |can| == |rs|
  {
    var o := Install(DeleteAll(store, stale), rs, can);
    if o.ok then o else Result(DeleteAll(o.store, rs), false)
  }

  class Iptables {
    var store: Store

    constructor (store: Store)
      ensures this.store == store
    {
      this.store := store;
    }

    method Run(args: seq<Word>, can: bool) returns (ok: bool)
      requires Understood(args).Some?
      modifies this
      ensures Result(store, ok) == Execute(old(store), Understood(args).value, can)
    {
      var r := Execute(store, Understood(args).value, can);
      store := r.store;
      return r.ok;
    }
  }

  lemma InstallStep(store: Store, rs: seq<Rule>, can: seq<bool>, i: nat)
    requires |can| == |rs| && i < |rs| && Install(store, rs[i + 1..], can[i + 1..]).ok
    ensures Install(store, rs[i..], can[i..]) == Try(Install(store, rs[i + 1..], can[i + 1..]).store, rs[i], can[i])
  {
    assert rs[i..][1..] == rs[i + 1..] && can[i..][1..] == can[i + 1..];
  }

  lemma InstallEnds(store: Store, rs: seq<Rule>, can: seq<bool>)
    requires |can| == |rs|
    ensures Install(store, rs[0..], can[0..]) == Install(store, rs, can)
    ensures Install(store, rs[|rs|..], can[|rs|..]) == Result(store, true)
  {
    assert rs[0..] == rs && can[0..] == can;
  }

  /** The loop ends at the first mandatory rule that cannot be added. */
  lemma {:induction false} FailureEnds(store: Store, rs: seq<Rule>, can: seq<bool>, i: nat)
    requires |can| == |rs| && i <= |rs| && !Install(store, rs[i..], can[i..]).ok
    ensures Install(store, rs, can) == Install(store, rs[i..], can[i..])
  {
    if i == 0 {
      assert rs[0..] == rs && can[0..] == can;
    } else {
      assert rs[i - 1..][1..] == rs[i..] && can[i - 1..][1..] == can[i..];
      FailureEnds(store, rs, can, i - 1);
    }
  }

  class VpnFirewall {
    const rules: seq<Rule>
    const stale: seq<Rule>

    constructor (rules: seq<Rule>, stale: seq<Rule>)
      ensures this.rules == rules && this.stale == stale
    {
      this.rules, this.stale := rules, stale;
    }

    /** One round of apply's loop. */
    method TryRule(t: Iptables, r: Rule, can: bool) returns (ok: bool)
      modifies t
      ensures Result(t.store, ok) == Try(old(t.store), r, can)
    {
      ArgsAreUnderstood(r, Check);
      ArgsAreUnderstood(r, Append);
      ArgsAreUnderstood(r, Insert);
      hide Understood, Args;
      ok := t.Run(Args(r, Check), can);
      if !ok {
        ok := t.Run(Args(r, if r.insert then Insert else Append), can);
        ok := ok || r.optional;
      }
    }

    /** Missing rules are fine. */
    method DeleteEach(t: Iptables, rs: seq<Rule>)
      modifies t
      ensures t.store == DeleteAll(old(t.store), rs)
    {
      var i := 0;
      while i < |rs|
        invariant i <= |rs|
        invariant DeleteAll(t.store, rs[i..]) == DeleteAll(old(t.store), rs)
      {
        ArgsAreUnderstood(rs[i], Delete);
        hide Understood, Args;
        assert rs[i..][1..] == rs[i + 1..];
        var ok := t.Run(Args(rs[i], Delete), true);
        i := i + 1;
      }
    }

    /** `can` says for each rule whether iptables would add it. */
    method Apply(t: Iptables, can: seq<bool>) returns (ok: bool)
      requires |can| == |rules|
      modifies t
      ensures Result(t.store, ok) == Applied(old(t.store), rules, stale, can)
    {
      DeleteEach(t, stale);
      ghost var start := t.store;
      var i := |rules| - 1;
      hide Try, DeleteAll, Install;
      InstallEnds(start, rules, can);
      while i >= 0
        invariant -1 <= i < |rules|
        invariant Install(start, rules[i + 1..], can[i + 1..]) == Result(t.store, true)
      {
        InstallStep(start, rules, can, i);
        var added := TryRule(t, rules[i], can[i]);
        if !added {
          FailureEnds(start, rules, can, i);
          DeleteEach(t, rules);
          return false;
        }
        i := i - 1;
      }
      return true;
    }

    method Remove(t: Iptables)
      modifies t
      ensures t.store == DeleteAll(old(t.store), rules)
    {
      DeleteEach(t, rules);
    }
  }

  // ---------------------------------------------------------------- one chain

  /** apply's loop as one chain sees it. */
  function InstalledAt(c: seq<Spec>, rs: seq<Rule>, can: seq<bool>, k: ChainId): seq<Spec>
    requires |can| == |rs|
    decreases |rs|
  {
    if rs == [] then c
    else
      var d := InstalledAt(c, rs[1..], can[1..], k);
      if rs[0].at != k || rs[0].spec in d || !can[0] then d
      else if rs[0].insert then [rs[0].spec] + d
      else d + [rs[0].spec]
  }

  /** Deleting as one chain sees it. */
  function DeletedAt(c: seq<Spec>, rs: seq<Rule>, k: ChainId): seq<Spec>
    decreases |rs|
  {
    if rs == [] then c
    else DeletedAt(if rs[0].at == k then Without1(c, rs[0].spec) else c, rs[1..], k)
  }

  lemma {:induction false} AbsentStays(c: seq<Spec>, x: Spec)
    requires x !in c
    ensures Without1(c, x) == c
  {
    if c != [] {
      AbsentStays(c[1..], x);
    }
  }

  lemma {:induction false} DeleteAllAt(store: Store, rs: seq<Rule>, k: ChainId)
    requires k in store
    ensures DeleteAll(store, rs).Keys == store.Keys && DeleteAll(store, rs)[k] == DeletedAt(store[k], rs, k)
    decreases |rs|
  {
    if rs != [] {
      if k == rs[0].at && rs[0].spec !in store[k] {
        AbsentStays(store[k], rs[0].spec);
      }
      DeleteAllAt(Deleted(store, rs[0]), rs[1..], k);
    }
  }

  /** A rule of a chain that exists is added or reported. */
  lemma TryAt(store: Store, r: Rule, can: bool, k: ChainId)
    requires k in store
    ensures var o := Try(store, r, can);
            && o.store.Keys == store.Keys
            && o.store[k] == InstalledAt(store[k], [r], [can], k)
            && (o.ok && r.at == k && !r.optional ==> r.spec in o.store[k])
  {
    assert [r][1..] == [] && [can][1..] == [];
  }

  lemma OneMore(c: seq<Spec>, rs: seq<Rule>, can: seq<bool>, k: ChainId)
    requires |can| == |rs| > 0
    ensures InstalledAt(c, rs, can, k) == InstalledAt(InstalledAt(c, rs[1..], can[1..], k), [rs[0]], [can[0]], k)
  {
    assert [rs[0]][1..] == [] && [can[0]][1..] == [];
  }

  /** What apply's loop leaves in a chain: all rules went through, or those after the failed one. */
  lemma {:induction false} InstallAt(store: Store, rs: seq<Rule>, can: seq<bool>, k: ChainId) returns (i: nat)
    requires |can| == |rs| && k in store
    ensures i <= |rs| && (Install(store, rs, can).ok ==> i == 0)
    ensures Install(store, rs, can).store.Keys == store.Keys
    ensures Install(store, rs, can).store[k] == InstalledAt(store[k], rs[i..], can[i..], k)
    decreases |rs|
  {
    i := 0;
    if rs != [] {
      i := InstallAt(store, rs[1..], can[1..], k);
      var rest := Install(store, rs[1..], can[1..]);
      assert rs[1..][i..] == rs[i + 1..] && can[1..][i..] == can[i + 1..];
      if rest.ok {
        TryAt(rest.store, rs[0], can[0], k);
        assert rs[1..][0..] == rs[1..] && can[1..][0..] == can[1..];
        OneMore(store[k], rs, can, k);
        i := 0;
        assert rs[0..] == rs && can[0..] == can;
      } else {
        i := i + 1;
      }
    } else {
      assert rs[0..] == rs && can[0..] == can;
    }
  }
}
