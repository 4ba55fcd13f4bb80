/** The client's glue flow IDs (cmd/client/flows.go). */
module FlowTable {
  import opened Base

  const ID_SPACE: nat := 0x1_0000

  type FlowId = n: nat | n < 0x1_0000

  datatype FlowInfo = FlowInfo(origSrc: Address, origDst: Address, origSrcPort: Port, origDstPort: Port)

  datatype FlowKey = FlowKey(srcPort: Port, dst: Address, dstPort: Port)

  function FlowKeyOf(fi: FlowInfo): FlowKey {
    FlowKey(fi.origSrcPort, fi.origDst, fi.origDstPort)
  }

  datatype FlowEntry = FlowEntry(info: FlowInfo, lastSeen: int)

  /** The table as a value. */
  datatype Table = Table(
    ids: map<FlowKey, FlowId>,
    flows: map<FlowId, FlowEntry>,
    next: FlowId,
    dsts: map<Address, int>)

  const EMPTY_TABLE := Table(map[], map[], 0, map[])

  // ---------------------------------------------------------------- operations

  /** The id i steps after next, in the wrapping uint16 order. */
  function Ahead(next: FlowId, i: nat): FlowId {
    (next + i) % ID_SPACE
  }

  /** The first free id after next, at most n steps away. */
  function FirstFree(used: set<FlowId>, next: FlowId, n: nat): Option<FlowId>
    decreases n
  {
    if n == 0 then None
    else if Ahead(next, 1) !in used then Some(Ahead(next, 1))
    else FirstFree(used, Ahead(next, 1), n - 1)
  }

  function Count(dsts: map<Address, int>, dst: Address): int {
    if dst in dsts then dsts[dst] else 0
  }

  function Add(t: Table, id: FlowId, fi: FlowInfo, now: int): Table {
    Table(t.ids[FlowKeyOf(fi) := id],
          t.flows[id := FlowEntry(fi, now)],
          id,
          t.dsts[fi.origDst := Count(t.dsts, fi.origDst) + 1])
  }

  datatype Given = Given(t: Table, id: Option<FlowId>)

  /** id(): the flow's ID, a new one if it has none. */
  function GiveId(t: Table, fi: FlowInfo, now: int): Given
    requires FlowKeyOf(fi) in t.ids ==> t.ids[FlowKeyOf(fi)] in t.flows
  {
    var key := FlowKeyOf(fi);
    if key in t.ids then
      var id := t.ids[key];
      Given(t.(flows := t.flows[id := t.flows[id].(lastSeen := now)]), Some(id))
    else
      match FirstFree(t.flows.Keys, t.next, ID_SPACE)
      case None => Given(t, None)
      case Some(id) => Given(Add(t, id, fi, now), Some(id))
  }

  /** lookup(): a reply counts as activity. */
  function Touch(t: Table, id: FlowId, now: int): Table {
    if id in t.flows then t.(flows := t.flows[id := t.flows[id].(lastSeen := now)]) else t
  }

  function RemoveDst(dsts: map<Address, int>, dst: Address): map<Address, int> {
    if Count(dsts, dst) == 1 then dsts - {dst} else dsts[dst := Count(dsts, dst) - 1]
  }

  function Remove(t: Table, id: FlowId): Table
    requires id in t.flows
  {
    var info := t.flows[id].info;
    t.(flows := t.flows - {id}, ids := t.ids - {FlowKeyOf(info)}, dsts := RemoveDst(t.dsts, info.origDst))
  }

  function IdleIds(t: Table, now: int, idle: int): set<FlowId> {
    set id | id in t.flows && now - t.flows[id].lastSeen > idle
  }

  /** The IDs of the flows to a destination. */
  function IdsTo(t: Table, dst: Address): set<FlowId> {
    set id | id in t.flows && t.flows[id].info.origDst == dst
  }

  /** The table without a set of IDs. */
  function RemoveAll(t: Table, gone: set<FlowId>): Table {
    Table(map key | key in t.ids && t.ids[key] !in gone :: t.ids[key],
          t.flows - gone,
          t.next,
          map dst | dst in t.dsts && |IdsTo(t, dst) - gone| > 0 :: |IdsTo(t, dst) - gone|)
  }

  /** sweep(): removes the flows idle for longer than `idle`. */
  function Sweep(t: Table, now: int, idle: int): Table {
    RemoveAll(t, IdleIds(t, now, idle))
  }

  function HasDst(t: Table, dst: Address): bool {
    Count(t.dsts, dst) > 0
  }

  // ---------------------------------------------------------------- invariant

  /** ids and flows are inverse to each other, and dsts counts the flows of each destination. */
  ghost predicate Valid(t: Table) {
    && (forall key :: key in t.ids ==> t.ids[key] in t.flows && FlowKeyOf(t.flows[t.ids[key]].info) == key)
    && (forall id :: id in t.flows ==>
          FlowKeyOf(t.flows[id].info) in t.ids && t.ids[FlowKeyOf(t.flows[id].info)] == id)
    && (forall dst :: Count(t.dsts, dst) == |IdsTo(t, dst)|)
    && (forall dst :: dst in t.dsts ==> t.dsts[dst] > 0)
  }

  lemma EmptyIsValid()
    ensures Valid(EMPTY_TABLE)
  {
    assert forall dst :: IdsTo(EMPTY_TABLE, dst) == {};
  }

  lemma SameFlowsCount(t: Table, u: Table)
    requires u.flows.Keys == t.flows.Keys
    requires forall id :: id in t.flows ==> u.flows[id].info == t.flows[id].info
    ensures forall dst :: IdsTo(u, dst) == IdsTo(t, dst)
  {
  }

  lemma TouchKeeps(t: Table, id: FlowId, now: int)
    requires Valid(t)
    ensures Valid(Touch(t, id, now))
  {
    SameFlowsCount(t, Touch(t, id, now));
  }

  lemma AddCounts(t: Table, id: FlowId, fi: FlowInfo, now: int, dst: Address)
    requires id !in t.flows && Count(t.dsts, dst) == |IdsTo(t, dst)|
    ensures Count(Add(t, id, fi, now).dsts, dst) == |IdsTo(Add(t, id, fi, now), dst)|
  {
    assert IdsTo(Add(t, id, fi, now), dst) == IdsTo(t, dst) + if dst == fi.origDst then {id} else {};
  }

  lemma AddKeeps(t: Table, id: FlowId, fi: FlowInfo, now: int)
    requires Valid(t) && id !in t.flows && FlowKeyOf(fi) !in t.ids
    ensures Valid(Add(t, id, fi, now))
  {
    forall dst
      ensures Count(Add(t, id, fi, now).dsts, dst) == |IdsTo(Add(t, id, fi, now), dst)|
    {
      AddCounts(t, id, fi, now, dst);
    }
    hide IdsTo;
  }

  // ---------------------------------------------------------------- the wrapping scan

  lemma ModAdds(n: int, d: int)
    ensures (n % ID_SPACE + d) % ID_SPACE == (n + d) % ID_SPACE
  {
  }

  lemma AheadAgain(next: FlowId, i: nat)
    ensures Ahead(Ahead(next, 1), i) == Ahead(next, i + 1)
    ensures (Ahead(next, i) + 1) % ID_SPACE == Ahead(next, i + 1) == Ahead(Ahead(next, i), 1)
  {
    ModAdds(next + 1, i);
    ModAdds(next + i, 1);
  }

  /** The scan returns the nearest free id ahead; it fails only when all of the n ids ahead are used. */
  lemma {:induction false} ScanFindsFree(used: set<FlowId>, next: FlowId, n: nat) returns (i: nat)
    decreases n
    ensures match FirstFree(used, next, n)
            case Some(id) => id !in used && 1 <= i <= n && id == Ahead(next, i)
            case None => i == n + 1
    ensures forall j :: 1 <= j < i ==> Ahead(next, j) in used
  {
    i := 1;
    if n > 0 && Ahead(next, 1) in used {
      var m := Ahead(next, 1);
      var k := ScanFindsFree(used, m, n - 1);
      i := k + 1;
      forall j | 1 <= j < i
        ensures Ahead(next, j) in used
      {
        if j > 1 {
          AheadAgain(next, j - 1);
          assert Ahead(m, j - 1) in used;
        }
      }
      AheadAgain(next, k);
    }
  }

  lemma RoundTrip(next: FlowId)
    ensures Ahead(next, 0) == next == Ahead(next, ID_SPACE)
  {
  }

  lemma FirstFreeStep(used: set<FlowId>, next: FlowId, n: nat)
    ensures FirstFree(used, next, n) ==
            if n == 0 then None
            else if Ahead(next, 1) !in used then Some(Ahead(next, 1))
            else FirstFree(used, Ahead(next, 1), n - 1)
  {
  }

  /** Every id lies ahead within one round. */
  lemma AllAreAhead(next: FlowId, id: FlowId) returns (i: nat)
    ensures 1 <= i <= ID_SPACE && Ahead(next, i) == id
  {
    i := if id > next then id - next else id + ID_SPACE - next;
  }

  ghost predicate IsFirst(t: Table, i: nat) {
    1 <= i && forall j :: 1 <= j < i ==> Ahead(t.next, j) in t.flows
  }

  /** The first free ID after next, in the wrapping order. */
  ghost predicate IsNextFree(t: Table, id: FlowId) {
    id !in t.flows && exists i: nat :: id == Ahead(t.next, i) && IsFirst(t, i)
  }

  /** Giving an ID changes the entry of that ID only: a known flow was active now, a new one is as it was
      asked for. */
  ghost predicate GivesOnly(t: Table, fi: FlowInfo, now: int, g: Given) {
    match g.id
    case None => g.t == t
    case Some(id) =>
      && g.t.flows.Keys == t.flows.Keys + {id} && g.t.ids.Keys == t.ids.Keys + {FlowKeyOf(fi)}
      && g.t.flows[id].lastSeen == now
      && (id in t.flows ==>
            FlowKeyOf(fi) in t.ids && t.ids[FlowKeyOf(fi)] == id && g.t.flows[id].info == t.flows[id].info)
      && (id !in t.flows ==> FlowKeyOf(fi) !in t.ids && g.t.flows[id].info == fi)
      && forall other :: other in t.flows && other != id ==> g.t.flows[other] == t.flows[other]
  }

  lemma GiveIdKeeps(t: Table, fi: FlowInfo, now: int)
    requires Valid(t)
    ensures Valid(GiveId(t, fi, now).t)
  {
    var key := FlowKeyOf(fi);
    if key in t.ids {
      TouchKeeps(t, t.ids[key], now);
    } else {
      var k := ScanFindsFree(t.flows.Keys, t.next, ID_SPACE);
      var free := FirstFree(t.flows.Keys, t.next, ID_SPACE);
      if free.Some? {
        AddKeeps(t, free.value, fi, now);
      }
    }
    hide Valid, Add, FirstFree;
  }

  lemma GivesOnlyThat(t: Table, fi: FlowInfo, now: int)
    requires Valid(t)
    ensures GivesOnly(t, fi, now, GiveId(t, fi, now))
    ensures forall key :: key in t.ids ==>
              key in GiveId(t, fi, now).t.ids && GiveId(t, fi, now).t.ids[key] == t.ids[key]
  {
    if FlowKeyOf(fi) !in t.ids {
      var k := ScanFindsFree(t.flows.Keys, t.next, ID_SPACE);
    }
    hide FirstFree;
  }

  lemma RefusedWhenFull(t: Table)
    ensures FirstFree(t.flows.Keys, t.next, ID_SPACE) == None <==> forall id: FlowId :: id in t.flows
    ensures FirstFree(t.flows.Keys, t.next, ID_SPACE).Some? ==>
              IsNextFree(t, FirstFree(t.flows.Keys, t.next, ID_SPACE).value)
  {
    var k := ScanFindsFree(t.flows.Keys, t.next, ID_SPACE);
    if FirstFree(t.flows.Keys, t.next, ID_SPACE) == None {
      forall id: FlowId
        ensures id in t.flows
      {
        var i := AllAreAhead(t.next, id);
      }
    } else {
      assert IsFirst(t, k);
    }
  }

  /** Main result: a flow is refused exactly when all 65536 IDs are in use; a new flow gets the next
      free ID, and no other flow changes its ID. */
  lemma IdsAreGivenFairly(t: Table, fi: FlowInfo, now: int)
    requires Valid(t)
    ensures var g := GiveId(t, fi, now);
            && Valid(g.t)
            && (g.id == None <==> FlowKeyOf(fi) !in t.ids && forall id: FlowId :: id in t.flows)
            && (g.id.Some? ==> FlowKeyOf(fi) in g.t.ids && g.t.ids[FlowKeyOf(fi)] == g.id.value)
            && (FlowKeyOf(fi) !in t.ids && g.id.Some? ==> IsNextFree(t, g.id.value) && g.t.next == g.id.value)
            && (forall key :: key in t.ids ==> key in g.t.ids && g.t.ids[key] == t.ids[key])
    ensures GivesOnly(t, fi, now, GiveId(t, fi, now))
  {
    GiveIdKeeps(t, fi, now);
    GivesOnlyThat(t, fi, now);
    RefusedWhenFull(t);
    hide Valid, GivesOnly, FirstFree, IsNextFree;
  }

  /** Main result: hasDst is true exactly when some flow goes to the destination. */
  lemma HasDstIsExact(t: Table, dst: Address)
    requires Valid(t)
    ensures HasDst(t, dst) <==> exists id :: id in t.flows && t.flows[id].info.origDst == dst
  {
    assert Count(t.dsts, dst) == |IdsTo(t, dst)|;
    if IdsTo(t, dst) != {} {
      var id :| id in IdsTo(t, dst);
    }
    if id :| id in t.flows && t.flows[id].info.origDst == dst {
      assert id in IdsTo(t, dst);
    }
  }

  // ---------------------------------------------------------------- sweeping

  lemma RemoveAllCounts(t: Table, gone: set<FlowId>, dst: Address)
    requires Valid(t)
    ensures IdsTo(RemoveAll(t, gone), dst) == IdsTo(t, dst) - gone
    ensures Count(RemoveAll(t, gone).dsts, dst) == |IdsTo(t, dst) - gone|
  {
    assert Count(t.dsts, dst) == |IdsTo(t, dst)|;
    if dst !in t.dsts {
      assert IdsTo(t, dst) == {};
    }
  }

  lemma SameCounts(a: map<Address, int>, b: map<Address, int>)
    requires forall dst :: Count(a, dst) == Count(b, dst)
    requires forall dst :: dst in a ==> a[dst] > 0
    requires forall dst :: dst in b ==> b[dst] > 0
    ensures a == b
  {
    forall dst
      ensures dst in a <==> dst in b
    {
      assert Count(a, dst) == Count(b, dst);
    }
    forall dst | dst in a
      ensures a[dst] == b[dst]
    {
      assert Count(a, dst) == Count(b, dst);
    }
  }

  lemma RemoveNoneDsts(t: Table)
    requires Valid(t)
    ensures RemoveAll(t, {}).dsts == t.dsts
  {
    var u := RemoveAll(t, {});
    forall dst
      ensures Count(u.dsts, dst) == Count(t.dsts, dst)
    {
      RemoveAllCounts(t, {}, dst);
      assert IdsTo(t, dst) - {} == IdsTo(t, dst);
    }
    SameCounts(u.dsts, t.dsts);
  }

  lemma RemoveNone(t: Table)
    requires Valid(t)
    ensures RemoveAll(t, {}) == t
  {
    hide Valid, IdsTo;
    RemoveNoneDsts(t);
    assert RemoveAll(t, {}).flows == t.flows;
    assert RemoveAll(t, {}).ids == t.ids;
  }

  lemma RemoveAllKeeps(t: Table, gone: set<FlowId>)
    requires Valid(t)
    ensures Valid(RemoveAll(t, gone))
  {
    forall dst
      ensures Count(RemoveAll(t, gone).dsts, dst) == |IdsTo(RemoveAll(t, gone), dst)|
    {
      RemoveAllCounts(t, gone, dst);
    }
    hide IdsTo;
  }

  lemma RemoveOneMoreFlow(t: Table, gone: set<FlowId>, id: FlowId)
    requires Valid(t) && id in t.flows && id !in gone
    ensures id in RemoveAll(t, gone).flows && RemoveAll(t, gone).flows[id] == t.flows[id]
    ensures Remove(RemoveAll(t, gone), id).flows == RemoveAll(t, gone + {id}).flows
  {
    hide IdsTo, Valid;
    assert t.flows - gone - {id} == t.flows - (gone + {id});
  }

  lemma SameKeys(ids: map<FlowKey, FlowId>, gone: set<FlowId>, id: FlowId, own: FlowKey)
    requires forall key :: key in ids ==> (ids[key] == id <==> key == own)
    ensures (map key | key in ids && ids[key] !in gone :: ids[key]) - {own}
         == map key | key in ids && ids[key] !in gone + {id} :: ids[key]
  {
  }

  lemma RemoveOneMoreKey(t: Table, gone: set<FlowId>, id: FlowId)
    requires Valid(t) && id in t.flows && id !in gone
    requires id in RemoveAll(t, gone).flows && RemoveAll(t, gone).flows[id] == t.flows[id]
    ensures Remove(RemoveAll(t, gone), id).ids == RemoveAll(t, gone + {id}).ids
  {
    var own := FlowKeyOf(t.flows[id].info);
    assert forall key :: key in t.ids ==> (t.ids[key] == id <==> key == own);
    hide IdsTo, Valid, FlowKeyOf;
    SameKeys(t.ids, gone, id, own);
  }

  lemma RemoveDstCount(dsts: map<Address, int>, gone: Address, dst: Address)
    ensures Count(RemoveDst(dsts, gone), dst) == Count(dsts, dst) - if dst == gone then 1 else 0
  {
  }

  lemma OneElementLess<T>(a: set<T>, x: T)
    ensures |a - {x}| == |a| - if x in a then 1 else 0
  {
    if x !in a {
      assert a - {x} == a;
    }
  }

  lemma RemovedCount(t: Table, gone: set<FlowId>, id: FlowId, dst: Address)
    requires Valid(t) && id in t.flows && id !in gone
    ensures id in RemoveAll(t, gone).flows
    ensures Count(Remove(RemoveAll(t, gone), id).dsts, dst) == |(IdsTo(t, dst) - gone) - {id}|
  {
    var left := IdsTo(t, dst) - gone;
    assert id in left <==> t.flows[id].info.origDst == dst;
    RemoveAllCounts(t, gone, dst);
    OneElementLess(left, id);
    RemoveDstCount(RemoveAll(t, gone).dsts, t.flows[id].info.origDst, dst);
    hide Valid, IdsTo, Count, RemoveDst;
  }

  lemma RemoveOneMoreDst(t: Table, gone: set<FlowId>, id: FlowId, dst: Address)
    requires Valid(t) && id in t.flows && id !in gone
    ensures id in RemoveAll(t, gone).flows
    ensures Count(Remove(RemoveAll(t, gone), id).dsts, dst) == Count(RemoveAll(t, gone + {id}).dsts, dst)
  {
    RemoveAllCounts(t, gone + {id}, dst);
    assert IdsTo(t, dst) - (gone + {id}) == (IdsTo(t, dst) - gone) - {id};
    RemovedCount(t, gone, id, dst);
  }

  lemma RemoveKeepsPositive(dsts: map<Address, int>, dst: Address)
    requires Count(dsts, dst) > 0 && forall d :: d in dsts ==> dsts[d] > 0
    ensures forall d :: d in RemoveDst(dsts, dst) ==> RemoveDst(dsts, dst)[d] > 0
  {
  }

  /** The loop of sweep removes the IDs one by one. */
  lemma RemoveOneMore(t: Table, gone: set<FlowId>, id: FlowId)
    requires Valid(t) && id in t.flows && id !in gone
    ensures id in RemoveAll(t, gone).flows && RemoveAll(t, gone).flows[id] == t.flows[id]
    ensures Remove(RemoveAll(t, gone), id) == RemoveAll(t, gone + {id})
  {
    var u, v := RemoveAll(t, gone), RemoveAll(t, gone + {id});
    RemoveOneMoreFlow(t, gone, id);
    RemoveOneMoreKey(t, gone, id);
    var w := Remove(u, id);
    var dst := t.flows[id].info.origDst;
    RemoveAllCounts(t, gone, dst);
    assert id in IdsTo(t, dst) - gone;
    RemoveKeepsPositive(u.dsts, dst);
    forall dst
      ensures Count(w.dsts, dst) == Count(v.dsts, dst)
    {
      RemoveOneMoreDst(t, gone, id, dst);
    }
    SameCounts(w.dsts, v.dsts);
    hide Valid, IdsTo;
  }

  /** The IDs that sweep has removed when `rest` is still to visit. */
  function Swept(t: Table, now: int, idle: int, rest: set<FlowId>): set<FlowId> {
    IdleIds(t, now, idle) - rest
  }

  lemma SweepStarts(t: Table, now: int, idle: int)
    ensures Swept(t, now, idle, t.flows.Keys) == {}
    ensures Swept(t, now, idle, {}) == IdleIds(t, now, idle)
  {
  }

  lemma SweepKeeps(t: Table, now: int, idle: int)
    requires Valid(t)
    ensures Valid(Sweep(t, now, idle))
  {
    hide Valid, RemoveAll;
    RemoveAllKeeps(t, IdleIds(t, now, idle));
  }

  lemma IdleOrNot(t: Table, now: int, idle: int, rest: set<FlowId>, id: FlowId)
    requires id in t.flows && id in rest
    ensures id !in Swept(t, now, idle, rest)
    ensures if now - t.flows[id].lastSeen > idle
            then Swept(t, now, idle, rest - {id}) == Swept(t, now, idle, rest) + {id}
            else Swept(t, now, idle, rest - {id}) == Swept(t, now, idle, rest)
  {
  }

  lemma SweepStep(t: Table, now: int, idle: int, rest: set<FlowId>, id: FlowId)
    requires Valid(t) && id in t.flows && id in rest
    ensures id in RemoveAll(t, Swept(t, now, idle, rest)).flows
    ensures RemoveAll(t, Swept(t, now, idle, rest)).flows[id] == t.flows[id]
    ensures if now - t.flows[id].lastSeen > idle
            then Remove(RemoveAll(t, Swept(t, now, idle, rest)), id) == RemoveAll(t, Swept(t, now, idle, rest - {id}))
                 && |Swept(t, now, idle, rest - {id})| == |Swept(t, now, idle, rest)| + 1
            else Swept(t, now, idle, rest - {id}) == Swept(t, now, idle, rest)
  {
    hide *;
    IdleOrNot(t, now, idle, rest, id);
    RemoveOneMore(t, Swept(t, now, idle, rest), id);
  }

  // ---------------------------------------------------------------- the object

  class FlowIds {
    var ids: map<FlowKey, FlowId>
    var flows: map<FlowId, FlowEntry>
    var next: FlowId
    var dsts: map<Address, int>

    function State(): Table
      reads this
    {
      Table(ids, flows, next, dsts)
    }

    constructor ()
      ensures State() == EMPTY_TABLE
    {
      ids, flows, next, dsts := map[], map[], 0, map[];
    }

    /** The loop of id(): next stops at the first free ID, or goes once round. */
    method Scan() returns (id: Option<FlowId>)
      modifies this`next
      ensures id == FirstFree(flows.Keys, old(next), ID_SPACE)
      ensures next == if id.Some? then id.value else old(next)
    {
      hide FirstFree, Ahead;
      var i := 0;
      RoundTrip(next);
      while i < ID_SPACE
        invariant 0 <= i <= ID_SPACE && next == Ahead(old(next), i)
        invariant FirstFree(flows.Keys, old(next), ID_SPACE) == FirstFree(flows.Keys, next, ID_SPACE - i)
      {
        FirstFreeStep(flows.Keys, next, ID_SPACE - i);
        AheadAgain(old(next), i);
        next := (next + 1) % ID_SPACE;
        if next !in flows {
          return Some(next);
        }
        i := i + 1;
      }
      FirstFreeStep(flows.Keys, next, 0);
      return None;
    }

    /** The new flow gets the ID next. */
    method Record(fi: FlowInfo, now: int)
      modifies this`ids, this`flows, this`dsts
      ensures State() == Add(old(State()), next, fi, now)
    {
      ids := ids[FlowKeyOf(fi) := next];
      flows := flows[next := FlowEntry(fi, now)];
      dsts := dsts[fi.origDst := Count(dsts, fi.origDst) + 1];
    }

    method Id(fi: FlowInfo, now: int) returns (id: Option<FlowId>)
      requires Valid(State())
      modifies this
      ensures Valid(State()) && Given(State(), id) == GiveId(old(State()), fi, now)
    {
      hide FirstFree;
      GiveIdKeeps(State(), fi, now);
      var key := FlowKeyOf(fi);
      assert key in ids ==> ids[key] in flows;
      hide Valid;
      if key in ids {
        var known := ids[key];
        flows := flows[known := flows[known].(lastSeen := now)];
        return Some(known);
      }
      id := Scan();
      if id.Some? {
        Record(fi, now);
      }
    }

    method Lookup(id: FlowId, now: int) returns (info: Option<FlowInfo>)
      requires Valid(State())
      modifies this`flows
      ensures Valid(State()) && State() == Touch(old(State()), id, now)
      ensures info == if id in old(flows) then Some(old(flows)[id].info) else None
    {
      TouchKeeps(State(), id, now);
      if id !in flows {
        return None;
      }
      flows := flows[id := flows[id].(lastSeen := now)];
      return Some(flows[id].info);
    }

    method RemoveEntry(id: FlowId)
      requires id in flows
      modifies this
      ensures State() == Remove(old(State()), id)
    {
      var info := flows[id].info;
      flows := flows - {id};
      ids := ids - {FlowKeyOf(info)};
      var dst := info.origDst;
      dsts := dsts[dst := Count(dsts, dst) - 1];
      if dsts[dst] == 0 {
        dsts := dsts - {dst};
      }
    }

    method SweepIdle(now: int, idle: int) returns (n: nat)
      requires Valid(State())
      modifies this
      ensures Valid(State()) && State() == Sweep(old(State()), now, idle)
      ensures n == |IdleIds(old(State()), now, idle)|
    {
      ghost var start := State();
      var rest := flows.Keys;
      n := 0;
      SweepStarts(start, now, idle);
      SweepKeeps(start, now, idle);
      RemoveNone(start);
      hide RemoveAll, Valid, Swept, Remove;
      while rest != {}
        invariant Valid(start) && rest <= start.flows.Keys
        invariant State() == RemoveAll(start, Swept(start, now, idle, rest))
        invariant n == |Swept(start, now, idle, rest)|
        decreases rest
      {
        var id :| id in rest;
        SweepStep(start, now, idle, rest, id);
        rest := rest - {id};
        var e := flows[id];
        if now - e.lastSeen > idle {
          RemoveEntry(id);
          n := n + 1;
        }
      }
    }
  }
}
