/** The allocator object: `Allocator.__init__`, `Allocator.allocate`, and the
    call made when the user asks for a plan. */
module Engine {
  import opened Results
  import opened IPv4
  import opened Sizing
  import opened Demands
  import opened Jobs
  import opened Ordering
  import opened Placement

  datatype Error =
    | SizingFailed(reason: SizingError)               // a group the resolver rejects
    | OutOfSpace(name: DemandName, prefix: Prefix)    // a job that does not fit the base network
    | InvalidBaseNetwork                              // the base network does not parse

  /** The allocator's state: its inputs, the base network and the cursor. The
      allocation list the object also keeps is not part of it; `allocate`
      returns the allocations instead. */
  datatype Allocator = Allocator(
    routers: seq<Router>,
    connections: seq<Connection>,
    mode: Mode,
    base: Network,
    cursor: nat)

  /** `Allocator.__init__`: the base network with its host bits cleared, and
      the cursor at its network address. */
  function NewAllocator(routers: seq<Router>, connections: seq<Connection>, mode: Mode,
                        baseAddress: int, basePrefix: int): (r: Result<Allocator, Error>)
    ensures r.Ok? <==> 0 <= baseAddress < AddressCount && 0 <= basePrefix <= 32
    ensures r.Err? ==> r.error == InvalidBaseNetwork
    ensures r.Ok? ==> r.value.base.Valid() && r.value.base.prefix == basePrefix && r.value.base.Contains(baseAddress)
    ensures r.Ok? ==> r.value.cursor == r.value.base.address
    ensures r.Ok? ==> r.value.routers == routers && r.value.connections == connections && r.value.mode == mode
  {
    match NetworkOf(baseAddress, basePrefix)
    case None => Err(InvalidBaseNetwork)
    case Some(base) => Ok(Allocator(routers, connections, mode, base, base.address))
  }

  function DemandsOf(a: Allocator): seq<Demand> {
    BuildDemands(a.routers, a.connections)
  }

  /** The jobs of `allocate` in placement order. */
  function PlannedJobs(a: Allocator): Result<seq<Job>, SizingError> {
    var jobs :- SizeDemands(DemandsOf(a), a.mode);
    Ok(SortByPrefix(jobs))
  }

  /** One run of `allocate` with the cursor starting at `start`. */
  function Run(a: Allocator, start: nat): (Result<seq<Allocation>, Error>, Allocator) {
    match PlannedJobs(a)
    case Err(e) => (Err(SizingFailed(e)), a)
    case Ok(jobs) =>
      match Place(jobs, start, a.base)
      case Placed(allocs, end) => (Ok(allocs), a.(cursor := end))
      case Stuck(name, prefix, end) => (Err(OutOfSpace(name, prefix)), a.(cursor := end))
  }

  /** `allocate` as written: it clears the allocation list but starts from the
      cursor the allocator holds, which a previous call has moved. */
  function AllocateAsWritten(a: Allocator): (r: (Result<seq<Allocation>, Error>, Allocator))
    ensures r.1 == a.(cursor := r.1.cursor) && a.cursor <= r.1.cursor
  {
    Run(a, a.cursor)
  }

  /** `allocate` as evidently intended: every call starts at the base network
      address. Only the cursor of the allocator changes; after a successful run
      it has moved over at least the placed blocks and stays within one past
      the end of the base network. */
  function Allocate(a: Allocator): (r: (Result<seq<Allocation>, Error>, Allocator))
    ensures r.1 == a.(cursor := r.1.cursor)
    ensures r.0.Ok? ==> a.base.address + TotalSize(r.0.value) <= r.1.cursor <= a.base.address + a.base.Size()
  {
    RunLaidOut(a, a.base.address);
    Run(a, a.base.address)
  }

  /** A successful run from `start` places one block per planned job, by the
      rounding rule, laid out from `start` up to the cursor it leaves. */
  lemma RunLaidOut(a: Allocator, start: nat)
    ensures var r := Run(a, start);
      r.0.Ok? ==>
        && Labelled(r.0.value, PlannedJobs(a).value)
        && RoundedUp(r.0.value, start, PlannedJobs(a).value)
        && LaidOut(r.0.value, start, r.1.cursor, a.base)
  {
    if PlannedJobs(a).Ok? && Place(PlannedJobs(a).value, start, a.base).Placed? {
      PlacedLaidOut(PlannedJobs(a).value, start, a.base);
    }
  }

  /** A new allocator runs the same under both definitions, so a caller that
      builds a fresh allocator for every plan never sees the difference. */
  lemma FreshAllocatorAgrees(a: Allocator)
    requires a.cursor == a.base.address
    ensures AllocateAsWritten(a) == Allocate(a)
  {
  }

  /** With the corrected definition, calling `allocate` again on the same
      allocator gives the same allocations. */
  lemma AllocateIsRepeatable(a: Allocator)
    ensures Allocate(Allocate(a).1).0 == Allocate(a).0
  {
  }

  /** A plan from the user's inputs: a fresh allocator for the base network,
      then one allocation run. */
  function Plan(routers: seq<Router>, connections: seq<Connection>, mode: Mode,
                baseAddress: int, basePrefix: int): (r: Result<seq<Allocation>, Error>)
    ensures r == Err(InvalidBaseNetwork) <==> !(0 <= baseAddress < AddressCount && 0 <= basePrefix <= 32)
    ensures 0 <= baseAddress < AddressCount && 0 <= basePrefix <= 32 ==>
      var a := NewAllocator(routers, connections, mode, baseAddress, basePrefix).value;
      r == AllocateAsWritten(a).0
  {
    var a :- NewAllocator(routers, connections, mode, baseAddress, basePrefix);
    Allocate(a).0
  }

  /** Every allocation is aligned to its own size and inside the base network,
      the allocations are ascending in address, and together they need no
      more addresses than the base network has. */
  lemma AllocationsInBase(a: Allocator)
    requires Allocate(a).0.Ok?
    ensures var allocs := Allocate(a).0.value;
      && (forall k :: 0 <= k < |allocs| ==> allocs[k].network.Aligned() && allocs[k].network.Within(a.base))
      && Ascending(allocs)
      && TotalSize(allocs) <= a.base.Size()
  {
    RunLaidOut(a, a.base.address);
  }

  /** The placement rule of `allocate`: the first block starts at the base
      network address rounded up to its size, and every later block at the
      address just past the previous one, rounded up to its own size. */
  lemma AllocationsRoundUp(a: Allocator)
    requires Allocate(a).0.Ok?
    ensures var allocs := Allocate(a).0.value;
      |allocs| > 0 ==> allocs[0].network.address == RoundUpToNetwork(a.base.address, allocs[0].network.prefix)
    ensures var allocs := Allocate(a).0.value;
      forall k :: 0 < k < |allocs| ==>
        allocs[k].network.address == RoundUpToNetwork(allocs[k - 1].network.Broadcast() + 1, allocs[k].network.prefix)
  {
    RunLaidOut(a, a.base.address);
  }

  /** No two allocations share an address. */
  lemma AllocationsDisjoint(a: Allocator)
    requires Allocate(a).0.Ok?
    ensures var allocs := Allocate(a).0.value;
      forall i, j :: 0 <= i < |allocs| && 0 <= j < |allocs| && i != j ==>
        Disjoint(allocs[i].network, allocs[j].network)
  {
    var allocs := Allocate(a).0.value;
    AllocationsInBase(a);
    forall i, j | 0 <= i < |allocs| && 0 <= j < |allocs| && i != j
      ensures Disjoint(allocs[i].network, allocs[j].network)
    {
      if i < j {
        assert allocs[i].network.Broadcast() < allocs[j].network.address;
      } else {
        assert allocs[j].network.Broadcast() < allocs[i].network.address;
      }
    }
  }

  /** Allocations come out largest block first: their prefix lengths ascend. */
  lemma AllocationPrefixesAscend(a: Allocator)
    requires Allocate(a).0.Ok?
    ensures var allocs := Allocate(a).0.value;
      forall i, j :: 0 <= i < j < |allocs| ==> allocs[i].network.prefix <= allocs[j].network.prefix
  {
    var jobs := PlannedJobs(a).value;
    LayoutLabelled(jobs, a.base.address);
    assert SortedByPrefix(jobs);
  }

  /** The allocation serves the demand: same name, and its block offers at
      least the hosts the demand asks for. */
  predicate Serves(al: Allocation, d: Demand) {
    al.name == d.name && PrefixHosts(al.network.prefix) >= d.Hosts()
  }

  /** The allocations of a successful run: the stable sort of the sized
      demands, placed from the base network address. */
  predicate PlacedFrom(allocs: seq<Allocation>, ds: seq<Demand>, mode: Mode, base: Network) {
    && SizeDemands(ds, mode).Ok?
    && var jobs := SortByPrefix(SizeDemands(ds, mode).value);
    && Place(jobs, base.address, base).Placed?
    && allocs == Place(jobs, base.address, base).allocations
  }

  lemma SuccessfulRun(a: Allocator)
    requires Allocate(a).0.Ok?
    ensures PlacedFrom(Allocate(a).0.value, DemandsOf(a), a.mode, a.base)
  {
  }

  lemma PlacedCount(allocs: seq<Allocation>, ds: seq<Demand>, mode: Mode, base: Network)
    requires PlacedFrom(allocs, ds, mode, base)
    ensures |allocs| == |ds|
  {
    var sized := SizeDemands(ds, mode).value;
    assert |SortByPrefix(sized)| == |sized| by {
      assert |multiset(SortByPrefix(sized))| == |multiset(sized)|;
    }
  }

  /** The allocation at position k is placed for a demand of the run, with
      the prefix that demand was sized to. */
  lemma PlacedFor(allocs: seq<Allocation>, ds: seq<Demand>, mode: Mode, base: Network, k: int)
    returns (i: int)
    requires PlacedFrom(allocs, ds, mode, base) && 0 <= k < |allocs|
    ensures 0 <= i < |ds| && allocs[k].name == ds[i].name
    ensures allocs[k].network.prefix == SizeDemands(ds, mode).value[i].prefix
    ensures Serves(allocs[k], ds[i])
  {
    var sized := SizeDemands(ds, mode).value;
    var jobs := SortByPrefix(sized);
    LayoutLabelled(jobs, base.address);
    assert jobs[k] in multiset(sized);
    i :| 0 <= i < |sized| && sized[i] == jobs[k];
  }

  /** The demand at position i has an allocation placed for it. */
  lemma PlacedAt(allocs: seq<Allocation>, ds: seq<Demand>, mode: Mode, base: Network, i: int)
    returns (k: int)
    requires PlacedFrom(allocs, ds, mode, base) && 0 <= i < |ds|
    ensures 0 <= k < |allocs| && Serves(allocs[k], ds[i])
  {
    var sized := SizeDemands(ds, mode).value;
    var jobs := SortByPrefix(sized);
    LayoutLabelled(jobs, base.address);
    assert sized[i] in multiset(jobs);
    k :| 0 <= k < |jobs| && jobs[k] == sized[i];
  }

  /** One allocation per demand: every allocation serves a demand and every
      demand is served by an allocation. */
  lemma AllocationsMatchDemands(a: Allocator)
    requires Allocate(a).0.Ok?
    ensures |Allocate(a).0.value| == |DemandsOf(a)|
    ensures forall k :: 0 <= k < |Allocate(a).0.value| ==>
      exists i :: 0 <= i < |DemandsOf(a)| && Serves(Allocate(a).0.value[k], DemandsOf(a)[i])
    ensures forall i :: 0 <= i < |DemandsOf(a)| ==>
      exists k :: 0 <= k < |Allocate(a).0.value| && Serves(Allocate(a).0.value[k], DemandsOf(a)[i])
  {
    var allocs, ds := Allocate(a).0.value, DemandsOf(a);
    SuccessfulRun(a);
    PlacedCount(allocs, ds, a.mode, a.base);
    forall k | 0 <= k < |allocs|
      ensures exists i :: 0 <= i < |ds| && Serves(allocs[k], ds[i])
    {
      var i := PlacedFor(allocs, ds, a.mode, a.base, k);
    }
    forall i | 0 <= i < |ds|
      ensures exists k :: 0 <= k < |allocs| && Serves(allocs[k], ds[i])
    {
      var k := PlacedAt(allocs, ds, a.mode, a.base, i);
    }
  }

  /** Every link allocation is a /30, whatever the mode. */
  lemma LinksGetSlash30(a: Allocator)
    requires Allocate(a).0.Ok?
    ensures forall k :: 0 <= k < |Allocate(a).0.value| && Allocate(a).0.value[k].name.LinkName? ==>
      Allocate(a).0.value[k].network.prefix == LinkPrefix
  {
    var allocs, ds := Allocate(a).0.value, DemandsOf(a);
    SuccessfulRun(a);
    forall k | 0 <= k < |allocs| && allocs[k].name.LinkName?
      ensures allocs[k].network.prefix == LinkPrefix
    {
      var i := PlacedFor(allocs, ds, a.mode, a.base, k);
    }
  }

  /** In FLSM every group allocation has the same prefix length. */
  lemma FlsmGroupsShareOnePrefix(a: Allocator)
    requires a.mode == FLSM && Allocate(a).0.Ok?
    ensures var allocs := Allocate(a).0.value;
      forall i, j :: 0 <= i < |allocs| && 0 <= j < |allocs| && allocs[i].name.GroupName? && allocs[j].name.GroupName? ==>
        allocs[i].network.prefix == allocs[j].network.prefix
  {
    var allocs, ds := Allocate(a).0.value, DemandsOf(a);
    SuccessfulRun(a);
    forall k | 0 <= k < |allocs| && allocs[k].name.GroupName?
      ensures HasGroup(ds) && Ok(allocs[k].network.prefix) == SmallestPrefixForHosts(MaxGroupHosts(ds), true)
    {
      var i := PlacedFor(allocs, ds, a.mode, a.base, k);
    }
  }

  /** In VLSM the allocation of each group has the prefix the resolver picks
      for that group's own host count. */
  lemma VlsmGroupsSizedAlone(a: Allocator, k: int, i: int)
    requires a.mode == VLSM && Allocate(a).0.Ok?
    requires DistinctNames(a.routers)
    requires 0 <= k < |Allocate(a).0.value| && 0 <= i < |DemandsOf(a)|
    requires DemandsOf(a)[i].Group? && Allocate(a).0.value[k].name == DemandsOf(a)[i].name
    ensures SmallestPrefixForHosts(DemandsOf(a)[i].hosts, true) == Ok(Allocate(a).0.value[k].network.prefix)
  {
    var allocs, ds := Allocate(a).0.value, DemandsOf(a);
    SuccessfulRun(a);
    var i' := PlacedFor(allocs, ds, a.mode, a.base, k);
    DemandNamesUnique(a.routers, a.connections);
    assert i' == i;
  }

  /** Sizing failures are exactly the resolver's. Once sizing succeeds,
      `allocate` succeeds exactly when the layout of the planned jobs from the
      base network address fits in the base network; otherwise it reports the
      first job whose block does not fit, by the name of one of the demands,
      with the cursor just past the blocks placed before it. */
  lemma AllocateFailure(a: Allocator)
    ensures var r := Allocate(a).0;
      (r.Err? && r.error.SizingFailed?) <==> SizeDemands(DemandsOf(a), a.mode).Err?
    ensures var r := Allocate(a).0;
      r.Ok? <==> PlannedJobs(a).Ok? && Fits(Layout(PlannedJobs(a).value, a.base.address), a.base)
    ensures var r := Allocate(a).0;
      (r.Err? && r.error.OutOfSpace?) <==> PlannedJobs(a).Ok? && !Fits(Layout(PlannedJobs(a).value, a.base.address), a.base)
    ensures var r := Allocate(a).0;
      r.Err? && r.error.OutOfSpace? ==>
        exists k :: StopsAt(PlannedJobs(a).value, a.base.address, a.base, k, r.error.name, r.error.prefix, Allocate(a).1.cursor)
    ensures var r := Allocate(a).0;
      r.Err? && r.error.OutOfSpace? ==>
        exists i :: 0 <= i < |DemandsOf(a)| && DemandsOf(a)[i].name == r.error.name
    ensures Allocate(a).0 != Err(InvalidBaseNetwork)
  {
    var r := Allocate(a).0;
    if r.Err? && r.error.OutOfSpace? {
      JobIsDemand(a, r.error.name, r.error.prefix);
    }
  }

  /** A planned job carries the name of one of the demands. */
  lemma JobIsDemand(a: Allocator, name: DemandName, prefix: Prefix)
    requires PlannedJobs(a).Ok? && JobOf(name, prefix, PlannedJobs(a).value)
    ensures exists i :: 0 <= i < |DemandsOf(a)| && DemandsOf(a)[i].name == name
  {
    var ds := DemandsOf(a);
    var sized := SizeDemands(ds, a.mode).value;
    var jobs := PlannedJobs(a).value;
    var k :| 0 <= k < |jobs| && jobs[k].demand.name == name && jobs[k].prefix == prefix;
    assert jobs[k] in multiset(sized);
    var i :| 0 <= i < |sized| && sized[i] == jobs[k];
    assert ds[i].name == name;
  }

  /** Running out of space is genuine: the run reached the cursor just past
      the blocks placed before the failing job, and no aligned block of the
      prefix length that failed fits in the base network at or after it. */
  lemma OutOfSpaceIsGenuine(a: Allocator, m: nat)
    requires Allocate(a).0.Err? && Allocate(a).0.error.OutOfSpace?
    requires Allocate(a).1.cursor <= m && m % BlockSize(Allocate(a).0.error.prefix) == 0
    ensures exists k :: StopsAt(PlannedJobs(a).value, a.base.address, a.base, k,
      Allocate(a).0.error.name, Allocate(a).0.error.prefix, Allocate(a).1.cursor)
    ensures !Network(m, Allocate(a).0.error.prefix).Within(a.base)
  {
    StuckMeansNoRoom(PlannedJobs(a).value, a.base.address, a.base, m);
  }
}
