/** Sizing of demands in `Allocator.allocate`: links get /30, groups get the
    resolver's prefix, either each on its own (VLSM) or all the prefix of the
    largest group (FLSM). */
module Jobs {
  import opened Results
  import opened IPv4
  import opened Sizing
  import opened Demands

  /** Sizing mode. Any mode other than FLSM sizes groups one by one. */
  datatype Mode = VLSM | FLSM

  /** A demand with its resolved prefix length. */
  datatype Job = Job(demand: Demand, prefix: Prefix)

  /** Prefix length of every point-to-point link. */
  const LinkPrefix: Prefix := 30

  predicate HasGroup(ds: seq<Demand>) {
    exists k :: 0 <= k < |ds| && ds[k].Group?
  }

  /** The largest host count among the group demands (`max(group_hosts)`). */
  function MaxGroupHosts(ds: seq<Demand>): (m: int)
    requires HasGroup(ds)
    ensures exists k :: 0 <= k < |ds| && ds[k].Group? && ds[k].hosts == m
    ensures forall k :: 0 <= k < |ds| && ds[k].Group? ==> ds[k].hosts <= m
    decreases |ds|
  {
    var init, last := ds[..|ds| - 1], ds[|ds| - 1];
    assert forall k :: 0 <= k < |init| ==> init[k] == ds[k];
    if !HasGroup(init) then
      assert last.Group?;
      last.hosts
    else if last.Group? && last.hosts > MaxGroupHosts(init) then last.hosts
    else MaxGroupHosts(init)
  }

  /** The FLSM prefix, sized for the largest group; `None` in VLSM mode or when
      there is no group. */
  function UniformPrefix(ds: seq<Demand>, mode: Mode): Result<Option<Prefix>, SizingError> {
    if mode == FLSM && HasGroup(ds) then
      var p :- SmallestPrefixForHosts(MaxGroupHosts(ds), true);
      Ok(Some(p))
    else Ok(None)
  }

  /** The prefix of one demand, given the FLSM prefix if there is one. */
  function SizeDemand(d: Demand, uniform: Option<Prefix>): Result<Prefix, SizingError> {
    match d
    case Link(_) => Ok(LinkPrefix)
    case Group(_, h) => if uniform.Some? then Ok(uniform.value) else SmallestPrefixForHosts(h, true)
  }

  /** The loop building `jobs`: every demand sized in order, stopping at the
      first demand the resolver rejects. */
  function SizeJobs(ds: seq<Demand>, uniform: Option<Prefix>): (r: Result<seq<Job>, SizingError>)
    ensures r.Ok? <==> forall k :: 0 <= k < |ds| ==> SizeDemand(ds[k], uniform).Ok?
    ensures r.Ok? ==> |r.value| == |ds|
    ensures r.Ok? ==> forall k :: 0 <= k < |ds| ==>
      r.value[k].demand == ds[k] && SizeDemand(ds[k], uniform) == Ok(r.value[k].prefix)
    ensures r.Err? ==> exists k :: (0 <= k < |ds| && SizeDemand(ds[k], uniform) == Err(r.error)
      && forall i :: 0 <= i < k ==> SizeDemand(ds[i], uniform).Ok?)
    decreases |ds|
  {
    if |ds| == 0 then Ok([])
    else
      var p :- SizeDemand(ds[0], uniform);
      var rest :- SizeJobs(ds[1..], uniform);
      Ok([Job(ds[0], p)] + rest)
  }

  /** Sizing of all demands in `allocate`. Links get /30; in VLSM each group
      gets the resolver's prefix for its own host count; in FLSM every group
      gets the prefix for the largest group. Every prefix offers at least the
      hosts its demand asks for. */
  function SizeDemands(ds: seq<Demand>, mode: Mode): (r: Result<seq<Job>, SizingError>)
    ensures r.Ok? ==> |r.value| == |ds| && forall k :: 0 <= k < |ds| ==> r.value[k].demand == ds[k]
    ensures r.Ok? ==> forall k :: 0 <= k < |ds| && ds[k].Link? ==> r.value[k].prefix == LinkPrefix
    ensures r.Ok? ==> forall k :: 0 <= k < |ds| ==> PrefixHosts(r.value[k].prefix) >= ds[k].Hosts()
    ensures r.Ok? && mode == VLSM ==> forall k :: 0 <= k < |ds| && ds[k].Group? ==>
      SmallestPrefixForHosts(ds[k].hosts, true) == Ok(r.value[k].prefix)
    ensures r.Ok? && mode == FLSM ==> forall k :: 0 <= k < |ds| && ds[k].Group? ==>
      SmallestPrefixForHosts(MaxGroupHosts(ds), true) == Ok(r.value[k].prefix)
    ensures r.Ok? && mode == FLSM ==> forall i, j :: 0 <= i < |ds| && 0 <= j < |ds| && ds[i].Group? && ds[j].Group? ==>
      r.value[i].prefix == r.value[j].prefix
    ensures mode == VLSM ==>
      (r.Ok? <==> forall k :: 0 <= k < |ds| && ds[k].Group? ==> 0 < ds[k].hosts <= MaxHosts)
    ensures mode == FLSM ==>
      (r.Ok? <==> !HasGroup(ds) || 0 < MaxGroupHosts(ds) <= MaxHosts)
  {
    var uniform :- UniformPrefix(ds, mode);
    SizeJobs(ds, uniform)
  }
}
