/** The demands `Allocator.allocate` builds from the topology: one per
    router group with a positive host count, then one per connection. */
module Demands {

  type RouterName = string

  /** A router with its per-group host counts, in entry order. */
  datatype Router = Router(name: RouterName, groups: seq<int>)

  /** A link between two routers, named by their names. */
  datatype Connection = Connection(a: RouterName, b: RouterName)

  /** Demand names, kept as their parts: group i (1-based) of a router, or
      the n-th connection (1-based) between routers a and b. */
  datatype DemandName =
    | GroupName(router: RouterName, group: nat)
    | LinkName(a: RouterName, b: RouterName, link: nat)

  /** A LAN segment asking for a host count, or a point-to-point link. */
  datatype Demand = Group(name: DemandName, hosts: int) | Link(name: DemandName) {

    /** Requested hosts: a link always asks for two. */
    function Hosts(): int {
      match this
      case Group(_, h) => h
      case Link(_) => 2
    }
  }

  /** The group demands of one router, for its first |groups| groups. */
  function RouterDemands(name: RouterName, groups: seq<int>): (ds: seq<Demand>)
    ensures |ds| <= |groups|
    ensures forall d :: d in ds ==>
      && d.Group? && d.name.GroupName? && d.name.router == name
      && 1 <= d.name.group <= |groups| && d.hosts == groups[d.name.group - 1] > 0
    ensures forall i :: 0 <= i < |groups| && groups[i] > 0 ==> Group(GroupName(name, i + 1), groups[i]) in ds
    ensures forall i, j :: 0 <= i < j < |ds| ==> ds[i].name.group < ds[j].name.group
    decreases |groups|
  {
    if |groups| == 0 then []
    else
      var rest := RouterDemands(name, groups[..|groups| - 1]);
      var h := groups[|groups| - 1];
      if h > 0 then rest + [Group(GroupName(name, |groups|), h)] else rest
  }

  /** One more group adds its demand at the end when its host count is
      positive, and nothing otherwise. */
  lemma RouterDemandsSnoc(name: RouterName, groups: seq<int>, h: int)
    ensures RouterDemands(name, groups + [h])
      == RouterDemands(name, groups) + (if h > 0 then [Group(GroupName(name, |groups| + 1), h)] else [])
  {
    assert (groups + [h])[..|groups|] == groups;
  }

  /** Group demands of all routers, router by router in insertion order. */
  function GroupDemands(routers: seq<Router>): (ds: seq<Demand>)
    ensures forall d :: d in ds ==> d.Group? && d.name.GroupName? && d.hosts > 0
    decreases |routers|
  {
    if |routers| == 0 then []
    else
      var last := routers[|routers| - 1];
      GroupDemands(routers[..|routers| - 1]) + RouterDemands(last.name, last.groups)
  }

  /** The demand is one of the router's own group demands. */
  predicate FromRouter(r: Router, d: Demand) {
    d in RouterDemands(r.name, r.groups)
  }

  /** Every group demand comes from one of the routers. */
  lemma {:induction false} GroupDemandsSound(routers: seq<Router>, d: Demand)
    requires d in GroupDemands(routers)
    ensures exists j :: 0 <= j < |routers| && FromRouter(routers[j], d)
    decreases |routers|
  {
    var n := |routers| - 1;
    var init := routers[..n];
    if d in GroupDemands(init) {
      GroupDemandsSound(init, d);
      var j :| 0 <= j < |init| && FromRouter(init[j], d);
      assert init[j] == routers[j];
    } else {
      assert FromRouter(routers[n], d);
    }
  }

  /** Every demand of every router is among the group demands. */
  lemma {:induction false} GroupDemandsComplete(routers: seq<Router>, j: int, d: Demand)
    requires 0 <= j < |routers| && d in RouterDemands(routers[j].name, routers[j].groups)
    ensures d in GroupDemands(routers)
    decreases |routers|
  {
    var init := routers[..|routers| - 1];
    if j < |routers| - 1 {
      assert init[j] == routers[j];
      GroupDemandsComplete(init, j, d);
    }
  }

  /** One link demand per connection, numbered from 1 in connection order. */
  function LinkDemands(connections: seq<Connection>): (ds: seq<Demand>)
    ensures |ds| == |connections|
    ensures forall k :: 0 <= k < |ds| ==>
      ds[k] == Link(LinkName(connections[k].a, connections[k].b, k + 1))
    decreases |connections|
  {
    if |connections| == 0 then []
    else
      var c := connections[|connections| - 1];
      LinkDemands(connections[..|connections| - 1]) + [Link(LinkName(c.a, c.b, |connections|))]
  }

  /** The demand list of `allocate`: all group demands, then all link demands. */
  function BuildDemands(routers: seq<Router>, connections: seq<Connection>): (ds: seq<Demand>)
    ensures |ds| == |GroupDemands(routers)| + |connections|
    ensures forall k :: 0 <= k < |ds| ==> ds[k].Hosts() > 0
    ensures forall k :: 0 <= k < |ds| ==> (ds[k].Group? <==> k < |GroupDemands(routers)|)
    ensures forall k :: 0 <= k < |ds| ==> (ds[k].Group? <==> ds[k].name.GroupName?)
  {
    GroupDemands(routers) + LinkDemands(connections)
  }

  /** A router group yields a demand exactly when its host count is positive,
      under the router's name and the group's 1-based number. */
  lemma GroupDemandIff(routers: seq<Router>, j: int, i: int)
    requires 0 <= j < |routers| && 0 <= i < |routers[j].groups|
    ensures Group(GroupName(routers[j].name, i + 1), routers[j].groups[i]) in GroupDemands(routers)
      <==> routers[j].groups[i] > 0
  {
    var r := routers[j];
    var d := Group(GroupName(r.name, i + 1), r.groups[i]);
    if r.groups[i] > 0 {
      GroupDemandsComplete(routers, j, d);
    }
  }

  predicate DistinctNames(routers: seq<Router>) {
    forall i, j :: 0 <= i < j < |routers| ==> routers[i].name != routers[j].name
  }

  predicate UniqueNames(ds: seq<Demand>) {
    forall i, j :: 0 <= i < j < |ds| ==> ds[i].name != ds[j].name
  }

  /** With distinct router names (the router table is keyed by name), every
      demand of a run has its own name. */
  lemma {:induction false} DemandNamesUnique(routers: seq<Router>, connections: seq<Connection>)
    requires DistinctNames(routers)
    ensures UniqueNames(BuildDemands(routers, connections))
  {
    GroupNamesUnique(routers);
    var gs, ls := GroupDemands(routers), LinkDemands(connections);
    var ds := BuildDemands(routers, connections);
    forall i, j | 0 <= i < j < |ds|
      ensures ds[i].name != ds[j].name
    {
      if j < |gs| {
        assert ds[i] == gs[i] && ds[j] == gs[j];
      } else if i >= |gs| {
        assert ds[i] == ls[i - |gs|] && ds[j] == ls[j - |gs|];
      } else {
        assert ds[i] == gs[i] && ds[j] == ls[j - |gs|];
        assert ds[i] in gs;
      }
    }
  }

  lemma {:induction false} GroupNamesUnique(routers: seq<Router>)
    requires DistinctNames(routers)
    ensures UniqueNames(GroupDemands(routers))
    decreases |routers|
  {
    if |routers| > 0 {
      var init := routers[..|routers| - 1];
      var last := routers[|routers| - 1];
      assert DistinctNames(init);
      GroupNamesUnique(init);
      var rest, mine := GroupDemands(init), RouterDemands(last.name, last.groups);
      var ds := GroupDemands(routers);
      assert ds == rest + mine;
      forall i, j | 0 <= i < j < |ds|
        ensures ds[i].name != ds[j].name
      {
        if j < |rest| {
          assert ds[i] == rest[i] && ds[j] == rest[j];
        } else if i >= |rest| {
          assert ds[i] == mine[i - |rest|] && ds[j] == mine[j - |rest|];
        } else {
          assert ds[i] == rest[i] && ds[j] == mine[j - |rest|];
          EarlierRouterNameDiffers(routers, ds[i], ds[j]);
        }
      }
    }
  }

  /** A group demand of an earlier router never shares its name with one of
      the last router's demands. */
  lemma EarlierRouterNameDiffers(routers: seq<Router>, d: Demand, e: Demand)
    requires DistinctNames(routers) && |routers| > 0
    requires d in GroupDemands(routers[..|routers| - 1])
    requires e in RouterDemands(routers[|routers| - 1].name, routers[|routers| - 1].groups)
    ensures d.name != e.name
  {
    var init := routers[..|routers| - 1];
    GroupDemandsSound(init, d);
    var k :| 0 <= k < |init| && FromRouter(init[k], d);
    assert init[k] == routers[k];
  }

  /** Group demands come router by router: with distinct router names, every
      demand of an earlier router sits before every demand of a later one. */
  lemma GroupDemandsInRouterOrder(routers: seq<Router>, i: int, j: int, p: int, q: int)
    requires DistinctNames(routers) && 0 <= i < j < |routers|
    requires 0 <= p < |GroupDemands(routers)| && GroupDemands(routers)[p].name.router == routers[i].name
    requires 0 <= q < |GroupDemands(routers)| && GroupDemands(routers)[q].name.router == routers[j].name
    ensures p < q
  {
    var all, front, back := GroupDemands(routers), GroupDemands(routers[0..j]), GroupDemands(routers[j..|routers|]);
    GroupDemandsSplitAt(routers, j);
    NotFromOthers(routers, j, |routers|, i, all[p]);
    NotFromOthers(routers, 0, j, j, all[q]);
    SplitOrder(front, back, p, q);
  }

  /** In a concatenation, an element at p that is not in the back part comes
      before an element at q that is not in the front part. */
  lemma SplitOrder<T>(front: seq<T>, back: seq<T>, p: int, q: int)
    requires 0 <= p < |front + back| && (front + back)[p] !in back
    requires 0 <= q < |front + back| && (front + back)[q] !in front
    ensures p < q
  {
  }

  /** Cutting the routers at j cuts their group demands in the same place. */
  lemma GroupDemandsSplitAt(routers: seq<Router>, j: int)
    requires 0 <= j <= |routers|
    ensures GroupDemands(routers) == GroupDemands(routers[0..j]) + GroupDemands(routers[j..|routers|])
  {
    assert routers == routers[0..j] + routers[j..|routers|];
    GroupDemandsAppend(routers[0..j], routers[j..|routers|]);
  }

  /** The group demands of two router lists one after the other are those of
      the first list followed by those of the second. */
  lemma {:induction false} GroupDemandsAppend(xs: seq<Router>, ys: seq<Router>)
    ensures GroupDemands(xs + ys) == GroupDemands(xs) + GroupDemands(ys)
    decreases |ys|
  {
    if |ys| == 0 {
      assert xs + ys == xs;
    } else {
      var init, last := ys[..|ys| - 1], ys[|ys| - 1];
      var mine := RouterDemands(last.name, last.groups);
      assert (xs + ys)[..|xs + ys| - 1] == xs + init && (xs + ys)[|xs + ys| - 1] == last;
      GroupDemandsAppend(xs, init);
      calc {
        GroupDemands(xs + ys);
        GroupDemands(xs + init) + mine;
        (GroupDemands(xs) + GroupDemands(init)) + mine;
        { AppendAssoc(GroupDemands(xs), GroupDemands(init), mine); }
        GroupDemands(xs) + (GroupDemands(init) + mine);
        GroupDemands(xs) + GroupDemands(ys);
      }
    }
  }

  /** Concatenation is associative. */
  lemma AppendAssoc<T>(a: seq<T>, b: seq<T>, c: seq<T>)
    ensures (a + b) + c == a + (b + c)
  {
  }

  /** The router a group demand comes from, found by its name. */
  lemma RouterOf(routers: seq<Router>, d: Demand) returns (t: int)
    requires d in GroupDemands(routers)
    ensures 0 <= t < |routers| && routers[t].name == d.name.router
  {
    GroupDemandsSound(routers, d);
    t :| 0 <= t < |routers| && FromRouter(routers[t], d);
  }

  /** With distinct router names, a demand named after router i is not among
      the group demands of a slice of the routers that leaves out router i. */
  lemma NotFromOthers(routers: seq<Router>, lo: int, hi: int, i: int, d: Demand)
    requires DistinctNames(routers) && 0 <= lo <= hi <= |routers|
    requires 0 <= i < |routers| && !(lo <= i < hi) && d.name.GroupName? && d.name.router == routers[i].name
    ensures d !in GroupDemands(routers[lo..hi])
  {
    if d in GroupDemands(routers[lo..hi]) {
      var u := RouterOf(routers[lo..hi], d);
    }
  }

}
