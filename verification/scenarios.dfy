/** Worked plans, including the example topology the application loads. */
module Scenarios {
  import opened Results
  import opened IPv4
  import opened Sizing
  import opened Demands
  import opened Jobs
  import opened Ordering
  import opened Placement
  import opened Engine

  /** 192.168.0.0 as an integer. */
  const Net192_168: nat := 0xC0A8_0000

  const ExampleRouters := [Router("A", [20]), Router("B", [10])]
  const ExampleConnections := [Connection("A", "B")]
  const GroupA := Group(GroupName("A", 1), 20)
  const GroupB := Group(GroupName("B", 1), 10)
  const LinkAB := Link(LinkName("A", "B", 1))
  const ExampleJobs := [Job(GroupA, 27), Job(GroupB, 28), Job(LinkAB, 30)]
  const ExampleAllocations := [
    Allocation(GroupName("A", 1), Network(Net192_168, 27)),
    Allocation(GroupName("B", 1), Network(Net192_168 + 32, 28)),
    Allocation(LinkName("A", "B", 1), Network(Net192_168 + 48, 30))]

  lemma ExampleRouterDemands()
    ensures RouterDemands("A", [20]) == [GroupA]
    ensures RouterDemands("B", [10]) == [GroupB]
  {
    assert [20][..0] == [] && [10][..0] == [];
  }

  lemma ExampleDemands()
    ensures BuildDemands(ExampleRouters, ExampleConnections) == [GroupA, GroupB, LinkAB]
  {
    ExampleRouterDemands();
    assert ExampleRouters[..1] == [Router("A", [20])];
    assert ExampleRouters[..1][..0] == [];
    assert GroupDemands(ExampleRouters[..1]) == [GroupA];
    assert GroupDemands(ExampleRouters) == [GroupA, GroupB];
    assert ExampleConnections[..0] == [];
    assert LinkDemands(ExampleConnections) == [LinkAB];
  }

  lemma ExampleSizes()
    ensures SizeDemands([GroupA, GroupB, LinkAB], VLSM) == Ok(ExampleJobs)
  {
    var ds := [GroupA, GroupB, LinkAB];
    ResolvesBetweenEntries(20, 27, true);
    ResolvesBetweenEntries(10, 28, true);
    assert SizeDemand(ds[0], None) == Ok(27);
    assert SizeDemand(ds[1], None) == Ok(28);
    assert SizeDemand(ds[2], None) == Ok(30);
    var r := SizeJobs(ds, None);
    assert r.Ok?;
    assert r.value[0] == ExampleJobs[0] && r.value[1] == ExampleJobs[1] && r.value[2] == ExampleJobs[2];
    assert r.value == ExampleJobs;
  }

  lemma ExampleSorted()
    ensures SortByPrefix(ExampleJobs) == ExampleJobs
  {
    var js := ExampleJobs;
    assert js[..2] == [Job(GroupA, 27), Job(GroupB, 28)];
    assert js[..2][..1] == [Job(GroupA, 27)];
    assert js[..2][..1][..0] == [];
  }

  const ExampleBase := Network(Net192_168, 16)

  lemma ExampleBlockSizes()
    ensures BlockSize(16) == 65536 && BlockSize(27) == 32 && BlockSize(28) == 16 && BlockSize(30) == 4
  {
    Pow2Add(8, 8);
  }

  lemma ExamplePlacedLink()
    ensures Place(ExampleJobs[2..], Net192_168 + 48, ExampleBase) == Placed(ExampleAllocations[2..], Net192_168 + 52)
  {
    ExampleBlockSizes();
    assert ExampleJobs[2..][1..] == [];
    assert Candidate(Net192_168 + 48, 30) == ExampleAllocations[2].network;
  }

  lemma ExamplePlacedB()
    ensures Place(ExampleJobs[1..], Net192_168 + 32, ExampleBase) == Placed(ExampleAllocations[1..], Net192_168 + 52)
  {
    ExampleBlockSizes();
    ExamplePlacedLink();
    assert ExampleJobs[1..][1..] == ExampleJobs[2..];
    assert Candidate(Net192_168 + 32, 28) == ExampleAllocations[1].network;
    assert [ExampleAllocations[1]] + ExampleAllocations[2..] == ExampleAllocations[1..];
  }

  lemma ExamplePlaced()
    ensures Place(ExampleJobs, Net192_168, ExampleBase) == Placed(ExampleAllocations, Net192_168 + 52)
  {
    ExampleBlockSizes();
    ExamplePlacedB();
    assert Candidate(Net192_168, 27) == ExampleAllocations[0].network;
    assert [ExampleAllocations[0]] + ExampleAllocations[1..] == ExampleAllocations;
  }

  /** Two routers with 20 and 10 hosts and one link between them, VLSM in
      192.168.0.0/16: A-G1 gets 192.168.0.0/27, B-G1 192.168.0.32/28 and the
      link 192.168.0.48/30. */
  lemma TwoRoutersVlsm()
    ensures Plan(ExampleRouters, ExampleConnections, VLSM, Net192_168, 16) == Ok(ExampleAllocations)
  {
    ExampleBlockSizes();
    assert NetworkOf(Net192_168, 16) == Some(ExampleBase);
    ExampleDemands();
    ExampleSizes();
    ExampleSorted();
    ExamplePlaced();
  }

  /** 10.0.0.0 as an integer. */
  const Net10: nat := 0x0A00_0000

  const Big := Group(GroupName("A", 1), 100)
  const Small := Group(GroupName("A", 2), 2)

  lemma CrowdedRouterDemands()
    ensures RouterDemands("A", [100, 2]) == [Big, Small]
  {
    var none: seq<int> := [];
    assert RouterDemands("A", none) == [];
    Snoc(100, 2, 0, 0);
    Snoc(Big, Small, Small, Small);
    RouterDemandsSnoc("A", none, 100);
    RouterDemandsSnoc("A", [100], 2);
  }

  lemma CrowdedDemands()
    ensures BuildDemands([Router("A", [100, 2])], []) == [Big, Small]
  {
    CrowdedRouterDemands();
    assert [Router("A", [100, 2])][..0] == [];
  }

  lemma CrowdedSizes()
    ensures SizeDemands([Big, Small], VLSM) == Ok([Job(Big, 25), Job(Small, 30)])
  {
    ResolvesBetweenEntries(100, 25, true);
    RoundTripTied(true);
    var ds := [Big, Small];
    assert SizeDemand(ds[0], None) == Ok(25);
    assert SizeDemand(ds[1], None) == Ok(30);
    var r := SizeJobs(ds, None);
    assert r.Ok? && r.value[0] == Job(Big, 25) && r.value[1] == Job(Small, 30);
    assert r.value == [Job(Big, 25), Job(Small, 30)];
  }

  lemma CrowdedSorted()
    ensures SortByPrefix([Job(Big, 25), Job(Small, 30)]) == [Job(Big, 25), Job(Small, 30)]
  {
    var js := [Job(Big, 25), Job(Small, 30)];
    assert js[..1] == [Job(Big, 25)] && js[..1][..0] == [];
  }

  lemma CrowdedPlacement()
    ensures Place([Job(Big, 25), Job(Small, 30)], Net10, Network(Net10, 25)) == Stuck(GroupName("A", 2), 30, Net10 + 128)
  {
    assert BlockSize(25) == 128 && BlockSize(30) == 4;
    var js := [Job(Big, 25), Job(Small, 30)];
    assert js[1..] == [Job(Small, 30)];
    assert Candidate(Net10, 25) == Network(Net10, 25);
    assert Candidate(Net10 + 128, 30) == Network(Net10 + 128, 30);
  }

  const Crowded := Allocator([Router("A", [100, 2])], [], VLSM, Network(Net10, 25), Net10)

  lemma CrowdedAllocator()
    ensures NewAllocator([Router("A", [100, 2])], [], VLSM, Net10, 25) == Ok(Crowded)
  {
    assert BlockSize(25) == 128;
    assert NetworkOf(Net10, 25) == Some(Network(Net10, 25));
  }

  lemma CrowdedJobs()
    ensures PlannedJobs(Crowded) == Ok([Job(Big, 25), Job(Small, 30)])
  {
    CrowdedDemands();
    CrowdedSizes();
    CrowdedSorted();
  }

  lemma CrowdedRun()
    ensures Run(Crowded, Net10).0 == Err(OutOfSpace(GroupName("A", 2), 30))
  {
    CrowdedJobs();
    CrowdedPlacement();
  }

  /** A 100-host group fills 10.0.0.0/25 on its own, so a second 2-host group
      finds no room and the whole plan fails. */
  lemma CrowdedBaseNetwork()
    ensures Plan([Router("A", [100, 2])], [], VLSM, Net10, 25) == Err(OutOfSpace(GroupName("A", 2), 30))
  {
    CrowdedAllocator();
    CrowdedRun();
  }

  const Lone := Group(GroupName("A", 1), 10)

  lemma LoneDemands()
    ensures BuildDemands([Router("A", [10])], []) == [Lone]
  {
    assert [10][..0] == [] && [Router("A", [10])][..0] == [];
  }

  lemma LoneSizes()
    ensures SizeDemands([Lone], VLSM) == Ok([Job(Lone, 28)])
  {
    ResolvesBetweenEntries(10, 28, true);
    assert SizeDemand(Lone, None) == Ok(28);
    var r := SizeJobs([Lone], None);
    assert r.Ok? && r.value[0] == Job(Lone, 28);
    assert r.value == [Job(Lone, 28)];
  }

  lemma LonePlan(a: Allocator)
    requires a.routers == [Router("A", [10])] && a.connections == [] && a.mode == VLSM
    ensures PlannedJobs(a) == Ok([Job(Lone, 28)])
  {
    LoneDemands();
    LoneSizes();
    assert SortByPrefix([Job(Lone, 28)]) == [Job(Lone, 28)] by {
      assert [Job(Lone, 28)][..0] == [];
    }
  }

  lemma LonePlacedAt(at: nat)
    requires at == Net192_168 || at == Net192_168 + 16
    ensures Place([Job(Lone, 28)], at, ExampleBase) == Placed([Allocation(GroupName("A", 1), Network(at, 28))], at + 16)
  {
    ExampleBlockSizes();
    assert [Job(Lone, 28)][1..] == [];
    assert at % 16 == 0;
    assert Candidate(at, 28) == Network(at, 28);
  }

  /** A run of `allocate` for the lone group from a cursor at a /28 boundary
      places it there and moves the cursor past it. */
  lemma LoneRun(a: Allocator, at: nat)
    requires a.routers == [Router("A", [10])] && a.connections == [] && a.mode == VLSM && a.base == ExampleBase
    requires at == Net192_168 || at == Net192_168 + 16
    ensures Run(a, at) == (Ok([Allocation(GroupName("A", 1), Network(at, 28))]), a.(cursor := at + 16))
  {
    LonePlan(a);
    LonePlacedAt(at);
  }

  /** Calling `allocate` twice on one allocator as written: the second call
      starts where the first stopped, so the same single 10-host group moves
      from 192.168.0.0/28 to 192.168.0.16/28. */
  lemma RepeatedAllocateDrifts()
    ensures var a := Allocator([Router("A", [10])], [], VLSM, ExampleBase, Net192_168);
      && AllocateAsWritten(a).0 == Ok([Allocation(GroupName("A", 1), Network(Net192_168, 28))])
      && AllocateAsWritten(AllocateAsWritten(a).1).0 == Ok([Allocation(GroupName("A", 1), Network(Net192_168 + 16, 28))])
  {
    var a := Allocator([Router("A", [10])], [], VLSM, ExampleBase, Net192_168);
    LoneRun(a, Net192_168);
    LoneRun(a.(cursor := Net192_168 + 16), Net192_168 + 16);
  }

  /** The topology the application loads as its example: two routers, with
      groups of 20 and 50 hosts on the first and 10 on the second, joined by
      one link. */
  const LoadedRouters := [Router("Router A", [20, 50, 0, 0]), Router("Router B", [10, 0, 0, 0])]
  const LoadedConnections := [Connection("Router A", "Router B")]
  const LoadedA1 := Group(GroupName("Router A", 1), 20)
  const LoadedA2 := Group(GroupName("Router A", 2), 50)
  const LoadedB1 := Group(GroupName("Router B", 1), 10)
  const LoadedLink := Link(LinkName("Router A", "Router B", 1))
  const LoadedJobs := [Job(LoadedA1, 27), Job(LoadedA2, 26), Job(LoadedB1, 28), Job(LoadedLink, 30)]
  const LoadedOrder := [Job(LoadedA2, 26), Job(LoadedA1, 27), Job(LoadedB1, 28), Job(LoadedLink, 30)]
  const LoadedAllocations := [
    Allocation(GroupName("Router A", 2), Network(Net192_168, 26)),
    Allocation(GroupName("Router A", 1), Network(Net192_168 + 64, 27)),
    Allocation(GroupName("Router B", 1), Network(Net192_168 + 96, 28)),
    Allocation(LinkName("Router A", "Router B", 1), Network(Net192_168 + 112, 30))]

  /** Appending one element to a short literal sequence. */
  lemma Snoc<T>(a: T, b: T, c: T, d: T)
    ensures [] + [a] == [a] && [a] + [b] == [a, b]
    ensures [a, b] + [c] == [a, b, c] && [a, b, c] + [d] == [a, b, c, d]
  {
  }

  lemma LoadedRouterADemands()
    ensures RouterDemands("Router A", [20, 50, 0, 0]) == [LoadedA1, LoadedA2]
  {
    var none: seq<int> := [];
    assert RouterDemands("Router A", none) == [];
    Snoc(20, 50, 0, 0);
    Snoc(LoadedA1, LoadedA2, LoadedA2, LoadedA2);
    RouterDemandsSnoc("Router A", none, 20);
    RouterDemandsSnoc("Router A", [20], 50);
    RouterDemandsSnoc("Router A", [20, 50], 0);
    RouterDemandsSnoc("Router A", [20, 50, 0], 0);
  }

  lemma LoadedRouterBDemands()
    ensures RouterDemands("Router B", [10, 0, 0, 0]) == [LoadedB1]
  {
    var none: seq<int> := [];
    assert RouterDemands("Router B", none) == [];
    Snoc(10, 0, 0, 0);
    Snoc(LoadedB1, LoadedB1, LoadedB1, LoadedB1);
    RouterDemandsSnoc("Router B", none, 10);
    RouterDemandsSnoc("Router B", [10], 0);
    RouterDemandsSnoc("Router B", [10, 0], 0);
    RouterDemandsSnoc("Router B", [10, 0, 0], 0);
  }

  lemma LoadedRouterDemands()
    ensures RouterDemands("Router A", [20, 50, 0, 0]) == [LoadedA1, LoadedA2]
    ensures RouterDemands("Router B", [10, 0, 0, 0]) == [LoadedB1]
  {
    LoadedRouterADemands();
    LoadedRouterBDemands();
  }

  lemma LoadedFirstRouter()
    ensures GroupDemands(LoadedRouters[..1]) == [LoadedA1, LoadedA2]
  {
    LoadedRouterDemands();
    var rs := LoadedRouters[..1];
    assert rs == [Router("Router A", [20, 50, 0, 0])] && rs[..0] == [];
    assert GroupDemands(rs) == GroupDemands([]) + RouterDemands("Router A", [20, 50, 0, 0]);
  }

  lemma LoadedGroupDemands()
    ensures GroupDemands(LoadedRouters) == [LoadedA1, LoadedA2, LoadedB1]
  {
    LoadedRouterDemands();
    LoadedFirstRouter();
    assert LoadedRouters[1] == Router("Router B", [10, 0, 0, 0]);
    assert GroupDemands(LoadedRouters) == GroupDemands(LoadedRouters[..1]) + RouterDemands("Router B", [10, 0, 0, 0]);
  }

  lemma LoadedDemands()
    ensures BuildDemands(LoadedRouters, LoadedConnections) == [LoadedA1, LoadedA2, LoadedB1, LoadedLink]
  {
    LoadedGroupDemands();
    assert LoadedConnections[..0] == [];
    assert LinkDemands(LoadedConnections) == [LoadedLink];
  }

  lemma LoadedDemandSizes()
    ensures SizeDemand(LoadedA1, None) == Ok(27) && SizeDemand(LoadedA2, None) == Ok(26)
    ensures SizeDemand(LoadedB1, None) == Ok(28) && SizeDemand(LoadedLink, None) == Ok(30)
  {
    ResolvesBetweenEntries(20, 27, true);
    ResolvesBetweenEntries(50, 26, true);
    ResolvesBetweenEntries(10, 28, true);
  }

  lemma LoadedSizes()
    ensures SizeDemands([LoadedA1, LoadedA2, LoadedB1, LoadedLink], VLSM) == Ok(LoadedJobs)
  {
    var ds := [LoadedA1, LoadedA2, LoadedB1, LoadedLink];
    LoadedDemandSizes();
    assert forall k :: 0 <= k < |ds| ==> SizeDemand(ds[k], None).Ok?;
    var r := SizeJobs(ds, None);
    assert r.value[0] == LoadedJobs[0] && r.value[1] == LoadedJobs[1];
    assert r.value[2] == LoadedJobs[2] && r.value[3] == LoadedJobs[3];
    assert r.value == LoadedJobs;
  }

  /** Sorting two jobs swaps them when the first has the longer prefix. */
  lemma SortSwapsTwo(a: Job, b: Job)
    requires b.prefix < a.prefix
    ensures SortByPrefix([a, b]) == [b, a]
  {
    var one: seq<Job> := [a];
    var two: seq<Job> := [a, b];
    assert two[..1] == one && two[1] == b && one[..0] == [] && one[0] == a;
    assert SortByPrefix(one) == Insert([], a) == [a];
    assert Insert(one, b) == Insert([], b) + [a] == [b, a];
  }

  /** A third job with a prefix no shorter than both stays at the end. */
  lemma SortThreeSwapsFirstTwo(a: Job, b: Job, c: Job)
    requires b.prefix < a.prefix <= c.prefix
    ensures SortByPrefix([a, b, c]) == [b, a, c]
  {
    assert [a, b, c][..2] == [a, b];
    SortSwapsTwo(a, b);
    assert SortByPrefix([a, b, c]) == Insert([b, a], c);
  }

  lemma LoadedSortedFirstThree()
    ensures SortByPrefix(LoadedJobs[..3]) == [LoadedJobs[1], LoadedJobs[0], LoadedJobs[2]]
  {
    assert LoadedJobs[..3] == [LoadedJobs[0], LoadedJobs[1], LoadedJobs[2]];
    SortThreeSwapsFirstTwo(LoadedJobs[0], LoadedJobs[1], LoadedJobs[2]);
  }

  /** The 50-host group of the first router moves ahead of its 20-host group. */
  lemma LoadedSorted()
    ensures SortByPrefix(LoadedJobs) == LoadedOrder
  {
    LoadedSortedFirstThree();
    assert LoadedJobs[..3] == LoadedJobs[..|LoadedJobs| - 1];
  }

  lemma LoadedBlockSizes()
    ensures BlockSize(26) == 64 && BlockSize(27) == 32 && BlockSize(28) == 16 && BlockSize(30) == 4
  {
  }

  lemma LoadedPlacedTail()
    ensures Place(LoadedOrder[2..], Net192_168 + 96, ExampleBase) == Placed(LoadedAllocations[2..], Net192_168 + 116)
  {
    LoadedBlockSizes();
    ExampleBlockSizes();
    assert LoadedOrder[2..][1..] == LoadedOrder[3..] && LoadedOrder[3..][1..] == [];
    assert Candidate(Net192_168 + 112, 30) == LoadedAllocations[3].network;
    assert Place(LoadedOrder[3..], Net192_168 + 112, ExampleBase) == Placed(LoadedAllocations[3..], Net192_168 + 116);
    assert Candidate(Net192_168 + 96, 28) == LoadedAllocations[2].network;
    assert [LoadedAllocations[2]] + LoadedAllocations[3..] == LoadedAllocations[2..];
  }

  lemma LoadedPlacedSecond()
    ensures Place(LoadedOrder[1..], Net192_168 + 64, ExampleBase) == Placed(LoadedAllocations[1..], Net192_168 + 116)
  {
    LoadedBlockSizes();
    ExampleBlockSizes();
    LoadedPlacedTail();
    assert LoadedOrder[1..][1..] == LoadedOrder[2..];
    assert Candidate(Net192_168 + 64, 27) == LoadedAllocations[1].network;
    assert [LoadedAllocations[1]] + LoadedAllocations[2..] == LoadedAllocations[1..];
  }

  lemma LoadedPlaced()
    ensures Place(LoadedOrder, Net192_168, ExampleBase) == Placed(LoadedAllocations, Net192_168 + 116)
  {
    LoadedBlockSizes();
    ExampleBlockSizes();
    LoadedPlacedSecond();
    assert Candidate(Net192_168, 26) == LoadedAllocations[0].network;
    assert [LoadedAllocations[0]] + LoadedAllocations[1..] == LoadedAllocations;
  }

  /** The example in VLSM within 192.168.0.0/16: the 50-host group gets
      192.168.0.0/26, the 20-host group 192.168.0.64/27, the 10-host group
      192.168.0.96/28 and the link 192.168.0.112/30. */
  lemma LoadedExampleVlsm()
    ensures Plan(LoadedRouters, LoadedConnections, VLSM, Net192_168, 16) == Ok(LoadedAllocations)
  {
    ExampleBlockSizes();
    assert NetworkOf(Net192_168, 16) == Some(ExampleBase);
    LoadedDemands();
    LoadedSizes();
    LoadedSorted();
    LoadedPlaced();
  }
}
