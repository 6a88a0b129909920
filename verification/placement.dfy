/** The placement loop of `Allocator.allocate`: each job in turn is put at the
    cursor rounded up to its block size, must lie inside the base network,
    and moves the cursor to the address after its block. */
module Placement {
  import opened IPv4
  import opened Demands
  import opened Jobs

  /** A placed subnet: the demand's name and its block. */
  datatype Allocation = Allocation(name: DemandName, network: Network)

  /** The end of the loop: every job placed, or the job that did not fit.
      Either way the cursor is where the loop left it. */
  datatype Outcome =
    | Placed(allocations: seq<Allocation>, cursor: nat)
    | Stuck(name: DemandName, prefix: Prefix, cursor: nat)

  /** The candidate block for prefix p at the cursor. */
  function Candidate(cursor: nat, p: Prefix): Network {
    Network(RoundUpToNetwork(cursor, p), p)
  }

  /** Sum of the block sizes of the allocations. */
  function TotalSize(allocs: seq<Allocation>): nat
    decreases |allocs|
  {
    if |allocs| == 0 then 0 else allocs[0].network.Size() + TotalSize(allocs[1..])
  }

  /** Blocks in strictly increasing address order, none overlapping the next. */
  predicate Ascending(allocs: seq<Allocation>) {
    forall i, j :: 0 <= i < j < |allocs| ==> allocs[i].network.Broadcast() < allocs[j].network.address
  }

  /** One allocation per job, in the same order, under the job's name and
      with the job's prefix length. */
  predicate Labelled(allocs: seq<Allocation>, jobs: seq<Job>) {
    && |allocs| == |jobs|
    && forall k :: 0 <= k < |jobs| ==>
         allocs[k].name == jobs[k].demand.name && allocs[k].network.prefix == jobs[k].prefix
  }

  /** The blocks of a run from `cursor` that left the cursor at `end`: each is
      aligned, inside the base network, at or after the starting cursor and
      before the end; they ascend without overlap, take no more room than the
      cursor moved over, and the end is just past the last block. */
  predicate LaidOut(allocs: seq<Allocation>, cursor: nat, end: nat, base: Network) {
    && (forall k :: 0 <= k < |allocs| ==>
          && allocs[k].network.Aligned() && allocs[k].network.Within(base)
          && cursor <= allocs[k].network.address && allocs[k].network.Broadcast() < end)
    && Ascending(allocs)
    && cursor + TotalSize(allocs) <= end
    && end == if |allocs| == 0 then cursor else allocs[|allocs| - 1].network.Broadcast() + 1
  }

  /** Some job has this name and prefix length. */
  predicate JobOf(name: DemandName, prefix: Prefix, jobs: seq<Job>) {
    exists k :: 0 <= k < |jobs| && jobs[k].demand.name == name && jobs[k].prefix == prefix
  }

  /** Every block lies inside the base network. */
  predicate Fits(allocs: seq<Allocation>, base: Network) {
    forall k :: 0 <= k < |allocs| ==> allocs[k].network.Within(base)
  }

  /** The cursor after the blocks: just past the last one, or where it
      started when there are none. */
  predicate EndsAt(allocs: seq<Allocation>, cursor: nat, end: nat) {
    end == if |allocs| == 0 then cursor else allocs[|allocs| - 1].network.Broadcast() + 1
  }

  /** Where each block lands: one block per job, the first at the starting
      cursor rounded up to its block size, and every later one at the address
      just past the previous block rounded up to its own block size. */
  predicate RoundedUp(allocs: seq<Allocation>, cursor: nat, jobs: seq<Job>) {
    && |allocs| == |jobs|
    && (|allocs| > 0 ==> allocs[0].network.address == RoundUpToNetwork(cursor, jobs[0].prefix))
    && forall k :: 0 < k < |allocs| ==>
         allocs[k].network.address == RoundUpToNetwork(allocs[k - 1].network.Broadcast() + 1, jobs[k].prefix)
  }

  /** The placement rule on its own, with no base network to stop it: each
      job's block at the cursor rounded up to its block size, and the cursor
      then just past that block. */
  function Layout(jobs: seq<Job>, cursor: nat): (allocs: seq<Allocation>)
    ensures |allocs| == |jobs|
    decreases |jobs|
  {
    if |jobs| == 0 then []
    else
      var net := Candidate(cursor, jobs[0].prefix);
      [Allocation(jobs[0].demand.name, net)] + Layout(jobs[1..], net.address + net.Size())
  }

  /** Where a run from the cursor stops at job k: the layout's blocks before
      job k all fit in the base network, the block of job k does not, the
      failure names job k, and the cursor is just past the blocks placed. */
  predicate StopsAt(jobs: seq<Job>, cursor: nat, base: Network, k: int, name: DemandName, prefix: Prefix, end: nat) {
    && 0 <= k < |jobs|
    && Fits(Layout(jobs, cursor)[..k], base)
    && !Layout(jobs, cursor)[k].network.Within(base)
    && name == jobs[k].demand.name && prefix == jobs[k].prefix
    && EndsAt(Layout(jobs, cursor)[..k], cursor, end)
  }

  /** Places the jobs in order starting from the cursor. A successful run is
      exactly the layout of the placement rule from the cursor, every block
      inside the base network, with the cursor left just past the last block.
      The run succeeds exactly when the whole layout fits. Otherwise it stops
      at the first job whose block does not fit, with the cursor just past the
      blocks placed before it. The cursor never moves backwards. */
  function Place(jobs: seq<Job>, cursor: nat, base: Network): (r: Outcome)
    ensures cursor <= r.cursor
    ensures r.Placed? ==>
      && r.allocations == Layout(jobs, cursor)
      && Fits(r.allocations, base)
      && EndsAt(r.allocations, cursor, r.cursor)
    ensures r.Stuck? ==> JobOf(r.name, r.prefix, jobs) && !Candidate(r.cursor, r.prefix).Within(base)
    ensures r.Stuck? ==> !Fits(Layout(jobs, cursor), base)
    ensures r.Stuck? ==> exists k :: StopsAt(jobs, cursor, base, k, r.name, r.prefix, r.cursor)
    decreases |jobs|
  {
    if |jobs| == 0 then Placed([], cursor)
    else
      var job := jobs[0];
      var net := Candidate(cursor, job.prefix);
      if !net.Within(base) then
        assert jobs[0] == job;
        StuckHere(jobs, cursor, base);
        Stuck(job.demand.name, job.prefix, cursor)
      else
        var next := net.address + net.Size();
        var tail := Place(jobs[1..], next, base);
        if tail.Placed? then
          ConsLayout(jobs, cursor, tail.allocations);
          ConsFits(Allocation(job.demand.name, net), tail.allocations, cursor, tail.cursor, base);
          Placed([Allocation(job.demand.name, net)] + tail.allocations, tail.cursor)
        else
          JobOfTail(jobs, tail.name, tail.prefix);
          StuckLater(jobs, cursor, next, base, tail.name, tail.prefix, tail.cursor);
          tail
  }

  /** The layout of a list is its first block followed by the layout of the
      rest from just past that block. */
  lemma ConsLayout(jobs: seq<Job>, cursor: nat, rest: seq<Allocation>)
    requires |jobs| > 0
    requires var net := Candidate(cursor, jobs[0].prefix); rest == Layout(jobs[1..], net.address + net.Size())
    ensures [Allocation(jobs[0].demand.name, Candidate(cursor, jobs[0].prefix))] + rest == Layout(jobs, cursor)
  {
  }

  /** A block inside the base network, followed by blocks inside it that
      leave the cursor at `end`, are all inside it and leave it there too. */
  lemma ConsFits(first: Allocation, rest: seq<Allocation>, cursor: nat, end: nat, base: Network)
    requires first.network.Within(base) && Fits(rest, base)
    requires EndsAt(rest, first.network.address + first.network.Size(), end)
    ensures Fits([first] + rest, base) && EndsAt([first] + rest, cursor, end)
  {
    var allocs := [first] + rest;
    forall k | 1 <= k < |allocs|
      ensures allocs[k] == rest[k - 1]
    {
    }
    if |rest| > 0 {
      assert allocs[|allocs| - 1] == rest[|rest| - 1];
    }
  }

  /** A first block that does not fit stops the run at job 0, with the cursor
      unmoved, and the layout as a whole does not fit. */
  lemma StuckHere(jobs: seq<Job>, cursor: nat, base: Network)
    requires |jobs| > 0 && !Candidate(cursor, jobs[0].prefix).Within(base)
    ensures StopsAt(jobs, cursor, base, 0, jobs[0].demand.name, jobs[0].prefix, cursor)
    ensures !Fits(Layout(jobs, cursor), base)
  {
    var l := Layout(jobs, cursor);
    assert l[0].network == Candidate(cursor, jobs[0].prefix);
    assert l[..0] == [];
  }

  /** When the first block fits and the run from just past it stops at job k
      of the rest, the whole run stops at job k + 1, and the layout as a
      whole does not fit. */
  lemma StuckLater(jobs: seq<Job>, cursor: nat, next: nat, base: Network, name: DemandName, prefix: Prefix, end: nat)
    requires |jobs| > 0 && Candidate(cursor, jobs[0].prefix).Within(base)
    requires next == Candidate(cursor, jobs[0].prefix).address + Candidate(cursor, jobs[0].prefix).Size()
    requires exists k :: StopsAt(jobs[1..], next, base, k, name, prefix, end)
    ensures exists k :: StopsAt(jobs, cursor, base, k, name, prefix, end)
    ensures !Fits(Layout(jobs, cursor), base)
  {
    var net := Candidate(cursor, jobs[0].prefix);
    var first := Allocation(jobs[0].demand.name, net);
    var tail := Layout(jobs[1..], next);
    var k :| StopsAt(jobs[1..], next, base, k, name, prefix, end);
    var l := Layout(jobs, cursor);
    ConsLayout(jobs, cursor, tail);
    assert l[..k + 1] == [first] + tail[..k];
    assert l[k + 1] == tail[k] && jobs[k + 1] == jobs[1..][k];
    ConsFits(first, tail[..k], cursor, end, base);
    assert StopsAt(jobs, cursor, base, k + 1, name, prefix, end);
  }

  /** A job of the tail is a job of the list. */
  lemma JobOfTail(jobs: seq<Job>, name: DemandName, prefix: Prefix)
    requires |jobs| > 0 && JobOf(name, prefix, jobs[1..])
    ensures JobOf(name, prefix, jobs)
  {
    var k :| 0 <= k < |jobs[1..]| && jobs[1..][k].demand.name == name && jobs[1..][k].prefix == prefix;
    assert jobs[k + 1] == jobs[1..][k];
  }

  /** Everything a successful run promises about its blocks: one per job with
      the job's name and prefix, placed by the rounding rule, and laid out
      from the cursor as `LaidOut` says. */
  lemma PlacedLaidOut(jobs: seq<Job>, cursor: nat, base: Network)
    requires Place(jobs, cursor, base).Placed?
    ensures var r := Place(jobs, cursor, base);
      && Labelled(r.allocations, jobs)
      && RoundedUp(r.allocations, cursor, jobs)
      && LaidOut(r.allocations, cursor, r.cursor, base)
  {
    var r := Place(jobs, cursor, base);
    LayoutLabelled(jobs, cursor);
    LayoutRoundsUp(jobs, cursor);
    LayoutLaidOut(jobs, cursor, r.cursor, base);
  }

  /** A layout that fits in the base network is aligned, ascending and no
      larger than the room the cursor moved over. */
  lemma {:induction false} LayoutLaidOut(jobs: seq<Job>, cursor: nat, end: nat, base: Network)
    requires Fits(Layout(jobs, cursor), base) && EndsAt(Layout(jobs, cursor), cursor, end)
    ensures LaidOut(Layout(jobs, cursor), cursor, end, base)
    decreases |jobs|
  {
    if |jobs| > 0 {
      var net := Candidate(cursor, jobs[0].prefix);
      var next := net.address + net.Size();
      var first, rest := Allocation(jobs[0].demand.name, net), Layout(jobs[1..], next);
      var allocs := Layout(jobs, cursor);
      assert allocs == [first] + rest;
      assert Fits(rest, base) by {
        forall k | 0 <= k < |rest| ensures rest[k].network.Within(base) {
          assert rest[k] == allocs[k + 1];
        }
      }
      assert EndsAt(rest, next, end) by {
        if |rest| > 0 {
          assert rest[|rest| - 1] == allocs[|allocs| - 1];
        }
      }
      LayoutLaidOut(jobs[1..], next, end, base);
      assert allocs[0] == first;
      ConsPlaced(first, rest, cursor, end, base);
    }
  }

  /** A block placed at or after the cursor, followed by blocks laid out from
      just past it, lays out the whole list. */
  lemma ConsPlaced(first: Allocation, rest: seq<Allocation>, cursor: nat, end: nat, base: Network)
    requires first.network.Aligned() && first.network.Within(base) && cursor <= first.network.address
    requires LaidOut(rest, first.network.address + first.network.Size(), end, base)
    ensures LaidOut([first] + rest, cursor, end, base)
  {
    var allocs := [first] + rest;
    assert allocs[1..] == rest;
    forall k | 1 <= k < |allocs|
      ensures allocs[k] == rest[k - 1]
    {
    }
  }

  /** The layout has one block per job, under the job's name and with the
      job's prefix length. */
  lemma {:induction false} LayoutLabelled(jobs: seq<Job>, cursor: nat)
    ensures Labelled(Layout(jobs, cursor), jobs)
    decreases |jobs|
  {
    if |jobs| > 0 {
      var net := Candidate(cursor, jobs[0].prefix);
      var rest := Layout(jobs[1..], net.address + net.Size());
      LayoutLabelled(jobs[1..], net.address + net.Size());
      var allocs := Layout(jobs, cursor);
      assert allocs == [Allocation(jobs[0].demand.name, net)] + rest;
      forall k | 1 <= k < |allocs|
        ensures allocs[k].name == jobs[k].demand.name && allocs[k].network.prefix == jobs[k].prefix
      {
        assert allocs[k] == rest[k - 1] && jobs[1..][k - 1] == jobs[k];
      }
    }
  }

  /** A block at the rounded-up cursor, followed by blocks placed by the rule
      from just past it, follows the rule as a whole. */
  lemma ConsRoundedUp(jobs: seq<Job>, first: Allocation, rest: seq<Allocation>, cursor: nat)
    requires |jobs| > 0 && first.network.address == RoundUpToNetwork(cursor, jobs[0].prefix)
    requires RoundedUp(rest, first.network.Broadcast() + 1, jobs[1..])
    ensures RoundedUp([first] + rest, cursor, jobs)
  {
    var allocs := [first] + rest;
    forall k | 1 <= k < |allocs|
      ensures allocs[k].network.address
        == RoundUpToNetwork(allocs[k - 1].network.Broadcast() + 1, jobs[k].prefix)
    {
      assert allocs[k] == rest[k - 1] && jobs[1..][k - 1] == jobs[k];
      if k > 1 {
        assert allocs[k - 1] == rest[k - 2];
      }
    }
  }

  /** The layout puts the first block at the cursor rounded up to its size
      and every later block at the address just past the previous one,
      rounded up to its own size. */
  lemma {:induction false} LayoutRoundsUp(jobs: seq<Job>, cursor: nat)
    ensures RoundedUp(Layout(jobs, cursor), cursor, jobs)
    decreases |jobs|
  {
    if |jobs| > 0 {
      var net := Candidate(cursor, jobs[0].prefix);
      LayoutRoundsUp(jobs[1..], net.address + net.Size());
      ConsRoundedUp(jobs, Allocation(jobs[0].demand.name, net), Layout(jobs[1..], net.address + net.Size()), cursor);
    }
  }

  /** When a job is stuck and the cursor never fell below the base network,
      no aligned block of its prefix length fits anywhere in the base network
      at or after the cursor: the base network is really exhausted. */
  lemma StuckMeansNoRoom(jobs: seq<Job>, cursor: nat, base: Network, m: nat)
    requires base.address <= cursor
    requires Place(jobs, cursor, base).Stuck?
    requires Place(jobs, cursor, base).cursor <= m
    requires m % BlockSize(Place(jobs, cursor, base).prefix) == 0
    ensures !Network(m, Place(jobs, cursor, base).prefix).Within(base)
  {
    var r := Place(jobs, cursor, base);
    RoundUpIsLeast(r.cursor, r.prefix, m);
  }
}
