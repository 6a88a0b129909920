/** Per-block arithmetic of the report: the first and last usable host, the
    broadcast address, and the "Extra" block after the last allocation. */
module Report {
  import opened Results
  import opened IPv4
  import opened Sizing
  import opened Placement

  /** First and last usable host address and broadcast address of a block. */
  datatype HostRange = HostRange(first: nat, last: nat, broadcast: nat)

  /** The usable range shown for a block: a one-address block is its own
      first, last and broadcast address; a two-address block uses both of its
      addresses; any larger block leaves out its network and broadcast
      addresses. */
  function UsableRange(n: Network): (r: HostRange)
    ensures r.broadcast == n.Broadcast()
    ensures n.address <= r.first <= r.last <= r.broadcast
    ensures n.Size() <= 2 ==> r.first == n.address && r.last == n.Broadcast()
    ensures n.Size() > 2 ==> r.first == n.address + 1 && r.last == n.Broadcast() - 1
  {
    if n.Size() == 1 then HostRange(n.address, n.address, n.address)
    else if n.Size() == 2 then HostRange(n.address, n.Broadcast(), n.Broadcast())
    else
      assert n.Size() >= 4 by {
        if n.prefix < 32 {
          assert n.Size() == 2 * BlockSize(n.prefix + 1);
        }
      }
      HostRange(n.address + 1, n.Broadcast() - 1, n.Broadcast())
  }

  /** The report and the sizing table agree: a block of any prefix length in
      the table shows exactly the number of usable hosts the table promises
      for it (/30 shows two, the same as /31). */
  lemma UsableCountMatchesTable(n: Network)
    requires MinPrefix <= n.prefix
    ensures UsableRange(n).last - UsableRange(n).first + 1 == PrefixHosts(n.prefix)
  {
    if n.prefix <= 29 {
      TableIsBlockMinusTwo(n.prefix);
      assert n.Size() >= 8 by {
        assert BlockSize(n.prefix) == PrefixHosts(n.prefix) + 2;
      }
    } else {
      assert BlockSize(30) == 4 && BlockSize(31) == 2 && BlockSize(32) == 1;
    }
  }

  /** The "host range" cell of the second table: none for a one-address
      block, otherwise the first and last usable host. */
  function HostRangeCell(n: Network): (r: Option<(nat, nat)>)
    ensures r.Some? <==> n.Size() > 1
    ensures r.Some? ==> r.value == (UsableRange(n).first, UsableRange(n).last)
  {
    if n.Size() > 2 then Some((n.address + 1, n.Broadcast() - 1))
    else if n.Size() == 2 then Some((n.address, n.Broadcast()))
    else None
  }

  /** The "Extra" row: the block of the same prefix length holding the address
      just past the last allocation. `None` when that address is past the end
      of the IPv4 space: there the source's address parser falls back to IPv6
      and the row shows the IPv6 network `::/p`, which this model does not
      represent. */
  function ExtraBlock(last: Network): (r: Option<Network>)
    ensures r.Some? <==> last.address + last.Size() < AddressCount
    ensures r.Some? ==> r.value.prefix == last.prefix && r.value.Valid()
    ensures r.Some? && last.Aligned() ==> r.value.address == last.Broadcast() + 1
  {
    var next := last.address + last.Size();
    if next < AddressCount then
      var block := NetworkOf(next, last.prefix).value;
      assert last.Aligned() ==> block.address == next by {
        if last.Aligned() {
          NextBlockAligned(last);
          if block.address < next {
            MultiplesApart(block.address, next, last.Size());
          }
        }
      }
      Some(block)
    else None
  }

  /** After aligned allocations in ascending order, the "Extra" block lies
      past every one of them. */
  lemma ExtraBlockIsFree(allocs: seq<Allocation>)
    requires |allocs| > 0 && Ascending(allocs)
    requires forall k :: 0 <= k < |allocs| ==> allocs[k].network.Aligned()
    requires ExtraBlock(allocs[|allocs| - 1].network).Some?
    ensures forall k :: 0 <= k < |allocs| ==>
      allocs[k].network.Broadcast() < ExtraBlock(allocs[|allocs| - 1].network).value.address
  {
  }
}
