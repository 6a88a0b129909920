/** The sizing resolver: the table of usable hosts per prefix length and the
    scan that picks the smallest adequate block for a host count. */
module Sizing {
  import opened Results
  import opened IPv4

  /** The scan stops after prefix length 10, the largest block in the table. */
  const MinPrefix := 10

  /** Usable hosts of a /10, the largest request the resolver can satisfy. */
  const MaxHosts := 4194302

  /** `PREFIX_HOSTS`, read with the lookup default of 0 outside /10../32.
      /30 and /31 both give 2 and /32 gives 1, instead of 2^(32 - p) - 2. */
  function PrefixHosts(p: int): nat {
    match p
    case 32 => 1
    case 31 => 2
    case 30 => 2
    case 29 => 6
    case 28 => 14
    case 27 => 30
    case 26 => 62
    case 25 => 126
    case 24 => 254
    case 23 => 510
    case 22 => 1022
    case 21 => 2046
    case 20 => 4094
    case 19 => 8190
    case 18 => 16382
    case 17 => 32766
    case 16 => 65534
    case 15 => 131070
    case 14 => 262142
    case 13 => 524286
    case 12 => 1048574
    case 11 => 2097150
    case 10 => 4194302
    case _ => 0
  }

  /** Below the three overridden entries the table is the classic count of a
      block minus its network and broadcast addresses. */
  lemma {:induction false} TableIsBlockMinusTwo(p: int)
    requires MinPrefix <= p <= 29
    ensures PrefixHosts(p) + 2 == BlockSize(p)
    decreases 29 - p
  {
    if p == 29 {
      assert BlockSize(29) == Pow2(3) == 8;
    } else {
      TableIsBlockMinusTwo(p + 1);
      assert BlockSize(p) == 2 * BlockSize(p + 1);
    }
  }

  /** Every table entry fits in its block; only the one- and two-address
      blocks count every address as usable. */
  lemma TableFitsBlock(p: int)
    requires MinPrefix <= p <= 32
    ensures PrefixHosts(p) <= BlockSize(p)
    ensures PrefixHosts(p) == BlockSize(p) <==> p >= 31
  {
    if p <= 29 {
      TableIsBlockMinusTwo(p);
    } else {
      assert BlockSize(30) == 4 && BlockSize(31) == 2 && BlockSize(32) == 1;
    }
  }

  /** A longer prefix never offers more hosts; it offers strictly fewer except
      between /30 and /31, whose entries are equal. */
  lemma {:induction false} TableDecreasing(p: int, q: int)
    requires MinPrefix <= p < q <= 32
    ensures PrefixHosts(q) <= PrefixHosts(p)
    ensures PrefixHosts(q) < PrefixHosts(p) || (p == 30 && q == 31)
    decreases q - p
  {
    if q > p + 1 {
      TableDecreasing(p, q - 1);
      TableDecreasing(q - 1, q);
    }
  }

  /** No table entry offers more than a /10. */
  lemma TableAtMostMax(p: int)
    requires MinPrefix <= p <= 32
    ensures PrefixHosts(p) <= MaxHosts
  {
    if p > MinPrefix {
      TableDecreasing(MinPrefix, p);
    }
  }

  /** Whether the scan looks at prefix length p: with `forbid_31`, /31 is skipped. */
  predicate Considered(p: int, forbid31: bool) {
    !(forbid31 && p == 31)
  }

  /** The loop of `smallest_prefix_for_hosts` from prefix length p down to
      /10: the first considered prefix whose table entry covers the hosts. */
  function Scan(p: int, hosts: int, forbid31: bool): (r: Option<Prefix>)
    requires MinPrefix - 1 <= p <= 32
    ensures r.Some? ==> MinPrefix <= r.value <= p && Considered(r.value, forbid31)
    ensures r.Some? ==> PrefixHosts(r.value) >= hosts
    ensures r.Some? ==> forall q :: r.value < q <= p && Considered(q, forbid31) ==> PrefixHosts(q) < hosts
    ensures r.None? ==> forall q :: MinPrefix <= q <= p && Considered(q, forbid31) ==> PrefixHosts(q) < hosts
    decreases p
  {
    if p < MinPrefix then None
    else if !Considered(p, forbid31) then Scan(p - 1, hosts, forbid31)
    else if PrefixHosts(p) >= hosts then Some(p)
    else Scan(p - 1, hosts, forbid31)
  }

  datatype SizingError =
    | InvalidDemand     // the host count is not positive
    | CapacityExceeded  // no block in the table is large enough

  /** `smallest_prefix_for_hosts`: the longest prefix length (smallest block)
      between /10 and /32 whose usable hosts cover the request. */
  function SmallestPrefixForHosts(hosts: int, forbid31: bool): (r: Result<Prefix, SizingError>)
    ensures r == Err(InvalidDemand) <==> hosts <= 0
    ensures r == Err(CapacityExceeded) <==> hosts > MaxHosts
    ensures r.Ok? ==> MinPrefix <= r.value <= 32 && PrefixHosts(r.value) >= hosts
    ensures r.Ok? && forbid31 ==> r.value != 31
    ensures r.Ok? ==> forall q :: r.value < q <= 32 && Considered(q, forbid31) ==> PrefixHosts(q) < hosts
  {
    if hosts <= 0 then Err(InvalidDemand)
    else
      match Scan(32, hosts, forbid31)
      case Some(p) =>
        TableAtMostMax(p);
        Ok(p)
      case None =>
        assert PrefixHosts(MinPrefix) < hosts;
        Err(CapacityExceeded)
  }

  /** Every block at least as large as the chosen one also covers the request
      (so the adequate prefix lengths are exactly /10 up to the result, apart
      from a skipped /31), and no smaller block does except a skipped /31. */
  lemma SmallestIsSmallestBlock(hosts: int, forbid31: bool, q: int)
    requires SmallestPrefixForHosts(hosts, forbid31).Ok?
    requires MinPrefix <= q <= 32
    ensures var p := SmallestPrefixForHosts(hosts, forbid31).value;
      PrefixHosts(q) >= hosts <==> q <= p || (forbid31 && q == 31 && p == 30)
  {
    var p := SmallestPrefixForHosts(hosts, forbid31).value;
    if q < p {
      TableDecreasing(q, p);
    } else if q > p && !Considered(q, forbid31) {
      assert q == 31 && PrefixHosts(31) == PrefixHosts(30);
      if p < 30 {
        assert Considered(30, forbid31);
      }
    }
  }

  /** A request above the hosts of the next longer prefix and within those of
      p resolves to p. */
  lemma ResolvesBetweenEntries(hosts: int, p: int, forbid31: bool)
    requires MinPrefix <= p <= 29
    requires PrefixHosts(p + 1) < hosts <= PrefixHosts(p)
    ensures SmallestPrefixForHosts(hosts, forbid31) == Ok(p)
  {
    TableAtMostMax(p);
    TableDecreasing(p, p + 1);
    var r := SmallestPrefixForHosts(hosts, forbid31);
    assert r.Ok?;
    SmallestIsSmallestBlock(hosts, forbid31, p);
    SmallestIsSmallestBlock(hosts, forbid31, p + 1);
  }

  /** Asking for exactly the usable hosts of a table entry other than /30 or
      /31 gives that entry back. */
  lemma RoundTripUntied(p: int, forbid31: bool)
    requires MinPrefix <= p <= 32 && p != 30 && p != 31
    ensures SmallestPrefixForHosts(PrefixHosts(p), forbid31) == Ok(p)
  {
    var hosts := PrefixHosts(p);
    TableAtMostMax(p);
    if p < 32 {
      TableDecreasing(p, 32);
    }
    assert 0 < hosts <= MaxHosts;
    var r := SmallestPrefixForHosts(hosts, forbid31);
    assert r.Ok?;
    SmallestIsSmallestBlock(hosts, forbid31, p);
    assert p <= r.value;
    if r.value > p {
      TableDecreasing(p, r.value);
    }
  }

  /** /30 and /31 both offer two hosts; a request for two resolves to /31
      when it is allowed and to /30 when it is forbidden. */
  lemma RoundTripTied(forbid31: bool)
    ensures SmallestPrefixForHosts(2, forbid31) == Ok(if forbid31 then 30 else 31)
  {
  }

  /** Asking for exactly the usable hosts of a table entry gives that entry
      back, except at the tie between /30 and /31. */
  lemma SizingRoundTrip(p: int, forbid31: bool)
    requires MinPrefix <= p <= 32
    ensures SmallestPrefixForHosts(PrefixHosts(p), forbid31)
      == Ok(if p == 30 || p == 31 then (if forbid31 then 30 else 31) else p)
  {
    if p == 30 || p == 31 {
      RoundTripTied(forbid31);
    } else {
      RoundTripUntied(p, forbid31);
    }
  }

  /** The capacity boundary: 4194302 hosts still fit a /10, one more does not. */
  lemma CapacityBoundary(forbid31: bool)
    ensures SmallestPrefixForHosts(MaxHosts, forbid31) == Ok(10)
    ensures SmallestPrefixForHosts(MaxHosts + 1, forbid31) == Err(CapacityExceeded)
  {
    RoundTripUntied(10, forbid31);
  }
}
