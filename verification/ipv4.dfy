/** IPv4 address arithmetic: addresses are naturals below 2^32, a block of
    prefix length p holds 2^(32 - p) addresses and starts on a multiple of
    its own size. */
module IPv4 {
  import opened Results

  /** Number of IPv4 addresses, 2^32. */
  const AddressCount: nat := 0x1_0000_0000

  type Prefix = p: int | 0 <= p <= 32

  function Pow2(n: nat): (r: nat)
    ensures r >= 1
  {
    if n == 0 then 1 else 2 * Pow2(n - 1)
  }

  lemma {:induction false} Pow2Add(a: nat, b: nat)
    ensures Pow2(a + b) == Pow2(a) * Pow2(b)
    decreases a
  {
    if a > 0 {
      Pow2Add(a - 1, b);
      assert Pow2(a + b) == 2 * Pow2(a - 1 + b);
    }
  }

  /** Number of addresses in a block of prefix length p (`1 << (32 - p)`). */
  function BlockSize(p: Prefix): (r: nat)
    ensures r >= 1
  {
    Pow2(32 - p)
  }

  /** A block of any prefix length tiles the address space exactly. */
  lemma BlockTilesAddressSpace(p: Prefix)
    ensures Pow2(p) * BlockSize(p) == AddressCount
  {
    AddressCountIsPow2();
    Pow2Add(32 - p, p);
    assert Pow2(32 - p) * Pow2(p) == Pow2(p) * Pow2(32 - p);
  }

  lemma AddressCountIsPow2()
    ensures Pow2(32) == AddressCount
  {
    Pow2Add(8, 8);
    Pow2Add(16, 16);
  }

  lemma MulNonneg(x: int, y: int)
    requires x >= 0 && y >= 0
    ensures x * y >= 0
  {
  }

  /** Euclidean division is determined by any quotient/remainder pair. */
  lemma DivModUnique(a: int, b: int, q: int, r: int)
    requires b > 0 && 0 <= r < b && a == q * b + r
    ensures a / b == q && a % b == r
  {
    var q0, r0 := a / b, a % b;
    assert a == q0 * b + r0;
    var d := q - q0;
    assert d * b == r0 - r;
    if d >= 1 {
      MulNonneg(d - 1, b);
    } else if d <= -1 {
      MulNonneg(-d - 1, b);
    }
  }

  /** A multiple of b leaves no remainder. */
  lemma MultipleMod(k: int, b: int)
    requires b > 0
    ensures (k * b) % b == 0 && (k * b) / b == k
  {
    DivModUnique(k * b, b, k, 0);
  }

  /** The multiple of b at or below a, and the next one above it. */
  lemma FloorFacts(a: nat, b: int)
    requires b > 0
    ensures (a / b) * b <= a < (a / b) * b + b
    ensures ((a / b) * b) % b == 0 && ((a / b) * b + b) % b == 0
    ensures a % b == 0 ==> (a / b) * b == a
  {
    var q := a / b;
    assert a == q * b + a % b;
    MultipleMod(q, b);
    MultipleMod(q + 1, b);
    assert (q + 1) * b == q * b + b;
  }

  /** Distinct multiples of b are at least b apart. */
  lemma MultiplesApart(m: nat, n: nat, b: nat)
    requires b > 0 && m % b == 0 && n % b == 0 && m < n
    ensures m + b <= n
  {
    var i, j := m / b, n / b;
    assert m == i * b && n == j * b;
    var d := j - i;
    assert d * b == n - m;
    if d <= 0 {
      MulNonneg(-d, b);
    } else {
      MulNonneg(d - 1, b);
    }
  }

  /** `roundup_to_network`: the address rounded up to the next boundary of a
      block of prefix length p (unchanged when it is already on one). */
  function RoundUpToNetwork(a: nat, p: Prefix): (r: nat)
    ensures a <= r < a + BlockSize(p)
    ensures r % BlockSize(p) == 0
    ensures a % BlockSize(p) == 0 ==> r == a
  {
    var block := BlockSize(p);
    FloorFacts(a, block);
    var net := (a / block) * block;
    if net < a then net + block else net
  }

  /** The round-up is the least aligned address not below the input. */
  lemma RoundUpIsLeast(a: nat, p: Prefix, m: nat)
    requires a <= m && m % BlockSize(p) == 0
    ensures RoundUpToNetwork(a, p) <= m
  {
    var r := RoundUpToNetwork(a, p);
    if m < r {
      MultiplesApart(m, r, BlockSize(p));
    }
  }

  /** A CIDR block: network address and prefix length. */
  datatype Network = Network(address: nat, prefix: Prefix) {

    function Size(): nat {
      BlockSize(prefix)
    }

    /** Last address of the block. */
    function Broadcast(): nat {
      address + Size() - 1
    }

    /** The network address is a multiple of the block size. */
    predicate Aligned() {
      address % Size() == 0
    }

    /** An aligned block that lies entirely inside the IPv4 address space. */
    predicate Valid() {
      Aligned() && Broadcast() < AddressCount
    }

    predicate Contains(a: int) {
      address <= a <= Broadcast()
    }

    predicate Within(outer: Network) {
      outer.address <= address && Broadcast() <= outer.Broadcast()
    }
  }

  /** The address just past an aligned block is on a boundary of its size. */
  lemma NextBlockAligned(n: Network)
    requires n.Aligned()
    ensures (n.address + n.Size()) % n.Size() == 0
  {
    FloorFacts(n.address, n.Size());
  }

  predicate Disjoint(n: Network, m: Network) {
    n.Broadcast() < m.address || m.Broadcast() < n.address
  }

  /** Disjoint blocks share no address. */
  lemma DisjointMeansNoCommonAddress(n: Network, m: Network, a: int)
    requires Disjoint(n, m)
    ensures !(n.Contains(a) && m.Contains(a))
  {
  }

  lemma AddressCountAligned(p: Prefix)
    ensures AddressCount % BlockSize(p) == 0
  {
    BlockTilesAddressSpace(p);
    MultipleMod(Pow2(p), BlockSize(p));
  }

  /** The largest multiple of b not above a, inside a range that b tiles. */
  function RoundDown(a: nat, b: nat, total: nat): (r: nat)
    requires b > 0 && a < total && total % b == 0
    ensures r % b == 0
    ensures r <= a < r + b <= total
  {
    FloorFacts(a, b);
    MultiplesApart((a / b) * b, total, b);
    (a / b) * b
  }

  /** Clearing the host bits of an address: the start of the aligned block
      of prefix length p that holds it, which stays inside the address space. */
  function ClearHostBits(address: nat, p: Prefix): (net: nat)
    requires address < AddressCount
    ensures net % BlockSize(p) == 0
    ensures net <= address < net + BlockSize(p) <= AddressCount
  {
    AddressCountAligned(p);
    RoundDown(address, BlockSize(p), AddressCount)
  }

  /** `ipaddress.ip_network((address, prefix), strict=False)`: the block of the
      given prefix length that holds the address; `None` when the address or
      the prefix length is out of range. */
  function NetworkOf(address: int, prefix: int): (r: Option<Network>)
    ensures r.Some? <==> 0 <= address < AddressCount && 0 <= prefix <= 32
    ensures r.Some? ==> r.value.prefix == prefix && r.value.Valid() && r.value.Contains(address)
  {
    if 0 <= address < AddressCount && 0 <= prefix <= 32 then
      Some(Network(ClearHostBits(address, prefix), prefix))
    else
      None
  }
}
