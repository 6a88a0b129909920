# OctetLab subnet allocator in Dafny

OctetLab is a desktop tool for planning IPv4 addressing. The user draws
routers, each with up to four LAN groups that ask for a number of hosts, and
links between them. Within a base network the tool then gives every group
and every link a subnet, using either VLSM (each group sized for its own host
count) or FLSM (every group sized for the largest one). This project models
the allocation core of `OctetLab.py` and proves its properties:

- the prefix-to-hosts table and `smallest_prefix_for_hosts` (module `Sizing`);
- `roundup_to_network` and the block arithmetic of `ipaddress` (module `IPv4`);
- `Allocator.__init__` and `Allocator.allocate`. The work is split into
  building the demands (`Demands`), sizing them (`Jobs`), the stable sort by
  prefix length (`Ordering`), the placement loop (`Placement`) and the
  allocator itself (`Engine`);
- the per-block figures of the report that `generate` shows (`Report`);
- worked plans, including the example the application loads (`Scenarios`).

Addresses are naturals below 2^32. A network is an address together with a
prefix length. Demand names are kept as structured values rather than
formatted strings: `A-G1` is `GroupName("A", 1)` and `A-B-link1` is
`LinkName("A", "B", 1)`. The base network is given as an address and a
prefix length instead of text. The application's exceptions become `Result`
values:

- `SizingFailed` for a host count the resolver rejects;
- `OutOfSpace` for a job that does not fit in the base network;
- `InvalidBaseNetwork` for a base network out of range.

Two consequences of the code that are easy to miss:

- A /30 shows network+1 to broadcast-1 as its usable range; only a /31
  shows both of its addresses.
- With /31 allowed, two hosts resolve to /31, so asking for the hosts of /30
  does not give /30 back (`Sizing.SizingRoundTrip`).

## Model

| member | source | states |
|---|---|---|
| `IPv4.BlockTilesAddressSpace` | OctetLab.py:48 | 2^p blocks of prefix length p cover exactly the 2^32 IPv4 addresses |
| `IPv4.RoundUpToNetwork` | OctetLab.py:47-52 | the result is a multiple of the block size. It is not below the address and less than one block above it, and an address already on a boundary is returned unchanged |
| `IPv4.RoundUpIsLeast` | OctetLab.py:47-52 | no block boundary lies between the address and its round-up: every aligned address at or above the input is at or above the result |
| `IPv4.NetworkOf` | OctetLab.py:82 | a non-strict network exists exactly when the address and the prefix length are in range. It then has that prefix length, is aligned, lies inside the address space and holds the address |
| `Sizing.TableIsBlockMinusTwo` | OctetLab.py:15-34 | from /10 to /29 every table entry is the block size minus the network and broadcast addresses |
| `Sizing.TableFitsBlock` | OctetLab.py:11-35 | every entry fits in its block. It fills the whole block exactly for /31 and /32 |
| `Sizing.TableDecreasing` | OctetLab.py:11-35 | a longer prefix never offers more hosts. It offers strictly fewer except /31 against /30 |
| `Sizing.Scan` | OctetLab.py:40-44 | the scan from prefix p down to /10 returns the first considered prefix whose entry covers the request, so no longer considered prefix covers it. It returns nothing only when no considered prefix covers the request |
| `Sizing.SmallestPrefixForHosts` | OctetLab.py:37-45 | a non-positive request fails as invalid and one above the /10 entry fails as too large, each exactly then. Otherwise the result lies in /10../32 and covers the request, is never /31 when /31 is forbidden, and no longer considered prefix covers the request |
| `Sizing.SmallestIsSmallestBlock` | OctetLab.py:37-45 | a table entry covers the request exactly for the prefixes up to the result, plus a skipped /31 when the result is /30 |
| `Sizing.ResolvesBetweenEntries` | OctetLab.py:40-44 | a request above the hosts of /p+1 and within those of /p resolves to /p |
| `Sizing.RoundTripUntied` | OctetLab.py:37-45 | asking for exactly the hosts of /p gives /p back for every p other than /30 and /31 |
| `Sizing.RoundTripTied` | OctetLab.py:41-44 | two hosts resolve to /31 when /31 is allowed and to /30 when it is skipped |
| `Sizing.SizingRoundTrip` | OctetLab.py:37-45 | asking for exactly the hosts of /p gives /p, except that /30 gives /31 when /31 is allowed |
| `Sizing.CapacityBoundary` | OctetLab.py:34-45 | 4194302 hosts resolve to /10, and one more host is too large |
| `Demands.RouterDemands` | OctetLab.py:90-92 | each demand of a router is one of its groups with a positive count, under its 1-based number. Every such group appears, in increasing group order |
| `Demands.RouterDemandsSnoc` | OctetLab.py:90-92 | one more group adds its demand at the end, under its 1-based number, exactly when its host count is positive |
| `Demands.GroupDemands` | OctetLab.py:89-92 | every group demand is a group with a positive host count |
| `Demands.GroupDemandsInRouterOrder` | OctetLab.py:89-92 | with distinct router names, every group demand of an earlier router comes before every group demand of a later router |
| `Demands.GroupDemandsAppend` | OctetLab.py:89-92 | the group demands of two router lists joined are those of the first list followed by those of the second |
| `Demands.GroupDemandsSound` | OctetLab.py:89-92 | every group demand comes from one of the routers |
| `Demands.GroupDemandsComplete` | OctetLab.py:89-92 | every demand of every router is among the group demands |
| `Demands.GroupDemandIff` | OctetLab.py:90-92 | a group yields a demand exactly when its host count is positive |
| `Demands.LinkDemands` | OctetLab.py:93-95 | one link demand per connection, named by its routers and numbered from 1 in connection order |
| `Demands.BuildDemands` | OctetLab.py:88-95 | the demand list is the group demands followed by one link per connection. Every demand asks for a positive number of hosts, and a demand is a group exactly when its name is a group name |
| `Demands.DemandNamesUnique` | OctetLab.py:88-95 | with distinct router names, no two demands share a name |
| `Demands.GroupNamesUnique` | OctetLab.py:89-92 | with distinct router names, no two group demands share a name |
| `Jobs.MaxGroupHosts` | OctetLab.py:99-101 | the FLSM reference size is the host count of some group and no group asks for more |
| `Jobs.SizeJobs` | OctetLab.py:103-112 | sizing succeeds exactly when every demand can be sized, and keeps every demand in order with its prefix. A failure is the error of the first demand that cannot be sized |
| `Jobs.SizeDemands` | OctetLab.py:97-112 | links get /30 and every prefix covers its demand. In VLSM each group gets the resolver's answer for its own count. In FLSM every group gets the answer for the largest count, so all groups share one prefix. Sizing fails exactly when a group count (VLSM) or the largest count (FLSM) is outside 1..4194302 |
| `Ordering.Insert` | OctetLab.py:113 | inserting keeps every job, adding exactly the inserted one |
| `Ordering.InsertKeepsSorted` | OctetLab.py:113 | inserting into jobs sorted by prefix keeps them sorted |
| `Ordering.InsertKeepsOrder` | OctetLab.py:113 | inserting appends the job to those of its own prefix length and leaves every other length untouched |
| `Ordering.SortByPrefix` | OctetLab.py:113 | the sort is a permutation ascending by prefix length. For every prefix length it keeps the jobs of that length in input order, so the sort is stable |
| `Placement.Place` | OctetLab.py:115-123 | a run fails exactly when some block of `Layout` (the placement rule run from the starting cursor with no base network) leaves the base network. On success the blocks are exactly `Layout`, every block lies inside the base network and the cursor ends just past the last block. On failure the run names the first job whose `Layout` block leaves the base network, with its prefix length, and the cursor is just past the blocks placed before it (`StopsAt`). The cursor never moves backwards |
| `Placement.StuckHere` | OctetLab.py:115-120 | when the first job's block does not fit, the run stops at job 0 with the cursor where it started, and the layout does not fit |
| `Placement.StuckLater` | OctetLab.py:115-122 | when the first block fits and the rest of the run stops at job k, the whole run stops at job k+1 at the same cursor, and the layout does not fit |
| `Placement.LayoutRoundsUp` | OctetLab.py:115-122 | the placement rule puts the first block at the starting cursor rounded up to its block size, and every later block at the address just past the previous block rounded up to its own block size |
| `Placement.LayoutLabelled` | OctetLab.py:115-121 | the placement rule gives one block per job, in order, with the job's name and prefix length |
| `Placement.LayoutLaidOut` | OctetLab.py:115-123 | a layout whose blocks all fit in the base network has every block aligned and between the starting and final cursor. The blocks ascend without overlap and take no more room than the cursor moved over |
| `Placement.PlacedLaidOut` | OctetLab.py:115-123 | a successful placement has one block per job with its name and prefix, follows the round-up rule block by block, and is laid out as `LayoutLaidOut` says |
| `Placement.StuckMeansNoRoom` | OctetLab.py:116-120 | when a job is stuck, no aligned block of its prefix length fits in the base network at or after the cursor the run reached |
| `Engine.NewAllocator` | OctetLab.py:78-84 | the allocator exists exactly when the base address and prefix are in range. Its base network is the aligned block holding the address, and the cursor starts at its network address |
| `Engine.AllocateAsWritten` | OctetLab.py:86-124 | of the modelled state (inputs, base network and cursor), `allocate` as written changes only the cursor and never moves it backwards |
| `Engine.Allocate` | OctetLab.py:86-124 | of the modelled state, the corrected `allocate` changes only the cursor. After a success the cursor has passed all placed blocks and is at most one past the end of the base network |
| `Engine.FreshAllocatorAgrees` | OctetLab.py:83 | on a freshly built allocator both definitions of `allocate` agree |
| `Engine.AllocateIsRepeatable` | OctetLab.py:86-124 | with the corrected definition a second call returns the same allocations |
| `Engine.Plan` | OctetLab.py:455-462 | planning fails as an invalid base network exactly when the base is out of range. Otherwise its result, success or failure, is that of one `allocate` on a fresh allocator |
| `Engine.AllocationsInBase` | OctetLab.py:115-123 | every allocation is aligned to its size and inside the base network. They ascend by address, and their total size fits in the base network |
| `Engine.AllocationsRoundUp` | OctetLab.py:115-122 | the first allocation starts at the base network address rounded up to its block size. Every later one starts just past the previous block, rounded up to its own block size |
| `Engine.AllocationsDisjoint` | OctetLab.py:115-123 | no two allocations overlap |
| `Engine.AllocationPrefixesAscend` | OctetLab.py:113-115 | allocations come out in ascending prefix length, largest block first |
| `Engine.AllocationsMatchDemands` | OctetLab.py:88-124 | there are as many allocations as demands. Each allocation serves a demand (same name, enough hosts) and each demand is served by one |
| `Engine.LinksGetSlash30` | OctetLab.py:105-106 | every link gets a /30 |
| `Engine.FlsmGroupsShareOnePrefix` | OctetLab.py:97-110 | in FLSM all group allocations have the same prefix length |
| `Engine.VlsmGroupsSizedAlone` | OctetLab.py:107-111 | in VLSM a group's allocation has the prefix the resolver picks for that group's own host count |
| `Engine.AllocateFailure` | OctetLab.py:86-124 | `allocate` fails in sizing exactly when a demand cannot be sized. Once sizing succeeds, it succeeds exactly when the layout of the sorted jobs from the base address fits in the base network, and fails with OutOfSpace exactly when it does not. The failure names the first job whose block does not fit, with the cursor just past the blocks placed before it, and that name is one of the demands'. `allocate` never reports an invalid base |
| `Engine.JobIsDemand` | OctetLab.py:103-113 | every sized and sorted job carries the name of one of the demands |
| `Engine.OutOfSpaceIsGenuine` | OctetLab.py:115-120 | when a job does not fit, the run reached the cursor just past the blocks placed before that job, and no aligned block of its prefix length fits in the base network at or past that cursor |
| `Report.UsableRange` | OctetLab.py:477-487 | the broadcast is the block's last address. A block of one or two addresses shows all of them as usable, and a larger block leaves out its network and broadcast addresses |
| `Report.UsableCountMatchesTable` | OctetLab.py:477-487 | for every prefix length in the table, the usable range shown has exactly as many addresses as the table promises |
| `Report.HostRangeCell` | OctetLab.py:494-499 | the host-range cell is absent exactly for a one-address block. Otherwise it is the usable range |
| `Report.ExtraBlock` | OctetLab.py:502-512 | the "Extra" block exists exactly when the address after the last block is inside the IPv4 space. It is a valid block of the same prefix length that, after an aligned block, starts just past it. Past the IPv4 space the source shows an IPv6 block instead (see below) |
| `Report.ExtraBlockIsFree` | OctetLab.py:502-512 | after aligned ascending allocations, the "Extra" block starts past every allocation |
| `Scenarios.LoadedExampleVlsm` | OctetLab.py:428-446 | the example topology in 192.168.0.0/16 gets 192.168.0.0/26, 192.168.0.64/27, 192.168.0.96/28 and 192.168.0.112/30, with the 50-host group first |
| `Scenarios.TwoRoutersVlsm` | OctetLab.py:86-124 | groups of 20 and 10 hosts and one link get 192.168.0.0/27, 192.168.0.32/28 and 192.168.0.48/30 |
| `Scenarios.CrowdedBaseNetwork` | OctetLab.py:115-120 | a 100-host group fills 10.0.0.0/25, so a further 2-host group makes the plan fail with that group's name and /30 |
| `Scenarios.RepeatedAllocateDrifts` | OctetLab.py:86-122 | calling `allocate` twice as written moves one 10-host group from 192.168.0.0/28 to 192.168.0.16/28 |

## Left out

- The Tk user interface: drawing, dragging, zooming, list boxes and the log. These are I/O with no effect on the plan.
- The random position and colour of each router: randomness that never reaches the allocator.
- Parsing of the base network text and of the group entries. The model takes integers; `add_router` already keeps only non-negative counts and at most four groups.
- The formatting of demand names and of addresses as strings. Names are structured values.
- The check in `generate` that at least one router exists. It is a user-interface guard before the allocator is called.
- The text of error messages. Errors are datatype values.
- `IPv4Address` rejecting a rounded-up address of 2^32 or more is reported as `OutOfSpace`. Such a block can never lie inside a valid base network, so the outcome is a failure either way; only the message differs.
- The mode string: any string other than "FLSM" behaves as VLSM, so the mode is a two-valued datatype.
- `Report.ExtraBlock`: when the last block ends at the top of the IPv4 space, the next address is 2^32. `ipaddress.ip_network` rejects it as IPv4 and parses it as IPv6 instead, so the "Extra" row shows the IPv6 network `::/p` for the last block's prefix length p. The model has no IPv6 networks and returns `None` for that case.
- `Engine.AllocateAsWritten` does not model the allocator's `allocations` list. The source clears that list at line 87, appends each placed block at line 121 and returns the list object itself at line 124. A later call on the same allocator therefore clears a list the caller still holds, and after an `OutOfSpace` failure the list keeps the blocks placed before it. The model returns a fresh sequence on success and nothing on failure. `generate` builds a new allocator for each plan and drops it afterwards, so no plan the application shows depends on this.
- `Engine.VlsmGroupsSizedAlone` assumes distinct router names. The source keys routers by name in a dictionary, so names are distinct there by construction.

## Findings

| source | as written | input that shows it | evidently intended | confidence | as-written member | corrected member |
|---|---|---|---|---|---|---|
| OctetLab.py:86-122 | `allocate` clears the allocation list but not `current_addr_int`, so a second call on the same allocator starts where the first stopped | one router with a 10-host group, base 192.168.0.0/16, `allocate` called twice: 192.168.0.0/28, then 192.168.0.16/28 | every call starts from the base network address and gives the same plan | medium, not executed; `generate` builds a fresh allocator per plan, so the application itself never repeats a call | `Scenarios.RepeatedAllocateDrifts` | `Engine.AllocateIsRepeatable` |
