/**
 What a derived design is, item by item: one device, link, network, endpoint pool and
 handoff peer for each one asked for and no other, each with the lowest address block and
 number that the ledger, the policy and the items before it leave free.
 */
module DerivedExact {
  import opened Basics
  import opened Ordering
  import opened Addressing
  import opened Allocator
  import opened AllocatorProofs
  import opened AllocatorOrder
  import Decimal

  // ----- Lowest free -----

  ghost predicate FreeBlock(supernet: Prefix, len: nat, taken: set<Prefix>, p: Prefix) {
    p.len == len && SubnetOf(p, supernet) && forall t :: t in taken ==> !Overlaps(p, t)
  }

  /** The lowest block of the length in the supernet that overlaps nothing taken. */
  ghost predicate LowestBlock(supernet: Prefix, len: nat, taken: set<Prefix>, p: Prefix) {
    FreeBlock(supernet, len, taken, p) && forall q: Prefix :: FreeBlock(supernet, len, taken, q) ==> p.addr <= q.addr
  }

  ghost predicate LowestValue(min: int, max: int, taken: set<int>, v: int) {
    min <= v <= max && v !in taken && forall w :: min <= w < v ==> w in taken
  }

  lemma FirstFitIsLowest(supernet: Prefix, len: nat, taken: set<Prefix>)
    requires FirstFit(supernet, len, taken).Ok?
    ensures LowestBlock(supernet, len, taken, FirstFit(supernet, len, taken).value)
  {
    FirstFitExact(supernet, len, taken);
    var p := FirstFit(supernet, len, taken).value;
    forall q: Prefix | FreeBlock(supernet, len, taken, q) ensures p.addr <= q.addr {
      assert !Blocked(q, taken);
    }
  }

  lemma FirstFreeIsLowest(min: int, max: int, taken: set<int>)
    requires FirstFreeFrom(min, max, taken).Ok?
    ensures LowestValue(min, max, taken, FirstFreeFrom(min, max, taken).value)
  {
    FirstFreeExact(min, max, taken);
  }

  // ----- What the items so far have taken -----

  function LoopbackSet(s: seq<Device>): set<Prefix> { set x | x in s :: x.loopback }
  function SubnetSet(s: seq<Link>): set<Prefix> { set x | x in s :: x.subnet }
  function PoolSet(s: seq<EndpointPool>): set<Prefix> { set x | x in s :: x.prefix }
  function PeerSet(s: seq<Peer>): set<Prefix> { set x | x in s :: x.prefix }
  function PoolVlanSet(s: seq<EndpointPool>): set<int> { set x | x in s :: x.vlan }
  function PoolL2Set(s: seq<EndpointPool>): set<int> { set x | x in s :: x.l2 }
  function PeerVlanSet(s: seq<Peer>): set<int> { set x | x in s :: x.vlan }
  function L3Set(s: seq<Vn>): set<int> { set x | x in s :: x.l3 }

  ghost predicate NetsByItems(opening: Book, d: Draft) {
    && NetsOf(d.book, Loopbacks) == NetsOf(opening, Loopbacks) + LoopbackSet(d.devices)
    && NetsOf(d.book, UnderlayP2p) == NetsOf(opening, UnderlayP2p) + SubnetSet(d.links)
    && NetsOf(d.book, OverlayHosts) == NetsOf(opening, OverlayHosts) + PoolSet(d.pools)
    && NetsOf(d.book, BorderHandoff) == NetsOf(opening, BorderHandoff) + PeerSet(d.peers)
  }

  ghost predicate ScalarsByItems(opening: Book, d: Draft) {
    && ScalarsOf(d.book, Vlan) == ScalarsOf(opening, Vlan) + PoolVlanSet(d.pools) + PeerVlanSet(d.peers)
    && ScalarsOf(d.book, L2Instance) == ScalarsOf(opening, L2Instance) + PoolL2Set(d.pools)
    && ScalarsOf(d.book, L3Instance) == ScalarsOf(opening, L3Instance) + L3Set(d.vns)
  }

  /** The taken sets are those of the opening and what the items hold. */
  ghost predicate TakenByItems(opening: Book, d: Draft) {
    NetsByItems(opening, d) && ScalarsByItems(opening, d)
  }

  // ----- One item and what it was asked to be -----

  ghost predicate DeviceAt(pol: Policy, opening: Book, before: seq<Device>, x: Device, q: DeviceReq) {
    && x.id == q.id && x.site == q.site && x.border == q.border && (forall y :: y in before ==> y.id != q.id)
    && Loopbacks in pol.pools
    && LowestBlock(pol.pools[Loopbacks].cidr, pol.pools[Loopbacks].prefixLen, NetsOf(opening, Loopbacks) + LoopbackSet(before), x.loopback)
  }

  /** The two sorted endpoints on the subnet's first two addresses. */
  ghost predicate LinkAt(pol: Policy, opening: Book, devices: set<Id>, before: seq<Link>, x: Link, q: LinkReq) {
    var e := Sort(q.endpoints, EndpointLe);
    && x.id == q.id && |e| == 2 && e[0].device in devices && e[1].device in devices
    && x.ends == [LinkEnd(e[0].device, e[0].port, x.subnet.addr), LinkEnd(e[1].device, e[1].port, x.subnet.addr + 1)]
    && UnderlayP2p in pol.pools && x.subnet.len <= 31
    && LowestBlock(pol.pools[UnderlayP2p].cidr, pol.pools[UnderlayP2p].prefixLen, NetsOf(opening, UnderlayP2p) + SubnetSet(before), x.subnet)
  }

  ghost predicate VnAt(pol: Policy, opening: Book, localAs: int, before: seq<Vn>, x: Vn, q: VnReq) {
    && x.name == q.name && x.vrf == q.vrf && x.rd == Decimal.Signed(localAs) + ":" + Decimal.Signed(x.l3)
    && LowestValue(pol.l3.min, pol.l3.max, ScalarsOf(opening, L3Instance) + L3Set(before), x.l3)
  }

  /** The longest prefix of at most /30 whose hosts, less network and broadcast, cover the site's own demand. */
  ghost predicate SizedFor(q: SiteReq, len: nat) {
    && q.users >= 1 && 0 <= q.headroom <= 500
    && len <= 30 && (Pow2(32 - len) - 2) as real >= q.scaled
    && forall bits: nat :: 2 <= bits < 32 - len ==> (Pow2(bits) - 2) as real < q.scaled
  }

  ghost predicate PoolAt(pol: Policy, opening: Book, before: seq<EndpointPool>, x: EndpointPool, vn: Id, q: SiteReq) {
    && x.id == Lower(q.site) + "-" + Lower(vn) && x.site == q.site && x.vn == vn
    && LowestValue(pol.vlan.min, pol.vlan.max, ScalarsOf(opening, Vlan) + PoolVlanSet(before), x.vlan)
    && x.l2 == pol.l2.min + x.vlan <= pol.l2.max && x.l2 !in ScalarsOf(opening, L2Instance) + PoolL2Set(before)
    && SizedFor(q, x.prefix.len) && x.gateway == x.prefix.addr + 1 && OverlayHosts in pol.pools
    && LowestBlock(pol.pools[OverlayHosts].cidr, x.prefix.len, NetsOf(opening, OverlayHosts) + PoolSet(before), x.prefix)
  }

  /** The first two hosts of the prefix; `vlans` are those of the endpoint pools. */
  ghost predicate PeerAt(pol: Policy, opening: Book, borders: set<Id>, vrfs: set<Id>, vlans: set<int>, before: seq<Peer>, x: Peer, q: PeerReq) {
    && x.device == q.device && x.fusion == q.fusion && x.vrf == q.vrf && x.remoteAs == q.remoteAs
    && q.device in borders && q.vrf in vrfs
    && x.localIp == x.prefix.addr + (if x.prefix.len == 31 then 0 else 1) && x.neighborIp == x.localIp + 1
    && LowestValue(pol.handoffMin, pol.handoffMax, ScalarsOf(opening, Vlan) + vlans + PeerVlanSet(before), x.vlan)
    && BorderHandoff in pol.pools && x.prefix.len <= 31
    && LowestBlock(pol.pools[BorderHandoff].cidr, pol.pools[BorderHandoff].prefixLen, NetsOf(opening, BorderHandoff) + PeerSet(before), x.prefix)
  }

  // ----- One step -----

  lemma DeviceTaken(opening: Book, d: Draft, x: Device)
    requires TakenByItems(opening, d)
    ensures TakenByItems(opening, d.(book := TakePrefix(d.book, Loopbacks, x.loopback), devices := d.devices + [x]))
  {
    assert LoopbackSet(d.devices + [x]) == LoopbackSet(d.devices) + {x.loopback};
  }

  lemma LinkTaken(opening: Book, d: Draft, x: Link)
    requires TakenByItems(opening, d)
    ensures TakenByItems(opening, d.(book := TakePrefix(d.book, UnderlayP2p, x.subnet), links := d.links + [x]))
  {
    assert SubnetSet(d.links + [x]) == SubnetSet(d.links) + {x.subnet};
  }

  lemma VnTaken(opening: Book, d: Draft, x: Vn)
    requires TakenByItems(opening, d)
    ensures TakenByItems(opening, d.(book := TakeScalar(d.book, L3Instance, x.l3), vns := d.vns + [x]))
  {
    assert L3Set(d.vns + [x]) == L3Set(d.vns) + {x.l3};
  }

  lemma PoolNetsTaken(opening: Book, d: Draft, x: EndpointPool)
    requires NetsByItems(opening, d)
    ensures NetsByItems(opening, d.(book := PoolBook(d.book, x.vlan, x.l2, x.prefix), pools := d.pools + [x]))
  {
    assert PoolSet(d.pools + [x]) == PoolSet(d.pools) + {x.prefix};
  }

  lemma Regrouped(a: set<int>, b: set<int>, c: set<int>, v: int)
    ensures a + b + c + {v} == a + (b + {v}) + c
  {
  }

  lemma PoolScalarsTaken(opening: Book, d: Draft, x: EndpointPool)
    requires ScalarsByItems(opening, d)
    ensures ScalarsByItems(opening, d.(book := PoolBook(d.book, x.vlan, x.l2, x.prefix), pools := d.pools + [x]))
  {
    assert PoolVlanSet(d.pools + [x]) == PoolVlanSet(d.pools) + {x.vlan};
    Regrouped(ScalarsOf(opening, Vlan), PoolVlanSet(d.pools), PeerVlanSet(d.peers), x.vlan);
    assert PoolL2Set(d.pools + [x]) == PoolL2Set(d.pools) + {x.l2};
  }

  lemma PeerNetsTaken(opening: Book, d: Draft, x: Peer)
    requires NetsByItems(opening, d)
    ensures NetsByItems(opening, d.(book := PeerBook(d.book, x.vlan, x.prefix), peers := d.peers + [x]))
  {
    assert PeerSet(d.peers + [x]) == PeerSet(d.peers) + {x.prefix};
  }

  lemma PeerScalarsTaken(opening: Book, d: Draft, x: Peer)
    requires ScalarsByItems(opening, d)
    ensures ScalarsByItems(opening, d.(book := PeerBook(d.book, x.vlan, x.prefix), peers := d.peers + [x]))
  {
    assert PeerVlanSet(d.peers + [x]) == PeerVlanSet(d.peers) + {x.vlan};
  }

  lemma DeviceMade(pol: Policy, d: Draft, q: DeviceReq) returns (x: Device)
    requires AddDevice(pol, d, q).Ok?
    ensures AddDevice(pol, d, q).value == d.(book := TakePrefix(d.book, Loopbacks, x.loopback), devices := d.devices + [x])
    ensures x.id == q.id && x.site == q.site && x.border == q.border && q.id !in DeviceIds(d.devices) && Loopbacks in pol.pools
    ensures LowestBlock(pol.pools[Loopbacks].cidr, pol.pools[Loopbacks].prefixLen, NetsOf(d.book, Loopbacks), x.loopback)
  {
    x := AddDevice(pol, d, q).value.devices[|d.devices|];
    FirstFitIsLowest(pol.pools[Loopbacks].cidr, PrefixLen(pol, Loopbacks), NetsOf(d.book, Loopbacks));
  }

  lemma DeviceIsMet(pol: Policy, opening: Book, d: Draft, q: DeviceReq)
    requires TakenByItems(opening, d) && AddDevice(pol, d, q).Ok?
    ensures var r := AddDevice(pol, d, q).value;
            && TakenByItems(opening, r) && r.links == d.links && r.vns == d.vns && r.pools == d.pools && r.peers == d.peers
            && |r.devices| == |d.devices| + 1 && d.devices <= r.devices && DeviceAt(pol, opening, d.devices, r.devices[|d.devices|], q)
  {
    var x := DeviceMade(pol, d, q);
    DeviceTaken(opening, d, x);
    assert (d.devices + [x])[..|d.devices|] == d.devices;
  }

  lemma LinkMade(pol: Policy, d: Draft, q: LinkReq) returns (x: Link)
    requires AddLink(pol, d, q).Ok?
    ensures AddLink(pol, d, q).value == d.(book := TakePrefix(d.book, UnderlayP2p, x.subnet), links := d.links + [x])
    ensures var e := Sort(q.endpoints, EndpointLe);
            && x.id == q.id && |e| == 2 && e[0].device in DeviceIds(d.devices) && e[1].device in DeviceIds(d.devices)
            && x.ends == [LinkEnd(e[0].device, e[0].port, x.subnet.addr), LinkEnd(e[1].device, e[1].port, x.subnet.addr + 1)]
    ensures UnderlayP2p in pol.pools && x.subnet.len <= 31
    ensures LowestBlock(pol.pools[UnderlayP2p].cidr, pol.pools[UnderlayP2p].prefixLen, NetsOf(d.book, UnderlayP2p), x.subnet)
  {
    x := AddLink(pol, d, q).value.links[|d.links|];
    FirstFitExact(pol.pools[UnderlayP2p].cidr, PrefixLen(pol, UnderlayP2p), NetsOf(d.book, UnderlayP2p));
    FirstFitIsLowest(pol.pools[UnderlayP2p].cidr, PrefixLen(pol, UnderlayP2p), NetsOf(d.book, UnderlayP2p));
  }

  lemma LinkIsMet(pol: Policy, opening: Book, d: Draft, q: LinkReq)
    requires TakenByItems(opening, d) && AddLink(pol, d, q).Ok?
    ensures var r := AddLink(pol, d, q).value;
            && TakenByItems(opening, r) && r.devices == d.devices && r.vns == d.vns && r.pools == d.pools && r.peers == d.peers
            && |r.links| == |d.links| + 1 && d.links <= r.links
            && LinkAt(pol, opening, DeviceIds(d.devices), d.links, r.links[|d.links|], q)
  {
    var x := LinkMade(pol, d, q);
    LinkTaken(opening, d, x);
    assert (d.links + [x])[..|d.links|] == d.links;
  }

  lemma VnIsMet(pol: Policy, opening: Book, d: Draft, q: VnReq)
    requires TakenByItems(opening, d) && ReserveScalar(d.book, L3Instance, pol.l3.min, pol.l3.max).Ok?
    ensures var r := OpenVn(d, q, ReserveScalar(d.book, L3Instance, pol.l3.min, pol.l3.max).value);
            && TakenByItems(opening, r) && r.localAs == d.localAs && r.devices == d.devices && r.links == d.links
            && r.pools == d.pools && r.peers == d.peers && |r.vns| == |d.vns| + 1 && d.vns <= r.vns
            && VnAt(pol, opening, d.localAs, d.vns, r.vns[|d.vns|], q)
  {
    var r := OpenVn(d, q, ReserveScalar(d.book, L3Instance, pol.l3.min, pol.l3.max).value);
    FirstFreeIsLowest(pol.l3.min, pol.l3.max, ScalarsOf(d.book, L3Instance));
    VnTaken(opening, d, r.vns[|d.vns|]);
    assert d.vns <= r.vns;
  }

  /** A whole number is at least the ceiling of `scaled` exactly when it is at least `scaled`. */
  lemma CeilingCovers(scaled: real, n: int)
    ensures n >= Required(scaled) <==> n as real >= scaled
  {
    var f := (-scaled).Floor;
    assert f as real <= -scaled < f as real + 1.0;
  }

  lemma HostPrefixIsSized(q: SiteReq, supernetLen: nat)
    requires supernetLen <= 32 && HostPrefix(q.users, q.headroom, q.scaled, supernetLen).Ok?
    ensures SizedFor(q, HostPrefix(q.users, q.headroom, q.scaled, supernetLen).value)
  {
    var len := HostPrefix(q.users, q.headroom, q.scaled, supernetLen).value;
    HostPrefixExact(q.users, q.headroom, q.scaled, supernetLen);
    CeilingCovers(q.scaled, Pow2(32 - len) - 2);
    forall bits: nat | 2 <= bits < 32 - len ensures (Pow2(bits) - 2) as real < q.scaled {
      CeilingCovers(q.scaled, Pow2(bits) - 2);
      assert UsableHosts(32 - bits) < Required(q.scaled);
    }
  }

  lemma PoolMade(pol: Policy, d: Draft, vn: Id, q: SiteReq) returns (x: EndpointPool)
    requires AddPool(pol, d, vn, q).Ok?
    ensures AddPool(pol, d, vn, q).value == d.(book := PoolBook(d.book, x.vlan, x.l2, x.prefix), pools := d.pools + [x])
    ensures x.id == Lower(q.site) + "-" + Lower(vn) && x.site == q.site && x.vn == vn && OverlayHosts in pol.pools
    ensures LowestValue(pol.vlan.min, pol.vlan.max, ScalarsOf(d.book, Vlan), x.vlan)
    ensures x.l2 == pol.l2.min + x.vlan <= pol.l2.max && x.l2 !in ScalarsOf(d.book, L2Instance)
    ensures SizedFor(q, x.prefix.len) && x.gateway == x.prefix.addr + 1
    ensures LowestBlock(pol.pools[OverlayHosts].cidr, x.prefix.len, NetsOf(d.book, OverlayHosts), x.prefix)
  {
    var r := AddPool(pol, d, vn, q).value;
    x := r.pools[|d.pools|];
    FirstFreeIsLowest(pol.vlan.min, pol.vlan.max, ScalarsOf(d.book, Vlan));
    var len := HostPrefix(q.users, q.headroom, q.scaled, pol.pools[OverlayHosts].cidr.len).value;
    HostPrefixIsSized(q, pol.pools[OverlayHosts].cidr.len);
    FirstFitIsLowest(pol.pools[OverlayHosts].cidr, len, NetsOf(d.book, OverlayHosts));
  }

  lemma PoolIsMet(pol: Policy, opening: Book, d: Draft, vn: Id, q: SiteReq)
    requires TakenByItems(opening, d) && d.peers == [] && AddPool(pol, d, vn, q).Ok?
    ensures var r := AddPool(pol, d, vn, q).value;
            && TakenByItems(opening, r) && r.localAs == d.localAs && r.devices == d.devices && r.links == d.links && r.vns == d.vns
            && r.peers == [] && |r.pools| == |d.pools| + 1 && d.pools <= r.pools
            && PoolAt(pol, opening, d.pools, r.pools[|d.pools|], vn, q)
  {
    var x := PoolMade(pol, d, vn, q);
    PoolNetsTaken(opening, d, x);
    PoolScalarsTaken(opening, d, x);
    assert (d.pools + [x])[..|d.pools|] == d.pools;
  }

  lemma PeerMade(pol: Policy, d: Draft, q: PeerReq) returns (x: Peer)
    requires AddPeer(pol, d, q).Ok?
    ensures AddPeer(pol, d, q).value == d.(book := PeerBook(d.book, x.vlan, x.prefix), peers := d.peers + [x])
    ensures x.device == q.device && x.fusion == q.fusion && x.vrf == q.vrf && x.remoteAs == q.remoteAs
    ensures q.device in BorderIds(d.devices) && q.vrf in VrfNames(d.vns) && BorderHandoff in pol.pools && x.prefix.len <= 31
    ensures x.localIp == x.prefix.addr + (if x.prefix.len == 31 then 0 else 1) && x.neighborIp == x.localIp + 1
    ensures LowestValue(pol.handoffMin, pol.handoffMax, ScalarsOf(d.book, Vlan), x.vlan)
    ensures LowestBlock(pol.pools[BorderHandoff].cidr, pol.pools[BorderHandoff].prefixLen, NetsOf(d.book, BorderHandoff), x.prefix)
  {
    x := AddPeer(pol, d, q).value.peers[|d.peers|];
    FirstFreeIsLowest(pol.handoffMin, pol.handoffMax, ScalarsOf(d.book, Vlan));
    FirstFitExact(pol.pools[BorderHandoff].cidr, PrefixLen(pol, BorderHandoff), NetsOf(d.book, BorderHandoff));
    FirstFitIsLowest(pol.pools[BorderHandoff].cidr, PrefixLen(pol, BorderHandoff), NetsOf(d.book, BorderHandoff));
  }

  lemma PeerIsMet(pol: Policy, opening: Book, d: Draft, q: PeerReq)
    requires TakenByItems(opening, d) && AddPeer(pol, d, q).Ok?
    ensures var r := AddPeer(pol, d, q).value;
            && TakenByItems(opening, r) && r.localAs == d.localAs && r.devices == d.devices && r.links == d.links && r.vns == d.vns
            && r.pools == d.pools && |r.peers| == |d.peers| + 1 && d.peers <= r.peers
            && PeerAt(pol, opening, BorderIds(d.devices), VrfNames(d.vns), PoolVlanSet(d.pools), d.peers, r.peers[|d.peers|], q)
  {
    var x := PeerMade(pol, d, q);
    PeerNetsTaken(opening, d, x);
    PeerScalarsTaken(opening, d, x);
    assert (d.peers + [x])[..|d.peers|] == d.peers;
  }

  // ----- Every loop -----

  lemma {:induction false} DevicesGrow(pol: Policy, opening: Book, d: Draft, reqs: seq<DeviceReq>)
    requires TakenByItems(opening, d) && AddDevices(pol, d, reqs).Ok?
    ensures var r := AddDevices(pol, d, reqs).value;
            && TakenByItems(opening, r) && r.links == d.links && r.vns == d.vns && r.pools == d.pools && r.peers == d.peers
            && |r.devices| == |d.devices| + |reqs| && d.devices <= r.devices
    decreases |reqs|
  {
    if reqs != [] {
      DeviceIsMet(pol, opening, d, reqs[0]);
      DevicesGrow(pol, opening, AddDevice(pol, d, reqs[0]).value, reqs[1..]);
    }
  }

  lemma {:induction false} LinksGrow(pol: Policy, opening: Book, d: Draft, reqs: seq<LinkReq>)
    requires TakenByItems(opening, d) && AddLinks(pol, d, reqs).Ok?
    ensures var r := AddLinks(pol, d, reqs).value;
            && TakenByItems(opening, r) && r.devices == d.devices && r.vns == d.vns && r.pools == d.pools && r.peers == d.peers
            && |r.links| == |d.links| + |reqs| && d.links <= r.links
    decreases |reqs|
  {
    if reqs != [] {
      LinkIsMet(pol, opening, d, reqs[0]);
      LinksGrow(pol, opening, AddLink(pol, d, reqs[0]).value, reqs[1..]);
    }
  }

  lemma {:induction false} PoolsGrow(pol: Policy, opening: Book, d: Draft, vn: Id, sites: seq<SiteReq>)
    requires TakenByItems(opening, d) && d.peers == [] && AddPools(pol, d, vn, sites).Ok?
    ensures var r := AddPools(pol, d, vn, sites).value;
            && TakenByItems(opening, r) && r.localAs == d.localAs && r.devices == d.devices && r.links == d.links && r.vns == d.vns
            && r.peers == [] && |r.pools| == |d.pools| + |sites| && d.pools <= r.pools
    decreases |sites|
  {
    if sites != [] {
      PoolIsMet(pol, opening, d, vn, sites[0]);
      PoolsGrow(pol, opening, AddPool(pol, d, vn, sites[0]).value, vn, sites[1..]);
    }
  }

  function Pairs(vn: Id, sites: seq<SiteReq>): seq<(Id, SiteReq)> {
    seq(|sites|, i requires 0 <= i < |sites| => (vn, sites[i]))
  }

  /** The (network, site) pairs asked for: the networks in order, each with its sites in order. */
  function AskedPools(vns: seq<VnReq>): seq<(Id, SiteReq)> {
    if vns == [] then [] else Pairs(vns[0].name, Sort(vns[0].sites, SiteLe)) + AskedPools(vns[1..])
  }

  lemma OneVnGrows(pol: Policy, opening: Book, d: Draft, q: VnReq)
    requires TakenByItems(opening, d) && d.peers == [] && AddVn(pol, d, q).Ok?
    ensures var r, sites := AddVn(pol, d, q).value, Sort(q.sites, SiteLe);
            && TakenByItems(opening, r) && r.localAs == d.localAs && r.devices == d.devices && r.links == d.links && r.peers == []
            && |r.vns| == |d.vns| + 1 && d.vns <= r.vns && |r.pools| == |d.pools| + |sites| && d.pools <= r.pools
    ensures VnAt(pol, opening, d.localAs, d.vns, AddVn(pol, d, q).value.vns[|d.vns|], q)
  {
    VnIsMet(pol, opening, d, q);
    var l3 := ReserveScalar(d.book, L3Instance, pol.l3.min, pol.l3.max).value;
    PoolsGrow(pol, opening, OpenVn(d, q, l3), q.name, Sort(q.sites, SiteLe));
  }

  lemma {:induction false} VnsGrow(pol: Policy, opening: Book, d: Draft, reqs: seq<VnReq>)
    requires TakenByItems(opening, d) && d.peers == [] && AddVns(pol, d, reqs).Ok?
    ensures var r := AddVns(pol, d, reqs).value;
            && TakenByItems(opening, r) && r.localAs == d.localAs && r.devices == d.devices && r.links == d.links && r.peers == []
            && |r.vns| == |d.vns| + |reqs| && d.vns <= r.vns
            && |r.pools| == |d.pools| + |AskedPools(reqs)| && d.pools <= r.pools
    decreases |reqs|
  {
    if reqs != [] {
      OneVnGrows(pol, opening, d, reqs[0]);
      VnsGrow(pol, opening, AddVn(pol, d, reqs[0]).value, reqs[1..]);
    }
  }

  lemma {:induction false} PeersGrow(pol: Policy, opening: Book, d: Draft, reqs: seq<PeerReq>)
    requires TakenByItems(opening, d) && AddPeers(pol, d, reqs).Ok?
    ensures var r := AddPeers(pol, d, reqs).value;
            && r.localAs == d.localAs && r.devices == d.devices && r.links == d.links && r.vns == d.vns && r.pools == d.pools
            && |r.peers| == |d.peers| + |reqs| && d.peers <= r.peers
    decreases |reqs|
  {
    if reqs != [] {
      PeerIsMet(pol, opening, d, reqs[0]);
      PeersGrow(pol, opening, AddPeer(pol, d, reqs[0]).value, reqs[1..]);
    }
  }


  lemma ItemIsInPlace<T>(before: seq<T>, s: seq<T>, all: seq<T>, k: nat)
    requires |s| == |before| + 1 && before <= s <= all && k == |before|
    ensures all[..k] == before && all[k] == s[|before|]
  {
    assert all[..k] == s[..k];
  }

  lemma DeviceIsInPlace(pol: Policy, opening: Book, d: Draft, q: DeviceReq, all: seq<Device>, k: nat)
    requires TakenByItems(opening, d) && AddDevice(pol, d, q).Ok? && AddDevice(pol, d, q).value.devices <= all && k == |d.devices|
    ensures k < |all| && DeviceAt(pol, opening, all[..k], all[k], q)
  {
    DeviceIsMet(pol, opening, d, q);
    ItemIsInPlace(d.devices, AddDevice(pol, d, q).value.devices, all, k);
  }

  lemma LinkIsInPlace(pol: Policy, opening: Book, d: Draft, q: LinkReq, all: seq<Link>, k: nat)
    requires TakenByItems(opening, d) && AddLink(pol, d, q).Ok? && AddLink(pol, d, q).value.links <= all && k == |d.links|
    ensures k < |all| && LinkAt(pol, opening, DeviceIds(d.devices), all[..k], all[k], q)
  {
    LinkIsMet(pol, opening, d, q);
    ItemIsInPlace(d.links, AddLink(pol, d, q).value.links, all, k);
  }

  lemma PeerIsInPlace(pol: Policy, opening: Book, d: Draft, borders: set<Id>, vrfs: set<Id>, vlans: set<int>, q: PeerReq,
                      all: seq<Peer>, k: nat)
    requires TakenByItems(opening, d) && AddPeer(pol, d, q).Ok? && AddPeer(pol, d, q).value.peers <= all && k == |d.peers|
    requires borders == BorderIds(d.devices) && vrfs == VrfNames(d.vns) && vlans == PoolVlanSet(d.pools)
    ensures k < |all| && PeerAt(pol, opening, borders, vrfs, vlans, all[..k], all[k], q)
  {
    PeerIsMet(pol, opening, d, q);
    ItemIsInPlace(d.peers, AddPeer(pol, d, q).value.peers, all, k);
  }

  lemma VnIsInPlace(pol: Policy, opening: Book, d: Draft, q: VnReq, all: seq<Vn>, k: nat)
    requires TakenByItems(opening, d) && d.peers == [] && AddVn(pol, d, q).Ok? && AddVn(pol, d, q).value.vns <= all && k == |d.vns|
    ensures k < |all| && VnAt(pol, opening, d.localAs, all[..k], all[k], q)
  {
    OneVnGrows(pol, opening, d, q);
    ItemIsInPlace(d.vns, AddVn(pol, d, q).value.vns, all, k);
  }

  lemma PoolIsInPlace(pol: Policy, opening: Book, d: Draft, vn: Id, q: SiteReq, all: seq<EndpointPool>, k: nat)
    requires TakenByItems(opening, d) && d.peers == [] && AddPool(pol, d, vn, q).Ok? && AddPool(pol, d, vn, q).value.pools <= all && k == |d.pools|
    ensures k < |all| && PoolAt(pol, opening, all[..k], all[k], vn, q)
  {
    PoolIsMet(pol, opening, d, vn, q);
    ItemIsInPlace(d.pools, AddPool(pol, d, vn, q).value.pools, all, k);
  }

  lemma {:induction false} NthDeviceIsMet(pol: Policy, opening: Book, d: Draft, reqs: seq<DeviceReq>, i: nat, all: seq<Device>, k: nat)
    requires TakenByItems(opening, d) && AddDevices(pol, d, reqs).Ok? && i < |reqs|
    requires AddDevices(pol, d, reqs).value.devices <= all && k == |d.devices| + i
    ensures k < |all| && DeviceAt(pol, opening, all[..k], all[k], reqs[i])
    decreases |reqs|
  {
    var d1 := AddDevice(pol, d, reqs[0]).value;
    DeviceIsMet(pol, opening, d, reqs[0]);
    DevicesGrow(pol, opening, d1, reqs[1..]);
    if i == 0 {
      DeviceIsInPlace(pol, opening, d, reqs[0], all, k);
    } else {
      NthDeviceIsMet(pol, opening, d1, reqs[1..], i - 1, all, k);
    }
  }

  lemma {:induction false} NthLinkIsMet(pol: Policy, opening: Book, d: Draft, reqs: seq<LinkReq>, i: nat, all: seq<Link>, k: nat)
    requires TakenByItems(opening, d) && AddLinks(pol, d, reqs).Ok? && i < |reqs|
    requires AddLinks(pol, d, reqs).value.links <= all && k == |d.links| + i
    ensures k < |all| && LinkAt(pol, opening, DeviceIds(d.devices), all[..k], all[k], reqs[i])
    decreases |reqs|
  {
    var d1 := AddLink(pol, d, reqs[0]).value;
    LinkIsMet(pol, opening, d, reqs[0]);
    LinksGrow(pol, opening, d1, reqs[1..]);
    if i == 0 {
      LinkIsInPlace(pol, opening, d, reqs[0], all, k);
    } else {
      NthLinkIsMet(pol, opening, d1, reqs[1..], i - 1, all, k);
    }
  }

  lemma {:induction false} NthVnIsMet(pol: Policy, opening: Book, d: Draft, reqs: seq<VnReq>, i: nat, all: seq<Vn>, k: nat)
    requires TakenByItems(opening, d) && d.peers == [] && AddVns(pol, d, reqs).Ok? && i < |reqs|
    requires AddVns(pol, d, reqs).value.vns <= all && k == |d.vns| + i
    ensures k < |all| && VnAt(pol, opening, d.localAs, all[..k], all[k], reqs[i])
    decreases |reqs|
  {
    var d1 := AddVn(pol, d, reqs[0]).value;
    OneVnGrows(pol, opening, d, reqs[0]);
    VnsGrow(pol, opening, d1, reqs[1..]);
    if i == 0 {
      VnIsInPlace(pol, opening, d, reqs[0], all, k);
    } else {
      NthVnIsMet(pol, opening, d1, reqs[1..], i - 1, all, k);
    }
  }

  lemma {:induction false} NthPoolIsMet(pol: Policy, opening: Book, d: Draft, vn: Id, reqs: seq<SiteReq>, i: nat, all: seq<EndpointPool>, k: nat)
    requires TakenByItems(opening, d) && d.peers == [] && AddPools(pol, d, vn, reqs).Ok? && i < |reqs|
    requires AddPools(pol, d, vn, reqs).value.pools <= all && k == |d.pools| + i
    ensures k < |all| && PoolAt(pol, opening, all[..k], all[k], vn, reqs[i])
    decreases |reqs|
  {
    var d1 := AddPool(pol, d, vn, reqs[0]).value;
    PoolIsMet(pol, opening, d, vn, reqs[0]);
    if i == 0 {
      PoolsGrow(pol, opening, d1, vn, reqs[1..]);
      PoolIsInPlace(pol, opening, d, vn, reqs[0], all, k);
    } else {
      NthPoolIsMet(pol, opening, d1, vn, reqs[1..], i - 1, all, k);
    }
  }

  lemma PoolOfVn(pol: Policy, opening: Book, d: Draft, q: VnReq, i: nat, all: seq<EndpointPool>, k: nat)
    requires TakenByItems(opening, d) && d.peers == [] && AddVn(pol, d, q).Ok? && i < |Sort(q.sites, SiteLe)|
    requires AddVn(pol, d, q).value.pools <= all && k == |d.pools| + i
    ensures k < |all| && PoolAt(pol, opening, all[..k], all[k], q.name, Sort(q.sites, SiteLe)[i])
  {
    VnIsMet(pol, opening, d, q);
    var l3 := ReserveScalar(d.book, L3Instance, pol.l3.min, pol.l3.max).value;
    NthPoolIsMet(pol, opening, OpenVn(d, q, l3), q.name, Sort(q.sites, SiteLe), i, all, k);
  }

  lemma NextAsked(asked: seq<(Id, SiteReq)>, j: nat, reqs: seq<VnReq>) returns (k: nat)
    requires reqs != [] && j <= |asked| && asked[j..] == AskedPools(reqs)
    ensures k == j + |Sort(reqs[0].sites, SiteLe)| <= |asked|
    ensures asked[j..k] == Pairs(reqs[0].name, Sort(reqs[0].sites, SiteLe)) && asked[k..] == AskedPools(reqs[1..])
  {
    var pairs := Pairs(reqs[0].name, Sort(reqs[0].sites, SiteLe));
    k := j + |pairs|;
    assert asked[j..] == pairs + AskedPools(reqs[1..]);
    assert asked[j..k] == asked[j..][..|pairs|] && asked[k..] == asked[j..][|pairs|..];
  }

  lemma PoolOfFirstVn(pol: Policy, opening: Book, d: Draft, reqs: seq<VnReq>, i: nat, x: (Id, SiteReq), all: seq<EndpointPool>, k: nat)
    requires TakenByItems(opening, d) && d.peers == [] && reqs != [] && AddVns(pol, d, reqs).Ok?
    requires i < |Sort(reqs[0].sites, SiteLe)| && x == (reqs[0].name, Sort(reqs[0].sites, SiteLe)[i])
    requires AddVns(pol, d, reqs).value.pools <= all && k == |d.pools| + i
    ensures k < |all| && PoolAt(pol, opening, all[..k], all[k], x.0, x.1)
  {
    OneVnGrows(pol, opening, d, reqs[0]);
    VnsGrow(pol, opening, AddVn(pol, d, reqs[0]).value, reqs[1..]);
    PoolOfVn(pol, opening, d, reqs[0], i, all, k);
  }

  lemma AfterFirstVn(pol: Policy, opening: Book, d: Draft, reqs: seq<VnReq>) returns (d1: Draft)
    requires TakenByItems(opening, d) && d.peers == [] && reqs != [] && AddVns(pol, d, reqs).Ok?
    ensures TakenByItems(opening, d1) && d1.peers == [] && AddVns(pol, d, reqs) == AddVns(pol, d1, reqs[1..])
    ensures |d1.pools| == |d.pools| + |Sort(reqs[0].sites, SiteLe)|
  {
    OneVnGrows(pol, opening, d, reqs[0]);
    d1 := AddVn(pol, d, reqs[0]).value;
  }

  lemma SomethingAsked(asked: seq<(Id, SiteReq)>, j: nat, reqs: seq<VnReq>)
    requires j < |asked| && asked[j..] == AskedPools(reqs)
    ensures reqs != []
  {
    assert asked[j..] != [];
  }

  lemma AskedHere(asked: seq<(Id, SiteReq)>, j: nat, end: nat, vn: Id, sites: seq<SiteReq>, k: nat)
    requires j <= k < end <= |asked| && end == j + |sites| && asked[j..end] == Pairs(vn, sites)
    ensures asked[k] == (vn, sites[k - j])
  {
    assert asked[k] == asked[j..end][k - j];
  }

  lemma AskedPoolIsMet(pol: Policy, opening: Book, d: Draft, reqs: seq<VnReq>, asked: seq<(Id, SiteReq)>, end: nat, all: seq<EndpointPool>, k: nat)
    requires TakenByItems(opening, d) && d.peers == [] && reqs != [] && AddVns(pol, d, reqs).Ok? && AddVns(pol, d, reqs).value.pools <= all
    requires |d.pools| <= k < end <= |asked| && end == |d.pools| + |Sort(reqs[0].sites, SiteLe)|
    requires asked[|d.pools|..end] == Pairs(reqs[0].name, Sort(reqs[0].sites, SiteLe))
    ensures k < |all| && PoolAt(pol, opening, all[..k], all[k], asked[k].0, asked[k].1)
  {
    hide PoolAt, TakenByItems, AddVns, Pairs;
    AskedHere(asked, |d.pools|, end, reqs[0].name, Sort(reqs[0].sites, SiteLe), k);
    PoolOfFirstVn(pol, opening, d, reqs, k - |d.pools|, asked[k], all, k);
  }

  lemma {:induction false} NthAskedPoolIsMet(pol: Policy, opening: Book, d: Draft, reqs: seq<VnReq>, asked: seq<(Id, SiteReq)>,
                                             all: seq<EndpointPool>, k: nat)
    requires TakenByItems(opening, d) && d.peers == [] && AddVns(pol, d, reqs).Ok? && AddVns(pol, d, reqs).value.pools <= all
    requires |d.pools| <= k < |asked| && asked[|d.pools|..] == AskedPools(reqs)
    ensures k < |all| && PoolAt(pol, opening, all[..k], all[k], asked[k].0, asked[k].1)
    decreases |reqs|
  {
    SomethingAsked(asked, |d.pools|, reqs);
    hide PoolAt, TakenByItems, AddVns, AskedPools, Pairs;
    var end := NextAsked(asked, |d.pools|, reqs);
    if k < end {
      AskedPoolIsMet(pol, opening, d, reqs, asked, end, all, k);
    } else {
      var d1 := AfterFirstVn(pol, opening, d, reqs);
      NthAskedPoolIsMet(pol, opening, d1, reqs[1..], asked, all, k);
    }
  }

  lemma {:induction false} NthPeerIsMet(pol: Policy, opening: Book, d: Draft, borders: set<Id>, vrfs: set<Id>, vlans: set<int>,
                                        reqs: seq<PeerReq>, i: nat, all: seq<Peer>, k: nat)
    requires TakenByItems(opening, d) && AddPeers(pol, d, reqs).Ok? && i < |reqs|
    requires AddPeers(pol, d, reqs).value.peers <= all && k == |d.peers| + i
    requires borders == BorderIds(d.devices) && vrfs == VrfNames(d.vns) && vlans == PoolVlanSet(d.pools)
    ensures k < |all| && PeerAt(pol, opening, borders, vrfs, vlans, all[..k], all[k], reqs[i])
    decreases |reqs|
  {
    var d1 := AddPeer(pol, d, reqs[0]).value;
    PeerIsMet(pol, opening, d, reqs[0]);
    PeersGrow(pol, opening, d1, reqs[1..]);
    if i == 0 {
      PeerIsInPlace(pol, opening, d, borders, vrfs, vlans, reqs[0], all, k);
    } else {
      NthPeerIsMet(pol, opening, d1, borders, vrfs, vlans, reqs[1..], i - 1, all, k);
    }
  }

  // ----- The whole design -----

  /** The checks that a derivation passes before its first reservation. */
  ghost predicate Allowed(req: Requirements, pol: Policy) {
    && Loopbacks in pol.pools && UnderlayP2p in pol.pools && OverlayHosts in pol.pools && |req.devices| >= 2
    && (forall p, q :: p in pol.pools && q in pol.pools[p].reserved ==> SubnetOf(q, pol.pools[p].cidr))
    && (forall k: Kind, b :: b in RangeOf(pol, k).reservedRanges ==> b.0 <= b.1)
    && (forall k: Kind, v :: v in ReservedValues(RangeOf(pol, k)) ==> RangeOf(pol, k).min <= v <= RangeOf(pol, k).max)
    && (req.handoff.Some? ==> BorderHandoff in pol.pools)
  }

  /** The local AS number: the lowest free one where the design asks for its own, else the policy's. */
  ghost predicate AsnMet(req: Requirements, pol: Policy, opening: Book, localAs: int) {
    if req.needsAsn then LowestValue(pol.asn.min, pol.asn.max, ScalarsOf(opening, Asn), localAs) else localAs == pol.rdAsn
  }

  ghost predicate UnderlayMet(req: Requirements, pol: Policy, opening: Book, devices: seq<Device>, links: seq<Link>) {
    && |devices| == |req.devices| == |Sort(req.devices, DeviceLe)| && |links| == |req.links| == |Sort(req.links, LinkLe)|
    && (forall i :: 0 <= i < |devices| ==> DeviceAt(pol, opening, devices[..i], devices[i], Sort(req.devices, DeviceLe)[i]))
    && (forall i :: 0 <= i < |links| ==> LinkAt(pol, opening, set x | x in devices :: x.id, links[..i], links[i], Sort(req.links, LinkLe)[i]))
  }

  ghost predicate OverlayMet(req: Requirements, pol: Policy, opening: Book, localAs: int, vns: seq<Vn>, pools: seq<EndpointPool>) {
    var sorted := Sort(req.vns, VnLe);
    && |vns| == |req.vns| == |sorted| && |pools| == |AskedPools(sorted)|
    && (forall i :: 0 <= i < |vns| ==> VnAt(pol, opening, localAs, vns[..i], vns[i], sorted[i]))
    && (forall i :: 0 <= i < |pools| ==>
          PoolAt(pol, opening, pools[..i], pools[i], AskedPools(sorted)[i].0, AskedPools(sorted)[i].1))
  }

  ghost predicate PeersMet(asked: seq<PeerReq>, pol: Policy, opening: Book, borders: set<Id>, vrfs: set<Id>, vlans: set<int>, peers: seq<Peer>) {
    && |peers| == |asked| == |Sort(asked, PeerLe)|
    && (forall i :: 0 <= i < |peers| ==> PeerAt(pol, opening, borders, vrfs, vlans, peers[..i], peers[i], Sort(asked, PeerLe)[i]))
  }

  /** Every item asked for is there, in order, and nothing else is. */
  ghost predicate DesignMet(req: Requirements, pol: Policy, opening: Book, d: Draft) {
    && AsnMet(req, pol, opening, d.localAs) && UnderlayMet(req, pol, opening, d.devices, d.links)
    && OverlayMet(req, pol, opening, d.localAs, d.vns, d.pools)
    && PeersMet(if req.handoff.Some? then req.handoff.value else [], pol, opening,
                set x | x in d.devices && x.border :: x.id, set v | v in d.vns :: v.vrf, set p | p in d.pools :: p.vlan, d.peers)
  }

  lemma UnderlayIsMet(req: Requirements, pol: Policy, opening: Book, d0: Draft, d1: Draft, d2: Draft)
    requires TakenByItems(opening, d0) && d0.devices == [] && d0.links == [] && d0.vns == [] && d0.pools == [] && d0.peers == []
    requires AddDevices(pol, d0, Sort(req.devices, DeviceLe)) == Ok(d1) && AddLinks(pol, d1, Sort(req.links, LinkLe)) == Ok(d2)
    ensures UnderlayMet(req, pol, opening, d2.devices, d2.links)
    ensures TakenByItems(opening, d2) && d2.vns == [] && d2.pools == [] && d2.peers == []
  {
    SortIsPermutation(req.devices, DeviceLe);
    SortIsPermutation(req.links, LinkLe);
    DevicesGrow(pol, opening, d0, Sort(req.devices, DeviceLe));
    LinksGrow(pol, opening, d1, Sort(req.links, LinkLe));
    forall i | 0 <= i < |d2.devices| ensures DeviceAt(pol, opening, d2.devices[..i], d2.devices[i], Sort(req.devices, DeviceLe)[i]) {
      NthDeviceIsMet(pol, opening, d0, Sort(req.devices, DeviceLe), i, d2.devices, i);
    }
    forall i | 0 <= i < |d2.links|
      ensures LinkAt(pol, opening, DeviceIds(d2.devices), d2.links[..i], d2.links[i], Sort(req.links, LinkLe)[i])
    {
      NthLinkIsMet(pol, opening, d1, Sort(req.links, LinkLe), i, d2.links, i);
    }
  }

  lemma AsnIsMet(req: Requirements, pol: Policy, opening: Book, d2: Draft, d3: Draft)
    requires TakenByItems(opening, d2) && ScalarsOf(d2.book, Asn) == ScalarsOf(opening, Asn) && AddAsn(pol, d2, req.needsAsn) == Ok(d3)
    ensures AsnMet(req, pol, opening, d3.localAs) && TakenByItems(opening, d3)
    ensures d3.devices == d2.devices && d3.links == d2.links && d3.vns == d2.vns && d3.pools == d2.pools && d3.peers == d2.peers
  {
    if req.needsAsn { FirstFreeIsLowest(pol.asn.min, pol.asn.max, ScalarsOf(d2.book, Asn)); }
  }

  lemma OverlayIsMet(req: Requirements, pol: Policy, opening: Book, d3: Draft, d4: Draft)
    requires TakenByItems(opening, d3) && d3.vns == [] && d3.pools == [] && d3.peers == []
    requires AddVns(pol, d3, Sort(req.vns, VnLe)) == Ok(d4)
    ensures OverlayMet(req, pol, opening, d4.localAs, d4.vns, d4.pools)
    ensures TakenByItems(opening, d4) && d4.devices == d3.devices && d4.links == d3.links && d4.localAs == d3.localAs && d4.peers == []
  {
    SortIsPermutation(req.vns, VnLe);
    VnsGrow(pol, opening, d3, Sort(req.vns, VnLe));
    forall i | 0 <= i < |d4.vns| ensures VnAt(pol, opening, d4.localAs, d4.vns[..i], d4.vns[i], Sort(req.vns, VnLe)[i]) {
      NthVnIsMet(pol, opening, d3, Sort(req.vns, VnLe), i, d4.vns, i);
    }
    forall i | 0 <= i < |d4.pools|
      ensures PoolAt(pol, opening, d4.pools[..i], d4.pools[i], AskedPools(Sort(req.vns, VnLe))[i].0, AskedPools(Sort(req.vns, VnLe))[i].1)
    {
      var asked := AskedPools(Sort(req.vns, VnLe));
      assert asked[0..] == asked;
      NthAskedPoolIsMet(pol, opening, d3, Sort(req.vns, VnLe), asked, d4.pools, i);
    }
  }

  lemma PeersAreMet(asked: seq<PeerReq>, pol: Policy, opening: Book, d4: Draft, d5: Draft)
    requires TakenByItems(opening, d4) && d4.peers == [] && AddPeers(pol, d4, Sort(asked, PeerLe)) == Ok(d5)
    ensures PeersMet(asked, pol, opening, BorderIds(d4.devices), VrfNames(d4.vns), PoolVlanSet(d4.pools), d5.peers)
    ensures d5.devices == d4.devices && d5.links == d4.links && d5.vns == d4.vns && d5.pools == d4.pools && d5.localAs == d4.localAs
  {
    SortIsPermutation(asked, PeerLe);
    PeersGrow(pol, opening, d4, Sort(asked, PeerLe));
    var borders, vrfs, vlans := BorderIds(d4.devices), VrfNames(d4.vns), PoolVlanSet(d4.pools);
    forall i | 0 <= i < |d5.peers| ensures PeerAt(pol, opening, borders, vrfs, vlans, d5.peers[..i], d5.peers[i], Sort(asked, PeerLe)[i]) {
      NthPeerIsMet(pol, opening, d4, borders, vrfs, vlans, Sort(asked, PeerLe), i, d5.peers, i);
    }
  }

  lemma {:induction false} DevicesLeaveScalars(pol: Policy, d: Draft, reqs: seq<DeviceReq>)
    requires AddDevices(pol, d, reqs).Ok?
    ensures AddDevices(pol, d, reqs).value.book.scalars == d.book.scalars
    decreases |reqs|
  {
    if reqs != [] { DevicesLeaveScalars(pol, AddDevice(pol, d, reqs[0]).value, reqs[1..]); }
  }

  lemma {:induction false} LinksLeaveScalars(pol: Policy, d: Draft, reqs: seq<LinkReq>)
    requires AddLinks(pol, d, reqs).Ok?
    ensures AddLinks(pol, d, reqs).value.book.scalars == d.book.scalars
    decreases |reqs|
  {
    if reqs != [] { LinksLeaveScalars(pol, AddLink(pol, d, reqs[0]).value, reqs[1..]); }
  }

  lemma HandoffIsMet(handoff: Option<seq<PeerReq>>, pol: Policy, opening: Book, d4: Draft, d5: Draft)
    requires TakenByItems(opening, d4) && d4.peers == [] && AddHandoff(pol, d4, handoff) == Ok(d5)
    ensures handoff.Some? ==> BorderHandoff in pol.pools
    ensures PeersMet(if handoff.Some? then handoff.value else [], pol, opening,
                     BorderIds(d4.devices), VrfNames(d4.vns), PoolVlanSet(d4.pools), d5.peers)
    ensures d5.devices == d4.devices && d5.links == d4.links && d5.vns == d4.vns && d5.pools == d4.pools && d5.localAs == d4.localAs
  {
    if handoff.Some? { PeersAreMet(handoff.value, pol, opening, d4, d5); }
  }

  lemma FillSteps(req: Requirements, pol: Policy, d0: Draft, d5: Draft) returns (d1: Draft, d2: Draft, d3: Draft, d4: Draft)
    requires Fill(req, pol, d0) == Ok(d5)
    ensures AddDevices(pol, d0, Sort(req.devices, DeviceLe)) == Ok(d1) && AddLinks(pol, d1, Sort(req.links, LinkLe)) == Ok(d2)
    ensures AddAsn(pol, d2, req.needsAsn) == Ok(d3) && AddVns(pol, d3, Sort(req.vns, VnLe)) == Ok(d4)
    ensures AddHandoff(pol, d4, req.handoff) == Ok(d5) && d2.book.scalars == d0.book.scalars
  {
    d1 := AddDevices(pol, d0, Sort(req.devices, DeviceLe)).value;
    d2 := AddLinks(pol, d1, Sort(req.links, LinkLe)).value;
    d3 := AddAsn(pol, d2, req.needsAsn).value;
    d4 := AddVns(pol, d3, Sort(req.vns, VnLe)).value;
    DevicesLeaveScalars(pol, d0, Sort(req.devices, DeviceLe));
    LinksLeaveScalars(pol, d1, Sort(req.links, LinkLe));
  }

  lemma FillIsMet(req: Requirements, pol: Policy, opening: Book, d5: Draft)
    requires Fill(req, pol, Blank(opening)) == Ok(d5)
    ensures DesignMet(req, pol, opening, d5) && (req.handoff.Some? ==> BorderHandoff in pol.pools)
  {
    var d1, d2, d3, d4 := FillSteps(req, pol, Blank(opening), d5);
    UnderlayIsMet(req, pol, opening, Blank(opening), d1, d2);
    AsnIsMet(req, pol, opening, d2, d3);
    OverlayIsMet(req, pol, opening, d3, d4);
    HandoffIsMet(req.handoff, pol, opening, d4, d5);
  }

  // ----- What was taken before the design -----

  /** What a design finds taken: the active rows of its domain and the policy-reserved space. */
  lemma OpeningExact(pol: Policy, domain: Id, nets: seq<NetRow>, scalars: seq<ScalarRow>, pool: Pool, kind: Kind, q: Prefix, v: int)
    requires pool in pol.pools
    ensures var opening, range := Opening(pol, domain, nets, scalars), RangeOf(pol, kind);
            && (q in NetsOf(opening, pool) <==>
                  || q in pol.pools[pool].reserved
                  || exists r :: r in nets && r.domain == domain && r.pool == pool && r.prefix == q && r.state != Released)
            && (v in ScalarsOf(opening, kind) <==>
                  || v in range.reserved || (exists b :: b in range.reservedRanges && b.0 <= v <= b.1)
                  || exists r :: r in scalars && r.domain == domain && r.kind == kind && r.value == v && r.state != Released)
  {
    RangeValuesExact(RangeOf(pol, kind).reservedRanges, v);
  }

  lemma {:induction false} RangeValuesExact(bounds: seq<(int, int)>, v: int)
    ensures v in RangeValues(bounds) <==> exists b :: b in bounds && b.0 <= v <= b.1
  {
    if bounds != [] {
      RangeValuesExact(bounds[1..], v);
      assert forall b :: b in bounds <==> b == bounds[0] || b in bounds[1..];
    }
  }

  lemma ScalarsAllowed(pol: Policy, k: Kind)
    requires PolicyValid(pol)
    ensures forall b :: b in RangeOf(pol, k).reservedRanges ==> b.0 <= b.1
    ensures forall v :: v in ReservedValues(RangeOf(pol, k)) ==> RangeOf(pol, k).min <= v <= RangeOf(pol, k).max
  {
    assert k in {Vlan, L2Instance, L3Instance, Asn} && ReservedScalarsValid(RangeOf(pol, k));
  }

  lemma PolicyAllowed(req: Requirements, pol: Policy)
    requires HasPools(pol) && PolicyValid(pol) && |req.devices| >= 2 && (req.handoff.Some? ==> BorderHandoff in pol.pools)
    ensures Allowed(req, pol)
  {
    forall k: Kind
      ensures forall b :: b in RangeOf(pol, k).reservedRanges ==> b.0 <= b.1
      ensures forall v :: v in ReservedValues(RangeOf(pol, k)) ==> RangeOf(pol, k).min <= v <= RangeOf(pol, k).max
    {
      ScalarsAllowed(pol, k);
    }
  }

  lemma DesignIsMet(req: Requirements, pol: Policy, nets: seq<NetRow>, scalars: seq<ScalarRow>, d: Draft)
    requires Derive(req, pol, nets, scalars) == Ok(d)
    ensures Allowed(req, pol) && DesignMet(req, pol, Opening(pol, req.domain, nets, scalars), d)
  {
    FillIsMet(req, pol, Opening(pol, req.domain, nets, scalars), d);
    PolicyAllowed(req, pol);
  }

  // ----- Nothing else can be the answer -----

  lemma SubnetIsNotShorter(p: Prefix, supernet: Prefix)
    requires SubnetOf(p, supernet)
    ensures supernet.len <= p.len
  {
    if p.len < supernet.len { Pow2Grows(32 - supernet.len, 32 - p.len); }
  }

  lemma LowestBlockIsFirstFit(supernet: Prefix, len: nat, taken: set<Prefix>, p: Prefix)
    requires LowestBlock(supernet, len, taken, p)
    ensures FirstFit(supernet, len, taken) == Ok(p) && supernet.len <= len == p.len
  {
    SubnetIsNotShorter(p, supernet);
    FirstFitExact(supernet, len, taken);
    assert !Blocked(p, taken);
    FirstFitIsLowest(supernet, len, taken);
    assert FreeBlock(supernet, len, taken, FirstFit(supernet, len, taken).value);
  }

  lemma LowestValueIsFirstFree(min: int, max: int, taken: set<int>, v: int)
    requires LowestValue(min, max, taken, v)
    ensures FirstFreeFrom(min, max, taken) == Ok(v)
  {
    FirstFreeExact(min, max, taken);
  }

  lemma SizeIsHostPrefix(q: SiteReq, len: nat, supernetLen: nat)
    requires SizedFor(q, len) && supernetLen <= len
    ensures HostPrefix(q.users, q.headroom, q.scaled, supernetLen) == Ok(len)
  {
    HostPrefixExact(q.users, q.headroom, q.scaled, supernetLen);
    CeilingCovers(q.scaled, Pow2(32 - len) - 2);
    assert UsableHosts(len) >= Required(q.scaled);
    var h := HostPrefix(q.users, q.headroom, q.scaled, supernetLen);
    CeilingCovers(q.scaled, Pow2(32 - h.value) - 2);
    assert UsableHosts(h.value) >= Required(q.scaled);
  }

  lemma DeviceIsForced(pol: Policy, opening: Book, d: Draft, q: DeviceReq, x: Device)
    requires TakenByItems(opening, d) && DeviceAt(pol, opening, d.devices, x, q)
    ensures AddDevice(pol, d, q).Ok? && AddDevice(pol, d, q).value.devices == d.devices + [x]
  {
    LowestBlockIsFirstFit(pol.pools[Loopbacks].cidr, pol.pools[Loopbacks].prefixLen, NetsOf(d.book, Loopbacks), x.loopback);
  }

  lemma LinkIsForced(pol: Policy, opening: Book, d: Draft, q: LinkReq, x: Link)
    requires TakenByItems(opening, d) && LinkAt(pol, opening, DeviceIds(d.devices), d.links, x, q)
    ensures AddLink(pol, d, q).Ok? && AddLink(pol, d, q).value.links == d.links + [x]
  {
    LowestBlockIsFirstFit(pol.pools[UnderlayP2p].cidr, pol.pools[UnderlayP2p].prefixLen, NetsOf(d.book, UnderlayP2p), x.subnet);
  }

  lemma VnIsForced(pol: Policy, opening: Book, d: Draft, q: VnReq, x: Vn)
    requires TakenByItems(opening, d) && VnAt(pol, opening, d.localAs, d.vns, x, q)
    ensures ReserveScalar(d.book, L3Instance, pol.l3.min, pol.l3.max) == Ok(x.l3) && OpenVn(d, q, x.l3).vns == d.vns + [x]
  {
    LowestValueIsFirstFree(pol.l3.min, pol.l3.max, ScalarsOf(d.book, L3Instance), x.l3);
  }

  /** The step's parts put together. */
  lemma PoolOfParts(pol: Policy, d: Draft, vn: Id, q: SiteReq, x: EndpointPool)
    requires OverlayHosts in pol.pools
    requires FirstFreeFrom(pol.vlan.min, pol.vlan.max, ScalarsOf(d.book, Vlan)) == Ok(x.vlan)
    requires x.l2 == pol.l2.min + x.vlan <= pol.l2.max && x.l2 !in ScalarsOf(d.book, L2Instance)
    requires HostPrefix(q.users, q.headroom, q.scaled, pol.pools[OverlayHosts].cidr.len) == Ok(x.prefix.len)
    requires FirstFit(pol.pools[OverlayHosts].cidr, x.prefix.len, NetsOf(d.book, OverlayHosts)) == Ok(x.prefix)
    requires x.id == Lower(q.site) + "-" + Lower(vn) && x.site == q.site && x.vn == vn && x.gateway == x.prefix.addr + 1
    ensures AddPool(pol, d, vn, q).Ok? && AddPool(pol, d, vn, q).value.pools == d.pools + [x]
  {
  }

  lemma PoolIsForced(pol: Policy, opening: Book, d: Draft, vn: Id, q: SiteReq, x: EndpointPool)
    requires TakenByItems(opening, d) && d.peers == [] && PoolAt(pol, opening, d.pools, x, vn, q)
    ensures AddPool(pol, d, vn, q).Ok? && AddPool(pol, d, vn, q).value.pools == d.pools + [x]
  {
    hide LowestBlock, LowestValue, SizedFor, AddPool;
    assert PeerVlanSet([]) == {};
    assert ScalarsOf(d.book, Vlan) == ScalarsOf(opening, Vlan) + PoolVlanSet(d.pools);
    LowestValueIsFirstFree(pol.vlan.min, pol.vlan.max, ScalarsOf(d.book, Vlan), x.vlan);
    LowestBlockIsFirstFit(pol.pools[OverlayHosts].cidr, x.prefix.len, NetsOf(d.book, OverlayHosts), x.prefix);
    SizeIsHostPrefix(q, x.prefix.len, pol.pools[OverlayHosts].cidr.len);
    PoolOfParts(pol, d, vn, q, x);
  }

  lemma PeerIsForced(pol: Policy, opening: Book, d: Draft, q: PeerReq, x: Peer)
    requires TakenByItems(opening, d)
    requires PeerAt(pol, opening, BorderIds(d.devices), VrfNames(d.vns), PoolVlanSet(d.pools), d.peers, x, q)
    ensures AddPeer(pol, d, q).Ok? && AddPeer(pol, d, q).value.peers == d.peers + [x]
  {
    LowestValueIsFirstFree(pol.handoffMin, pol.handoffMax, ScalarsOf(d.book, Vlan), x.vlan);
    LowestBlockIsFirstFit(pol.pools[BorderHandoff].cidr, pol.pools[BorderHandoff].prefixLen, NetsOf(d.book, BorderHandoff), x.prefix);
  }

  lemma DeviceStep(pol: Policy, opening: Book, d: Draft, q: DeviceReq, all: seq<Device>)
    requires TakenByItems(opening, d) && d.devices < all && DeviceAt(pol, opening, all[..|d.devices|], all[|d.devices|], q)
    ensures AddDevice(pol, d, q).Ok?
    ensures var r := AddDevice(pol, d, q).value;
            && TakenByItems(opening, r) && r.devices <= all && |r.devices| == |d.devices| + 1
            && r.links == d.links && r.vns == d.vns && r.pools == d.pools && r.peers == d.peers
  {
    assert all[..|d.devices|] == d.devices;
    DeviceIsForced(pol, opening, d, q, all[|d.devices|]);
    DeviceIsMet(pol, opening, d, q);
  }

  lemma {:induction false} DevicesAreForced(pol: Policy, opening: Book, d: Draft, reqs: seq<DeviceReq>, all: seq<Device>)
    requires TakenByItems(opening, d) && |all| == |reqs| && d.devices <= all
    requires forall i :: 0 <= i < |all| ==> DeviceAt(pol, opening, all[..i], all[i], reqs[i])
    ensures AddDevices(pol, d, reqs[|d.devices|..]).Ok? && AddDevices(pol, d, reqs[|d.devices|..]).value.devices == all
    decreases |reqs| - |d.devices|
  {
    var j := |d.devices|;
    if j < |reqs| {
      assert reqs[j..][0] == reqs[j] && reqs[j..][1..] == reqs[j + 1..];
      DeviceStep(pol, opening, d, reqs[j], all);
      DevicesAreForced(pol, opening, AddDevice(pol, d, reqs[j]).value, reqs, all);
    } else {
      assert reqs[j..] == [] && d.devices == all;
    }
  }

  lemma LinkStep(pol: Policy, opening: Book, d: Draft, q: LinkReq, all: seq<Link>)
    requires TakenByItems(opening, d) && d.links < all && LinkAt(pol, opening, DeviceIds(d.devices), all[..|d.links|], all[|d.links|], q)
    ensures AddLink(pol, d, q).Ok?
    ensures var r := AddLink(pol, d, q).value;
            && TakenByItems(opening, r) && r.links <= all && |r.links| == |d.links| + 1
            && r.devices == d.devices && r.vns == d.vns && r.pools == d.pools && r.peers == d.peers
  {
    assert all[..|d.links|] == d.links;
    LinkIsForced(pol, opening, d, q, all[|d.links|]);
    LinkIsMet(pol, opening, d, q);
  }

  lemma {:induction false} LinksAreForced(pol: Policy, opening: Book, d: Draft, devices: set<Id>, reqs: seq<LinkReq>, all: seq<Link>)
    requires TakenByItems(opening, d) && |all| == |reqs| && d.links <= all && devices == DeviceIds(d.devices)
    requires forall i :: 0 <= i < |all| ==> LinkAt(pol, opening, devices, all[..i], all[i], reqs[i])
    ensures AddLinks(pol, d, reqs[|d.links|..]).Ok? && AddLinks(pol, d, reqs[|d.links|..]).value.links == all
    decreases |reqs| - |d.links|
  {
    var j := |d.links|;
    if j < |reqs| {
      assert reqs[j..][0] == reqs[j] && reqs[j..][1..] == reqs[j + 1..];
      LinkStep(pol, opening, d, reqs[j], all);
      LinksAreForced(pol, opening, AddLink(pol, d, reqs[j]).value, devices, reqs, all);
    } else {
      assert reqs[j..] == [] && d.links == all;
    }
  }

  lemma PeerStep(pol: Policy, opening: Book, d: Draft, q: PeerReq, all: seq<Peer>)
    requires TakenByItems(opening, d) && d.peers < all
    requires PeerAt(pol, opening, BorderIds(d.devices), VrfNames(d.vns), PoolVlanSet(d.pools), all[..|d.peers|], all[|d.peers|], q)
    ensures AddPeer(pol, d, q).Ok?
    ensures var r := AddPeer(pol, d, q).value;
            && TakenByItems(opening, r) && r.peers <= all && |r.peers| == |d.peers| + 1 && r.localAs == d.localAs
            && r.devices == d.devices && r.links == d.links && r.vns == d.vns && r.pools == d.pools
  {
    assert all[..|d.peers|] == d.peers;
    PeerIsForced(pol, opening, d, q, all[|d.peers|]);
    PeerIsMet(pol, opening, d, q);
  }

  lemma {:induction false} PeersAreForced(pol: Policy, opening: Book, d: Draft, borders: set<Id>, vrfs: set<Id>, vlans: set<int>, reqs: seq<PeerReq>, all: seq<Peer>)
    requires TakenByItems(opening, d) && |all| == |reqs| && d.peers <= all
    requires borders == BorderIds(d.devices) && vrfs == VrfNames(d.vns) && vlans == PoolVlanSet(d.pools)
    requires forall i :: 0 <= i < |all| ==> PeerAt(pol, opening, borders, vrfs, vlans, all[..i], all[i], reqs[i])
    ensures AddPeers(pol, d, reqs[|d.peers|..]).Ok? && AddPeers(pol, d, reqs[|d.peers|..]).value.peers == all
    decreases |reqs| - |d.peers|
  {
    var j := |d.peers|;
    if j < |reqs| {
      assert reqs[j..][0] == reqs[j] && reqs[j..][1..] == reqs[j + 1..];
      PeerStep(pol, opening, d, reqs[j], all);
      PeersAreForced(pol, opening, AddPeer(pol, d, reqs[j]).value, borders, vrfs, vlans, reqs, all);
    } else {
      assert reqs[j..] == [] && d.peers == all;
    }
  }

  lemma PoolStep(pol: Policy, opening: Book, d: Draft, vn: Id, q: SiteReq, all: seq<EndpointPool>)
    requires TakenByItems(opening, d) && d.peers == [] && d.pools < all && PoolAt(pol, opening, all[..|d.pools|], all[|d.pools|], vn, q)
    ensures AddPool(pol, d, vn, q).Ok?
    ensures var r := AddPool(pol, d, vn, q).value;
            && TakenByItems(opening, r) && r.pools <= all && |r.pools| == |d.pools| + 1 && r.localAs == d.localAs
            && r.devices == d.devices && r.links == d.links && r.vns == d.vns && r.peers == []
  {
    assert all[..|d.pools|] == d.pools;
    PoolIsForced(pol, opening, d, vn, q, all[|d.pools|]);
    PoolIsMet(pol, opening, d, vn, q);
  }

  ghost predicate PoolIn(pol: Policy, opening: Book, all: seq<EndpointPool>, asked: seq<(Id, SiteReq)>, i: nat) {
    i < |all| == |asked| && PoolAt(pol, opening, all[..i], all[i], asked[i].0, asked[i].1)
  }

  ghost predicate PoolsIn(pol: Policy, opening: Book, all: seq<EndpointPool>, asked: seq<(Id, SiteReq)>) {
    |all| == |asked| && forall i: nat :: i < |all| ==> PoolIn(pol, opening, all, asked, i)
  }

  lemma NextPool(pol: Policy, opening: Book, d: Draft, vn: Id, q: SiteReq, asked: seq<(Id, SiteReq)>, all: seq<EndpointPool>)
    requires TakenByItems(opening, d) && d.peers == [] && PoolsIn(pol, opening, all, asked) && d.pools < all && asked[|d.pools|] == (vn, q)
    ensures AddPool(pol, d, vn, q).Ok?
    ensures var r := AddPool(pol, d, vn, q).value; TakenByItems(opening, r) && r.pools <= all && |r.pools| == |d.pools| + 1 && r.peers == []
  {
    assert PoolIn(pol, opening, all, asked, |d.pools|);
    PoolStep(pol, opening, d, vn, q, all);
  }

  lemma {:induction false} PoolsAreForced(pol: Policy, opening: Book, d: Draft, vn: Id, sites: seq<SiteReq>, k: nat,
                                          asked: seq<(Id, SiteReq)>, all: seq<EndpointPool>)
    requires TakenByItems(opening, d) && d.peers == [] && PoolsIn(pol, opening, all, asked) && d.pools <= all
    requires k == |d.pools| + |sites| <= |all| && asked[|d.pools|..k] == Pairs(vn, sites)
    ensures AddPools(pol, d, vn, sites).Ok? && AddPools(pol, d, vn, sites).value.pools == all[..k]
    decreases |sites|
  {
    if sites != [] {
      var j := |d.pools|;
      assert asked[j] == asked[j..k][0] && asked[j + 1..k] == asked[j..k][1..] && Pairs(vn, sites)[1..] == Pairs(vn, sites[1..]);
      NextPool(pol, opening, d, vn, sites[0], asked, all);
      PoolsAreForced(pol, opening, AddPool(pol, d, vn, sites[0]).value, vn, sites[1..], k, asked, all);
    }
  }

  lemma OneVnIsForced(pol: Policy, opening: Book, d: Draft, q: VnReq, x: Vn, k: nat, asked: seq<(Id, SiteReq)>, pools: seq<EndpointPool>)
    requires TakenByItems(opening, d) && d.peers == [] && PoolsIn(pol, opening, pools, asked) && d.pools <= pools
    requires k == |d.pools| + |Sort(q.sites, SiteLe)| <= |pools| && asked[|d.pools|..k] == Pairs(q.name, Sort(q.sites, SiteLe))
    requires VnAt(pol, opening, d.localAs, d.vns, x, q)
    ensures AddVn(pol, d, q).Ok? && AddVn(pol, d, q).value.vns == d.vns + [x] && AddVn(pol, d, q).value.pools == pools[..k]
  {
    VnIsForced(pol, opening, d, q, x);
    VnIsMet(pol, opening, d, q);
    PoolsAreForced(pol, opening, OpenVn(d, q, x.l3), q.name, Sort(q.sites, SiteLe), k, asked, pools);
    PoolsGrow(pol, opening, OpenVn(d, q, x.l3), q.name, Sort(q.sites, SiteLe));
  }

  lemma VnStep(pol: Policy, opening: Book, d: Draft, q: VnReq, k: nat, all: seq<Vn>, asked: seq<(Id, SiteReq)>, pools: seq<EndpointPool>)
    requires TakenByItems(opening, d) && d.peers == [] && PoolsIn(pol, opening, pools, asked) && d.pools <= pools
    requires k == |d.pools| + |Sort(q.sites, SiteLe)| <= |pools| && asked[|d.pools|..k] == Pairs(q.name, Sort(q.sites, SiteLe))
    requires d.vns < all && VnAt(pol, opening, d.localAs, all[..|d.vns|], all[|d.vns|], q)
    ensures AddVn(pol, d, q).Ok?
    ensures var r := AddVn(pol, d, q).value;
            && TakenByItems(opening, r) && r.peers == [] && r.localAs == d.localAs && r.devices == d.devices && r.links == d.links
            && r.vns <= all && |r.vns| == |d.vns| + 1 && r.pools <= pools && |r.pools| == k
  {
    assert all[..|d.vns|] == d.vns;
    OneVnIsForced(pol, opening, d, q, all[|d.vns|], k, asked, pools);
    OneVnGrows(pol, opening, d, q);
  }

  lemma {:induction false} VnsAreForced(pol: Policy, opening: Book, d: Draft, localAs: int, reqs: seq<VnReq>, all: seq<Vn>,
                                        asked: seq<(Id, SiteReq)>, pools: seq<EndpointPool>)
    requires TakenByItems(opening, d) && d.peers == [] && d.localAs == localAs
    requires |all| == |reqs| && d.vns <= all && PoolsIn(pol, opening, pools, asked) && d.pools <= pools
    requires asked[|d.pools|..] == AskedPools(reqs[|d.vns|..])
    requires forall i :: 0 <= i < |all| ==> VnAt(pol, opening, localAs, all[..i], all[i], reqs[i])
    ensures var r := AddVns(pol, d, reqs[|d.vns|..]); r.Ok? && r.value.vns == all && r.value.pools == pools
    decreases |reqs| - |d.vns|
  {
    var j := |d.vns|;
    if j < |reqs| {
      assert reqs[j..][0] == reqs[j] && reqs[j..][1..] == reqs[j + 1..];
      var k := NextAsked(asked, |d.pools|, reqs[j..]);
      VnStep(pol, opening, d, reqs[j], k, all, asked, pools);
      VnsAreForced(pol, opening, AddVn(pol, d, reqs[j]).value, localAs, reqs, all, asked, pools);
    } else {
      assert reqs[j..] == [] && d.vns == all && asked[|d.pools|..] == [];
    }
  }

  // ----- The derivation is exact -----

  ghost predicate SameItems(d: Draft, x: Draft) {
    d.devices == x.devices && d.links == x.links && d.localAs == x.localAs && d.vns == x.vns && d.pools == x.pools && d.peers == x.peers
  }

  lemma AllowedPolicy(req: Requirements, pol: Policy)
    requires Allowed(req, pol)
    ensures HasPools(pol) && PolicyValid(pol) && |req.devices| >= 2
  {
    forall k | k in {Vlan, L2Instance, L3Instance, Asn} ensures ReservedScalarsValid(RangeOf(pol, k)) {
    }
  }

  lemma UnderlayIsForced(req: Requirements, pol: Policy, opening: Book, d0: Draft, devices: seq<Device>, links: seq<Link>)
    returns (d1: Draft, d2: Draft)
    requires TakenByItems(opening, d0) && d0.devices == [] && d0.links == [] && d0.vns == [] && d0.pools == [] && d0.peers == []
    requires UnderlayMet(req, pol, opening, devices, links)
    ensures AddDevices(pol, d0, Sort(req.devices, DeviceLe)) == Ok(d1) && AddLinks(pol, d1, Sort(req.links, LinkLe)) == Ok(d2)
    ensures d2.devices == devices && d2.links == links && d2.book.scalars == d0.book.scalars
    ensures TakenByItems(opening, d2) && d2.vns == [] && d2.pools == [] && d2.peers == []
  {
    var ds, ls := Sort(req.devices, DeviceLe), Sort(req.links, LinkLe);
    assert ds[0..] == ds && ls[0..] == ls;
    DevicesAreForced(pol, opening, d0, ds, devices);
    DevicesGrow(pol, opening, d0, ds);
    d1 := AddDevices(pol, d0, ds).value;
    LinksAreForced(pol, opening, d1, DeviceIds(devices), ls, links);
    LinksGrow(pol, opening, d1, ls);
    d2 := AddLinks(pol, d1, ls).value;
    DevicesLeaveScalars(pol, d0, ds);
    LinksLeaveScalars(pol, d1, ls);
  }

  lemma AsnIsForced(req: Requirements, pol: Policy, opening: Book, d2: Draft, localAs: int) returns (d3: Draft)
    requires TakenByItems(opening, d2) && ScalarsOf(d2.book, Asn) == ScalarsOf(opening, Asn) && AsnMet(req, pol, opening, localAs)
    ensures AddAsn(pol, d2, req.needsAsn) == Ok(d3) && d3.localAs == localAs && TakenByItems(opening, d3)
    ensures d3.devices == d2.devices && d3.links == d2.links && d3.vns == d2.vns && d3.pools == d2.pools && d3.peers == d2.peers
  {
    if req.needsAsn { LowestValueIsFirstFree(pol.asn.min, pol.asn.max, ScalarsOf(opening, Asn), localAs); }
    d3 := AddAsn(pol, d2, req.needsAsn).value;
    AsnIsMet(req, pol, opening, d2, d3);
  }

  lemma OverlayIsForced(req: Requirements, pol: Policy, opening: Book, d3: Draft, localAs: int, vns: seq<Vn>, pools: seq<EndpointPool>)
    returns (d4: Draft)
    requires TakenByItems(opening, d3) && d3.vns == [] && d3.pools == [] && d3.peers == [] && d3.localAs == localAs
    requires OverlayMet(req, pol, opening, localAs, vns, pools)
    ensures AddVns(pol, d3, Sort(req.vns, VnLe)) == Ok(d4) && d4.vns == vns && d4.pools == pools && TakenByItems(opening, d4)
    ensures d4.devices == d3.devices && d4.links == d3.links && d4.localAs == localAs && d4.peers == []
  {
    var vs := Sort(req.vns, VnLe);
    var asked := AskedPools(vs);
    forall i: nat | i < |pools| ensures PoolIn(pol, opening, pools, asked, i) {
    }
    assert vs[0..] == vs && asked[0..] == asked;
    VnsAreForced(pol, opening, d3, localAs, vs, vns, asked, pools);
    VnsGrow(pol, opening, d3, vs);
    d4 := AddVns(pol, d3, vs).value;
  }

  lemma HandoffIsForced(handoff: Option<seq<PeerReq>>, pol: Policy, opening: Book, d4: Draft, x: Draft) returns (d5: Draft)
    requires TakenByItems(opening, d4) && d4.peers == [] && (handoff.Some? ==> BorderHandoff in pol.pools)
    requires d4.devices == x.devices && d4.links == x.links && d4.vns == x.vns && d4.pools == x.pools && d4.localAs == x.localAs
    requires PeersMet(if handoff.Some? then handoff.value else [], pol, opening,
                      BorderIds(x.devices), VrfNames(x.vns), PoolVlanSet(x.pools), x.peers)
    ensures AddHandoff(pol, d4, handoff) == Ok(d5) && SameItems(d5, x)
  {
    if handoff.Some? {
      var ps := Sort(handoff.value, PeerLe);
      assert ps[0..] == ps;
      PeersAreForced(pol, opening, d4, BorderIds(x.devices), VrfNames(x.vns), PoolVlanSet(x.pools), ps, x.peers);
    }
    d5 := AddHandoff(pol, d4, handoff).value;
    HandoffIsMet(handoff, pol, opening, d4, d5);
  }

  lemma FillFollows(req: Requirements, pol: Policy, d0: Draft, d1: Draft, d2: Draft, d3: Draft, d4: Draft, d5: Draft)
    requires AddDevices(pol, d0, Sort(req.devices, DeviceLe)) == Ok(d1) && AddLinks(pol, d1, Sort(req.links, LinkLe)) == Ok(d2)
    requires AddAsn(pol, d2, req.needsAsn) == Ok(d3) && AddVns(pol, d3, Sort(req.vns, VnLe)) == Ok(d4)
    requires AddHandoff(pol, d4, req.handoff) == Ok(d5)
    ensures Fill(req, pol, d0) == Ok(d5)
  {
  }

  lemma FillIsForced(req: Requirements, pol: Policy, opening: Book, d0: Draft, x: Draft)
    requires d0 == Blank(opening) && TakenByItems(opening, d0)
    requires DesignMet(req, pol, opening, x) && (req.handoff.Some? ==> BorderHandoff in pol.pools)
    ensures Fill(req, pol, d0).Ok? && SameItems(Fill(req, pol, d0).value, x)
  {
    var d1, d2 := UnderlayIsForced(req, pol, opening, d0, x.devices, x.links);
    var d3 := AsnIsForced(req, pol, opening, d2, x.localAs);
    var d4 := OverlayIsForced(req, pol, opening, d3, x.localAs, x.vns, x.pools);
    var d5 := HandoffIsForced(req.handoff, pol, opening, d4, x);
    FillFollows(req, pol, d0, d1, d2, d3, d4, d5);
  }

  lemma SameItemsMeet(req: Requirements, pol: Policy, opening: Book, d: Draft, x: Draft)
    requires DesignMet(req, pol, opening, d) && SameItems(d, x)
    ensures DesignMet(req, pol, opening, x)
  {
  }

  lemma FillFromBlank(req: Requirements, pol: Policy, opening: Book, x: Draft)
    requires DesignMet(req, pol, opening, x) && (req.handoff.Some? ==> BorderHandoff in pol.pools)
    ensures Fill(req, pol, Blank(opening)).Ok? && SameItems(Fill(req, pol, Blank(opening)).value, x)
  {
    FillIsForced(req, pol, opening, Blank(opening), x);
  }

  lemma DeriveIsFill(req: Requirements, pol: Policy, nets: seq<NetRow>, scalars: seq<ScalarRow>)
    requires Allowed(req, pol)
    ensures Derive(req, pol, nets, scalars) == Fill(req, pol, Blank(Opening(pol, req.domain, nets, scalars)))
  {
    AllowedPolicy(req, pol);
  }

  lemma DesignIsForced(req: Requirements, pol: Policy, nets: seq<NetRow>, scalars: seq<ScalarRow>, x: Draft)
    requires Allowed(req, pol) && DesignMet(req, pol, Opening(pol, req.domain, nets, scalars), x)
    ensures Derive(req, pol, nets, scalars).Ok? && SameItems(Derive(req, pol, nets, scalars).value, x)
  {
    DeriveIsFill(req, pol, nets, scalars);
    FillFromBlank(req, pol, Opening(pol, req.domain, nets, scalars), x);
  }

  /**
   A design is derived if and only if the checks hold and it is the design asked for: one device,
   link, network, (network, site) pool and peer for each one asked for, in order, as asked, and no
   other; each with the lowest address block and number that the ledger, the policy and the items
   before it leave free. So the derivation is refused exactly when no design meets the requirements.
   */
  lemma DerivedExactly(req: Requirements, pol: Policy, nets: seq<NetRow>, scalars: seq<ScalarRow>, x: Draft)
    ensures var r := Derive(req, pol, nets, scalars);
            r.Ok? && SameItems(r.value, x) <==> Allowed(req, pol) && DesignMet(req, pol, Opening(pol, req.domain, nets, scalars), x)
  {
    var r := Derive(req, pol, nets, scalars);
    if r.Ok? && SameItems(r.value, x) {
      DesignIsMet(req, pol, nets, scalars, r.value);
      SameItemsMeet(req, pol, Opening(pol, req.domain, nets, scalars), r.value, x);
    }
    if Allowed(req, pol) && DesignMet(req, pol, Opening(pol, req.domain, nets, scalars), x) {
      DesignIsForced(req, pol, nets, scalars, x);
    }
  }

  // ----- The order of the items -----

  ghost predicate Rearranged<T>(asked: seq<T>, sorted: seq<T>) {
    |sorted| == |asked| && multiset(sorted) == multiset(asked)
  }

  /** Devices and links by id, networks by name, a network's sites by site. */
  lemma ListsAreInOrder(req: Requirements, vn: VnReq)
    ensures var s := Sort(req.devices, DeviceLe);
            Rearranged(req.devices, s) && forall i, j :: 0 <= i < j < |s| ==> StringLe(s[i].id, s[j].id)
    ensures var s := Sort(req.links, LinkLe);
            Rearranged(req.links, s) && forall i, j :: 0 <= i < j < |s| ==> StringLe(s[i].id, s[j].id)
    ensures var s := Sort(req.vns, VnLe);
            Rearranged(req.vns, s) && forall i, j :: 0 <= i < j < |s| ==> StringLe(s[i].name, s[j].name)
    ensures var s := Sort(vn.sites, SiteLe);
            Rearranged(vn.sites, s) && forall i, j :: 0 <= i < j < |s| ==> StringLe(s[i].site, s[j].site)
  {
    DeviceLePreorder();
    SortIsPermutation(req.devices, DeviceLe);
    SortIsSorted(req.devices, DeviceLe);
    SortIsPermutation(req.links, LinkLe);
    SortIsSorted(req.links, LinkLe);
    SortIsPermutation(req.vns, VnLe);
    SortIsSorted(req.vns, VnLe);
    SortIsPermutation(vn.sites, SiteLe);
    SortIsSorted(vn.sites, SiteLe);
  }

  /** A link's ends by device, then port; peers by device, then fusion node, then VRF. */
  lemma KeysAreInOrder(ends: seq<Endpoint>, peers: seq<PeerReq>)
    ensures var s := Sort(ends, EndpointLe);
            && Rearranged(ends, s)
            && forall i, j :: 0 <= i < j < |s| ==>
                 if s[i].device == s[j].device then StringLe(s[i].port, s[j].port) else StringLe(s[i].device, s[j].device)
    ensures var s := Sort(peers, PeerLe);
            && Rearranged(peers, s)
            && forall i, j :: 0 <= i < j < |s| ==>
                 if s[i].device != s[j].device then StringLe(s[i].device, s[j].device)
                 else if s[i].fusion != s[j].fusion then StringLe(s[i].fusion, s[j].fusion)
                 else StringLe(s[i].vrf, s[j].vrf)
  {
    EndpointLePreorder();
    SortIsPermutation(ends, EndpointLe);
    SortIsSorted(ends, EndpointLe);
    PeerLePreorder();
    SortIsPermutation(peers, PeerLe);
    SortIsSorted(peers, PeerLe);
  }
}
