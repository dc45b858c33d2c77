/** What every derivation guarantees about the claims it makes. */
module AllocatorProofs {
  import opened Basics
  import opened Ordering
  import opened Addressing
  import opened Allocator

  // ----- What any sequence of reservations keeps -----

  /** A claim made after `b`: inside its pool, free in `b`, and taken from then on. */
  ghost predicate NewNet(pol: Policy, b: Book, later: Book, c: NetClaim) {
    && c.pool in pol.pools && SubnetOf(c.prefix, pol.pools[c.pool].cidr)
    && !Blocked(c.prefix, NetsOf(b, c.pool))
    && c.prefix in NetsOf(later, c.pool)
  }

  ghost predicate NewScalar(b: Book, later: Book, c: ScalarClaim) {
    c.value !in ScalarsOf(b, c.kind) && c.value in ScalarsOf(later, c.kind)
  }

  ghost predicate Apart(c: NetClaim, d: NetClaim) {
    c.pool == d.pool ==> !Overlaps(c.prefix, d.prefix) && !Overlaps(d.prefix, c.prefix)
  }

  ghost predicate NetsGrow(pol: Policy, b: Book, later: Book) {
    && (forall p :: NetsOf(b, p) <= NetsOf(later, p))
    && (forall c :: c in later.netClaims ==> NewNet(pol, b, later, c))
    && (forall i, j :: 0 <= i < j < |later.netClaims| ==> Apart(later.netClaims[i], later.netClaims[j]))
  }

  ghost predicate ScalarsGrow(b: Book, later: Book) {
    && (forall k :: ScalarsOf(b, k) <= ScalarsOf(later, k))
    && (forall c :: c in later.scalarClaims ==> NewScalar(b, later, c))
    && (forall i, j :: 0 <= i < j < |later.scalarClaims| ==> later.scalarClaims[i] != later.scalarClaims[j])
  }

  /**
   `later` results from the opening book `b` by reservations only: nothing is given
   back, and the claims are new, pairwise disjoint and pairwise distinct.
   */
  ghost predicate Grows(pol: Policy, b: Book, later: Book) {
    NetsGrow(pol, b, later) && ScalarsGrow(b, later)
  }

  lemma TakePrefixGrows(pol: Policy, b: Book, now: Book, pool: Pool, p: Prefix)
    requires Grows(pol, b, now)
    requires pool in pol.pools && SubnetOf(p, pol.pools[pool].cidr) && !Blocked(p, NetsOf(now, pool))
    ensures Grows(pol, b, TakePrefix(now, pool, p))
  {
    var later := TakePrefix(now, pool, p);
    forall c | c in later.netClaims ensures NewNet(pol, b, later, c) {
      if c in now.netClaims { assert NewNet(pol, b, now, c); }
    }
    forall i, j | 0 <= i < j < |later.netClaims| ensures Apart(later.netClaims[i], later.netClaims[j]) {
      assert NewNet(pol, b, now, now.netClaims[i]);
    }
  }

  lemma TakeScalarGrows(pol: Policy, b: Book, now: Book, kind: Kind, v: int)
    requires Grows(pol, b, now) && v !in ScalarsOf(now, kind)
    ensures Grows(pol, b, TakeScalar(now, kind, v))
  {
    var later := TakeScalar(now, kind, v);
    forall c | c in later.scalarClaims ensures NewScalar(b, later, c) {
      if c in now.scalarClaims { assert NewScalar(b, now, c); }
    }
    forall i, j | 0 <= i < j < |later.scalarClaims| ensures later.scalarClaims[i] != later.scalarClaims[j] {
      assert NewScalar(b, now, now.scalarClaims[i]);
    }
  }

  // ----- The reservation lists record exactly what the intent uses -----

  /** The prefixes claimed from one pool, in order. */
  function PrefixesOf(claims: seq<NetClaim>, pool: Pool): seq<Prefix> {
    if claims == [] then []
    else
      var rest := PrefixesOf(claims[..|claims| - 1], pool);
      var last := claims[|claims| - 1];
      if last.pool == pool then rest + [last.prefix] else rest
  }

  /** The values claimed of one kind, in order. */
  function ValuesOf(claims: seq<ScalarClaim>, kind: Kind): seq<int> {
    if claims == [] then []
    else
      var rest := ValuesOf(claims[..|claims| - 1], kind);
      var last := claims[|claims| - 1];
      if last.kind == kind then rest + [last.value] else rest
  }

  function LoopbacksOf(s: seq<Device>): seq<Prefix> { seq(|s|, i requires 0 <= i < |s| => s[i].loopback) }
  function SubnetsOf(s: seq<Link>): seq<Prefix> { seq(|s|, i requires 0 <= i < |s| => s[i].subnet) }
  function PoolPrefixes(s: seq<EndpointPool>): seq<Prefix> { seq(|s|, i requires 0 <= i < |s| => s[i].prefix) }
  function PeerPrefixes(s: seq<Peer>): seq<Prefix> { seq(|s|, i requires 0 <= i < |s| => s[i].prefix) }
  function PoolVlans(s: seq<EndpointPool>): seq<int> { seq(|s|, i requires 0 <= i < |s| => s[i].vlan) }
  function PoolL2s(s: seq<EndpointPool>): seq<int> { seq(|s|, i requires 0 <= i < |s| => s[i].l2) }
  function PeerVlans(s: seq<Peer>): seq<int> { seq(|s|, i requires 0 <= i < |s| => s[i].vlan) }
  function VnL3s(s: seq<Vn>): seq<int> { seq(|s|, i requires 0 <= i < |s| => s[i].l3) }

  ghost predicate NetsRecorded(d: Draft) {
    && PrefixesOf(d.book.netClaims, Loopbacks) == LoopbacksOf(d.devices)
    && PrefixesOf(d.book.netClaims, UnderlayP2p) == SubnetsOf(d.links)
    && PrefixesOf(d.book.netClaims, OverlayHosts) == PoolPrefixes(d.pools)
    && PrefixesOf(d.book.netClaims, BorderHandoff) == PeerPrefixes(d.peers)
  }

  ghost predicate ScalarsRecorded(d: Draft) {
    && ValuesOf(d.book.scalarClaims, Vlan) == PoolVlans(d.pools) + PeerVlans(d.peers)
    && ValuesOf(d.book.scalarClaims, L2Instance) == PoolL2s(d.pools)
    && ValuesOf(d.book.scalarClaims, L3Instance) == VnL3s(d.vns)
  }

  lemma TakePrefixRecords(b: Book, pool: Pool, p: Prefix)
    ensures forall q :: PrefixesOf(TakePrefix(b, pool, p).netClaims, q)
                     == if q == pool then PrefixesOf(b.netClaims, q) + [p] else PrefixesOf(b.netClaims, q)
  {
    var claims := TakePrefix(b, pool, p).netClaims;
    assert claims[..|claims| - 1] == b.netClaims;
  }

  lemma TakeScalarRecords(b: Book, kind: Kind, v: int)
    ensures forall k :: ValuesOf(TakeScalar(b, kind, v).scalarClaims, k)
                     == if k == kind then ValuesOf(b.scalarClaims, k) + [v] else ValuesOf(b.scalarClaims, k)
  {
    var claims := TakeScalar(b, kind, v).scalarClaims;
    assert claims[..|claims| - 1] == b.scalarClaims;
  }

  // ----- The shape of the derived items -----

  ghost predicate LinkShaped(pol: Policy, l: Link) {
    && l.subnet.len == PrefixLen(pol, UnderlayP2p) <= 31
    && |l.ends| == 2 && l.ends[0].ip == l.subnet.addr && l.ends[1].ip == l.subnet.addr + 1
  }

  ghost predicate PoolShaped(pol: Policy, p: EndpointPool) {
    && p.prefix.len <= 30 && p.gateway == p.prefix.addr + 1
    && pol.vlan.min <= p.vlan <= pol.vlan.max && p.l2 == pol.l2.min + p.vlan <= pol.l2.max
  }

  ghost predicate PeerShaped(pol: Policy, p: Peer) {
    && p.prefix.len == PrefixLen(pol, BorderHandoff) <= 31
    && p.localIp == FirstHost(p.prefix) && p.neighborIp == FirstHost(p.prefix) + 1
    && pol.handoffMin <= p.vlan <= pol.handoffMax
  }

  ghost predicate VnShaped(pol: Policy, d: Draft, v: Vn) {
    v.rd == RdText(d.localAs, v.l3) && pol.l3.min <= v.l3 <= pol.l3.max
  }

  ghost predicate Shaped(pol: Policy, d: Draft) {
    && (forall l :: l in d.links ==> LinkShaped(pol, l))
    && (forall v :: v in d.vns ==> VnShaped(pol, d, v))
    && (forall p :: p in d.pools ==> PoolShaped(pol, p))
    && (forall p :: p in d.peers ==> PeerShaped(pol, p))
  }

  /** What holds of every draft the derivation passes through. */
  ghost predicate Good(pol: Policy, opening: Book, d: Draft) {
    Grows(pol, opening, d.book) && NetsRecorded(d) && ScalarsRecorded(d) && Shaped(pol, d)
  }

  // ----- Every step keeps it -----

  lemma ReservePrefixGrows(pol: Policy, b: Book, now: Book, pool: Pool, len: nat)
    requires Grows(pol, b, now) && ReservePrefix(pol, now, pool, len).Ok?
    ensures Grows(pol, b, TakePrefix(now, pool, ReservePrefix(pol, now, pool, len).value))
    ensures ReservePrefix(pol, now, pool, len).value.len == len
  {
    FirstFitExact(pol.pools[pool].cidr, len, NetsOf(now, pool));
    TakePrefixGrows(pol, b, now, pool, ReservePrefix(pol, now, pool, len).value);
  }

  lemma AddDeviceKeeps(pol: Policy, opening: Book, d: Draft, req: DeviceReq)
    requires Good(pol, opening, d) && AddDevice(pol, d, req).Ok?
    ensures Good(pol, opening, AddDevice(pol, d, req).value)
    ensures AddDevice(pol, d, req).value.peers == d.peers
  {
    var r := AddDevice(pol, d, req).value;
    ReservePrefixGrows(pol, opening, d.book, Loopbacks, PrefixLen(pol, Loopbacks));
    TakePrefixRecords(d.book, Loopbacks, ReservePrefix(pol, d.book, Loopbacks, PrefixLen(pol, Loopbacks)).value);
    assert NetsRecorded(r);
    forall v | v in r.vns ensures VnShaped(pol, r, v) { assert VnShaped(pol, d, v); }
  }

  lemma LinkItemKeeps(pol: Policy, d: Draft, item: Link)
    requires NetsRecorded(d) && ScalarsRecorded(d) && Shaped(pol, d) && LinkShaped(pol, item)
    ensures var r := d.(book := TakePrefix(d.book, UnderlayP2p, item.subnet), links := d.links + [item]);
            NetsRecorded(r) && ScalarsRecorded(r) && Shaped(pol, r)
  {
    TakePrefixRecords(d.book, UnderlayP2p, item.subnet);
    var r := d.(book := TakePrefix(d.book, UnderlayP2p, item.subnet), links := d.links + [item]);
    forall v | v in r.vns ensures VnShaped(pol, r, v) { assert VnShaped(pol, d, v); }
  }

  lemma AddLinkKeeps(pol: Policy, opening: Book, d: Draft, req: LinkReq)
    requires Good(pol, opening, d) && AddLink(pol, d, req).Ok?
    ensures Good(pol, opening, AddLink(pol, d, req).value)
    ensures AddLink(pol, d, req).value.peers == d.peers
  {
    var ends := Sort(req.endpoints, EndpointLe);
    var p := ReservePrefix(pol, d.book, UnderlayP2p, PrefixLen(pol, UnderlayP2p)).value;
    ReservePrefixGrows(pol, opening, d.book, UnderlayP2p, PrefixLen(pol, UnderlayP2p));
    LinkItemKeeps(pol, d, MakeLink(req.id, p, ends[0], ends[1]));
  }

  lemma AddAsnKeeps(pol: Policy, opening: Book, d: Draft, needed: bool)
    requires Good(pol, opening, d) && d.vns == [] && AddAsn(pol, d, needed).Ok?
    ensures Good(pol, opening, AddAsn(pol, d, needed).value)
    ensures AddAsn(pol, d, needed).value.peers == d.peers
  {
    if needed {
      var v := ReserveScalar(d.book, Asn, pol.asn.min, pol.asn.max).value;
      FirstFreeExact(pol.asn.min, pol.asn.max, ScalarsOf(d.book, Asn));
      TakeScalarGrows(pol, opening, d.book, Asn, v);
      TakeScalarRecords(d.book, Asn, v);
    }
  }

  lemma PoolBookGrows(pol: Policy, opening: Book, b: Book, vlan: int, l2: int, p: Prefix)
    requires Grows(pol, opening, b)
    requires vlan !in ScalarsOf(b, Vlan) && l2 !in ScalarsOf(b, L2Instance)
    requires OverlayHosts in pol.pools && SubnetOf(p, pol.pools[OverlayHosts].cidr) && !Blocked(p, NetsOf(b, OverlayHosts))
    ensures Grows(pol, opening, PoolBook(b, vlan, l2, p))
  {
    var b1 := TakeScalar(b, Vlan, vlan);
    var b2 := TakeScalar(b1, L2Instance, l2);
    TakeScalarGrows(pol, opening, b, Vlan, vlan);
    TakeScalarGrows(pol, opening, b1, L2Instance, l2);
    assert NetsOf(b2, OverlayHosts) == NetsOf(b, OverlayHosts);
    TakePrefixGrows(pol, opening, b2, OverlayHosts, p);
  }

  lemma PoolBookRecords(b: Book, vlan: int, l2: int, p: Prefix)
    ensures var c := PoolBook(b, vlan, l2, p);
      && PrefixesOf(c.netClaims, Loopbacks) == PrefixesOf(b.netClaims, Loopbacks)
      && PrefixesOf(c.netClaims, UnderlayP2p) == PrefixesOf(b.netClaims, UnderlayP2p)
      && PrefixesOf(c.netClaims, OverlayHosts) == PrefixesOf(b.netClaims, OverlayHosts) + [p]
      && PrefixesOf(c.netClaims, BorderHandoff) == PrefixesOf(b.netClaims, BorderHandoff)
      && ValuesOf(c.scalarClaims, Vlan) == ValuesOf(b.scalarClaims, Vlan) + [vlan]
      && ValuesOf(c.scalarClaims, L2Instance) == ValuesOf(b.scalarClaims, L2Instance) + [l2]
      && ValuesOf(c.scalarClaims, L3Instance) == ValuesOf(b.scalarClaims, L3Instance)
  {
    var b1 := TakeScalar(b, Vlan, vlan);
    var b2 := TakeScalar(b1, L2Instance, l2);
    TakeScalarRecords(b, Vlan, vlan);
    TakeScalarRecords(b1, L2Instance, l2);
    TakePrefixRecords(b2, OverlayHosts, p);
  }

  lemma AddPoolBookGrows(pol: Policy, opening: Book, d: Draft, vlan: int, l2: int, len: nat, p: Prefix)
    requires Grows(pol, opening, d.book)
    requires ReserveScalar(d.book, Vlan, pol.vlan.min, pol.vlan.max) == Ok(vlan) && ReserveL2(pol, d.book, vlan) == Ok(l2)
    requires ReservePrefix(pol, d.book, OverlayHosts, len) == Ok(p)
    ensures Grows(pol, opening, PoolBook(d.book, vlan, l2, p))
    ensures p.len == len && pol.vlan.min <= vlan <= pol.vlan.max
  {
    FirstFreeExact(pol.vlan.min, pol.vlan.max, ScalarsOf(d.book, Vlan));
    FirstFitExact(pol.pools[OverlayHosts].cidr, len, NetsOf(d.book, OverlayHosts));
    PoolBookGrows(pol, opening, d.book, vlan, l2, p);
  }

  lemma PoolItemKeeps(pol: Policy, d: Draft, item: EndpointPool)
    requires NetsRecorded(d) && ScalarsRecorded(d) && Shaped(pol, d) && PoolShaped(pol, item) && d.peers == []
    ensures var r := d.(book := PoolBook(d.book, item.vlan, item.l2, item.prefix), pools := d.pools + [item]);
            NetsRecorded(r) && ScalarsRecorded(r) && Shaped(pol, r)
  {
    PoolBookRecords(d.book, item.vlan, item.l2, item.prefix);
    var r := d.(book := PoolBook(d.book, item.vlan, item.l2, item.prefix), pools := d.pools + [item]);
    forall v | v in r.vns ensures VnShaped(pol, r, v) { assert VnShaped(pol, d, v); }
  }

  lemma AddPoolKeeps(pol: Policy, opening: Book, d: Draft, vn: Id, req: SiteReq)
    requires Good(pol, opening, d) && d.peers == [] && AddPool(pol, d, vn, req).Ok?
    ensures Good(pol, opening, AddPool(pol, d, vn, req).value)
    ensures AddPool(pol, d, vn, req).value.peers == []
  {
    var vlan := ReserveScalar(d.book, Vlan, pol.vlan.min, pol.vlan.max).value;
    var l2 := ReserveL2(pol, d.book, vlan).value;
    var len := HostPrefix(req.users, req.headroom, req.scaled, pol.pools[OverlayHosts].cidr.len).value;
    var p := ReservePrefix(pol, d.book, OverlayHosts, len).value;
    AddPoolBookGrows(pol, opening, d, vlan, l2, len, p);
    HostPrefixExact(req.users, req.headroom, req.scaled, pol.pools[OverlayHosts].cidr.len);
    PoolItemKeeps(pol, d, EndpointPool(PoolId(req.site, vn), req.site, vn, vlan, l2, p, FirstHost(p)));
  }

  lemma {:induction false} AddPoolsKeeps(pol: Policy, opening: Book, d: Draft, vn: Id, sites: seq<SiteReq>)
    requires Good(pol, opening, d) && d.peers == [] && AddPools(pol, d, vn, sites).Ok?
    ensures Good(pol, opening, AddPools(pol, d, vn, sites).value)
    ensures AddPools(pol, d, vn, sites).value.peers == []
    decreases |sites|
  {
    if sites != [] {
      AddPoolKeeps(pol, opening, d, vn, sites[0]);
      AddPoolsKeeps(pol, opening, AddPool(pol, d, vn, sites[0]).value, vn, sites[1..]);
    }
  }

  lemma OpenVnKeeps(pol: Policy, opening: Book, d: Draft, req: VnReq)
    requires Good(pol, opening, d) && ReserveScalar(d.book, L3Instance, pol.l3.min, pol.l3.max).Ok?
    ensures Good(pol, opening, OpenVn(d, req, ReserveScalar(d.book, L3Instance, pol.l3.min, pol.l3.max).value))
  {
    var l3 := ReserveScalar(d.book, L3Instance, pol.l3.min, pol.l3.max).value;
    var r := OpenVn(d, req, l3);
    FirstFreeExact(pol.l3.min, pol.l3.max, ScalarsOf(d.book, L3Instance));
    TakeScalarGrows(pol, opening, d.book, L3Instance, l3);
    TakeScalarRecords(d.book, L3Instance, l3);
    assert ScalarsRecorded(r);
    forall v | v in r.vns ensures VnShaped(pol, r, v) {
      if v in d.vns { assert VnShaped(pol, d, v); }
    }
  }

  lemma PeerBookRecords(b: Book, vlan: int, p: Prefix)
    ensures var c := PeerBook(b, vlan, p);
      && PrefixesOf(c.netClaims, Loopbacks) == PrefixesOf(b.netClaims, Loopbacks)
      && PrefixesOf(c.netClaims, UnderlayP2p) == PrefixesOf(b.netClaims, UnderlayP2p)
      && PrefixesOf(c.netClaims, OverlayHosts) == PrefixesOf(b.netClaims, OverlayHosts)
      && PrefixesOf(c.netClaims, BorderHandoff) == PrefixesOf(b.netClaims, BorderHandoff) + [p]
      && ValuesOf(c.scalarClaims, Vlan) == ValuesOf(b.scalarClaims, Vlan) + [vlan]
      && ValuesOf(c.scalarClaims, L2Instance) == ValuesOf(b.scalarClaims, L2Instance)
      && ValuesOf(c.scalarClaims, L3Instance) == ValuesOf(b.scalarClaims, L3Instance)
  {
    TakeScalarRecords(b, Vlan, vlan);
    TakePrefixRecords(TakeScalar(b, Vlan, vlan), BorderHandoff, p);
  }

  lemma PeerItemKeeps(pol: Policy, d: Draft, item: Peer)
    requires NetsRecorded(d) && ScalarsRecorded(d) && Shaped(pol, d) && PeerShaped(pol, item)
    ensures var r := d.(book := PeerBook(d.book, item.vlan, item.prefix), peers := d.peers + [item]);
            NetsRecorded(r) && ScalarsRecorded(r) && Shaped(pol, r)
  {
    PeerBookRecords(d.book, item.vlan, item.prefix);
    var r := d.(book := PeerBook(d.book, item.vlan, item.prefix), peers := d.peers + [item]);
    forall v | v in r.vns ensures VnShaped(pol, r, v) { assert VnShaped(pol, d, v); }
  }

  lemma AddPeerKeeps(pol: Policy, opening: Book, d: Draft, req: PeerReq)
    requires Good(pol, opening, d) && AddPeer(pol, d, req).Ok?
    ensures Good(pol, opening, AddPeer(pol, d, req).value)
  {
    var len := PrefixLen(pol, BorderHandoff);
    var vlan := ReserveScalar(d.book, Vlan, pol.handoffMin, pol.handoffMax).value;
    var p := ReservePrefix(pol, d.book, BorderHandoff, len).value;
    FirstFreeExact(pol.handoffMin, pol.handoffMax, ScalarsOf(d.book, Vlan));
    FirstFitExact(pol.pools[BorderHandoff].cidr, len, NetsOf(d.book, BorderHandoff));
    TakeScalarGrows(pol, opening, d.book, Vlan, vlan);
    TakePrefixGrows(pol, opening, TakeScalar(d.book, Vlan, vlan), BorderHandoff, p);
    PeerItemKeeps(pol, d, MakePeer(req, vlan, p));
  }

  // ----- Every run of the derivation keeps it -----

  lemma {:induction false} AddDevicesKeeps(pol: Policy, opening: Book, d: Draft, reqs: seq<DeviceReq>)
    requires Good(pol, opening, d) && d.vns == [] && d.peers == [] && AddDevices(pol, d, reqs).Ok?
    ensures var r := AddDevices(pol, d, reqs).value; Good(pol, opening, r) && r.vns == [] && r.peers == []
    decreases |reqs|
  {
    if reqs != [] {
      AddDeviceKeeps(pol, opening, d, reqs[0]);
      AddDevicesKeeps(pol, opening, AddDevice(pol, d, reqs[0]).value, reqs[1..]);
    }
  }

  lemma {:induction false} AddLinksKeeps(pol: Policy, opening: Book, d: Draft, reqs: seq<LinkReq>)
    requires Good(pol, opening, d) && d.vns == [] && d.peers == [] && AddLinks(pol, d, reqs).Ok?
    ensures var r := AddLinks(pol, d, reqs).value; Good(pol, opening, r) && r.vns == [] && r.peers == []
    decreases |reqs|
  {
    if reqs != [] {
      AddLinkKeeps(pol, opening, d, reqs[0]);
      AddLinksKeeps(pol, opening, AddLink(pol, d, reqs[0]).value, reqs[1..]);
    }
  }

  lemma {:induction false} AddVnsKeeps(pol: Policy, opening: Book, d: Draft, reqs: seq<VnReq>)
    requires Good(pol, opening, d) && d.peers == [] && AddVns(pol, d, reqs).Ok?
    ensures Good(pol, opening, AddVns(pol, d, reqs).value)
    decreases |reqs|
  {
    if reqs != [] {
      OpenVnKeeps(pol, opening, d, reqs[0]);
      var l3 := ReserveScalar(d.book, L3Instance, pol.l3.min, pol.l3.max).value;
      AddPoolsKeeps(pol, opening, OpenVn(d, reqs[0], l3), reqs[0].name, Sort(reqs[0].sites, SiteLe));
      AddVnsKeeps(pol, opening, AddVn(pol, d, reqs[0]).value, reqs[1..]);
    }
  }

  lemma {:induction false} AddPeersKeeps(pol: Policy, opening: Book, d: Draft, reqs: seq<PeerReq>)
    requires Good(pol, opening, d) && AddPeers(pol, d, reqs).Ok?
    ensures Good(pol, opening, AddPeers(pol, d, reqs).value)
    decreases |reqs|
  {
    if reqs != [] {
      AddPeerKeeps(pol, opening, d, reqs[0]);
      AddPeersKeeps(pol, opening, AddPeer(pol, d, reqs[0]).value, reqs[1..]);
    }
  }

  lemma FillKeeps(req: Requirements, pol: Policy, opening: Book, d: Draft)
    requires Good(pol, opening, d) && d.vns == [] && d.peers == [] && Fill(req, pol, d).Ok?
    ensures Good(pol, opening, Fill(req, pol, d).value)
  {
    AddDevicesKeeps(pol, opening, d, Sort(req.devices, DeviceLe));
    var d1 := AddDevices(pol, d, Sort(req.devices, DeviceLe)).value;
    AddLinksKeeps(pol, opening, d1, Sort(req.links, LinkLe));
    var d2 := AddLinks(pol, d1, Sort(req.links, LinkLe)).value;
    AddAsnKeeps(pol, opening, d2, req.needsAsn);
    var d3 := AddAsn(pol, d2, req.needsAsn).value;
    AddVnsKeeps(pol, opening, d3, Sort(req.vns, VnLe));
    var d4 := AddVns(pol, d3, Sort(req.vns, VnLe)).value;
    if req.handoff.Some? { AddPeersKeeps(pol, opening, d4, Sort(req.handoff.value, PeerLe)); }
  }

  /**
   Every derived design: its claims lie inside their pools, avoid the active ledger
   and the policy-reserved space, are pairwise disjoint and distinct, and are exactly
   the prefixes and identifiers its intent uses.
   */
  lemma DeriveIsGood(req: Requirements, pol: Policy, nets: seq<NetRow>, scalars: seq<ScalarRow>)
    requires Derive(req, pol, nets, scalars).Ok?
    ensures Good(pol, Opening(pol, req.domain, nets, scalars), Derive(req, pol, nets, scalars).value)
  {
    var opening := Opening(pol, req.domain, nets, scalars);
    var d := Blank(opening);
    assert NetsRecorded(d) && ScalarsRecorded(d);
    FillKeeps(req, pol, opening, d);
  }
}
