/**
 Requirements-to-intent allocation (orchestrator/allocator.py): every prefix and
 scalar of a design is carved first-fit out of the guardrail pools, avoiding the
 active ledger and what the design itself has already taken.
 */
module Allocator {
  import opened Basics
  import opened Ordering
  import opened Addressing
  import Decimal

  // ----- Ledger rows -----

  datatype State = Reserved | Committed | Released | Quarantined

  /** States whose space is never handed out. */
  predicate Active(s: State) { s != Released }

  datatype Pool = Loopbacks | UnderlayP2p | OverlayHosts | BorderHandoff
  datatype Kind = Vlan | L2Instance | L3Instance | Asn

  datatype NetRow = NetRow(reservation: Id, domain: Id, pool: Pool, prefix: Prefix, state: State)
  datatype ScalarRow = ScalarRow(reservation: Id, domain: Id, kind: Kind, value: int, state: State)

  function ActiveNetworks(rows: seq<NetRow>, domain: Id, pool: Pool): set<Prefix> {
    set r | r in rows && r.domain == domain && r.pool == pool && Active(r.state) :: r.prefix
  }

  function ActiveScalars(rows: seq<ScalarRow>, domain: Id, kind: Kind): set<int> {
    set r | r in rows && r.domain == domain && r.kind == kind && Active(r.state) :: r.value
  }

  // ----- Guardrails -----

  datatype PoolPolicy = PoolPolicy(cidr: Prefix, prefixLen: nat, reserved: set<Prefix>)
  datatype RangePolicy = RangePolicy(min: int, max: int, reserved: set<int>, reservedRanges: seq<(int, int)>)

  datatype Policy = Policy(
    pools: map<Pool, PoolPolicy>,
    vlan: RangePolicy, l2: RangePolicy, l3: RangePolicy, asn: RangePolicy,
    handoffMin: int, handoffMax: int, rdAsn: int)

  function RangeOf(pol: Policy, kind: Kind): RangePolicy {
    match kind
    case Vlan => pol.vlan
    case L2Instance => pol.l2
    case L3Instance => pol.l3
    case Asn => pol.asn
  }

  /** Policy-reserved space must lie inside its pool. */
  predicate ReservedInside(p: PoolPolicy) {
    forall q :: q in p.reserved ==> SubnetOf(q, p.cidr)
  }

  function Interval(lo: int, hi: int): (r: set<int>)
    ensures forall v :: v in r <==> lo <= v <= hi
    decreases hi - lo
  {
    if hi < lo then {} else {lo} + Interval(lo + 1, hi)
  }

  function RangeValues(bounds: seq<(int, int)>): set<int> {
    if bounds == [] then {} else Interval(bounds[0].0, bounds[0].1) + RangeValues(bounds[1..])
  }

  function ReservedValues(r: RangePolicy): set<int> {
    r.reserved + RangeValues(r.reservedRanges)
  }

  predicate ReservedScalarsValid(r: RangePolicy) {
    && (forall b :: b in r.reservedRanges ==> b.0 <= b.1)
    && forall v :: v in ReservedValues(r) ==> r.min <= v <= r.max
  }

  predicate PolicyValid(pol: Policy) {
    && (forall p :: p in pol.pools ==> ReservedInside(pol.pools[p]))
    && (forall k :: k in {Vlan, L2Instance, L3Instance, Asn} ==> ReservedScalarsValid(RangeOf(pol, k)))
  }

  // ----- Requirements and the derived intent -----

  datatype DeviceReq = DeviceReq(id: Id, site: Id, border: bool)
  datatype Endpoint = Endpoint(device: Id, port: string)
  datatype LinkReq = LinkReq(id: Id, endpoints: seq<Endpoint>)
  /** `scaled` is the floating-point product the source computes from users and headroom. */
  datatype SiteReq = SiteReq(site: Id, users: int, headroom: int, scaled: real)
  datatype VnReq = VnReq(name: Id, vrf: Id, sites: seq<SiteReq>)
  datatype PeerReq = PeerReq(device: Id, fusion: Id, vrf: Id, remoteAs: int)
  datatype Requirements = Requirements(
    domain: Id, fabric: Id, devices: seq<DeviceReq>, links: seq<LinkReq>, vns: seq<VnReq>,
    needsAsn: bool, handoff: Option<seq<PeerReq>>)

  datatype Device = Device(id: Id, site: Id, border: bool, loopback: Prefix)
  datatype LinkEnd = LinkEnd(device: Id, port: string, ip: nat)
  datatype Link = Link(id: Id, subnet: Prefix, ends: seq<LinkEnd>)
  datatype Vn = Vn(name: Id, vrf: Id, l3: int, rd: string)
  datatype EndpointPool = EndpointPool(id: Id, site: Id, vn: Id, vlan: int, l2: int, prefix: Prefix, gateway: nat)
  datatype Peer = Peer(device: Id, fusion: Id, vrf: Id, vlan: int, prefix: Prefix, localIp: nat, neighborIp: nat, remoteAs: int)

  datatype NetClaim = NetClaim(pool: Pool, prefix: Prefix)
  datatype ScalarClaim = ScalarClaim(kind: Kind, value: int)

  // ----- The taken sets and the reservation lists -----

  /** `network_taken`, `scalar_taken`, `net_reservations` and `scalar_reservations`. */
  datatype Book = Book(
    nets: map<Pool, set<Prefix>>, scalars: map<Kind, set<int>>,
    netClaims: seq<NetClaim>, scalarClaims: seq<ScalarClaim>)

  /** A design under construction: its book and the intent's lists so far. */
  datatype Draft = Draft(
    book: Book, devices: seq<Device>, links: seq<Link>, localAs: int,
    vns: seq<Vn>, pools: seq<EndpointPool>, peers: seq<Peer>)

  function NetsOf(b: Book, pool: Pool): set<Prefix> {
    if pool in b.nets then b.nets[pool] else {}
  }

  function ScalarsOf(b: Book, kind: Kind): set<int> {
    if kind in b.scalars then b.scalars[kind] else {}
  }

  function TakePrefix(b: Book, pool: Pool, p: Prefix): Book {
    b.(nets := b.nets[pool := NetsOf(b, pool) + {p}], netClaims := b.netClaims + [NetClaim(pool, p)])
  }

  function TakeScalar(b: Book, kind: Kind, value: int): Book {
    b.(scalars := b.scalars[kind := ScalarsOf(b, kind) + {value}], scalarClaims := b.scalarClaims + [ScalarClaim(kind, value)])
  }

  function ReservePrefix(pol: Policy, b: Book, pool: Pool, len: nat): Result<Prefix, AllocationError> {
    if pool !in pol.pools then Err(MissingPool)
    else FirstFit(pol.pools[pool].cidr, len, NetsOf(b, pool))
  }

  function ReserveScalar(b: Book, kind: Kind, min: int, max: int): Result<int, AllocationError> {
    FirstFreeFrom(min, max, ScalarsOf(b, kind))
  }

  /** The L2 instance is derived from the VLAN, so it can be unavailable although a VLAN was free. */
  function ReserveL2(pol: Policy, b: Book, vlan: int): Result<int, AllocationError> {
    var l2 := pol.l2.min + vlan;
    if l2 > pol.l2.max || l2 in ScalarsOf(b, L2Instance) then Err(L2Unavailable) else Ok(l2)
  }

  // ----- One step of the derivation -----

  function DeviceIds(ds: seq<Device>): set<Id> { set d | d in ds :: d.id }
  function BorderIds(ds: seq<Device>): set<Id> { set d | d in ds && d.border :: d.id }
  function VrfNames(vs: seq<Vn>): set<Id> { set v | v in vs :: v.vrf }

  predicate DeviceLe(a: DeviceReq, b: DeviceReq) { StringLe(a.id, b.id) }
  predicate LinkLe(a: LinkReq, b: LinkReq) { StringLe(a.id, b.id) }
  predicate SiteLe(a: SiteReq, b: SiteReq) { StringLe(a.site, b.site) }
  predicate VnLe(a: VnReq, b: VnReq) { StringLe(a.name, b.name) }

  predicate EndpointLe(a: Endpoint, b: Endpoint) {
    if a.device != b.device then StringLe(a.device, b.device) else StringLe(a.port, b.port)
  }

  predicate PeerLe(a: PeerReq, b: PeerReq) {
    if a.device != b.device then StringLe(a.device, b.device)
    else if a.fusion != b.fusion then StringLe(a.fusion, b.fusion)
    else StringLe(a.vrf, b.vrf)
  }

  function PrefixLen(pol: Policy, pool: Pool): nat {
    if pool in pol.pools then pol.pools[pool].prefixLen else 0
  }

  function FirstHost(p: Prefix): nat { if p.len >= 31 then p.addr else p.addr + 1 }

  function AddDevice(pol: Policy, d: Draft, req: DeviceReq): Result<Draft, AllocationError> {
    if req.id in DeviceIds(d.devices) then Err(DuplicateDevice)
    else
      var p :- ReservePrefix(pol, d.book, Loopbacks, PrefixLen(pol, Loopbacks));
      Ok(d.(book := TakePrefix(d.book, Loopbacks, p), devices := d.devices + [Device(req.id, req.site, req.border, p)]))
  }

  function MakeLink(id: Id, p: Prefix, a: Endpoint, b: Endpoint): Link {
    Link(id, p, [LinkEnd(a.device, a.port, p.addr), LinkEnd(b.device, b.port, p.addr + 1)])
  }

  function AddLink(pol: Policy, d: Draft, req: LinkReq): Result<Draft, AllocationError> {
    var ends := Sort(req.endpoints, EndpointLe);
    if |ends| != 2 then Err(BadEndpoints)
    else if ends[0].device !in DeviceIds(d.devices) || ends[1].device !in DeviceIds(d.devices) then Err(UnknownDevice)
    else
      var p :- ReservePrefix(pol, d.book, UnderlayP2p, PrefixLen(pol, UnderlayP2p));
      if p.len == 32 then Err(NoUsableHosts)
      else Ok(d.(book := TakePrefix(d.book, UnderlayP2p, p), links := d.links + [MakeLink(req.id, p, ends[0], ends[1])]))
  }

  /** Python's `lower`, on ASCII letters. */
  function Lower(s: string): string {
    seq(|s|, i requires 0 <= i < |s| => if 'A' <= s[i] <= 'Z' then s[i] - 'A' + 'a' else s[i])
  }

  /** The id of a site's endpoint pool for a virtual network. */
  function PoolId(site: Id, vn: Id): Id { Lower(site) + "-" + Lower(vn) }

  function PoolBook(b: Book, vlan: int, l2: int, p: Prefix): Book {
    TakePrefix(TakeScalar(TakeScalar(b, Vlan, vlan), L2Instance, l2), OverlayHosts, p)
  }

  function AddPool(pol: Policy, d: Draft, vn: Id, req: SiteReq): Result<Draft, AllocationError> {
    if OverlayHosts !in pol.pools then Err(MissingPool)
    else
      var vlan :- ReserveScalar(d.book, Vlan, pol.vlan.min, pol.vlan.max);
      var l2 :- ReserveL2(pol, d.book, vlan);
      var len :- HostPrefix(req.users, req.headroom, req.scaled, pol.pools[OverlayHosts].cidr.len);
      var p :- ReservePrefix(pol, d.book, OverlayHosts, len);
      Ok(d.(book := PoolBook(d.book, vlan, l2, p),
            pools := d.pools + [EndpointPool(PoolId(req.site, vn), req.site, vn, vlan, l2, p, FirstHost(p))]))
  }

  function AddPools(pol: Policy, d: Draft, vn: Id, sites: seq<SiteReq>): Result<Draft, AllocationError>
    decreases |sites|
  {
    if sites == [] then Ok(d)
    else
      var d1 :- AddPool(pol, d, vn, sites[0]);
      AddPools(pol, d1, vn, sites[1..])
  }

  /** The route distinguisher "<as>:<l3 instance>". */
  function RdText(localAs: int, l3: int): string {
    Decimal.Signed(localAs) + ":" + Decimal.Signed(l3)
  }

  function OpenVn(d: Draft, req: VnReq, l3: int): Draft {
    d.(book := TakeScalar(d.book, L3Instance, l3), vns := d.vns + [Vn(req.name, req.vrf, l3, RdText(d.localAs, l3))])
  }

  function AddVn(pol: Policy, d: Draft, req: VnReq): Result<Draft, AllocationError> {
    var l3 :- ReserveScalar(d.book, L3Instance, pol.l3.min, pol.l3.max);
    AddPools(pol, OpenVn(d, req, l3), req.name, Sort(req.sites, SiteLe))
  }

  function PeerBook(b: Book, vlan: int, p: Prefix): Book {
    TakePrefix(TakeScalar(b, Vlan, vlan), BorderHandoff, p)
  }

  function MakePeer(req: PeerReq, vlan: int, p: Prefix): Peer {
    Peer(req.device, req.fusion, req.vrf, vlan, p, FirstHost(p), FirstHost(p) + 1, req.remoteAs)
  }

  function AddPeer(pol: Policy, d: Draft, req: PeerReq): Result<Draft, AllocationError> {
    if req.device !in BorderIds(d.devices) then Err(NotABorder)
    else if req.vrf !in VrfNames(d.vns) then Err(UnknownVrf)
    else
      var vlan :- ReserveScalar(d.book, Vlan, pol.handoffMin, pol.handoffMax);
      var p :- ReservePrefix(pol, d.book, BorderHandoff, PrefixLen(pol, BorderHandoff));
      if p.len == 32 then Err(NoUsableHosts)
      else Ok(d.(book := PeerBook(d.book, vlan, p), peers := d.peers + [MakePeer(req, vlan, p)]))
  }

  function AddAsn(pol: Policy, d: Draft, needed: bool): Result<Draft, AllocationError> {
    if needed then
      var v :- ReserveScalar(d.book, Asn, pol.asn.min, pol.asn.max);
      Ok(d.(book := TakeScalar(d.book, Asn, v), localAs := v))
    else Ok(d.(localAs := pol.rdAsn))
  }

  // ----- The whole derivation -----

  function AddDevices(pol: Policy, d: Draft, reqs: seq<DeviceReq>): Result<Draft, AllocationError>
    decreases |reqs|
  {
    if reqs == [] then Ok(d)
    else
      var d1 :- AddDevice(pol, d, reqs[0]);
      AddDevices(pol, d1, reqs[1..])
  }

  function AddLinks(pol: Policy, d: Draft, reqs: seq<LinkReq>): Result<Draft, AllocationError>
    decreases |reqs|
  {
    if reqs == [] then Ok(d)
    else
      var d1 :- AddLink(pol, d, reqs[0]);
      AddLinks(pol, d1, reqs[1..])
  }

  function AddVns(pol: Policy, d: Draft, reqs: seq<VnReq>): Result<Draft, AllocationError>
    decreases |reqs|
  {
    if reqs == [] then Ok(d)
    else
      var d1 :- AddVn(pol, d, reqs[0]);
      AddVns(pol, d1, reqs[1..])
  }

  function AddPeers(pol: Policy, d: Draft, reqs: seq<PeerReq>): Result<Draft, AllocationError>
    decreases |reqs|
  {
    if reqs == [] then Ok(d)
    else
      var d1 :- AddPeer(pol, d, reqs[0]);
      AddPeers(pol, d1, reqs[1..])
  }

  function AddHandoff(pol: Policy, d: Draft, handoff: Option<seq<PeerReq>>): Result<Draft, AllocationError> {
    match handoff
    case None => Ok(d)
    case Some(peers) =>
      if BorderHandoff !in pol.pools then Err(MissingPool) else AddPeers(pol, d, Sort(peers, PeerLe))
  }

  function Opening(pol: Policy, domain: Id, nets: seq<NetRow>, scalars: seq<ScalarRow>): Book {
    Book(
      map p | p in pol.pools :: ActiveNetworks(nets, domain, p) + pol.pools[p].reserved,
      map k | k in {Vlan, L2Instance, L3Instance, Asn} :: ActiveScalars(scalars, domain, k) + ReservedValues(RangeOf(pol, k)),
      [], [])
  }

  function Blank(b: Book): Draft { Draft(b, [], [], 0, [], [], []) }

  function Fill(req: Requirements, pol: Policy, d: Draft): Result<Draft, AllocationError> {
    var d1 :- AddDevices(pol, d, Sort(req.devices, DeviceLe));
    var d2 :- AddLinks(pol, d1, Sort(req.links, LinkLe));
    var d3 :- AddAsn(pol, d2, req.needsAsn);
    var d4 :- AddVns(pol, d3, Sort(req.vns, VnLe));
    AddHandoff(pol, d4, req.handoff)
  }

  predicate HasPools(pol: Policy) { Loopbacks in pol.pools && UnderlayP2p in pol.pools && OverlayHosts in pol.pools }

  /** `derive_fabric_intent`: the intent's lists together with the reservation lists. */
  function Derive(req: Requirements, pol: Policy, nets: seq<NetRow>, scalars: seq<ScalarRow>): Result<Draft, AllocationError> {
    if !HasPools(pol) then Err(MissingPool)
    else if !PolicyValid(pol) then Err(ReservedOutsidePool)
    else if |req.devices| < 2 then Err(TooFewDevices)
    else Fill(req, pol, Blank(Opening(pol, req.domain, nets, scalars)))
  }
}
