/**
 The mutable side of `derive_fabric_intent`: lists of taken networks, sets of taken
 scalars, the reservation lists and the intent's lists, filled step by step and
 proved equal to the derivation of module Allocator.
 */
module FabricAllocator {
  import opened Basics
  import opened Ordering
  import opened Addressing
  import opened Allocator

  /** The run raised what the specification raises, or reached its draft. */
  ghost predicate Agrees(error: Option<AllocationError>, now: Draft, spec: Result<Draft, AllocationError>) {
    match spec
    case Ok(d) => error == None && now == d
    case Err(e) => error == Some(e)
  }

  class Derivation {
    const pol: Policy
    var networkTaken: map<Pool, seq<Prefix>>
    var scalarTaken: map<Kind, set<int>>
    var netReservations: seq<NetClaim>
    var scalarReservations: seq<ScalarClaim>
    var devices: seq<Device>
    var links: seq<Link>
    var localAs: int
    var vns: seq<Vn>
    var pools: seq<EndpointPool>
    var peers: seq<Peer>

    ghost function TakenSets(): map<Pool, set<Prefix>>
      reads this
    {
      map p | p in networkTaken :: set e | e in networkTaken[p]
    }

    ghost function View(): Draft
      reads this
    {
      Draft(Book(TakenSets(), scalarTaken, netReservations, scalarReservations), devices, links, localAs, vns, pools, peers)
    }

    /** The taken lists open with the active ledger, then the policy-reserved space. */
    constructor (pol: Policy, domain: Id, nets: seq<NetRow>, scalars: seq<ScalarRow>, reserved: map<Pool, seq<Prefix>>)
      requires reserved.Keys == pol.pools.Keys
      requires forall p :: p in pol.pools ==> (set e | e in reserved[p]) == pol.pools[p].reserved
      ensures this.pol == pol && View() == Blank(Opening(pol, domain, nets, scalars))
    {
      this.pol := pol;
      var taken := map p | p in pol.pools :: ActiveList(nets, domain, p) + reserved[p];
      networkTaken := taken;
      scalarTaken := map k | k in {Vlan, L2Instance, L3Instance, Asn} ::
        ActiveScalars(scalars, domain, k) + ReservedValues(RangeOf(pol, k));
      netReservations, scalarReservations, devices, links, localAs, vns, pools, peers := [], [], [], [], 0, [], [], [];
      new;
      forall p | p in pol.pools
        ensures (set e | e in taken[p]) == ActiveNetworks(nets, domain, p) + pol.pools[p].reserved
      {
        ActiveListIsActive(nets, domain, p);
        assert (set e | e in taken[p]) == (set e | e in ActiveList(nets, domain, p)) + (set e | e in reserved[p]);
      }
      assert TakenSets() == Opening(pol, domain, nets, scalars).nets;
    }

    method ReserveNetwork(pool: Pool, len: nat) returns (r: Result<Prefix, AllocationError>)
      modifies this`networkTaken, this`netReservations
      ensures r == ReservePrefix(pol, old(View()).book, pool, len)
      ensures r.Ok? ==> View() == old(View()).(book := TakePrefix(old(View()).book, pool, r.value))
    {
      if pool !in pol.pools { return Err(MissingPool); }
      var taken := if pool in networkTaken then networkTaken[pool] else [];
      assert NetsOf(View().book, pool) == set e | e in taken;
      r := FirstPrefix(pol.pools[pool].cidr, len, taken);
      if r.Ok? { TakeNetwork(pool, taken, r.value); }
    }

    method TakeNetwork(pool: Pool, taken: seq<Prefix>, prefix: Prefix)
      requires taken == if pool in networkTaken then networkTaken[pool] else []
      modifies this`networkTaken, this`netReservations
      ensures View() == old(View()).(book := TakePrefix(old(View()).book, pool, prefix))
    {
      assert NetsOf(View().book, pool) == set e | e in taken;
      networkTaken := networkTaken[pool := taken + [prefix]];
      netReservations := netReservations + [NetClaim(pool, prefix)];
      assert TakenSets() == TakePrefix(old(View()).book, pool, prefix).nets by {
        assert (set e | e in taken + [prefix]) == (set e | e in taken) + {prefix};
      }
    }

    method ReserveValue(kind: Kind, min: int, max: int) returns (r: Result<int, AllocationError>)
      modifies this`scalarTaken, this`scalarReservations
      ensures r == ReserveScalar(old(View()).book, kind, min, max)
      ensures r.Ok? ==> View() == old(View()).(book := TakeScalar(old(View()).book, kind, r.value))
    {
      r := FirstScalar(min, max, if kind in scalarTaken then scalarTaken[kind] else {});
      if r.Ok? { Take(kind, r.value); }
    }

    method Take(kind: Kind, value: int)
      modifies this`scalarTaken, this`scalarReservations
      ensures View() == old(View()).(book := TakeScalar(old(View()).book, kind, value))
    {
      scalarTaken := scalarTaken[kind := (if kind in scalarTaken then scalarTaken[kind] else {}) + {value}];
      scalarReservations := scalarReservations + [ScalarClaim(kind, value)];
    }

    method DeriveDevices(reqs: seq<DeviceReq>) returns (error: Option<AllocationError>)
      modifies this
      ensures Agrees(error, View(), AddDevices(pol, old(View()), Sort(reqs, DeviceLe)))
    {
      var raw := Sort(reqs, DeviceLe);
      for i := 0 to |raw|
        invariant AddDevices(pol, View(), raw[i..]) == AddDevices(pol, old(View()), raw)
      {
        assert raw[i..][0] == raw[i] && raw[i..][1..] == raw[i + 1..];
        if raw[i].id in DeviceIds(devices) { return Some(DuplicateDevice); }
        var loopback := ReserveNetwork(Loopbacks, PrefixLen(pol, Loopbacks));
        if loopback.Err? { return Some(loopback.error); }
        devices := devices + [Device(raw[i].id, raw[i].site, raw[i].border, loopback.value)];
      }
      return None;
    }

    method DeriveLinks(reqs: seq<LinkReq>) returns (error: Option<AllocationError>)
      modifies this
      ensures Agrees(error, View(), AddLinks(pol, old(View()), Sort(reqs, LinkLe)))
    {
      var raw := Sort(reqs, LinkLe);
      for i := 0 to |raw|
        invariant AddLinks(pol, View(), raw[i..]) == AddLinks(pol, old(View()), raw)
      {
        assert raw[i..][0] == raw[i] && raw[i..][1..] == raw[i + 1..];
        var ends := Sort(raw[i].endpoints, EndpointLe);
        if |ends| != 2 { return Some(BadEndpoints); }
        if ends[0].device !in DeviceIds(devices) || ends[1].device !in DeviceIds(devices) { return Some(UnknownDevice); }
        var subnet := ReserveNetwork(UnderlayP2p, PrefixLen(pol, UnderlayP2p));
        if subnet.Err? { return Some(subnet.error); }
        if subnet.value.len == 32 { return Some(NoUsableHosts); }
        links := links + [MakeLink(raw[i].id, subnet.value, ends[0], ends[1])];
      }
      return None;
    }

    method DeriveAsn(needed: bool) returns (error: Option<AllocationError>)
      modifies this
      ensures Agrees(error, View(), AddAsn(pol, old(View()), needed))
    {
      if needed {
        var v := ReserveValue(Asn, pol.asn.min, pol.asn.max);
        if v.Err? { return Some(v.error); }
        localAs := v.value;
      } else {
        localAs := pol.rdAsn;
      }
      return None;
    }

    method DerivePool(vn: Id, req: SiteReq) returns (error: Option<AllocationError>)
      requires OverlayHosts in pol.pools
      modifies this
      ensures Agrees(error, View(), AddPool(pol, old(View()), vn, req))
    {
      var vlan := ReserveValue(Vlan, pol.vlan.min, pol.vlan.max);
      if vlan.Err? { return Some(vlan.error); }
      var l2 := pol.l2.min + vlan.value;
      if l2 > pol.l2.max || (L2Instance in scalarTaken && l2 in scalarTaken[L2Instance]) { return Some(L2Unavailable); }
      Take(L2Instance, l2);
      var len := HostPrefixLoop(req.users, req.headroom, req.scaled, pol.pools[OverlayHosts].cidr.len);
      if len.Err? { return Some(len.error); }
      var prefix := ReserveNetwork(OverlayHosts, len.value);
      if prefix.Err? { return Some(prefix.error); }
      pools := pools + [EndpointPool(PoolId(req.site, vn), req.site, vn, vlan.value, l2, prefix.value, FirstHost(prefix.value))];
      return None;
    }

    method DeriveVn(req: VnReq) returns (error: Option<AllocationError>)
      requires OverlayHosts in pol.pools
      modifies this
      ensures Agrees(error, View(), AddVn(pol, old(View()), req))
    {
      var l3 := ReserveValue(L3Instance, pol.l3.min, pol.l3.max);
      if l3.Err? { return Some(l3.error); }
      vns := vns + [Vn(req.name, req.vrf, l3.value, RdText(localAs, l3.value))];
      ghost var open := View();
      assert open == OpenVn(old(View()), req, l3.value);
      var sites := Sort(req.sites, SiteLe);
      for i := 0 to |sites|
        invariant AddPools(pol, View(), req.name, sites[i..]) == AddPools(pol, open, req.name, sites)
      {
        assert sites[i..][0] == sites[i] && sites[i..][1..] == sites[i + 1..];
        error := DerivePool(req.name, sites[i]);
        if error.Some? { return; }
      }
      return None;
    }

    method DeriveVns(reqs: seq<VnReq>) returns (error: Option<AllocationError>)
      requires OverlayHosts in pol.pools
      modifies this
      ensures Agrees(error, View(), AddVns(pol, old(View()), Sort(reqs, VnLe)))
    {
      var raw := Sort(reqs, VnLe);
      for i := 0 to |raw|
        invariant AddVns(pol, View(), raw[i..]) == AddVns(pol, old(View()), raw)
      {
        assert raw[i..][0] == raw[i] && raw[i..][1..] == raw[i + 1..];
        error := DeriveVn(raw[i]);
        if error.Some? { return; }
      }
      return None;
    }

    method DerivePeers(reqs: seq<PeerReq>) returns (error: Option<AllocationError>)
      modifies this
      ensures Agrees(error, View(), AddPeers(pol, old(View()), Sort(reqs, PeerLe)))
    {
      var raw := Sort(reqs, PeerLe);
      for i := 0 to |raw|
        invariant AddPeers(pol, View(), raw[i..]) == AddPeers(pol, old(View()), raw)
      {
        assert raw[i..][0] == raw[i] && raw[i..][1..] == raw[i + 1..];
        if raw[i].device !in BorderIds(devices) { return Some(NotABorder); }
        if raw[i].vrf !in VrfNames(vns) { return Some(UnknownVrf); }
        var vlan := ReserveValue(Vlan, pol.handoffMin, pol.handoffMax);
        if vlan.Err? { return Some(vlan.error); }
        var prefix := ReserveNetwork(BorderHandoff, PrefixLen(pol, BorderHandoff));
        if prefix.Err? { return Some(prefix.error); }
        if prefix.value.len == 32 { return Some(NoUsableHosts); }
        peers := peers + [MakePeer(raw[i], vlan.value, prefix.value)];
      }
      return None;
    }

    /** The loops in the source's order, from the blank draft to the whole intent. */
    method Run(req: Requirements) returns (error: Option<AllocationError>)
      requires HasPools(pol)
      modifies this
      ensures Agrees(error, View(), Fill(req, pol, old(View())))
    {
      error := DeriveDevices(req.devices);
      if error.Some? { return; }
      error := DeriveLinks(req.links);
      if error.Some? { return; }
      error := DeriveAsn(req.needsAsn);
      if error.Some? { return; }
      error := DeriveVns(req.vns);
      if error.Some? { return; }
      match req.handoff
      case None => return None;
      case Some(raw) =>
        if BorderHandoff !in pol.pools { return Some(MissingPool); }
        error := DerivePeers(raw);
    }
  }

  /** The list comprehension of `_active_networks`. */
  function ActiveList(rows: seq<NetRow>, domain: Id, pool: Pool): seq<Prefix> {
    if rows == [] then []
    else
      (if rows[0].domain == domain && rows[0].pool == pool && Active(rows[0].state) then [rows[0].prefix] else [])
      + ActiveList(rows[1..], domain, pool)
  }

  lemma {:induction false} ActiveListIsActive(rows: seq<NetRow>, domain: Id, pool: Pool)
    ensures (set e | e in ActiveList(rows, domain, pool)) == ActiveNetworks(rows, domain, pool)
  {
    if rows != [] {
      ActiveListIsActive(rows[1..], domain, pool);
      assert rows == [rows[0]] + rows[1..];
      var head := rows[0].domain == domain && rows[0].pool == pool && Active(rows[0].state);
      var first := if head then {rows[0].prefix} else {};
      assert ActiveNetworks(rows, domain, pool) == first + ActiveNetworks(rows[1..], domain, pool) by {
        assert forall r :: r in rows <==> r == rows[0] || r in rows[1..];
      }
      assert (set e | e in ActiveList(rows, domain, pool)) == first + set e | e in ActiveList(rows[1..], domain, pool);
    }
  }

  /** `derive_fabric_intent` from its checks to the result. */
  method DeriveFabricIntent(req: Requirements, pol: Policy, reserved: map<Pool, seq<Prefix>>,
                            nets: seq<NetRow>, scalars: seq<ScalarRow>) returns (r: Result<Draft, AllocationError>)
    requires reserved.Keys == pol.pools.Keys
    requires forall p :: p in pol.pools ==> (set e | e in reserved[p]) == pol.pools[p].reserved
    ensures r == Derive(req, pol, nets, scalars)
  {
    if !HasPools(pol) { return Err(MissingPool); }
    if !PolicyValid(pol) { return Err(ReservedOutsidePool); }
    if |req.devices| < 2 { return Err(TooFewDevices); }
    var run := new Derivation(pol, req.domain, nets, scalars, reserved);
    var error := run.Run(req);
    if error.Some? { return Err(error.value); }
    var taken := map p | p in run.networkTaken :: set e | e in run.networkTaken[p];
    return Ok(Draft(Book(taken, run.scalarTaken, run.netReservations, run.scalarReservations),
                    run.devices, run.links, run.localAs, run.vns, run.pools, run.peers));
  }
}
