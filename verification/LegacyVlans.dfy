/**
 Which VLANs a derivation hands out, and the one VLAN check of the validator that the
 allocator never consults: the legacy VLANs 1002 to 1005.
 */
module LegacyVlans {
  import opened Basics
  import opened Ordering
  import opened Addressing
  import opened Allocator
  import opened AllocatorProofs
  import opened IntentValidation
  import opened DerivedIntents

  function VlanSet(s: seq<EndpointPool>): set<int> { set p | p in s :: p.vlan }

  /** The free VLANs below `v`; `taken` is the active ledger and the policy-reserved values. */
  function FreeBelow(pol: Policy, taken: set<int>, v: int): set<int> {
    set w | pol.vlan.min <= w < v && w !in taken
  }

  /** How many endpoint pools the requirements ask for. */
  function PoolCount(vns: seq<VnReq>): nat {
    if vns == [] then 0 else |vns[0].sites| + PoolCount(vns[1..])
  }

  /** Within reach of `n` pools: free, with fewer than `n` free VLANs below. */
  ghost predicate Reached(pol: Policy, taken: set<int>, n: nat, v: int) {
    pol.vlan.min <= v <= pol.vlan.max && v !in taken && |FreeBelow(pol, taken, v)| < n
  }

  // ----- Every pool takes the lowest free VLAN -----

  /** The pools so far hold the lowest VLANs that were free at the opening. */
  ghost predicate LowestFirst(pol: Policy, taken: set<int>, d: Draft) {
    && ScalarsOf(d.book, Vlan) == taken + VlanSet(d.pools)
    && forall p, w :: p in d.pools && pol.vlan.min <= w < p.vlan ==> w in ScalarsOf(d.book, Vlan)
  }

  lemma AddPoolTakesLowest(pol: Policy, taken: set<int>, d: Draft, vn: Id, req: SiteReq)
    requires LowestFirst(pol, taken, d) && AddPool(pol, d, vn, req).Ok?
    ensures var r := AddPool(pol, d, vn, req).value; LowestFirst(pol, taken, r) && |r.pools| == |d.pools| + 1
  {
    var r := AddPool(pol, d, vn, req).value;
    var vlan := r.pools[|d.pools|].vlan;
    FirstFreeExact(pol.vlan.min, pol.vlan.max, ScalarsOf(d.book, Vlan));
    assert ScalarsOf(r.book, Vlan) == ScalarsOf(d.book, Vlan) + {vlan};
    assert VlanSet(r.pools) == VlanSet(d.pools) + {vlan};
  }

  lemma {:induction false} AddPoolsTakeLowest(pol: Policy, taken: set<int>, d: Draft, vn: Id, sites: seq<SiteReq>)
    requires LowestFirst(pol, taken, d) && AddPools(pol, d, vn, sites).Ok?
    ensures var r := AddPools(pol, d, vn, sites).value; LowestFirst(pol, taken, r) && |r.pools| == |d.pools| + |sites|
    decreases |sites|
  {
    if sites != [] {
      AddPoolTakesLowest(pol, taken, d, vn, sites[0]);
      AddPoolsTakeLowest(pol, taken, AddPool(pol, d, vn, sites[0]).value, vn, sites[1..]);
    }
  }

  lemma {:induction false} AddVnsTakeLowest(pol: Policy, taken: set<int>, d: Draft, reqs: seq<VnReq>)
    requires LowestFirst(pol, taken, d) && AddVns(pol, d, reqs).Ok?
    ensures var r := AddVns(pol, d, reqs).value; LowestFirst(pol, taken, r) && |r.pools| == |d.pools| + PoolCount(reqs)
    decreases |reqs|
  {
    if reqs != [] {
      var open := OpenVn(d, reqs[0], ReserveScalar(d.book, L3Instance, pol.l3.min, pol.l3.max).value);
      var sites := Sort(reqs[0].sites, SiteLe);
      SortIsPermutation(reqs[0].sites, SiteLe);
      AddPoolsTakeLowest(pol, taken, open, reqs[0].name, sites);
      AddVnsTakeLowest(pol, taken, AddVn(pol, d, reqs[0]).value, reqs[1..]);
    }
  }

  // ----- The other steps leave pools and VLANs alone, or come after -----

  ghost predicate Untouched(d: Draft, r: Draft) {
    r.pools == d.pools && ScalarsOf(r.book, Vlan) == ScalarsOf(d.book, Vlan)
  }

  lemma {:induction false} DevicesLeaveVlans(pol: Policy, d: Draft, reqs: seq<DeviceReq>)
    requires AddDevices(pol, d, reqs).Ok?
    ensures Untouched(d, AddDevices(pol, d, reqs).value)
    decreases |reqs|
  {
    if reqs != [] { DevicesLeaveVlans(pol, AddDevice(pol, d, reqs[0]).value, reqs[1..]); }
  }

  lemma {:induction false} LinksLeaveVlans(pol: Policy, d: Draft, reqs: seq<LinkReq>)
    requires AddLinks(pol, d, reqs).Ok?
    ensures Untouched(d, AddLinks(pol, d, reqs).value)
    decreases |reqs|
  {
    if reqs != [] { LinksLeaveVlans(pol, AddLink(pol, d, reqs[0]).value, reqs[1..]); }
  }

  lemma {:induction false} PeersLeavePools(pol: Policy, d: Draft, reqs: seq<PeerReq>)
    requires AddPeers(pol, d, reqs).Ok?
    ensures AddPeers(pol, d, reqs).value.pools == d.pools
    decreases |reqs|
  {
    if reqs != [] { PeersLeavePools(pol, AddPeer(pol, d, reqs[0]).value, reqs[1..]); }
  }

  lemma {:induction false} CountAfterInsert(x: VnReq, s: seq<VnReq>)
    ensures PoolCount(Insert(x, s, VnLe)) == |x.sites| + PoolCount(s)
    decreases |s|
  {
    if s != [] && !VnLe(x, s[0]) { CountAfterInsert(x, s[1..]); }
  }

  lemma {:induction false} CountAfterSort(s: seq<VnReq>)
    ensures PoolCount(Sort(s, VnLe)) == PoolCount(s)
    decreases |s|
  {
    if s != [] {
      CountAfterSort(s[1..]);
      CountAfterInsert(s[0], Sort(s[1..], VnLe));
    }
  }

  /** The filled draft's pools are `n` many and lie lowest among what the opening left free. */
  lemma FillTakesLowest(req: Requirements, pol: Policy, d: Draft)
    requires d.pools == [] && Fill(req, pol, d).Ok?
    ensures var pools, taken := Fill(req, pol, d).value.pools, ScalarsOf(d.book, Vlan);
            && |pools| == PoolCount(req.vns)
            && forall p, w :: p in pools && pol.vlan.min <= w < p.vlan ==> w in taken + VlanSet(pools)
  {
    var taken := ScalarsOf(d.book, Vlan);
    DevicesLeaveVlans(pol, d, Sort(req.devices, DeviceLe));
    var d1 := AddDevices(pol, d, Sort(req.devices, DeviceLe)).value;
    LinksLeaveVlans(pol, d1, Sort(req.links, LinkLe));
    var d2 := AddLinks(pol, d1, Sort(req.links, LinkLe)).value;
    var d3 := AddAsn(pol, d2, req.needsAsn).value;
    assert Untouched(d2, d3);
    AddVnsTakeLowest(pol, taken, d3, Sort(req.vns, VnLe));
    CountAfterSort(req.vns);
    var d4 := AddVns(pol, d3, Sort(req.vns, VnLe)).value;
    if req.handoff.Some? { PeersLeavePools(pol, d4, Sort(req.handoff.value, PeerLe)); }
  }

  // ----- The lowest n of the free VLANs -----

  lemma SubsetIsSmaller(a: set<int>, b: set<int>)
    requires a <= b
    ensures |a| <= |b|
  {
    assert b * a == a;
    assert |b - a| == |b| - |b * a|;
  }

  lemma {:induction false} DistinctVlansCount(s: seq<EndpointPool>)
    requires Distinct(PoolVlans(s))
    ensures |VlanSet(s)| == |s|
    decreases |s|
  {
    if s != [] {
      var init, last := s[..|s| - 1], s[|s| - 1];
      assert forall i :: 0 <= i < |s| ==> PoolVlans(s)[i] == s[i].vlan;
      assert forall i :: 0 <= i < |init| ==> PoolVlans(init)[i] == PoolVlans(s)[i];
      DistinctVlansCount(init);
      assert s == init + [last];
      assert VlanSet(s) == VlanSet(init) + {last.vlan};
      assert last.vlan !in VlanSet(init);
    }
  }

  lemma PoolVlanIsNew(pol: Policy, opening: Book, d: Draft, i: nat)
    requires Good(pol, opening, d) && i < |d.pools|
    ensures d.pools[i].vlan !in ScalarsOf(opening, Vlan) && pol.vlan.min <= d.pools[i].vlan <= pol.vlan.max
  {
    var vlans := PoolVlans(d.pools) + PeerVlans(d.peers);
    assert vlans[i] == d.pools[i].vlan && vlans[i] in vlans;
    ValuesComeFromClaims(d.book.scalarClaims, Vlan, d.pools[i].vlan);
    assert NewScalar(opening, d.book, ScalarClaim(Vlan, d.pools[i].vlan));
    assert PoolShaped(pol, d.pools[i]);
  }

  lemma PoolVlansAreDistinct(pol: Policy, opening: Book, d: Draft)
    requires Good(pol, opening, d)
    ensures Distinct(PoolVlans(d.pools))
  {
    ValuesAreDistinct(d.book.scalarClaims, Vlan);
    var all := PoolVlans(d.pools) + PeerVlans(d.peers);
    assert forall i :: 0 <= i < |d.pools| ==> all[i] == PoolVlans(d.pools)[i];
  }

  /** A downward-closed choice of `n` free values is the `n` lowest. */
  lemma LowestAreReached(pol: Policy, taken: set<int>, chosen: set<int>, v: int)
    requires forall w :: w in chosen ==> pol.vlan.min <= w <= pol.vlan.max && w !in taken
    requires forall u, w :: u in chosen && pol.vlan.min <= w < u ==> w in taken + chosen
    ensures v in chosen <==> Reached(pol, taken, |chosen|, v)
  {
    var below := FreeBelow(pol, taken, v);
    if v in chosen {
      forall w | w in below ensures w in chosen - {v} { assert w in taken + chosen; }
      SubsetIsSmaller(below, chosen - {v});
    } else if pol.vlan.min <= v <= pol.vlan.max && v !in taken {
      forall u | u in chosen ensures u in below { assert u > v ==> v in taken + chosen; }
      SubsetIsSmaller(chosen, below);
    }
  }

  /** The VLANs of a derived design are exactly the lowest free ones, one per endpoint pool. */
  lemma VlansAreTheLowestFree(req: Requirements, pol: Policy, nets: seq<NetRow>, scalars: seq<ScalarRow>, v: int)
    requires Derive(req, pol, nets, scalars).Ok?
    ensures v in VlanSet(Derive(req, pol, nets, scalars).value.pools) <==>
              Reached(pol, ScalarsOf(Opening(pol, req.domain, nets, scalars), Vlan), PoolCount(req.vns), v)
  {
    var opening, d := Opening(pol, req.domain, nets, scalars), Derive(req, pol, nets, scalars).value;
    DeriveIsGood(req, pol, nets, scalars);
    FillTakesLowest(req, pol, Blank(opening));
    PoolVlansAreDistinct(pol, opening, d);
    DistinctVlansCount(d.pools);
    forall w | w in VlanSet(d.pools) ensures pol.vlan.min <= w <= pol.vlan.max && w !in ScalarsOf(opening, Vlan) {
      var i :| 0 <= i < |d.pools| && d.pools[i].vlan == w;
      PoolVlanIsNew(pol, opening, d, i);
    }
    LowestAreReached(pol, ScalarsOf(opening, Vlan), VlanSet(d.pools), v);
  }

  /**
   The exact condition under which the validator rejects a derived intent for a legacy
   VLAN: one is free in the policy's range, and fewer VLANs below it are free than the
   requirements have endpoint pools.
   */
  lemma LegacyVlanExactlyWhenReached(req: Requirements, pol: Policy, nets: seq<NetRow>, scalars: seq<ScalarRow>)
    requires Derive(req, pol, nets, scalars).Ok?
    ensures Raises(IntentOf(Derive(req, pol, nets, scalars).value), VlanReserved) <==>
              exists v :: v in LEGACY_VLANS
                && Reached(pol, ScalarsOf(Opening(pol, req.domain, nets, scalars), Vlan), PoolCount(req.vns), v)
  {
    var d, taken := Derive(req, pol, nets, scalars).value, ScalarsOf(Opening(pol, req.domain, nets, scalars), Vlan);
    forall v ensures v in VlanSet(d.pools) <==> Reached(pol, taken, PoolCount(req.vns), v) {
      VlansAreTheLowestFree(req, pol, nets, scalars, v);
    }
    LegacyIffInUse(IntentOf(d));
  }

  lemma LegacyIffInUse(doc: IntentDoc)
    ensures Raises(doc, VlanReserved) <==> exists v :: v in LEGACY_VLANS && v in VlanSet(doc.pools)
  {
    if v :| v in LEGACY_VLANS && v in VlanSet(doc.pools) {
      var i: nat :| i < |doc.pools| && doc.pools[i].vlan == v;
      assert PoolFault(doc.pools, i, VlanReserved);
    }
    if i: nat :| i < |doc.pools| && PoolFault(doc.pools, i, VlanReserved) {
      assert doc.pools[i].vlan in LEGACY_VLANS && doc.pools[i].vlan in VlanSet(doc.pools);
    }
  }

  // ----- A design that receives one: the VLAN range starts at 1002 -----

  function SmallPolicy(): Policy {
    SmallBlocks();
    Policy(
      map[Loopbacks := PoolPolicy(Block(0, 30), 31, {}), UnderlayP2p := PoolPolicy(Block(4, 30), 31, {}),
          OverlayHosts := PoolPolicy(Block(8, 30), 30, {})],
      RangePolicy(1002, 1010, {}, []), RangePolicy(8000, 16777215, {}, []),
      RangePolicy(4000, 5000, {}, []), RangePolicy(65000, 65010, {}, []), 3000, 3100, 65000)
  }

  function SmallDesign(): Requirements {
    Requirements("campus", "fabric-1", [DeviceReq("edge-1", "site", false), DeviceReq("edge-2", "site", false)], [],
                 [VnReq("CORP", "CORP", [SiteReq("site", 1, 0, 1.0)])], false, None)
  }

  lemma SmallPolicyIsValid()
    ensures PolicyValid(SmallPolicy()) && HasPools(SmallPolicy()) && PoolsDisjoint(SmallPolicy())
  {
    SmallBlocks();
    assert RangeValues([]) == {};
  }

  lemma SmallFit(supernet: Prefix, len: nat)
    requires supernet.len <= len <= 32
    ensures FirstFit(supernet, len, {}) == Ok(Candidate(supernet, len, 0))
  {
  }

  lemma SmallFitNext(supernet: Prefix, len: nat)
    requires supernet.len < len <= 32
    ensures BlockCount(supernet, len) > 1
    ensures FirstFit(supernet, len, {Candidate(supernet, len, 0)}) == Ok(Candidate(supernet, len, 1))
  {
    assert BlockCount(supernet, len) == 2 * Pow2(len - supernet.len - 1);
    var c := Candidate(supernet, len, 0);
    assert Blocked(c, {c});
    assert !Overlaps(Candidate(supernet, len, 1), c);
    assert FirstFit(supernet, len, {c}) == FirstFitFrom(supernet, len, {c}, 1);
  }

  lemma TwoDevices(pol: Policy, d: Draft, reqs: seq<DeviceReq>)
    requires |reqs| == 2 && reqs[0].id != reqs[1].id
    requires Loopbacks in pol.pools && pol.pools[Loopbacks].cidr.len < pol.pools[Loopbacks].prefixLen <= 32
    requires d.devices == [] && NetsOf(d.book, Loopbacks) == {}
    ensures AddDevices(pol, d, reqs).Ok?
    ensures var r := AddDevices(pol, d, reqs).value;
            && r.book.scalars == d.book.scalars && NetsOf(r.book, OverlayHosts) == NetsOf(d.book, OverlayHosts)
            && NetsOf(r.book, UnderlayP2p) == NetsOf(d.book, UnderlayP2p)
            && r.pools == d.pools && DeviceIds(r.devices) == {reqs[0].id, reqs[1].id}
  {
    var cidr, len := pol.pools[Loopbacks].cidr, pol.pools[Loopbacks].prefixLen;
    SmallFit(cidr, len);
    SmallFitNext(cidr, len);
    var d1 := AddDevice(pol, d, reqs[0]).value;
    assert NetsOf(d1.book, Loopbacks) == {Candidate(cidr, len, 0)};
    var d2 := AddDevice(pol, d1, reqs[1]).value;
    assert AddDevices(pol, d2, reqs[1..][1..]) == Ok(d2);
  }

  lemma OneHostFits()
    ensures HostPrefix(1, 0, 1.0, 30) == Ok(30)
  {
    assert UsableHosts(30) == 2 by { SmallBlocks(); }
    assert Required(1.0) == 1;
  }

  lemma FirstPool(pol: Policy, d: Draft, vn: Id, req: SiteReq)
    requires req.users == 1 && req.headroom == 0 && req.scaled == 1.0
    requires OverlayHosts in pol.pools && pol.pools[OverlayHosts].cidr.len == 30
    requires pol.vlan.min <= pol.vlan.max && pol.l2.min + pol.vlan.min <= pol.l2.max
    requires ScalarsOf(d.book, Vlan) == {} && ScalarsOf(d.book, L2Instance) == {} && NetsOf(d.book, OverlayHosts) == {}
    ensures AddPool(pol, d, vn, req).Ok?
    ensures |AddPool(pol, d, vn, req).value.pools| > 0
    ensures var pools := AddPool(pol, d, vn, req).value.pools; pools[|pools| - 1].vlan == pol.vlan.min
  {
    OneHostFits();
    SmallFit(pol.pools[OverlayHosts].cidr, 30);
  }

  lemma SmallVns(pol: Policy, d: Draft, req: VnReq)
    requires pol == SmallPolicy() && req == SmallDesign().vns[0]
    requires ScalarsOf(d.book, L3Instance) == {}
    requires ScalarsOf(d.book, Vlan) == {} && ScalarsOf(d.book, L2Instance) == {} && NetsOf(d.book, OverlayHosts) == {}
    ensures AddVns(pol, d, [req]).Ok?
    ensures Raises(IntentOf(AddVns(pol, d, [req]).value), VlanReserved)
  {
    var l3 := ReserveScalar(d.book, L3Instance, pol.l3.min, pol.l3.max).value;
    var open := OpenVn(d, req, l3);
    FirstPool(pol, open, req.name, req.sites[0]);
    var d1 := AddPool(pol, open, req.name, req.sites[0]).value;
    assert Sort(req.sites, SiteLe) == req.sites;
    assert AddPools(pol, d1, req.name, req.sites[1..]) == Ok(d1);
    assert AddVn(pol, d, req) == Ok(d1);
    assert AddVns(pol, d1, [req][1..]) == Ok(d1);
    assert PoolItemFault(d1.pools[|d1.pools| - 1], VlanReserved);
    assert PoolFault(IntentOf(d1).pools, |d1.pools| - 1, VlanReserved);
  }

  /** Legal requirements, policy and (empty) ledgers, whose derived intent the validator rejects. */
  lemma LegacyVlanIsHandedOut()
    ensures Derive(SmallDesign(), SmallPolicy(), [], []).Ok?
    ensures Raises(IntentOf(Derive(SmallDesign(), SmallPolicy(), [], []).value), VlanReserved)
  {
    HandedOut(SmallDesign(), SmallPolicy());
  }

  lemma HandedOut(req: Requirements, pol: Policy)
    requires req == SmallDesign() && pol == SmallPolicy()
    ensures Derive(req, pol, [], []).Ok? && Raises(IntentOf(Derive(req, pol, [], []).value), VlanReserved)
  {
    var d := SmallOpening(pol, req.domain);
    SmallPolicyIsValid();
    SmallFill(d);
    assert Derive(req, pol, [], []) == Fill(req, pol, d) by { DeriveFills(req, pol, [], []); }
  }

  lemma SmallOpening(pol: Policy, domain: Id) returns (d: Draft)
    requires pol == SmallPolicy()
    ensures d == Blank(Opening(pol, domain, [], []))
    ensures d.devices == [] && d.pools == [] && NetsOf(d.book, Loopbacks) == {} && NetsOf(d.book, OverlayHosts) == {}
    ensures ScalarsOf(d.book, L3Instance) == {} && ScalarsOf(d.book, Vlan) == {} && ScalarsOf(d.book, L2Instance) == {}
  {
    d := Blank(Opening(pol, domain, [], []));
    assert RangeValues([]) == {};
  }

  lemma DeriveFills(req: Requirements, pol: Policy, nets: seq<NetRow>, scalars: seq<ScalarRow>)
    requires HasPools(pol) && PolicyValid(pol) && |req.devices| >= 2
    ensures Derive(req, pol, nets, scalars) == Fill(req, pol, Blank(Opening(pol, req.domain, nets, scalars)))
  {
  }

  lemma SmallFill(d: Draft)
    requires d.devices == [] && d.pools == [] && NetsOf(d.book, Loopbacks) == {} && NetsOf(d.book, OverlayHosts) == {}
    requires ScalarsOf(d.book, L3Instance) == {} && ScalarsOf(d.book, Vlan) == {} && ScalarsOf(d.book, L2Instance) == {}
    ensures Fill(SmallDesign(), SmallPolicy(), d).Ok?
    ensures Raises(IntentOf(Fill(SmallDesign(), SmallPolicy(), d).value), VlanReserved)
  {
    var pol, req := SmallPolicy(), SmallDesign();
    var devices := Sort(req.devices, DeviceLe);
    SortedPair(req.devices);
    SmallBlocks();
    TwoDevices(pol, d, devices);
    var d1 := AddDevices(pol, d, devices).value;
    var d2 := d1.(localAs := pol.rdAsn);
    SmallVns(pol, d2, req.vns[0]);
    assert Sort(req.vns, VnLe) == [req.vns[0]];
    assert AddLinks(pol, d1, Sort(req.links, LinkLe)) == Ok(d1);
  }

  lemma SortedPair(s: seq<DeviceReq>)
    requires |s| == 2 && s[0].id != s[1].id
    ensures var r := Sort(s, DeviceLe); |r| == 2 && r[0].id != r[1].id
  {
    SortIsPermutation(s, DeviceLe);
    var r := Sort(s, DeviceLe);
    assert s == [s[0], s[1]] && r == [r[0], r[1]];
    assert multiset(s) == multiset{s[0], s[1]} && multiset(r) == multiset{r[0], r[1]};
  }
}
