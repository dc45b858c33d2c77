/**
 The names that a derived intent takes over from its requirements.  The allocator compares
 few of them and none as the validator reads them, so a derived intent can be refused for
 repeating one; this says exactly when.
 */
module DerivedNames {
  import opened Basics
  import opened Ordering
  import opened Addressing
  import opened Allocator
  import opened AllocatorProofs
  import opened IntentValidation
  import opened DerivedIntents
  import opened LegacyVlans

  // ----- What the requirements ask for, as the validator will read it -----

  function Keys<T, K>(s: seq<T>, key: T -> K): seq<K> {
    if s == [] then [] else [key(s[0])] + Keys(s[1..], key)
  }

  function DeviceName(d: DeviceReq): Option<Id> { ReadString(d.id) }
  function LinkName(l: LinkReq): Option<Id> { ReadString(l.id) }
  function VnName(v: VnReq): Option<Id> { ReadString(v.name) }
  function VrfName(v: VnReq): Option<Id> { ReadString(v.vrf) }

  /** Both ends are on what the validator takes for one device. */
  predicate LinkLoops(l: LinkReq) {
    |l.endpoints| == 2 && ReadString(l.endpoints[0].device).Some? && ReadString(l.endpoints[0].device) == ReadString(l.endpoints[1].device)
  }

  /** The id that a site's pool for the network will have. */
  function PoolName(vn: Id): SiteReq -> Option<Id> { (s: SiteReq) => ReadString(PoolId(s.site, vn)) }

  function PoolNames(vns: seq<VnReq>): seq<Option<Id>> {
    if vns == [] then [] else Keys(vns[0].sites, PoolName(vns[0].name)) + PoolNames(vns[1..])
  }

  /** The same with each network's sites in the allocator's order. */
  function SortedPoolNames(vns: seq<VnReq>): seq<Option<Id>> {
    if vns == [] then [] else Keys(Sort(vns[0].sites, SiteLe), PoolName(vns[0].name)) + SortedPoolNames(vns[1..])
  }

  ghost predicate HasRepeat<K>(s: seq<Option<K>>) {
    exists i, j :: 0 <= i < j < |s| && s[i].Some? && s[i] == s[j]
  }

  // ----- Order does not matter -----

  predicate Unlike<K(==)>(x: Option<K>, y: Option<K>) { x.None? || x != y }

  lemma RepeatsSomewhere<K>(s: seq<Option<K>>)
    ensures HasRepeat(s) <==> exists i: nat :: i < |s| && Repeats(s, i)
  {
    if i, j :| 0 <= i < j < |s| && s[i].Some? && s[i] == s[j] {
      assert s[..j][i] == s[j];
      assert Repeats(s, j);
    }
    if j: nat :| j < |s| && Repeats(s, j) {
      var i :| 0 <= i < |s[..j]| && s[..j][i] == s[j];
      assert s[i] == s[j];
    }
  }

  lemma HasRepeatIsNotPairwise<K>(s: seq<Option<K>>)
    ensures HasRepeat(s) <==> !Pairwise(s, Unlike)
  {
    if !Pairwise(s, Unlike) {
      var i, j :| 0 <= i < j < |s| && !(Unlike(s[i], s[j]) && Unlike(s[j], s[i]));
      assert s[i].Some? && s[i] == s[j];
    }
    if i, j :| 0 <= i < j < |s| && s[i].Some? && s[i] == s[j] {
      assert !Unlike(s[i], s[j]);
    }
  }

  lemma RepeatIsReordered<K(!new)>(a: seq<Option<K>>, b: seq<Option<K>>)
    requires multiset(a) == multiset(b)
    ensures HasRepeat(a) <==> HasRepeat(b)
  {
    HasRepeatIsNotPairwise(a);
    HasRepeatIsNotPairwise(b);
    if Pairwise(a, Unlike) { PairwiseAfterReordering(a, b, Unlike); }
    if Pairwise(b, Unlike) { PairwiseAfterReordering(b, a, Unlike); }
  }

  lemma {:induction false} KeysAfterInsert<T, K>(x: T, s: seq<T>, le: (T, T) -> bool, key: T -> K)
    ensures multiset(Keys(Insert(x, s, le), key)) == multiset(Keys(s, key)) + multiset{key(x)}
    decreases s
  {
    if s == [] || le(x, s[0]) {
      assert ([x] + s)[1..] == s;
    } else {
      KeysAfterInsert(x, s[1..], le, key);
      assert ([s[0]] + Insert(x, s[1..], le))[1..] == Insert(x, s[1..], le);
    }
  }

  lemma {:induction false} KeysAfterSort<T, K>(s: seq<T>, le: (T, T) -> bool, key: T -> K)
    ensures multiset(Keys(Sort(s, le), key)) == multiset(Keys(s, key))
    decreases s
  {
    if s != [] {
      KeysAfterSort(s[1..], le, key);
      KeysAfterInsert(s[0], Sort(s[1..], le), le, key);
    }
  }

  lemma {:induction false} PoolNamesAfterInsert(x: VnReq, s: seq<VnReq>)
    ensures multiset(PoolNames(Insert(x, s, VnLe))) == multiset(Keys(x.sites, PoolName(x.name))) + multiset(PoolNames(s))
    decreases s
  {
    if s == [] || VnLe(x, s[0]) {
      assert ([x] + s)[1..] == s;
    } else {
      PoolNamesAfterInsert(x, s[1..]);
      assert ([s[0]] + Insert(x, s[1..], VnLe))[1..] == Insert(x, s[1..], VnLe);
    }
  }

  lemma {:induction false} PoolNamesAfterSort(s: seq<VnReq>)
    ensures multiset(PoolNames(Sort(s, VnLe))) == multiset(PoolNames(s))
    decreases s
  {
    if s != [] {
      PoolNamesAfterSort(s[1..]);
      PoolNamesAfterInsert(s[0], Sort(s[1..], VnLe));
    }
  }

  lemma {:induction false} SitesInAnyOrder(s: seq<VnReq>)
    ensures multiset(SortedPoolNames(s)) == multiset(PoolNames(s))
    decreases s
  {
    if s != [] {
      KeysAfterSort(s[0].sites, SiteLe, PoolName(s[0].name));
      SitesInAnyOrder(s[1..]);
    }
  }

  // ----- What the derivation takes over -----

  function Loops(l: Link): bool { var e := EndDevices(l.ends); |e| == 2 && e[0] == e[1] }

  function LoopFlags(s: seq<Link>): seq<bool> { seq(|s|, i requires 0 <= i < |s| => Loops(s[i])) }

  lemma FirstKey<T, K>(before: seq<K>, s: seq<T>, key: T -> K)
    requires s != []
    ensures before + [key(s[0])] + Keys(s[1..], key) == before + Keys(s, key)
  {
    FirstPart(before, [key(s[0])], Keys(s[1..], key), Keys(s, key));
  }

  lemma FirstPart<K>(before: seq<K>, part: seq<K>, rest: seq<K>, whole: seq<K>)
    requires whole == part + rest
    ensures before + part + rest == before + whole
  {
  }

  lemma DeviceNamed(pol: Policy, d: Draft, req: DeviceReq)
    requires AddDevice(pol, d, req).Ok?
    ensures var r := AddDevice(pol, d, req).value;
            DeviceIdList(r.devices) == DeviceIdList(d.devices) + [DeviceName(req)] && r.links == d.links && r.vns == d.vns && r.pools == d.pools
  {
  }

  lemma {:induction false} DevicesNamed(pol: Policy, d: Draft, reqs: seq<DeviceReq>)
    requires AddDevices(pol, d, reqs).Ok?
    ensures var r := AddDevices(pol, d, reqs).value;
            && DeviceIdList(r.devices) == DeviceIdList(d.devices) + Keys(reqs, DeviceName)
            && r.links == d.links && r.vns == d.vns && r.pools == d.pools
    decreases reqs
  {
    if reqs != [] {
      DeviceNamed(pol, d, reqs[0]);
      DevicesNamed(pol, AddDevice(pol, d, reqs[0]).value, reqs[1..]);
      FirstKey(DeviceIdList(d.devices), reqs, DeviceName);
    }
  }

  lemma PairOrSwapped<T>(a: seq<T>, b: seq<T>)
    requires |b| == 2 && multiset(a) == multiset(b)
    ensures |a| == 2 && ((b[0] == a[0] && b[1] == a[1]) || (b[0] == a[1] && b[1] == a[0]))
  {
    assert |a| == |multiset(a)| == |multiset(b)| == |b|;
    assert a == [a[0], a[1]] && b == [b[0], b[1]];
    assert multiset{a[0], a[1]} == multiset{b[0], b[1]};
    assert b[0] in multiset{a[0], a[1]} && a[0] in multiset{b[0], b[1]};
  }

  lemma SortedPairLoops(s: seq<Endpoint>, l: Link)
    requires |Sort(s, EndpointLe)| == 2 && |l.ends| == 2
    requires var ends := Sort(s, EndpointLe); l.ends[0].device == ends[0].device && l.ends[1].device == ends[1].device
    ensures Loops(l) <==> LinkLoops(LinkReq(l.id, s))
  {
    SortIsPermutation(s, EndpointLe);
    PairOrSwapped(s, Sort(s, EndpointLe));
    EndDevicesOfTwo(l.ends);
  }

  lemma EndDevicesOfTwo(ends: seq<LinkEnd>)
    requires |ends| == 2
    ensures var a, b := ReadString(ends[0].device), ReadString(ends[1].device);
            EndDevices(ends) == (if a == None then [] else [a.value]) + (if b == None then [] else [b.value])
  {
    assert ends[..1][..0] == [] && ends[..1][0] == ends[0];
    assert EndDevices(ends[..1]) == EndDevices(ends[..1][..0]) + (var a := ReadString(ends[0].device); if a == None then [] else [a.value]);
    assert ends[..|ends| - 1] == ends[..1];
  }

  lemma LinkNamed(pol: Policy, d: Draft, req: LinkReq)
    requires AddLink(pol, d, req).Ok?
    ensures var r := AddLink(pol, d, req).value;
            && LinkIds(r.links) == LinkIds(d.links) + [LinkName(req)] && LoopFlags(r.links) == LoopFlags(d.links) + [LinkLoops(req)]
            && r.devices == d.devices && r.vns == d.vns && r.pools == d.pools
  {
    var r := AddLink(pol, d, req).value;
    var l := r.links[|d.links|];
    SortedPairLoops(req.endpoints, l);
    assert r.links == d.links + [l];
    assert LinkLoops(req) == LinkLoops(LinkReq(l.id, req.endpoints));
  }

  lemma {:induction false} LinksNamed(pol: Policy, d: Draft, reqs: seq<LinkReq>)
    requires AddLinks(pol, d, reqs).Ok?
    ensures var r := AddLinks(pol, d, reqs).value;
            && LinkIds(r.links) == LinkIds(d.links) + Keys(reqs, LinkName) && LoopFlags(r.links) == LoopFlags(d.links) + Keys(reqs, LinkLoops)
            && r.devices == d.devices && r.vns == d.vns && r.pools == d.pools
    decreases reqs
  {
    if reqs != [] {
      LinkNamed(pol, d, reqs[0]);
      LinksNamed(pol, AddLink(pol, d, reqs[0]).value, reqs[1..]);
      FirstKey(LinkIds(d.links), reqs, LinkName);
      FirstKey(LoopFlags(d.links), reqs, LinkLoops);
    }
  }

  lemma PoolNamed(pol: Policy, d: Draft, vn: Id, req: SiteReq)
    requires AddPool(pol, d, vn, req).Ok?
    ensures var r := AddPool(pol, d, vn, req).value;
            PoolIds(r.pools) == PoolIds(d.pools) + [PoolName(vn)(req)] && r.devices == d.devices && r.links == d.links && r.vns == d.vns
  {
  }

  lemma {:induction false} PoolsNamed(pol: Policy, d: Draft, vn: Id, sites: seq<SiteReq>)
    requires AddPools(pol, d, vn, sites).Ok?
    ensures var r := AddPools(pol, d, vn, sites).value;
            && PoolIds(r.pools) == PoolIds(d.pools) + Keys(sites, PoolName(vn))
            && r.devices == d.devices && r.links == d.links && r.vns == d.vns
    decreases sites
  {
    if sites != [] {
      PoolNamed(pol, d, vn, sites[0]);
      PoolsNamed(pol, AddPool(pol, d, vn, sites[0]).value, vn, sites[1..]);
      FirstKey(PoolIds(d.pools), sites, PoolName(vn));
    }
  }

  lemma VnNamed(pol: Policy, d: Draft, req: VnReq)
    requires AddVn(pol, d, req).Ok?
    ensures var r := AddVn(pol, d, req).value;
            && VnNames(r.vns) == VnNames(d.vns) + [VnName(req)] && Vrfs(r.vns) == Vrfs(d.vns) + [VrfName(req)]
            && PoolIds(r.pools) == PoolIds(d.pools) + Keys(Sort(req.sites, SiteLe), PoolName(req.name))
            && r.devices == d.devices && r.links == d.links
  {
    var open := OpenVn(d, req, ReserveScalar(d.book, L3Instance, pol.l3.min, pol.l3.max).value);
    PoolsNamed(pol, open, req.name, Sort(req.sites, SiteLe));
  }

  lemma {:induction false} VnsNamed(pol: Policy, d: Draft, reqs: seq<VnReq>)
    requires AddVns(pol, d, reqs).Ok?
    ensures var r := AddVns(pol, d, reqs).value;
            && VnNames(r.vns) == VnNames(d.vns) + Keys(reqs, VnName) && Vrfs(r.vns) == Vrfs(d.vns) + Keys(reqs, VrfName)
            && PoolIds(r.pools) == PoolIds(d.pools) + SortedPoolNames(reqs) && r.devices == d.devices && r.links == d.links
    decreases reqs
  {
    if reqs != [] {
      VnNamed(pol, d, reqs[0]);
      VnsNamed(pol, AddVn(pol, d, reqs[0]).value, reqs[1..]);
      FirstPart(PoolIds(d.pools), Keys(Sort(reqs[0].sites, SiteLe), PoolName(reqs[0].name)), SortedPoolNames(reqs[1..]), SortedPoolNames(reqs));
      FirstKey(VnNames(d.vns), reqs, VnName);
      FirstKey(Vrfs(d.vns), reqs, VrfName);
    }
  }

  lemma {:induction false} PeersNameNothing(pol: Policy, d: Draft, reqs: seq<PeerReq>)
    requires AddPeers(pol, d, reqs).Ok?
    ensures var r := AddPeers(pol, d, reqs).value; r.devices == d.devices && r.links == d.links && r.vns == d.vns && r.pools == d.pools
    decreases reqs
  {
    if reqs != [] { PeersNameNothing(pol, AddPeer(pol, d, reqs[0]).value, reqs[1..]); }
  }

  /** The draft's names are those asked for, in the allocator's order. */
  ghost predicate NamedAsAsked(req: Requirements, d: Draft) {
    && DeviceIdList(d.devices) == Keys(Sort(req.devices, DeviceLe), DeviceName)
    && LinkIds(d.links) == Keys(Sort(req.links, LinkLe), LinkName) && LoopFlags(d.links) == Keys(Sort(req.links, LinkLe), LinkLoops)
    && VnNames(d.vns) == Keys(Sort(req.vns, VnLe), VnName) && Vrfs(d.vns) == Keys(Sort(req.vns, VnLe), VrfName)
    && PoolIds(d.pools) == SortedPoolNames(Sort(req.vns, VnLe))
  }

  lemma FillNames(req: Requirements, pol: Policy, d: Draft)
    requires d.devices == [] && d.links == [] && d.vns == [] && d.pools == [] && Fill(req, pol, d).Ok?
    ensures NamedAsAsked(req, Fill(req, pol, d).value)
  {
    DevicesNamed(pol, d, Sort(req.devices, DeviceLe));
    var d1 := AddDevices(pol, d, Sort(req.devices, DeviceLe)).value;
    LinksNamed(pol, d1, Sort(req.links, LinkLe));
    var d2 := AddLinks(pol, d1, Sort(req.links, LinkLe)).value;
    var d3 := AddAsn(pol, d2, req.needsAsn).value;
    VnsNamed(pol, d3, Sort(req.vns, VnLe));
    var d4 := AddVns(pol, d3, Sort(req.vns, VnLe)).value;
    if req.handoff.Some? { PeersNameNothing(pol, d4, Sort(req.handoff.value, PeerLe)); }
  }

  // ----- Exactly when a name is reported -----

  lemma RaisesDeviceId(doc: IntentDoc)
    ensures Raises(doc, DuplicateDeviceId) <==> HasRepeat(DeviceIdList(doc.devices))
  {
    RepeatsSomewhere(DeviceIdList(doc.devices));
    assert forall i: nat :: i < |doc.devices| ==> (DeviceFault(doc.devices, i, DuplicateDeviceId) <==> Repeats(DeviceIdList(doc.devices), i));
  }

  lemma RaisesLinkNames(doc: IntentDoc)
    ensures Raises(doc, DuplicateLinkId) <==> HasRepeat(LinkIds(doc.links))
    ensures Raises(doc, LinkSelf) <==> true in LoopFlags(doc.links)
  {
    var devices := KnownDevices(doc.devices);
    RepeatsSomewhere(LinkIds(doc.links));
    assert forall i: nat :: i < |doc.links| ==> (LinkFault(doc.links, devices, i, DuplicateLinkId) <==> Repeats(LinkIds(doc.links), i));
    assert forall i: nat :: i < |doc.links| ==> (LinkFault(doc.links, devices, i, LinkSelf) <==> LoopFlags(doc.links)[i]);
  }

  lemma RaisesVnNames(doc: IntentDoc)
    ensures Raises(doc, DuplicateVnName) <==> HasRepeat(VnNames(doc.vns))
    ensures Raises(doc, DuplicateVrf) <==> HasRepeat(Vrfs(doc.vns))
  {
    RepeatsSomewhere(VnNames(doc.vns));
    RepeatsSomewhere(Vrfs(doc.vns));
    assert forall i: nat :: i < |doc.vns| ==> (VnFault(doc.vns, i, DuplicateVnName) <==> Repeats(VnNames(doc.vns), i));
    assert forall i: nat :: i < |doc.vns| ==> (VnFault(doc.vns, i, DuplicateVrf) <==> Repeats(Vrfs(doc.vns), i));
  }

  lemma RaisesPoolId(doc: IntentDoc)
    ensures Raises(doc, DuplicatePoolId) <==> HasRepeat(PoolIds(doc.pools))
  {
    RepeatsSomewhere(PoolIds(doc.pools));
    assert forall i: nat :: i < |doc.pools| ==> (PoolFault(doc.pools, i, DuplicatePoolId) <==> Repeats(PoolIds(doc.pools), i));
  }

  /** The names as asked for, in any order. */
  ghost predicate Asks(req: Requirements, f: Finding) {
    match f
    case DuplicateDeviceId => HasRepeat(Keys(req.devices, DeviceName))
    case DuplicateLinkId => HasRepeat(Keys(req.links, LinkName))
    case DuplicateVnName => HasRepeat(Keys(req.vns, VnName))
    case DuplicateVrf => HasRepeat(Keys(req.vns, VrfName))
    case DuplicatePoolId => HasRepeat(PoolNames(req.vns))
    case LinkSelf => true in Keys(req.links, LinkLoops)
    case _ => false
  }

  const NAME_FINDINGS: set<Finding> := {DuplicateDeviceId, DuplicateLinkId, DuplicateVnName, DuplicateVrf, DuplicatePoolId, LinkSelf}

  lemma AskedInAnyOrder(req: Requirements, d: Draft, f: Finding)
    requires NamedAsAsked(req, d) && f in NAME_FINDINGS
    ensures Raises(IntentOf(d), f) <==> Asks(req, f)
  {
    match f
    case DuplicateDeviceId => RaisesDeviceId(IntentOf(d)); SortedRepeatsIff(req.devices, DeviceLe, DeviceName);
    case DuplicateLinkId => RaisesLinkNames(IntentOf(d)); SortedRepeatsIff(req.links, LinkLe, LinkName);
    case DuplicateVnName => RaisesVnNames(IntentOf(d)); SortedRepeatsIff(req.vns, VnLe, VnName);
    case DuplicateVrf => RaisesVnNames(IntentOf(d)); SortedRepeatsIff(req.vns, VnLe, VrfName);
    case DuplicatePoolId => RaisesPoolId(IntentOf(d)); PoolRepeatsIff(req.vns);
    case LinkSelf => RaisesLinkNames(IntentOf(d)); SortedLoopsIff(req.links);
  }

  lemma PoolRepeatsIff(vns: seq<VnReq>)
    ensures HasRepeat(SortedPoolNames(Sort(vns, VnLe))) <==> HasRepeat(PoolNames(vns))
  {
    SitesInAnyOrder(Sort(vns, VnLe));
    PoolNamesAfterSort(vns);
    RepeatIsReordered(SortedPoolNames(Sort(vns, VnLe)), PoolNames(vns));
  }

  lemma SortedLoopsIff(links: seq<LinkReq>)
    ensures true in Keys(Sort(links, LinkLe), LinkLoops) <==> true in Keys(links, LinkLoops)
  {
    KeysAfterSort(links, LinkLe, LinkLoops);
    assert true in Keys(Sort(links, LinkLe), LinkLoops) <==> true in multiset(Keys(Sort(links, LinkLe), LinkLoops));
    assert true in Keys(links, LinkLoops) <==> true in multiset(Keys(links, LinkLoops));
  }

  lemma SortedRepeatsIff<T>(s: seq<T>, le: (T, T) -> bool, key: T -> Option<Id>)
    ensures HasRepeat(Keys(Sort(s, le), key)) <==> HasRepeat(Keys(s, key))
  {
    KeysAfterSort(s, le, key);
    RepeatIsReordered(Keys(Sort(s, le), key), Keys(s, key));
  }

  /**
   A derived intent is reported for a repeated device id, link id, network name, VRF or
   endpoint-pool id, or for a link from a device to itself, if and only if the requirements
   ask for it: two of those names read alike, two pools' joined and lowered names do, or a
   link has both ends on one device.
   */
  lemma NamesAreRefusedIff(req: Requirements, pol: Policy, nets: seq<NetRow>, scalars: seq<ScalarRow>, f: Finding)
    requires Derive(req, pol, nets, scalars).Ok? && f in NAME_FINDINGS
    ensures Raises(IntentOf(Derive(req, pol, nets, scalars).value), f) <==> Asks(req, f)
  {
    FillNames(req, pol, Blank(Opening(pol, req.domain, nets, scalars)));
    AskedInAnyOrder(req, Derive(req, pol, nets, scalars).value, f);
  }

  // ----- Usable link addresses -----

  /** No address of a link is the network or the broadcast address of its subnet. */
  predicate LinkUsable(l: Link) { forall e :: e in l.ends ==> !NotUsable(l.subnet, e.ip) }

  lemma LinkUsableIff(pol: Policy, l: Link)
    requires LinkShaped(pol, l)
    ensures LinkUsable(l) <==> PrefixLen(pol, UnderlayP2p) == 31
  {
    assert l.ends[0] in l.ends;
    assert forall e :: e in l.ends ==> e == l.ends[0] || e == l.ends[1];
  }

  /**
   The first end of a link gets the subnet's first address, which is a usable host on a /31
   only.  The validator does not check this for links.
   */
  lemma LinkAddressesUsableIff(req: Requirements, pol: Policy, nets: seq<NetRow>, scalars: seq<ScalarRow>)
    requires Derive(req, pol, nets, scalars).Ok?
    ensures (forall l :: l in Derive(req, pol, nets, scalars).value.links ==> LinkUsable(l)) <==>
              req.links == [] || PrefixLen(pol, UnderlayP2p) == 31
  {
    var d := Derive(req, pol, nets, scalars).value;
    DeriveIsGood(req, pol, nets, scalars);
    FillNames(req, pol, Blank(Opening(pol, req.domain, nets, scalars)));
    SortIsPermutation(req.links, LinkLe);
    KeysLength(Sort(req.links, LinkLe), LinkName);
    forall l | l in d.links ensures LinkUsable(l) <==> PrefixLen(pol, UnderlayP2p) == 31 { LinkUsableIff(pol, l); }
    assert |d.links| == |LinkIds(d.links)| == |req.links|;
    assert d.links != [] ==> d.links[0] in d.links;
  }

  lemma {:induction false} KeysLength<T, K>(s: seq<T>, key: T -> K)
    ensures |Keys(s, key)| == |s|
    decreases s
  {
    if s != [] { KeysLength(s[1..], key); }
  }

  // ----- A design that meets both -----

  function PairPolicy(): Policy {
    SmallBlocks();
    assert Size(29) == 8 by { assert Pow2(3) == 8; }
    Policy(
      map[Loopbacks := PoolPolicy(Block(0, 30), 31, {}), UnderlayP2p := PoolPolicy(Block(4, 30), 30, {}),
          OverlayHosts := PoolPolicy(Block(8, 29), 30, {})],
      RangePolicy(100, 200, {}, []), RangePolicy(8000, 16777215, {}, []),
      RangePolicy(4000, 5000, {}, []), RangePolicy(65000, 65010, {}, []), 3000, 3100, 65000)
  }

  function SiteOf(site: Id): SiteReq { SiteReq(site, 1, 0, 1.0) }

  /** Site "a" of network "b-c", and site "a-b" of network "c"; one link. */
  function PairDesign(): Requirements {
    Requirements("campus", "fabric-1", [DeviceReq("edge-1", "a", false), DeviceReq("edge-2", "a-b", false)],
                 [LinkReq("link-1", [Endpoint("edge-1", "port"), Endpoint("edge-2", "port")])],
                 [VnReq("b-c", "one", [SiteOf("a")]), VnReq("c", "two", [SiteOf("a-b")])], false, None)
  }

  lemma {:induction false} SortOfTwo<T>(a: T, b: T, le: (T, T) -> bool)
    requires le(a, b)
    ensures Sort([a, b], le) == [a, b]
  {
    assert [a, b][1..] == [b] && [b][1..] == [];
    assert Sort([b], le) == Insert(b, Sort([], le), le) == [b];
  }

  lemma PairPolicyIsValid()
    ensures PolicyValid(PairPolicy()) && HasPools(PairPolicy()) && PoolsDisjoint(PairPolicy())
  {
    SmallBlocks();
    assert RangeValues([]) == {};
  }

  /** Nothing is taken yet. */
  ghost predicate Unused(b: Book) {
    && NetsOf(b, UnderlayP2p) == {} && NetsOf(b, OverlayHosts) == {}
    && ScalarsOf(b, L3Instance) == {} && ScalarsOf(b, Vlan) == {} && ScalarsOf(b, L2Instance) == {}
  }

  ghost predicate LinkFits(pol: Policy, d: Draft) {
    && UnderlayP2p in pol.pools && pol.pools[UnderlayP2p].prefixLen == pol.pools[UnderlayP2p].cidr.len == 30
    && NetsOf(d.book, UnderlayP2p) == {} && DeviceIds(d.devices) == {"edge-1", "edge-2"}
  }

  lemma OneLink(pol: Policy, d: Draft, req: LinkReq)
    requires LinkFits(pol, d) && req == PairDesign().links[0]
    ensures AddLink(pol, d, req).Ok?
    ensures var r := AddLink(pol, d, req).value; r.book.scalars == d.book.scalars && NetsOf(r.book, OverlayHosts) == NetsOf(d.book, OverlayHosts)
  {
    SmallFit(pol.pools[UnderlayP2p].cidr, 30);
    assert EndpointLe(Endpoint("edge-1", "port"), Endpoint("edge-2", "port")) by { EdgesInOrder(); }
    SortOfTwo(Endpoint("edge-1", "port"), Endpoint("edge-2", "port"), EndpointLe);
  }

  lemma EdgesInOrder()
    ensures StringLe("edge-1", "edge-2") && "edge-1" != "edge-2"
  {
    assert "edge-1"[1..][1..][1..][1..][1..] == "1" && "edge-2"[1..][1..][1..][1..][1..] == "2";
    assert StringLe("1", "2");
    StringLeTotal("edge-1", "edge-2");
    assert "edge-1"[5] != "edge-2"[5];
  }

  /** One network with one pool, given what its reservations return. */
  lemma OnePoolVn(pol: Policy, d: Draft, req: VnReq, site: Id, l3: int, vlan: int, l2: int, p: Prefix)
    requires OverlayHosts in pol.pools && req.sites == [SiteOf(site)] && HostPrefix(1, 0, 1.0, pol.pools[OverlayHosts].cidr.len) == Ok(30)
    requires ReserveScalar(d.book, L3Instance, pol.l3.min, pol.l3.max) == Ok(l3)
    requires ReserveScalar(d.book, Vlan, pol.vlan.min, pol.vlan.max) == Ok(vlan) && ReserveL2(pol, d.book, vlan) == Ok(l2)
    requires ReservePrefix(pol, d.book, OverlayHosts, 30) == Ok(p)
    ensures AddVn(pol, d, req).Ok? && AddVn(pol, d, req).value.book == PoolBook(TakeScalar(d.book, L3Instance, l3), vlan, l2, p)
  {
    var open := OpenVn(d, req, l3);
    assert Sort(req.sites, SiteLe) == req.sites;
    var d1 := AddPool(pol, open, req.name, req.sites[0]).value;
    assert AddPools(pol, d1, req.name, req.sites[1..]) == Ok(d1);
  }

  lemma OneHostFitsHere()
    ensures HostPrefix(1, 0, 1.0, 29) == Ok(30)
  {
    assert UsableHosts(30) == 2 by { SmallBlocks(); }
    assert Required(1.0) == 1;
  }

  lemma SecondValues()
    ensures FirstFreeFrom(4000, 5000, {4000}) == Ok(4001) && FirstFreeFrom(100, 200, {100}) == Ok(101)
  {
    assert FirstFreeFrom(4000, 5000, {4000}) == FirstFreeFrom(4001, 5000, {4000});
    assert FirstFreeFrom(100, 200, {100}) == FirstFreeFrom(101, 200, {100});
  }

  lemma FirstVn(pol: Policy, d: Draft, req: VnReq) returns (r: Draft)
    requires pol == PairPolicy() && req == PairDesign().vns[0]
    requires NetsOf(d.book, OverlayHosts) == {} && ScalarsOf(d.book, L3Instance) == {} && ScalarsOf(d.book, Vlan) == {} && ScalarsOf(d.book, L2Instance) == {}
    ensures AddVn(pol, d, req) == Ok(r) && NetsOf(r.book, OverlayHosts) == {Candidate(pol.pools[OverlayHosts].cidr, 30, 0)}
    ensures ScalarsOf(r.book, L3Instance) == {4000} && ScalarsOf(r.book, Vlan) == {100} && ScalarsOf(r.book, L2Instance) == {8100}
  {
    OneHostFitsHere();
    SmallFit(pol.pools[OverlayHosts].cidr, 30);
    OnePoolVn(pol, d, req, "a", 4000, 100, 8100, Candidate(pol.pools[OverlayHosts].cidr, 30, 0));
    r := AddVn(pol, d, req).value;
  }

  lemma SecondVn(pol: Policy, d: Draft, req: VnReq)
    requires pol == PairPolicy() && req == PairDesign().vns[1]
    requires NetsOf(d.book, OverlayHosts) == {Candidate(pol.pools[OverlayHosts].cidr, 30, 0)}
    requires ScalarsOf(d.book, L3Instance) == {4000} && ScalarsOf(d.book, Vlan) == {100} && ScalarsOf(d.book, L2Instance) == {8100}
    ensures AddVn(pol, d, req).Ok?
  {
    OneHostFitsHere();
    SmallFitNext(pol.pools[OverlayHosts].cidr, 30);
    SecondValues();
    OnePoolVn(pol, d, req, "a-b", 4001, 101, 8101, Candidate(pol.pools[OverlayHosts].cidr, 30, 1));
  }

  lemma BothVns(pol: Policy, d: Draft, vns: seq<VnReq>)
    requires pol == PairPolicy() && vns == PairDesign().vns
    requires NetsOf(d.book, OverlayHosts) == {} && ScalarsOf(d.book, L3Instance) == {} && ScalarsOf(d.book, Vlan) == {} && ScalarsOf(d.book, L2Instance) == {}
    ensures AddVns(pol, d, vns).Ok?
  {
    var d1 := FirstVn(pol, d, vns[0]);
    SecondVn(pol, d1, vns[1]);
    var d2 := AddVn(pol, d1, vns[1]).value;
    assert AddVns(pol, d2, vns[1..][1..]) == Ok(d2);
    assert AddVns(pol, d1, vns[1..]) == Ok(d2);
  }

  lemma PairFill(d: Draft, req: Requirements, pol: Policy)
    requires req == PairDesign() && pol == PairPolicy()
    requires d.devices == [] && d.pools == [] && NetsOf(d.book, Loopbacks) == {} && Unused(d.book)
    ensures Fill(req, pol, d).Ok?
  {
    EdgesInOrder();
    SortOfTwo(req.devices[0], req.devices[1], DeviceLe);
    TwoDevices(pol, d, req.devices);
    var d1 := AddDevices(pol, d, req.devices).value;
    OneLink(pol, d1, req.links[0]);
    var d2 := AddLink(pol, d1, req.links[0]).value;
    assert Sort(req.links, LinkLe) == req.links && AddLinks(pol, d2, req.links[1..]) == Ok(d2);
    assert StringLe("b-c", "c");
    SortOfTwo(req.vns[0], req.vns[1], VnLe);
    BothVns(pol, d2.(localAs := pol.rdAsn), req.vns);
  }

  lemma PairPoolsCollide()
    ensures HasRepeat(PoolNames(PairDesign().vns))
  {
    var vns := PairDesign().vns;
    assert PoolId("a", "b-c") == "a-b-c" == PoolId("a-b", "c");
    PlainIsStripped("a-b-c");
    assert PoolNames(vns[1..]) == Keys(vns[1].sites, PoolName("c")) + PoolNames(vns[1..][1..]);
    assert Keys([SiteOf("a")], PoolName("b-c")) == [Some("a-b-c")] && Keys([SiteOf("a-b")], PoolName("c")) == [Some("a-b-c")];
    var s := PoolNames(vns);
    assert s == [Some("a-b-c"), Some("a-b-c")];
    assert 0 < 1 < |s| && s[0].Some? && s[0] == s[1];
  }

  lemma PairDerives(req: Requirements, pol: Policy)
    requires req == PairDesign() && pol == PairPolicy()
    ensures Derive(req, pol, [], []).Ok?
  {
    var d := PairOpening(pol, req.domain);
    PairPolicyIsValid();
    PairFill(d, req, pol);
    assert Derive(req, pol, [], []) == Fill(req, pol, d) by { DeriveFills(req, pol, [], []); }
  }

  lemma PairOpening(pol: Policy, domain: Id) returns (d: Draft)
    requires pol == PairPolicy()
    ensures d == Blank(Opening(pol, domain, [], []))
    ensures d.devices == [] && d.pools == [] && NetsOf(d.book, Loopbacks) == {} && Unused(d.book)
  {
    d := Blank(Opening(pol, domain, [], []));
    assert RangeValues([]) == {};
  }

  lemma PairIsDerived() returns (req: Requirements, pol: Policy)
    ensures Derive(req, pol, [], []).Ok? && HasRepeat(PoolNames(req.vns)) && req.links != [] && PrefixLen(pol, UnderlayP2p) == 30
  {
    req, pol := PairDesign(), PairPolicy();
    PairDerives(req, pol);
    PairPoolsCollide();
  }

  lemma Refused(req: Requirements, pol: Policy, nets: seq<NetRow>, scalars: seq<ScalarRow>, d: Draft)
    requires Derive(req, pol, nets, scalars) == Ok(d) && HasRepeat(PoolNames(req.vns))
    ensures Raises(IntentOf(d), DuplicatePoolId)
  {
    NamesAreRefusedIff(req, pol, nets, scalars, DuplicatePoolId);
    assert Asks(req, DuplicatePoolId);
  }

  lemma StartsAtNetwork(req: Requirements, pol: Policy, nets: seq<NetRow>, scalars: seq<ScalarRow>, d: Draft)
    requires Derive(req, pol, nets, scalars) == Ok(d) && req.links != [] && PrefixLen(pol, UnderlayP2p) == 30
    ensures exists l :: l in d.links && !LinkUsable(l)
  {
    LinkAddressesUsableIff(req, pol, nets, scalars);
  }

  /** A legal design and policy whose derived intent is refused for two pools of one id, and whose link starts at its network address. */
  lemma PoolIdsCanCollide() returns (req: Requirements, pol: Policy, d: Draft)
    ensures Derive(req, pol, [], []) == Ok(d)
    ensures Raises(IntentOf(d), DuplicatePoolId) && exists l :: l in d.links && !LinkUsable(l)
  {
    req, pol := PairIsDerived();
    d := Derive(req, pol, [], []).value;
    Refused(req, pol, [], [], d);
    StartsAtNetwork(req, pol, [], [], d);
  }
}
