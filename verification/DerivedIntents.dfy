/** The allocator satisfies the validator: what it hands out raises no finding in any derived intent. */
module DerivedIntents {
  import opened Basics
  import opened Addressing
  import opened Allocator
  import opened AllocatorProofs
  import opened IntentValidation
  import Decimal

  // ----- Claims of one pool are pairwise disjoint, values of one kind distinct -----

  ghost predicate AllApart(s: seq<Prefix>) {
    forall i, j :: 0 <= i < j < |s| ==> !Overlaps(s[i], s[j])
  }

  ghost predicate Distinct<K>(s: seq<K>) {
    forall i, j :: 0 <= i < j < |s| ==> s[i] != s[j]
  }

  lemma {:induction false} PrefixesComeFromClaims(claims: seq<NetClaim>, pool: Pool, p: Prefix)
    requires p in PrefixesOf(claims, pool)
    ensures NetClaim(pool, p) in claims
    decreases |claims|
  {
    if claims != [] && claims[|claims| - 1] != NetClaim(pool, p) {
      PrefixesComeFromClaims(claims[..|claims| - 1], pool, p);
    }
  }

  lemma {:induction false} PrefixesAreApart(claims: seq<NetClaim>, pool: Pool)
    requires forall i, j :: 0 <= i < j < |claims| ==> Apart(claims[i], claims[j])
    ensures AllApart(PrefixesOf(claims, pool))
    decreases |claims|
  {
    if claims != [] {
      var init, last := claims[..|claims| - 1], claims[|claims| - 1];
      PrefixesAreApart(init, pool);
      var rest := PrefixesOf(init, pool);
      forall i | 0 <= i < |rest| ensures last.pool == pool ==> !Overlaps(rest[i], last.prefix) {
        PrefixesComeFromClaims(init, pool, rest[i]);
        var k :| 0 <= k < |init| && init[k] == NetClaim(pool, rest[i]);
        assert Apart(claims[k], claims[|claims| - 1]);
      }
    }
  }

  lemma {:induction false} ValuesComeFromClaims(claims: seq<ScalarClaim>, kind: Kind, v: int)
    requires v in ValuesOf(claims, kind)
    ensures ScalarClaim(kind, v) in claims
    decreases |claims|
  {
    if claims != [] && claims[|claims| - 1] != ScalarClaim(kind, v) {
      ValuesComeFromClaims(claims[..|claims| - 1], kind, v);
    }
  }

  lemma {:induction false} ValuesAreDistinct(claims: seq<ScalarClaim>, kind: Kind)
    requires Distinct(claims)
    ensures Distinct(ValuesOf(claims, kind))
    decreases |claims|
  {
    if claims != [] {
      var init, last := claims[..|claims| - 1], claims[|claims| - 1];
      ValuesAreDistinct(init, kind);
      var rest := ValuesOf(init, kind);
      forall i | 0 <= i < |rest| ensures last.kind == kind ==> rest[i] != last.value {
        ValuesComeFromClaims(init, kind, rest[i]);
      }
    }
  }

  // ----- No two networks of the intent overlap -----

  /** The guardrail pools do not overlap each other. */
  ghost predicate PoolsDisjoint(pol: Policy) {
    forall p, q :: p in pol.pools && q in pol.pools && p != q ==> !Overlaps(pol.pools[p].cidr, pol.pools[q].cidr)
  }

  ghost predicate AllWithin(s: seq<Prefix>, pol: Policy, pool: Pool) {
    forall p :: p in s ==> pool in pol.pools && SubnetOf(p, pol.pools[pool].cidr)
  }

  lemma PrefixesAreWithin(pol: Policy, opening: Book, d: Draft, pool: Pool)
    requires Good(pol, opening, d)
    ensures AllWithin(PrefixesOf(d.book.netClaims, pool), pol, pool)
    ensures AllApart(PrefixesOf(d.book.netClaims, pool))
  {
    forall p | p in PrefixesOf(d.book.netClaims, pool) ensures pool in pol.pools && SubnetOf(p, pol.pools[pool].cidr) {
      PrefixesComeFromClaims(d.book.netClaims, pool, p);
      assert NewNet(pol, opening, d.book, NetClaim(pool, p));
    }
    PrefixesAreApart(d.book.netClaims, pool);
  }

  lemma PoolsKeepApart(pol: Policy, p: Pool, s: seq<Prefix>, q: Pool, t: seq<Prefix>)
    requires PoolsDisjoint(pol) && p != q
    requires AllWithin(s, pol, p) && AllWithin(t, pol, q)
    ensures forall x, y :: x in s && y in t ==> !Overlaps(x, y)
  {
  }

  lemma ConcatApart(s: seq<Prefix>, t: seq<Prefix>)
    requires AllApart(s) && AllApart(t)
    requires forall x, y :: x in s && y in t ==> !Overlaps(x, y)
    ensures AllApart(s + t)
  {
    forall i, j | 0 <= i < j < |s + t| ensures !Overlaps((s + t)[i], (s + t)[j]) {
      if i < |s| <= j { assert (s + t)[i] in s && (s + t)[j] in t; }
    }
  }

  lemma HostRoutesStayApart(pol: Policy, s: seq<Prefix>, pool: Pool)
    requires AllApart(s) && AllWithin(s, pol, pool)
    ensures AllApart(HostRoutes(s)) && AllWithin(HostRoutes(s), pol, pool)
  {
    var r := HostRoutes(s);
    forall i, j | 0 <= i < j < |r| ensures !Overlaps(r[i], r[j]) {
      assert SubnetOf(r[i], s[i]) && SubnetOf(r[j], s[j]);
    }
    forall p | p in r ensures pool in pol.pools && SubnetOf(p, pol.pools[pool].cidr) {
      var k :| 0 <= k < |r| && r[k] == p;
      assert s[k] in s;
    }
  }

  lemma NetworksAreApart(pol: Policy, opening: Book, d: Draft)
    requires Good(pol, opening, d) && PoolsDisjoint(pol)
    ensures AllApart(AddressNetworks(IntentOf(d)))
  {
    PrefixesAreWithin(pol, opening, d, Loopbacks);
    PrefixesAreWithin(pol, opening, d, UnderlayP2p);
    PrefixesAreWithin(pol, opening, d, OverlayHosts);
    PrefixesAreWithin(pol, opening, d, BorderHandoff);
    HostRoutesStayApart(pol, LoopbacksOf(d.devices), Loopbacks);
    FourPoolsApart(pol, HostRoutes(LoopbacksOf(d.devices)), SubnetsOf(d.links), PoolPrefixes(d.pools), PeerPrefixes(d.peers));
  }

  lemma FourPoolsApart(pol: Policy, a: seq<Prefix>, b: seq<Prefix>, c: seq<Prefix>, d: seq<Prefix>)
    requires PoolsDisjoint(pol)
    requires AllApart(a) && AllWithin(a, pol, Loopbacks) && AllApart(b) && AllWithin(b, pol, UnderlayP2p)
    requires AllApart(c) && AllWithin(c, pol, OverlayHosts) && AllApart(d) && AllWithin(d, pol, BorderHandoff)
    ensures AllApart(a + b + c + d)
  {
    PoolsKeepApart(pol, Loopbacks, a, UnderlayP2p, b);
    ConcatApart(a, b);
    PoolsKeepApart(pol, Loopbacks, a, OverlayHosts, c);
    PoolsKeepApart(pol, UnderlayP2p, b, OverlayHosts, c);
    ConcatApart(a + b, c);
    PoolsKeepApart(pol, Loopbacks, a, BorderHandoff, d);
    PoolsKeepApart(pol, UnderlayP2p, b, BorderHandoff, d);
    PoolsKeepApart(pol, OverlayHosts, c, BorderHandoff, d);
    ConcatApart(a + b + c, d);
  }

  // ----- Sizes -----

  lemma SmallBlocks()
    ensures Size(30) == 4 && Size(31) == 2
  {
    assert Pow2(1) == 2;
    assert Pow2(2) == 4;
  }

  lemma WideBlocks(len: nat)
    requires len <= 30
    ensures Size(len) >= 4
  {
    SmallBlocks();
    if len < 30 { Pow2Grows(2, 32 - len); }
  }

  // ----- The main result -----

  /** Overlap and containment, usable addresses of handoff peers, and repeats of whatever the allocator hands out. */
  const ALLOCATION_FINDINGS: set<Finding> := {
    AddressOverlap, DuplicateLoopback,
    LinkPrefixLength, LinkEndpointCount, LinkDuplicateIp, LinkOutsideSubnet,
    DuplicateL3, DuplicateRd, DuplicateSiteVlan, DuplicateL2, GatewayOutside,
    HandoffPrefixLength, LocalOutside, NeighborOutside, LocalNotUsable, NeighborNotUsable,
    SameAddress, DuplicatePeer, DuplicateDeviceVlan}

  /** Link and handoff pools carve /30 or /31. */
  ghost predicate CarvesPointToPoint(pol: Policy) {
    && (UnderlayP2p in pol.pools ==> PrefixLen(pol, UnderlayP2p) in {30, 31})
    && (BorderHandoff in pol.pools ==> PrefixLen(pol, BorderHandoff) in {30, 31})
  }

  lemma DevicesAreClean(pol: Policy, opening: Book, d: Draft, i: nat, f: Finding)
    requires Good(pol, opening, d) && i < |d.devices| && f in ALLOCATION_FINDINGS
    ensures !DeviceFault(d.devices, i, f)
  {
    PrefixesAreWithin(pol, opening, d, Loopbacks);
    forall j | 0 <= j < i ensures LoopbackIps(d.devices)[j] != LoopbackIps(d.devices)[i] {
      assert !Overlaps(LoopbacksOf(d.devices)[j], LoopbacksOf(d.devices)[i]);
    }
  }

  lemma LinkItemsAreClean(pol: Policy, l: Link, devices: set<Id>, f: Finding)
    requires LinkShaped(pol, l) && l.subnet.len in {30, 31} && f in ALLOCATION_FINDINGS
    ensures !LinkItemFault(l, devices, f)
  {
    SmallBlocks();
    assert EndIps(l.ends) == [Some(l.subnet.addr), Some(l.subnet.addr + 1)];
    assert !Repeats(EndIps(l.ends), 0) && !Repeats(EndIps(l.ends), 1);
  }

  lemma LinksAreClean(pol: Policy, opening: Book, d: Draft, i: nat, f: Finding)
    requires Good(pol, opening, d) && CarvesPointToPoint(pol) && i < |d.links| && f in ALLOCATION_FINDINGS
    ensures !LinkFault(d.links, KnownDevices(d.devices), i, f)
  {
    PoolInUse(pol, opening, d, UnderlayP2p, SubnetsOf(d.links), i);
    LinkItemsAreClean(pol, d.links[i], KnownDevices(d.devices), f);
  }

  /** A prefix claimed from a pool shows that the pool exists. */
  lemma PoolInUse(pol: Policy, opening: Book, d: Draft, pool: Pool, s: seq<Prefix>, i: nat)
    requires Good(pol, opening, d) && s == PrefixesOf(d.book.netClaims, pool) && i < |s|
    ensures pool in pol.pools
  {
    PrefixesComeFromClaims(d.book.netClaims, pool, s[i]);
    assert NewNet(pol, opening, d.book, NetClaim(pool, s[i]));
  }

  lemma VnsAreClean(pol: Policy, opening: Book, d: Draft, i: nat, f: Finding)
    requires Good(pol, opening, d) && i < |d.vns| && f in ALLOCATION_FINDINGS
    ensures !VnFault(d.vns, i, f)
  {
    forall j | 0 <= j < i ensures d.vns[j].l3 != d.vns[i].l3 && Rds(d.vns)[j] != Rds(d.vns)[i] {
      VnsDiffer(pol, opening, d, j, i);
    }
    NewVnIsClean(d.vns, i, f);
  }

  lemma NothingRepeats<K>(values: seq<Option<K>>, i: nat)
    requires i < |values| && forall j :: 0 <= j < i ==> values[j] == None || values[j] != values[i]
    ensures !Repeats(values, i)
  {
  }

  lemma NewVnIsClean(s: seq<Vn>, i: nat, f: Finding)
    requires i < |s| && f in ALLOCATION_FINDINGS
    requires forall j :: 0 <= j < i ==> s[j].l3 != s[i].l3 && Rds(s)[j] != Rds(s)[i]
    ensures !VnFault(s, i, f)
  {
    NothingRepeats(L3s(s), i);
    NothingRepeats(Rds(s), i);
    assert f != DuplicateVnName && f != DuplicateVrf && f != L3Range;
  }

  /** Two virtual networks have different L3 instances, and so different route distinguishers. */
  lemma VnsDiffer(pol: Policy, opening: Book, d: Draft, j: nat, i: nat)
    requires Good(pol, opening, d) && j < i < |d.vns|
    ensures d.vns[j].l3 != d.vns[i].l3 && Rds(d.vns)[j] != Rds(d.vns)[i]
  {
    ValuesAreDistinct(d.book.scalarClaims, L3Instance);
    assert VnL3s(d.vns)[j] != VnL3s(d.vns)[i];
    assert VnShaped(pol, d, d.vns[i]) && VnShaped(pol, d, d.vns[j]);
    RdReads(d.localAs, d.vns[j].l3);
    RdReads(d.localAs, d.vns[i].l3);
    if d.vns[j].rd == d.vns[i].rd { RdIsInjective(d.localAs, d.vns[j].l3, d.vns[i].l3); }
  }

  lemma {:induction false} PlainIsStripped(s: string)
    requires forall c :: c in s ==> !IsSpace(c)
    ensures Strip(s) == s
  {
  }

  lemma NumbersArePlain(v: int)
    ensures Decimal.Signed(v) != "" && forall c :: c in Decimal.Signed(v) ==> !IsSpace(c)
  {
    Decimal.SignedShowsSign(v);
    Decimal.DecRoundTrip(if v < 0 then -v else v);
    forall c | c in Decimal.Signed(v) ensures !IsSpace(c) {
      assert c == '-' || Decimal.IsDigit(c);
    }
  }

  /** A printed route distinguisher is read as it stands. */
  lemma RdReads(localAs: int, l3: int)
    ensures ReadString(RdText(localAs, l3)) == Some(RdText(localAs, l3))
  {
    NumbersArePlain(localAs);
    NumbersArePlain(l3);
    var rd := RdText(localAs, l3);
    forall c | c in rd ensures !IsSpace(c) { assert c in Decimal.Signed(localAs) || c == ':' || c in Decimal.Signed(l3); }
    PlainIsStripped(rd);
    assert IsSpace('\r') && IsSpace('\n');
  }

  /** With one local AS, route distinguishers differ when the L3 instances do. */
  lemma RdIsInjective(localAs: int, l3: int, l3': int)
    requires RdText(localAs, l3) == RdText(localAs, l3')
    ensures l3 == l3'
  {
    var n := |Decimal.Signed(localAs) + ":"|;
    assert RdText(localAs, l3)[n..] == Decimal.Signed(l3);
    assert RdText(localAs, l3')[n..] == Decimal.Signed(l3');
    Decimal.SignedIsInjective(l3, l3');
  }

  lemma PoolsDiffer(pol: Policy, opening: Book, d: Draft, j: nat, i: nat)
    requires Good(pol, opening, d) && j < i < |d.pools|
    ensures d.pools[j].vlan != d.pools[i].vlan && d.pools[j].l2 != d.pools[i].l2
  {
    ValuesAreDistinct(d.book.scalarClaims, L2Instance);
    ValuesAreDistinct(d.book.scalarClaims, Vlan);
    var all := PoolVlans(d.pools) + PeerVlans(d.peers);
    assert all[j] == d.pools[j].vlan && all[i] == d.pools[i].vlan;
    assert PoolL2s(d.pools)[j] != PoolL2s(d.pools)[i];
  }

  lemma PoolsAreClean(pol: Policy, opening: Book, d: Draft, i: nat, f: Finding)
    requires Good(pol, opening, d) && i < |d.pools| && f in ALLOCATION_FINDINGS
    ensures !PoolFault(d.pools, i, f)
  {
    assert PoolShaped(pol, d.pools[i]);
    WideBlocks(d.pools[i].prefix.len);
    forall j | 0 <= j < i ensures d.pools[j].vlan != d.pools[i].vlan && d.pools[j].l2 != d.pools[i].l2 {
      PoolsDiffer(pol, opening, d, j, i);
    }
    NewPoolIsClean(d.pools, i, f);
  }

  lemma NewPoolIsClean(s: seq<EndpointPool>, i: nat, f: Finding)
    requires i < |s| && f in ALLOCATION_FINDINGS && Contains(s[i].prefix, s[i].gateway)
    requires forall j :: 0 <= j < i ==> s[j].vlan != s[i].vlan && s[j].l2 != s[i].l2
    ensures !PoolFault(s, i, f)
  {
    NothingRepeats(L2s(s), i);
    NothingRepeats(SiteVlans(s), i);
    assert f != DuplicatePoolId && f != VlanRange && f != VlanReserved && f != L2Range;
  }

  lemma PeerItemsAreClean(pol: Policy, p: Peer, devices: set<Id>, borders: set<Id>, vrfs: set<Id>, f: Finding)
    requires PeerShaped(pol, p) && p.prefix.len in {30, 31} && f in ALLOCATION_FINDINGS
    ensures !PeerItemFault(p, devices, borders, vrfs, f)
  {
    SmallBlocks();
  }

  lemma PeerKeysAreDistinct(pol: Policy, opening: Book, d: Draft, i: nat, j: nat)
    requires Good(pol, opening, d) && j < i < |d.peers| && PrefixLen(pol, BorderHandoff) in {30, 31}
    ensures d.peers[j].vlan != d.peers[i].vlan && d.peers[j].neighborIp != d.peers[i].neighborIp
  {
    ValuesAreDistinct(d.book.scalarClaims, Vlan);
    var all := PoolVlans(d.pools) + PeerVlans(d.peers);
    assert all[|d.pools| + j] == d.peers[j].vlan && all[|d.pools| + i] == d.peers[i].vlan;
    PrefixesAreApart(d.book.netClaims, BorderHandoff);
    assert !Overlaps(PeerPrefixes(d.peers)[j], PeerPrefixes(d.peers)[i]);
    assert PeerShaped(pol, d.peers[i]) && PeerShaped(pol, d.peers[j]);
    SmallBlocks();
  }

  lemma PeersAreClean(pol: Policy, opening: Book, d: Draft, i: nat, f: Finding)
    requires Good(pol, opening, d) && CarvesPointToPoint(pol) && i < |d.peers| && f in ALLOCATION_FINDINGS
    ensures !PeerFault(d.peers, KnownDevices(d.devices), Borders(d.devices), KnownVrfs(d.vns), i, f)
  {
    PoolInUse(pol, opening, d, BorderHandoff, PeerPrefixes(d.peers), i);
    PeerItemsAreClean(pol, d.peers[i], KnownDevices(d.devices), Borders(d.devices), KnownVrfs(d.vns), f);
    forall j: nat | j < i ensures d.peers[j].vlan != d.peers[i].vlan && d.peers[j].neighborIp != d.peers[i].neighborIp {
      PeerKeysAreDistinct(pol, opening, d, i, j);
    }
    NothingRepeats(PeerKeys(d.peers), i);
    NothingRepeats(DeviceVlans(d.peers), i);
  }

  /**
   The allocator satisfies the validator: with disjoint guardrail pools and
   point-to-point links and handoffs, no derived intent raises an overlap or containment
   finding, an unusable handoff address, or a repeat of an address or number handed out.
   */
  lemma DerivedIntentsAreClean(req: Requirements, pol: Policy, nets: seq<NetRow>, scalars: seq<ScalarRow>, f: Finding)
    requires Derive(req, pol, nets, scalars).Ok?
    requires PoolsDisjoint(pol) && CarvesPointToPoint(pol) && f in ALLOCATION_FINDINGS
    ensures !Raises(IntentOf(Derive(req, pol, nets, scalars).value), f)
  {
    var d := Derive(req, pol, nets, scalars).value;
    var opening := Opening(pol, req.domain, nets, scalars);
    DeriveIsGood(req, pol, nets, scalars);
    GoodIntentsAreClean(pol, opening, d, f);
  }

  lemma GoodIntentsAreClean(pol: Policy, opening: Book, d: Draft, f: Finding)
    requires Good(pol, opening, d)
    requires PoolsDisjoint(pol) && CarvesPointToPoint(pol) && f in ALLOCATION_FINDINGS
    ensures !Raises(IntentOf(d), f)
  {
    forall i: nat | i < |d.devices| ensures !DeviceFault(d.devices, i, f) { DevicesAreClean(pol, opening, d, i, f); }
    forall i: nat | i < |d.links| ensures !LinkFault(d.links, KnownDevices(d.devices), i, f) { LinksAreClean(pol, opening, d, i, f); }
    forall i: nat | i < |d.vns| ensures !VnFault(d.vns, i, f) { VnsAreClean(pol, opening, d, i, f); }
    forall i: nat | i < |d.pools| ensures !PoolFault(d.pools, i, f) { PoolsAreClean(pol, opening, d, i, f); }
    forall i: nat | i < |d.peers|
      ensures !PeerFault(d.peers, KnownDevices(d.devices), Borders(d.devices), KnownVrfs(d.vns), i, f)
    {
      PeersAreClean(pol, opening, d, i, f);
    }
    NetworksAreApart(pol, opening, d);
  }
}
