/** The derived intent does not depend on the order in which anything is listed. */
module AllocatorOrder {
  import opened Basics
  import opened Ordering
  import opened Addressing
  import opened Allocator

  lemma DeviceLePreorder()
    ensures Preorder(DeviceLe) && Preorder(LinkLe) && Preorder(VnLe) && Preorder(SiteLe)
  {
    StringLePreorder();
  }

  lemma EndpointLePreorder()
    ensures Preorder(EndpointLe)
  {
    StringLePreorder();
    forall x, y, z | EndpointLe(x, y) && EndpointLe(y, z) ensures EndpointLe(x, z) {
      if x.device == z.device && x.device != y.device { StringLeAntisymmetric(x.device, y.device); }
    }
  }

  lemma PeerLePreorder()
    ensures Preorder(PeerLe)
  {
    StringLePreorder();
    forall x, y, z | PeerLe(x, y) && PeerLe(y, z) ensures PeerLe(x, z) {
      if x.device == z.device {
        if x.device != y.device { StringLeAntisymmetric(x.device, y.device); }
        else if x.fusion == z.fusion && x.fusion != y.fusion { StringLeAntisymmetric(x.fusion, y.fusion); }
      }
    }
  }

  /** Endpoints that tie are the same endpoint. */
  lemma EndpointsAreKeys(s: seq<Endpoint>)
    ensures DistinctKeys(s, EndpointLe)
  {
    forall x, y | x in s && y in s && EndpointLe(x, y) && EndpointLe(y, x) ensures x == y {
      if x.device != y.device { StringLeAntisymmetric(x.device, y.device); }
      else { StringLeAntisymmetric(x.port, y.port); }
    }
  }

  // ----- Permuted sites and endpoints -----

  ghost predicate SameVn(a: VnReq, b: VnReq) {
    && a.name == b.name && a.vrf == b.vrf
    && multiset(a.sites) == multiset(b.sites) && DistinctKeys(a.sites, SiteLe)
  }

  ghost predicate SameLink(a: LinkReq, b: LinkReq) {
    a.id == b.id && multiset(a.endpoints) == multiset(b.endpoints)
  }

  lemma {:induction false} AddVnsIgnoresSiteOrder(pol: Policy, d: Draft, a: seq<VnReq>, b: seq<VnReq>)
    requires Pointwise(a, b, SameVn)
    ensures AddVns(pol, d, a) == AddVns(pol, d, b)
    decreases |a|
  {
    if a != [] {
      assert SameVn(a[0], b[0]);
      DeviceLePreorder();
      SortIgnoresOrder(a[0].sites, b[0].sites, SiteLe);
      assert AddVn(pol, d, a[0]) == AddVn(pol, d, b[0]);
      if AddVn(pol, d, a[0]).Ok? {
        AddVnsIgnoresSiteOrder(pol, AddVn(pol, d, a[0]).value, a[1..], b[1..]);
      }
    }
  }

  lemma AddLinkIgnoresEndpointOrder(pol: Policy, d: Draft, a: LinkReq, b: LinkReq)
    requires SameLink(a, b)
    ensures AddLink(pol, d, a) == AddLink(pol, d, b)
  {
    EndpointLePreorder();
    EndpointsAreKeys(a.endpoints);
    SortIgnoresOrder(a.endpoints, b.endpoints, EndpointLe);
  }

  lemma {:induction false} AddLinksIgnoresEndpointOrder(pol: Policy, d: Draft, a: seq<LinkReq>, b: seq<LinkReq>)
    requires Pointwise(a, b, SameLink)
    ensures AddLinks(pol, d, a) == AddLinks(pol, d, b)
    decreases |a|
  {
    if a != [] {
      AddLinkIgnoresEndpointOrder(pol, d, a[0], b[0]);
      if AddLink(pol, d, a[0]).Ok? {
        AddLinksIgnoresEndpointOrder(pol, AddLink(pol, d, a[0]).value, a[1..], b[1..]);
      }
    }
  }

  // ----- Permuted requirements and ledgers -----

  /**
   `b` lists the same design as `a` in another order: devices and peers are
   permuted; `links` and `vns` are `a`'s links and virtual networks permuted, and
   `b`'s have, besides, their endpoints and sites permuted.  Keys are distinct.
   */
  ghost predicate Reordered(a: Requirements, b: Requirements, links: seq<LinkReq>, vns: seq<VnReq>) {
    && a.domain == b.domain && a.fabric == b.fabric && a.needsAsn == b.needsAsn
    && multiset(a.devices) == multiset(b.devices) && DistinctKeys(a.devices, DeviceLe)
    && multiset(a.links) == multiset(links) && DistinctKeys(a.links, LinkLe) && Pointwise(links, b.links, SameLink)
    && multiset(a.vns) == multiset(vns) && DistinctKeys(a.vns, VnLe) && Pointwise(vns, b.vns, SameVn)
    && match (a.handoff, b.handoff)
       case (Some(p), Some(q)) => multiset(p) == multiset(q) && DistinctKeys(p, PeerLe)
       case (None, None) => true
       case _ => false
  }

  lemma SortLinks(a: seq<LinkReq>, mid: seq<LinkReq>, b: seq<LinkReq>)
    requires multiset(a) == multiset(mid) && DistinctKeys(a, LinkLe) && Pointwise(mid, b, SameLink)
    ensures Pointwise(Sort(a, LinkLe), Sort(b, LinkLe), SameLink)
  {
    DeviceLePreorder();
    SortIgnoresOrder(a, mid, LinkLe);
    SortPointwise(mid, b, LinkLe, SameLink);
  }

  lemma SortVns(a: seq<VnReq>, mid: seq<VnReq>, b: seq<VnReq>)
    requires multiset(a) == multiset(mid) && DistinctKeys(a, VnLe) && Pointwise(mid, b, SameVn)
    ensures Pointwise(Sort(a, VnLe), Sort(b, VnLe), SameVn)
  {
    DeviceLePreorder();
    SortIgnoresOrder(a, mid, VnLe);
    SortPointwise(mid, b, VnLe, SameVn);
  }

  lemma FillIgnoresOrder(a: Requirements, b: Requirements, links: seq<LinkReq>, vns: seq<VnReq>, pol: Policy, d: Draft)
    requires Reordered(a, b, links, vns)
    ensures Fill(a, pol, d) == Fill(b, pol, d)
  {
    DeviceLePreorder();
    SortIgnoresOrder(a.devices, b.devices, DeviceLe);
    SortLinks(a.links, links, b.links);
    SortVns(a.vns, vns, b.vns);
    if a.handoff.Some? {
      PeerLePreorder();
      SortIgnoresOrder(a.handoff.value, b.handoff.value, PeerLe);
    }
    if AddDevices(pol, d, Sort(a.devices, DeviceLe)).Ok? {
      var d1 := AddDevices(pol, d, Sort(a.devices, DeviceLe)).value;
      AddLinksIgnoresEndpointOrder(pol, d1, Sort(a.links, LinkLe), Sort(b.links, LinkLe));
      if AddLinks(pol, d1, Sort(a.links, LinkLe)).Ok? {
        var d2 := AddLinks(pol, d1, Sort(a.links, LinkLe)).value;
        if AddAsn(pol, d2, a.needsAsn).Ok? {
          AddVnsIgnoresSiteOrder(pol, AddAsn(pol, d2, a.needsAsn).value, Sort(a.vns, VnLe), Sort(b.vns, VnLe));
        }
      }
    }
  }

  /** The same active space: all that a derivation sees of a ledger. */
  ghost predicate SameActive(domain: Id, nets: seq<NetRow>, nets': seq<NetRow>, scalars: seq<ScalarRow>, scalars': seq<ScalarRow>) {
    && (forall p :: ActiveNetworks(nets, domain, p) == ActiveNetworks(nets', domain, p))
    && (forall k :: ActiveScalars(scalars, domain, k) == ActiveScalars(scalars', domain, k))
  }

  /**
   Listing the requirements in another order changes neither the intent nor the
   reservations (nor the outcome, when there is none), and of the ledgers only
   their active space matters: not their order, not released rows.
   */
  lemma DeriveIgnoresOrder(a: Requirements, b: Requirements, links: seq<LinkReq>, vns: seq<VnReq>, pol: Policy,
                           nets: seq<NetRow>, nets': seq<NetRow>, scalars: seq<ScalarRow>, scalars': seq<ScalarRow>)
    requires Reordered(a, b, links, vns)
    requires SameActive(a.domain, nets, nets', scalars, scalars')
    ensures Derive(a, pol, nets, scalars) == Derive(b, pol, nets', scalars')
  {
    var opening := Opening(pol, a.domain, nets, scalars);
    assert opening == Opening(pol, b.domain, nets', scalars');
    assert |multiset(a.devices)| == |a.devices| && |multiset(b.devices)| == |b.devices|;
    FillIgnoresOrder(a, b, links, vns, pol, Blank(opening));
  }

  /** Permuting the ledger rows keeps the active space. */
  lemma PermutedLedgersAgree(domain: Id, nets: seq<NetRow>, nets': seq<NetRow>, scalars: seq<ScalarRow>, scalars': seq<ScalarRow>)
    requires multiset(nets) == multiset(nets') && multiset(scalars) == multiset(scalars')
    ensures SameActive(domain, nets, nets', scalars, scalars')
  {
    assert forall r :: r in nets <==> r in multiset(nets);
    assert forall r :: r in nets' <==> r in multiset(nets');
    assert forall r :: r in scalars <==> r in multiset(scalars);
    assert forall r :: r in scalars' <==> r in multiset(scalars');
  }
}
