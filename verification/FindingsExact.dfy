/** What each finding of `validate_intent` says of the document, written out on its items. */
module FindingsExact {
  import opened Basics
  import opened Addressing
  import opened Allocator
  import opened AllocatorProofs
  import opened IntentValidation

  // ----- Reading a text -----

  ghost predicate Blank(s: string) { forall c :: c in s ==> IsSpace(c) }

  ghost predicate Bare(t: string) { t != "" && !IsSpace(t[0]) && !IsSpace(t[|t| - 1]) }

  ghost predicate Around(s: string, before: string, t: string, after: string) {
    s == before + t + after && Blank(before) && Blank(after)
  }

  /** The text is `t` between blanks, on one line. */
  ghost predicate Reads(s: string, t: string) {
    '\r' !in s && '\n' !in s && Bare(t) && exists before, after :: Around(s, before, t, after)
  }

  lemma {:induction false} TrimStartExact(s: string) returns (before: string)
    ensures s == before + TrimStart(s) && Blank(before)
    ensures TrimStart(s) != "" ==> !IsSpace(TrimStart(s)[0])
    decreases |s|
  {
    before := "";
    if s != "" && IsSpace(s[0]) {
      var rest := TrimStartExact(s[1..]);
      before := [s[0]] + rest;
    }
  }

  lemma {:induction false} TrimEndExact(s: string) returns (after: string)
    ensures s == TrimEnd(s) + after && Blank(after) && TrimEnd(s) <= s
    ensures TrimEnd(s) != "" ==> !IsSpace(TrimEnd(s)[|TrimEnd(s)| - 1])
    decreases |s|
  {
    after := "";
    if s != "" && IsSpace(s[|s| - 1]) {
      var rest := TrimEndExact(s[..|s| - 1]);
      after := rest + [s[|s| - 1]];
    }
  }

  lemma {:induction false} TrimStartOf(before: string, t: string)
    requires Blank(before) && (t != "" ==> !IsSpace(t[0]))
    ensures TrimStart(before + t) == t
    decreases |before|
  {
    if before == "" {
      assert before + t == t;
    } else {
      TrimStartOf(before[1..], t);
      assert (before + t)[1..] == before[1..] + t;
    }
  }

  lemma {:induction false} TrimEndOf(t: string, after: string)
    requires Blank(after) && (t != "" ==> !IsSpace(t[|t| - 1]))
    ensures TrimEnd(t + after) == t
    decreases |after|
  {
    if after == "" {
      assert t + after == t;
    } else {
      TrimEndOf(t, after[..|after| - 1]);
      assert (t + after)[..|t + after| - 1] == t + after[..|after| - 1];
    }
  }

  lemma ReadsExact(s: string, t: string)
    ensures ReadString(s) == Some(t) <==> Reads(s, t)
  {
    if ReadString(s) == Some(t) {
      var before := TrimStartExact(s);
      var after := TrimEndExact(TrimStart(s));
      assert Around(s, before, t, after);
    } else if Reads(s, t) {
      var before, after :| Around(s, before, t, after);
      assert before + t + after == before + (t + after);
      TrimStartOf(before, t + after);
      TrimEndOf(t, after);
    }
  }

  /** Both read as one text. */
  ghost predicate SameText(a: string, b: string) { exists t :: Reads(a, t) && Reads(b, t) }

  lemma SameTextExact(a: string, b: string)
    ensures SameText(a, b) <==> ReadString(b).Some? && ReadString(a) == ReadString(b)
  {
    forall t ensures ReadString(a) == Some(t) <==> Reads(a, t) { ReadsExact(a, t); }
    forall t ensures ReadString(b) == Some(t) <==> Reads(b, t) { ReadsExact(b, t); }
    if ReadString(b).Some? && ReadString(a) == ReadString(b) { assert Reads(a, ReadString(b).value); }
  }

  ghost predicate VlanId(v: int) { 1 <= v <= 4094 }
  ghost predicate InstanceId(v: int) { 1 <= v <= 16777215 }

  /** The block holds the address. */
  ghost predicate Holds(p: Prefix, address: nat) { p.addr <= address && address < p.addr + Pow2(32 - p.len) }

  /** An earlier text is the same. */
  ghost predicate TextBefore(texts: seq<string>, i: nat)
    requires i < |texts|
  {
    exists j :: 0 <= j < i && SameText(texts[j], texts[i])
  }

  lemma TextBeforeExact(texts: seq<string>, values: seq<Option<string>>, i: nat)
    requires |values| == |texts| && i < |texts| && forall k :: 0 <= k < |texts| ==> values[k] == ReadString(texts[k])
    ensures Repeats(values, i) <==> TextBefore(texts, i)
  {
    forall j | 0 <= j < i ensures SameText(texts[j], texts[i]) <==> values[i].Some? && values[..i][j] == values[i] {
      SameTextExact(texts[j], texts[i]);
    }
  }

  lemma RepeatsExact<K>(values: seq<Option<K>>, i: nat)
    requires i < |values|
    ensures Repeats(values, i) <==> values[i].Some? && exists j :: 0 <= j < i && values[j] == values[i]
  {
    assert forall j :: 0 <= j < i ==> values[..i][j] == values[j];
  }

  // ----- Devices and virtual networks -----

  function DeviceTexts(s: seq<Device>): seq<string> { seq(|s|, i requires 0 <= i < |s| => s[i].id) }
  function NameTexts(s: seq<Vn>): seq<string> { seq(|s|, i requires 0 <= i < |s| => s[i].name) }
  function VrfTexts(s: seq<Vn>): seq<string> { seq(|s|, i requires 0 <= i < |s| => s[i].vrf) }
  function RdTexts(s: seq<Vn>): seq<string> { seq(|s|, i requires 0 <= i < |s| => s[i].rd) }

  ghost predicate DeviceShows(s: seq<Device>, i: nat, f: Finding)
    requires i < |s|
  {
    match f
    case DuplicateDeviceId => TextBefore(DeviceTexts(s), i)
    case DuplicateLoopback => exists j :: 0 <= j < i && s[j].loopback.addr == s[i].loopback.addr
    case _ => false
  }

  lemma DeviceShowsExact(s: seq<Device>, i: nat, f: Finding)
    requires i < |s|
    ensures DeviceFault(s, i, f) <==> DeviceShows(s, i, f)
  {
    TextBeforeExact(DeviceTexts(s), DeviceIdList(s), i);
    RepeatsExact(LoopbackIps(s), i);
    assert forall j :: 0 <= j < i ==> (LoopbackIps(s)[j] == LoopbackIps(s)[i] <==> s[j].loopback.addr == s[i].loopback.addr);
  }

  ghost predicate VnShows(s: seq<Vn>, i: nat, f: Finding)
    requires i < |s|
  {
    match f
    case DuplicateVnName => TextBefore(NameTexts(s), i)
    case DuplicateVrf => TextBefore(VrfTexts(s), i)
    case DuplicateRd => TextBefore(RdTexts(s), i)
    case DuplicateL3 => InstanceId(s[i].l3) && exists j :: 0 <= j < i && s[j].l3 == s[i].l3
    case L3Range => !InstanceId(s[i].l3)
    case _ => false
  }

  lemma VnShowsExact(s: seq<Vn>, i: nat, f: Finding)
    requires i < |s|
    ensures VnFault(s, i, f) <==> VnShows(s, i, f)
  {
    hide TextBefore, Repeats;
    match f
    case DuplicateVnName => TextBeforeExact(NameTexts(s), VnNames(s), i);
    case DuplicateVrf => TextBeforeExact(VrfTexts(s), Vrfs(s), i);
    case DuplicateRd => TextBeforeExact(RdTexts(s), Rds(s), i);
    case DuplicateL3 => L3sRepeat(s, i);
    case _ =>
  }

  lemma L3sRepeat(s: seq<Vn>, i: nat)
    requires i < |s|
    ensures Repeats(L3s(s), i) <==> InstanceId(s[i].l3) && exists j :: 0 <= j < i && s[j].l3 == s[i].l3
  {
    RepeatsExact(L3s(s), i);
    assert InstanceId(s[i].l3) ==> forall j :: 0 <= j < i ==> (L3s(s)[j] == L3s(s)[i] <==> s[j].l3 == s[i].l3);
  }

  // ----- Links -----

  function LinkTexts(s: seq<Link>): seq<string> { seq(|s|, i requires 0 <= i < |s| => s[i].id) }

  /** A device of the document has that id. */
  ghost predicate IsDevice(devices: seq<Device>, t: string) { exists i :: 0 <= i < |devices| && Reads(devices[i].id, t) }

  lemma KnownDevicesExact(devices: seq<Device>, t: string)
    ensures t in KnownDevices(devices) <==> IsDevice(devices, t)
  {
    forall i | 0 <= i < |devices| ensures DeviceIdList(devices)[i] == Some(t) <==> Reads(devices[i].id, t) { ReadsExact(devices[i].id, t); }
    if t in KnownDevices(devices) {
      var i :| 0 <= i < |DeviceIdList(devices)| && DeviceIdList(devices)[i] == Some(t);
    } else if i :| 0 <= i < |devices| && Reads(devices[i].id, t) {
      assert DeviceIdList(devices)[i] in DeviceIdList(devices);
    }
  }

  /** Exactly these two ends name a device, and the same one. */
  ghost predicate Loop(ends: seq<LinkEnd>, i: nat, j: nat, t: string) {
    && j < i < |ends| && Reads(ends[i].device, t) && Reads(ends[j].device, t)
    && forall k, u :: 0 <= k < |ends| && Reads(ends[k].device, u) ==> k == i || k == j
  }

  ghost predicate LinkShows(s: seq<Link>, devices: seq<Device>, i: nat, f: Finding)
    requires i < |s|
  {
    var l := s[i];
    match f
    case DuplicateLinkId => TextBefore(LinkTexts(s), i)
    case LinkPrefixLength => l.subnet.len < 30 || l.subnet.len > 31
    case LinkEndpointCount => |l.ends| != 2
    case LinkUnknownDevice => exists k, t :: 0 <= k < |l.ends| && Reads(l.ends[k].device, t) && !IsDevice(devices, t)
    case LinkDuplicateIp => exists j, k :: 0 <= j < k < |l.ends| && l.ends[j].ip == l.ends[k].ip
    case LinkOutsideSubnet => exists k :: 0 <= k < |l.ends| && !Holds(l.subnet, l.ends[k].ip)
    case LinkSelf => exists j: nat, k: nat, t :: Loop(l.ends, k, j, t)
    case _ => false
  }

  /** Where the readable device ids of the ends stand. */
  ghost predicate Places(ends: seq<LinkEnd>, at: seq<nat>, known: seq<Id>) {
    && |at| == |known| && (forall m, n :: 0 <= m < n < |at| ==> at[m] < at[n])
    && (forall m :: 0 <= m < |at| ==> at[m] < |ends| && ReadString(ends[at[m]].device) == Some(known[m]))
    && forall k :: 0 <= k < |ends| && ReadString(ends[k].device).Some? ==> k in at
  }

  lemma {:induction false} EndDevicesExact(ends: seq<LinkEnd>) returns (at: seq<nat>)
    ensures Places(ends, at, EndDevices(ends))
    decreases |ends|
  {
    at := [];
    if ends != [] {
      var last := |ends| - 1;
      at := EndDevicesExact(ends[..last]);
      assert forall k :: 0 <= k < last ==> ends[..last][k] == ends[k];
      if ReadString(ends[last].device).Some? { at := at + [last]; }
      forall k | 0 <= k < |ends| && ReadString(ends[k].device).Some? ensures k in at {
        if k < last { assert ReadString(ends[..last][k].device).Some?; }
      }
    }
  }

  lemma LoopExact(ends: seq<LinkEnd>)
    ensures (|EndDevices(ends)| == 2 && EndDevices(ends)[0] == EndDevices(ends)[1]) <==> exists j: nat, k: nat, t :: Loop(ends, k, j, t)
  {
    var known := EndDevices(ends);
    var at := EndDevicesExact(ends);
    if |known| == 2 && known[0] == known[1] {
      ReadsExact(ends[at[0]].device, known[0]);
      ReadsExact(ends[at[1]].device, known[0]);
      forall k, u | 0 <= k < |ends| && Reads(ends[k].device, u) ensures k == at[0] || k == at[1] {
        ReadsExact(ends[k].device, u);
        assert k in at;
      }
      assert Loop(ends, at[1], at[0], known[0]);
    } else if j: nat, k: nat, t :| Loop(ends, k, j, t) {
      forall m | 0 <= m < |ends| && ReadString(ends[m].device).Some? ensures m == j || m == k {
        ReadsExact(ends[m].device, ReadString(ends[m].device).value);
      }
      ReadsExact(ends[j].device, t);
      ReadsExact(ends[k].device, t);
      TwoPlaces(ends, at, known, j, k, t);
    }
  }

  predicate Either(x: int, m: int, n: int) { x == m || x == n }

  lemma TwoPlaces(ends: seq<LinkEnd>, at: seq<nat>, known: seq<Id>, j: nat, k: nat, t: string)
    requires Places(ends, at, known) && j < k < |ends|
    requires ReadString(ends[j].device) == Some(t) && ReadString(ends[k].device) == Some(t)
    requires forall m :: 0 <= m < |ends| && ReadString(ends[m].device).Some? ==> m == j || m == k
    ensures |known| == 2 && known[0] == known[1]
  {
    var m :| 0 <= m < |at| && at[m] == j;
    var n :| 0 <= n < |at| && at[n] == k;
    forall x | 0 <= x < |at| ensures Either(x, m, n) {
      assert at[x] == j || at[x] == k;
    }
    assert Either(0, m, n) && (|at| > 2 ==> Either(1, m, n) && Either(2, m, n));
  }

  lemma UnknownEndExact(ends: seq<LinkEnd>, devices: seq<Device>)
    ensures (exists x :: x in EndDevices(ends) && x !in KnownDevices(devices)) <==>
              exists k, t :: 0 <= k < |ends| && Reads(ends[k].device, t) && !IsDevice(devices, t)
  {
    var known := EndDevices(ends);
    var at := EndDevicesExact(ends);
    if x :| x in known && x !in KnownDevices(devices) {
      var m :| 0 <= m < |known| && known[m] == x;
      ReadsExact(ends[at[m]].device, x);
      KnownDevicesExact(devices, x);
    } else if k, t :| 0 <= k < |ends| && Reads(ends[k].device, t) && !IsDevice(devices, t) {
      ReadsExact(ends[k].device, t);
      KnownDevicesExact(devices, t);
    }
  }

  lemma LinkShowsExact(s: seq<Link>, devices: seq<Device>, i: nat, f: Finding)
    requires i < |s|
    ensures LinkFault(s, KnownDevices(devices), i, f) <==> LinkShows(s, devices, i, f)
  {
    hide TextBefore, Repeats, EndDevices, KnownDevices, Loop, IsDevice, Reads;
    match f
    case DuplicateLinkId => TextBeforeExact(LinkTexts(s), LinkIds(s), i);
    case LinkUnknownDevice => UnknownEndExact(s[i].ends, devices);
    case LinkDuplicateIp => RepeatedEnds(s[i].ends);
    case LinkOutsideSubnet => OutsideEnds(s[i]);
    case LinkSelf => LoopExact(s[i].ends);
    case _ =>
  }

  lemma RepeatedEnds(ends: seq<LinkEnd>)
    ensures (exists k :: 0 <= k < |ends| && Repeats(EndIps(ends), k)) <==> exists j, k :: 0 <= j < k < |ends| && ends[j].ip == ends[k].ip
  {
    forall k | 0 <= k < |ends| ensures Repeats(EndIps(ends), k) <==> exists j :: 0 <= j < k && ends[j].ip == ends[k].ip {
      RepeatsExact(EndIps(ends), k);
      assert forall j :: 0 <= j < k ==> (EndIps(ends)[j] == EndIps(ends)[k] <==> ends[j].ip == ends[k].ip);
    }
    if j, k :| 0 <= j < k < |ends| && ends[j].ip == ends[k].ip {
      assert Repeats(EndIps(ends), k);
    }
  }

  lemma OutsideEnds(l: Link)
    ensures (exists e :: e in l.ends && !Contains(l.subnet, e.ip)) <==> exists k :: 0 <= k < |l.ends| && !Holds(l.subnet, l.ends[k].ip)
  {
    if k :| 0 <= k < |l.ends| && !Holds(l.subnet, l.ends[k].ip) {
      assert l.ends[k] in l.ends;
    }
  }

  // ----- Pools -----

  function PoolTexts(s: seq<EndpointPool>): seq<string> { seq(|s|, i requires 0 <= i < |s| => s[i].id) }

  ghost predicate PoolShows(s: seq<EndpointPool>, i: nat, f: Finding)
    requires i < |s|
  {
    var p := s[i];
    match f
    case DuplicatePoolId => TextBefore(PoolTexts(s), i)
    case VlanRange => !VlanId(p.vlan)
    case VlanReserved => 1002 <= p.vlan <= 1005
    case DuplicateSiteVlan => VlanId(p.vlan) && exists j :: 0 <= j < i && SameText(s[j].site, p.site) && s[j].vlan == p.vlan
    case L2Range => !InstanceId(p.l2)
    case DuplicateL2 => InstanceId(p.l2) && exists j :: 0 <= j < i && s[j].l2 == p.l2
    case GatewayOutside => !Holds(p.prefix, p.gateway)
    case _ => false
  }

  lemma PoolShowsExact(s: seq<EndpointPool>, i: nat, f: Finding)
    requires i < |s|
    ensures PoolFault(s, i, f) <==> PoolShows(s, i, f)
  {
    hide TextBefore, SameText, Repeats;
    match f
    case DuplicatePoolId => TextBeforeExact(PoolTexts(s), PoolIds(s), i);
    case DuplicateL2 => L2sRepeat(s, i);
    case DuplicateSiteVlan => SiteVlansRepeat(s, i);
    case VlanReserved => assert s[i].vlan in LEGACY_VLANS <==> 1002 <= s[i].vlan <= 1005;
    case _ =>
  }

  lemma L2sRepeat(s: seq<EndpointPool>, i: nat)
    requires i < |s|
    ensures Repeats(L2s(s), i) <==> InstanceId(s[i].l2) && exists j :: 0 <= j < i && s[j].l2 == s[i].l2
  {
    RepeatsExact(L2s(s), i);
    assert InstanceId(s[i].l2) ==> forall j :: 0 <= j < i ==> (L2s(s)[j] == L2s(s)[i] <==> s[j].l2 == s[i].l2);
  }

  lemma SiteVlansRepeat(s: seq<EndpointPool>, i: nat)
    requires i < |s|
    ensures Repeats(SiteVlans(s), i) <==> VlanId(s[i].vlan) && exists j :: 0 <= j < i && SameText(s[j].site, s[i].site) && s[j].vlan == s[i].vlan
  {
    RepeatsExact(SiteVlans(s), i);
    forall j | 0 <= j < i
      ensures VlanId(s[i].vlan) && ReadString(s[i].site).Some? ==>
                (SiteVlans(s)[j] == SiteVlans(s)[i] <==> SameText(s[j].site, s[i].site) && s[j].vlan == s[i].vlan)
      ensures SameText(s[j].site, s[i].site) ==> ReadString(s[i].site).Some?
    {
      SameTextExact(s[j].site, s[i].site);
    }
  }

  // ----- Peers -----

  /** The last device of that id is no border. */
  ghost predicate NoBorder(devices: seq<Device>, t: string) {
    exists i :: 0 <= i < |devices| && LastNamed(devices, t, i) && !devices[i].border
  }

  ghost predicate LastNamed(devices: seq<Device>, t: string, i: nat) {
    i < |devices| && Reads(devices[i].id, t) && forall j :: i < j < |devices| ==> !Reads(devices[j].id, t)
  }

  ghost predicate IsVrf(vns: seq<Vn>, t: string) { exists i :: 0 <= i < |vns| && Reads(vns[i].vrf, t) }

  /** The first or the last address of a block of more than two. */
  ghost predicate AtTheEdge(p: Prefix, address: nat) {
    p.len <= 30 && (address == p.addr || address + 1 == p.addr + Pow2(32 - p.len))
  }

  ghost predicate PeerShows(s: seq<Peer>, devices: seq<Device>, vns: seq<Vn>, i: nat, f: Finding)
    requires i < |s|
  {
    var p := s[i];
    match f
    case UnknownPeerDevice => exists t :: Reads(p.device, t) && !IsDevice(devices, t)
    case PeerNotBorder => exists t :: Reads(p.device, t) && NoBorder(devices, t)
    case UnknownPeerVrf => exists t :: Reads(p.vrf, t) && !IsVrf(vns, t)
    case PeerVlanRange => !VlanId(p.vlan)
    case HandoffPrefixLength => p.prefix.len < 30 || p.prefix.len > 31
    case LocalOutside => !Holds(p.prefix, p.localIp)
    case NeighborOutside => !Holds(p.prefix, p.neighborIp)
    case LocalNotUsable => AtTheEdge(p.prefix, p.localIp)
    case NeighborNotUsable => AtTheEdge(p.prefix, p.neighborIp)
    case SameAddress => p.localIp == p.neighborIp
    case DuplicatePeer =>
      exists j :: 0 <= j < i && SameText(s[j].device, p.device) && SameText(s[j].vrf, p.vrf) && s[j].neighborIp == p.neighborIp
    case DuplicateDeviceVlan => VlanId(p.vlan) && exists j :: 0 <= j < i && SameText(s[j].device, p.device) && s[j].vlan == p.vlan
    case _ => false
  }

  /** The last of that id is the last device, or that of the others. */
  lemma LastNamedNext(devices: seq<Device>, t: string, last: nat, i: nat)
    requires |devices| == last + 1
    ensures LastNamed(devices, t, i) <==>
              if Reads(devices[last].id, t) then i == last else i < last && LastNamed(devices[..last], t, i)
  {
    hide Reads;
    assert forall k :: 0 <= k < last ==> devices[..last][k] == devices[k];
  }

  lemma {:induction false} BordersExact(devices: seq<Device>, t: string)
    ensures t in Borders(devices) <==> exists i: nat :: LastNamed(devices, t, i) && devices[i].border
    decreases |devices|
  {
    if devices != [] {
      var last := |devices| - 1;
      BordersExact(devices[..last], t);
      ReadsExact(devices[last].id, t);
      forall i: nat ensures LastNamed(devices, t, i) <==>
                              if Reads(devices[last].id, t) then i == last else i < last && LastNamed(devices[..last], t, i) {
        LastNamedNext(devices, t, last, i);
      }
      hide Reads, LastNamed;
      if Reads(devices[last].id, t) { assert LastNamed(devices, t, last); }
    }
  }

  lemma {:induction false} LastIsThere(devices: seq<Device>, t: string)
    ensures IsDevice(devices, t) <==> exists i: nat :: LastNamed(devices, t, i)
    decreases |devices|
  {
    if devices != [] {
      var last := |devices| - 1;
      var init := devices[..last];
      LastIsThere(init, t);
      LastNamedNext(devices, t, last, last);
      if Reads(devices[last].id, t) {
        assert LastNamed(devices, t, last);
      } else {
        forall i: nat ensures LastNamed(devices, t, i) <==> i < last && LastNamed(init, t, i) { LastNamedNext(devices, t, last, i); }
        if i :| 0 <= i < |devices| && Reads(devices[i].id, t) { assert Reads(init[i].id, t); }
      }
    }
  }

  lemma NoBorderExact(devices: seq<Device>, t: string)
    ensures NoBorder(devices, t) <==> t in KnownDevices(devices) && t !in Borders(devices)
  {
    BordersExact(devices, t);
    LastIsThere(devices, t);
    KnownDevicesExact(devices, t);
  }

  lemma IsVrfExact(vns: seq<Vn>, t: string)
    ensures t in KnownVrfs(vns) <==> IsVrf(vns, t)
  {
    forall i | 0 <= i < |vns| ensures Vrfs(vns)[i] == Some(t) <==> Reads(vns[i].vrf, t) { ReadsExact(vns[i].vrf, t); }
    if t in KnownVrfs(vns) {
      var i :| 0 <= i < |Vrfs(vns)| && Vrfs(vns)[i] == Some(t);
    } else if i :| 0 <= i < |vns| && Reads(vns[i].vrf, t) {
      assert Vrfs(vns)[i] in Vrfs(vns);
    }
  }

  lemma PeerDeviceExact(p: Peer, devices: seq<Device>, vns: seq<Vn>, f: Finding)
    requires f == UnknownPeerDevice || f == PeerNotBorder
    ensures PeerReferenceFault(p, KnownDevices(devices), Borders(devices), KnownVrfs(vns), f) <==>
              exists t :: Reads(p.device, t) && if f == UnknownPeerDevice then !IsDevice(devices, t) else NoBorder(devices, t)
  {
    hide Reads, ReadString, IsDevice, NoBorder, KnownDevices, Borders, KnownVrfs;
    forall t ensures Reads(p.device, t) <==> ReadString(p.device) == Some(t) { ReadsExact(p.device, t); }
    if ReadString(p.device).Some? {
      var t := ReadString(p.device).value;
      KnownDevicesExact(devices, t);
      NoBorderExact(devices, t);
      assert Reads(p.device, t);
    }
  }

  lemma PeerVrfExact(p: Peer, devices: seq<Device>, vns: seq<Vn>)
    ensures PeerReferenceFault(p, KnownDevices(devices), Borders(devices), KnownVrfs(vns), UnknownPeerVrf) <==>
              exists t :: Reads(p.vrf, t) && !IsVrf(vns, t)
  {
    hide Reads, ReadString, IsVrf, KnownDevices, Borders, KnownVrfs;
    forall t ensures Reads(p.vrf, t) <==> ReadString(p.vrf) == Some(t) { ReadsExact(p.vrf, t); }
    if ReadString(p.vrf).Some? {
      IsVrfExact(vns, ReadString(p.vrf).value);
      assert Reads(p.vrf, ReadString(p.vrf).value);
    }
  }

  lemma PeersRepeat(s: seq<Peer>, i: nat)
    requires i < |s|
    ensures Repeats(PeerKeys(s), i) <==>
              exists j :: 0 <= j < i && SameText(s[j].device, s[i].device) && SameText(s[j].vrf, s[i].vrf) && s[j].neighborIp == s[i].neighborIp
    ensures Repeats(DeviceVlans(s), i) <==> VlanId(s[i].vlan) && exists j :: 0 <= j < i && SameText(s[j].device, s[i].device) && s[j].vlan == s[i].vlan
  {
    RepeatsExact(PeerKeys(s), i);
    RepeatsExact(DeviceVlans(s), i);
    forall j | 0 <= j < i
      ensures PeerKeys(s)[i].Some? && PeerKeys(s)[j] == PeerKeys(s)[i] <==>
                SameText(s[j].device, s[i].device) && SameText(s[j].vrf, s[i].vrf) && s[j].neighborIp == s[i].neighborIp
      ensures DeviceVlans(s)[i].Some? && DeviceVlans(s)[j] == DeviceVlans(s)[i] <==>
                VlanId(s[i].vlan) && SameText(s[j].device, s[i].device) && s[j].vlan == s[i].vlan
    {
      SameTextExact(s[j].device, s[i].device);
      SameTextExact(s[j].vrf, s[i].vrf);
    }
  }

  lemma PeerShowsExact(s: seq<Peer>, devices: seq<Device>, vns: seq<Vn>, i: nat, f: Finding)
    requires i < |s|
    ensures PeerFault(s, KnownDevices(devices), Borders(devices), KnownVrfs(vns), i, f) <==> PeerShows(s, devices, vns, i, f)
  {
    hide Reads, SameText, IsDevice, NoBorder, IsVrf, Repeats, Borders, KnownDevices, KnownVrfs, ReadString, PeerKeys, DeviceVlans;
    match f
    case UnknownPeerDevice => PeerDeviceExact(s[i], devices, vns, f);
    case PeerNotBorder => PeerDeviceExact(s[i], devices, vns, f);
    case UnknownPeerVrf => PeerVrfExact(s[i], devices, vns);
    case DuplicatePeer => PeersRepeat(s, i);
    case DuplicateDeviceVlan => PeersRepeat(s, i);
    case _ =>
  }

  // ----- Overlaps -----

  /** An item of the document that occupies addresses: a loopback, a link, a pool or a handoff. */
  datatype Place = Loopback(i: nat) | Subnet(i: nat) | Pool(i: nat) | Handoff(i: nat)

  ghost predicate Occupies(doc: IntentDoc, p: Place, address: nat) {
    match p
    case Loopback(i) => i < |doc.devices| && address == doc.devices[i].loopback.addr
    case Subnet(i) => i < |doc.links| && Holds(doc.links[i].subnet, address)
    case Pool(i) => i < |doc.pools| && Holds(doc.pools[i].prefix, address)
    case Handoff(i) => i < |doc.peers| && Holds(doc.peers[i].prefix, address)
  }

  /** Two different items occupy one address. */
  ghost predicate AddressesMeet(doc: IntentDoc) {
    exists p, q, address: nat :: p != q && Occupies(doc, p, address) && Occupies(doc, q, address)
  }

  /** Where the item stands in the list of all networks. */
  function IndexOf(doc: IntentDoc, p: Place): nat {
    match p
    case Loopback(i) => i
    case Subnet(i) => |doc.devices| + i
    case Pool(i) => |doc.devices| + |doc.links| + i
    case Handoff(i) => |doc.devices| + |doc.links| + |doc.pools| + i
  }

  function PlaceAt(doc: IntentDoc, k: nat): Place {
    if k < |doc.devices| then Loopback(k)
    else if k < |doc.devices| + |doc.links| then Subnet(k - |doc.devices|)
    else if k < |doc.devices| + |doc.links| + |doc.pools| then Pool(k - |doc.devices| - |doc.links|)
    else Handoff(k - |doc.devices| - |doc.links| - |doc.pools|)
  }

  lemma NetworkAt(doc: IntentDoc, k: nat, address: nat)
    requires k < |AddressNetworks(doc)|
    ensures Contains(AddressNetworks(doc)[k], address) <==> Occupies(doc, PlaceAt(doc, k), address)
  {
    assert Size(32) == 1;
  }

  lemma PlaceIsListed(doc: IntentDoc, p: Place, address: nat)
    requires Occupies(doc, p, address)
    ensures IndexOf(doc, p) < |AddressNetworks(doc)| && PlaceAt(doc, IndexOf(doc, p)) == p
  {
  }

  lemma OverlapExact(doc: IntentDoc)
    ensures AddressesMeet(doc) <==> exists i: nat :: i < |AddressNetworks(doc)| && OverlapFault(AddressNetworks(doc), i, AddressOverlap)
  {
    var all := AddressNetworks(doc);
    if AddressesMeet(doc) {
      var p, q, address: nat :| p != q && Occupies(doc, p, address) && Occupies(doc, q, address);
      PlaceIsListed(doc, p, address);
      PlaceIsListed(doc, q, address);
      var i, j := IndexOf(doc, p), IndexOf(doc, q);
      NetworkAt(doc, i, address);
      NetworkAt(doc, j, address);
      BlocksAreAddressSets(all[i], all[j]);
      BlocksAreAddressSets(all[j], all[i]);
      assert OverlapFault(all, if i < j then j else i, AddressOverlap);
    }
    if i: nat :| i < |all| && OverlapFault(all, i, AddressOverlap) {
      var j :| 0 <= j < i && Overlaps(all[j], all[i]);
      BlocksAreAddressSets(all[j], all[i]);
      var address: nat :| Contains(all[j], address) && Contains(all[i], address);
      NetworkAt(doc, i, address);
      NetworkAt(doc, j, address);
      assert PlaceAt(doc, i) != PlaceAt(doc, j);
    }
  }

  // ----- The whole document -----

  /** Some item of the document shows the finding. */
  ghost predicate Shows(doc: IntentDoc, f: Finding) {
    || (exists i: nat :: i < |doc.devices| && DeviceShows(doc.devices, i, f))
    || (exists i: nat :: i < |doc.links| && LinkShows(doc.links, doc.devices, i, f))
    || (exists i: nat :: i < |doc.vns| && VnShows(doc.vns, i, f))
    || (exists i: nat :: i < |doc.pools| && PoolShows(doc.pools, i, f))
    || (exists i: nat :: i < |doc.peers| && PeerShows(doc.peers, doc.devices, doc.vns, i, f))
    || (f == AddressOverlap && AddressesMeet(doc))
  }

  lemma DevicesRaise(doc: IntentDoc, f: Finding)
    ensures (exists i: nat :: i < |doc.devices| && DeviceFault(doc.devices, i, f)) <==> exists i: nat :: i < |doc.devices| && DeviceShows(doc.devices, i, f)
  {
    forall i: nat | i < |doc.devices| ensures DeviceFault(doc.devices, i, f) <==> DeviceShows(doc.devices, i, f) { DeviceShowsExact(doc.devices, i, f); }
    hide DeviceFault, DeviceShows;
  }

  lemma LinksRaise(doc: IntentDoc, f: Finding)
    ensures (exists i: nat :: i < |doc.links| && LinkFault(doc.links, KnownDevices(doc.devices), i, f)) <==>
              exists i: nat :: i < |doc.links| && LinkShows(doc.links, doc.devices, i, f)
  {
    hide LinkFault, LinkShows, KnownDevices;
    forall i: nat | i < |doc.links| ensures LinkFault(doc.links, KnownDevices(doc.devices), i, f) <==> LinkShows(doc.links, doc.devices, i, f) {
      LinkShowsExact(doc.links, doc.devices, i, f);
    }
  }

  lemma VnsRaise(doc: IntentDoc, f: Finding)
    ensures (exists i: nat :: i < |doc.vns| && VnFault(doc.vns, i, f)) <==> exists i: nat :: i < |doc.vns| && VnShows(doc.vns, i, f)
  {
    hide VnFault, VnShows;
    forall i: nat | i < |doc.vns| ensures VnFault(doc.vns, i, f) <==> VnShows(doc.vns, i, f) { VnShowsExact(doc.vns, i, f); }
  }

  lemma PoolsRaise(doc: IntentDoc, f: Finding)
    ensures (exists i: nat :: i < |doc.pools| && PoolFault(doc.pools, i, f)) <==> exists i: nat :: i < |doc.pools| && PoolShows(doc.pools, i, f)
  {
    hide PoolFault, PoolShows;
    forall i: nat | i < |doc.pools| ensures PoolFault(doc.pools, i, f) <==> PoolShows(doc.pools, i, f) { PoolShowsExact(doc.pools, i, f); }
  }

  lemma PeersRaise(s: seq<Peer>, devices: seq<Device>, vns: seq<Vn>, borders: set<Id>, f: Finding)
    requires borders == Borders(devices)
    ensures (exists i: nat :: i < |s| && PeerFault(s, KnownDevices(devices), borders, KnownVrfs(vns), i, f)) <==>
              exists i: nat :: i < |s| && PeerShows(s, devices, vns, i, f)
  {
    hide PeerFault, PeerShows, KnownDevices, KnownVrfs;
    forall i: nat | i < |s| ensures PeerFault(s, KnownDevices(devices), borders, KnownVrfs(vns), i, f) <==> PeerShows(s, devices, vns, i, f) {
      PeerShowsExact(s, devices, vns, i, f);
    }
  }

  lemma OverlapsRaise(doc: IntentDoc, f: Finding)
    ensures (exists i: nat :: i < |AddressNetworks(doc)| && OverlapFault(AddressNetworks(doc), i, f)) <==> f == AddressOverlap && AddressesMeet(doc)
  {
    hide AddressNetworks, AddressesMeet;
    if f == AddressOverlap { OverlapExact(doc); }
  }

  /** What the validator reports is what the document shows. */
  lemma RaisesExact(doc: IntentDoc, f: Finding)
    ensures Raises(doc, f) <==> Shows(doc, f)
  {
    hide DeviceFault, DeviceShows, LinkFault, LinkShows, VnFault, VnShows, PoolFault, PoolShows, PeerFault, PeerShows, OverlapFault;
    hide AddressesMeet, AddressNetworks, KnownDevices, KnownVrfs;
    DevicesRaise(doc, f);
    LinksRaise(doc, f);
    VnsRaise(doc, f);
    PoolsRaise(doc, f);
    PeersRaise(doc.peers, doc.devices, doc.vns, Borders(doc.devices), f);
    OverlapsRaise(doc, f);
  }
}
