/**
 The independent checks of `validate_intent` (orchestrator/intent.py) on addresses
 and identifiers.  Each section is the source's loop with its `seen` dictionaries;
 its contract says exactly which findings it reports, and where.
 */
module IntentValidation {
  import opened Basics
  import opened Addressing
  import opened Allocator
  import opened AllocatorProofs

  datatype Finding =
    | DuplicateDeviceId | DuplicateLoopback
    | DuplicateLinkId | LinkPrefixLength | LinkEndpointCount | LinkUnknownDevice
    | LinkDuplicateIp | LinkOutsideSubnet | LinkSelf
    | DuplicateVnName | DuplicateVrf | L3Range | DuplicateL3 | DuplicateRd
    | DuplicatePoolId | VlanRange | VlanReserved | DuplicateSiteVlan | L2Range | DuplicateL2 | GatewayOutside
    | UnknownPeerDevice | PeerNotBorder | UnknownPeerVrf | PeerVlanRange | HandoffPrefixLength
    | LocalOutside | NeighborOutside | LocalNotUsable | NeighborNotUsable | SameAddress
    | DuplicatePeer | DuplicateDeviceVlan
    | AddressOverlap

  /** A finding and the index of the item it is reported at. */
  datatype Issue = Issue(finding: Finding, index: nat)

  datatype IntentDoc = IntentDoc(devices: seq<Device>, links: seq<Link>, vns: seq<Vn>, pools: seq<EndpointPool>, peers: seq<Peer>)

  function IntentOf(d: Draft): IntentDoc { IntentDoc(d.devices, d.links, d.vns, d.pools, d.peers) }

  // ----- Reading a field -----

  /** What Python's `isspace` accepts. */
  predicate IsSpace(c: char) {
    var n := c as int;
    || 9 <= n <= 13 || 28 <= n <= 32 || n == 133 || n == 160 || n == 5760 || 8192 <= n <= 8202
    || n == 8232 || n == 8233 || n == 8239 || n == 8287 || n == 12288
  }

  function TrimStart(s: string): string {
    if s != "" && IsSpace(s[0]) then TrimStart(s[1..]) else s
  }

  function TrimEnd(s: string): string {
    if s != "" && IsSpace(s[|s| - 1]) then TrimEnd(s[..|s| - 1]) else s
  }

  function Strip(s: string): string { TrimEnd(TrimStart(s)) }

  /** `_required_string`: the stripped text, unless it is blank or has a line break. */
  function ReadString(s: string): Option<string> {
    if Strip(s) == "" || '\r' in s || '\n' in s then None else Some(Strip(s))
  }

  /** `_integer`: the value, if it is in range. */
  function ReadInteger(v: int, min: int, max: int): Option<int> {
    if min <= v <= max then Some(v) else None
  }

  function ReadVlan(v: int): Option<int> { ReadInteger(v, 1, 4094) }
  function ReadInstance(v: int): Option<int> { ReadInteger(v, 1, 16777215) }

  function Both<A, B>(a: Option<A>, b: Option<B>): Option<(A, B)> {
    if a.Some? && b.Some? then Some((a.value, b.value)) else None
  }

  // ----- What each finding means -----

  /** The i-th value could be read, and it occurred before. */
  ghost predicate Repeats<K>(values: seq<Option<K>>, i: nat)
    requires i < |values|
  {
    values[i].Some? && values[i] in values[..i]
  }

  function DeviceIdList(s: seq<Device>): seq<Option<Id>> { seq(|s|, i requires 0 <= i < |s| => ReadString(s[i].id)) }
  function LoopbackIps(s: seq<Device>): seq<Option<nat>> { seq(|s|, i requires 0 <= i < |s| => Some(s[i].loopback.addr)) }
  function LinkIds(s: seq<Link>): seq<Option<Id>> { seq(|s|, i requires 0 <= i < |s| => ReadString(s[i].id)) }
  function VnNames(s: seq<Vn>): seq<Option<Id>> { seq(|s|, i requires 0 <= i < |s| => ReadString(s[i].name)) }
  function Vrfs(s: seq<Vn>): seq<Option<Id>> { seq(|s|, i requires 0 <= i < |s| => ReadString(s[i].vrf)) }
  function L3s(s: seq<Vn>): seq<Option<int>> { seq(|s|, i requires 0 <= i < |s| => ReadInstance(s[i].l3)) }
  function Rds(s: seq<Vn>): seq<Option<string>> { seq(|s|, i requires 0 <= i < |s| => ReadString(s[i].rd)) }
  function PoolIds(s: seq<EndpointPool>): seq<Option<Id>> { seq(|s|, i requires 0 <= i < |s| => ReadString(s[i].id)) }
  function L2s(s: seq<EndpointPool>): seq<Option<int>> { seq(|s|, i requires 0 <= i < |s| => ReadInstance(s[i].l2)) }
  function SiteVlans(s: seq<EndpointPool>): seq<Option<(Id, int)>> {
    seq(|s|, i requires 0 <= i < |s| => Both(ReadString(s[i].site), ReadVlan(s[i].vlan)))
  }
  function PeerKeys(s: seq<Peer>): seq<Option<((Id, Id), nat)>> {
    seq(|s|, i requires 0 <= i < |s| => Both(Both(ReadString(s[i].device), ReadString(s[i].vrf)), Some(s[i].neighborIp)))
  }
  function DeviceVlans(s: seq<Peer>): seq<Option<(Id, int)>> {
    seq(|s|, i requires 0 <= i < |s| => Both(ReadString(s[i].device), ReadVlan(s[i].vlan)))
  }
  function EndIps(s: seq<LinkEnd>): seq<Option<nat>> { seq(|s|, i requires 0 <= i < |s| => Some(s[i].ip)) }

  function Readable<K>(values: seq<Option<K>>): set<K> { set v | v in values && v.Some? :: v.value }

  /** The device ids, VRFs and, for each device id, the border role as last declared. */
  function KnownDevices(s: seq<Device>): set<Id> { Readable(DeviceIdList(s)) }
  function KnownVrfs(s: seq<Vn>): set<Id> { Readable(Vrfs(s)) }

  function Borders(s: seq<Device>): set<Id> {
    if s == [] then {}
    else
      var init, last := Borders(s[..|s| - 1]), s[|s| - 1];
      var id := ReadString(last.id);
      if id == None then init else if last.border then init + {id.value} else init - {id.value}
  }

  /** The readable device ids of a link's endpoints. */
  function EndDevices(s: seq<LinkEnd>): seq<Id> {
    if s == [] then []
    else EndDevices(s[..|s| - 1]) + (var id := ReadString(s[|s| - 1].device); if id == None then [] else [id.value])
  }

  ghost predicate DeviceFault(s: seq<Device>, i: nat, f: Finding)
    requires i < |s|
  {
    match f
    case DuplicateDeviceId => Repeats(DeviceIdList(s), i)
    case DuplicateLoopback => Repeats(LoopbackIps(s), i)
    case _ => false
  }

  ghost predicate LinkItemFault(l: Link, devices: set<Id>, f: Finding) {
    || (f == LinkPrefixLength && l.subnet.len != 30 && l.subnet.len != 31)
    || (f == LinkEndpointCount && |l.ends| != 2)
    || (f == LinkUnknownDevice && exists x :: x in EndDevices(l.ends) && x !in devices)
    || (f == LinkDuplicateIp && exists k :: 0 <= k < |l.ends| && Repeats(EndIps(l.ends), k))
    || (f == LinkOutsideSubnet && exists e :: e in l.ends && !Contains(l.subnet, e.ip))
    || (f == LinkSelf && var e := EndDevices(l.ends); |e| == 2 && e[0] == e[1])
  }

  ghost predicate LinkFault(s: seq<Link>, devices: set<Id>, i: nat, f: Finding)
    requires i < |s|
  {
    LinkItemFault(s[i], devices, f) || (f == DuplicateLinkId && Repeats(LinkIds(s), i))
  }

  ghost predicate VnFault(s: seq<Vn>, i: nat, f: Finding)
    requires i < |s|
  {
    || (f == DuplicateVnName && Repeats(VnNames(s), i))
    || (f == DuplicateVrf && Repeats(Vrfs(s), i))
    || (f == L3Range && ReadInstance(s[i].l3) == None)
    || (f == DuplicateL3 && Repeats(L3s(s), i))
    || (f == DuplicateRd && Repeats(Rds(s), i))
  }

  const LEGACY_VLANS: set<int> := {1002, 1003, 1004, 1005}

  predicate PoolItemFault(p: EndpointPool, f: Finding) {
    match f
    case VlanRange => ReadVlan(p.vlan) == None
    case VlanReserved => p.vlan in LEGACY_VLANS
    case L2Range => ReadInstance(p.l2) == None
    case GatewayOutside => !Contains(p.prefix, p.gateway)
    case _ => false
  }

  ghost predicate PoolFault(s: seq<EndpointPool>, i: nat, f: Finding)
    requires i < |s|
  {
    || PoolItemFault(s[i], f)
    || (f == DuplicatePoolId && Repeats(PoolIds(s), i))
    || (f == DuplicateSiteVlan && Repeats(SiteVlans(s), i))
    || (f == DuplicateL2 && Repeats(L2s(s), i))
  }

  /** The network or the broadcast address of a prefix that has both. */
  predicate NotUsable(p: Prefix, address: nat) {
    p.len <= 30 && (address == p.addr || address == p.addr + Size(p.len) - 1)
  }

  predicate PeerReferenceFault(p: Peer, devices: set<Id>, borders: set<Id>, vrfs: set<Id>, f: Finding) {
    var device, vrf := ReadString(p.device), ReadString(p.vrf);
    match f
    case UnknownPeerDevice => device.Some? && device.value !in devices
    case PeerNotBorder => device.Some? && device.value in devices && device.value !in borders
    case UnknownPeerVrf => vrf.Some? && vrf.value !in vrfs
    case PeerVlanRange => ReadVlan(p.vlan) == None
    case _ => false
  }

  predicate PeerAddressFault(p: Peer, f: Finding) {
    match f
    case LocalOutside => !Contains(p.prefix, p.localIp)
    case NeighborOutside => !Contains(p.prefix, p.neighborIp)
    case LocalNotUsable => NotUsable(p.prefix, p.localIp)
    case NeighborNotUsable => NotUsable(p.prefix, p.neighborIp)
    case _ => false
  }

  predicate PeerPairFault(p: Peer, f: Finding) {
    || (f == HandoffPrefixLength && p.prefix.len != 30 && p.prefix.len != 31)
    || (f == SameAddress && p.localIp == p.neighborIp)
  }

  /** The checks on one peer alone. */
  predicate PeerItemFault(p: Peer, devices: set<Id>, borders: set<Id>, vrfs: set<Id>, f: Finding) {
    PeerReferenceFault(p, devices, borders, vrfs, f) || PeerAddressFault(p, f) || PeerPairFault(p, f)
  }

  ghost predicate PeerFault(s: seq<Peer>, devices: set<Id>, borders: set<Id>, vrfs: set<Id>, i: nat, f: Finding)
    requires i < |s|
  {
    || PeerItemFault(s[i], devices, borders, vrfs, f)
    || (f == DuplicatePeer && Repeats(PeerKeys(s), i))
    || (f == DuplicateDeviceVlan && Repeats(DeviceVlans(s), i))
  }

  /** The list of `_check_network_overlaps`: loopbacks as /32, links, pools, handoffs. */
  function AddressNetworks(doc: IntentDoc): seq<Prefix> {
    HostRoutes(LoopbacksOf(doc.devices)) + SubnetsOf(doc.links) + PoolPrefixes(doc.pools) + PeerPrefixes(doc.peers)
  }

  function HostRoute(p: Prefix): (r: Prefix)
    ensures SubnetOf(r, p)
  {
    assert Size(32) == 1;
    Block(p.addr, 32)
  }

  function HostRoutes(s: seq<Prefix>): seq<Prefix> { seq(|s|, i requires 0 <= i < |s| => HostRoute(s[i])) }

  ghost predicate OverlapFault(s: seq<Prefix>, i: nat, f: Finding)
    requires i < |s|
  {
    f == AddressOverlap && exists j :: 0 <= j < i && Overlaps(s[j], s[i])
  }

  // ----- The loops -----

  /** The `seen` dictionary holds what could be read of the first `i` values. */
  ghost predicate Tracks<K(!new)>(seen: set<K>, values: seq<Option<K>>, i: nat)
    requires i <= |values|
  {
    forall v :: v in seen <==> Some(v) in values[..i]
  }

  /** `_check_duplicate`: has the value, if there is one, been seen; it is seen from now on. */
  method CheckDuplicate<K(==, !new)>(seen: set<K>, ghost values: seq<Option<K>>, i: nat, value: Option<K>) returns (duplicate: bool, seen': set<K>)
    requires i < |values| && value == values[i] && Tracks(seen, values, i)
    ensures duplicate <==> Repeats(values, i)
    ensures Tracks(seen', values, i + 1)
  {
    assert values[..i + 1] == values[..i] + [value];
    if value == None { return false, seen; }
    duplicate := value.value in seen;
    seen' := seen + {value.value};
  }

  /** `_add`, if the check failed. */
  function Note(issues: seq<Issue>, failed: bool, f: Finding, i: nat): (r: seq<Issue>)
    ensures forall x :: x in r <==> x in issues || (failed && x == Issue(f, i))
  {
    if failed then issues + [Issue(f, i)] else issues
  }

  function Note2(issues: seq<Issue>, failed: bool, f: Finding, failed': bool, f': Finding, i: nat): (r: seq<Issue>)
    ensures forall x :: x in r <==> x in issues || (failed && x == Issue(f, i)) || (failed' && x == Issue(f', i))
  {
    Note(Note(issues, failed, f, i), failed', f', i)
  }

  method ValidateVns(s: seq<Vn>) returns (issues: seq<Issue>)
    ensures forall x :: x in issues <==> x.index < |s| && VnFault(s, x.index, x.finding)
  {
    issues := [];
    var names, vrfs, rds: set<Id> := {}, {}, {};
    var l3s: set<int> := {};
    for i := 0 to |s|
      invariant Tracks(names, VnNames(s), i) && Tracks(vrfs, Vrfs(s), i) && Tracks(l3s, L3s(s), i) && Tracks(rds, Rds(s), i)
      invariant forall x :: x in issues <==> x.index < i && VnFault(s, x.index, x.finding)
    {
      var d1, d2, d3, d4;
      d1, names := CheckDuplicate(names, VnNames(s), i, ReadString(s[i].name));
      d2, vrfs := CheckDuplicate(vrfs, Vrfs(s), i, ReadString(s[i].vrf));
      d3, l3s := CheckDuplicate(l3s, L3s(s), i, ReadInstance(s[i].l3));
      d4, rds := CheckDuplicate(rds, Rds(s), i, ReadString(s[i].rd));
      issues := NoteVn(s, i, issues, d1, d2, d3, d4);
    }
  }

  method NoteVn(s: seq<Vn>, i: nat, issues: seq<Issue>, d1: bool, d2: bool, d3: bool, d4: bool) returns (r: seq<Issue>)
    requires i < |s| && (d1 <==> Repeats(VnNames(s), i)) && (d2 <==> Repeats(Vrfs(s), i))
    requires (d3 <==> Repeats(L3s(s), i)) && (d4 <==> Repeats(Rds(s), i))
    ensures forall x :: x in r <==> x in issues || (x.index == i && VnFault(s, i, x.finding))
  {
    r := Note(issues, ReadInstance(s[i].l3) == None, L3Range, i);
    r := Note2(Note2(r, d1, DuplicateVnName, d2, DuplicateVrf, i), d3, DuplicateL3, d4, DuplicateRd, i);
  }

  method ValidateDevices(s: seq<Device>) returns (issues: seq<Issue>)
    ensures forall x :: x in issues <==> x.index < |s| && DeviceFault(s, x.index, x.finding)
  {
    issues := [];
    var ids: set<Id> := {};
    var loopbacks: set<nat> := {};
    for i := 0 to |s|
      invariant Tracks(ids, DeviceIdList(s), i) && Tracks(loopbacks, LoopbackIps(s), i)
      invariant forall x :: x in issues <==> x.index < i && DeviceFault(s, x.index, x.finding)
    {
      var d1, d2;
      d1, ids := CheckDuplicate(ids, DeviceIdList(s), i, ReadString(s[i].id));
      d2, loopbacks := CheckDuplicate(loopbacks, LoopbackIps(s), i, Some(s[i].loopback.addr));
      issues := NoteDevice(s, i, issues, d1, d2);
    }
  }

  method NoteDevice(s: seq<Device>, i: nat, issues: seq<Issue>, d1: bool, d2: bool) returns (r: seq<Issue>)
    requires i < |s| && (d1 <==> Repeats(DeviceIdList(s), i)) && (d2 <==> Repeats(LoopbackIps(s), i))
    ensures forall x :: x in r <==> x in issues || (x.index == i && DeviceFault(s, i, x.finding))
  {
    r := Note2(issues, d1, DuplicateDeviceId, d2, DuplicateLoopback, i);
  }

  ghost predicate AllIn(known: seq<Id>, devices: set<Id>) { forall x :: x in known ==> x in devices }

  /** Some of the first `i` addresses repeats; some lies outside the subnet. */
  ghost predicate RepeatedBefore(ends: seq<LinkEnd>, i: nat)
    requires i <= |ends|
  {
    exists k :: 0 <= k < i && Repeats(EndIps(ends), k)
  }

  ghost predicate OutsideBefore(l: Link, i: nat)
    requires i <= |l.ends|
  {
    exists k :: 0 <= k < i && !Contains(l.subnet, l.ends[k].ip)
  }

  lemma EndsStep(l: Link, i: nat, known: seq<Id>, devices: set<Id>)
    requires i < |l.ends| && known == EndDevices(l.ends[..i])
    ensures var device := ReadString(l.ends[i].device);
            && EndDevices(l.ends[..i + 1]) == known + (if device == None then [] else [device.value])
            && (AllIn(EndDevices(l.ends[..i + 1]), devices) <==> AllIn(known, devices) && (device.Some? ==> device.value in devices))
    ensures RepeatedBefore(l.ends, i + 1) <==> RepeatedBefore(l.ends, i) || Repeats(EndIps(l.ends), i)
    ensures OutsideBefore(l, i + 1) <==> OutsideBefore(l, i) || !Contains(l.subnet, l.ends[i].ip)
  {
    assert l.ends[..i + 1][..i] == l.ends[..i];
    var device := ReadString(l.ends[i].device);
    assert forall x :: x in EndDevices(l.ends[..i + 1]) <==> x in known || Some(x) == device;
  }

  /** The loop over one link's endpoints. */
  method CheckEnds(l: Link, devices: set<Id>) returns (unknown: bool, repeated: bool, outside: bool, known: seq<Id>)
    ensures known == EndDevices(l.ends)
    ensures unknown <==> exists x :: x in known && x !in devices
    ensures repeated <==> exists k :: 0 <= k < |l.ends| && Repeats(EndIps(l.ends), k)
    ensures outside <==> exists e :: e in l.ends && !Contains(l.subnet, e.ip)
  {
    unknown, repeated, outside, known := false, false, false, [];
    var ips: set<nat> := {};
    for i := 0 to |l.ends|
      invariant Tracks(ips, EndIps(l.ends), i) && known == EndDevices(l.ends[..i])
      invariant unknown <==> !AllIn(known, devices)
      invariant (repeated <==> RepeatedBefore(l.ends, i)) && (outside <==> OutsideBefore(l, i))
    {
      EndsStep(l, i, known, devices);
      var duplicate;
      duplicate, ips := CheckDuplicate(ips, EndIps(l.ends), i, Some(l.ends[i].ip));
      var device := ReadString(l.ends[i].device);
      if device.Some? {
        known := known + [device.value];
        unknown := unknown || device.value !in devices;
      }
      outside := outside || !Contains(l.subnet, l.ends[i].ip);
      repeated := repeated || duplicate;
    }
    assert l.ends[..|l.ends|] == l.ends;
  }

  method CheckLink(l: Link, devices: set<Id>, issues: seq<Issue>, i: nat) returns (r: seq<Issue>)
    ensures forall x :: x in r <==> x in issues || (x.index == i && LinkItemFault(l, devices, x.finding))
  {
    var unknown, repeated, outside, known := CheckEnds(l, devices);
    r := Note(issues, l.subnet.len != 30 && l.subnet.len != 31, LinkPrefixLength, i);
    r := Note(r, |l.ends| != 2, LinkEndpointCount, i);
    r := Note(r, unknown, LinkUnknownDevice, i);
    r := Note(r, repeated, LinkDuplicateIp, i);
    r := Note(r, outside, LinkOutsideSubnet, i);
    r := Note(r, |known| == 2 && known[0] == known[1], LinkSelf, i);
  }

  method ValidateLinks(s: seq<Link>, devices: set<Id>) returns (issues: seq<Issue>)
    ensures forall x :: x in issues <==> x.index < |s| && LinkFault(s, devices, x.index, x.finding)
  {
    issues := [];
    var ids: set<Id> := {};
    for i := 0 to |s|
      invariant Tracks(ids, LinkIds(s), i)
      invariant forall x :: x in issues <==> x.index < i && LinkFault(s, devices, x.index, x.finding)
    {
      var duplicate;
      duplicate, ids := CheckDuplicate(ids, LinkIds(s), i, ReadString(s[i].id));
      issues := CheckLink(s[i], devices, Note(issues, duplicate, DuplicateLinkId, i), i);
    }
  }

  method CheckPool(p: EndpointPool, issues: seq<Issue>, i: nat) returns (r: seq<Issue>)
    ensures forall x :: x in r <==> x in issues || (x.index == i && PoolItemFault(p, x.finding))
  {
    r := Note2(issues, ReadVlan(p.vlan) == None, VlanRange, p.vlan in LEGACY_VLANS, VlanReserved, i);
    r := Note2(r, ReadInstance(p.l2) == None, L2Range, !Contains(p.prefix, p.gateway), GatewayOutside, i);
  }

  method ValidatePools(s: seq<EndpointPool>) returns (issues: seq<Issue>)
    ensures forall x :: x in issues <==> x.index < |s| && PoolFault(s, x.index, x.finding)
  {
    issues := [];
    var ids: set<Id> := {};
    var siteVlans: set<(Id, int)> := {};
    var l2s: set<int> := {};
    for i := 0 to |s|
      invariant Tracks(ids, PoolIds(s), i) && Tracks(siteVlans, SiteVlans(s), i) && Tracks(l2s, L2s(s), i)
      invariant forall x :: x in issues <==> x.index < i && PoolFault(s, x.index, x.finding)
    {
      var d1, d2, d3;
      d1, ids := CheckDuplicate(ids, PoolIds(s), i, ReadString(s[i].id));
      d2, siteVlans := CheckDuplicate(siteVlans, SiteVlans(s), i, Both(ReadString(s[i].site), ReadVlan(s[i].vlan)));
      d3, l2s := CheckDuplicate(l2s, L2s(s), i, ReadInstance(s[i].l2));
      issues := CheckPool(s[i], Note(issues, d1, DuplicatePoolId, i), i);
      issues := Note2(issues, d2, DuplicateSiteVlan, d3, DuplicateL2, i);
    }
  }

  method CheckPeerReferences(p: Peer, devices: set<Id>, borders: set<Id>, vrfs: set<Id>, issues: seq<Issue>, i: nat) returns (r: seq<Issue>)
    ensures forall x :: x in r <==> x in issues || (x.index == i && PeerReferenceFault(p, devices, borders, vrfs, x.finding))
  {
    var device, vrf := ReadString(p.device), ReadString(p.vrf);
    var known := device.Some? && device.value in devices;
    r := Note2(issues, device.Some? && !known, UnknownPeerDevice, known && device.value !in borders, PeerNotBorder, i);
    r := Note2(r, vrf.Some? && vrf.value !in vrfs, UnknownPeerVrf, ReadVlan(p.vlan) == None, PeerVlanRange, i);
  }

  method CheckPeerAddresses(p: Peer, issues: seq<Issue>, i: nat) returns (r: seq<Issue>)
    ensures forall x :: x in r <==> x in issues || (x.index == i && PeerAddressFault(p, x.finding))
  {
    var outside, outside' := !Contains(p.prefix, p.localIp), !Contains(p.prefix, p.neighborIp);
    var unusable, unusable' := NotUsable(p.prefix, p.localIp), NotUsable(p.prefix, p.neighborIp);
    r := Note2(issues, outside, LocalOutside, outside', NeighborOutside, i);
    r := Note2(r, unusable, LocalNotUsable, unusable', NeighborNotUsable, i);
  }

  method ValidatePeers(s: seq<Peer>, devices: set<Id>, borders: set<Id>, vrfs: set<Id>) returns (issues: seq<Issue>)
    ensures forall x :: x in issues <==> x.index < |s| && PeerFault(s, devices, borders, vrfs, x.index, x.finding)
  {
    issues := [];
    var keys: set<((Id, Id), nat)> := {};
    var vlans: set<(Id, int)> := {};
    for i := 0 to |s|
      invariant Tracks(keys, PeerKeys(s), i) && Tracks(vlans, DeviceVlans(s), i)
      invariant forall x :: x in issues <==> x.index < i && PeerFault(s, devices, borders, vrfs, x.index, x.finding)
    {
      var d1, d2;
      issues := CheckPeerReferences(s[i], devices, borders, vrfs, issues, i);
      issues := CheckPeerAddresses(s[i], issues, i);
      issues := Note2(issues, s[i].prefix.len != 30 && s[i].prefix.len != 31, HandoffPrefixLength,
                      s[i].localIp == s[i].neighborIp, SameAddress, i);
      var key := Both(Both(ReadString(s[i].device), ReadString(s[i].vrf)), Some(s[i].neighborIp));
      d1, keys := CheckDuplicate(keys, PeerKeys(s), i, key);
      d2, vlans := CheckDuplicate(vlans, DeviceVlans(s), i, Both(ReadString(s[i].device), ReadVlan(s[i].vlan)));
      issues := Note2(issues, d1, DuplicatePeer, d2, DuplicateDeviceVlan, i);
    }
  }

  /** `_check_network_overlaps`: every pair once, reported at the later one. */
  method CheckNetworkOverlaps(s: seq<Prefix>) returns (issues: seq<Issue>)
    ensures forall x :: x in issues <==> x.index < |s| && OverlapFault(s, x.index, x.finding)
  {
    issues := [];
    for a := 0 to |s|
      invariant forall x :: x in issues <==>
        x.finding == AddressOverlap && x.index < |s| && exists j :: 0 <= j < a && j < x.index && Overlaps(s[j], s[x.index])
    {
      ghost var before := issues;
      for b := a + 1 to |s|
        invariant forall x :: x in issues <==>
          x in before || (x.finding == AddressOverlap && a < x.index < b && Overlaps(s[a], s[x.index]))
      {
        issues := Note(issues, Overlaps(s[a], s[b]), AddressOverlap, b);
      }
    }
  }

  // ----- The whole document -----

  /** Some item of the document has the finding. */
  ghost predicate Raises(doc: IntentDoc, f: Finding) {
    || (exists i: nat :: i < |doc.devices| && DeviceFault(doc.devices, i, f))
    || (exists i: nat :: i < |doc.links| && LinkFault(doc.links, KnownDevices(doc.devices), i, f))
    || (exists i: nat :: i < |doc.vns| && VnFault(doc.vns, i, f))
    || (exists i: nat :: i < |doc.pools| && PoolFault(doc.pools, i, f))
    || (exists i: nat :: i < |doc.peers|
          && PeerFault(doc.peers, KnownDevices(doc.devices), Borders(doc.devices), KnownVrfs(doc.vns), i, f))
    || (exists i: nat :: i < |AddressNetworks(doc)| && OverlapFault(AddressNetworks(doc), i, f))
  }

  ghost predicate Reported(issues: seq<Issue>, f: Finding) {
    exists x :: x in issues && x.finding == f
  }

  lemma ReportedInSum(a: seq<Issue>, b: seq<Issue>, c: seq<Issue>, d: seq<Issue>, e: seq<Issue>, g: seq<Issue>, f: Finding)
    ensures Reported(a + b + c + d + e + g, f) <==>
      (Reported(a, f) || Reported(b, f) || Reported(c, f) || Reported(d, f) || Reported(e, f) || Reported(g, f))
  {
    forall x ensures x in a + b + c + d + e + g <==> (x in a || x in b || x in c || x in d || x in e || x in g) {}
  }

  /** `validate_intent`, as far as these findings go: it reports all of them and nothing else. */
  method ValidateIntent(doc: IntentDoc) returns (issues: seq<Issue>)
    ensures forall f :: Reported(issues, f) <==> Raises(doc, f)
  {
    var devices := ValidateDevices(doc.devices);
    var links := ValidateLinks(doc.links, KnownDevices(doc.devices));
    var vns := ValidateVns(doc.vns);
    var pools := ValidatePools(doc.pools);
    var peers := ValidatePeers(doc.peers, KnownDevices(doc.devices), Borders(doc.devices), KnownVrfs(doc.vns));
    var overlaps := CheckNetworkOverlaps(AddressNetworks(doc));
    issues := devices + links + vns + pools + peers + overlaps;
    forall f ensures Reported(issues, f) <==> Raises(doc, f) {
      ReportedInSum(devices, links, vns, pools, peers, overlaps, f);
      if Raises(doc, f) {
        var i: nat :|
          || (i < |doc.devices| && DeviceFault(doc.devices, i, f))
          || (i < |doc.links| && LinkFault(doc.links, KnownDevices(doc.devices), i, f))
          || (i < |doc.vns| && VnFault(doc.vns, i, f))
          || (i < |doc.pools| && PoolFault(doc.pools, i, f))
          || (i < |doc.peers|
              && PeerFault(doc.peers, KnownDevices(doc.devices), Borders(doc.devices), KnownVrfs(doc.vns), i, f))
          || (i < |AddressNetworks(doc)| && OverlapFault(AddressNetworks(doc), i, f));
        assert || Issue(f, i) in devices || Issue(f, i) in links || Issue(f, i) in vns
               || Issue(f, i) in pools || Issue(f, i) in peers || Issue(f, i) in overlaps;
      }
    }
  }
}
