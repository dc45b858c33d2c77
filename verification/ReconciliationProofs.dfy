/** What the diff removes, in which order, and what a history of applies leaves behind. */
module ReconciliationProofs {
  import opened Basics
  import opened Ordering
  import opened Reconciliation

  // ----- Dictionaries and lists agree on valid manifests -----

  ghost predicate EntriesDistinct(s: seq<Entry>) {
    forall i, j :: 0 <= i < j < |s| ==> KeyOf(s[i]) != KeyOf(s[j])
  }

  lemma {:induction false} EntriesExact(devices: seq<DeviceEntry>, e: Entry)
    ensures e in Entries(devices) <==> exists i :: 0 <= i < |devices| && devices[i].id == e.device && e.resource in devices[i].resources
    decreases |devices|
  {
    if devices != [] {
      var head := OnDevice(devices[0].id, devices[0].resources);
      EntriesExact(devices[1..], e);
      assert e in head <==> devices[0].id == e.device && e.resource in devices[0].resources by {
        if devices[0].id == e.device && e.resource in devices[0].resources {
          var k :| 0 <= k < |devices[0].resources| && devices[0].resources[k] == e.resource;
          assert head[k] == e;
        }
      }
      if i :| 0 <= i < |devices| && devices[i].id == e.device && e.resource in devices[i].resources {
        if i > 0 { assert devices[1..][i - 1] == devices[i]; }
      }
      if j :| 0 <= j < |devices[1..]| && devices[1..][j].id == e.device && e.resource in devices[1..][j].resources {
        assert devices[j + 1] == devices[1..][j];
      }
    }
  }

  lemma {:induction false} EntriesAreDistinct(devices: seq<DeviceEntry>)
    requires IsObject(devices) && forall e :: e in devices ==> KeysDistinct(e.resources)
    ensures EntriesDistinct(Entries(devices))
    decreases |devices|
  {
    if devices != [] {
      EntriesAreDistinct(devices[1..]);
      var head, rest := OnDevice(devices[0].id, devices[0].resources), Entries(devices[1..]);
      assert KeysDistinct(devices[0].resources);
      forall i, j | 0 <= i < |head| && 0 <= j < |rest| ensures KeyOf(head[i]) != KeyOf(rest[j]) {
        EntriesExact(devices[1..], rest[j]);
      }
    }
  }

  lemma {:induction false} ByKeyExact(s: seq<Entry>)
    requires EntriesDistinct(s)
    ensures forall e :: e in s ==> KeyOf(e) in ByKey(s) && ByKey(s)[KeyOf(e)] == e.resource
    ensures forall k :: k in ByKey(s) ==> Entry(k.0, ByKey(s)[k]) in s && ByKey(s)[k].key == k.1
    decreases |s|
  {
    if s != [] {
      var init, last := s[..|s| - 1], s[|s| - 1];
      ByKeyExact(init);
      assert s == init + [last];
    }
  }

  lemma {:induction false} StaleExact(current: map<Key, Resource>, s: seq<Entry>, e: Entry)
    ensures e in StaleEntries(current, s) <==> e in s && Stale(current, e)
    decreases |s|
  {
    if s != [] {
      StaleExact(current, s[1..], e);
      assert s == [s[0]] + s[1..];
    }
  }

  // ----- The delta of one device -----

  function ForDevice(s: seq<Entry>, d: Id): seq<Resource> {
    if s == [] then []
    else
      var rest := ForDevice(s[..|s| - 1], d);
      if s[|s| - 1].device == d then rest + [s[|s| - 1].resource] else rest
  }

  /** The block sends the resource's own removal commands under its own key and hash. */
  ghost predicate Removes(b: Block, r: Resource) {
    b.key == r.key && b.commands == r.state.remove && b.commandHash == r.removeHash
  }

  /** The gate looks on the device, with the resource's own command, for its forbidden lines. */
  ghost predicate Checks(g: Gate, d: Id, r: Resource) {
    g.device == d && g.key == r.key && g.command == r.state.gate && g.absent == r.state.forbidden
  }

  /** One block and one absence gate for each resource, in order. */
  ghost predicate DeltaFor(delta: Delta, d: Id, rs: seq<Resource>) {
    && |delta.blocks| == |rs| && |delta.gates| == |rs|
    && (forall i :: 0 <= i < |rs| ==> Removes(delta.blocks[i], rs[i]))
    && (forall i :: 0 <= i < |rs| ==> Checks(delta.gates[i], d, rs[i]))
  }

  /** Grouping keeps each device's removals, in order, one block and one absence gate each. */
  lemma {:induction false} GroupExact(devices: seq<DeviceEntry>, s: seq<Entry>, d: Id)
    ensures d in Group(devices, s) <==> ForDevice(s, d) != []
    ensures d in Group(devices, s) ==> DeltaFor(Group(devices, s)[d], d, ForDevice(s, d)) && Group(devices, s)[d].descriptor == DescriptorOf(devices, d)
    decreases |s|
  {
    if s != [] {
      GroupExact(devices, s[..|s| - 1], d);
    }
  }

  /** The descriptor is the one that the manifest holds for the device. */
  lemma {:induction false} DescriptorExact(devices: seq<DeviceEntry>, i: nat)
    requires IsObject(devices) && i < |devices|
    ensures DescriptorOf(devices, devices[i].id) == devices[i].descriptor
    decreases |devices|
  {
    if i > 0 { DescriptorExact(devices[1..], i - 1); }
  }

  lemma {:induction false} ForDeviceExact(s: seq<Entry>, d: Id, r: Resource)
    ensures r in ForDevice(s, d) <==> Entry(d, r) in s
    decreases |s|
  {
    if s != [] {
      ForDeviceExact(s[..|s| - 1], d, r);
      assert s == s[..|s| - 1] + [s[|s| - 1]];
    }
  }

  predicate RemovesBefore(a: Resource, b: Resource) {
    a.order > b.order || (a.order == b.order && StringLe(a.key, b.key))
  }

  lemma {:induction false} ForDeviceIsOrdered(s: seq<Entry>, d: Id)
    requires Sorted(s, EntryLe)
    ensures forall i, j :: 0 <= i < j < |ForDevice(s, d)| ==> RemovesBefore(ForDevice(s, d)[i], ForDevice(s, d)[j])
    decreases |s|
  {
    if s != [] {
      var init, last := s[..|s| - 1], s[|s| - 1];
      ForDeviceIsOrdered(init, d);
      var rest := ForDevice(init, d);
      forall i | 0 <= i < |rest| ensures last.device == d ==> RemovesBefore(rest[i], last.resource) {
        ForDeviceExact(init, d, rest[i]);
        var k :| 0 <= k < |init| && init[k] == Entry(d, rest[i]);
        assert EntryLe(s[k], s[|s| - 1]);
      }
    }
  }

  lemma {:induction false} ForDeviceIsDistinct(s: seq<Entry>, d: Id)
    requires EntriesDistinct(s)
    ensures forall i, j :: 0 <= i < j < |ForDevice(s, d)| ==> ForDevice(s, d)[i].key != ForDevice(s, d)[j].key
    decreases |s|
  {
    if s != [] {
      var init := s[..|s| - 1];
      ForDeviceIsDistinct(init, d);
      var rest := ForDevice(init, d);
      forall i | 0 <= i < |rest| ensures s[|s| - 1].device == d ==> rest[i].key != s[|s| - 1].resource.key {
        ForDeviceExact(init, d, rest[i]);
        var k :| 0 <= k < |init| && init[k] == Entry(d, rest[i]);
        assert KeyOf(s[k]) != KeyOf(s[|s| - 1]);
      }
    }
  }

  lemma EntryLePreorder()
    ensures Preorder(EntryLe)
  {
    StringLePreorder();
    forall x, y, z | EntryLe(x, y) && EntryLe(y, z) ensures EntryLe(x, z) {
      if x.device == z.device && x.device != y.device { StringLeAntisymmetric(x.device, y.device); }
    }
  }

  // ----- Valid manifests -----

  /** The conditions on a manifest, device by device and resource by resource. */
  lemma ManifestValidExact(m: Manifest)
    ensures ManifestValid(m) <==>
              && m.body.version == "1.0" && m.body.scope == "multicast" && m.hash == m.body
              && (forall i :: 0 <= i < |m.body.devices| ==> DeviceAccepted(m.body.devices[i]))
  {
    forall i | 0 <= i < |m.body.devices| ensures EntryValid(m.body.devices[i]) <==> DeviceAccepted(m.body.devices[i]) {
      var rs := m.body.devices[i].resources;
      assert forall j :: 0 <= j < |rs| ==> rs[j] in rs;
    }
  }

  /** Named as in its descriptor; no two resources with one key; each with its lines, removal commands, gate lines and true hashes. */
  ghost predicate DeviceAccepted(e: DeviceEntry) {
    && e.id != "" && e.descriptor.id == e.id && |e.descriptor.roles| > 0
    && (forall j, k :: 0 <= j < k < |e.resources| ==> e.resources[j].key != e.resources[k].key)
    && (forall j :: 0 <= j < |e.resources| ==> ResourceAccepted(e.resources[j]))
  }

  ghost predicate ResourceAccepted(r: Resource) {
    && r.key != "" && |r.state.configured| > 0 && |r.state.remove| > 0 && |r.state.forbidden| > 0
    && r.removeHash == r.state.remove && r.stateHash == r.state
  }

  // ----- Main results about one diff -----

  /** What a baseline and a new manifest must satisfy for the source to diff them. */
  ghost predicate Comparable(previous: Manifest, current: Manifest) {
    ManifestValid(previous) && ManifestValid(current)
  }

  /** The resources of a manifest by device and key. */
  function Owned(m: Manifest): map<Key, Resource> { ByKey(Entries(m.body.devices)) }

  lemma OwnedExact(m: Manifest)
    requires ManifestValid(m)
    ensures EntriesDistinct(Entries(m.body.devices))
    ensures forall e :: e in Entries(m.body.devices) <==> KeyOf(e) in Owned(m) && Owned(m)[KeyOf(e)] == e.resource
  {
    EntriesAreDistinct(m.body.devices);
    ByKeyExact(Entries(m.body.devices));
  }

  /** Removed: owned by the baseline, and gone or changed in the new manifest. */
  ghost predicate MustGo(previous: Manifest, current: Manifest, k: Key) {
    && k in Owned(previous)
    && (k in Owned(current) ==> Owned(current)[k].state != Owned(previous)[k].state)
  }

  /**
   Only resources that the baseline owns are removed, each exactly when it is gone
   or changed; an unchanged resource is never touched.
   */
  lemma RemovalsExact(previous: Manifest, current: Manifest, e: Entry)
    requires Comparable(previous, current)
    ensures e in Removals(previous, current) <==>
              MustGo(previous, current, KeyOf(e)) && Owned(previous)[KeyOf(e)] == e.resource
  {
    OwnedExact(previous);
    OwnedExact(current);
    var stale := StaleEntries(Owned(current), Entries(previous.body.devices));
    SortIsPermutation(stale, EntryLe);
    StaleExact(Owned(current), Entries(previous.body.devices), e);
    if e in Entries(previous.body.devices) {
      OwnedAreValid(previous, KeyOf(e));
      if KeyOf(e) in Owned(current) { OwnedAreValid(current, KeyOf(e)); }
    }
  }

  lemma OwnedAreValid(m: Manifest, k: Key)
    requires ManifestValid(m) && k in Owned(m)
    ensures ResourceValid(Owned(m)[k]) && Owned(m)[k].key == k.1
  {
    OwnedExact(m);
    ByKeyExact(Entries(m.body.devices));
    EntriesExact(m.body.devices, Entry(k.0, Owned(m)[k]));
    var i :| 0 <= i < |m.body.devices| && m.body.devices[i].id == k.0 && Owned(m)[k] in m.body.devices[i].resources;
    assert EntryValid(m.body.devices[i]);
  }

  /**
   On each device the removals run in descending `remove_order`: for each of them one block with its own
   removal commands and one gate on its own forbidden lines, beside the baseline's descriptor of the device.
   */
  lemma RemovalsOrdered(baseline: Baseline, current: Manifest, d: Id)
    requires Comparable(baseline.body.manifest, current)
    ensures var devices := Reconcile(Some(baseline), current).devices;
            var mine := ForDevice(Removals(baseline.body.manifest, current), d);
            && (d in devices <==> mine != [])
            && (forall r :: r in mine <==> MustGo(baseline.body.manifest, current, (d, r.key))
                                           && Owned(baseline.body.manifest)[(d, r.key)] == r)
            && (forall i, j :: 0 <= i < j < |mine| ==> RemovesBefore(mine[i], mine[j]))
            && (forall i, j :: 0 <= i < j < |mine| ==> mine[i].key != mine[j].key)
            && (d in devices ==> DeltaFor(devices[d], d, mine))
            && (forall e :: e in baseline.body.manifest.body.devices && e.id == d && d in devices ==> devices[d].descriptor == e.descriptor)
  {
    var previous := baseline.body.manifest;
    var removals := Removals(previous, current);
    GroupExact(previous.body.devices, removals, d);
    EntryLePreorder();
    SortIsSorted(StaleEntries(Owned(current), Entries(previous.body.devices)), EntryLe);
    ForDeviceIsOrdered(removals, d);
    RemovalsAreDistinct(previous, current);
    ForDeviceIsDistinct(removals, d);
    forall r ensures r in ForDevice(removals, d) <==> MustGo(previous, current, (d, r.key)) && Owned(previous)[(d, r.key)] == r {
      ForDeviceExact(removals, d, r);
      RemovalsExact(previous, current, Entry(d, r));
    }
    forall e | e in previous.body.devices && e.id == d ensures DescriptorOf(previous.body.devices, d) == e.descriptor {
      var i :| 0 <= i < |previous.body.devices| && previous.body.devices[i] == e;
      DescriptorExact(previous.body.devices, i);
    }
  }

  /** The summary counts the resources that must go, each once. */
  lemma StaleCountExact(baseline: Baseline, current: Manifest)
    requires Comparable(baseline.body.manifest, current)
    ensures var previous := baseline.body.manifest;
            Reconcile(Some(baseline), current).staleCount == |set k | k in Owned(previous) && MustGo(previous, current, k)|
  {
    var previous := baseline.body.manifest;
    var removals := Removals(previous, current);
    var gone := set k | k in Owned(previous) && MustGo(previous, current, k);
    RemovalsAreDistinct(previous, current);
    forall k ensures k in gone <==> exists i :: 0 <= i < |removals| && KeyOf(removals[i]) == k {
      if k in gone {
        OwnedAreValid(previous, k);
        var e := Entry(k.0, Owned(previous)[k]);
        RemovalsExact(previous, current, e);
        var i :| 0 <= i < |removals| && removals[i] == e;
        assert KeyOf(removals[i]) == k;
      }
      if i :| 0 <= i < |removals| && KeyOf(removals[i]) == k { RemovalsExact(previous, current, removals[i]); }
    }
    KeysAreCounted(removals, gone);
  }

  lemma RemovalsAreDistinct(previous: Manifest, current: Manifest)
    requires Comparable(previous, current)
    ensures EntriesDistinct(Removals(previous, current))
  {
    OwnedExact(previous);
    var entries := Entries(previous.body.devices);
    var stale := StaleEntries(Owned(current), entries);
    StaleAreDistinct(Owned(current), entries);
    SortIsPermutation(stale, EntryLe);
    assert Pairwise(stale, (a, b) => KeyOf(a) != KeyOf(b));
    PairwiseAfterReordering(stale, Removals(previous, current), (a, b) => KeyOf(a) != KeyOf(b));
  }

  lemma {:induction false} StaleAreDistinct(current: map<Key, Resource>, s: seq<Entry>)
    requires EntriesDistinct(s)
    ensures EntriesDistinct(StaleEntries(current, s))
    decreases |s|
  {
    if s != [] {
      StaleAreDistinct(current, s[1..]);
      var rest := StaleEntries(current, s[1..]);
      forall i | 0 <= i < |rest| ensures KeyOf(rest[i]) != KeyOf(s[0]) {
        StaleExact(current, s[1..], rest[i]);
        var j :| 0 <= j < |s[1..]| && s[1..][j] == rest[i];
        assert KeyOf(s[0]) != KeyOf(s[j + 1]);
      }
    }
  }

  lemma {:induction false} KeysAreCounted(s: seq<Entry>, keys: set<Key>)
    requires EntriesDistinct(s) && forall k :: k in keys <==> exists i :: 0 <= i < |s| && KeyOf(s[i]) == k
    ensures |keys| == |s|
    decreases |s|
  {
    if s == [] {
      assert keys == {};
    } else {
      var init, last := s[..|s| - 1], KeyOf(s[|s| - 1]);
      forall k ensures k in keys - {last} <==> exists i :: 0 <= i < |init| && KeyOf(init[i]) == k {
        if k in keys - {last} {
          var i :| 0 <= i < |s| && KeyOf(s[i]) == k;
          assert KeyOf(init[i]) == k;
        }
        if i :| 0 <= i < |init| && KeyOf(init[i]) == k { assert KeyOf(s[i]) == k; }
      }
      KeysAreCounted(init, keys - {last});
      assert last in keys;
    }
  }

  /** An identical manifest yields an empty diff. */
  lemma IdenticalManifestIsQuiet(baseline: Baseline)
    requires Comparable(baseline.body.manifest, baseline.body.manifest)
    ensures var r := Reconcile(Some(baseline), baseline.body.manifest); r.staleCount == 0 && r.devices == map[]
  {
    var m := baseline.body.manifest;
    var removals := Removals(m, m);
    if removals != [] {
      RemovalsExact(m, m, removals[0]);
      assert false;
    }
  }

  // ----- Convergence of whole histories -----

  /** What is configured on all devices, by device and resource key. */
  type Network = map<Key, ResourceState>

  function States(m: Manifest): Network {
    map k | k in Owned(m) :: Owned(m)[k].state
  }

  ghost predicate Installed(net: Network, m: Manifest) {
    forall k :: k in States(m) ==> k in net && net[k] == States(m)[k]
  }

  /** A block takes a resource off its device by sending the commands that remove exactly what is configured there. */
  ghost predicate Negated(devices: map<Id, Delta>, k: Key, configured: ResourceState) {
    k.0 in devices && exists b :: b in devices[k.0].blocks && b.key == k.1 && b.commands == configured.remove
  }

  /** An apply sends the removal blocks, then configures the new manifest's resources. */
  ghost function Applied(net: Network, baseline: Option<Baseline>, current: Manifest): Network {
    var r := Reconcile(baseline, current);
    var gone := set k | k in net && r.Ready? && Negated(r.devices, k, net[k]);
    (net - gone) + States(current)
  }

  /** A resource configured as the baseline says is taken off exactly when it must go, and nothing else is. */
  lemma NegatedExact(net: Network, baseline: Baseline, current: Manifest, k: Key)
    requires Comparable(baseline.body.manifest, current) && Installed(net, baseline.body.manifest) && k in net
    ensures Negated(Reconcile(Some(baseline), current).devices, k, net[k]) <==> MustGo(baseline.body.manifest, current, k)
  {
    var previous := baseline.body.manifest;
    var devices := Reconcile(Some(baseline), current).devices;
    var mine := ForDevice(Removals(previous, current), k.0);
    RemovalsOrdered(baseline, current, k.0);
    if Negated(devices, k, net[k]) {
      var b :| b in devices[k.0].blocks && b.key == k.1;
      var i :| 0 <= i < |mine| && devices[k.0].blocks[i] == b;
      assert Removes(b, mine[i]) && mine[i] in mine;
    }
    if MustGo(previous, current, k) {
      OwnedAreValid(previous, k);
      var r := Owned(previous)[k];
      assert r in mine;
      var i :| 0 <= i < |mine| && mine[i] == r;
      assert Removes(devices[k.0].blocks[i], r);
      assert k in States(previous) && net[k] == r.state;
    }
  }

  /** One apply exchanges exactly the baseline's resources for the new manifest's. */
  lemma ApplyConverges(net: Network, baseline: Baseline, current: Manifest)
    requires Comparable(baseline.body.manifest, current) && Installed(net, baseline.body.manifest)
    ensures Applied(net, Some(baseline), current) == (net - States(baseline.body.manifest).Keys) + States(current)
  {
    forall k | k in net
      ensures Negated(Reconcile(Some(baseline), current).devices, k, net[k]) <==> MustGo(baseline.body.manifest, current, k)
    {
      NegatedExact(net, baseline, current, k);
    }
  }

  /** The newest entry of a fabric's ownership ledger. */
  function Newest(ledger: seq<Baseline>): Option<Baseline> {
    if ledger == [] then None else Some(ledger[|ledger| - 1])
  }

  /**
   What the ledger's entries did to the devices: apply after apply, each planned against
   the newest entry and then recorded; an adoption records what is there.
   */
  ghost function History(net: Network, ledger: seq<Baseline>): Network {
    if ledger == [] then net
    else
      var before := ledger[..|ledger| - 1];
      if ledger[|ledger| - 1].body.source == AdoptedDiscovery then History(net, before)
      else Applied(History(net, before), Newest(before), ledger[|ledger| - 1].body.manifest)
  }

  /** Every key some manifest of the ledger ever owned. */
  ghost function EverOwned(ledger: seq<Baseline>): set<Key> {
    if ledger == [] then {} else EverOwned(ledger[..|ledger| - 1]) + States(ledger[|ledger| - 1].body.manifest).Keys
  }

  ghost predicate LedgerValid(ledger: seq<Baseline>) {
    forall b :: b in ledger ==> ManifestValid(b.body.manifest)
  }

  /** The ledger may open with an adopted baseline, which the devices then really have; all else are applies. */
  ghost predicate Seeded(net: Network, ledger: seq<Baseline>) {
    && (forall i :: 0 < i < |ledger| ==> ledger[i].body.source == SuccessfulApply)
    && (ledger != [] && ledger[0].body.source == AdoptedDiscovery ==> Installed(net, ledger[0].body.manifest))
  }

  lemma ExchangeIsExact(net: Network, ever: set<Key>, old': Network, new': Network)
    requires old'.Keys <= ever
    ensures (((net - ever) + old') - old'.Keys) + new' == (net - (ever + new'.Keys)) + new'
  {
  }

  /**
   Convergence: after any history of applies the devices hold exactly the newest
   manifest's resources, and of the initial configuration everything that no
   manifest ever owned.  Nothing an earlier manifest owned is left behind.
   */
  lemma {:induction false} HistoryConverges(net: Network, ledger: seq<Baseline>)
    requires LedgerValid(ledger) && Seeded(net, ledger)
    ensures ledger == [] ==> History(net, ledger) == net
    ensures ledger != [] ==>
              History(net, ledger) == (net - EverOwned(ledger)) + States(ledger[|ledger| - 1].body.manifest)
    decreases |ledger|
  {
    if ledger != [] {
      var before, last := ledger[..|ledger| - 1], ledger[|ledger| - 1].body.manifest;
      HistoryConverges(net, before);
      if before == [] {
        assert EverOwned(before) == {};
        assert net - States(last).Keys + States(last) == net + States(last);
        if ledger[0].body.source == AdoptedDiscovery { assert net + States(last) == net; }
      } else {
        HistoryStep(net, before, ledger[|ledger| - 1]);
      }
    }
  }

  lemma HistoryStep(net: Network, before: seq<Baseline>, next: Baseline)
    requires before != [] && LedgerValid(before) && LedgerValid([next])
    requires History(net, before) == (net - EverOwned(before)) + States(before[|before| - 1].body.manifest)
    ensures Applied(History(net, before), Newest(before), next.body.manifest)
         == (net - (EverOwned(before) + States(next.body.manifest).Keys)) + States(next.body.manifest)
  {
    var newest := before[|before| - 1];
    assert next in [next];
    ApplyConverges(History(net, before), newest, next.body.manifest);
    ExchangeIsExact(net, EverOwned(before), States(newest.body.manifest), States(next.body.manifest));
  }
}
