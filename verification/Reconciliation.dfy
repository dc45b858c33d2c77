/**
 Ownership-scoped reconciliation (orchestrator/reconciliation.py): the removals
 that lead from the last committed manifest to a new one, and what a whole
 history of such applies leaves on the devices.
 SHA-256 is injective, so a hash is represented by the value that was hashed.
 */
module Reconciliation {
  import opened Basics
  import opened Ordering

  // ----- Manifests -----

  /** The hashed part of a resource. */
  datatype ResourceState = ResourceState(configured: seq<string>, remove: seq<string>, gate: string, forbidden: seq<string>)

  datatype Resource = Resource(key: Id, kind: Id, state: ResourceState, order: int,
                               stateHash: ResourceState, removeHash: seq<string>)

  datatype Descriptor = Descriptor(id: Id, hostname: string, platform: string, version: string,
                                   management: string, roles: seq<string>, credential: string)

  /** One entry of the manifest's `devices` object. */
  datatype DeviceEntry = DeviceEntry(id: Id, descriptor: Descriptor, resources: seq<Resource>)

  /** The names of a JSON object are distinct. */
  predicate IsObject(devices: seq<DeviceEntry>) {
    forall i, j :: 0 <= i < j < |devices| ==> devices[i].id != devices[j].id
  }

  type DeviceObject = s: seq<DeviceEntry> | IsObject(s) witness []

  /** `intent` stands for the hash of the intent that the manifest was built from. */
  datatype ManifestBody = ManifestBody(version: string, scope: string, fabric: Id, intent: string, devices: DeviceObject)

  datatype Manifest = Manifest(body: ManifestBody, hash: ManifestBody)

  datatype ReconciliationError =
    | BadVersion | BadScope | WrongFabric | BadManifestHash | BadDescriptor | BadResource | DuplicateKey
    | BadBaselineHash | HashMismatch | MissingSourceHash

  const VERSION := "1.0"
  const SCOPE := "multicast"

  predicate DescriptorValid(e: DeviceEntry) {
    e.descriptor.id == e.id && e.id != "" && e.descriptor.roles != []
  }

  /** The lists a resource must carry and the two hashes that bind them. */
  predicate ResourceValid(r: Resource) {
    && r.key != "" && r.state.configured != [] && r.state.forbidden != [] && r.state.remove != []
    && r.removeHash == r.state.remove && r.stateHash == r.state
  }

  predicate KeysDistinct(rs: seq<Resource>) {
    forall i, j :: 0 <= i < j < |rs| ==> rs[i].key != rs[j].key
  }

  predicate EntryValid(e: DeviceEntry) {
    DescriptorValid(e) && (forall r :: r in e.resources ==> ResourceValid(r)) && KeysDistinct(e.resources)
  }

  predicate ManifestValid(m: Manifest) {
    && m.body.version == VERSION && m.body.scope == SCOPE && m.hash == m.body
    && forall e :: e in m.body.devices ==> EntryValid(e)
  }

  /** `validate_owned_state`: raises, or accepts exactly the valid manifests of the fabric. */
  method ValidateOwnedState(m: Manifest, fabric: Option<Id>) returns (error: Option<ReconciliationError>)
    ensures error == None <==> ManifestValid(m) && (fabric.Some? ==> m.body.fabric == fabric.value)
  {
    if m.body.version != VERSION { return Some(BadVersion); }
    if m.body.scope != SCOPE { return Some(BadScope); }
    if fabric.Some? && m.body.fabric != fabric.value { return Some(WrongFabric); }
    if m.hash != m.body { return Some(BadManifestHash); }
    var devices := m.body.devices;
    for i := 0 to |devices|
      invariant forall k :: 0 <= k < i ==> EntryValid(devices[k])
    {
      error := ValidateEntry(devices[i]);
      if error.Some? { return; }
    }
    return None;
  }

  method ValidateEntry(e: DeviceEntry) returns (error: Option<ReconciliationError>)
    ensures error == None <==> EntryValid(e)
  {
    if !DescriptorValid(e) { return Some(BadDescriptor); }
    var keys: set<Id> := {};
    var repeated := false;
    for i := 0 to |e.resources|
      invariant forall k :: 0 <= k < i ==> ResourceValid(e.resources[k])
      invariant forall k :: k in keys <==> exists j :: 0 <= j < i && e.resources[j].key == k
      invariant repeated <==> exists a, b :: 0 <= a < b < i && e.resources[a].key == e.resources[b].key
    {
      if !ResourceValid(e.resources[i]) { return Some(BadResource); }
      repeated := repeated || e.resources[i].key in keys;
      keys := keys + {e.resources[i].key};
    }
    return if repeated then Some(DuplicateKey) else None;
  }

  // ----- Baselines -----

  datatype Source = SuccessfulApply | AdoptedDiscovery

  /** `source_reference`: the run that applied the manifest, or the change that adopted it. */
  datatype Reference = RunReference(run: Id) | AdoptionReference(change: string, manifest: ManifestBody)

  datatype BaselineBody = BaselineBody(source: Source, reference: Reference, manifest: Manifest, manifestHash: ManifestBody,
                                       artifact: Option<string>, evidence: Option<string>)
  datatype Baseline = Baseline(body: BaselineBody, hash: BaselineBody)

  function MakeBaseline(m: Manifest, source: Source, reference: Reference, artifact: Option<string>, evidence: Option<string>): Baseline {
    var body := BaselineBody(source, reference, m, m.hash, artifact, evidence);
    Baseline(body, body)
  }

  /** A SHA-256 digest in hexadecimal, in either case. */
  predicate IsDigest(s: string) {
    |s| == 64 && forall c :: c in s ==> '0' <= c <= '9' || 'a' <= c <= 'f' || 'A' <= c <= 'F'
  }

  /** The hash that a baseline must carry for its kind of source. */
  predicate SourceProven(source: Source, artifact: Option<string>, evidence: Option<string>) {
    && (source == SuccessfulApply ==> artifact.Some? && IsDigest(artifact.value))
    && (source == AdoptedDiscovery ==> evidence.Some? && IsDigest(evidence.value))
  }

  ghost predicate BaselineValid(b: Baseline, fabric: Id) {
    && b.hash == b.body
    && ManifestValid(b.body.manifest) && b.body.manifest.body.fabric == fabric
    && b.body.manifestHash == b.body.manifest.hash
    && SourceProven(b.body.source, b.body.artifact, b.body.evidence)
  }

  method ValidateBaseline(b: Baseline, fabric: Id) returns (error: Option<ReconciliationError>)
    ensures error == None <==> BaselineValid(b, fabric)
  {
    if b.hash != b.body { return Some(BadBaselineHash); }
    error := ValidateOwnedState(b.body.manifest, Some(fabric));
    if error.Some? { return; }
    if b.body.manifestHash != b.body.manifest.hash { return Some(HashMismatch); }
    if b.body.source == SuccessfulApply {
      if b.body.artifact.None? || !IsDigest(b.body.artifact.value) { return Some(MissingSourceHash); }
    }
    if b.body.source == AdoptedDiscovery {
      if b.body.evidence.None? || !IsDigest(b.body.evidence.value) { return Some(MissingSourceHash); }
    }
    return None;
  }

  /** What `make_baseline` produces from a valid manifest is valid for its fabric exactly when it carries a digest for its source. */
  lemma MadeBaselineIsValid(m: Manifest, source: Source, reference: Reference, artifact: Option<string>, evidence: Option<string>)
    requires ManifestValid(m)
    ensures BaselineValid(MakeBaseline(m, source, reference, artifact, evidence), m.body.fabric) <==>
              SourceProven(source, artifact, evidence)
  {
  }

  // ----- The diff -----

  /** A resource on its device. */
  datatype Entry = Entry(device: Id, resource: Resource)

  type Key = (Id, Id)

  function KeyOf(e: Entry): Key { (e.device, e.resource.key) }

  function OnDevice(d: Id, rs: seq<Resource>): seq<Entry> {
    seq(|rs|, i requires 0 <= i < |rs| => Entry(d, rs[i]))
  }

  function Entries(devices: seq<DeviceEntry>): seq<Entry> {
    if devices == [] then [] else OnDevice(devices[0].id, devices[0].resources) + Entries(devices[1..])
  }

  /** The dictionary keyed by device and resource key; a later entry would replace an earlier one. */
  function ByKey(entries: seq<Entry>): map<Key, Resource> {
    if entries == [] then map[]
    else
      var last := entries[|entries| - 1];
      ByKey(entries[..|entries| - 1])[KeyOf(last) := last.resource]
  }

  /** Gone from the new manifest, or there with another state. */
  predicate Stale(current: map<Key, Resource>, e: Entry) {
    KeyOf(e) !in current || current[KeyOf(e)].stateHash != e.resource.stateHash
  }

  function StaleEntries(current: map<Key, Resource>, entries: seq<Entry>): seq<Entry> {
    if entries == [] then []
    else (if Stale(current, entries[0]) then [entries[0]] else []) + StaleEntries(current, entries[1..])
  }

  /** The removal order: by device, then descending `remove_order`, then key. */
  predicate EntryLe(a: Entry, b: Entry) {
    if a.device != b.device then StringLe(a.device, b.device)
    else if a.resource.order != b.resource.order then a.resource.order > b.resource.order
    else StringLe(a.resource.key, b.resource.key)
  }

  datatype Block = Block(key: Id, commands: seq<string>, commandHash: seq<string>)
  datatype Gate = Gate(device: Id, key: Id, command: string, absent: seq<string>)
  datatype Delta = Delta(descriptor: Descriptor, blocks: seq<Block>, gates: seq<Gate>)

  datatype Reconciliation =
    | BaselineMissing
    | Ready(baselineHash: BaselineBody, previousHash: ManifestBody, currentHash: ManifestBody,
            staleCount: nat, devices: map<Id, Delta>)

  function BlockOf(r: Resource): Block { Block(r.key, r.state.remove, r.removeHash) }
  function GateOf(d: Id, r: Resource): Gate { Gate(d, r.key, r.state.gate, r.state.forbidden) }

  /** `previous["devices"][device_id]["device"]`. */
  function DescriptorOf(devices: seq<DeviceEntry>, d: Id): Descriptor {
    if devices == [] then Descriptor(d, "", "", "", "", [], "")
    else if devices[0].id == d then devices[0].descriptor
    else DescriptorOf(devices[1..], d)
  }

  function Append(devices: seq<DeviceEntry>, acc: map<Id, Delta>, e: Entry): map<Id, Delta> {
    var delta := if e.device in acc then acc[e.device] else Delta(DescriptorOf(devices, e.device), [], []);
    acc[e.device := delta.(blocks := delta.blocks + [BlockOf(e.resource)],
                           gates := delta.gates + [GateOf(e.device, e.resource)])]
  }

  function Group(devices: seq<DeviceEntry>, sorted: seq<Entry>): map<Id, Delta> {
    if sorted == [] then map[]
    else Append(devices, Group(devices, sorted[..|sorted| - 1]), sorted[|sorted| - 1])
  }

  function Removals(previous: Manifest, current: Manifest): seq<Entry> {
    Sort(StaleEntries(ByKey(Entries(current.body.devices)), Entries(previous.body.devices)), EntryLe)
  }

  function Reconcile(baseline: Option<Baseline>, current: Manifest): Reconciliation {
    if baseline.None? then BaselineMissing
    else
      var previous := baseline.value.body.manifest;
      var removals := Removals(previous, current);
      Ready(baseline.value.hash, previous.hash, current.hash, |removals|, Group(previous.body.devices, removals))
  }

  /** `build_multicast_reconciliation`: dictionaries, a comprehension, a sort and a grouping loop. */
  method BuildReconciliation(baseline: Option<Baseline>, current: Manifest) returns (r: Result<Reconciliation, ReconciliationError>)
    ensures r.Ok? <==> ManifestValid(current) && (baseline.Some? ==> BaselineValid(baseline.value, current.body.fabric))
    ensures r.Ok? ==> r.value == Reconcile(baseline, current)
  {
    var error := ValidateOwnedState(current, None);
    if error.Some? { return Err(error.value); }
    if baseline.None? { return Ok(BaselineMissing); }
    error := ValidateBaseline(baseline.value, current.body.fabric);
    if error.Some? { return Err(error.value); }
    var previous := baseline.value.body.manifest;
    var dictionary := CollectResources(current.body.devices);
    var stale := CollectStale(dictionary, Entries(previous.body.devices));
    var removals := Sort(stale, EntryLe);
    SortIsPermutation(stale, EntryLe);
    var devices := GroupRemovals(previous.body.devices, removals);
    return Ok(Ready(baseline.value.hash, previous.hash, current.hash, |stale|, devices));
  }

  method GroupRemovals(previous: seq<DeviceEntry>, removals: seq<Entry>) returns (devices: map<Id, Delta>)
    ensures devices == Group(previous, removals)
  {
    devices := map[];
    for i := 0 to |removals|
      invariant devices == Group(previous, removals[..i])
    {
      assert removals[..i + 1][..i] == removals[..i];
      devices := Append(previous, devices, removals[i]);
    }
    assert removals[..|removals|] == removals;
  }

  method CollectResources(devices: seq<DeviceEntry>) returns (dictionary: map<Key, Resource>)
    ensures dictionary == ByKey(Entries(devices))
  {
    dictionary := map[];
    ghost var done: seq<Entry> := [];
    for i := 0 to |devices|
      invariant dictionary == ByKey(done) && done + Entries(devices[i..]) == Entries(devices)
    {
      EntriesStep(devices, i, done);
      dictionary := CollectDevice(dictionary, done, devices[i].id, devices[i].resources);
      done := done + OnDevice(devices[i].id, devices[i].resources);
    }
    assert done == Entries(devices);
  }

  lemma EntriesStep(devices: seq<DeviceEntry>, i: nat, done: seq<Entry>)
    requires i < |devices| && done + Entries(devices[i..]) == Entries(devices)
    ensures done + OnDevice(devices[i].id, devices[i].resources) + Entries(devices[i + 1..]) == Entries(devices)
  {
    assert devices[i..][1..] == devices[i + 1..];
    Grouped(done, OnDevice(devices[i].id, devices[i].resources), Entries(devices[i + 1..]));
  }

  lemma Grouped<T>(a: seq<T>, b: seq<T>, c: seq<T>)
    ensures a + b + c == a + (b + c)
  {
  }

  method CollectDevice(before: map<Key, Resource>, ghost done: seq<Entry>, d: Id, rs: seq<Resource>) returns (dictionary: map<Key, Resource>)
    requires before == ByKey(done)
    ensures dictionary == ByKey(done + OnDevice(d, rs))
  {
    dictionary := before;
    ghost var added := OnDevice(d, rs);
    assert done + added[..0] == done;
    for j := 0 to |rs|
      invariant dictionary == ByKey(done + added[..j])
    {
      var e := Entry(d, rs[j]);
      ghost var next := done + added[..j + 1];
      assert next[..|next| - 1] == done + added[..j] && next[|next| - 1] == e;
      dictionary := dictionary[KeyOf(e) := rs[j]];
    }
    assert added[..|rs|] == added;
  }

  method CollectStale(current: map<Key, Resource>, entries: seq<Entry>) returns (stale: seq<Entry>)
    ensures stale == StaleEntries(current, entries)
  {
    stale := [];
    for i := 0 to |entries|
      invariant stale + StaleEntries(current, entries[i..]) == StaleEntries(current, entries)
    {
      assert entries[i..][1..] == entries[i + 1..];
      if Stale(current, entries[i]) {
        Grouped(stale, [entries[i]], StaleEntries(current, entries[i + 1..]));
        stale := stale + [entries[i]];
      }
    }
  }
}
