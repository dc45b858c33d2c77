/**
 Phase planning (orchestrator/planner.py), which device is rendered which phases
 (orchestrator/renderer.py) and which gate belongs to which phase (orchestrator/gates.py).
 Command text and device output are opaque: the block builders and the gate tables are
 arbitrary functions of device and phase, under the conditions the source puts on them.
 */
module Planning {
  import opened Basics
  import opened Ordering
  import Reconciliation

  datatype PhaseId =
    | Precheck | Checkpoint | MulticastReconciliation | Underlay | LispControlPlane | LispEdges | Overlay
    | BorderHandoff | SharedServices | Multicast | PolicyPlane | EndpointAssurance

  datatype Phase = Phase(id: PhaseId, dependsOn: seq<PhaseId>, targets: seq<Id>)

  datatype Role = FabricEdge | Border | ControlPlane | OtherRole(name: string)
  datatype Node = Node(id: Id, roles: set<Role>)

  /** The parts of an intent that decide which phases there are. */
  datatype Design = Design(
    devices: seq<Node>, fusions: seq<Id>, handoff: bool, sharedServices: bool,
    multicast: bool, native: bool, policyPlane: bool, subscribers: set<Id>,
    multicastTargets: set<Id>, policyTargets: set<Id>)

  type Deltas = map<Id, Reconciliation.Delta>

  /** `reconciliation_ready and reconciliation_targets`. */
  predicate AnyStale(deltas: Deltas) { deltas.Keys != {} }

  function DeltasOf(r: Reconciliation.Reconciliation): Deltas {
    if r.Ready? then r.devices else map[]
  }

  // ----- The renderer's re-check -----

  /** What the plan carries of the reconciliation it was made with. */
  datatype PlannedDelta = PlannedDelta(ready: bool, baselineHash: Option<Reconciliation.BaselineBody>,
                                       hash: Option<Reconciliation.Reconciliation>)

  function Summary(r: Reconciliation.Reconciliation): PlannedDelta {
    if r.Ready? then PlannedDelta(true, Some(r.baselineHash), Some(r)) else PlannedDelta(false, None, None)
  }

  /** The renderer rebuilds the reconciliation and compares status, baseline hash and delta hash. */
  method Recheck(planned: PlannedDelta, rebuilt: Reconciliation.Reconciliation) returns (ok: bool)
    ensures ok <==> planned == Summary(rebuilt)
  {
    if planned.ready != rebuilt.Ready? { return false; }
    if planned.baselineHash != (if rebuilt.Ready? then Some(rebuilt.baselineHash) else None) { return false; }
    return planned.hash == if rebuilt.Ready? then Some(rebuilt) else None;
  }

  /**
   The re-check pins what the plan was made from: with intact baselines and manifests it
   passes exactly when the renderer was given the very baseline of the plan and rebuilt the
   very manifest (or no baseline both times), not merely one with the same removals.
   */
  lemma RecheckPinsItsInputs(baseline: Option<Reconciliation.Baseline>, current: Reconciliation.Manifest,
                             baseline': Option<Reconciliation.Baseline>, current': Reconciliation.Manifest)
    requires Reconciliation.ManifestValid(current) && Reconciliation.ManifestValid(current')
    requires baseline.Some? ==> Reconciliation.BaselineValid(baseline.value, current.body.fabric)
    requires baseline'.Some? ==> Reconciliation.BaselineValid(baseline'.value, current'.body.fabric)
    ensures Summary(Reconciliation.Reconcile(baseline, current)) == Summary(Reconciliation.Reconcile(baseline', current')) <==>
              baseline == baseline' && (baseline.Some? ==> current == current')
  {
    var planned, rebuilt := Reconciliation.Reconcile(baseline, current), Reconciliation.Reconcile(baseline', current');
    if planned.Ready? && rebuilt.Ready? && Summary(planned) == Summary(rebuilt) {
      assert Summary(planned).hash == Some(planned) && Summary(rebuilt).hash == Some(rebuilt);
      assert baseline.value.body == planned.baselineHash == rebuilt.baselineHash == baseline'.value.body;
      assert current.body == planned.currentHash == rebuilt.currentHash == current'.body;
    }
  }

  // ----- The plan -----

  function NodeIds(s: seq<Node>): set<Id> { set n | n in s :: n.id }
  function WithRole(s: seq<Node>, r: Role): set<Id> { set n | n in s && r in n.roles :: n.id }
  function FusionIds(d: Design): set<Id> { set f | f in d.fusions }

  /** Whom each phase concerns: what the documentation's phase table says. */
  function TargetsOf(d: Design, deltas: Deltas, p: PhaseId): set<Id> {
    match p
    case Precheck => NodeIds(d.devices) + FusionIds(d) + deltas.Keys
    case Checkpoint => NodeIds(d.devices) + FusionIds(d) + deltas.Keys
    case MulticastReconciliation => deltas.Keys
    case Underlay => NodeIds(d.devices)
    case LispControlPlane => WithRole(d.devices, ControlPlane)
    case LispEdges => WithRole(d.devices, FabricEdge)
    case Overlay => WithRole(d.devices, FabricEdge) + WithRole(d.devices, Border)
    case BorderHandoff => WithRole(d.devices, Border) + FusionIds(d)
    case SharedServices => FusionIds(d)
    case Multicast => d.multicastTargets
    case PolicyPlane => d.policyTargets
    case EndpointAssurance => NodeIds(d.devices)
  }

  /** Phases of these ids: each depends on the one before it, the first on `first`; each is for its own targets, sorted. */
  function PhaseList(targets: PhaseId -> set<Id>, ids: seq<PhaseId>, first: seq<PhaseId>): seq<Phase> {
    seq(|ids|, i requires 0 <= i < |ids| => Phase(ids[i], if i == 0 then first else [ids[i - 1]], SortedIds(targets(ids[i]))))
  }

  lemma ListsJoin(targets: PhaseId -> set<Id>, a: seq<PhaseId>, b: seq<PhaseId>, first: seq<PhaseId>)
    requires a != []
    ensures PhaseList(targets, a + b, first) == PhaseList(targets, a, first) + PhaseList(targets, b, [a[|a| - 1]])
  {
  }

  function PhaseTargets(d: Design, deltas: Deltas): PhaseId -> set<Id> { p => TargetsOf(d, deltas, p) }

  /** The ids a plan must have, in order: what the documentation's phase table says. */
  function OptionalIds(d: Design): seq<PhaseId> {
    (if d.sharedServices then [SharedServices] else []) + (if d.multicast then [Multicast] else [])
    + (if d.policyPlane then [PolicyPlane] else []) + [EndpointAssurance]
  }

  function OpeningIds(stale: bool): seq<PhaseId> {
    [Precheck, Checkpoint] + if stale then [MulticastReconciliation] else []
  }

  const CORE_IDS: seq<PhaseId> := [Underlay, LispControlPlane, LispEdges, Overlay, BorderHandoff]

  function PlannedIds(d: Design, stale: bool): seq<PhaseId> {
    OpeningIds(stale) + CORE_IDS + OptionalIds(d)
  }

  /** `create_plan`: the feature-dependent phases, each appended behind the last. */
  method CreatePhases(d: Design, deltas: Deltas) returns (phases: seq<Phase>)
    ensures phases == PhaseList(PhaseTargets(d, deltas), PlannedIds(d, AnyStale(deltas)), [])
  {
    var devices, fusions, controlPlane := NodeIds(d.devices), FusionIds(d), WithRole(d.devices, ControlPlane);
    var edges, borders := WithRole(d.devices, FabricEdge), WithRole(d.devices, Border);
    phases := AllPhases(d, AnyStale(deltas), devices + fusions + deltas.Keys, deltas.Keys, devices, controlPlane, edges, edges + borders,
                        borders + fusions, fusions, PhaseTargets(d, deltas));
  }

  method AllPhases(d: Design, stale: bool, all: set<Id>, retired: set<Id>, devices: set<Id>, controlPlane: set<Id>, edges: set<Id>,
                   fabric: set<Id>, handoff: set<Id>, fusions: set<Id>, ghost t: PhaseId -> set<Id>)
    returns (phases: seq<Phase>)
    requires t(Precheck) == t(Checkpoint) == all && t(MulticastReconciliation) == retired
    requires t(Underlay) == t(EndpointAssurance) == devices && t(LispControlPlane) == controlPlane && t(LispEdges) == edges
    requires t(Overlay) == fabric && t(BorderHandoff) == handoff
    requires t(SharedServices) == fusions && t(Multicast) == d.multicastTargets && t(PolicyPlane) == d.policyTargets
    ensures phases == PhaseList(t, PlannedIds(d, stale), [])
  {
    ghost var ids := OpeningIds(stale);
    phases := OpeningPhases(stale, all, retired, t);
    var core := CorePhases(phases[|phases| - 1].id, devices, controlPlane, edges, fabric, handoff, t);
    var tail := OptionalPhases(d, devices, fusions, t);
    ListsJoin(t, ids, CORE_IDS, []);
    ListsJoin(t, ids + CORE_IDS, OptionalIds(d), []);
    phases := phases + core + tail;
  }

  /** One phase appended behind the last. */
  method AddPhase(phases: seq<Phase>, id: PhaseId, dependency: seq<PhaseId>, targets: set<Id>,
                  ghost t: PhaseId -> set<Id>, ghost ids: seq<PhaseId>, ghost first: seq<PhaseId>)
    returns (longer: seq<Phase>, ghost ids': seq<PhaseId>)
    requires phases == PhaseList(t, ids, first)
    requires dependency == (if ids == [] then first else [ids[|ids| - 1]]) && targets == t(id)
    ensures ids' == ids + [id] && longer == PhaseList(t, ids', first)
  {
    longer, ids' := phases + [Phase(id, dependency, SortedIds(targets))], ids + [id];
  }

  method OpeningPhases(stale: bool, all: set<Id>, retired: set<Id>, ghost t: PhaseId -> set<Id>) returns (phases: seq<Phase>)
    requires t(Precheck) == t(Checkpoint) == all && t(MulticastReconciliation) == retired
    ensures phases == PhaseList(t, OpeningIds(stale), [])
  {
    ghost var ids: seq<PhaseId>;
    phases, ids := AddPhase([], Precheck, [], all, t, [], []);
    phases, ids := AddPhase(phases, Checkpoint, [Precheck], all, t, ids, []);
    if stale {
      phases, ids := AddPhase(phases, MulticastReconciliation, [Checkpoint], retired, t, ids, []);
    }
    assert ids == OpeningIds(stale);
  }

  method CorePhases(underlayDependency: PhaseId, devices: set<Id>, controlPlane: set<Id>, edges: set<Id>, fabric: set<Id>, handoff: set<Id>,
                    ghost t: PhaseId -> set<Id>) returns (phases: seq<Phase>)
    requires t(Underlay) == devices && t(LispControlPlane) == controlPlane && t(LispEdges) == edges
    requires t(Overlay) == fabric && t(BorderHandoff) == handoff
    ensures phases == PhaseList(t, CORE_IDS, [underlayDependency])
  {
    ghost var ids: seq<PhaseId>, first := [], [underlayDependency];
    phases, ids := AddPhase([], Underlay, [underlayDependency], devices, t, ids, first);
    phases, ids := AddPhase(phases, LispControlPlane, [Underlay], controlPlane, t, ids, first);
    phases, ids := AddPhase(phases, LispEdges, [LispControlPlane], edges, t, ids, first);
    phases, ids := AddPhase(phases, Overlay, [LispEdges], fabric, t, ids, first);
    phases, ids := AddPhase(phases, BorderHandoff, [Overlay], handoff, t, ids, first);
    assert ids == CORE_IDS;
  }

  /** The phases behind the handoff: `assurance_dependency` follows what was appended. */
  method OptionalPhases(d: Design, devices: set<Id>, fusions: set<Id>, ghost t: PhaseId -> set<Id>) returns (phases: seq<Phase>)
    requires t(SharedServices) == fusions && t(Multicast) == d.multicastTargets && t(PolicyPlane) == d.policyTargets
    requires t(EndpointAssurance) == devices
    ensures phases == PhaseList(t, OptionalIds(d), [BorderHandoff])
  {
    phases := [];
    var assuranceDependency := BorderHandoff;
    ghost var ids: seq<PhaseId> := [];
    if d.sharedServices {
      phases, ids := AddPhase(phases, SharedServices, [BorderHandoff], fusions, t, ids, [BorderHandoff]);
      assuranceDependency := SharedServices;
    }
    if d.multicast {
      phases, ids := AddPhase(phases, Multicast, [assuranceDependency], d.multicastTargets, t, ids, [BorderHandoff]);
      assuranceDependency := Multicast;
    }
    if d.policyPlane {
      phases, ids := AddPhase(phases, PolicyPlane, [assuranceDependency], d.policyTargets, t, ids, [BorderHandoff]);
      assuranceDependency := PolicyPlane;
    }
    phases, ids := AddPhase(phases, EndpointAssurance, [assuranceDependency], devices, t, ids, [BorderHandoff]);
    assert ids == OptionalIds(d);
  }

  // ----- Rendered phases -----

  datatype Block = Block(id: string, commands: seq<string>)
  datatype ArtifactPhase = ArtifactPhase(id: PhaseId, blocks: seq<Block>)

  /** The command text of the block builders. */
  type Builder = (Id, PhaseId) -> seq<Block>

  function RemovalBlocks(delta: Reconciliation.Delta): seq<Block> {
    seq(|delta.blocks|, i requires 0 <= i < |delta.blocks| => Block(delta.blocks[i].key, delta.blocks[i].commands))
  }

  /** A phase, and whether the renderer appends it. */
  datatype Row = Row(appended: bool, phase: ArtifactPhase)

  function Appended(rows: seq<Row>): seq<ArtifactPhase> {
    if rows == [] then [] else (if rows[0].appended then [rows[0].phase] else []) + Appended(rows[1..])
  }

  function Removal(deltas: Deltas, device: Id): Row {
    Row(device in deltas, ArtifactPhase(MulticastReconciliation, if device in deltas then RemovalBlocks(deltas[device]) else []))
  }

  /** A phase whose builder returns nothing without the feature, and which is appended only with blocks. */
  function Featured(on: bool, id: PhaseId, b: Builder, device: Id): Row {
    Row(on && b(device, id) != [], ArtifactPhase(id, b(device, id)))
  }

  /** A phase that is appended for the role, without blocks when the feature is off. */
  function Built(role: bool, on: bool, id: PhaseId, b: Builder, device: Id): Row {
    Row(role, ArtifactPhase(id, if on then b(device, id) else []))
  }

  /** The phases of a fabric device, in the order the renderer appends them. */
  function DeviceRows(d: Design, deltas: Deltas, b: Builder, n: Node): seq<Row> {
    DeviceRowList(d, Removal(deltas, n.id), b, n)
  }

  function DeviceRowList(d: Design, removal: Row, b: Builder, n: Node): seq<Row> {
    [removal,
     Built(true, true, Underlay, b, n.id),
     Built(ControlPlane in n.roles, true, LispControlPlane, b, n.id),
     Built(FabricEdge in n.roles, true, LispEdges, b, n.id),
     Built(FabricEdge in n.roles || Border in n.roles, true, Overlay, b, n.id),
     Featured(d.multicast && d.native, Multicast, b, n.id),
     Featured(d.policyPlane, PolicyPlane, b, n.id),
     Built(Border in n.roles, d.handoff, BorderHandoff, b, n.id)]
  }

  function FusionRows(d: Design, deltas: Deltas, b: Builder, f: Id): seq<Row> {
    [Removal(deltas, f),
     Built(true, d.handoff, BorderHandoff, b, f),
     Built(true, d.sharedServices, SharedServices, b, f),
     Featured(d.multicast && d.native, Multicast, b, f)]
  }

  function RenderDevice(d: Design, deltas: Deltas, b: Builder, n: Node): seq<ArtifactPhase> {
    Appended(DeviceRows(d, deltas, b, n))
  }

  function RenderFusion(d: Design, deltas: Deltas, b: Builder, f: Id): seq<ArtifactPhase> {
    Appended(FusionRows(d, deltas, b, f))
  }

  type Rendered = map<Id, seq<ArtifactPhase>>

  function RenderDevices(d: Design, deltas: Deltas, b: Builder, nodes: seq<Node>, acc: Rendered): Rendered {
    if nodes == [] then acc
    else RenderDevices(d, deltas, b, nodes[1..], acc[nodes[0].id := RenderDevice(d, deltas, b, nodes[0])])
  }

  function RenderFusions(d: Design, deltas: Deltas, b: Builder, fusions: seq<Id>, acc: Rendered): Rendered {
    if fusions == [] then acc
    else RenderFusions(d, deltas, b, fusions[1..], acc[fusions[0] := RenderFusion(d, deltas, b, fusions[0])])
  }

  /** Baseline devices that the new intent no longer has get their removals and nothing else. */
  function RenderRetired(deltas: Deltas, ids: seq<Id>, acc: Rendered): Rendered {
    if ids == [] then acc
    else RenderRetired(deltas, ids[1..], if ids[0] in acc then acc else acc[ids[0] := Appended([Removal(deltas, ids[0])])])
  }

  predicate NodeLe(a: Node, b: Node) { StringLe(a.id, b.id) }

  function Render(d: Design, deltas: Deltas, b: Builder): Rendered {
    var active := RenderDevices(d, deltas, b, Sort(d.devices, NodeLe), map[]);
    RenderRetired(deltas, SortedIds(deltas.Keys), RenderFusions(d, deltas, b, Sort(d.fusions, StringLe), active))
  }

  /** `render_configuration`'s loops over devices, fusion nodes and retired targets. */
  method RenderConfiguration(d: Design, deltas: Deltas, b: Builder) returns (artifacts: Rendered)
    ensures artifacts == Render(d, deltas, b)
  {
    var active := RenderDeviceLoop(d, deltas, b, Sort(d.devices, NodeLe));
    var current := RenderFusionLoop(d, deltas, b, Sort(d.fusions, StringLe), active);
    artifacts := RenderRetiredLoop(deltas, current);
  }

  method RenderDeviceLoop(d: Design, deltas: Deltas, b: Builder, devices: seq<Node>) returns (artifacts: Rendered)
    ensures artifacts == RenderDevices(d, deltas, b, devices, map[])
  {
    artifacts := map[];
    for i := 0 to |devices|
      invariant RenderDevices(d, deltas, b, devices[i..], artifacts) == RenderDevices(d, deltas, b, devices, map[])
    {
      assert devices[i..][1..] == devices[i + 1..];
      artifacts := artifacts[devices[i].id := RenderDevice(d, deltas, b, devices[i])];
    }
  }

  method RenderFusionLoop(d: Design, deltas: Deltas, b: Builder, fusions: seq<Id>, active: Rendered) returns (artifacts: Rendered)
    ensures artifacts == RenderFusions(d, deltas, b, fusions, active)
  {
    artifacts := active;
    for i := 0 to |fusions|
      invariant RenderFusions(d, deltas, b, fusions[i..], artifacts) == RenderFusions(d, deltas, b, fusions, active)
    {
      assert fusions[i..][1..] == fusions[i + 1..];
      artifacts := artifacts[fusions[i] := RenderFusion(d, deltas, b, fusions[i])];
    }
  }

  method RenderRetiredLoop(deltas: Deltas, current: Rendered) returns (artifacts: Rendered)
    ensures artifacts == RenderRetired(deltas, SortedIds(deltas.Keys), current)
  {
    artifacts := current;
    var retired := SortedIds(deltas.Keys);
    for i := 0 to |retired|
      invariant RenderRetired(deltas, retired[i..], artifacts) == RenderRetired(deltas, retired, current)
    {
      assert retired[i..][1..] == retired[i + 1..];
      if retired[i] !in artifacts {
        artifacts := artifacts[retired[i] := Appended([Removal(deltas, retired[i])])];
      }
    }
  }

  // ----- Phase coverage -----

  /** Whether the plan has the phase. */
  predicate Planned(d: Design, stale: bool, p: PhaseId) {
    && (p == MulticastReconciliation ==> stale)
    && (p == SharedServices ==> d.sharedServices)
    && (p == Multicast ==> d.multicast)
    && (p == PolicyPlane ==> d.policyPlane)
  }

  lemma OptionalExact(d: Design, p: PhaseId)
    ensures p in OptionalIds(d) <==> || (p == SharedServices && d.sharedServices) || (p == Multicast && d.multicast)
                                     || (p == PolicyPlane && d.policyPlane) || p == EndpointAssurance
  {
  }

  lemma PlannedExact(d: Design, stale: bool, p: PhaseId)
    ensures p in PlannedIds(d, stale) <==> Planned(d, stale, p)
  {
    OptionalExact(d, p);
    assert p in PlannedIds(d, stale) <==> p in OpeningIds(stale) || p in CORE_IDS || p in OptionalIds(d);
  }

  /** At most one artifact phase per id; every non-empty one is a plan phase the worker executes. */
  ghost predicate Covered(phases: seq<ArtifactPhase>, d: Design, stale: bool) {
    && (forall i, j :: 0 <= i < j < |phases| ==> phases[i].id != phases[j].id)
    && (forall p :: p in phases && p.blocks != [] ==> Planned(d, stale, p.id) && Executed(p.id))
  }

  /** Not one of the three phases that carry no configuration. */
  predicate Executed(p: PhaseId) { p != Precheck && p != Checkpoint && p != EndpointAssurance }

  /** Plan phase ids are distinct. */
  lemma PlannedIdsDistinct(d: Design, stale: bool)
    ensures forall i, j :: 0 <= i < j < |PlannedIds(d, stale)| ==> PlannedIds(d, stale)[i] != PlannedIds(d, stale)[j]
  {
    var o := OptionalIds(d);
    assert o == (if d.sharedServices then [SharedServices] else []) + ((if d.multicast then [Multicast] else [])
      + ((if d.policyPlane then [PolicyPlane] else []) + [EndpointAssurance]));
  }

  predicate RowPlanned(r: Row, d: Design, stale: bool) {
    r.appended && r.phase.blocks != [] ==> Planned(d, stale, r.phase.id) && Executed(r.phase.id)
  }

  function RowIds(rows: seq<Row>): seq<PhaseId> { seq(|rows|, i requires 0 <= i < |rows| => rows[i].phase.id) }

  ghost predicate AllDifferent(ids: seq<PhaseId>) {
    forall i, j :: 0 <= i < j < |ids| ==> ids[i] != ids[j]
  }

  ghost predicate RowsCovered(rows: seq<Row>, d: Design, stale: bool) {
    AllDifferent(RowIds(rows)) && forall i :: 0 <= i < |rows| ==> RowPlanned(rows[i], d, stale)
  }

  lemma {:induction false} AppendedIsCovered(rows: seq<Row>, d: Design, stale: bool)
    requires RowsCovered(rows, d, stale)
    ensures Covered(Appended(rows), d, stale)
    ensures forall p :: p in Appended(rows) ==> exists r :: r in rows && r.phase == p
  {
    if rows != [] {
      assert forall i :: 0 <= i < |rows[1..]| ==> RowIds(rows[1..])[i] == RowIds(rows)[i + 1];
      AppendedIsCovered(rows[1..], d, stale);
      var rest := Appended(rows[1..]);
      forall p | p in rest ensures p.id != rows[0].phase.id && exists r :: r in rows && r.phase == p {
        var k :| 0 <= k < |rows[1..]| && rows[1..][k].phase == p;
        assert rows[k + 1] in rows && RowIds(rows)[k + 1] != RowIds(rows)[0];
      }
      assert rows[0] in rows;
    }
  }

  lemma DeviceCovered(d: Design, deltas: Deltas, b: Builder, n: Node, stale: bool)
    requires n.id in deltas ==> stale
    ensures Covered(RenderDevice(d, deltas, b, n), d, stale)
  {
    var removal := Removal(deltas, n.id);
    assert removal.appended ==> stale;
    DeviceRowsCovered(d, removal, b, n, stale);
    AppendedIsCovered(DeviceRows(d, deltas, b, n), d, stale);
  }

  lemma AnotherRow(rows: seq<Row>, r: Row, d: Design, stale: bool)
    requires RowsCovered(rows, d, stale) && RowPlanned(r, d, stale) && r.phase.id !in RowIds(rows)
    ensures RowsCovered(rows + [r], d, stale) && RowIds(rows + [r]) == RowIds(rows) + [r.phase.id]
  {
    var all := rows + [r];
    assert RowIds(all) == RowIds(rows) + [r.phase.id];
    assert forall i :: 0 <= i < |rows| ==> RowIds(rows)[i] in RowIds(rows);
    assert forall i :: 0 <= i < |rows| ==> all[i] == rows[i];
  }

  lemma {:induction false} RowsCoveredOneByOne(rows: seq<Row>, ids: seq<PhaseId>, n: nat, d: Design, stale: bool)
    requires |ids| == |rows| && AllDifferent(ids) && n <= |rows|
    requires forall i :: 0 <= i < |rows| ==> rows[i].phase.id == ids[i] && RowPlanned(rows[i], d, stale)
    ensures RowsCovered(rows[..n], d, stale) && RowIds(rows[..n]) == ids[..n]
    decreases n
  {
    if n > 0 {
      RowsCoveredOneByOne(rows, ids, n - 1, d, stale);
      assert rows[..n] == rows[..n - 1] + [rows[n - 1]] && ids[..n] == ids[..n - 1] + [ids[n - 1]];
      AnotherRow(rows[..n - 1], rows[n - 1], d, stale);
    }
  }

  const DEVICE_IDS: seq<PhaseId> := [MulticastReconciliation, Underlay, LispControlPlane, LispEdges, Overlay, Multicast, PolicyPlane, BorderHandoff]

  lemma DeviceIdsDiffer()
    ensures AllDifferent(DEVICE_IDS)
  {
  }

  lemma DeviceRowsCovered(d: Design, removal: Row, b: Builder, n: Node, stale: bool)
    requires removal.phase.id == MulticastReconciliation && (removal.appended ==> stale)
    ensures RowsCovered(DeviceRowList(d, removal, b, n), d, stale)
  {
    var rows := DeviceRowList(d, removal, b, n);
    DeviceIdsDiffer();
    forall i | 0 <= i < 8 ensures rows[i].phase.id == DEVICE_IDS[i] && RowPlanned(rows[i], d, stale) {
      DeviceRowPlanned(d, removal, b, n, stale, i);
    }
    RowsCoveredOneByOne(rows, DEVICE_IDS, 8, d, stale);
    assert rows[..8] == rows;
  }

  lemma DeviceRowPlanned(d: Design, removal: Row, b: Builder, n: Node, stale: bool, i: nat)
    requires removal.phase.id == MulticastReconciliation && (removal.appended ==> stale) && i < 8
    ensures var row := DeviceRowList(d, removal, b, n)[i]; row.phase.id == DEVICE_IDS[i] && RowPlanned(row, d, stale)
  {
  }

  lemma FusionCovered(d: Design, deltas: Deltas, b: Builder, f: Id, stale: bool)
    requires f in deltas ==> stale
    ensures Covered(RenderFusion(d, deltas, b, f), d, stale)
  {
    AppendedIsCovered(FusionRows(d, deltas, b, f), d, stale);
  }

  ghost predicate AllCovered(r: Rendered, d: Design, stale: bool) {
    forall x :: x in r ==> Covered(r[x], d, stale)
  }

  lemma {:induction false} DevicesCovered(d: Design, deltas: Deltas, b: Builder, nodes: seq<Node>, acc: Rendered)
    requires AllCovered(acc, d, AnyStale(deltas))
    ensures AllCovered(RenderDevices(d, deltas, b, nodes, acc), d, AnyStale(deltas))
    decreases |nodes|
  {
    if nodes != [] {
      DeviceCovered(d, deltas, b, nodes[0], AnyStale(deltas));
      DevicesCovered(d, deltas, b, nodes[1..], acc[nodes[0].id := RenderDevice(d, deltas, b, nodes[0])]);
    }
  }

  lemma {:induction false} FusionsCovered(d: Design, deltas: Deltas, b: Builder, fusions: seq<Id>, acc: Rendered)
    requires AllCovered(acc, d, AnyStale(deltas))
    ensures AllCovered(RenderFusions(d, deltas, b, fusions, acc), d, AnyStale(deltas))
    decreases |fusions|
  {
    if fusions != [] {
      FusionCovered(d, deltas, b, fusions[0], AnyStale(deltas));
      FusionsCovered(d, deltas, b, fusions[1..], acc[fusions[0] := RenderFusion(d, deltas, b, fusions[0])]);
    }
  }

  lemma {:induction false} RetiredCovered(d: Design, deltas: Deltas, ids: seq<Id>, acc: Rendered)
    requires AllCovered(acc, d, AnyStale(deltas))
    ensures AllCovered(RenderRetired(deltas, ids, acc), d, AnyStale(deltas))
    ensures forall x :: x in RenderRetired(deltas, ids, acc) <==> x in acc || x in ids
    decreases |ids|
  {
    if ids != [] {
      AppendedIsCovered([Removal(deltas, ids[0])], d, AnyStale(deltas));
      RetiredCovered(d, deltas, ids[1..], if ids[0] in acc then acc else acc[ids[0] := Appended([Removal(deltas, ids[0])])]);
      assert forall x :: x in ids <==> x == ids[0] || x in ids[1..];
    }
  }

  /**
   Phase coverage: for every design, baseline and block builder, each device has at most
   one artifact phase per id, and no rendered block falls outside the plan's phases.
   */
  lemma EveryBlockIsPlanned(d: Design, deltas: Deltas, b: Builder, x: Id, p: ArtifactPhase)
    requires x in Render(d, deltas, b) && p in Render(d, deltas, b)[x] && p.blocks != []
    ensures p.id in PlannedIds(d, AnyStale(deltas)) && Executed(p.id)
    ensures forall q :: q in Render(d, deltas, b)[x] && q.id == p.id ==> q == p
  {
    RenderCovered(d, deltas, b);
    PlannedExact(d, AnyStale(deltas), p.id);
    var phases := Render(d, deltas, b)[x];
    assert Covered(phases, d, AnyStale(deltas));
  }

  lemma RenderCovered(d: Design, deltas: Deltas, b: Builder)
    ensures AllCovered(Render(d, deltas, b), d, AnyStale(deltas))
  {
    var active := RenderDevices(d, deltas, b, Sort(d.devices, NodeLe), map[]);
    DevicesCovered(d, deltas, b, Sort(d.devices, NodeLe), map[]);
    FusionsCovered(d, deltas, b, Sort(d.fusions, StringLe), active);
    RetiredCovered(d, deltas, SortedIds(deltas.Keys), RenderFusions(d, deltas, b, Sort(d.fusions, StringLe), active));
  }
}
