/**
 Which phases a plan has, in which order and for whom, and which phases and gates every single
 device gets: written out on roles, features and removals.
 */
module PlanExact {
  import opened Basics
  import opened Ordering
  import opened Planning
  import opened GatePlan
  import Reconciliation

  // ----- Whom a phase concerns -----

  ghost predicate IsNode(d: Design, x: Id) {
    exists n :: n in d.devices && n.id == x
  }

  ghost predicate HasRole(d: Design, x: Id, r: Role) {
    exists n :: n in d.devices && n.id == x && r in n.roles
  }

  /** The documentation's phase table, device by device. */
  ghost predicate Concerns(d: Design, deltas: Deltas, x: Id, p: PhaseId) {
    || ((p == Precheck || p == Checkpoint) && (IsNode(d, x) || x in d.fusions || x in deltas))
    || (p == MulticastReconciliation && x in deltas)
    || ((p == Underlay || p == EndpointAssurance) && IsNode(d, x))
    || (p == LispControlPlane && HasRole(d, x, ControlPlane))
    || (p == LispEdges && HasRole(d, x, FabricEdge))
    || (p == Overlay && (HasRole(d, x, FabricEdge) || HasRole(d, x, Border)))
    || (p == BorderHandoff && (HasRole(d, x, Border) || x in d.fusions))
    || (p == SharedServices && x in d.fusions)
    || (p == Multicast && x in d.multicastTargets)
    || (p == PolicyPlane && x in d.policyTargets)
  }

  lemma TargetsExact(d: Design, deltas: Deltas, x: Id, p: PhaseId)
    ensures x in TargetsOf(d, deltas, p) <==> Concerns(d, deltas, x, p)
  {
  }

  /** The order in which a plan runs its phases. */
  function Rank(p: PhaseId): nat {
    match p
    case Precheck => 0
    case Checkpoint => 1
    case MulticastReconciliation => 2
    case Underlay => 3
    case LispControlPlane => 4
    case LispEdges => 5
    case Overlay => 6
    case BorderHandoff => 7
    case SharedServices => 8
    case Multicast => 9
    case PolicyPlane => 10
    case EndpointAssurance => 11
  }

  /** Nine phases always; the other three with their feature, the removals when there are any. */
  ghost predicate CalledFor(d: Design, deltas: Deltas, p: PhaseId) {
    && (p == MulticastReconciliation ==> exists x :: x in deltas)
    && (p == SharedServices ==> d.sharedServices) && (p == Multicast ==> d.multicast) && (p == PolicyPlane ==> d.policyPlane)
  }

  ghost predicate HasPhase(phases: seq<Phase>, p: PhaseId) {
    exists i :: 0 <= i < |phases| && phases[i].id == p
  }

  /** The phases called for, each once and in order, each behind the one before it, each for whom it concerns. */
  ghost predicate PlanMeets(d: Design, deltas: Deltas, phases: seq<Phase>) {
    && (forall p :: CalledFor(d, deltas, p) <==> HasPhase(phases, p))
    && (forall i, j :: 0 <= i < j < |phases| ==> Rank(phases[i].id) < Rank(phases[j].id))
    && (forall i :: 0 <= i < |phases| ==> phases[i].dependsOn == if i == 0 then [] else [phases[i - 1].id])
    && (forall i :: 0 <= i < |phases| ==> Ascending(phases[i].targets))
    && (forall i, x :: 0 <= i < |phases| ==> (x in phases[i].targets <==> Concerns(d, deltas, x, phases[i].id)))
  }

  /** In ascending rank, between two ranks. */
  ghost predicate Ranked(ids: seq<PhaseId>, low: nat, high: nat) {
    && (forall i :: 0 <= i < |ids| ==> low <= Rank(ids[i]) <= high)
    && (forall i, j :: 0 <= i < j < |ids| ==> Rank(ids[i]) < Rank(ids[j]))
  }

  lemma RankedJoin(a: seq<PhaseId>, b: seq<PhaseId>, low: nat, mid: nat, high: nat)
    requires Ranked(a, low, mid) && Ranked(b, mid + 1, high)
    ensures low <= mid < high ==> Ranked(a + b, low, high)
  {
  }

  lemma RankedAlone(on: bool, p: PhaseId)
    ensures Ranked(if on then [p] else [], Rank(p), Rank(p))
  {
  }

  lemma FourRanked(a: seq<PhaseId>, b: seq<PhaseId>, c: seq<PhaseId>, e: seq<PhaseId>)
    requires Ranked(a, 8, 8) && Ranked(b, 9, 9) && Ranked(c, 10, 10) && Ranked(e, 11, 11)
    ensures Ranked(a + b + c + e, 8, 11)
  {
    RankedJoin(a, b, 8, 8, 9);
    RankedJoin(a + b, c, 8, 9, 10);
    RankedJoin(a + b + c, e, 8, 10, 11);
  }

  lemma OptionalAreRanked(d: Design)
    ensures Ranked(OptionalIds(d), 8, 11)
  {
    RankedAlone(d.sharedServices, SharedServices);
    RankedAlone(d.multicast, Multicast);
    RankedAlone(d.policyPlane, PolicyPlane);
    RankedAlone(true, EndpointAssurance);
    FourRanked(if d.sharedServices then [SharedServices] else [], if d.multicast then [Multicast] else [],
               if d.policyPlane then [PolicyPlane] else [], [EndpointAssurance]);
  }

  lemma ThreeRanked(a: seq<PhaseId>, b: seq<PhaseId>, c: seq<PhaseId>)
    requires Ranked(a, 0, 2) && Ranked(b, 3, 7) && Ranked(c, 8, 11)
    ensures Ranked(a + b + c, 0, 11)
  {
    RankedJoin(a, b, 0, 2, 7);
    RankedJoin(a + b, c, 0, 7, 11);
  }

  lemma OpeningIsRanked(stale: bool)
    ensures Ranked(OpeningIds(stale), 0, 2)
  {
  }

  lemma CoreIsRanked()
    ensures Ranked(CORE_IDS, 3, 7)
  {
  }

  lemma PlannedIdsAreRanked(d: Design, stale: bool)
    ensures Ranked(PlannedIds(d, stale), 0, 11)
  {
    OpeningIsRanked(stale);
    CoreIsRanked();
    OptionalAreRanked(d);
    ThreeRanked(OpeningIds(stale), CORE_IDS, OptionalIds(d));
  }

  /** The plan of every design is exactly that. */
  lemma PlanIsMet(d: Design, deltas: Deltas)
    ensures PlanMeets(d, deltas, PhaseList(PhaseTargets(d, deltas), PlannedIds(d, AnyStale(deltas)), []))
  {
    PlannedIdsAreRanked(d, AnyStale(deltas));
    forall p ensures CalledFor(d, deltas, p) <==> p in PlannedIds(d, AnyStale(deltas)) {
      PlannedExact(d, AnyStale(deltas), p);
      assert AnyStale(deltas) <==> exists x :: x in deltas.Keys;
    }
    forall p, x ensures x in TargetsOf(d, deltas, p) <==> Concerns(d, deltas, x, p) {
      TargetsExact(d, deltas, x, p);
    }
    ListMeets(d, deltas, PhaseTargets(d, deltas), PlannedIds(d, AnyStale(deltas)));
  }

  lemma ListMeets(d: Design, deltas: Deltas, t: PhaseId -> set<Id>, ids: seq<PhaseId>)
    requires Ranked(ids, 0, 11)
    requires forall p :: CalledFor(d, deltas, p) <==> p in ids
    requires forall p, x :: x in t(p) <==> Concerns(d, deltas, x, p)
    ensures PlanMeets(d, deltas, PhaseList(t, ids, []))
  {
    forall p ensures HasPhase(PhaseList(t, ids, []), p) <==> p in ids { ListHas(t, ids, p); }
  }

  lemma ListHas(t: PhaseId -> set<Id>, ids: seq<PhaseId>, p: PhaseId)
    ensures HasPhase(PhaseList(t, ids, []), p) <==> p in ids
  {
    if p in ids {
      var i :| 0 <= i < |ids| && ids[i] == p;
      assert PhaseList(t, ids, [])[i].id == p;
    }
  }

  // ----- What each device is rendered -----

  /** The removal blocks of a delta, block by block: same key, same commands. */
  ghost predicate RemovalsRendered(blocks: seq<Block>, delta: Reconciliation.Delta) {
    && |blocks| == |delta.blocks|
    && forall i :: 0 <= i < |blocks| ==> blocks[i].id == delta.blocks[i].key && blocks[i].commands == delta.blocks[i].commands
  }

  /** The phases of a device with these roles. */
  ghost predicate DueToNode(d: Design, deltas: Deltas, b: Builder, x: Id, roles: set<Role>, ph: ArtifactPhase) {
    || (ph.id == MulticastReconciliation && x in deltas && RemovalsRendered(ph.blocks, deltas[x]))
    || (ph.id == Underlay && ph.blocks == b(x, Underlay))
    || (ph.id == LispControlPlane && ControlPlane in roles && ph.blocks == b(x, LispControlPlane))
    || (ph.id == LispEdges && FabricEdge in roles && ph.blocks == b(x, LispEdges))
    || (ph.id == Overlay && (FabricEdge in roles || Border in roles) && ph.blocks == b(x, Overlay))
    || (ph.id == BorderHandoff && Border in roles && ph.blocks == if d.handoff then b(x, BorderHandoff) else [])
    || (ph.id == Multicast && d.multicast && d.native && ph.blocks == b(x, Multicast) != [])
    || (ph.id == PolicyPlane && d.policyPlane && ph.blocks == b(x, PolicyPlane) != [])
  }

  ghost predicate DueToFusion(d: Design, deltas: Deltas, b: Builder, x: Id, ph: ArtifactPhase) {
    || (ph.id == MulticastReconciliation && x in deltas && RemovalsRendered(ph.blocks, deltas[x]))
    || (ph.id == BorderHandoff && ph.blocks == if d.handoff then b(x, BorderHandoff) else [])
    || (ph.id == SharedServices && ph.blocks == if d.sharedServices then b(x, SharedServices) else [])
    || (ph.id == Multicast && d.multicast && d.native && ph.blocks == b(x, Multicast) != [])
  }

  lemma RemovalRendersDelta(deltas: Deltas, x: Id, blocks: seq<Block>)
    requires x in deltas
    ensures RemovalsRendered(blocks, deltas[x]) <==> blocks == RemovalBlocks(deltas[x])
  {
  }

  lemma {:induction false} AppendedExact(rows: seq<Row>, ph: ArtifactPhase)
    ensures ph in Appended(rows) <==> exists i :: 0 <= i < |rows| && rows[i].appended && rows[i].phase == ph
    decreases |rows|
  {
    if rows != [] {
      AppendedExact(rows[1..], ph);
      if i :| 0 <= i < |rows| && rows[i].appended && rows[i].phase == ph {
        if i > 0 { assert rows[1..][i - 1] == rows[i]; }
      }
      if i :| 0 <= i < |rows[1..]| && rows[1..][i].appended && rows[1..][i].phase == ph { assert rows[i + 1] == rows[1..][i]; }
    }
  }

  ghost predicate RowGives(row: Row, ph: ArtifactPhase) { row.appended && row.phase == ph }

  lemma NodeRendered(d: Design, deltas: Deltas, b: Builder, n: Node, ph: ArtifactPhase)
    ensures ph in RenderDevice(d, deltas, b, n) <==> DueToNode(d, deltas, b, n.id, n.roles, ph)
  {
    var rows := DeviceRowList(d, Removal(deltas, n.id), b, n);
    AppendedExact(rows, ph);
    if n.id in deltas { RemovalRendersDelta(deltas, n.id, ph.blocks); }
    assert (exists i :: 0 <= i < |rows| && rows[i].appended && rows[i].phase == ph) <==>
           || RowGives(rows[0], ph) || RowGives(rows[1], ph) || RowGives(rows[2], ph) || RowGives(rows[3], ph)
           || RowGives(rows[4], ph) || RowGives(rows[5], ph) || RowGives(rows[6], ph) || RowGives(rows[7], ph);
  }

  lemma FusionRendered(d: Design, deltas: Deltas, b: Builder, f: Id, ph: ArtifactPhase)
    ensures ph in RenderFusion(d, deltas, b, f) <==> DueToFusion(d, deltas, b, f, ph)
  {
    var rows := FusionRows(d, deltas, b, f);
    AppendedExact(rows, ph);
    if f in deltas { RemovalRendersDelta(deltas, f, ph.blocks); }
    assert (exists i :: 0 <= i < |rows| && rows[i].appended && rows[i].phase == ph) <==>
           || RowGives(rows[0], ph) || RowGives(rows[1], ph) || RowGives(rows[2], ph) || RowGives(rows[3], ph);
  }

  ghost predicate NodesDistinct(s: seq<Node>) {
    forall i, j :: 0 <= i < j < |s| ==> s[i].id != s[j].id
  }

  /** The loop over the devices leaves each one's own phases. */
  lemma {:induction false} DevicesRendered(d: Design, deltas: Deltas, b: Builder, nodes: seq<Node>, acc: Rendered, x: Id)
    requires NodesDistinct(nodes)
    ensures var r := RenderDevices(d, deltas, b, nodes, acc);
            && (forall n :: n in nodes && n.id == x ==> x in r && r[x] == RenderDevice(d, deltas, b, n))
            && ((forall n :: n in nodes ==> n.id != x) ==> (x in r <==> x in acc) && (x in acc ==> r[x] == acc[x]))
    decreases |nodes|
  {
    if nodes != [] {
      DevicesRendered(d, deltas, b, nodes[1..], acc[nodes[0].id := RenderDevice(d, deltas, b, nodes[0])], x);
      assert forall n :: n in nodes <==> n == nodes[0] || n in nodes[1..];
    }
  }

  lemma {:induction false} FusionsRendered(d: Design, deltas: Deltas, b: Builder, fusions: seq<Id>, acc: Rendered, x: Id)
    ensures var r := RenderFusions(d, deltas, b, fusions, acc);
            && (x in fusions ==> x in r && r[x] == RenderFusion(d, deltas, b, x))
            && (x !in fusions ==> (x in r <==> x in acc) && (x in acc ==> r[x] == acc[x]))
    decreases |fusions|
  {
    if fusions != [] {
      FusionsRendered(d, deltas, b, fusions[1..], acc[fusions[0] := RenderFusion(d, deltas, b, fusions[0])], x);
      assert x in fusions <==> x == fusions[0] || x in fusions[1..];
    }
  }

  lemma {:induction false} RetiredRendered(deltas: Deltas, ids: seq<Id>, acc: Rendered, x: Id)
    ensures var r := RenderRetired(deltas, ids, acc);
            && (x in acc ==> x in r && r[x] == acc[x])
            && (x !in acc ==> (x in r <==> x in ids) && (x in r ==> r[x] == Appended([Removal(deltas, x)])))
    decreases |ids|
  {
    if ids != [] {
      RetiredRendered(deltas, ids[1..], if ids[0] in acc then acc else acc[ids[0] := Appended([Removal(deltas, ids[0])])], x);
      assert x in ids <==> x == ids[0] || x in ids[1..];
    }
  }

  /** What a device is due: as a node, as a fusion node, or its removals alone once it is neither. */
  ghost predicate Due(d: Design, deltas: Deltas, b: Builder, x: Id, ph: ArtifactPhase) {
    || (exists n :: n in d.devices && n.id == x && DueToNode(d, deltas, b, x, n.roles, ph))
    || (x in d.fusions && DueToFusion(d, deltas, b, x, ph))
    || (x in deltas && !IsNode(d, x) && x !in d.fusions && ph.id == MulticastReconciliation && RemovalsRendered(ph.blocks, deltas[x]))
  }

  ghost predicate DesignIds(d: Design) {
    NodesDistinct(d.devices) && forall n :: n in d.devices ==> n.id !in d.fusions
  }

  lemma SortedNodesDistinct(s: seq<Node>)
    requires NodesDistinct(s)
    ensures NodesDistinct(Sort(s, NodeLe)) && forall n :: n in Sort(s, NodeLe) <==> n in s
  {
    SortIsPermutation(s, NodeLe);
    assert Pairwise(s, (m: Node, n: Node) => m.id != n.id);
    PairwiseAfterReordering(s, Sort(s, NodeLe), (m: Node, n: Node) => m.id != n.id);
  }

  lemma RenderedAs(d: Design, deltas: Deltas, b: Builder, x: Id)
    requires DesignIds(d)
    ensures var r := Render(d, deltas, b);
            && (forall n :: n in d.devices && n.id == x ==> x in r && r[x] == RenderDevice(d, deltas, b, n))
            && (x in d.fusions ==> x in r && r[x] == RenderFusion(d, deltas, b, x))
            && (!IsNode(d, x) && x !in d.fusions ==> (x in r <==> x in deltas) && (x in r ==> r[x] == Appended([Removal(deltas, x)])))
  {
    var nodes, fusions := Sort(d.devices, NodeLe), Sort(d.fusions, StringLe);
    SortedNodesDistinct(d.devices);
    SortIsPermutation(d.fusions, StringLe);
    var active := RenderDevices(d, deltas, b, nodes, map[]);
    DevicesRendered(d, deltas, b, nodes, map[], x);
    FusionsRendered(d, deltas, b, fusions, active, x);
    RetiredRendered(deltas, SortedIds(deltas.Keys), RenderFusions(d, deltas, b, fusions, active), x);
  }

  /**
   With distinct ids every device of the artifact holds exactly the phases it is due, each with exactly
   the builder's blocks for it or the delta's removals, and no phase twice.
   */
  lemma RenderedExactly(d: Design, deltas: Deltas, b: Builder, x: Id, ph: ArtifactPhase)
    requires DesignIds(d)
    ensures x in Render(d, deltas, b) && ph in Render(d, deltas, b)[x] <==> Due(d, deltas, b, x, ph)
    ensures x in Render(d, deltas, b) ==>
              forall i, j :: 0 <= i < j < |Render(d, deltas, b)[x]| ==> Render(d, deltas, b)[x][i].id != Render(d, deltas, b)[x][j].id
  {
    var r := Render(d, deltas, b);
    RenderedAs(d, deltas, b, x);
    RenderCovered(d, deltas, b);
    if IsNode(d, x) {
      var n :| n in d.devices && n.id == x;
      NodeRendered(d, deltas, b, n, ph);
      assert forall m :: m in d.devices && m.id == x ==> m == n;
    } else if x in d.fusions {
      FusionRendered(d, deltas, b, x, ph);
    } else if x in deltas {
      RemovalRendersDelta(deltas, x, ph.blocks);
      AppendedExact([Removal(deltas, x)], ph);
      assert [Removal(deltas, x)][0].appended;
    }
  }

  ghost predicate IsDue(d: Design, deltas: Deltas, b: Builder, x: Id, p: PhaseId) {
    exists blocks :: Due(d, deltas, b, x, ArtifactPhase(p, blocks))
  }

  /** The blocks that a phase has wherever it is due. */
  function BlocksDue(d: Design, deltas: Deltas, b: Builder, x: Id, p: PhaseId): seq<Block> {
    if p == MulticastReconciliation then if x in deltas then RemovalBlocks(deltas[x]) else []
    else if (p == BorderHandoff && !d.handoff) || (p == SharedServices && !d.sharedServices) then []
    else b(x, p)
  }

  lemma DueHasItsBlocks(d: Design, deltas: Deltas, b: Builder, x: Id, ph: ArtifactPhase)
    requires Due(d, deltas, b, x, ph)
    ensures ph.blocks == BlocksDue(d, deltas, b, x, ph.id)
  {
    if x in deltas { RemovalRendersDelta(deltas, x, ph.blocks); }
  }

  lemma DueForm(d: Design, deltas: Deltas, b: Builder, x: Id, p: PhaseId)
    ensures IsDue(d, deltas, b, x, p) <==> Due(d, deltas, b, x, ArtifactPhase(p, BlocksDue(d, deltas, b, x, p)))
  {
    if IsDue(d, deltas, b, x, p) {
      var blocks :| Due(d, deltas, b, x, ArtifactPhase(p, blocks));
      DueHasItsBlocks(d, deltas, b, x, ArtifactPhase(p, blocks));
    }
  }

  /**
   So a device is rendered a phase exactly when the plan's phase concerns it; the two phases that are
   appended only with blocks, when the feature is on and the builder has blocks for the device.
   */
  lemma RenderedForTargets(d: Design, deltas: Deltas, b: Builder, x: Id, p: PhaseId)
    requires DesignIds(d) && Executed(p)
    ensures IsDue(d, deltas, b, x, p) <==>
              if p == Multicast then (IsNode(d, x) || x in d.fusions) && d.multicast && d.native && b(x, p) != []
              else if p == PolicyPlane then IsNode(d, x) && d.policyPlane && b(x, p) != []
              else Concerns(d, deltas, x, p)
  {
    DueForm(d, deltas, b, x, p);
    if x in deltas { RemovalRendersDelta(deltas, x, RemovalBlocks(deltas[x])); }
    if IsNode(d, x) {
      var n :| n in d.devices && n.id == x;
      assert forall m :: m in d.devices && m.id == x ==> m == n;
    }
  }

  // ----- Which gates there are -----

  /** The gates of a device with these roles, table by table. */
  ghost predicate GateOfNode(d: Design, t: GateTable, roles: set<Role>, g: GatePlan.Gate) {
    var x := g.device;
    || (g.phase == Precheck && g.name in t(x, 0))
    || (g.phase == Underlay && ((d.multicast && g.name in t(x, 1)) || g.name in t(x, 2)))
    || (g.phase == LispEdges && FabricEdge in roles && g.name in t(x, 3))
    || (g.phase == Overlay && ((FabricEdge in roles && g.name in t(x, 4)) || (x in d.subscribers && g.name in t(x, 6))))
    || (g.phase == BorderHandoff && Border in roles && d.handoff && g.name in t(x, 5))
    || (g.phase == Multicast && d.multicast && d.native && g.name in t(x, 7))
    || (g.phase == PolicyPlane && d.policyPlane && g.name in t(x, 8))
  }

  ghost predicate GateOfFusion(d: Design, t: GateTable, g: GatePlan.Gate) {
    var x := g.device;
    || (g.phase == Precheck && g.name in t(x, 0))
    || (g.phase == BorderHandoff && d.handoff && g.name in t(x, 5))
    || (g.phase == Multicast && d.multicast && d.native && g.name in t(x, 7))
    || (g.phase == SharedServices && d.sharedServices && g.name in t(x, 9))
  }

  /** One absence gate for each gate of the delta; a version precheck too where the device is in the intent no more. */
  ghost predicate GateOfRemoval(d: Design, deltas: Deltas, g: GatePlan.Gate) {
    && g.device in deltas
    && (|| (g.phase == MulticastReconciliation && exists i :: 0 <= i < |deltas[g.device].gates| && deltas[g.device].gates[i].key == g.name)
        || (g.phase == Precheck && g.name == "version" && !IsNode(d, g.device) && g.device !in d.fusions))
  }

  ghost predicate GroupGives(group: Group, device: Id, g: GatePlan.Gate) {
    group.on && g.phase == group.phase && g.device == device && g.name in group.labels
  }

  lemma {:induction false} GroupsGive(device: Id, groups: seq<Group>, g: GatePlan.Gate)
    ensures g in AllGroups(device, groups) <==> exists i :: 0 <= i < |groups| && GroupGives(groups[i], device, g)
    decreases |groups|
  {
    if groups != [] {
      GroupsGive(device, groups[1..], g);
      OneGroupGives(device, groups[0], g);
      if i :| 0 <= i < |groups| && GroupGives(groups[i], device, g) {
        if i > 0 { assert GroupGives(groups[1..][i - 1], device, g); }
      }
      if i :| 0 <= i < |groups[1..]| && GroupGives(groups[1..][i], device, g) { assert GroupGives(groups[i + 1], device, g); }
    }
  }

  lemma OneGroupGives(device: Id, group: Group, g: GatePlan.Gate)
    ensures g in GroupGates(device, group) <==> GroupGives(group, device, g)
  {
    if GroupGives(group, device, g) {
      var i :| 0 <= i < |group.labels| && group.labels[i] == g.name;
      assert GroupGates(device, group)[i] == g;
    }
  }

  lemma NodeGates(d: Design, t: GateTable, n: Node, g: GatePlan.Gate)
    ensures g in AllGroups(n.id, DeviceGroups(d, t, n)) <==> g.device == n.id && GateOfNode(d, t, n.roles, g)
  {
    var s := DeviceGroups(d, t, n);
    GroupsGive(n.id, s, g);
    assert (exists i :: 0 <= i < |s| && GroupGives(s[i], n.id, g)) <==>
           || GroupGives(s[0], n.id, g) || GroupGives(s[1], n.id, g) || GroupGives(s[2], n.id, g)
           || GroupGives(s[3], n.id, g) || GroupGives(s[4], n.id, g) || GroupGives(s[5], n.id, g)
           || GroupGives(s[6], n.id, g) || GroupGives(s[7], n.id, g) || GroupGives(s[8], n.id, g);
  }

  lemma FusionNodeGates(d: Design, t: GateTable, f: Id, g: GatePlan.Gate)
    ensures g in AllGroups(f, FusionGroups(d, t, f)) <==> g.device == f && GateOfFusion(d, t, g)
  {
    var s := FusionGroups(d, t, f);
    GroupsGive(f, s, g);
    assert (exists i :: 0 <= i < |s| && GroupGives(s[i], f, g)) <==>
           GroupGives(s[0], f, g) || GroupGives(s[1], f, g) || GroupGives(s[2], f, g) || GroupGives(s[3], f, g);
  }

  lemma RemovalGates(d: Design, deltas: Deltas, x: Id, g: GatePlan.Gate)
    requires x in deltas
    ensures g in AllGroups(x, ReconcileGroups(d, deltas, x)) <==> g.device == x && GateOfRemoval(d, deltas, g)
  {
    var s := ReconcileGroups(d, deltas, x);
    GroupsGive(x, s, g);
    assert (exists i :: 0 <= i < |s| && GroupGives(s[i], x, g)) <==> GroupGives(s[0], x, g) || GroupGives(s[1], x, g);
    var gates := deltas[x].gates;
    assert s[1].labels == seq(|gates|, i requires 0 <= i < |gates| => gates[i].key);
    assert g.name in s[1].labels <==> exists i :: 0 <= i < |gates| && gates[i].key == g.name by {
      if i :| 0 <= i < |gates| && gates[i].key == g.name { assert s[1].labels[i] == g.name; }
    }
  }

  lemma {:induction false} DeviceGatesExact(d: Design, t: GateTable, nodes: seq<Node>, g: GatePlan.Gate)
    ensures g in DeviceGates(d, t, nodes) <==> exists n :: n in nodes && n.id == g.device && GateOfNode(d, t, n.roles, g)
    decreases |nodes|
  {
    if nodes != [] {
      DeviceGatesExact(d, t, nodes[1..], g);
      NodeGates(d, t, nodes[0], g);
      assert forall n :: n in nodes <==> n == nodes[0] || n in nodes[1..];
    }
  }

  lemma {:induction false} FusionGatesExact(d: Design, t: GateTable, fusions: seq<Id>, g: GatePlan.Gate)
    ensures g in FusionGates(d, t, fusions) <==> g.device in fusions && GateOfFusion(d, t, g)
    decreases |fusions|
  {
    if fusions != [] {
      FusionGatesExact(d, t, fusions[1..], g);
      FusionNodeGates(d, t, fusions[0], g);
      assert g.device in fusions <==> g.device == fusions[0] || g.device in fusions[1..];
    }
  }

  lemma {:induction false} ReconcileGatesExact(d: Design, deltas: Deltas, ids: seq<Id>, g: GatePlan.Gate)
    requires forall x :: x in ids ==> x in deltas
    ensures g in ReconcileGates(d, deltas, ids) <==> g.device in ids && GateOfRemoval(d, deltas, g)
    decreases |ids|
  {
    if ids != [] {
      ReconcileGatesExact(d, deltas, ids[1..], g);
      RemovalGates(d, deltas, ids[0], g);
      assert g.device in ids <==> g.device == ids[0] || g.device in ids[1..];
    }
  }

  /** The gate plan holds exactly these gates: the tables of every device and fusion node, and every absence gate. */
  lemma GatesExact(d: Design, deltas: Deltas, t: GateTable, g: GatePlan.Gate)
    ensures g in Gates(d, deltas, t) <==>
              || (exists n :: n in d.devices && n.id == g.device && GateOfNode(d, t, n.roles, g))
              || (g.device in d.fusions && GateOfFusion(d, t, g))
              || GateOfRemoval(d, deltas, g)
  {
    SortIsPermutation(d.devices, NodeLe);
    SortIsPermutation(d.fusions, StringLe);
    ReconcileGatesExact(d, deltas, SortedIds(deltas.Keys), g);
    DeviceGatesExact(d, t, Sort(d.devices, NodeLe), g);
    FusionGatesExact(d, t, Sort(d.fusions, StringLe), g);
    assert g in Gates(d, deltas, t) <==>
           || g in ReconcileGates(d, deltas, SortedIds(deltas.Keys)) || g in DeviceGates(d, t, Sort(d.devices, NodeLe))
           || g in FusionGates(d, t, Sort(d.fusions, StringLe));
  }
}
