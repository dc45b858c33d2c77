/** Which operational gate belongs to which phase and device (`build_gate_plan`, orchestrator/gates.py). */
module GatePlan {
  import opened Basics
  import opened Ordering
  import opened Planning
  import Reconciliation

  datatype Gate = Gate(phase: PhaseId, device: Id, name: string)

  /** The gates one device gets from one place of the builder: their commands and expectations are opaque. */
  type GateTable = (Id, nat) -> seq<string>

  /** A group of gates the builder appends under a condition. */
  datatype Group = Group(on: bool, phase: PhaseId, labels: seq<string>)

  function GroupGates(device: Id, g: Group): seq<Gate> {
    if g.on then seq(|g.labels|, i requires 0 <= i < |g.labels| => Gate(g.phase, device, g.labels[i])) else []
  }

  function AllGroups(device: Id, groups: seq<Group>): seq<Gate> {
    if groups == [] then [] else GroupGates(device, groups[0]) + AllGroups(device, groups[1..])
  }

  function DeviceGroups(d: Design, t: GateTable, n: Node): seq<Group> {
    [Group(true, Precheck, t(n.id, 0)),
     Group(d.multicast, Underlay, t(n.id, 1)),
     Group(true, Underlay, t(n.id, 2)),
     Group(FabricEdge in n.roles, LispEdges, t(n.id, 3)),
     Group(FabricEdge in n.roles, Overlay, t(n.id, 4)),
     Group(Border in n.roles && d.handoff, BorderHandoff, t(n.id, 5)),
     Group(n.id in d.subscribers, Overlay, t(n.id, 6)),
     Group(d.multicast && d.native, Multicast, t(n.id, 7)),
     Group(d.policyPlane, PolicyPlane, t(n.id, 8))]
  }

  function FusionGroups(d: Design, t: GateTable, f: Id): seq<Group> {
    [Group(true, Precheck, t(f, 0)),
     Group(d.handoff, BorderHandoff, t(f, 5)),
     Group(d.multicast && d.native, Multicast, t(f, 7)),
     Group(d.sharedServices, SharedServices, t(f, 9))]
  }

  predicate ActiveTarget(d: Design, x: Id) { x in NodeIds(d.devices) || x in d.fusions }

  /** A retired target gets a version precheck, and every target its absence gates. */
  function ReconcileGroups(d: Design, deltas: Deltas, x: Id): seq<Group>
    requires x in deltas
  {
    var gates := deltas[x].gates;
    [Group(!ActiveTarget(d, x), Precheck, ["version"]),
     Group(true, MulticastReconciliation, seq(|gates|, i requires 0 <= i < |gates| => gates[i].key))]
  }

  function ReconcileGates(d: Design, deltas: Deltas, ids: seq<Id>): seq<Gate>
    requires forall x :: x in ids ==> x in deltas
  {
    if ids == [] then [] else AllGroups(ids[0], ReconcileGroups(d, deltas, ids[0])) + ReconcileGates(d, deltas, ids[1..])
  }

  function DeviceGates(d: Design, t: GateTable, nodes: seq<Node>): seq<Gate> {
    if nodes == [] then [] else AllGroups(nodes[0].id, DeviceGroups(d, t, nodes[0])) + DeviceGates(d, t, nodes[1..])
  }

  function FusionGates(d: Design, t: GateTable, fusions: seq<Id>): seq<Gate> {
    if fusions == [] then [] else AllGroups(fusions[0], FusionGroups(d, t, fusions[0])) + FusionGates(d, t, fusions[1..])
  }

  function Gates(d: Design, deltas: Deltas, t: GateTable): seq<Gate> {
    ReconcileGates(d, deltas, SortedIds(deltas.Keys)) + DeviceGates(d, t, Sort(d.devices, NodeLe))
    + FusionGates(d, t, Sort(d.fusions, StringLe))
  }

  lemma Regroup(a: seq<Gate>, b: seq<Gate>, c: seq<Gate>)
    ensures a + (b + c) == (a + b) + c
  {
  }

  method BuildGatePlan(d: Design, deltas: Deltas, t: GateTable) returns (gates: seq<Gate>)
    ensures gates == Gates(d, deltas, t)
  {
    var absences := ReconcileGateLoop(d, deltas, SortedIds(deltas.Keys));
    var devices := DeviceGateLoop(d, t, Sort(d.devices, NodeLe));
    var fusions := FusionGateLoop(d, t, Sort(d.fusions, StringLe));
    gates := absences + devices + fusions;
  }

  method ReconcileGateLoop(d: Design, deltas: Deltas, ids: seq<Id>) returns (gates: seq<Gate>)
    requires forall x :: x in ids ==> x in deltas
    ensures gates == ReconcileGates(d, deltas, ids)
  {
    gates := [];
    for i := 0 to |ids|
      invariant gates + ReconcileGates(d, deltas, ids[i..]) == ReconcileGates(d, deltas, ids)
    {
      assert ReconcileGates(d, deltas, ids[i..]) == AllGroups(ids[i], ReconcileGroups(d, deltas, ids[i])) + ReconcileGates(d, deltas, ids[i + 1..]) by { assert ids[i..][1..] == ids[i + 1..]; }
      var mine := AllGroups(ids[i], ReconcileGroups(d, deltas, ids[i]));
      Regroup(gates, mine, ReconcileGates(d, deltas, ids[i + 1..]));
      gates := gates + mine;
    }
  }

  method DeviceGateLoop(d: Design, t: GateTable, nodes: seq<Node>) returns (gates: seq<Gate>)
    ensures gates == DeviceGates(d, t, nodes)
  {
    gates := [];
    for i := 0 to |nodes|
      invariant gates + DeviceGates(d, t, nodes[i..]) == DeviceGates(d, t, nodes)
    {
      assert DeviceGates(d, t, nodes[i..]) == AllGroups(nodes[i].id, DeviceGroups(d, t, nodes[i])) + DeviceGates(d, t, nodes[i + 1..]) by { assert nodes[i..][1..] == nodes[i + 1..]; }
      var mine := AllGroups(nodes[i].id, DeviceGroups(d, t, nodes[i]));
      Regroup(gates, mine, DeviceGates(d, t, nodes[i + 1..]));
      gates := gates + mine;
    }
  }

  method FusionGateLoop(d: Design, t: GateTable, fusions: seq<Id>) returns (gates: seq<Gate>)
    ensures gates == FusionGates(d, t, fusions)
  {
    gates := [];
    for i := 0 to |fusions|
      invariant gates + FusionGates(d, t, fusions[i..]) == FusionGates(d, t, fusions)
    {
      assert FusionGates(d, t, fusions[i..]) == AllGroups(fusions[i], FusionGroups(d, t, fusions[i])) + FusionGates(d, t, fusions[i + 1..]) by { assert fusions[i..][1..] == fusions[i + 1..]; }
      var mine := AllGroups(fusions[i], FusionGroups(d, t, fusions[i]));
      Regroup(gates, mine, FusionGates(d, t, fusions[i + 1..]));
      gates := gates + mine;
    }
  }

  // ----- Gate coverage -----

  /** A gate the worker will evaluate: before everything, or in a phase of the plan, on a device it connects to. */
  ghost predicate GateCovered(d: Design, stale: bool, targets: set<Id>, g: Gate) {
    Planned(d, stale, g.phase) && (g.phase == Precheck || Executed(g.phase)) && g.device in targets
  }

  ghost predicate AllGatesCovered(d: Design, stale: bool, targets: set<Id>, gates: seq<Gate>) {
    forall g :: g in gates ==> GateCovered(d, stale, targets, g)
  }

  predicate GroupPlanned(d: Design, stale: bool, g: Group) {
    g.on ==> Planned(d, stale, g.phase) && (g.phase == Precheck || Executed(g.phase))
  }

  lemma {:induction false} GroupsCovered(d: Design, stale: bool, targets: set<Id>, device: Id, groups: seq<Group>)
    requires device in targets && forall i :: 0 <= i < |groups| ==> GroupPlanned(d, stale, groups[i])
    ensures AllGatesCovered(d, stale, targets, AllGroups(device, groups))
    decreases |groups|
  {
    if groups != [] {
      GroupsCovered(d, stale, targets, device, groups[1..]);
      assert GroupPlanned(d, stale, groups[0]);
    }
  }

  lemma DeviceGroupsPlanned(d: Design, stale: bool, t: GateTable, n: Node)
    ensures forall i :: 0 <= i < |DeviceGroups(d, t, n)| ==> GroupPlanned(d, stale, DeviceGroups(d, t, n)[i])
  {
    var g := DeviceGroups(d, t, n);
    assert GroupPlanned(d, stale, g[0]) && GroupPlanned(d, stale, g[1]) && GroupPlanned(d, stale, g[2]);
    assert GroupPlanned(d, stale, g[3]) && GroupPlanned(d, stale, g[4]) && GroupPlanned(d, stale, g[5]);
    assert GroupPlanned(d, stale, g[6]) && GroupPlanned(d, stale, g[7]) && GroupPlanned(d, stale, g[8]);
  }

  lemma {:induction false} DeviceGatesCovered(d: Design, stale: bool, targets: set<Id>, t: GateTable, nodes: seq<Node>)
    requires forall n :: n in nodes ==> n.id in targets
    ensures AllGatesCovered(d, stale, targets, DeviceGates(d, t, nodes))
    decreases |nodes|
  {
    if nodes != [] {
      DeviceGroupsPlanned(d, stale, t, nodes[0]);
      GroupsCovered(d, stale, targets, nodes[0].id, DeviceGroups(d, t, nodes[0]));
      DeviceGatesCovered(d, stale, targets, t, nodes[1..]);
    }
  }

  lemma {:induction false} FusionGatesCovered(d: Design, stale: bool, targets: set<Id>, t: GateTable, fusions: seq<Id>)
    requires forall f :: f in fusions ==> f in targets
    ensures AllGatesCovered(d, stale, targets, FusionGates(d, t, fusions))
    decreases |fusions|
  {
    if fusions != [] {
      GroupsCovered(d, stale, targets, fusions[0], FusionGroups(d, t, fusions[0]));
      FusionGatesCovered(d, stale, targets, t, fusions[1..]);
    }
  }

  lemma {:induction false} ReconcileGatesCovered(d: Design, deltas: Deltas, targets: set<Id>, ids: seq<Id>)
    requires forall x :: x in ids ==> x in deltas && x in targets
    ensures AllGatesCovered(d, AnyStale(deltas), targets, ReconcileGates(d, deltas, ids))
    decreases |ids|
  {
    if ids != [] {
      GroupsCovered(d, AnyStale(deltas), targets, ids[0], ReconcileGroups(d, deltas, ids[0]));
      ReconcileGatesCovered(d, deltas, targets, ids[1..]);
    }
  }

  lemma {:induction false} RenderedDevices(d: Design, deltas: Deltas, b: Builder, nodes: seq<Node>, acc: Rendered)
    ensures forall x :: x in RenderDevices(d, deltas, b, nodes, acc) <==> x in acc || exists n :: n in nodes && n.id == x
    decreases |nodes|
  {
    if nodes != [] {
      var next := acc[nodes[0].id := RenderDevice(d, deltas, b, nodes[0])];
      RenderedDevices(d, deltas, b, nodes[1..], next);
      assert forall n :: n in nodes <==> n == nodes[0] || n in nodes[1..];
    }
  }

  lemma {:induction false} RenderedFusions(d: Design, deltas: Deltas, b: Builder, fusions: seq<Id>, acc: Rendered)
    ensures forall x :: x in RenderFusions(d, deltas, b, fusions, acc) <==> x in acc || x in fusions
    decreases |fusions|
  {
    if fusions != [] {
      RenderedFusions(d, deltas, b, fusions[1..], acc[fusions[0] := RenderFusion(d, deltas, b, fusions[0])]);
      assert forall f :: f in fusions <==> f == fusions[0] || f in fusions[1..];
    }
  }

  lemma {:induction false} RenderedRetired(deltas: Deltas, ids: seq<Id>, acc: Rendered)
    ensures forall x :: x in RenderRetired(deltas, ids, acc) <==> x in acc || x in ids
    decreases |ids|
  {
    if ids != [] {
      RenderedRetired(deltas, ids[1..], if ids[0] in acc then acc else acc[ids[0] := Appended([Removal(deltas, ids[0])])]);
      assert forall x :: x in ids <==> x == ids[0] || x in ids[1..];
    }
  }

  /** The artifact's devices are the intent's, its fusion nodes and the baseline's retired ones. */
  lemma RenderedTargets(d: Design, deltas: Deltas, b: Builder)
    ensures forall x :: x in Render(d, deltas, b) <==> ActiveTarget(d, x) || x in deltas
  {
    var devices, fusions := Sort(d.devices, NodeLe), Sort(d.fusions, StringLe);
    SortIsPermutation(d.devices, NodeLe);
    SortIsPermutation(d.fusions, StringLe);
    RenderedDevices(d, deltas, b, devices, map[]);
    RenderedFusions(d, deltas, b, fusions, RenderDevices(d, deltas, b, devices, map[]));
    RenderedRetired(deltas, SortedIds(deltas.Keys), RenderFusions(d, deltas, b, fusions, RenderDevices(d, deltas, b, devices, map[])));
  }

  /**
   Gate coverage: every gate belongs to the prechecks or to an executed phase of the
   plan, and to a device of the artifact; none is left unevaluated by a successful run.
   */
  lemma EveryGateIsPlanned(d: Design, deltas: Deltas, b: Builder, t: GateTable, g: Gate)
    requires g in Gates(d, deltas, t)
    ensures g.phase in PlannedIds(d, AnyStale(deltas)) && (g.phase == Precheck || Executed(g.phase))
    ensures g.device in Render(d, deltas, b)
  {
    var stale, targets := AnyStale(deltas), Render(d, deltas, b).Keys;
    RenderedTargets(d, deltas, b);
    SortIsPermutation(d.devices, NodeLe);
    SortIsPermutation(d.fusions, StringLe);
    ReconcileGatesCovered(d, deltas, targets, SortedIds(deltas.Keys));
    DeviceGatesCovered(d, stale, targets, t, Sort(d.devices, NodeLe));
    FusionGatesCovered(d, stale, targets, t, Sort(d.fusions, StringLe));
    assert GateCovered(d, stale, targets, g);
    PlannedExact(d, stale, g.phase);
  }
}
