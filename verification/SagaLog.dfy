/**
 What a successful apply does, step by step: the prechecks, then for every executed plan
 phase in order the ISE transaction (before policy), every device's blocks, and the gates.
 */
module SagaLog {
  import opened Basics
  import opened Ordering
  import opened Planning
  import opened GatePlan
  import Reconciliation

  datatype Step =
    | Sent(device: Id, phase: PhaseId, index: nat, block: Block)
    | Passed(gate: Gate)
    | PolicyApplied

  /** The first artifact phase with the id. */
  function FirstBlocks(phases: seq<ArtifactPhase>, p: PhaseId): seq<Block> {
    if phases == [] then [] else if phases[0].id == p then phases[0].blocks else FirstBlocks(phases[1..], p)
  }

  function BlocksOf(r: Rendered, x: Id, p: PhaseId): seq<Block> {
    if x in r then FirstBlocks(r[x], p) else []
  }

  function BlockSteps(x: Id, p: PhaseId, blocks: seq<Block>, n: nat): seq<Step>
    requires n <= |blocks|
  {
    if n == 0 then [] else BlockSteps(x, p, blocks, n - 1) + [Sent(x, p, n - 1, blocks[n - 1])]
  }

  function DeviceSteps(r: Rendered, x: Id, p: PhaseId): seq<Step> {
    BlockSteps(x, p, BlocksOf(r, x, p), |BlocksOf(r, x, p)|)
  }

  function SendSteps(r: Rendered, ids: seq<Id>, p: PhaseId): seq<Step> {
    if ids == [] then [] else SendSteps(r, ids[..|ids| - 1], p) + DeviceSteps(r, ids[|ids| - 1], p)
  }

  function GateSteps(gates: seq<Gate>, p: PhaseId): seq<Step> {
    if gates == [] then []
    else GateSteps(gates[..|gates| - 1], p) + if gates[|gates| - 1].phase == p then [Passed(gates[|gates| - 1])] else []
  }

  function PolicySteps(ise: bool, p: PhaseId): seq<Step> {
    if ise && p == PolicyPlane then [PolicyApplied] else []
  }

  function PhaseSteps(r: Rendered, ids: seq<Id>, gates: seq<Gate>, ise: bool, p: PhaseId): seq<Step> {
    PolicySteps(ise, p) + SendSteps(r, ids, p) + GateSteps(gates, p)
  }

  function Flat(parts: seq<seq<Step>>): seq<Step> {
    if parts == [] then [] else Flat(parts[..|parts| - 1]) + parts[|parts| - 1]
  }

  function PhaseParts(r: Rendered, ids: seq<Id>, gates: seq<Gate>, ise: bool, phases: seq<PhaseId>): seq<seq<Step>> {
    seq(|phases|, i requires 0 <= i < |phases| => PhaseSteps(r, ids, gates, ise, phases[i]))
  }

  function RunSteps(r: Rendered, ids: seq<Id>, gates: seq<Gate>, ise: bool, phases: seq<PhaseId>): seq<Step> {
    Flat(PhaseParts(r, ids, gates, ise, phases))
  }

  lemma RunStepsGrow(r: Rendered, ids: seq<Id>, gates: seq<Gate>, ise: bool, phases: seq<PhaseId>, p: PhaseId)
    ensures RunSteps(r, ids, gates, ise, phases + [p]) == RunSteps(r, ids, gates, ise, phases) + PhaseSteps(r, ids, gates, ise, p)
  {
    FlatGrows(PhaseParts(r, ids, gates, ise, phases), PhaseSteps(r, ids, gates, ise, p));
    assert PhaseParts(r, ids, gates, ise, phases + [p]) == PhaseParts(r, ids, gates, ise, phases) + [PhaseSteps(r, ids, gates, ise, p)];
  }

  lemma FlatGrows(parts: seq<seq<Step>>, part: seq<Step>)
    ensures Flat(parts + [part]) == Flat(parts) + part
  {
    assert (parts + [part])[..|parts|] == parts;
  }

  /** The plan's phases without those that carry no configuration. */
  function ExecutedOnly(planned: seq<PhaseId>): seq<PhaseId> {
    if planned == [] then []
    else ExecutedOnly(planned[..|planned| - 1]) + if Executed(planned[|planned| - 1]) then [planned[|planned| - 1]] else []
  }

  function ExpectedSteps(r: Rendered, gates: seq<Gate>, ise: bool, planned: seq<PhaseId>): seq<Step> {
    GateSteps(gates, Precheck) + RunSteps(r, SortedIds(r.Keys), gates, ise, ExecutedOnly(planned))
  }

  // ----- Exactly once -----

  ghost predicate NoRepeats<T>(s: seq<T>) {
    forall i, j :: 0 <= i < j < |s| ==> s[i] != s[j]
  }

  lemma {:induction false} ExecutedExact(planned: seq<PhaseId>)
    requires NoRepeats(planned)
    ensures NoRepeats(ExecutedOnly(planned))
    ensures forall p :: p in ExecutedOnly(planned) <==> p in planned && Executed(p)
    decreases |planned|
  {
    if planned != [] {
      var init, last := planned[..|planned| - 1], planned[|planned| - 1];
      ExecutedExact(init);
      assert planned == init + [last];
      assert last !in init;
    }
  }

  /** How often a step occurs. */
  function Occurs(steps: seq<Step>, s: Step): nat {
    if steps == [] then 0
    else Occurs(steps[..|steps| - 1], s) + if steps[|steps| - 1] == s then 1 else 0
  }

  lemma {:induction false} OccursJoin(a: seq<Step>, b: seq<Step>, s: Step)
    ensures Occurs(a + b, s) == Occurs(a, s) + Occurs(b, s)
    decreases |b|
  {
    if b == [] {
      assert a + b == a;
    } else {
      var init := b[..|b| - 1];
      OccursJoin(a, init, s);
      assert (a + b)[..|a + b| - 1] == a + init;
    }
  }

  lemma {:induction false} OccursIffIn(steps: seq<Step>, s: Step)
    ensures Occurs(steps, s) > 0 <==> s in steps
    decreases |steps|
  {
    if steps != [] {
      OccursIffIn(steps[..|steps| - 1], s);
      assert steps == steps[..|steps| - 1] + [steps[|steps| - 1]];
    }
  }

  lemma OccursOne(t: Step, s: Step)
    ensures Occurs([t], s) == if t == s then 1 else 0
  {
    assert [t][..0] == [];
  }

  lemma {:induction false} BlockStepCount(x: Id, p: PhaseId, blocks: seq<Block>, n: nat, s: Step)
    requires n <= |blocks| && s.Sent?
    ensures Occurs(BlockSteps(x, p, blocks, n), s)
         == if s.device == x && s.phase == p && s.index < n && s.block == blocks[s.index] then 1 else 0
  {
    if n > 0 {
      BlockStepCount(x, p, blocks, n - 1, s);
      OccursJoin(BlockSteps(x, p, blocks, n - 1), [Sent(x, p, n - 1, blocks[n - 1])], s);
      OccursOne(Sent(x, p, n - 1, blocks[n - 1]), s);
    }
  }

  function Count(r: Rendered, p: PhaseId, s: Step): nat
    requires s.Sent?
  {
    var blocks := BlocksOf(r, s.device, p);
    if s.phase == p && s.index < |blocks| && s.block == blocks[s.index] then 1 else 0
  }

  lemma DeviceStepCount(r: Rendered, x: Id, p: PhaseId, s: Step)
    requires s.Sent?
    ensures Occurs(DeviceSteps(r, x, p), s) == if s.device == x then Count(r, p, s) else 0
  {
    BlockStepCount(x, p, BlocksOf(r, x, p), |BlocksOf(r, x, p)|, s);
  }

  lemma {:induction false} SendStepCount(r: Rendered, ids: seq<Id>, p: PhaseId, s: Step)
    requires NoRepeats(ids) && s.Sent?
    ensures Occurs(SendSteps(r, ids, p), s) == if s.device in ids then Count(r, p, s) else 0
    decreases |ids|
  {
    if ids != [] {
      var init, last := ids[..|ids| - 1], ids[|ids| - 1];
      SendStepCount(r, init, p, s);
      DeviceStepCount(r, last, p, s);
      OccursJoin(SendSteps(r, init, p), DeviceSteps(r, last, p), s);
      assert ids == init + [last] && last !in init;
    }
  }

  lemma {:induction false} GateStepsSendNothing(gates: seq<Gate>, p: PhaseId, s: Step)
    requires !s.Passed?
    ensures Occurs(GateSteps(gates, p), s) == 0
    decreases |gates|
  {
    if gates != [] {
      var last := gates[|gates| - 1];
      GateStepsSendNothing(gates[..|gates| - 1], p, s);
      OccursJoin(GateSteps(gates[..|gates| - 1], p), if last.phase == p then [Passed(last)] else [], s);
      OccursOne(Passed(last), s);
    }
  }

  lemma PhaseStepCount(r: Rendered, ids: seq<Id>, gates: seq<Gate>, ise: bool, p: PhaseId, s: Step)
    requires NoRepeats(ids) && s.Sent?
    ensures Occurs(PhaseSteps(r, ids, gates, ise, p), s) == if s.device in ids then Count(r, p, s) else 0
  {
    SendStepCount(r, ids, p, s);
    GateStepsSendNothing(gates, p, s);
    OccursOne(PolicyApplied, s);
    OccursJoin(PolicySteps(ise, p), SendSteps(r, ids, p), s);
    OccursJoin(PolicySteps(ise, p) + SendSteps(r, ids, p), GateSteps(gates, p), s);
  }

  lemma {:induction false} FlatCount(parts: seq<seq<Step>>, phases: seq<PhaseId>, p: PhaseId, s: Step, c: nat)
    requires |parts| == |phases| && NoRepeats(phases)
    requires forall i :: 0 <= i < |parts| ==> Occurs(parts[i], s) == if phases[i] == p then c else 0
    ensures Occurs(Flat(parts), s) == if p in phases then c else 0
    decreases |parts|
  {
    if parts != [] {
      var init, last := phases[..|phases| - 1], phases[|phases| - 1];
      FlatCount(parts[..|parts| - 1], init, p, s, c);
      OccursJoin(Flat(parts[..|parts| - 1]), parts[|parts| - 1], s);
      assert phases == init + [last] && last !in init;
    }
  }

  lemma RunStepCount(r: Rendered, ids: seq<Id>, gates: seq<Gate>, ise: bool, phases: seq<PhaseId>, s: Step)
    requires NoRepeats(phases) && NoRepeats(ids) && s.Sent?
    ensures Occurs(RunSteps(r, ids, gates, ise, phases), s) == if s.device in ids && s.phase in phases then Count(r, s.phase, s) else 0
  {
    var parts := PhaseParts(r, ids, gates, ise, phases);
    var c := if s.device in ids then Count(r, s.phase, s) else 0;
    forall i | 0 <= i < |parts| ensures Occurs(parts[i], s) == if phases[i] == s.phase then c else 0 {
      PhaseStepCount(r, ids, gates, ise, phases[i], s);
    }
    FlatCount(parts, phases, s.phase, s, c);
  }

  lemma {:induction false} FirstBlocksUnique(phases: seq<ArtifactPhase>, p: ArtifactPhase)
    requires p in phases && forall i, j :: 0 <= i < j < |phases| ==> phases[i].id != phases[j].id
    ensures FirstBlocks(phases, p.id) == p.blocks
    decreases |phases|
  {
    if phases[0] != p {
      assert p in phases[1..];
      FirstBlocksUnique(phases[1..], p);
    }
  }

  lemma PlannedBlockSentOnce(r: Rendered, gates: seq<Gate>, ise: bool, planned: seq<PhaseId>, x: Id, p: ArtifactPhase, i: nat)
    requires NoRepeats(planned) && x in r && i < |p.blocks| && FirstBlocks(r[x], p.id) == p.blocks
    requires p.id in planned && Executed(p.id)
    ensures Occurs(ExpectedSteps(r, gates, ise, planned), Sent(x, p.id, i, p.blocks[i])) == 1
  {
    var s, ids := Sent(x, p.id, i, p.blocks[i]), SortedIds(r.Keys);
    ExecutedExact(planned);
    RunStepCount(r, ids, gates, ise, ExecutedOnly(planned), s);
    GateStepsSendNothing(gates, Precheck, s);
    OccursJoin(GateSteps(gates, Precheck), RunSteps(r, ids, gates, ise, ExecutedOnly(planned)), s);
  }

  /**
   A successful worker sends every rendered block exactly once: for any design, baseline,
   block builder and gate table.
   */
  lemma EveryBlockSentOnce(d: Design, deltas: Deltas, b: Builder, t: GateTable, ise: bool, x: Id, p: ArtifactPhase, i: nat)
    requires var r := Render(d, deltas, b); x in r && p in r[x] && i < |p.blocks|
    ensures var r := Render(d, deltas, b);
            Occurs(ExpectedSteps(r, Gates(d, deltas, t), ise, PlannedIds(d, AnyStale(deltas))), Sent(x, p.id, i, p.blocks[i])) == 1
  {
    var r, planned := Render(d, deltas, b), PlannedIds(d, AnyStale(deltas));
    EveryBlockIsPlanned(d, deltas, b, x, p);
    PlannedIdsDistinct(d, AnyStale(deltas));
    RenderCovered(d, deltas, b);
    assert Covered(r[x], d, AnyStale(deltas));
    FirstBlocksUnique(r[x], p);
    PlannedBlockSentOnce(r, Gates(d, deltas, t), ise, planned, x, p, i);
  }

  // ----- Only after the predecessors' gates -----

  lemma {:induction false} GateStepsExact(gates: seq<Gate>, p: PhaseId, g: Gate)
    ensures Passed(g) in GateSteps(gates, p) <==> g in gates && g.phase == p
    decreases |gates|
  {
    if gates != [] {
      GateStepsExact(gates[..|gates| - 1], p, g);
      assert gates == gates[..|gates| - 1] + [gates[|gates| - 1]];
    }
  }

  lemma {:induction false} FlatHolds(parts: seq<seq<Step>>, j: nat, s: Step)
    requires j < |parts| && s in parts[j]
    ensures s in Flat(parts)
    decreases |parts|
  {
    if j < |parts| - 1 { FlatHolds(parts[..|parts| - 1], j, s); }
  }

  lemma PhaseGatesPass(r: Rendered, ids: seq<Id>, gates: seq<Gate>, ise: bool, phases: seq<PhaseId>, g: Gate)
    requires g in gates && g.phase in phases
    ensures Passed(g) in RunSteps(r, ids, gates, ise, phases)
  {
    var j :| 0 <= j < |phases| && phases[j] == g.phase;
    GateStepsExact(gates, g.phase, g);
    FlatHolds(PhaseParts(r, ids, gates, ise, phases), j, Passed(g));
  }

  /** Every gate of a covered gate plan is passed in a successful run. */
  lemma EveryGatePassed(d: Design, deltas: Deltas, b: Builder, t: GateTable, ise: bool, g: Gate)
    requires g in Gates(d, deltas, t)
    ensures Passed(g) in ExpectedSteps(Render(d, deltas, b), Gates(d, deltas, t), ise, PlannedIds(d, AnyStale(deltas)))
  {
    var r, gates, planned := Render(d, deltas, b), Gates(d, deltas, t), PlannedIds(d, AnyStale(deltas));
    EveryGateIsPlanned(d, deltas, b, t, g);
    if g.phase == Precheck {
      GateStepsExact(gates, Precheck, g);
    } else {
      PlannedIdsDistinct(d, AnyStale(deltas));
      ExecutedExact(planned);
      PhaseGatesPass(r, SortedIds(r.Keys), gates, ise, ExecutedOnly(planned), g);
    }
  }

  /** Blocks are sent in the part of their own phase. */
  ghost predicate PartsOf(parts: seq<seq<Step>>, phases: seq<PhaseId>) {
    |parts| == |phases|
    && forall i, s :: 0 <= i < |parts| && s in parts[i] && s.Sent? ==> s.phase == phases[i]
  }

  lemma {:induction false} FlatInPhases(parts: seq<seq<Step>>, phases: seq<PhaseId>, s: Step)
    requires PartsOf(parts, phases) && s in Flat(parts) && s.Sent?
    ensures s.phase in phases
    decreases |parts|
  {
    var last := parts[|parts| - 1];
    if s !in last { FlatInPhases(parts[..|parts| - 1], phases[..|phases| - 1], s); }
    else { assert phases[|phases| - 1] in phases; }
  }

  lemma {:induction false} FlatPrecedes(parts: seq<seq<Step>>, phases: seq<PhaseId>, n: nat, k: nat, j: nat, s: Step)
    requires PartsOf(parts, phases) && NoRepeats(phases) && n < |Flat(parts)| && Flat(parts)[n].Sent?
    requires j < k < |phases| && Flat(parts)[n].phase == phases[k] && s in parts[j]
    ensures s in Flat(parts)[..n]
    decreases |parts|
  {
    var init := parts[..|parts| - 1];
    var before := Flat(init);
    PrefixOfJoin(before, parts[|parts| - 1], n, s);
    if n < |before| {
      FlatInPhases(init, phases[..|phases| - 1], before[n]);
      FlatPrecedes(init, phases[..|phases| - 1], n, k, j, s);
    } else {
      FlatHolds(init, j, s);
    }
  }

  lemma PhaseStepsInPhase(r: Rendered, ids: seq<Id>, gates: seq<Gate>, ise: bool, p: PhaseId, s: Step)
    requires NoRepeats(ids) && s.Sent? && s in PhaseSteps(r, ids, gates, ise, p)
    ensures s.phase == p
  {
    PhaseStepCount(r, ids, gates, ise, p, s);
    OccursIffIn(PhaseSteps(r, ids, gates, ise, p), s);
  }

  /** In the run's order a block comes after the gates of every earlier phase. */
  lemma GatesPrecede(r: Rendered, ids: seq<Id>, gates: seq<Gate>, ise: bool, phases: seq<PhaseId>, n: nat, k: nat, g: Gate)
    requires NoRepeats(phases) && NoRepeats(ids) && n < |RunSteps(r, ids, gates, ise, phases)| && RunSteps(r, ids, gates, ise, phases)[n].Sent?
    requires k < |phases| && RunSteps(r, ids, gates, ise, phases)[n].phase == phases[k]
    requires g in gates && g.phase in phases[..k]
    ensures Passed(g) in RunSteps(r, ids, gates, ise, phases)[..n]
  {
    var parts := PhaseParts(r, ids, gates, ise, phases);
    var j :| 0 <= j < k && phases[j] == g.phase;
    GateStepsExact(gates, g.phase, g);
    forall i: int, s: Step | 0 <= i < |parts| && s in parts[i] && s.Sent? ensures s.phase == phases[i] {
      PhaseStepsInPhase(r, ids, gates, ise, phases[i], s);
    }
    FlatPrecedes(parts, phases, n, k, j, Passed(g));
  }

  lemma PrefixOfJoin(before: seq<Step>, part: seq<Step>, n: nat, s: Step)
    requires n < |before + part|
    ensures n < |before| ==> (before + part)[n] == before[n] && before[n] in before && (before + part)[..n] == before[..n]
    ensures n >= |before| && s in before ==> s in (before + part)[..n]
  {
    if n >= |before| {
      assert (before + part)[..n] == before + part[..n - |before|];
    }
  }

  lemma PassedInRun(r: Rendered, gates: seq<Gate>, ise: bool, phases: seq<PhaseId>, run: seq<Step>, m: nat, k: nat, g: Gate)
    requires run == RunSteps(r, SortedIds(r.Keys), gates, ise, phases) && NoRepeats(phases)
    requires m < |run| && run[m].Sent? && k < |phases| && run[m].phase == phases[k]
    requires g in gates && g.phase in phases[..k]
    ensures Passed(g) in run[..m]
  {
    GatesPrecede(r, SortedIds(r.Keys), gates, ise, phases, m, k, g);
  }

  /** The gate is among the checks, or earlier in the run. */
  lemma PassedBefore(r: Rendered, gates: seq<Gate>, ise: bool, phases: seq<PhaseId>, checks: seq<Step>, run: seq<Step>, m: nat, k: nat, g: Gate)
    requires checks == GateSteps(gates, Precheck) && run == RunSteps(r, SortedIds(r.Keys), gates, ise, phases) && NoRepeats(phases)
    requires m < |run| && run[m].Sent? && k < |phases| && run[m].phase == phases[k]
    requires g in gates && (g.phase == Precheck || g.phase in phases[..k])
    ensures Passed(g) in checks || Passed(g) in run[..m]
  {
    if g.phase == Precheck {
      GateStepsExact(gates, Precheck, g);
    } else {
      PassedInRun(r, gates, ise, phases, run, m, k, g);
    }
  }

  lemma InLog(checks: seq<Step>, part: seq<Step>, log: seq<Step>, s: Step)
    requires log == checks + part && (s in checks || s in part)
    ensures s in log
  {
  }

  lemma TurnKept(r: Rendered, gates: seq<Gate>, ise: bool, phases: seq<PhaseId>, checks: seq<Step>, run: seq<Step>, log: seq<Step>,
                 n: nat, k: nat, g: Gate)
    requires checks == GateSteps(gates, Precheck) && run == RunSteps(r, SortedIds(r.Keys), gates, ise, phases) && NoRepeats(phases)
    requires log <= checks + run && n < |log| && log[n].Sent? && k < |phases| && log[n].phase == phases[k]
    requires g in gates && (g.phase == Precheck || g.phase in phases[..k])
    ensures Passed(g) in log[..n]
  {
    GateStepsArePassed(gates, Precheck);
    var m := OutOfChecks(checks, run, log, n);
    PassedBefore(r, gates, ise, phases, checks, run, m, k, g);
    InLog(checks, run[..m], log[..n], Passed(g));
  }

  /**
   Whatever prefix of the expected steps a run has taken: a block was sent only after all
   prechecks and all gates of the phases before its own had passed.
   */
  lemma NothingOutOfTurn(r: Rendered, gates: seq<Gate>, ise: bool, planned: seq<PhaseId>, log: seq<Step>, n: nat, k: nat, g: Gate)
    requires NoRepeats(planned) && log <= ExpectedSteps(r, gates, ise, planned)
    requires n < |log| && log[n].Sent?
    requires k < |ExecutedOnly(planned)| && log[n].phase == ExecutedOnly(planned)[k]
    requires g in gates && (g.phase == Precheck || g.phase in ExecutedOnly(planned)[..k])
    ensures Passed(g) in log[..n]
  {
    var phases := ExecutedOnly(planned);
    ExecutedExact(planned);
    TurnKept(r, gates, ise, phases, GateSteps(gates, Precheck), RunSteps(r, SortedIds(r.Keys), gates, ise, phases), log, n, k, g);
  }

  lemma OutOfChecks(checks: seq<Step>, run: seq<Step>, log: seq<Step>, n: nat) returns (m: nat)
    requires forall i :: 0 <= i < |checks| ==> checks[i].Passed?
    requires log <= checks + run && n < |log| && log[n].Sent?
    ensures m < |run| && log[n] == run[m] && log[..n] == checks + run[..m]
  {
    assert log[n] == (checks + run)[n];
    m := n - |checks|;
    assert log[..n] == (checks + run)[..n];
  }

  lemma {:induction false} GateStepsArePassed(gates: seq<Gate>, p: PhaseId)
    ensures forall i :: 0 <= i < |GateSteps(gates, p)| ==> GateSteps(gates, p)[i].Passed?
    decreases |gates|
  {
    if gates != [] { GateStepsArePassed(gates[..|gates| - 1], p); }
  }

  // ----- Growing logs -----

  lemma {:induction false} GateStepsGrow(gates: seq<Gate>, p: PhaseId, i: nat)
    requires i <= |gates|
    ensures GateSteps(gates[..i], p) <= GateSteps(gates, p)
    decreases |gates| - i
  {
    if i < |gates| {
      GateStepsGrow(gates, p, i + 1);
      assert gates[..i + 1][..i] == gates[..i];
    } else {
      assert gates[..i] == gates;
    }
  }

  lemma {:induction false} BlockStepsGrow(x: Id, p: PhaseId, blocks: seq<Block>, i: nat)
    requires i <= |blocks|
    ensures BlockSteps(x, p, blocks, i) <= BlockSteps(x, p, blocks, |blocks|)
    decreases |blocks| - i
  {
    if i < |blocks| { BlockStepsGrow(x, p, blocks, i + 1); }
  }

  lemma {:induction false} SendStepsGrow(r: Rendered, ids: seq<Id>, p: PhaseId, i: nat)
    requires i <= |ids|
    ensures SendSteps(r, ids[..i], p) <= SendSteps(r, ids, p)
    decreases |ids| - i
  {
    if i < |ids| {
      SendStepsGrow(r, ids, p, i + 1);
      assert ids[..i + 1][..i] == ids[..i];
    } else {
      assert ids[..i] == ids;
    }
  }

  lemma SendStepsNext(r: Rendered, ids: seq<Id>, p: PhaseId, i: nat)
    requires i < |ids|
    ensures SendSteps(r, ids[..i + 1], p) == SendSteps(r, ids[..i], p) + DeviceSteps(r, ids[i], p) <= SendSteps(r, ids, p)
  {
    SendStepsGrow(r, ids, p, i + 1);
    assert ids[..i + 1][..i] == ids[..i];
  }

  lemma {:induction false} FlatPrefix(parts: seq<seq<Step>>, i: nat)
    requires i <= |parts|
    ensures Flat(parts[..i]) <= Flat(parts)
    decreases |parts| - i
  {
    if i < |parts| {
      FlatPrefix(parts, i + 1);
      assert parts[..i + 1][..i] == parts[..i];
    } else {
      assert parts[..i] == parts;
    }
  }

  lemma RunStepsPrefix(r: Rendered, ids: seq<Id>, gates: seq<Gate>, ise: bool, phases: seq<PhaseId>, i: nat)
    requires i <= |phases|
    ensures RunSteps(r, ids, gates, ise, phases[..i]) <= RunSteps(r, ids, gates, ise, phases)
  {
    FlatPrefix(PhaseParts(r, ids, gates, ise, phases), i);
    assert PhaseParts(r, ids, gates, ise, phases[..i]) == PhaseParts(r, ids, gates, ise, phases)[..i];
  }

  lemma RunStepsNext(r: Rendered, ids: seq<Id>, gates: seq<Gate>, ise: bool, phases: seq<PhaseId>, i: nat)
    requires i < |phases|
    ensures RunSteps(r, ids, gates, ise, phases[..i + 1])
         == RunSteps(r, ids, gates, ise, phases[..i]) + PhaseSteps(r, ids, gates, ise, phases[i])
         <= RunSteps(r, ids, gates, ise, phases)
  {
    RunStepsPrefix(r, ids, gates, ise, phases, i + 1);
    RunStepsGrow(r, ids, gates, ise, phases[..i], phases[i]);
    assert phases[..i + 1] == phases[..i] + [phases[i]];
  }

  /** The log grew from `before` along `part`, perhaps not to its end. */
  ghost predicate Along(before: seq<Step>, log: seq<Step>, part: seq<Step>) {
    before <= log <= before + part
  }

  /** Having done `first`, the log goes on along `second`, both within `whole`. */
  lemma AlongNext(before: seq<Step>, first: seq<Step>, log: seq<Step>, second: seq<Step>, whole: seq<Step>)
    requires Along(before + first, log, second) && first + second <= whole
    ensures Along(before, log, whole)
    ensures log == before + first + second ==> log == before + (first + second)
  {
    assert (before + first) + second == before + (first + second);
    assert before + (first + second) <= before + whole;
  }

  /** One more phase: the log is along the whole run, and at the phase's end where the run then is. */
  lemma PhaseNext(before: seq<Step>, log: seq<Step>, r: Rendered, ids: seq<Id>, gates: seq<Gate>, ise: bool, phases: seq<PhaseId>, i: nat)
    requires i < |phases|
    requires Along(before + RunSteps(r, ids, gates, ise, phases[..i]), log, PhaseSteps(r, ids, gates, ise, phases[i]))
    ensures Along(before, log, RunSteps(r, ids, gates, ise, phases))
    ensures before + RunSteps(r, ids, gates, ise, phases[..i]) + PhaseSteps(r, ids, gates, ise, phases[i])
         == before + RunSteps(r, ids, gates, ise, phases[..i + 1])
  {
    RunStepsNext(r, ids, gates, ise, phases, i);
    AlongNext(before, RunSteps(r, ids, gates, ise, phases[..i]), log, PhaseSteps(r, ids, gates, ise, phases[i]), RunSteps(r, ids, gates, ise, phases));
  }

  lemma BlockNext(before: seq<Step>, log: seq<Step>, x: Id, p: PhaseId, blocks: seq<Block>, i: nat)
    requires i < |blocks|
    requires Along(before + BlockSteps(x, p, blocks, i), log, [Sent(x, p, i, blocks[i])])
    ensures Along(before, log, BlockSteps(x, p, blocks, |blocks|))
    ensures before + BlockSteps(x, p, blocks, i) + [Sent(x, p, i, blocks[i])] == before + BlockSteps(x, p, blocks, i + 1)
  {
    BlockStepsGrow(x, p, blocks, i + 1);
    AlongNext(before, BlockSteps(x, p, blocks, i), log, [Sent(x, p, i, blocks[i])], BlockSteps(x, p, blocks, |blocks|));
  }

  lemma GateNext(before: seq<Step>, log: seq<Step>, gates: seq<Gate>, p: PhaseId, i: nat)
    requires i < |gates|
    requires log == before + GateSteps(gates[..i], p)
    ensures Along(before, log, GateSteps(gates, p))
    ensures log + (if gates[i].phase == p then [Passed(gates[i])] else []) == before + GateSteps(gates[..i + 1], p)
    ensures gates[i].phase != p ==> log == before + GateSteps(gates[..i + 1], p)
  {
    GateStepsGrow(gates, p, i);
    assert gates[..i + 1][..i] == gates[..i];
  }
}
