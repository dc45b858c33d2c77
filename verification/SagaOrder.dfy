/** The order of a successful apply's steps, pair by pair (orchestrator/worker.py). */
module SagaOrder {
  import opened Basics
  import opened Ordering
  import opened Planning
  import opened GatePlan
  import opened SagaLog

  function PhaseOf(s: Step): PhaseId {
    match s
    case Sent(_, p, _, _) => p
    case Passed(g) => g.phase
    case PolicyApplied => PolicyPlane
  }

  /** Prechecks come first, then the phases in plan order. */
  ghost predicate PhaseFirst(planned: seq<PhaseId>, p: PhaseId, q: PhaseId) {
    || (p == Precheck && q != Precheck)
    || exists i, j :: 0 <= i < j < |planned| && planned[i] == p && planned[j] == q
  }

  /** In a phase: the ISE transaction, the blocks by device and place, the gates in gate-plan order. */
  ghost predicate SamePhaseFirst(gates: seq<Gate>, a: Step, b: Step) {
    match (a, b)
    case (PolicyApplied, _) => !b.PolicyApplied?
    case (Sent(x, _, i, _), Sent(y, _, j, _)) => if x == y then i < j else StringLe(x, y)
    case (Sent(_, _, _, _), Passed(_)) => true
    case (Passed(g), Passed(h)) => exists i, j :: 0 <= i < j < |gates| && gates[i] == g && gates[j] == h
    case _ => false
  }

  ghost predicate InTurn(gates: seq<Gate>, planned: seq<PhaseId>, a: Step, b: Step) {
    PhaseFirst(planned, PhaseOf(a), PhaseOf(b)) || (PhaseOf(a) == PhaseOf(b) && SamePhaseFirst(gates, a, b))
  }

  ghost predicate AllInTurn(gates: seq<Gate>, planned: seq<PhaseId>, steps: seq<Step>) {
    forall m, n :: 0 <= m < n < |steps| ==> InTurn(gates, planned, steps[m], steps[n])
  }

  lemma TurnsJoin(gates: seq<Gate>, planned: seq<PhaseId>, a: seq<Step>, b: seq<Step>)
    requires AllInTurn(gates, planned, a) && AllInTurn(gates, planned, b)
    requires forall s, t :: s in a && t in b ==> InTurn(gates, planned, s, t)
    ensures AllInTurn(gates, planned, a + b)
  {
    forall m, n | 0 <= m < n < |a + b| ensures InTurn(gates, planned, (a + b)[m], (a + b)[n]) {
      if n >= |a| { assert (a + b)[n] == b[n - |a|]; }
      if m >= |a| { assert (a + b)[m] == b[m - |a|]; } else { assert (a + b)[m] == a[m]; }
    }
  }

  lemma {:induction false} BlocksInTurn(gates: seq<Gate>, planned: seq<PhaseId>, x: Id, p: PhaseId, blocks: seq<Block>, n: nat)
    requires n <= |blocks|
    ensures AllInTurn(gates, planned, BlockSteps(x, p, blocks, n))
    ensures forall s :: s in BlockSteps(x, p, blocks, n) ==> s.Sent? && s.device == x && s.phase == p && s.index < n
    decreases n
  {
    if n > 0 {
      BlocksInTurn(gates, planned, x, p, blocks, n - 1);
      TurnsJoin(gates, planned, BlockSteps(x, p, blocks, n - 1), [Sent(x, p, n - 1, blocks[n - 1])]);
    }
  }

  lemma {:induction false} SendsInTurn(gates: seq<Gate>, planned: seq<PhaseId>, r: Rendered, ids: seq<Id>, p: PhaseId)
    requires Ascending(ids)
    ensures AllInTurn(gates, planned, SendSteps(r, ids, p))
    ensures forall s :: s in SendSteps(r, ids, p) ==> s.Sent? && s.device in ids && s.phase == p
    decreases |ids|
  {
    if ids != [] {
      var init, last := ids[..|ids| - 1], ids[|ids| - 1];
      SendsInTurn(gates, planned, r, init, p);
      BlocksInTurn(gates, planned, last, p, BlocksOf(r, last, p), |BlocksOf(r, last, p)|);
      assert forall x :: x in init ==> StringLe(x, last) && x != last;
      TurnsJoin(gates, planned, SendSteps(r, init, p), DeviceSteps(r, last, p));
    }
  }

  lemma {:induction false} GatesInTurn(gates: seq<Gate>, planned: seq<PhaseId>, p: PhaseId, n: nat)
    requires n <= |gates|
    ensures AllInTurn(gates, planned, GateSteps(gates[..n], p))
    ensures forall s :: s in GateSteps(gates[..n], p) ==> s.Passed? && s.gate in gates[..n] && s.gate.phase == p
    decreases n
  {
    if n > 0 {
      GatesInTurn(gates, planned, p, n - 1);
      var last := gates[n - 1];
      assert gates[..n][..n - 1] == gates[..n - 1];
      var more := if last.phase == p then [Passed(last)] else [];
      forall s, t | s in GateSteps(gates[..n - 1], p) && t in more ensures InTurn(gates, planned, s, t) {
        var i :| 0 <= i < n - 1 && gates[i] == s.gate;
        assert gates[n - 1] == t.gate;
      }
      TurnsJoin(gates, planned, GateSteps(gates[..n - 1], p), more);
    }
  }

  lemma PhaseInTurn(gates: seq<Gate>, planned: seq<PhaseId>, r: Rendered, ids: seq<Id>, ise: bool, p: PhaseId)
    requires Ascending(ids)
    ensures AllInTurn(gates, planned, PhaseSteps(r, ids, gates, ise, p))
    ensures forall s :: s in PhaseSteps(r, ids, gates, ise, p) ==> PhaseOf(s) == p
  {
    SendsInTurn(gates, planned, r, ids, p);
    GatesInTurn(gates, planned, p, |gates|);
    assert gates[..|gates|] == gates;
    TurnsJoin(gates, planned, PolicySteps(ise, p), SendSteps(r, ids, p));
    TurnsJoin(gates, planned, PolicySteps(ise, p) + SendSteps(r, ids, p), GateSteps(gates, p));
  }

  /** Executed phases keep their plan order. */
  lemma {:induction false} ExecutedInOrder(planned: seq<PhaseId>)
    ensures forall i, j :: 0 <= i < j < |ExecutedOnly(planned)| ==> PhaseFirst(planned, ExecutedOnly(planned)[i], ExecutedOnly(planned)[j])
    ensures forall p :: p in ExecutedOnly(planned) ==> p in planned && Executed(p)
    decreases |planned|
  {
    if planned != [] {
      var n := |planned| - 1;
      var init := planned[..n];
      ExecutedInOrder(init);
      var phases := ExecutedOnly(planned);
      forall i, j | 0 <= i < j < |phases| ensures PhaseFirst(planned, phases[i], phases[j]) {
        var before := ExecutedOnly(init);
        assert phases[i] == before[i] && before[i] in before && before[i] in init;
        if j < |before| {
          assert PhaseFirst(init, before[i], before[j]);
        } else {
          var k :| 0 <= k < n && init[k] == before[i];
          assert planned[k] == phases[i] && planned[n] == phases[j];
        }
      }
    }
  }

  lemma {:induction false} PhasesInTurn(gates: seq<Gate>, planned: seq<PhaseId>, r: Rendered, ids: seq<Id>, ise: bool, phases: seq<PhaseId>)
    requires Ascending(ids) && forall i, j :: 0 <= i < j < |phases| ==> PhaseFirst(planned, phases[i], phases[j])
    ensures AllInTurn(gates, planned, RunSteps(r, ids, gates, ise, phases))
    ensures forall s :: s in RunSteps(r, ids, gates, ise, phases) ==> PhaseOf(s) in phases
    decreases |phases|
  {
    if phases == [] {
      assert RunSteps(r, ids, gates, ise, phases) == [];
    } else {
      var init, last := phases[..|phases| - 1], phases[|phases| - 1];
      PhasesInTurn(gates, planned, r, ids, ise, init);
      PhaseInTurn(gates, planned, r, ids, ise, last);
      RunStepsGrow(r, ids, gates, ise, init, last);
      assert phases == init + [last];
      TurnsJoin(gates, planned, RunSteps(r, ids, gates, ise, init), PhaseSteps(r, ids, gates, ise, last));
    }
  }

  /**
   Of any two steps of a successful run, or of any run so far, the earlier one belongs to an
   earlier phase, or comes first in its phase: ISE before devices, devices by id, each device's
   blocks in rendered order, then the gates in gate-plan order; prechecks before everything.
   */
  lemma StepsAreInTurn(r: Rendered, gates: seq<Gate>, ise: bool, planned: seq<PhaseId>, log: seq<Step>, m: nat, n: nat)
    requires log <= ExpectedSteps(r, gates, ise, planned) && m < n < |log|
    ensures InTurn(gates, planned, log[m], log[n])
  {
    var ids, phases := SortedIds(r.Keys), ExecutedOnly(planned);
    var checks, run := GateSteps(gates, Precheck), RunSteps(r, ids, gates, ise, phases);
    ExecutedInOrder(planned);
    PhasesInTurn(gates, planned, r, ids, ise, phases);
    GatesInTurn(gates, planned, Precheck, |gates|);
    assert gates[..|gates|] == gates;
    TurnsJoin(gates, planned, checks, run);
    assert log[m] == (checks + run)[m] && log[n] == (checks + run)[n];
  }

  lemma {:induction false} SendsAreNoPolicy(r: Rendered, ids: seq<Id>, p: PhaseId)
    ensures Occurs(SendSteps(r, ids, p), PolicyApplied) == 0
    decreases |ids|
  {
    if ids != [] {
      var init, last := ids[..|ids| - 1], ids[|ids| - 1];
      SendsAreNoPolicy(r, init, p);
      BlocksInTurn([], [], last, p, BlocksOf(r, last, p), |BlocksOf(r, last, p)|);
      OccursIffIn(DeviceSteps(r, last, p), PolicyApplied);
      OccursJoin(SendSteps(r, init, p), DeviceSteps(r, last, p), PolicyApplied);
    }
  }

  lemma PhasePolicy(r: Rendered, ids: seq<Id>, gates: seq<Gate>, ise: bool, p: PhaseId)
    ensures Occurs(PhaseSteps(r, ids, gates, ise, p), PolicyApplied) == if ise && p == PolicyPlane then 1 else 0
  {
    SendsAreNoPolicy(r, ids, p);
    GateStepsSendNothing(gates, p, PolicyApplied);
    OccursOne(PolicyApplied, PolicyApplied);
    OccursJoin(PolicySteps(ise, p), SendSteps(r, ids, p), PolicyApplied);
    OccursJoin(PolicySteps(ise, p) + SendSteps(r, ids, p), GateSteps(gates, p), PolicyApplied);
  }

  /** With an ISE manifest and the policy phase in the plan, a successful run carries the ISE transaction out once, else never. */
  lemma PolicyIsAppliedOnce(r: Rendered, gates: seq<Gate>, ise: bool, planned: seq<PhaseId>)
    requires NoRepeats(planned)
    ensures Occurs(ExpectedSteps(r, gates, ise, planned), PolicyApplied) == if ise && PolicyPlane in planned then 1 else 0
  {
    var ids, phases := SortedIds(r.Keys), ExecutedOnly(planned);
    var parts := PhaseParts(r, ids, gates, ise, phases);
    ExecutedExact(planned);
    forall i | 0 <= i < |parts| ensures Occurs(parts[i], PolicyApplied) == if phases[i] == PolicyPlane then if ise then 1 else 0 else 0 {
      PhasePolicy(r, ids, gates, ise, phases[i]);
    }
    FlatCount(parts, phases, PolicyPlane, PolicyApplied, if ise then 1 else 0);
    GateStepsSendNothing(gates, Precheck, PolicyApplied);
    OccursJoin(GateSteps(gates, Precheck), RunSteps(r, ids, gates, ise, phases), PolicyApplied);
  }
}
