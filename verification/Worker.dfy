/**
 The apply saga (orchestrator/worker.py): `process_apply` drives the store, the devices
 and the ISE transaction, and branches on every failure.
 */
module Worker {
  import opened Basics
  import opened Ordering
  import opened Allocator
  import Reconciliation
  import opened Store
  import opened StateStore
  import opened StoreRuns
  import opened Planning
  import opened GatePlan
  import opened SagaLog
  import opened Devices
  import opened IseObjects
  import IseJournal
  import opened IseServer
  import opened IseOperations
  import opened IsePlan
  import opened IseSmooth
  import opened IseAdapter

  // ----- What the worker is handed -----

  datatype IseManifest = IseManifest(marker: string, operations: seq<Operation>, node: Id)

  /** The artifact: `intact` says that its hash is the hash of its body. */
  datatype Artifact = Artifact(hash: string, intact: bool, planHash: string, devices: Rendered, retired: set<Id>,
    owned: Reconciliation.Manifest, blockers: seq<Option<string>>, ise: Option<IseManifest>)

  datatype Job = Job(run: Id, active: set<Id>, planned: seq<PhaseId>, planHash: string, artifact: Artifact, gates: seq<Gate>,
    allowed: set<string>, secretsAvailable: bool, iseEnabled: bool, primaryNode: bool, defaultDeny: bool)

  datatype Admission = Refused | Blocked | Admitted

  datatype Attempt = Done | PrecheckFailed | Broken

  /** `ended`: the run had come to its end when the exception was raised. */
  datatype Outcome = Finished(succeeded: bool, rolledBack: bool) | Raised(ended: bool)

  /** `_unresolved_blocker_codes`: codes not allowed, and malformed entries. */
  function Unresolved(blockers: seq<Option<string>>, allowed: set<string>): seq<string> {
    if blockers == [] then []
    else
      (match blockers[0]
       case None => [""]
       case Some(code) => if code == "" || code !in allowed then [code] else [])
      + Unresolved(blockers[1..], allowed)
  }

  lemma {:induction false} UnresolvedExact(blockers: seq<Option<string>>, allowed: set<string>)
    ensures Unresolved(blockers, allowed) == [] <==>
            forall b :: b in blockers ==> b.Some? && b.value != "" && b.value in allowed
    decreases |blockers|
  {
    if blockers != [] {
      UnresolvedExact(blockers[1..], allowed);
      assert blockers == [blockers[0]] + blockers[1..];
    }
  }

  function Targets(job: Job): set<Id> { job.active + job.artifact.devices.Keys }

  /** The ISE write node that the artifact names. */
  function NodeOf(job: Job): Option<Id> {
    if job.artifact.ise.None? then None else Some(job.artifact.ise.value.node)
  }

  function Expected(job: Job): seq<Step> {
    ExpectedSteps(job.artifact.devices, job.gates, job.artifact.ise.Some?, job.planned)
  }

  // ----- What a run asks for -----

  /** The run is queued for apply, and the intact artifact and the plan are the ones it was created for. */
  ghost predicate Binds(job: Job, db: Db) {
    && job.run in db.runs && db.runs[job.run].mode == Apply && db.runs[job.run].status == ApplyQueued
    && |job.artifact.hash| == 64 && job.artifact.intact && job.artifact.hash == db.runs[job.run].artifactHash
    && job.artifact.planHash == db.runs[job.run].planHash && job.planHash == db.runs[job.run].planHash
  }

  /** Every blocking requirement is well formed and was allowed by name. */
  ghost predicate Clears(job: Job) {
    forall b :: b in job.artifact.blockers ==> b.Some? && b.value != "" && b.value in job.allowed
  }

  /** The artifact's devices are the intent's or declared retired ones, and its secrets are at hand. */
  ghost predicate Supplied(job: Job) {
    (forall x :: x in job.artifact.devices ==> x in job.active || x in job.artifact.retired) && job.secretsAvailable
  }

  /** Every gate of the phase is on a device that the run connects to. */
  ghost predicate Addressed(job: Job, p: PhaseId) {
    forall g :: g in job.gates && g.phase == p ==> g.device in Targets(job)
  }

  /** The policy phase does not come twice. */
  ghost predicate PolicyOnce(phases: seq<PhaseId>) { multiset(phases)[PolicyPlane] <= 1 }

  /** The fleet has the devices, the policy phase comes once at most, and the gates are on the devices. */
  ghost predicate Equipped(job: Job, fleet: set<Id>) {
    && Targets(job) <= fleet && PolicyOnce(job.planned) && Addressed(job, Precheck)
    && forall p :: p in job.planned && Executed(p) ==> Addressed(job, p)
  }

  /** The node serves the prepared actions to their end. */
  ghost predicate WillApply(script: Script, marker: string, objects: Objects, tick: nat, actions: seq<Action>) {
    && (forall i :: 0 <= i < |actions| && IsNamed(actions[i]) ==> HasName(actions[i]))
    && Smooth(script, tick, ApplyRun(script, marker, objects, tick, actions))
  }

  /** And there the objects are these. */
  ghost predicate EndsAt(script: Script, marker: string, objects: Objects, tick: nat, actions: seq<Action>, target: Objects) {
    WillApply(script, marker, objects, tick, actions) && ApplyRun(script, marker, objects, tick, actions).value.node.objects == target
  }

  /** The node serves the connection, the preflight and the plan, which it does not refuse, and then the plan's actions. */
  ghost predicate WillServe(script: Script, m: IseManifest, objects: Objects, tick: nat) {
    && Serves(script, tick, tick + 3)
    && var plan := PlanAll(m.marker, objects, tick + 3, Sort(m.operations, OperationLe));
       && SmoothPlan(script, tick + 3, plan) && WillApply(script, m.marker, objects, plan.value.tick, plan.value.actions)
  }

  /** An ISE manifest is valid and belongs to a plan with the policy phase, and its primary, default-deny node serves it. */
  ghost predicate PolicyReady(job: Job, script: Script, objects: Objects, tick: nat) {
    job.artifact.ise.Some? ==>
      && job.iseEnabled && ManifestValid(job.artifact.ise.value.marker, job.artifact.ise.value.operations)
      && job.primaryNode && job.defaultDeny && PolicyPlane in job.planned && WillServe(script, job.artifact.ise.value, objects, tick)
  }

  /** Where a node that serves takes the objects; None when it will not serve. */
  ghost function Forecast(job: Job, script: Script, objects: Objects, tick: nat): Option<Objects> {
    if !PolicyReady(job, script, objects, tick) then None
    else if job.artifact.ise.None? then Some(objects)
    else
      var m := job.artifact.ise.value;
      var plan := PlanAll(m.marker, objects, tick + 3, Sort(m.operations, OperationLe)).value;
      Some(ApplyRun(script, m.marker, objects, plan.tick, plan.actions).value.node.objects)
  }

  lemma ForecastIffReady(job: Job, script: Script, objects: Objects, tick: nat)
    ensures Forecast(job, script, objects, tick).Some? <==> PolicyReady(job, script, objects, tick)
  {
  }

  lemma ForecastNeeds(job: Job, script: Script, objects: Objects, tick: nat)
    ensures Forecast(job, script, objects, tick).Some? && job.artifact.ise.Some? ==>
              && job.iseEnabled && ManifestValid(job.artifact.ise.value.marker, job.artifact.ise.value.operations)
              && PolicyPlane in job.planned
    ensures job.artifact.ise.None? ==> Forecast(job, script, objects, tick) == Some(objects)
  {
  }

  /** What the preparation and the transaction meet on a node that will serve. */
  lemma ForecastInParts(job: Job, m: IseManifest, script: Script, objects: Objects, tick: nat) returns (plan: Option<Plan>)
    requires job.artifact.ise == Some(m)
    ensures plan == PlanAll(m.marker, objects, tick + 3, Sort(m.operations, OperationLe))
    ensures var target := Forecast(job, script, objects, tick);
            target.Some? ==>
              && job.primaryNode && job.defaultDeny && script(tick).answered && SmoothPlan(script, tick + 1, plan)
              && EndsAt(script, m.marker, objects, plan.value.tick, plan.value.actions, target.value)
  {
    plan := PlanAll(m.marker, objects, tick + 3, Sort(m.operations, OperationLe));
  }

  /** The store admits the commit of the running run. */
  ghost predicate Committable(job: Job, db: Db) {
    && Reconciliation.ManifestValid(job.artifact.owned) && |job.artifact.hash| == 64
    && job.run in db.runs && db.runs[job.run].status == ApplyRunning && db.runs[job.run].artifactHash == job.artifact.hash
    && db.runs[job.run].fabric == job.artifact.owned.body.fabric
    && !Referenced(db.manifests, Reconciliation.RunReference(job.run))
  }

  lemma StaysCommittable(job: Job, base: Db, now: Db)
    requires Quiet(base, now)
    ensures Committable(job, base) ==> Committable(job, now)
  {
  }

  /** What the commit asks of the artifact's owned state. */
  ghost predicate Ownable(job: Job, db: Db) {
    Reconciliation.ManifestValid(job.artifact.owned) && job.run in db.runs && db.runs[job.run].fabric == job.artifact.owned.body.fabric
  }

  /** Only a run that has succeeded is named by a manifest. */
  lemma QueuedIsUnreferenced(db: Db, run: Id)
    requires RunsSafe(db)
    ensures LocksSafe(db.runs, db.locks)
    ensures run in db.runs && db.runs[run].status == ApplyQueued ==> !Referenced(db.manifests, Reconciliation.RunReference(run))
  {
    forall row | row in db.manifests && row.reference == Reconciliation.RunReference(run)
      ensures run in db.runs ==> db.runs[run].status == ApplySucceeded
    {
      assert CommittedRow(db.runs, row);
    }
  }

  // ----- Store bookkeeping -----

  /** Event ids are fresh: `uuid4` never repeats an id. */
  ghost predicate UuidsFresh(audit: seq<AuditRow>, uuids: nat -> Id, next: nat) {
    && (forall m: nat, n: nat :: m != n ==> uuids(m) != uuids(n))
    && (forall m: nat :: m >= next ==> FreshEvent(audit, uuids(m)))
  }

  /** Only evidence, audit and clock have moved. */
  ghost predicate Quiet(before: Db, after: Db) {
    after == before.(evidence := after.evidence, audit := after.audit, clock := after.clock)
  }

  ghost predicate Moved(before: Db, after: Db, run: Id, status: Status)
    requires run in before.runs
  {
    after == before.(runs := before.runs[run := before.runs[run].(status := status)],
                     locks := if Terminal(status) then Unlock(before.locks, run) else before.locks,
                     audit := after.audit, clock := after.clock)
  }

  /** The plan's reservation, if it has one, admits the move. */
  ghost predicate MaySettle(db: Db, plan: Id, to: Option<State>) {
    to.Some? ==>
      && plan in db.plans
      && var bound := db.plans[plan].reservation;
         bound.Some? ==> bound.value in db.reservations && MayMove(db.reservations[bound.value].state, to.value)
  }

  ghost predicate SameLedger(before: Db, after: Db) {
    after.plans == before.plans && after.reservations == before.reservations && after.nets == before.nets && after.scalars == before.scalars
  }

  /** The plan's reservation has moved with all its rows, if it admits the move; else nothing of the ledger has. */
  ghost predicate LedgerAfter(before: Db, after: Db, plan: Id, to: Option<State>) {
    && after.plans == before.plans
    && if to.Some? && MaySettle(before, plan, to) && before.plans[plan].reservation.Some? then
         var id := before.plans[plan].reservation.value;
         && after.reservations == before.reservations[id := before.reservations[id].(state := to.value)]
         && after.nets == MoveNets(before.nets, id, to.value) && after.scalars == MoveScalars(before.scalars, id, to.value)
       else SameLedger(before, after)
  }

  /** Beside the ledger only audit and clock have moved. */
  ghost predicate LedgerOnly(before: Db, after: Db) {
    after == before.(reservations := after.reservations, nets := after.nets, scalars := after.scalars, audit := after.audit, clock := after.clock)
  }

  ghost predicate Completed(before: Db, after: Db, run: Id, artifact: Artifact)
    requires run in before.runs
  {
    && before.runs[run].status == ApplyRunning
    && |after.manifests| == |before.manifests| + 1
    && after.manifests[|before.manifests|].reference == Reconciliation.RunReference(run)
    && after.manifests[|before.manifests|].manifest == artifact.owned
    && after == before.(runs := before.runs[run := before.runs[run].(status := ApplySucceeded)],
                        locks := Unlock(before.locks, run),
                        manifests := before.manifests + [after.manifests[|before.manifests|]],
                        audit := after.audit, clock := after.clock)
  }

  /** The run went through its rollback to the given end; evidence aside nothing else moved. */
  ghost predicate RolledTo(before: Db, after: Db, run: Id, status: Status)
    requires run in before.runs
  {
    after == before.(runs := before.runs[run := before.runs[run].(status := status)], locks := Unlock(before.locks, run),
                     evidence := after.evidence, audit := after.audit, clock := after.clock)
  }

  /** The run has become active; its lock is held. */
  ghost predicate Started(before: Db, base: Db, run: Id) {
    && run in before.runs && LocksSafe(before.runs, before.locks)
    && before.runs[run].mode == Apply && before.runs[run].status == ApplyQueued
    && Moved(before, base, run, ApplyRunning)
  }

  /** Where a run's end puts the plan's reservation; a clean failure leaves it alone. */
  function Destination(status: Status): Option<State> {
    if status == ApplySucceeded then Some(Committed)
    else if status == RolledBack then Some(Released)
    else if status == RollbackFailed then Some(Quarantined)
    else None
  }

  /** What the call reports of a run that has ended: it raises when the plan's reservation does not admit the move. */
  ghost function Verdict(db: Db, plan: Id, status: Status): Outcome {
    if MaySettle(db, plan, Destination(status)) then Finished(status == ApplySucceeded, status == RolledBack) else Raised(true)
  }

  /** Outcome coupling: the run is terminal, the fabric unlocked, the reservation where the end puts it, if it admits the move. */
  ghost predicate Ended(before: Db, after: Db, run: Id, status: Status) {
    && run in before.runs && Terminal(status)
    && after.runs == before.runs[run := before.runs[run].(status := status)]
    && after.locks == Unlock(before.locks, run) && before.runs[run].fabric !in after.locks
    && LedgerAfter(before, after, before.runs[run].plan, Destination(status))
    && after.approvals == before.approvals && after.intents == before.intents
    && (status != ApplySucceeded ==> after.manifests == before.manifests)
  }

  /**
   What a run's end says.  Rolled back: every device and every ISE object is as before.
   Failed: nothing was sent to any device, and nothing has changed.  Succeeded: the owned
   state was committed.  The run is terminal and its bookkeeping coupled to its end.  The
   call returns if and only if the plan has no reservation or its state at entry admits the
   move that the end asks for.
   */
  ghost predicate Judged(o: Outcome, before: Db, after: Db, job: Job, configs: map<Id, Config>, configs': map<Id, Config>,
                         objects: Objects, objects': Objects, steps: seq<Step>)
  {
    && job.run in before.runs && job.run in after.runs
    && var status := after.runs[job.run].status;
       && Ended(before, after, job.run, status)
       && status in {ApplySucceeded, ApplyFailed, RolledBack, RollbackFailed}
       && o == Verdict(before, before.runs[job.run].plan, status)
       && (status == ApplySucceeded ==> CommittedLast(before.manifests, after.manifests, job))
       && (status == RolledBack ==> configs' == configs && Restored(objects, objects'))
       && (status == ApplyFailed ==> configs' == configs && objects' == objects && forall s :: s in steps ==> !s.Sent?)
  }

  lemma FabricUnlocked(before: Db, run: Id)
    requires run in before.runs && LocksSafe(before.runs, before.locks) && Live(before.runs[run])
    ensures before.runs[run].fabric !in Unlock(before.locks, run)
  {
  }

  lemma EndsFailed(before: Db, base: Db, now: Db, after: Db, run: Id)
    requires Started(before, base, run) && Quiet(base, now) && Moved(now, after, run, ApplyFailed)
    ensures Ended(before, after, run, ApplyFailed)
  {
    FabricUnlocked(before, run);
  }

  lemma EndsUndone(before: Db, base: Db, now: Db, undone: Db, after: Db, run: Id, status: Status)
    requires Started(before, base, run) && Quiet(base, now) && status in {RolledBack, RollbackFailed}
    requires run in now.runs && RolledTo(now, undone, run, status)
    requires LedgerOnly(undone, after) && LedgerAfter(undone, after, before.runs[run].plan, Destination(status))
    ensures Ended(before, after, run, status)
    ensures MaySettle(before, before.runs[run].plan, Destination(status)) <==> MaySettle(undone, before.runs[run].plan, Destination(status))
  {
    FabricUnlocked(before, run);
    assert SameLedger(before, undone);
  }

  /** The ledger's newest row is the artifact's owned state, committed by this run. */
  ghost predicate CommittedLast(before: seq<ManifestRow>, after: seq<ManifestRow>, job: Job) {
    && |after| == |before| + 1 && after[..|before|] == before
    && after[|before|].reference == Reconciliation.RunReference(job.run) && after[|before|].manifest == job.artifact.owned
  }

  lemma EndsCompleted(before: Db, base: Db, now: Db, done: Db, after: Db, run: Id, artifact: Artifact)
    requires Started(before, base, run) && Quiet(base, now)
    requires run in now.runs && Completed(now, done, run, artifact)
    requires LedgerOnly(done, after) && LedgerAfter(done, after, before.runs[run].plan, Some(Committed))
    ensures Ended(before, after, run, ApplySucceeded) && after.manifests == done.manifests
    ensures MaySettle(before, before.runs[run].plan, Some(Committed)) <==> MaySettle(done, before.runs[run].plan, Some(Committed))
  {
    FabricUnlocked(before, run);
    assert SameLedger(before, done);
  }

  function UndoneStatus(failures: bool): Status { if failures then RollbackFailed else RolledBack }

  lemma JudgedUndone(before: Db, after: Db, job: Job, failures: bool, configs: map<Id, Config>, configs': map<Id, Config>,
                     objects: Objects, objects': Objects, steps: seq<Step>)
    requires Ended(before, after, job.run, UndoneStatus(failures))
    requires !failures ==> configs' == configs && Restored(objects, objects')
    ensures Judged(Verdict(before, before.runs[job.run].plan, UndoneStatus(failures)), before, after, job, configs, configs', objects, objects', steps)
  {
  }

  /** Devices outside `changed` are untouched; checkpoints hold the initial configurations. */
  ghost predicate DevicesSafe(initial: map<Id, Config>, configs: map<Id, Config>, checkpoints: map<Id, Config>, changed: seq<Id>) {
    && configs.Keys == initial.Keys
    && (forall x :: x in configs && x !in changed ==> configs[x] == initial[x])
    && (forall x :: x in checkpoints ==> x in initial && checkpoints[x] == initial[x])
    && (forall x :: x in changed ==> x in checkpoints)
  }

  /** The devices that were sent anything, in the order in which they first were. */
  ghost function Reached(steps: seq<Step>): seq<Id> {
    if steps == [] then []
    else
      var init, last := Reached(steps[..|steps| - 1]), steps[|steps| - 1];
      if last.Sent? && last.device !in init then init + [last.device] else init
  }

  lemma ReachedNext(steps: seq<Step>, s: Step)
    ensures Reached(steps + [s]) == if s.Sent? && s.device !in Reached(steps) then Reached(steps) + [s.device] else Reached(steps)
  {
    assert (steps + [s])[..|steps|] == steps;
  }

  /** The devices marked as changed are those that were sent anything, in that order. */
  ghost predicate SendsMarked(steps: seq<Step>, changed: seq<Id>) {
    changed == Reached(steps) && forall s :: s in steps && s.Sent? ==> s.device in changed
  }

  lemma MarkedStep(steps: seq<Step>, s: Step, changed: seq<Id>)
    requires SendsMarked(steps, changed) && s.Sent?
    ensures SendsMarked(steps + [s], if s.device in changed then changed else changed + [s.device])
  {
    ReachedNext(steps, s);
  }

  lemma QuietStep(steps: seq<Step>, s: Step, taken: bool, changed: seq<Id>)
    requires SendsMarked(steps, changed) && !s.Sent?
    ensures SendsMarked(steps + if taken then [s] else [], changed)
  {
    ReachedNext(steps, s);
    assert steps + [] == steps;
  }

  /** The devices of `order` down to the i-th were tried, one after the other from its end. */
  ghost predicate TriedInReverse(undone: seq<(Id, bool)>, order: seq<Id>, i: nat)
    requires i <= |order|
  {
    |undone| == |order| - i && forall k :: 0 <= k < |undone| ==> undone[k].0 == order[|order| - 1 - k]
  }

  /** Some device's rollback was not verified. */
  ghost predicate Unverified(undone: seq<(Id, bool)>) {
    exists k :: 0 <= k < |undone| && !undone[k].1
  }

  lemma NothingTried(order: seq<Id>)
    ensures TriedInReverse([], order, |order|) && !Unverified([])
  {
  }

  lemma TriedNext(undone: seq<(Id, bool)>, order: seq<Id>, i: nat, verified: bool)
    requires i < |order| && TriedInReverse(undone, order, i + 1)
    ensures TriedInReverse(undone + [(order[i], verified)], order, i)
    ensures Unverified(undone + [(order[i], verified)]) <==> Unverified(undone) || !verified
  {
    var all := undone + [(order[i], verified)];
    assert all[|undone|] == (order[i], verified) && forall k :: 0 <= k < |undone| ==> all[k] == undone[k];
  }

  class TransactionWorker {
    const store: Tables
    const fleet: Fleet
    const server: Server
    const actor: Id
    const uuids: nat -> Id
    var nextUuid: nat
    /** The locals of `process_apply` that its exception handler reads. */
    var checkpoints: map<Id, Config>
    var changed: seq<Id>
    var ise: Adapter?
    /** The store when the run became active, the configurations and the ISE objects at entry. */
    ghost var base: Db
    ghost var initial: map<Id, Config>
    ghost var objects: Objects
    /** The number of fleet calls before this one, and where the ISE node will take the objects, if it serves. */
    ghost var entry: nat
    ghost var target: Option<Objects>
    /** Whether the ISE transaction was rolled back, and verified so; None: that was not tried. */
    ghost var iseUndone: Option<bool>

    constructor (store: Tables, fleet: Fleet, server: Server, actor: Id, uuids: nat -> Id)
    {
      this.store, this.fleet, this.server, this.actor, this.uuids := store, fleet, server, actor, uuids;
      nextUuid, checkpoints, changed, ise := 0, map[], [], null;
    }

    ghost predicate Ready(run: Id)
      reads this`nextUuid, store
    {
      run in store.runs && UuidsFresh(store.audit, uuids, nextUuid)
    }

    method Evidence(run: Id, phase: Id, device: Option<Id>, kind: string, payload: string)
      requires Ready(run)
      modifies this`nextUuid, store
      ensures Ready(run) && Quiet(old(store.View()), store.View())
      ensures EvidenceKey(run, phase, device, kind, payload) in store.evidence
    {
      var error := store.AddEvidence(EvidenceKey(run, phase, device, kind, payload), actor, uuids(nextUuid));
      nextUuid := nextUuid + 1;
    }

    method Move(run: Id, status: Status)
      requires Ready(run) && MayProceed(store.runs[run].status, status)
      modifies this`nextUuid, store
      ensures Ready(run) && Moved(old(store.View()), store.View(), run, status)
    {
      var error := store.TransitionRun(run, status, actor, uuids(nextUuid));
      nextUuid := nextUuid + 1;
    }

    ghost function IseFrame(): set<object>
      reads this`ise
    {
      if ise == null then {} else {ise}
    }

    /** ISE is as at entry, or the adapter's journal accounts for the difference. */
    ghost predicate IseSafe()
      reads this`ise, this`objects, server`objects, server`writes, IseFrame()
    {
      if ise == null then server.objects == objects
      else ise.server == server && ise.Valid() && ise.origin == objects
    }

    /** Every fleet call of this run was answered, and its verdict held. */
    ghost predicate Held()
      reads fleet`fault
    {
      fleet.fault == None
    }

    /** A noted fault is one of this run's calls. */
    ghost predicate FaultIsReal()
      reads this`entry, fleet`fault, fleet`tick
    {
      && entry <= fleet.tick
      && (fleet.fault.Some? ==>
            && entry <= fleet.fault.value < fleet.tick
            && !(fleet.script(fleet.fault.value).answered && fleet.script(fleet.fault.value).holds))
    }

    /** If the node will serve, the ISE transaction is prepared and leads to the target. */
    ghost predicate Pending()
      reads this`ise, this`target, server, IseFrame()
    {
      target.Some? ==> if ise == null then server.objects == target.value else
        && ise.server == server && ise.journal == [] && ise.prepared.Some?
        && EndsAt(server.script, ise.marker, server.objects, server.tick, ise.prepared.value, target.value)
    }

    /** If the node was to serve, its objects are as foretold. */
    ghost predicate Enforced()
      reads this`target, server`objects
    {
      target.Some? ==> server.objects == target.value
    }

    /** What holds at every point of the attempt, whatever failed. */
    ghost predicate Working(run: Id)
      reads this, store, fleet`configs, fleet`steps, fleet`tick, fleet`fault, server`objects, server`writes, IseFrame()
    {
      && FaultIsReal()
      && Ready(run) && run in base.runs && base.runs[run].status == ApplyRunning
      && Quiet(base, store.View())
      && DevicesSafe(initial, fleet.configs, checkpoints, changed)
      && SendsMarked(fleet.steps, changed)
      && IseSafe()
    }

    /** Evidence of the attempt: only the store takes note. */
    method Record(run: Id, phase: Id, device: Option<Id>, kind: string, payload: string)
      requires Working(run)
      modifies this`nextUuid, store
      ensures Working(run) && EvidenceKey(run, phase, device, kind, payload) in store.evidence
    {
      Evidence(run, phase, device, kind, payload);
    }

    // ----- Gates -----

    /** `_record_gate`: the evidence is written whatever the verdict. */
    method RecordGate(job: Job, gate: Gate) returns (passed: Option<bool>)
      requires Working(job.run)
      modifies this`nextUuid, store, fleet`tick, fleet`fault, fleet`steps
      ensures Working(job.run)
      ensures fleet.steps == old(fleet.steps) + if passed == Some(true) then [Passed(gate)] else []
      ensures passed.Some? ==> EvidenceKey(job.run, PhaseName(gate.phase), Some(gate.device), "operational_gate", gate.name) in store.evidence
      ensures passed != Some(true) && gate.device in Targets(job) ==> !Held()
      ensures passed == Some(true) && old(Held()) ==> Held()
    {
      if gate.device !in Targets(job) { return None; }
      var verdict := fleet.Show(gate);
      QuietStep(old(fleet.steps), Passed(gate), verdict == Some(true), changed);
      if verdict == None { return None; }
      Record(job.run, PhaseName(gate.phase), Some(gate.device), "operational_gate", gate.name);
      return verdict;
    }

    /** The gates of one phase in gate-plan order: all must pass, blocking or not. */
    method RunGates(job: Job, p: PhaseId) returns (passed: Option<bool>)
      requires Working(job.run)
      modifies this`nextUuid, store, fleet`tick, fleet`fault, fleet`steps
      ensures Working(job.run)
      ensures Along(old(fleet.steps), fleet.steps, GateSteps(job.gates, p))
      ensures passed == Some(true) ==> fleet.steps == old(fleet.steps) + GateSteps(job.gates, p)
      ensures passed != Some(true) && Addressed(job, p) ==> !Held()
      ensures passed == Some(true) && old(Held()) ==> Held()
    {
      var gates := job.gates;
      ghost var before := fleet.steps;
      for i := 0 to |gates|
        invariant Working(job.run)
        invariant old(Held()) ==> Held()
        invariant fleet.steps == before + GateSteps(gates[..i], p)
      {
        passed := RunGate(job, p, i, before);
        if passed != Some(true) { return; }
      }
      assert gates[..|gates|] == gates;
      return Some(true);
    }

    /** The next gate, if it is one of the phase. */
    method RunGate(job: Job, p: PhaseId, i: nat, ghost before: seq<Step>) returns (passed: Option<bool>)
      requires Working(job.run) && i < |job.gates| && fleet.steps == before + GateSteps(job.gates[..i], p)
      modifies this`nextUuid, store, fleet`tick, fleet`fault, fleet`steps
      ensures Working(job.run)
      ensures if passed == Some(true) then fleet.steps == before + GateSteps(job.gates[..i + 1], p)
              else Along(before, fleet.steps, GateSteps(job.gates, p))
      ensures passed != Some(true) && Addressed(job, p) ==> !Held()
      ensures passed == Some(true) && old(Held()) ==> Held()
    {
      GateNext(before, fleet.steps, job.gates, p, i);
      if job.gates[i].phase != p { return Some(true); }
      passed := RecordGate(job, job.gates[i]);
    }

    // ----- Preparation -----

    method ConnectAll(job: Job) returns (ok: bool)
      requires Working(job.run)
      modifies fleet`tick, fleet`fault
      ensures Working(job.run) && (!ok ==> !Held())
      ensures ok && old(Held()) ==> Held()
    {
      var ids := SortedIds(Targets(job));
      for i := 0 to |ids|
        invariant Working(job.run)
        invariant old(Held()) ==> Held()
      {
        ok := fleet.Try();
        if !ok { return; }
      }
      return true;
    }

    /** The ISE executor, if the artifact asks for one: built, connected and prepared. */
    method OpenIse(job: Job) returns (ok: bool)
      requires Working(job.run) && ise == null && target == Forecast(job, server.script, server.objects, server.tick)
      modifies this`nextUuid, this`ise, store, server`tick
      ensures Working(job.run) && (ise != null ==> fresh(ise) && ise.journal == [])
      ensures ok ==> (ise == null <==> job.artifact.ise.None?) && Pending()
      ensures target.Some? ==> ok && (job.artifact.ise.Some? ==> PolicyPlane in job.planned)
      ensures ok && ise != null ==> EvidenceKey(job.run, "precheck", Some(job.artifact.ise.value.node), "ise_ers_preflight", "") in store.evidence
    {
      hide Forecast, EndsAt;
      ForecastNeeds(job, server.script, server.objects, server.tick);
      if job.artifact.ise.None? { return true; }
      if !job.iseEnabled { return false; }
      var m := job.artifact.ise.value;
      var valid := ValidateManifest(m.marker, m.operations);
      if !valid { return false; }
      ok := PrepareIse(job, m);
      if !ok { return; }
      Record(job.run, "precheck", Some(m.node), "ise_ers_preflight", "");
    }

    method PrepareIse(job: Job, m: IseManifest) returns (ok: bool)
      requires Working(job.run) && ise == null && ManifestValid(m.marker, m.operations) && job.artifact.ise == Some(m)
      requires target == Forecast(job, server.script, server.objects, server.tick)
      modifies this`ise, server`tick
      ensures Working(job.run) && ise != null && fresh(ise) && ise.journal == []
      ensures ok ==> job.primaryNode && job.defaultDeny && Pending()
      ensures target.Some? ==> ok
    {
      hide Forecast, EndsAt, Serves, PlanAll, ManifestValid, Quiet, DevicesSafe, SendsMarked, UuidsFresh;
      ghost var plan := ForecastInParts(job, m, server.script, server.objects, server.tick);
      var adapter := new Adapter(m.marker, m.operations, server);
      ok := CheckIse(job, adapter, plan);
      ise := adapter;
    }

    /** Connected, and prepared on the primary node; nothing is written. */
    method CheckIse(job: Job, adapter: Adapter, ghost plan: Option<Plan>) returns (ok: bool)
      requires adapter.server == server && adapter.Valid() && adapter.origin == server.objects && adapter.journal == []
      requires plan == PlanAll(adapter.marker, server.objects, server.tick + 3, Sort(adapter.operations, OperationLe))
      modifies adapter, server`tick
      ensures adapter.Valid() && adapter.origin == server.objects && adapter.journal == []
      ensures ok ==> job.primaryNode && job.defaultDeny
      ensures job.primaryNode && job.defaultDeny && server.script(old(server.tick)).answered && SmoothPlan(server.script, old(server.tick) + 1, plan) ==>
                ok && adapter.prepared == Some(plan.value.actions) && server.tick == plan.value.tick
    {
      var refused := server.Check(true);
      if refused.Some? { return false; }
      refused := adapter.Prepare(job.primaryNode, job.defaultDeny);
      return refused == None;
    }

    /** Every device is checkpointed before anything is sent. */
    method TakeCheckpoints(job: Job, ids: seq<Id>) returns (ok: bool)
      requires Working(job.run) && changed == [] && checkpoints == map[]
      modifies this`nextUuid, this`checkpoints, store, fleet`tick, fleet`fault
      ensures Working(job.run)
      ensures ok ==> forall x :: x in ids <==> x in checkpoints
      ensures !ok && (forall x :: x in ids ==> x in initial) ==> !Held()
      ensures ok && old(Held()) ==> Held()
    {
      hide Working;
      for i := 0 to |ids|
        invariant Working(job.run)
        invariant old(Held()) ==> Held()
        invariant (forall k :: 0 <= k < i ==> ids[k] in checkpoints) && forall x :: x in checkpoints ==> x in ids
      {
        ok := TakeCheckpoint(job, ids[i]);
        if !ok { return; }
      }
      return true;
    }

    method TakeCheckpoint(job: Job, x: Id) returns (ok: bool)
      requires Working(job.run) && changed == []
      modifies this`nextUuid, this`checkpoints, store, fleet`tick, fleet`fault
      ensures Working(job.run)
      ensures forall y :: y in old(checkpoints) ==> y in checkpoints
      ensures ok ==> x in checkpoints && EvidenceKey(job.run, "checkpoint", Some(x), "device_checkpoint", "") in store.evidence
      ensures !ok && x in initial ==> !Held()
      ensures ok && old(Held()) ==> Held()
      ensures forall y :: y in checkpoints ==> y in old(checkpoints) || y == x
    {
      hide Working;
      ok := SaveCheckpoint(job, x);
      if !ok { return; }
      Record(job.run, "checkpoint", Some(x), "device_checkpoint", "");
    }

    method SaveCheckpoint(job: Job, x: Id) returns (ok: bool)
      requires Working(job.run) && changed == []
      modifies this`checkpoints, fleet`tick, fleet`fault
      ensures Working(job.run)
      ensures ok ==> x in initial && checkpoints == old(checkpoints)[x := initial[x]]
      ensures !ok ==> checkpoints == old(checkpoints) && (x in initial ==> !Held())
      ensures ok && old(Held()) ==> Held()
    {
      var saved := fleet.CreateCheckpoint(x);
      if saved == None { return false; }
      checkpoints := checkpoints[x := saved.value];
      return true;
    }

    // ----- One phase -----

    /** The device is marked before the block is sent: it may be half accepted. */
    method SendBlock(job: Job, x: Id, p: PhaseId, i: nat, block: Block) returns (ok: bool)
      requires Working(job.run) && x in checkpoints
      modifies this`nextUuid, this`changed, store, fleet`tick, fleet`fault, fleet`steps, fleet`configs
      ensures Working(job.run)
      ensures fleet.steps == old(fleet.steps) || fleet.steps == old(fleet.steps) + [Sent(x, p, i, block)]
      ensures ok ==> fleet.steps == old(fleet.steps) + [Sent(x, p, i, block)]
      ensures ok ==> EvidenceKey(job.run, PhaseName(p), Some(x), "configuration_block", block.id) in store.evidence
      ensures !ok ==> !Held()
      ensures ok && old(Held()) ==> Held()
    {
      ok := fleet.Try();
      if !ok { return; }
      ok := HandOver(job, x, p, i, block);
      if !ok { return; }
      Record(job.run, PhaseName(p), Some(x), "configuration_block", block.id);
    }

    method HandOver(job: Job, x: Id, p: PhaseId, i: nat, block: Block) returns (ok: bool)
      requires Working(job.run) && x in checkpoints
      modifies this`changed, fleet`tick, fleet`fault, fleet`steps, fleet`configs
      ensures Working(job.run) && (!ok ==> !Held())
      ensures fleet.steps == old(fleet.steps) + [Sent(x, p, i, block)]
      ensures ok && old(Held()) ==> Held()
    {
      hide SendsMarked;
      MarkedStep(fleet.steps, Sent(x, p, i, block), changed);
      if x !in changed { changed := changed + [x]; }
      ok := fleet.ApplyBlock(x, p, i, block);
    }

    method SendDevice(job: Job, x: Id, p: PhaseId, blocks: seq<Block>) returns (ok: bool)
      requires Working(job.run) && x in checkpoints
      modifies this`nextUuid, this`changed, store, fleet`tick, fleet`fault, fleet`steps, fleet`configs
      ensures Working(job.run)
      ensures Along(old(fleet.steps), fleet.steps, BlockSteps(x, p, blocks, |blocks|))
      ensures ok ==> fleet.steps == old(fleet.steps) + BlockSteps(x, p, blocks, |blocks|)
      ensures !ok ==> !Held()
      ensures ok && old(Held()) ==> Held()
    {
      hide Working;
      for i := 0 to |blocks|
        invariant Working(job.run)
        invariant old(Held()) ==> Held()
        invariant fleet.steps == old(fleet.steps) + BlockSteps(x, p, blocks, i)
      {
        ok := SendBlock(job, x, p, i, blocks[i]);
        BlockNext(old(fleet.steps), fleet.steps, x, p, blocks, i);
        if !ok { return; }
      }
      return true;
    }

    method SendPhase(job: Job, ids: seq<Id>, p: PhaseId) returns (ok: bool)
      requires Working(job.run) && forall x :: x in ids ==> x in checkpoints
      modifies this`nextUuid, this`changed, store, fleet`tick, fleet`fault, fleet`steps, fleet`configs
      ensures Working(job.run)
      ensures Along(old(fleet.steps), fleet.steps, SendSteps(job.artifact.devices, ids, p))
      ensures ok ==> fleet.steps == old(fleet.steps) + SendSteps(job.artifact.devices, ids, p)
      ensures !ok ==> !Held()
      ensures ok && old(Held()) ==> Held()
    {
      hide Working;
      var r := job.artifact.devices;
      for i := 0 to |ids|
        invariant Working(job.run)
        invariant old(Held()) ==> Held()
        invariant fleet.steps == old(fleet.steps) + SendSteps(r, ids[..i], p)
      {
        SendStepsNext(r, ids, p, i);
        ok := SendDevice(job, ids[i], p, BlocksOf(r, ids[i], p));
        AlongNext(old(fleet.steps), SendSteps(r, ids[..i], p), fleet.steps, DeviceSteps(r, ids[i], p), SendSteps(r, ids, p));
        if !ok { return; }
      }
      assert ids[..|ids|] == ids;
      return true;
    }

    method ApplyIse(job: Job) returns (ok: bool)
      requires Working(job.run) && ise != null
      modifies fleet`steps, server, ise
      ensures Working(job.run) && fleet.steps == old(fleet.steps) + if ok then [PolicyApplied] else []
      ensures old(Pending()) && target.Some? ==> ok && Enforced()
    {
      var applied := ise.Apply();
      fleet.NotePolicy(applied.Ok?);
      QuietStep(old(fleet.steps), PolicyApplied, applied.Ok?, changed);
      return applied.Ok?;
    }

    /** ISE policy objects are verified before the devices are asked to consume the policy. */
    method ApplyPolicy(job: Job, p: PhaseId) returns (ok: bool)
      requires Working(job.run) && (ise == null <==> job.artifact.ise.None?)
      modifies this`nextUuid, store, fleet`steps, server, IseFrame()
      ensures Working(job.run) && checkpoints == old(checkpoints)
      ensures ok ==> fleet.steps == old(fleet.steps) + PolicySteps(job.artifact.ise.Some?, p)
      ensures !ok ==> fleet.steps == old(fleet.steps) && p == PolicyPlane && (old(Pending()) ==> target == None)
      ensures ok && p == PolicyPlane && old(Pending()) ==> Enforced()
      ensures p != PolicyPlane && old(Enforced()) ==> Enforced()
      ensures ok && p == PolicyPlane && ise != null ==>
                EvidenceKey(job.run, PhaseName(p), Some(job.artifact.ise.value.node), "ise_ers_transaction", "") in store.evidence
      ensures p != PolicyPlane && old(Pending()) ==> Pending()
    {
      if p != PolicyPlane || ise == null { return true; }
      ok := ApplyIse(job);
      if !ok { return; }
      Record(job.run, PhaseName(p), Some(job.artifact.ise.value.node), "ise_ers_transaction", "");
      return true;
    }

    /** Every device's blocks of one phase, then the phase's gates. */
    method SendAndGate(job: Job, ids: seq<Id>, p: PhaseId) returns (ok: bool)
      requires Working(job.run) && forall x :: x in ids ==> x in checkpoints
      modifies this`nextUuid, this`changed, store, fleet`tick, fleet`fault, fleet`steps, fleet`configs
      ensures Working(job.run)
      ensures Along(old(fleet.steps), fleet.steps, SendSteps(job.artifact.devices, ids, p) + GateSteps(job.gates, p))
      ensures ok ==> fleet.steps == old(fleet.steps) + (SendSteps(job.artifact.devices, ids, p) + GateSteps(job.gates, p))
      ensures !ok && Addressed(job, p) ==> !Held()
      ensures ok && old(Held()) ==> Held()
    {
      hide Working, Addressed;
      ghost var before, b, c := fleet.steps, SendSteps(job.artifact.devices, ids, p), GateSteps(job.gates, p);
      ok := SendPhase(job, ids, p);
      if !ok { return; }
      var passed := RunGates(job, p);
      AlongNext(before, b, fleet.steps, c, b + c);
      return passed == Some(true);
    }

    method RunPhase(job: Job, ids: seq<Id>, p: PhaseId) returns (ok: bool)
      requires Working(job.run) && (forall x :: x in ids ==> x in checkpoints) && (ise == null <==> job.artifact.ise.None?)
      modifies this`nextUuid, this`changed, store, fleet`tick, fleet`fault, fleet`steps, fleet`configs, server, IseFrame()
      ensures Working(job.run)
      ensures Along(old(fleet.steps), fleet.steps, PhaseSteps(job.artifact.devices, ids, job.gates, job.artifact.ise.Some?, p))
      ensures ok ==> fleet.steps == old(fleet.steps) + PhaseSteps(job.artifact.devices, ids, job.gates, job.artifact.ise.Some?, p)
      ensures !ok && Addressed(job, p) && (p == PolicyPlane ==> old(Pending()) && target.Some?) ==> !Held()
      ensures p != PolicyPlane && old(Pending()) ==> Pending()
      ensures ok && (if p == PolicyPlane then old(Pending()) else old(Enforced())) ==> Enforced()
      ensures ok && old(Held()) ==> Held()
    {
      hide Working, Pending, Enforced, Addressed;
      ghost var before := fleet.steps;
      ghost var a, b, c := PolicySteps(job.artifact.ise.Some?, p), SendSteps(job.artifact.devices, ids, p), GateSteps(job.gates, p);
      assert a + (b + c) == a + b + c;
      ok := ApplyPolicy(job, p);
      if !ok { return; }
      ok := SendAndGate(job, ids, p);
      AlongNext(before, a, fleet.steps, b + c, a + b + c);
    }

    /** The next phase; the ISE transaction stays pending until its own. */
    method RunNext(job: Job, ids: seq<Id>, phases: seq<PhaseId>, i: nat, ghost before: seq<Step>) returns (ok: bool)
      requires Working(job.run) && (forall x :: x in ids ==> x in checkpoints) && (ise == null <==> job.artifact.ise.None?)
      requires i < |phases| && fleet.steps == before + RunSteps(job.artifact.devices, ids, job.gates, job.artifact.ise.Some?, phases[..i])
      requires PolicyOnce(phases) ==> if PolicyPlane in phases[..i] then Enforced() else Pending()
      modifies this`nextUuid, this`changed, store, fleet`tick, fleet`fault, fleet`steps, fleet`configs, server, IseFrame()
      ensures Working(job.run)
      ensures if ok then fleet.steps == before + RunSteps(job.artifact.devices, ids, job.gates, job.artifact.ise.Some?, phases[..i + 1])
              else Along(before, fleet.steps, RunSteps(job.artifact.devices, ids, job.gates, job.artifact.ise.Some?, phases))
      ensures !ok && target.Some? && PolicyOnce(phases) && Addressed(job, phases[i]) ==> !Held()
      ensures ok && PolicyOnce(phases) ==> if PolicyPlane in phases[..i + 1] then Enforced() else Pending()
      ensures ok && old(Held()) ==> Held()
    {
      hide Working, Pending, Enforced, Addressed, PolicyOnce;
      PhasesGrow(phases, i);
      ok := RunPhase(job, ids, phases[i]);
      PhaseNext(before, fleet.steps, job.artifact.devices, ids, job.gates, job.artifact.ise.Some?, phases, i);
    }

    static lemma PhasesGrow(phases: seq<PhaseId>, i: nat)
      requires i < |phases|
      ensures PolicyPlane in phases[..i + 1] <==> PolicyPlane in phases[..i] || phases[i] == PolicyPlane
      ensures PolicyOnce(phases) && phases[i] == PolicyPlane ==> PolicyPlane !in phases[..i]
    {
      assert phases[..i + 1] == phases[..i] + [phases[i]];
      assert phases == phases[..i] + [phases[i]] + phases[i + 1..];
      assert PolicyPlane in phases[..i] ==> PolicyPlane in multiset(phases[..i]);
    }

    method RunPhases(job: Job, ids: seq<Id>, phases: seq<PhaseId>) returns (ok: bool)
      requires Working(job.run) && (forall x :: x in ids ==> x in checkpoints) && (ise == null <==> job.artifact.ise.None?) && Pending()
      modifies this`nextUuid, this`changed, store, fleet`tick, fleet`fault, fleet`steps, fleet`configs, server, IseFrame()
      ensures Working(job.run)
      ensures Along(old(fleet.steps), fleet.steps, RunSteps(job.artifact.devices, ids, job.gates, job.artifact.ise.Some?, phases))
      ensures ok ==> fleet.steps == old(fleet.steps) + RunSteps(job.artifact.devices, ids, job.gates, job.artifact.ise.Some?, phases)
      ensures !ok && target.Some? && PolicyOnce(phases) && (forall p :: p in phases ==> Addressed(job, p)) ==> !Held()
      ensures ok && PolicyOnce(phases) && PolicyPlane in phases ==> Enforced()
      ensures ok && old(Held()) ==> Held()
    {
      hide Working, Pending, Enforced, Addressed, PolicyOnce;
      ghost var before := fleet.steps;
      assert phases[..0] == [];
      for i := 0 to |phases|
        invariant Working(job.run) && (PolicyOnce(phases) ==> if PolicyPlane in phases[..i] then Enforced() else Pending())
        invariant old(Held()) ==> Held()
        invariant fleet.steps == before + RunSteps(job.artifact.devices, ids, job.gates, job.artifact.ise.Some?, phases[..i])
      {
        ok := RunNext(job, ids, phases, i, before);
        if !ok { return; }
      }
      assert phases[..|phases|] == phases;
      return true;
    }

    // ----- The attempt -----

    /** Connections, the ISE preflight and the prechecks: nothing is written anywhere. */
    method Open(job: Job) returns (a: Attempt)
      requires Working(job.run) && ise == null && changed == [] && checkpoints == map[] && fleet.steps == []
      requires target == Forecast(job, server.script, server.objects, server.tick)
      modifies this`nextUuid, this`ise, store, fleet`tick, fleet`fault, fleet`steps, server`tick
      ensures Working(job.run) && (ise != null ==> fresh(ise) && ise.journal == [])
      ensures fleet.steps <= GateSteps(job.gates, Precheck) && fleet.steps <= Expected(job)
      ensures a == Done ==> fleet.steps == GateSteps(job.gates, Precheck) && (ise == null <==> job.artifact.ise.None?)
      ensures a == Done ==> Pending() && (target.Some? && job.artifact.ise.Some? ==> PolicyPlane in job.planned)
      ensures a != Done && Equipped(job, initial.Keys) && target.Some? ==> !Held()
      ensures a == Done && old(Held()) ==> Held()
    {
      hide Working, EndsAt, Forecast;
      var ok := ConnectAll(job);
      if !ok { return Broken; }
      ok := OpenIse(job);
      if !ok { return Broken; }
      var passed := RunGates(job, Precheck);
      assert [] + GateSteps(job.gates, Precheck) == GateSteps(job.gates, Precheck);
      return if passed == Some(true) then Done else if passed == Some(false) then PrecheckFailed else Broken;
    }

    static lemma ExecutedIsEquipped(job: Job, fleet: set<Id>)
      ensures Equipped(job, fleet) ==>
                && PolicyOnce(ExecutedOnly(job.planned)) && (forall p :: p in ExecutedOnly(job.planned) ==> Addressed(job, p))
                && (PolicyPlane in job.planned ==> PolicyPlane in ExecutedOnly(job.planned))
                && (forall x :: x in SortedIds(Targets(job)) ==> x in fleet)
    {
      ExecutedPhases(job.planned);
    }

    static lemma {:induction false} ExecutedPhases(planned: seq<PhaseId>)
      ensures forall p :: p in ExecutedOnly(planned) <==> p in planned && Executed(p)
      ensures multiset(ExecutedOnly(planned))[PolicyPlane] == multiset(planned)[PolicyPlane]
      decreases |planned|
    {
      if planned != [] {
        var init := planned[..|planned| - 1];
        ExecutedPhases(init);
        assert planned == init + [planned[|planned| - 1]];
      }
    }

    /** Checkpoints, then phase after phase in plan order. */
    method Execute(job: Job) returns (ok: bool)
      requires Working(job.run) && changed == [] && checkpoints == map[] && (ise == null <==> job.artifact.ise.None?)
      requires fleet.steps == GateSteps(job.gates, Precheck) && Pending()
      modifies this`nextUuid, this`changed, this`checkpoints, store, fleet`tick, fleet`fault, fleet`steps, fleet`configs, server, IseFrame()
      ensures Working(job.run)
      ensures fleet.steps <= Expected(job) && (ok ==> fleet.steps == Expected(job))
      ensures !ok && Equipped(job, initial.Keys) && target.Some? && (job.artifact.ise.Some? ==> PolicyPlane in job.planned) ==> !Held()
      ensures ok && Equipped(job, initial.Keys) && job.artifact.ise.Some? ==> Enforced()
      ensures ok && old(Held()) ==> Held()
      ensures changed != [] || ok ==> Checkpointed(job)
    {
      hide Working, Pending, Enforced, Equipped, PolicyOnce, Addressed;
      ExecutedIsEquipped(job, initial.Keys);
      ok := TakeCheckpoints(job, SortedIds(Targets(job)));
      if !ok { return; }
      assert Checkpointed(job);
      hide Checkpointed;
      ok := RunPhases(job, SortedIds(job.artifact.devices.Keys), ExecutedOnly(job.planned));
      if ise != null && PolicyPlane !in ExecutedOnly(job.planned) { ok := false; }
    }

    /** Everything inside the `try` up to the final commit; `PrecheckFailed` is its early return. */
    method Try(job: Job) returns (a: Attempt)
      requires Working(job.run) && ise == null && changed == [] && checkpoints == map[] && fleet.steps == []
      requires target == Forecast(job, server.script, server.objects, server.tick)
      modifies this`nextUuid, this`changed, this`checkpoints, this`ise, store, fleet`tick, fleet`fault, fleet`steps, fleet`configs, server
      ensures Working(job.run) && (ise != null ==> fresh(ise))
      ensures fleet.steps <= Expected(job)
      ensures a == Done ==> fleet.steps == Expected(job)
      ensures a == PrecheckFailed ==> checkpoints == map[] && (ise != null ==> ise.journal == [])
      ensures a != Done && Equipped(job, initial.Keys) && target.Some? ==> !Held()
      ensures a == Done && Equipped(job, initial.Keys) && job.artifact.ise.Some? ==> Enforced()
      ensures a == Done && old(Held()) ==> Held()
      ensures fleet.undone == old(fleet.undone) && iseUndone == old(iseUndone)
      ensures changed != [] || a == Done ==> Checkpointed(job)
    {
      hide Working, Pending, Forecast, Equipped, Enforced;
      a := Open(job);
      if a != Done { return; }
      var ok := Execute(job);
      return if ok then Done else Broken;
    }

    // ----- Commit -----

    /** Moves the plan's reservation, if it has one; the store may refuse. */
    method Settle(run: Id, plan: Id, to: State, verified: bool) returns (ok: bool)
      requires Ready(run) && to != Reserved && (to == Released ==> verified)
      modifies this`nextUuid, store
      ensures Ready(run) && LedgerOnly(old(store.View()), store.View())
      ensures LedgerAfter(old(store.View()), store.View(), plan, Some(to))
      ensures ok <==> MaySettle(old(store.View()), plan, Some(to))
    {
      if plan !in store.plans { return false; }
      var bound := store.plans[plan].reservation;
      if bound.None? { return true; }
      var error := store.TransitionDesignReservation(bound.value, to, actor, verified, uuids(nextUuid));
      nextUuid := nextUuid + 1;
      return error == None;
    }

    /** Success and the new owned state in one transaction; a refusal changes nothing. */
    method Complete(job: Job) returns (ok: bool)
      requires Ready(job.run)
      modifies this`nextUuid, store
      ensures Ready(job.run)
      ensures !ok ==> store.View() == old(store.View())
      ensures ok ==> Completed(old(store.View()), store.View(), job.run, job.artifact)
      ensures Committable(job, old(store.View())) ==> ok
    {
      var error := store.CompleteApply(job.run, job.artifact.hash, job.artifact.owned, actor, uuids(nextUuid), uuids(nextUuid + 1));
      nextUuid := nextUuid + 2;
      return error == None;
    }

    // ----- Rollback -----

    /** What the handler undoes: the changed devices, or else all that were checkpointed. */
    ghost function Suspects(): seq<Id>
      reads this`changed, this`checkpoints
    {
      if changed != [] then changed else SortedIds(checkpoints.Keys)
    }

    /**
     How a run comes to its end.  Succeeded: no call to a device failed, and nothing was undone.
     Failed: nothing had been checkpointed, and nothing was undone.  Otherwise something had been
     checkpointed or written to ISE, and every suspect device was tried, the last one first; the run
     is rolled back if and only if each of these and the ISE transaction, if it had to be, were
     verifiably undone.
     */
    ghost predicate Concluded(status: Status)
      reads this`changed, this`checkpoints, this`iseUndone, fleet`fault, fleet`undone
    {
      && (status == ApplySucceeded ==> Held() && fleet.undone == [] && iseUndone == None)
      && (status == ApplyFailed ==> checkpoints == map[] && fleet.undone == [] && iseUndone == None)
      && (status in {RolledBack, RollbackFailed} ==> Undone(status == RollbackFailed))
    }

    /** Every device of the intent and of the artifact is checkpointed, and no other. */
    ghost predicate Checkpointed(job: Job)
      reads this`checkpoints
    {
      forall x :: x in checkpoints <==> x in job.active || x in job.artifact.devices
    }

    /** Something may have changed, every suspect was tried, and a failure is one of these. */
    ghost predicate Undone(failures: bool)
      reads this`changed, this`checkpoints, this`iseUndone, fleet`undone
    {
      && (checkpoints != map[] || iseUndone.Some?) && TriedInReverse(fleet.undone, Suspects(), 0)
      && (failures <==> Unverified(fleet.undone) || iseUndone == Some(false))
    }

    /** The changed devices in reverse, each on its own; a failure does not stop the others, and is one that a call reports. */
    method RollbackDevices(run: Id, order: seq<Id>) returns (failures: bool)
      requires Ready(run) && FaultIsReal() && fleet.configs.Keys == initial.Keys
      requires forall x :: x in checkpoints ==> x in initial && checkpoints[x] == initial[x]
      requires forall x :: x in order ==> x in checkpoints
      requires forall x :: x in initial && x !in order ==> fleet.configs[x] == initial[x]
      requires fleet.undone == []
      modifies this`nextUuid, store, fleet`tick, fleet`fault, fleet`configs, fleet`undone
      ensures Ready(run) && Quiet(old(store.View()), store.View()) && FaultIsReal() && (Held() ==> old(Held()))
      ensures !failures ==> fleet.configs == initial
      ensures fleet.tick >= old(fleet.tick) && (failures <==> !fleet.HeldSince(old(fleet.tick)))
      ensures TriedInReverse(fleet.undone, order, 0) && (failures <==> Unverified(fleet.undone))
    {
      hide Ready, TriedInReverse, Unverified, FaultIsReal, AllHeld;
      failures := false;
      assert TriedInReverse(fleet.undone, order, |order|) && !Unverified(fleet.undone) by { NothingTried(order); }
      HeldSoFar(fleet.script, fleet.tick);
      assert order[..|order|] == order;
      for i := |order| downto 0
        invariant Ready(run) && Quiet(old(store.View()), store.View()) && fleet.configs.Keys == initial.Keys
        invariant FaultIsReal() && (Held() ==> old(Held()))
        invariant !failures ==> forall x :: x in initial && x !in order[..i] ==> fleet.configs[x] == initial[x]
        invariant fleet.tick >= old(fleet.tick) && (failures <==> !AllHeld(fleet.script, old(fleet.tick), fleet.tick))
        invariant TriedInReverse(fleet.undone, order, i) && (failures <==> Unverified(fleet.undone))
      {
        var x := order[i];
        assert forall y :: y in order[..i + 1] <==> y == x || y in order[..i];
        ghost var tried := fleet.undone;
        HeldOnceMore(fleet.script, old(fleet.tick), fleet.tick);
        var verified := RollbackDevice(run, x);
        TriedNext(tried, order, i, verified);
        if !verified { failures := true; }
      }
    }

    method RollbackDevice(run: Id, x: Id) returns (verified: bool)
      requires Ready(run) && FaultIsReal() && x in checkpoints && fleet.configs.Keys == initial.Keys
      requires x in initial && checkpoints[x] == initial[x]
      modifies this`nextUuid, store, fleet`tick, fleet`fault, fleet`configs, fleet`undone
      ensures Ready(run) && Quiet(old(store.View()), store.View()) && fleet.configs.Keys == initial.Keys
      ensures FaultIsReal() && (Held() ==> old(Held()))
      ensures forall y :: y in initial && y != x ==> fleet.configs[y] == old(fleet.configs)[y]
      ensures verified ==> fleet.configs[x] == initial[x]
      ensures verified ==> EvidenceKey(run, "rollback", Some(x), "configure_replace", "") in store.evidence
      ensures fleet.tick == old(fleet.tick) + 1 && fleet.undone == old(fleet.undone) + [(x, verified)]
      ensures verified == (fleet.script(old(fleet.tick)).answered && fleet.script(old(fleet.tick)).holds)
    {
      verified := fleet.Rollback(x, checkpoints[x]);
      if verified { Evidence(run, "rollback", Some(x), "configure_replace", ""); }
    }

    /** The ISE node is healthy again, and every journal entry can be undone. */
    ghost predicate Undoable()
      reads this`ise, server, IseFrame()
    {
      ise != null && ise.journal != [] ==>
        && DistinctTargets(ise.journal, ise.landed) && AllRecoverable(server.objects, ise.journal, ise.landed)
        && Healthy(server.script, server.tick)
    }

    method RollbackIse(job: Job) returns (failed: bool)
      requires Ready(job.run) && ise != null && ise.server == server && ise.Valid() && ise.origin == objects
      modifies this`iseUndone, this`nextUuid, store, server, ise
      ensures Ready(job.run) && Quiet(old(store.View()), store.View())
      ensures !failed ==> Restored(objects, server.objects)
      ensures old(Undoable()) ==> !failed
      ensures iseUndone == Some(!failed)
      ensures !failed ==> EvidenceKey(job.run, "rollback", NodeOf(job), "ise_ers_rollback", "") in store.evidence
    {
      var verified := ise.Rollback();
      iseUndone := Some(verified);
      if !verified { return true; }
      Evidence(job.run, "rollback", NodeOf(job), "ise_ers_rollback", "");
      return false;
    }

    /** Nothing was checkpointed and ISE was not written: the run simply failed. */
    method FailCleanly(job: Job)
      requires Working(job.run) && checkpoints == map[] && (ise != null ==> ise.journal == [])
      modifies this`nextUuid, store
      ensures Moved(old(store.View()), store.View(), job.run, ApplyFailed)
      ensures fleet.configs == initial && server.objects == objects && forall s :: s in fleet.steps ==> !s.Sent?
    {
      if ise != null { IseJournal.NothingJournaled(ise.marker, objects, server.objects, ise.landed); }
      Move(job.run, ApplyFailed);
    }

    /** The changed devices, or all that were checkpointed, and then ISE; each is tried. */
    method Revert(job: Job) returns (failures: bool)
      requires fleet.undone == [] && iseUndone == None && (checkpoints != map[] || (ise != null && ise.journal != []))
      requires Ready(job.run) && FaultIsReal() && DevicesSafe(initial, fleet.configs, checkpoints, changed) && IseSafe()
      modifies this`iseUndone, this`nextUuid, store, fleet`tick, fleet`fault, fleet`configs, fleet`undone, server, IseFrame()
      ensures Ready(job.run) && Quiet(old(store.View()), store.View()) && FaultIsReal() && (Held() ==> old(Held()))
      ensures !failures ==> fleet.configs == initial && Restored(objects, server.objects)
      ensures fleet.HeldSince(old(fleet.tick)) && old(Undoable()) ==> !failures
      ensures Undone(failures)
    {
      hide Ready, DevicesSafe, TriedInReverse, Unverified, AllRecoverable, DistinctTargets, Healthy;
      failures := RevertDevices(job);
      var failed := RevertIse(job);
      failures := failures || failed;
    }

    method RevertDevices(job: Job) returns (failures: bool)
      requires fleet.undone == []
      requires Ready(job.run) && FaultIsReal() && DevicesSafe(initial, fleet.configs, checkpoints, changed)
      modifies this`nextUuid, store, fleet`tick, fleet`fault, fleet`configs, fleet`undone
      ensures Ready(job.run) && Quiet(old(store.View()), store.View()) && FaultIsReal() && (Held() ==> old(Held()))
      ensures !failures ==> fleet.configs == initial
      ensures (failures <==> !fleet.HeldSince(old(fleet.tick))) && (failures <==> Unverified(fleet.undone))
      ensures TriedInReverse(fleet.undone, Suspects(), 0)
    {
      hide Ready;
      failures := RollbackDevices(job.run, if changed != [] then changed else SortedIds(checkpoints.Keys));
    }

    method RevertIse(job: Job) returns (failed: bool)
      requires Ready(job.run) && IseSafe()
      modifies this`iseUndone, this`nextUuid, store, server, IseFrame()
      ensures Ready(job.run) && Quiet(old(store.View()), store.View())
      ensures !failed ==> Restored(objects, server.objects)
      ensures old(Undoable()) ==> !failed
      ensures iseUndone == if ise != null && old(ise.journal) != [] then Some(!failed) else old(iseUndone)
      ensures ise == null || old(ise.journal) == [] ==> !failed
    {
      if ise == null { return false; }
      if ise.journal == [] {
        IseJournal.NothingJournaled(ise.marker, objects, server.objects, ise.landed);
        return false;
      }
      failed := RollbackIse(job);
    }

    /** The exception handler once something may have changed. */
    method Undo(job: Job) returns (failures: bool)
      requires fleet.undone == [] && iseUndone == None && (checkpoints != map[] || (ise != null && ise.journal != []))
      requires Working(job.run)
      modifies this`iseUndone, this`nextUuid, store, fleet`tick, fleet`fault, fleet`configs, fleet`undone, server, IseFrame()
      ensures Ready(job.run) && RolledTo(old(store.View()), store.View(), job.run, UndoneStatus(failures))
      ensures FaultIsReal() && (Held() ==> old(Held()))
      ensures !failures ==> fleet.configs == initial && Restored(objects, server.objects)
      ensures fleet.HeldSince(old(fleet.tick)) && old(Undoable()) ==> !failures
      ensures Undone(failures)
    {
      hide Undone, Undoable, SendsMarked, Restored, DevicesSafe, IseSafe, UuidsFresh;
      Move(job.run, RollbackRunning);
      failures := Revert(job);
      Move(job.run, UndoneStatus(failures));
    }

    // ----- process_apply -----

    /** The `except` branch: undo what may have changed, and settle the reservation accordingly. */
    method Recover(job: Job, ghost before: Db) returns (o: Outcome)
      requires fleet.undone == [] && iseUndone == None
      requires Working(job.run) && Started(before, base, job.run)
      modifies this`iseUndone, this`nextUuid, store, fleet`tick, fleet`fault, fleet`configs, fleet`undone, server, IseFrame()
      ensures Judged(o, before, store.View(), job, initial, fleet.configs, objects, server.objects, fleet.steps)
      ensures store.runs[job.run].status != ApplySucceeded && FaultIsReal() && (Held() ==> old(Held()))
      ensures Concluded(store.runs[job.run].status)
    {
      hide Started, Judged, Concluded, DevicesSafe, SendsMarked, UuidsFresh;
      if checkpoints == map[] && (ise == null || ise.journal == []) {
        o := RecoverCleanly(job, before);
      } else {
        o := RecoverByUndo(job, before);
      }
    }

    method RecoverCleanly(job: Job, ghost before: Db) returns (o: Outcome)
      requires fleet.undone == [] && iseUndone == None
      requires Working(job.run) && Started(before, base, job.run)
      requires checkpoints == map[] && (ise != null ==> ise.journal == [])
      modifies this`nextUuid, store
      ensures Judged(o, before, store.View(), job, initial, fleet.configs, objects, server.objects, fleet.steps)
      ensures store.runs[job.run].status != ApplySucceeded
      ensures Concluded(store.runs[job.run].status)
    {
      ghost var now := store.View();
      FailCleanly(job);
      EndsFailed(before, base, now, store.View(), job.run);
      return Finished(false, false);
    }

    method RecoverByUndo(job: Job, ghost before: Db) returns (o: Outcome)
      requires checkpoints != map[] || (ise != null && ise.journal != [])
      requires fleet.undone == [] && iseUndone == None
      requires Working(job.run) && Started(before, base, job.run)
      modifies this`iseUndone, this`nextUuid, store, fleet`tick, fleet`fault, fleet`configs, fleet`undone, server, IseFrame()
      ensures Judged(o, before, store.View(), job, initial, fleet.configs, objects, server.objects, fleet.steps)
      ensures store.runs[job.run].status != ApplySucceeded && FaultIsReal() && (Held() ==> old(Held()))
      ensures Concluded(store.runs[job.run].status)
    {
      hide Started, Judged, Restored, FaultIsReal, RolledTo, Undone, DevicesSafe, SendsMarked, UuidsFresh, IseSafe;
      ghost var now := store.View();
      var failures := Undo(job);
      o := SettleUndone(job, failures, before, now);
    }

    /** A refusal here is raised out of the handler: the run has ended, the reservation stays. */
    method SettleUndone(job: Job, failures: bool, ghost before: Db, ghost now: Db) returns (o: Outcome)
      requires Ready(job.run) && Started(before, base, job.run) && Quiet(base, now) && job.run in now.runs
      requires RolledTo(now, store.View(), job.run, UndoneStatus(failures))
      requires !failures ==> fleet.configs == initial && Restored(objects, server.objects)
      modifies this`nextUuid, store
      ensures Judged(o, before, store.View(), job, initial, fleet.configs, objects, server.objects, fleet.steps)
      ensures store.runs[job.run].status == UndoneStatus(failures)
      ensures job.run in store.runs
    {
      ghost var undone := store.View();
      var ok := Settle(job.run, store.runs[job.run].plan, if failures then Quarantined else Released, !failures);
      EndsUndone(before, base, now, undone, store.View(), job.run, UndoneStatus(failures));
      JudgedUndone(before, store.View(), job, failures, initial, fleet.configs, objects, server.objects, fleet.steps);
      return if ok then Finished(false, !failures) else Raised(true);
    }

    /** The commit after a fully gated run; if the store refuses it, the run is recovered like any other failure. */
    method Finish(job: Job, ghost before: Db) returns (o: Outcome)
      requires Held()
      requires fleet.undone == [] && iseUndone == None
      requires Working(job.run) && Started(before, base, job.run)
      modifies this`iseUndone, this`nextUuid, store, fleet`tick, fleet`fault, fleet`configs, fleet`undone, server, IseFrame()
      ensures Judged(o, before, store.View(), job, initial, fleet.configs, objects, server.objects, fleet.steps)
      ensures Committable(job, old(store.View())) ==> store.runs[job.run].status == ApplySucceeded
      ensures FaultIsReal() && (Held() ==> old(Held()))
      ensures store.runs[job.run].status == ApplySucceeded ==> server.objects == old(server.objects)
      ensures Concluded(store.runs[job.run].status)
    {
      hide Started, Judged, Committable;
      ghost var now := store.View();
      var ok := Complete(job);
      if !ok {
        o := Recover(job, before);
        return;
      }
      o := SettleDone(job, before, now);
    }

    /**
     After the run's success the reservation is committed.  A refusal lands in the handler,
     whose first step the store refuses too: the run has ended, and nothing is undone.
     */
    method SettleDone(job: Job, ghost before: Db, ghost now: Db) returns (o: Outcome)
      requires Ready(job.run) && Started(before, base, job.run) && Quiet(base, now) && job.run in now.runs
      requires Completed(now, store.View(), job.run, job.artifact)
      modifies this`nextUuid, store
      ensures Judged(o, before, store.View(), job, initial, fleet.configs, objects, server.objects, fleet.steps)
      ensures store.runs[job.run].status == ApplySucceeded
    {
      ghost var done := store.View();
      var ok := Settle(job.run, store.runs[job.run].plan, Committed, false);
      EndsCompleted(before, base, now, done, store.View(), job.run, job.artifact);
      if ok { return Finished(true, false); }
      var changed := checkpoints != map[] || (ise != null && ise.journal != []);
      var error := store.TransitionRun(job.run, if changed then RollbackRunning else ApplyFailed, actor, uuids(nextUuid));
      assert error.Some?;
      return Raised(true);
    }

    /** From the moment the run is active. */
    method Drive(job: Job, ghost before: Db) returns (o: Outcome)
      requires fleet.undone == [] && iseUndone == None && Held()
      requires Working(job.run) && Started(before, base, job.run)
      requires ise == null && changed == [] && checkpoints == map[] && fleet.steps == []
      requires target == Forecast(job, server.script, server.objects, server.tick)
      modifies this`iseUndone, this`nextUuid, this`changed, this`checkpoints, this`ise, store, fleet, server
      ensures Judged(o, before, store.View(), job, initial, fleet.configs, objects, server.objects, fleet.steps)
      ensures fleet.steps <= Expected(job) && (store.runs[job.run].status == ApplySucceeded ==> fleet.steps == Expected(job))
      ensures FaultIsReal()
      ensures Equipped(job, initial.Keys) && target.Some? && Committable(job, base) && Held() ==>
                store.runs[job.run].status == ApplySucceeded && (job.artifact.ise.Some? ==> Enforced())
      ensures Concluded(store.runs[job.run].status) && changed == Reached(fleet.steps)
      ensures changed != [] || store.runs[job.run].status == ApplySucceeded ==> Checkpointed(job)
    {
      hide Started, Judged, Committable, Equipped, Forecast, Concluded, Reached, Enforced, Working;
      var a := Try(job);
      o := Conclude(job, a, before);
    }

    /** The commit, the early return of a failed precheck, or the handler. */
    method Conclude(job: Job, a: Attempt, ghost before: Db) returns (o: Outcome)
      requires a == Done ==> Held()
      requires fleet.undone == [] && iseUndone == None
      requires Working(job.run) && Started(before, base, job.run)
      requires a == PrecheckFailed ==> checkpoints == map[] && (ise != null ==> ise.journal == [])
      modifies this`iseUndone, this`nextUuid, store, fleet`tick, fleet`fault, fleet`configs, fleet`undone, server, IseFrame()
      ensures Judged(o, before, store.View(), job, initial, fleet.configs, objects, server.objects, fleet.steps)
      ensures store.runs[job.run].status == ApplySucceeded ==> a == Done
      ensures a == Done && Committable(job, base) ==> store.runs[job.run].status == ApplySucceeded
      ensures FaultIsReal() && (Held() ==> old(Held()))
      ensures store.runs[job.run].status == ApplySucceeded ==> server.objects == old(server.objects)
      ensures Concluded(store.runs[job.run].status)
      ensures changed == Reached(fleet.steps)
    {
      hide Started, Judged, Committable, Concluded, Reached, DevicesSafe, UuidsFresh, IseSafe;
      StaysCommittable(job, base, store.View());
      match a
      case Done => o := Finish(job, before);
      case PrecheckFailed => o := RecoverCleanly(job, before);
      case Broken => o := Recover(job, before);
    }

    /** The integrity and binding checks before anything is changed. */
    predicate Bound(job: Job, run: RunRow) {
      && run.mode == Apply && run.status == ApplyQueued
      && |job.artifact.hash| == 64 && job.artifact.intact && job.artifact.hash == run.artifactHash
      && job.artifact.planHash == run.planHash && job.planHash == run.planHash
    }

    /** Every artifact device is one of the intent's, or a declared retired target. */
    predicate DevicesKnown(job: Job) {
      forall x :: x in job.artifact.devices ==> x in job.active || x in job.artifact.retired
    }

    /**
     `process_apply`, for every pattern of faults and every state of the plan's reservation.
     What was sent and passed is always a prefix of the expected steps, and all of them after
     a success; a call that raises before the run has ended has changed nothing; any other
     is judged by what it leaves behind.  A bound run with a malformed or forbidden blocker
     fails untouched; a call raises before the end exactly when the run is not bound, or is
     cleared and lacks a device or a secret; and a cleared and supplied run succeeds when every
     fleet call is answered with its verdict holding, the ISE node serves and the store admits
     the commit.
     */
    method ProcessApply(job: Job) returns (o: Outcome)
      requires RunsSafe(store.View()) && UuidsFresh(store.audit, uuids, nextUuid)
      modifies this, store, fleet, server
      ensures fleet.steps <= Expected(job)
      ensures o == Raised(false) ==> store.View() == old(store.View()) && fleet.steps == []
      ensures o == Raised(false) ==> fleet.configs == old(fleet.configs) && server.objects == old(server.objects)
      ensures o != Raised(false) ==> Judged(o, old(store.View()), store.View(), job, old(fleet.configs), fleet.configs,
                                            old(server.objects), server.objects, fleet.steps)
      ensures o != Raised(false) && store.runs[job.run].status == ApplySucceeded ==> fleet.steps == Expected(job)
      ensures Binds(job, old(store.View())) && !Clears(job) ==>
                && o == Finished(false, false) && job.run in store.runs && store.runs[job.run].status == ApplyFailed && fleet.steps == []
                && fleet.configs == old(fleet.configs) && server.objects == old(server.objects)
                && SameLedger(old(store.View()), store.View()) && store.manifests == old(store.manifests)
      ensures o == Raised(false) <==> !Binds(job, old(store.View())) || (Clears(job) && !Supplied(job))
      ensures && Binds(job, old(store.View())) && Clears(job) && Supplied(job)
              && Equipped(job, old(fleet.configs).Keys) && fleet.HeldSince(old(fleet.tick))
              && PolicyReady(job, server.script, old(server.objects), old(server.tick)) && Ownable(job, old(store.View())) ==>
                && job.run in store.runs && store.runs[job.run].status == ApplySucceeded
                && (job.artifact.ise.Some? ==> Some(server.objects) == Forecast(job, server.script, old(server.objects), old(server.tick)))
      ensures o != Raised(false) ==> Concluded(store.runs[job.run].status) && changed == Reached(fleet.steps)
      ensures o != Raised(false) && (changed != [] || store.runs[job.run].status == ApplySucceeded) ==> Checkpointed(job)
    {
      hide Judged, SameLedger, Forecast, PolicyReady, Equipped, Supplied, Clears, Ownable, Concluded, Reached, RunsSafe, UuidsFresh, Expected;
      Reset(job);
      ForecastIffReady(job, server.script, server.objects, server.tick);
      QueuedIsUnreferenced(store.View(), job.run);
      o := Dispatch(job);
    }

    method Dispatch(job: Job) returns (o: Outcome)
      requires fleet.undone == [] && iseUndone == None && Held()
      requires LocksSafe(store.runs, store.locks) && UuidsFresh(store.audit, uuids, nextUuid)
      requires Binds(job, store.View()) ==> !Referenced(store.manifests, Reconciliation.RunReference(job.run))
      requires ise == null && checkpoints == map[] && changed == [] && fleet.steps == []
      requires initial == fleet.configs && objects == server.objects && entry == fleet.tick && fleet.fault == None
      requires target == Forecast(job, server.script, server.objects, server.tick)
      modifies this`iseUndone, this`nextUuid, this`base, this`changed, this`checkpoints, this`ise, store, fleet, server
      ensures fleet.steps <= Expected(job)
      ensures o == Raised(false) ==> store.View() == old(store.View()) && fleet.steps == []
      ensures o == Raised(false) ==> fleet.configs == initial && server.objects == objects
      ensures o != Raised(false) ==>
                Judged(o, old(store.View()), store.View(), job, initial, fleet.configs, objects, server.objects, fleet.steps)
      ensures o != Raised(false) && store.runs[job.run].status == ApplySucceeded ==> fleet.steps == Expected(job)
      ensures Binds(job, old(store.View())) && !Clears(job) ==>
                && o == Finished(false, false) && job.run in store.runs && store.runs[job.run].status == ApplyFailed && fleet.steps == []
                && fleet.configs == initial && server.objects == objects
                && SameLedger(old(store.View()), store.View()) && store.manifests == old(store.manifests)
      ensures o == Raised(false) <==> !Binds(job, old(store.View())) || (Clears(job) && !Supplied(job))
      ensures FaultIsReal()
      ensures && Binds(job, old(store.View())) && Clears(job) && Supplied(job) && Equipped(job, initial.Keys) && Held()
              && target.Some? && Ownable(job, old(store.View())) ==>
                && job.run in store.runs && store.runs[job.run].status == ApplySucceeded && (job.artifact.ise.Some? ==> Enforced())
      ensures o != Raised(false) ==> Concluded(store.runs[job.run].status) && changed == Reached(fleet.steps)
      ensures o != Raised(false) && (changed != [] || store.runs[job.run].status == ApplySucceeded) ==> Checkpointed(job)
    {
      var admission := Admit(job);
      match admission
      case Refused => return Raised(false);
      case Blocked => o := RefuseBlocked(job);
      case Admitted => o := Perform(job);
    }

    method Perform(job: Job) returns (o: Outcome)
      requires fleet.undone == [] && iseUndone == None && Held()
      requires Ready(job.run) && Bound(job, store.runs[job.run]) && LocksSafe(store.runs, store.locks)
      requires !Referenced(store.manifests, Reconciliation.RunReference(job.run))
      requires ise == null && checkpoints == map[] && changed == [] && fleet.steps == []
      requires initial == fleet.configs && objects == server.objects && entry == fleet.tick && fleet.fault == None
      requires target == Forecast(job, server.script, server.objects, server.tick)
      modifies this`iseUndone, this`nextUuid, this`base, this`changed, this`checkpoints, this`ise, store, fleet, server
      ensures Judged(o, old(store.View()), store.View(), job, initial, fleet.configs, objects, server.objects, fleet.steps)
      ensures fleet.steps <= Expected(job) && (store.runs[job.run].status == ApplySucceeded ==> fleet.steps == Expected(job))
      ensures FaultIsReal()
      ensures Equipped(job, initial.Keys) && Held() && target.Some? && Ownable(job, old(store.View())) ==>
                store.runs[job.run].status == ApplySucceeded && (job.artifact.ise.Some? ==> Enforced())
      ensures Concluded(store.runs[job.run].status) && changed == Reached(fleet.steps)
      ensures changed != [] || store.runs[job.run].status == ApplySucceeded ==> Checkpointed(job)
    {
      ghost var before := store.View();
      Begin(job);
      o := Drive(job, before);
    }

    /** The checks before the run becomes active; only a blocked artifact ends the run. */
    function Admit(job: Job): (a: Admission)
      reads store
      ensures a != Refused ==> job.run in store.runs && Bound(job, store.runs[job.run])
      ensures a == Blocked <==> Binds(job, store.View()) && !Clears(job)
      ensures a == Admitted <==> Binds(job, store.View()) && Clears(job) && Supplied(job)
    {
      UnresolvedExact(job.artifact.blockers, job.allowed);
      if job.run !in store.runs || !Bound(job, store.runs[job.run]) then Refused
      else if Unresolved(job.artifact.blockers, job.allowed) != [] then Blocked
      else if !DevicesKnown(job) || !job.secretsAvailable then Refused
      else Admitted
    }

    /** The locals of a new call. */
    method Reset(job: Job)
      modifies this`checkpoints, this`changed, this`ise, this`iseUndone, this`initial, this`objects, this`entry, this`target, fleet`steps, fleet`undone, fleet`fault
      ensures target == Forecast(job, server.script, server.objects, server.tick)
      ensures fleet.steps == [] && fleet.undone == [] && checkpoints == map[] && changed == [] && ise == null && iseUndone == None
      ensures initial == fleet.configs && objects == server.objects && entry == fleet.tick && fleet.fault == None
      ensures store.View() == old(store.View()) && fleet.configs == old(fleet.configs) && server.objects == old(server.objects)
    {
      fleet.steps, fleet.undone, fleet.fault := [], [], None;
      checkpoints, changed, ise, iseUndone := map[], [], null, None;
      initial, objects, entry := fleet.configs, server.objects, fleet.tick;
      target := Forecast(job, server.script, server.objects, server.tick);
    }

    /** The run becomes active. */
    method Begin(job: Job)
      requires Ready(job.run) && Bound(job, store.runs[job.run]) && LocksSafe(store.runs, store.locks)
      requires ise == null && checkpoints == map[] && changed == [] && fleet.steps == []
      requires initial == fleet.configs && objects == server.objects && entry == fleet.tick && fleet.fault == None
      modifies this`nextUuid, this`base, store
      ensures Working(job.run) && Started(old(store.View()), base, job.run)
      ensures Ownable(job, old(store.View())) && !Referenced(old(store.manifests), Reconciliation.RunReference(job.run)) ==> Committable(job, base)
    {
      Move(job.run, ApplyRunning);
      base := store.View();
    }

    /** Blocking requirements that nobody allowed fail the run before anything is touched. */
    method RefuseBlocked(job: Job) returns (o: Outcome)
      requires Ready(job.run) && Bound(job, store.runs[job.run]) && LocksSafe(store.runs, store.locks)
      requires fleet.steps == []
      modifies this`nextUuid, store
      ensures Judged(o, old(store.View()), store.View(), job, fleet.configs, fleet.configs, server.objects, server.objects, fleet.steps)
      ensures store.runs[job.run].status == ApplyFailed && o == Finished(false, false)
      ensures SameLedger(old(store.View()), store.View()) && store.manifests == old(store.manifests)
    {
      ghost var before := store.View();
      Move(job.run, ApplyFailed);
      FabricUnlocked(before, job.run);
      return Finished(false, false);
    }
  }

  /**
   A worker that succeeds on the artifact rendered for its plan has sent every rendered
   block exactly once and passed every gate of the gate plan.
   */
  lemma SuccessIsComplete(job: Job, d: Design, deltas: Deltas, b: Builder, t: GateTable)
    requires job.artifact.devices == Render(d, deltas, b) && job.gates == Gates(d, deltas, t)
    requires job.planned == PlannedIds(d, AnyStale(deltas))
    ensures forall x, p, i: nat :: x in job.artifact.devices && p in job.artifact.devices[x] && i < |p.blocks| ==>
              Occurs(Expected(job), Sent(x, p.id, i, p.blocks[i])) == 1
    ensures forall g :: g in job.gates ==> Passed(g) in Expected(job)
  {
    var ise := job.artifact.ise.Some?;
    forall x, p, i: nat | x in job.artifact.devices && p in job.artifact.devices[x] && i < |p.blocks|
      ensures Occurs(Expected(job), Sent(x, p.id, i, p.blocks[i])) == 1
    {
      EveryBlockSentOnce(d, deltas, b, t, ise, x, p, i);
    }
    forall g | g in job.gates ensures Passed(g) in Expected(job) {
      EveryGatePassed(d, deltas, b, t, ise, g);
    }
  }

  function PhaseName(p: PhaseId): string {
    match p
    case Precheck => "precheck"
    case Checkpoint => "checkpoint"
    case MulticastReconciliation => "multicast_reconciliation"
    case Underlay => "underlay"
    case LispControlPlane => "lisp_control_plane"
    case LispEdges => "lisp_edges"
    case Overlay => "overlay"
    case BorderHandoff => "border_handoff"
    case SharedServices => "shared_services"
    case Multicast => "multicast"
    case PolicyPlane => "policy_plane"
    case EndpointAssurance => "endpoint_assurance"
  }
}
