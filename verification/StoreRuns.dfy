/** Fabric locks, approvals, idempotency and committed manifests in every reachable store. */
module StoreRuns {
  import opened Basics
  import Allocator
  import opened Reconciliation
  import ReconciliationProofs
  import opened Store
  import opened StoreMachine

  type Runs = map<Id, RunRow>
  type Locks = map<Id, LockRow>

  predicate DryStatus(s: Status) {
    s in {DryRunQueued, DryRunRunning, DryRunSucceeded, DryRunBlocked, DryRunFailed}
  }

  predicate Live(r: RunRow) { r.mode == Apply && !Terminal(r.status) }

  ghost predicate LocksSafe(runs: Runs, locks: Locks) {
    && (forall f :: f in locks ==> locks[f].run in runs && runs[locks[f].run].fabric == f && Live(runs[locks[f].run]))
    && (forall id :: id in runs && Live(runs[id]) ==> runs[id].fabric in locks && locks[runs[id].fabric].run == id)
  }

  /** Dry-run and apply statuses never mix. */
  ghost predicate ModesSafe(runs: Runs) {
    forall id :: id in runs ==> (runs[id].mode == DryRun <==> DryStatus(runs[id].status))
  }

  ghost predicate KeysUnique(runs: Runs) {
    forall a, b :: a in runs && b in runs && runs[a].key == runs[b].key ==> a == b
  }

  // ----- Approvals -----

  /** The approvals of `plan` recorded before `at` all precede the k-th, which is one of them. */
  ghost predicate NewestBefore(approvals: seq<Approval>, plan: Id, at: int, k: nat) {
    && k < |approvals| && approvals[k].plan == plan && approvals[k].createdAt < at
    && forall j :: 0 <= j < |approvals| && approvals[j].plan == plan && approvals[j].createdAt < at ==> j <= k
  }

  ghost predicate Authorises(a: Approval, r: RunRow) {
    && a.approved && r.createdAt < a.expiresAt
    && a.planHash == r.planHash && a.artifactHash == r.artifactHash && a.version == r.version
  }

  /** When the run was created, its plan's newest approval authorised it. */
  ghost predicate Authorised(approvals: seq<Approval>, r: RunRow) {
    exists k: nat :: NewestBefore(approvals, r.plan, r.createdAt, k) && Authorises(approvals[k], r)
  }

  ghost predicate ApprovalRow(plans: map<Id, PlanRow>, a: Approval) {
    && a.plan in plans && a.approver != plans[a.plan].createdBy
    && ApprovalMatches(a, plans[a.plan])
  }

  ghost predicate ApprovalsOrdered(approvals: seq<Approval>, clock: int) {
    && (forall i, j :: 0 <= i < j < |approvals| ==> approvals[i].createdAt < approvals[j].createdAt)
    && (forall a :: a in approvals ==> a.createdAt <= clock)
  }

  ghost predicate ApprovalsSafe(db: Db) {
    && ApprovalsOrdered(db.approvals, db.clock)
    && (forall a :: a in db.approvals ==> ApprovalRow(db.plans, a))
    && (forall id :: id in db.runs ==> db.runs[id].createdAt <= db.clock && Authorised(db.approvals, db.runs[id]))
  }

  // ----- Committed manifests -----

  ghost predicate CommittedRow(runs: Runs, row: ManifestRow) {
    && ManifestValid(row.manifest) && row.fabric == row.manifest.body.fabric
    && (row.source == SuccessfulApply ==>
          && row.reference.RunReference? && row.reference.run in runs
          && var r := runs[row.reference.run];
             r.status == ApplySucceeded && r.fabric == row.fabric && row.artifact == Some(r.artifactHash))
    && (row.source == AdoptedDiscovery ==> row.reference.AdoptionReference? && row.evidence.Some? && IsDigest(row.evidence.value))
  }

  ghost predicate ManifestsSafe(manifests: seq<ManifestRow>, runs: Runs) {
    && (forall row :: row in manifests ==> CommittedRow(runs, row))
    && (forall i, j :: 0 <= i < j < |manifests| ==> manifests[i].reference != manifests[j].reference)
  }

  ghost predicate RunsSafe(db: Db) {
    && LocksSafe(db.runs, db.locks) && ModesSafe(db.runs) && KeysUnique(db.runs)
    && ApprovalsSafe(db) && ManifestsSafe(db.manifests, db.runs)
  }

  // ----- Steps on runs -----

  lemma {:induction false} NewestApprovalExact(approvals: seq<Approval>, plan: Id)
    ensures match NewestApproval(approvals, plan)
            case None => forall a :: a in approvals ==> a.plan != plan
            case Some(a) => exists k :: 0 <= k < |approvals| && approvals[k] == a && a.plan == plan
                                        && forall j :: k < j < |approvals| ==> approvals[j].plan != plan
    decreases |approvals|
  {
    if approvals != [] && approvals[|approvals| - 1].plan != plan {
      var init := approvals[..|approvals| - 1];
      NewestApprovalExact(init, plan);
      assert approvals == init + [approvals[|approvals| - 1]];
      if NewestApproval(init, plan).Some? {
        var k :| 0 <= k < |init| && init[k] == NewestApproval(init, plan).value && forall j :: k < j < |init| ==> init[j].plan != plan;
        assert approvals[k] == init[k];
        assert forall j :: k < j < |approvals| ==> approvals[j].plan != plan;
      }
    }
  }

  /** The newest row is the one with the greatest `created_at`: what ORDER BY ... DESC LIMIT 1 selects. */
  lemma NewestIsLatest(approvals: seq<Approval>, plan: Id, clock: int)
    requires ApprovalsOrdered(approvals, clock) && NewestApproval(approvals, plan).Some?
    ensures forall a :: a in approvals && a.plan == plan && a != NewestApproval(approvals, plan).value
              ==> a.createdAt < NewestApproval(approvals, plan).value.createdAt
  {
    NewestApprovalExact(approvals, plan);
  }

  lemma CreatedRunIsAuthorised(db: Db, plan: Id, r: RunRow, a: Approval)
    requires ApprovalsSafe(db) && plan in db.plans && ActiveApproval(db, plan, db.clock + 1) == Ok(a)
    requires ApprovalMatches(a, db.plans[plan]) && r.plan == plan && r.createdAt == db.clock + 1
    requires r.planHash == db.plans[plan].planHash && r.artifactHash == db.plans[plan].artifactHash
    requires r.version == db.plans[plan].version
    ensures Authorised(db.approvals, r)
  {
    NewestApprovalExact(db.approvals, plan);
    var k :| 0 <= k < |db.approvals| && db.approvals[k] == a && a.plan == plan
             && forall j :: k < j < |db.approvals| ==> db.approvals[j].plan != plan;
    assert NewestBefore(db.approvals, plan, r.createdAt, k);
  }

  lemma NewRunKeepsLocks(runs: Runs, locks: Locks, id: Id, r: RunRow, lock: LockRow)
    requires LocksSafe(runs, locks) && id !in runs && r.status == InitialStatus(r.mode) && lock.run == id
    requires r.mode == Apply ==> r.fabric !in locks
    ensures LocksSafe(runs[id := r], if r.mode == Apply then locks[r.fabric := lock] else locks)
  {
  }

  lemma NewRunKeepsManifests(manifests: seq<ManifestRow>, runs: Runs, id: Id, r: RunRow)
    requires ManifestsSafe(manifests, runs) && id !in runs
    ensures ManifestsSafe(manifests, runs[id := r])
  {
    forall row | row in manifests ensures CommittedRow(runs[id := r], row) {
      assert CommittedRow(runs, row);
    }
  }

  lemma NewRunKeepsKeys(db: Db, id: Id, r: RunRow)
    requires KeysUnique(db.runs) && RunsWithKey(db, r.key) == {}
    ensures KeysUnique(db.runs[id := r])
  {
    forall b | b in db.runs ensures db.runs[b].key != r.key {
      assert b !in RunsWithKey(db, r.key);
    }
  }

  lemma NewRunKeepsApprovals(db: Db, later: Db, id: Id, r: RunRow)
    requires ApprovalsSafe(db) && Authorised(db.approvals, r) && r.createdAt <= later.clock
    requires later.approvals == db.approvals && later.plans == db.plans && later.clock >= db.clock
    requires later.runs == db.runs[id := r]
    ensures ApprovalsSafe(later)
  {
  }

  lemma NewRunKeepsModes(runs: Runs, id: Id, r: RunRow)
    requires ModesSafe(runs) && r.status == InitialStatus(r.mode)
    ensures ModesSafe(runs[id := r])
  {
  }

  /** `create_run` has added a run: under a free key and fabric, of a plan that its newest approval covers. */
  ghost predicate Inserted(db: Db, later: Db, id: Id, r: RunRow, lock: LockRow) {
    && id !in db.runs && RunsWithKey(db, r.key) == {} && r.status == InitialStatus(r.mode)
    && lock.run == id && (r.mode == Apply ==> r.fabric !in db.locks)
    && later.runs == db.runs[id := r] && later.locks == (if r.mode == Apply then db.locks[r.fabric := lock] else db.locks)
    && later.manifests == db.manifests && later.approvals == db.approvals && later.plans == db.plans
    && later.clock == r.createdAt == db.clock + 1
    && r.plan in db.plans && ApprovalCovers(db, r)
  }

  ghost predicate ApprovalCovers(db: Db, r: RunRow)
    requires r.plan in db.plans
  {
    var p, a := db.plans[r.plan], ActiveApproval(db, r.plan, db.clock + 1);
    && r.planHash == p.planHash && r.artifactHash == p.artifactHash && r.version == p.version
    && a.Ok? && ApprovalMatches(a.value, p)
  }

  lemma CreateRunInserts(db: Db, id: Id, plan: Id, mode: Mode, key: string, actor: Id, enabled: bool,
                         window: Option<(int, int)>, ttl: int, event: Id, later: Db)
    requires var made := CreateRun(db, id, plan, mode, key, actor, enabled, window, ttl, event); made.Ok? && made.value.0 == later
    ensures later == db || (id in later.runs && Inserted(db, later, id, later.runs[id], LockRow(id, db.clock + 1, db.clock + 1 + ttl)))
  {
  }

  lemma InsertRunKeeps(db: Db, later: Db, id: Id, r: RunRow, lock: LockRow)
    requires RunsSafe(db) && Inserted(db, later, id, r, lock)
    ensures RunsSafe(later)
  {
    NewRunKeepsKeys(db, id, r);
    NewRunKeepsModes(db.runs, id, r);
    NewRunKeepsLocks(db.runs, db.locks, id, r, lock);
    NewRunKeepsManifests(db.manifests, db.runs, id, r);
    CreatedRunIsAuthorised(db, r.plan, r, ActiveApproval(db, r.plan, db.clock + 1).value);
    NewRunKeepsApprovals(db, later, id, r);
  }

  lemma CreateRunKeeps(db: Db, id: Id, plan: Id, mode: Mode, key: string, actor: Id, enabled: bool,
                       window: Option<(int, int)>, ttl: int, event: Id, later: Db)
    requires var made := CreateRun(db, id, plan, mode, key, actor, enabled, window, ttl, event); made.Ok? && made.value.0 == later
    requires RunsSafe(db)
    ensures RunsSafe(later)
  {
    CreateRunInserts(db, id, plan, mode, key, actor, enabled, window, ttl, event, later);
    if later != db { InsertRunKeeps(db, later, id, later.runs[id], LockRow(id, db.clock + 1, db.clock + 1 + ttl)); }
  }

  // ----- Moving and completing runs -----

  lemma MovedRunKeepsLocks(runs: Runs, locks: Locks, id: Id, status: Status)
    requires LocksSafe(runs, locks) && id in runs && MayProceed(runs[id].status, status)
    ensures LocksSafe(runs[id := runs[id].(status := status)], if Terminal(status) then Unlock(locks, id) else locks)
  {
    var later, kept := runs[id := runs[id].(status := status)], if Terminal(status) then Unlock(locks, id) else locks;
    forall f | f in kept ensures kept[f].run in later && later[kept[f].run].fabric == f && Live(later[kept[f].run]) {
      assert f in locks && kept[f] == locks[f];
    }
    forall i | i in later && Live(later[i]) ensures later[i].fabric in kept && kept[later[i].fabric].run == i {
      assert Live(runs[i]);
    }
  }

  lemma MovedRunKeepsModes(runs: Runs, id: Id, status: Status)
    requires ModesSafe(runs) && id in runs && MayProceed(runs[id].status, status)
    ensures ModesSafe(runs[id := runs[id].(status := status)])
  {
  }

  lemma MovedRunKeepsManifests(manifests: seq<ManifestRow>, runs: Runs, id: Id, status: Status)
    requires ManifestsSafe(manifests, runs) && id in runs && MayProceed(runs[id].status, status)
    ensures ManifestsSafe(manifests, runs[id := runs[id].(status := status)])
  {
    forall row | row in manifests ensures CommittedRow(runs[id := runs[id].(status := status)], row) {
      assert CommittedRow(runs, row);
    }
  }

  /** Approvals refer to what a status change leaves alone. */
  lemma MovedRunKeepsApprovals(db: Db, later: Db, id: Id)
    requires ApprovalsSafe(db) && id in db.runs && later.clock >= db.clock
    requires later.approvals == db.approvals && later.plans == db.plans
    requires exists s :: later.runs == db.runs[id := db.runs[id].(status := s)]
    ensures ApprovalsSafe(later)
  {
    forall i | i in later.runs ensures Authorised(later.approvals, later.runs[i]) {
      assert Authorised(db.approvals, db.runs[i]);
      var k: nat :| NewestBefore(db.approvals, db.runs[i].plan, db.runs[i].createdAt, k) && Authorises(db.approvals[k], db.runs[i]);
      assert NewestBefore(later.approvals, later.runs[i].plan, later.runs[i].createdAt, k);
    }
  }

  /** Beside the runs' status, only locks and the manifest ledger may have moved. */
  lemma StatusKeeps(db: Db, later: Db, id: Id, status: Status)
    requires RunsSafe(db) && id in db.runs && MayProceed(db.runs[id].status, status)
    requires later.runs == db.runs[id := db.runs[id].(status := status)] && later.clock >= db.clock
    requires later.locks == if Terminal(status) then Unlock(db.locks, id) else db.locks
    requires later.approvals == db.approvals && later.plans == db.plans
    ensures LocksSafe(later.runs, later.locks) && ModesSafe(later.runs) && KeysUnique(later.runs) && ApprovalsSafe(later)
    ensures ManifestsSafe(db.manifests, later.runs)
  {
    MovedRunKeepsLocks(db.runs, db.locks, id, status);
    MovedRunKeepsModes(db.runs, id, status);
    MovedRunKeepsManifests(db.manifests, db.runs, id, status);
    MovedRunKeepsApprovals(db, later, id);
  }

  lemma TransitionMoves(db: Db, id: Id, status: Status, actor: Id, event: Id, later: Db)
    requires TransitionRun(db, id, status, actor, event) == Ok(later)
    ensures id in db.runs && MayProceed(db.runs[id].status, status)
    ensures later.runs == db.runs[id := db.runs[id].(status := status)] && later.clock >= db.clock
    ensures later.locks == if Terminal(status) then Unlock(db.locks, id) else db.locks
    ensures later.approvals == db.approvals && later.plans == db.plans && later.manifests == db.manifests
  {
  }

  lemma MoveRunKeeps(db: Db, id: Id, status: Status, actor: Id, event: Id, later: Db)
    requires RunsSafe(db) && TransitionRun(db, id, status, actor, event) == Ok(later)
    ensures RunsSafe(later)
  {
    TransitionMoves(db, id, status, actor, event, later);
    StatusKeeps(db, later, id, status);
  }

  lemma CompleteCommits(db: Db, id: Id, artifactHash: string, owned: Manifest, actor: Id, event: Id, event': Id, later: Db) returns (row: ManifestRow)
    requires CompleteApply(db, id, artifactHash, owned, actor, event, event') == Ok(later)
    ensures id in db.runs && db.runs[id].status == ApplyRunning
    ensures later.runs == db.runs[id := db.runs[id].(status := ApplySucceeded)] && later.locks == Unlock(db.locks, id)
    ensures later.approvals == db.approvals && later.plans == db.plans && later.clock >= db.clock
    ensures later.manifests == db.manifests + [row] && CommittedRow(later.runs, row) && !Referenced(db.manifests, row.reference)
  {
    row := later.manifests[|db.manifests|];
  }

  lemma CompleteKeeps(db: Db, id: Id, artifactHash: string, owned: Manifest, actor: Id, event: Id, event': Id, later: Db)
    requires RunsSafe(db) && CompleteApply(db, id, artifactHash, owned, actor, event, event') == Ok(later)
    ensures RunsSafe(later)
  {
    var row := CompleteCommits(db, id, artifactHash, owned, actor, event, event', later);
    StatusKeeps(db, later, id, ApplySucceeded);
    CommittedManifestKeeps(db.manifests, later.runs, row);
  }

  lemma CommittedManifestKeeps(manifests: seq<ManifestRow>, runs: Runs, row: ManifestRow)
    requires ManifestsSafe(manifests, runs) && CommittedRow(runs, row) && !Referenced(manifests, row.reference)
    ensures ManifestsSafe(manifests + [row], runs)
  {
    forall i | 0 <= i < |manifests| ensures manifests[i].reference != row.reference {
      assert manifests[i] in manifests;
    }
  }

  // ----- Steps on plans and approvals -----

  /** A new approval row is newer than every run: none of them is authorised by it. */
  lemma NewApprovalKeeps(db: Db, later: Db, a: Approval)
    requires ApprovalsSafe(db) && later.approvals == db.approvals + [a] && later.runs == db.runs && later.plans == db.plans
    requires a.createdAt == db.clock + 1 == later.clock && ApprovalRow(db.plans, a)
    ensures ApprovalsSafe(later)
  {
    forall i | i in later.runs ensures Authorised(later.approvals, later.runs[i]) {
      StillAuthorised(db.approvals, a, db.runs[i], db.clock);
    }
    assert forall i :: 0 <= i < |db.approvals| ==> db.approvals[i] in db.approvals;
    forall b | b in later.approvals ensures ApprovalRow(later.plans, b) {
      if b in db.approvals { assert ApprovalRow(db.plans, b); }
    }
  }

  lemma StillAuthorised(approvals: seq<Approval>, a: Approval, r: RunRow, clock: int)
    requires Authorised(approvals, r) && r.createdAt <= clock < a.createdAt
    ensures Authorised(approvals + [a], r)
  {
    var k: nat :| NewestBefore(approvals, r.plan, r.createdAt, k) && Authorises(approvals[k], r);
    assert (approvals + [a])[k] == approvals[k];
    assert NewestBefore(approvals + [a], r.plan, r.createdAt, k);
  }

  lemma ApproveKeeps(db: Db, id: Id, plan: Id, approved: bool, approver: Id, change: string, expiresAt: int, event: Id)
    requires ApprovalsSafe(db) && RecordApproval(db, id, plan, approved, approver, change, expiresAt, event).Ok?
    ensures ApprovalsSafe(RecordApproval(db, id, plan, approved, approver, change, expiresAt, event).value)
  {
    var later := RecordApproval(db, id, plan, approved, approver, change, expiresAt, event).value;
    NewApprovalKeeps(db, later, later.approvals[|db.approvals|]);
  }

  /** Plans are added or rebound to a reservation, nothing else. */
  ghost predicate OnlyRebound(plans: map<Id, PlanRow>, later: map<Id, PlanRow>) {
    forall p :: p in plans ==> p in later && later[p].(reservation := plans[p].reservation) == plans[p]
  }

  lemma ReboundPlansKeep(db: Db, later: Db)
    requires ApprovalsSafe(db) && later.approvals == db.approvals && later.runs == db.runs && later.clock >= db.clock
    requires OnlyRebound(db.plans, later.plans)
    ensures ApprovalsSafe(later)
  {
    forall a | a in later.approvals ensures ApprovalRow(later.plans, a) { assert ApprovalRow(db.plans, a); }
  }

  lemma RebindingIsOnlyRebinding(db: Db, id: Id, reservation: Option<Id>, actor: Id, event: Id)
    requires ApprovalsSafe(db) && id in db.plans
    ensures ApprovalsSafe(RebindPlan(db, id, reservation, actor, event))
  {
    ReboundPlansKeep(db, RebindPlan(db, id, reservation, actor, event));
  }

  lemma InsertPlanKeeps(db: Db, intent: Id, plan: PlanDoc, actor: Id, artifactHash: string, version: string,
                        reservation: Option<Id>, event: Id)
    requires ApprovalsSafe(db) && intent in db.intents && plan.id !in db.plans
    ensures ApprovalsSafe(InsertPlan(db, intent, plan, actor, artifactHash, version, reservation, event))
  {
    ReboundPlansKeep(db, InsertPlan(db, intent, plan, actor, artifactHash, version, reservation, event));
  }

  lemma SavePlanKeeps(db: Db, intent: Id, plan: PlanDoc, actor: Id, artifactHash: string, version: string,
                      reservation: Option<Id>, event: Id, later: Db, created: bool)
    requires ApprovalsSafe(db) && SavePlan(db, intent, plan, actor, artifactHash, version, reservation, event) == Ok((later, created))
    ensures ApprovalsSafe(later)
  {
    if plan.id in db.plans {
      RebindingIsOnlyRebinding(db, plan.id, reservation, actor, event);
    } else {
      InsertPlanKeeps(db, intent, plan, actor, artifactHash, version, reservation, event);
    }
  }

  lemma AdoptKeeps(db: Db, fabric: Id, m: Manifest, evidence: string, change: string, discoverer: Id, approver: Id, event: Id)
    requires ManifestsSafe(db.manifests, db.runs) && RecordAdopted(db, fabric, m, evidence, change, discoverer, approver, event).Ok?
    ensures ManifestsSafe(RecordAdopted(db, fabric, m, evidence, change, discoverer, approver, event).value.manifests, db.runs)
  {
    if !Referenced(db.manifests, AdoptionReference(change, m.hash)) {
      var later := RecordAdopted(db, fabric, m, evidence, change, discoverer, approver, event).value;
      CommittedManifestKeeps(db.manifests, db.runs, later.manifests[|db.manifests|]);
    }
  }

  // ----- Every step, every reachable store -----

  lemma PlanStepKeeps(db: Db, op: Op)
    requires RunsSafe(db) && (op.OpSavePlan? || op.OpApprove?)
    ensures RunsSafe(NextPlan(db, op))
  {
    match op
    case OpSavePlan(intent, plan, actor, artifactHash, version, reservation, event) =>
      if SavePlan(db, intent, plan, actor, artifactHash, version, reservation, event).Ok? {
        var done := SavePlan(db, intent, plan, actor, artifactHash, version, reservation, event).value;
        SavePlanKeeps(db, intent, plan, actor, artifactHash, version, reservation, event, done.0, done.1);
      }
    case OpApprove(id, plan, approved, approver, change, expiresAt, event) =>
      if RecordApproval(db, id, plan, approved, approver, change, expiresAt, event).Ok? {
        ApproveKeeps(db, id, plan, approved, approver, change, expiresAt, event);
      }
  }

  lemma RunStepKeeps(db: Db, op: Op)
    requires RunsSafe(db) && (op.OpCreateRun? || op.OpMoveRun? || op.OpComplete?)
    ensures RunsSafe(NextRun(db, op))
  {
    match op
    case OpCreateRun(id, plan, mode, key, actor, enabled, window, ttl, event) =>
      if CreateRun(db, id, plan, mode, key, actor, enabled, window, ttl, event).Ok? {
        CreateRunKeeps(db, id, plan, mode, key, actor, enabled, window, ttl, event, NextRun(db, op));
      }
    case OpMoveRun(id, status, actor, event) =>
      if TransitionRun(db, id, status, actor, event).Ok? { MoveRunKeeps(db, id, status, actor, event, NextRun(db, op)); }
    case OpComplete(id, artifactHash, owned, actor, event, event') =>
      if CompleteApply(db, id, artifactHash, owned, actor, event, event').Ok? {
        CompleteKeeps(db, id, artifactHash, owned, actor, event, event', NextRun(db, op));
      }
  }

  lemma OtherStepKeeps(db: Db, op: Op)
    requires RunsSafe(db) && (op.OpSaveIntent? || op.OpAdopt? || op.OpEvidence? || op.OpWait?)
    ensures RunsSafe(NextOther(db, op))
  {
    var later := NextOther(db, op);
    assert ApprovalsSafe(later);
    if op.OpAdopt? {
      if RecordAdopted(db, op.fabric, op.owned, op.proof, op.change, op.discoverer, op.approver, op.event).Ok? {
        AdoptKeeps(db, op.fabric, op.owned, op.proof, op.change, op.discoverer, op.approver, op.event);
      }
    }
  }

  lemma StepKeepsRuns(db: Db, op: Op)
    requires RunsSafe(db)
    ensures RunsSafe(Next(db, op))
  {
    if op.OpSavePlan? || op.OpApprove? { PlanStepKeeps(db, op); }
    else if op.OpCreateRun? || op.OpMoveRun? || op.OpComplete? { RunStepKeeps(db, op); }
    else if op.OpReserve? || op.OpMoveReservation? { assert ApprovalsSafe(NextReservation(db, op)); }
    else { OtherStepKeeps(db, op); }
  }

  /** Locks, modes, idempotency keys, approvals and committed manifests are sound in every reachable store. */
  lemma {:induction false} RunsAreSafe(ops: seq<Op>)
    ensures RunsSafe(After(EmptyDb(), ops))
    decreases |ops|
  {
    if ops != [] {
      RunsAreSafe(ops[..|ops| - 1]);
      StepKeepsRuns(After(EmptyDb(), ops[..|ops| - 1]), ops[|ops| - 1]);
    }
  }

  // ----- Readings -----

  /** A fabric is locked exactly while an apply run on it is live; there is then one such run, and the lock names it. */
  lemma LockNamesTheLiveRun(ops: seq<Op>, f: Id)
    ensures var db := After(EmptyDb(), ops);
            && (f in db.locks <==> exists id :: id in db.runs && db.runs[id].fabric == f && Live(db.runs[id]))
            && (forall id :: id in db.runs && db.runs[id].fabric == f && Live(db.runs[id]) ==> db.locks[f].run == id)
  {
    RunsAreSafe(ops);
  }

  /**
   Approval history: every stored run was created when its plan's newest approval was an
   unexpired approval of exactly this plan, artifact and intent version, by someone other
   than the plan's creator.
   */
  lemma EveryRunWasAuthorised(ops: seq<Op>, id: Id)
    requires id in After(EmptyDb(), ops).runs
    ensures var db := After(EmptyDb(), ops);
            var r := db.runs[id];
            && r.plan in db.plans
            && exists k: nat :: NewestBefore(db.approvals, r.plan, r.createdAt, k) && Authorises(db.approvals[k], r)
                 && db.approvals[k].approver != db.plans[r.plan].createdBy && ApprovalMatches(db.approvals[k], db.plans[r.plan])
  {
    RunsAreSafe(ops);
    var db := After(EmptyDb(), ops);
    var r := db.runs[id];
    var k: nat :| NewestBefore(db.approvals, r.plan, r.createdAt, k) && Authorises(db.approvals[k], r);
    assert ApprovalRow(db.plans, db.approvals[k]);
  }

  /** One idempotency key never names two runs. */
  lemma KeyNamesOneRun(ops: seq<Op>, a: Id, b: Id)
    requires a in After(EmptyDb(), ops).runs && b in After(EmptyDb(), ops).runs
    requires After(EmptyDb(), ops).runs[a].key == After(EmptyDb(), ops).runs[b].key
    ensures a == b
  {
    RunsAreSafe(ops);
  }

  lemma RunStepKeepsTerminal(db: Db, op: Op, id: Id)
    requires id in db.runs && Terminal(db.runs[id].status) && (op.OpCreateRun? || op.OpMoveRun? || op.OpComplete?)
    ensures id in NextRun(db, op).runs && NextRun(db, op).runs[id] == db.runs[id]
  {
  }

  lemma StepKeepsTerminal(db: Db, op: Op, id: Id)
    requires id in db.runs && Terminal(db.runs[id].status)
    ensures id in Next(db, op).runs && Next(db, op).runs[id] == db.runs[id]
  {
    if op.OpCreateRun? || op.OpMoveRun? || op.OpComplete? {
      RunStepKeepsTerminal(db, op, id);
    }
  }

  /** A run that has ended never changes again. */
  lemma {:induction false} TerminalIsFinal(db: Db, ops: seq<Op>, id: Id)
    requires id in db.runs && Terminal(db.runs[id].status)
    ensures id in After(db, ops).runs && After(db, ops).runs[id] == db.runs[id]
    decreases |ops|
  {
    if ops != [] {
      TerminalIsFinal(db, ops[..|ops| - 1], id);
      StepKeepsTerminal(After(db, ops[..|ops| - 1]), ops[|ops| - 1], id);
    }
  }

  lemma {:induction false} NewestManifestIsARow(rows: seq<ManifestRow>, fabric: Id)
    ensures NewestManifest(rows, fabric).Some? ==>
              NewestManifest(rows, fabric).value in rows && NewestManifest(rows, fabric).value.fabric == fabric
    decreases |rows|
  {
    if rows != [] { NewestManifestIsARow(rows[..|rows| - 1], fabric); }
  }

  /**
   `latest_owned_state` yields a baseline that the planner's validation accepts for that
   fabric exactly when it was adopted or its artifact hash is a digest: `save_plan` and
   `complete_apply` look at the length of an artifact hash only.
   */
  lemma LatestBaselineValidIff(ops: seq<Op>, fabric: Id)
    ensures var latest := LatestOwnedState(After(EmptyDb(), ops), fabric);
            latest.Some? && latest.value.body.artifact.None? ==> latest.value.body.source == AdoptedDiscovery
    ensures var latest := LatestOwnedState(After(EmptyDb(), ops), fabric);
            latest.Some? ==>
              (BaselineValid(latest.value, fabric) <==>
                latest.value.body.source == AdoptedDiscovery || IsDigest(latest.value.body.artifact.value))
  {
    var db := After(EmptyDb(), ops);
    RunsAreSafe(ops);
    NewestManifestIsARow(db.manifests, fabric);
    if NewestManifest(db.manifests, fabric).Some? {
      assert CommittedRow(db.runs, NewestManifest(db.manifests, fabric).value);
    }
  }

  /** A fabric's ownership ledger as baselines, oldest first. */
  function Ledger(rows: seq<ManifestRow>, fabric: Id): seq<Baseline> {
    if rows == [] then []
    else
      var last := rows[|rows| - 1];
      Ledger(rows[..|rows| - 1], fabric) + if last.fabric == fabric then [BaselineOf(last)] else []
  }

  /**
   The baseline handed to the planner is the newest entry of the fabric's ledger, and the
   ledger holds valid manifests only: the histories of module ReconciliationProofs are
   those of the store.
   */
  lemma {:induction false} LatestIsNewest(rows: seq<ManifestRow>, runs: Runs, fabric: Id)
    requires forall row :: row in rows ==> CommittedRow(runs, row)
    ensures ReconciliationProofs.LedgerValid(Ledger(rows, fabric))
    ensures ReconciliationProofs.Newest(Ledger(rows, fabric))
         == match NewestManifest(rows, fabric) case None => None case Some(row) => Some(BaselineOf(row))
    decreases |rows|
  {
    if rows != [] {
      var init, last := rows[..|rows| - 1], rows[|rows| - 1];
      assert rows == init + [last];
      LatestIsNewest(init, runs, fabric);
      assert CommittedRow(runs, last);
      assert last.fabric != fabric ==> Ledger(rows, fabric) == Ledger(init, fabric);
    }
  }
}
