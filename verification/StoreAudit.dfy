/** The tamper-evident audit chain: always valid, determined by its last hash, and a full account of the tables. */
module StoreAudit {
  import opened Basics
  import opened Allocator
  import Reconciliation
  import opened Store
  import opened StoreMachine

  // ----- The chain -----

  ghost predicate Linked(audit: seq<AuditRow>, i: nat)
    requires i < |audit|
  {
    audit[i].body.previous == LastHash(audit[..i]) && audit[i].hash == HashOf(audit[i].body)
  }

  ghost predicate ChainValid(audit: seq<AuditRow>) {
    forall i: nat :: i < |audit| ==> Linked(audit, i)
  }

  /** `verify_audit_chain`: recomputes every hash from the genesis constant on. */
  method VerifyAuditChain(audit: seq<AuditRow>) returns (ok: bool)
    ensures ok <==> ChainValid(audit)
  {
    var previous := Genesis;
    for i := 0 to |audit|
      invariant previous == LastHash(audit[..i])
      invariant forall k: nat :: k < i ==> Linked(audit, k)
    {
      if audit[i].body.previous != previous { assert !Linked(audit, i); return false; }
      if HashOf(audit[i].body) != audit[i].hash { assert !Linked(audit, i); return false; }
      previous := audit[i].hash;
      assert audit[..i + 1][|audit[..i + 1]| - 1] == audit[i];
    }
    return true;
  }

  lemma ShorterChainIsValid(audit: seq<AuditRow>, n: nat)
    requires ChainValid(audit) && n <= |audit|
    ensures ChainValid(audit[..n])
  {
    forall i: nat | i < n ensures Linked(audit[..n], i) {
      assert Linked(audit, i);
      assert audit[..n][..i] == audit[..i];
    }
  }

  lemma HeadOfChain(audit: seq<AuditRow>)
    requires ChainValid(audit)
    ensures audit == [] <==> LastHash(audit) == Genesis
    ensures audit != [] ==> Linked(audit, |audit| - 1)
  {
    if audit != [] { assert Linked(audit, |audit| - 1); }
  }

  /** The head hash pins the whole history: two valid chains with one head are the same events, whatever length they claim. */
  lemma {:induction false} HeadPinsHistory(a: seq<AuditRow>, b: seq<AuditRow>)
    requires ChainValid(a) && ChainValid(b) && LastHash(a) == LastHash(b)
    ensures a == b
    decreases |a|
  {
    HeadOfChain(a);
    HeadOfChain(b);
    if a != [] {
      ShorterChainIsValid(a, |a| - 1);
      ShorterChainIsValid(b, |b| - 1);
      HeadPinsHistory(a[..|a| - 1], b[..|b| - 1]);
      assert a == a[..|a| - 1] + [a[|a| - 1]] && b == b[..|b| - 1] + [b[|b| - 1]];
    }
  }

  lemma AppendKeepsChain(audit: seq<AuditRow>, id: Id, event: Event, actor: Id, now: int)
    requires ChainValid(audit)
    ensures ChainValid(Append(audit, id, event, actor, now))
  {
    var later := Append(audit, id, event, actor, now);
    forall i: nat | i < |later| ensures Linked(later, i) {
      assert later[..i] == if i < |audit| then audit[..i] else audit;
      if i < |audit| { assert Linked(audit, i); }
    }
  }

  // ----- Replaying the log -----

  type Statuses = map<Id, Status>
  type States = map<Id, State>

  /** The run statuses that the log alone accounts for. */
  function ReplayRun(m: Statuses, e: Event): Statuses {
    match e
    case RunCreated(run, status, _) => m[run := status]
    case RunMoved(run, _, after) => m[run := after]
    case _ => m
  }

  function ReplayRuns(audit: seq<AuditRow>): Statuses {
    if audit == [] then map[] else ReplayRun(ReplayRuns(audit[..|audit| - 1]), audit[|audit| - 1].body.event)
  }

  function ReplayReservation(m: States, e: Event): States {
    match e
    case ReservationCreated(id) => m[id := Reserved]
    case ReservationMoved(id, _, to, _) => m[id := to]
    case _ => m
  }

  function ReplayReservations(audit: seq<AuditRow>): States {
    if audit == [] then map[] else ReplayReservation(ReplayReservations(audit[..|audit| - 1]), audit[|audit| - 1].body.event)
  }

  function RunStatuses(runs: map<Id, RunRow>): Statuses { map r | r in runs :: runs[r].status }
  function ReservationStates(rs: map<Id, ReservationRow>): States { map r | r in rs :: rs[r].state }

  /** Recorded moves are moves the lifecycle allows, and releases are verified. */
  predicate EventLegal(e: Event) {
    match e
    case ReservationMoved(_, from, to, verified) => MayMove(from, to) && (to == Released ==> verified)
    case RunMoved(_, before, after) => MayProceed(before, after)
    case _ => true
  }

  ghost predicate AuditSafe(db: Db) {
    && ChainValid(db.audit)
    && ReplayRuns(db.audit) == RunStatuses(db.runs)
    && ReplayReservations(db.audit) == ReservationStates(db.reservations)
    && (forall r :: r in db.audit ==> EventLegal(r.body.event))
  }

  /** One appended event that tells what happened to the two tables. */
  lemma AppendKeeps(db: Db, later: Db, id: Id, event: Event, actor: Id)
    requires AuditSafe(db) && later.audit == Append(db.audit, id, event, actor, db.clock + 1) && EventLegal(event)
    requires RunStatuses(later.runs) == ReplayRun(RunStatuses(db.runs), event)
    requires ReservationStates(later.reservations) == ReplayReservation(ReservationStates(db.reservations), event)
    ensures AuditSafe(later)
  {
    AppendKeepsChain(db.audit, id, event, actor, db.clock + 1);
    assert later.audit[..|later.audit| - 1] == db.audit;
  }

  lemma CompleteKeepsAudit(db: Db, id: Id, artifactHash: string, owned: Reconciliation.Manifest, actor: Id, event: Id, event': Id, later: Db)
    requires AuditSafe(db) && id in db.runs && db.runs[id].status == ApplyRunning
    requires later == CommitOwnedState(db, id, artifactHash, owned, actor, event, event')
    ensures AuditSafe(later)
  {
    var now := db.clock + 1;
    var moved := db.(runs := later.runs, audit := Append(db.audit, event, RunMoved(id, ApplyRunning, ApplySucceeded), actor, now));
    AppendKeeps(db, moved, event, RunMoved(id, ApplyRunning, ApplySucceeded), actor);
    AppendKeeps(moved, later, event', OwnedCommitted(db.runs[id].fabric, id, owned.hash), actor);
  }

  lemma InsertKeepsAudit(db: Db, id: Id, req: Requirements, pol: Policy, key: string, d: Draft, actor: Id, event: Id)
    requires AuditSafe(db)
    ensures AuditSafe(InsertReservation(db, id, req, pol, key, d, actor, event))
  {
    AppendKeeps(db, InsertReservation(db, id, req, pol, key, d, actor, event), event, ReservationCreated(id), actor);
  }

  lemma ReserveKeepsAudit(db: Db, id: Id, req: Requirements, pol: Policy, key: string, actor: Id, event: Id, later: Db)
    requires var made := ReserveDesign(db, id, req, pol, key, actor, event); made.Ok? && made.value.0 == later
    requires AuditSafe(db)
    ensures AuditSafe(later)
  {
    if later != db { InsertKeepsAudit(db, id, req, pol, key, Derive(req, pol, db.nets, db.scalars).value, actor, event); }
  }

  lemma MoveKeepsAudit(db: Db, id: Id, to: State, actor: Id, verified: bool, event: Id, later: Db)
    requires AuditSafe(db) && TransitionReservation(db, id, to, actor, verified, event) == Ok(later)
    ensures AuditSafe(later)
  {
    AppendKeeps(db, later, event, ReservationMoved(id, db.reservations[id].state, to, verified), actor);
  }

  lemma ReservationStepKeepsAudit(db: Db, op: Op)
    requires AuditSafe(db) && (op.OpReserve? || op.OpMoveReservation?)
    ensures AuditSafe(NextReservation(db, op))
  {
    var later := NextReservation(db, op);
    match op
    case OpReserve(id, req, pol, key, actor, event) =>
      if ReserveDesign(db, id, req, pol, key, actor, event).Ok? { ReserveKeepsAudit(db, id, req, pol, key, actor, event, later); }
    case OpMoveReservation(id, to, actor, verified, event) =>
      if TransitionReservation(db, id, to, actor, verified, event).Ok? { MoveKeepsAudit(db, id, to, actor, verified, event, later); }
  }

  lemma InsertRunKeepsAudit(db: Db, id: Id, plan: Id, mode: Mode, key: string, actor: Id, ttl: int, approval: Id, event: Id)
    requires AuditSafe(db) && plan in db.plans
    ensures AuditSafe(InsertRun(db, id, plan, mode, key, actor, ttl, approval, event))
  {
    AppendKeeps(db, InsertRun(db, id, plan, mode, key, actor, ttl, approval, event), event, RunCreated(id, InitialStatus(mode), approval), actor);
  }

  lemma CreateRunKeepsAudit(db: Db, id: Id, plan: Id, mode: Mode, key: string, actor: Id, enabled: bool,
                            window: Option<(int, int)>, ttl: int, event: Id, later: Db)
    requires var made := CreateRun(db, id, plan, mode, key, actor, enabled, window, ttl, event); made.Ok? && made.value.0 == later
    requires AuditSafe(db)
    ensures AuditSafe(later)
  {
    if later != db {
      InsertRunKeepsAudit(db, id, plan, mode, key, actor, ttl, ActiveApproval(db, plan, db.clock + 1).value.id, event);
    }
  }

  lemma MoveRunKeepsAudit(db: Db, id: Id, status: Status, actor: Id, event: Id, later: Db)
    requires AuditSafe(db) && TransitionRun(db, id, status, actor, event) == Ok(later)
    ensures AuditSafe(later)
  {
    AppendKeeps(db, later, event, RunMoved(id, db.runs[id].status, status), actor);
  }

  lemma RunStepKeepsAudit(db: Db, op: Op)
    requires AuditSafe(db) && (op.OpCreateRun? || op.OpMoveRun? || op.OpComplete?)
    ensures AuditSafe(NextRun(db, op))
  {
    var later := NextRun(db, op);
    match op
    case OpCreateRun(id, plan, mode, key, actor, enabled, window, ttl, event) =>
      if CreateRun(db, id, plan, mode, key, actor, enabled, window, ttl, event).Ok? {
        CreateRunKeepsAudit(db, id, plan, mode, key, actor, enabled, window, ttl, event, later);
      }
    case OpMoveRun(id, status, actor, event) =>
      if TransitionRun(db, id, status, actor, event).Ok? { MoveRunKeepsAudit(db, id, status, actor, event, later); }
    case OpComplete(id, artifactHash, owned, actor, event, event') =>
      if CompleteApply(db, id, artifactHash, owned, actor, event, event').Ok? {
        CompleteKeepsAudit(db, id, artifactHash, owned, actor, event, event', later);
      }
  }

  lemma PlanStepKeepsAudit(db: Db, op: Op)
    requires AuditSafe(db) && (op.OpSavePlan? || op.OpApprove?)
    ensures AuditSafe(NextPlan(db, op))
  {
    var later := NextPlan(db, op);
    if op.OpApprove? {
      if RecordApproval(db, op.id, op.target, op.approved, op.approver, op.change, op.expiresAt, op.event).Ok? {
        AppendKeeps(db, later, op.event, PlanDecided(op.target, op.id, op.approved), op.approver);
      }
    } else if later != db {
      if op.plan.id in db.plans {
        AppendKeeps(db, later, op.event, PlanRebound(op.plan.id, db.plans[op.plan.id].reservation, op.reservation), op.actor);
      } else {
        AppendKeeps(db, later, op.event, PlanCreated(op.plan.id), op.actor);
      }
    }
  }

  lemma OtherStepKeepsAudit(db: Db, op: Op)
    requires AuditSafe(db) && (op.OpSaveIntent? || op.OpAdopt? || op.OpEvidence? || op.OpWait?)
    ensures AuditSafe(NextOther(db, op))
  {
    var later := NextOther(db, op);
    if later.audit != db.audit {
      match op
      case OpSaveIntent(id, document, actor, event) => AppendKeeps(db, later, event, IntentCreated(id), actor);
      case OpAdopt(fabric, owned, proof, change, discoverer, approver, event) =>
        AppendKeeps(db, later, event, OwnedAdopted(fabric, owned.hash), approver);
      case OpEvidence(record, actor, event) => AppendKeeps(db, later, event, EvidenceRecorded(record), actor);
    }
  }

  lemma StepKeepsAudit(db: Db, op: Op)
    requires AuditSafe(db)
    ensures AuditSafe(Next(db, op))
  {
    if op.OpSavePlan? || op.OpApprove? { PlanStepKeepsAudit(db, op); }
    else if op.OpCreateRun? || op.OpMoveRun? || op.OpComplete? { RunStepKeepsAudit(db, op); }
    else if op.OpReserve? || op.OpMoveReservation? { ReservationStepKeepsAudit(db, op); }
    else { OtherStepKeepsAudit(db, op); }
  }

  /**
   After every sequence of operations the chain verifies, replaying it gives exactly
   the stored run statuses and reservation states, and every recorded move is legal.
   */
  lemma {:induction false} AuditIsSafe(ops: seq<Op>)
    ensures AuditSafe(After(EmptyDb(), ops))
    decreases |ops|
  {
    if ops != [] {
      AuditIsSafe(ops[..|ops| - 1]);
      StepKeepsAudit(After(EmptyDb(), ops[..|ops| - 1]), ops[|ops| - 1]);
    }
  }

  /** Two stores with the same head hash agree on every run's status and every reservation's state. */
  lemma SameHeadSameTables(ops: seq<Op>, ops': seq<Op>)
    requires LastHash(After(EmptyDb(), ops).audit) == LastHash(After(EmptyDb(), ops').audit)
    ensures RunStatuses(After(EmptyDb(), ops).runs) == RunStatuses(After(EmptyDb(), ops').runs)
    ensures ReservationStates(After(EmptyDb(), ops).reservations) == ReservationStates(After(EmptyDb(), ops').reservations)
  {
    AuditIsSafe(ops);
    AuditIsSafe(ops');
    HeadPinsHistory(After(EmptyDb(), ops).audit, After(EmptyDb(), ops').audit);
  }
}
