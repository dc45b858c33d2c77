/** Every public operation of the store as a step; the reachable stores are those of all finite runs. */
module StoreMachine {
  import opened Basics
  import opened Allocator
  import opened Reconciliation
  import opened Store

  datatype Op =
    | OpSaveIntent(id: Id, document: Document, actor: Id, event: Id)
    | OpReserve(id: Id, req: Requirements, policy: Policy, key: string, actor: Id, event: Id)
    | OpMoveReservation(id: Id, to: State, actor: Id, verified: bool, event: Id)
    | OpSavePlan(intent: Id, plan: PlanDoc, actor: Id, artifactHash: string, version: string, reservation: Option<Id>, event: Id)
    | OpApprove(id: Id, target: Id, approved: bool, approver: Id, change: string, expiresAt: int, event: Id)
    | OpCreateRun(id: Id, target: Id, mode: Mode, key: string, actor: Id, enabled: bool, window: Option<(int, int)>, ttl: int, event: Id)
    | OpMoveRun(id: Id, status: Status, actor: Id, event: Id)
    | OpComplete(id: Id, artifactHash: string, owned: Manifest, actor: Id, event: Id, event': Id)
    | OpAdopt(fabric: Id, owned: Manifest, proof: string, change: string, discoverer: Id, approver: Id, event: Id)
    | OpEvidence(record: EvidenceKey, actor: Id, event: Id)
    | OpWait(duration: nat)

  function Committed1<T>(db: Db, r: Result<(Db, T), StoreError>): Db {
    if r.Ok? then r.value.0 else db
  }

  function Committed2(db: Db, r: Result<(Db, Id, bool), StoreError>): Db {
    if r.Ok? then r.value.0 else db
  }

  function Committed0(db: Db, r: Result<Db, StoreError>): Db {
    if r.Ok? then r.value else db
  }

  /** Operations on the reservation ledger. */
  function NextReservation(db: Db, op: Op): (r: Db)
    requires op.OpReserve? || op.OpMoveReservation?
    ensures db.audit <= r.audit
    ensures r.plans == db.plans && r.approvals == db.approvals && r.runs == db.runs
    ensures r.locks == db.locks && r.manifests == db.manifests && r.clock >= db.clock
  {
    match op
    case OpReserve(id, req, policy, key, actor, event) => Committed2(db, ReserveDesign(db, id, req, policy, key, actor, event))
    case OpMoveReservation(id, to, actor, verified, event) => Committed0(db, TransitionReservation(db, id, to, actor, verified, event))
  }

  /** Operations on runs, locks and the owned-state ledger. */
  function NextRun(db: Db, op: Op): (r: Db)
    requires op.OpCreateRun? || op.OpMoveRun? || op.OpComplete?
    ensures db.audit <= r.audit
    ensures r.reservations == db.reservations && r.nets == db.nets && r.scalars == db.scalars
    ensures r.plans == db.plans && r.approvals == db.approvals && r.clock >= db.clock
  {
    match op
    case OpCreateRun(id, plan, mode, key, actor, enabled, window, ttl, event) =>
      Committed2(db, CreateRun(db, id, plan, mode, key, actor, enabled, window, ttl, event))
    case OpMoveRun(id, status, actor, event) => Committed0(db, TransitionRun(db, id, status, actor, event))
    case OpComplete(id, artifactHash, owned, actor, event, event') =>
      Committed0(db, CompleteApply(db, id, artifactHash, owned, actor, event, event'))
  }

  /** Plans and approvals. */
  function NextPlan(db: Db, op: Op): (r: Db)
    requires op.OpSavePlan? || op.OpApprove?
    ensures db.audit <= r.audit
    ensures r.reservations == db.reservations && r.nets == db.nets && r.scalars == db.scalars
    ensures r.runs == db.runs && r.locks == db.locks && r.manifests == db.manifests && r.clock >= db.clock
  {
    match op
    case OpSavePlan(intent, plan, actor, artifactHash, version, reservation, event) =>
      Committed1(db, SavePlan(db, intent, plan, actor, artifactHash, version, reservation, event))
    case OpApprove(id, plan, approved, approver, change, expiresAt, event) =>
      Committed0(db, RecordApproval(db, id, plan, approved, approver, change, expiresAt, event))
  }

  /** What touches none of these. */
  function NextOther(db: Db, op: Op): (r: Db)
    requires op.OpSaveIntent? || op.OpAdopt? || op.OpEvidence? || op.OpWait?
    ensures db.audit <= r.audit
    ensures r.reservations == db.reservations && r.nets == db.nets && r.scalars == db.scalars
    ensures r.plans == db.plans && r.approvals == db.approvals && r.runs == db.runs
    ensures r.locks == db.locks && r.clock >= db.clock
  {
    match op
    case OpSaveIntent(id, document, actor, event) => Committed2(db, SaveIntent(db, id, document, actor, event))
    case OpAdopt(fabric, owned, evidence, change, discoverer, approver, event) =>
      Committed0(db, RecordAdopted(db, fabric, owned, evidence, change, discoverer, approver, event))
    case OpEvidence(key, actor, event) => Committed0(db, AddEvidence(db, key, actor, event))
    case OpWait(duration) => db.(clock := db.clock + duration)
  }

  /** A transaction that raises is rolled back. */
  function Next(db: Db, op: Op): Db {
    match op
    case OpReserve(_, _, _, _, _, _) => NextReservation(db, op)
    case OpMoveReservation(_, _, _, _, _) => NextReservation(db, op)
    case OpCreateRun(_, _, _, _, _, _, _, _, _) => NextRun(db, op)
    case OpMoveRun(_, _, _, _) => NextRun(db, op)
    case OpComplete(_, _, _, _, _, _) => NextRun(db, op)
    case OpSavePlan(_, _, _, _, _, _, _) => NextPlan(db, op)
    case OpApprove(_, _, _, _, _, _, _) => NextPlan(db, op)
    case _ => NextOther(db, op)
  }

  /** The store after a run of operations, raised or committed. */
  function After(db: Db, ops: seq<Op>): Db {
    if ops == [] then db else Next(After(db, ops[..|ops| - 1]), ops[|ops| - 1])
  }

  /** At some step `event` holds of the operations before it and of the operation itself. */
  ghost predicate Happened(ops: seq<Op>, event: (seq<Op>, Op) -> bool) {
    exists k: nat :: k < |ops| && event(ops[..k], ops[k])
  }

  lemma HappenedStep(ops: seq<Op>, event: (seq<Op>, Op) -> bool)
    requires ops != []
    ensures Happened(ops, event) <==> Happened(ops[..|ops| - 1], event) || event(ops[..|ops| - 1], ops[|ops| - 1])
  {
    var init := ops[..|ops| - 1];
    forall k: nat | k < |init| ensures init[..k] == ops[..k] && init[k] == ops[k] {}
    if k: nat :| k < |ops| && event(ops[..k], ops[k]) {
      assert k < |init| ==> event(init[..k], init[k]);
    }
    if k: nat :| k < |init| && event(init[..k], init[k]) {
      assert event(ops[..k], ops[k]);
    }
  }
}
