/**
 The state store (orchestrator/store.py) as a step machine: its tables, and every
 public operation as one atomic transaction that either raises and changes nothing
 or commits one new state.  SHA-256 is injective, so a hash is represented by the
 value that was hashed; time is the store's own strictly increasing clock.
 */
module Store {
  import opened Basics
  import opened Ordering
  import opened Addressing
  import opened Allocator
  import opened IntentValidation
  import opened Reconciliation

  datatype StoreError =
    | NotFound | Conflict | ValueError | ApprovalRequired | ExecutionDisabled | MaintenanceWindow
    | AllocationFailed(allocation: AllocationError) | InvalidState
    | IntegrityError

  // ----- Tables -----

  datatype Document = Document(fabric: Id, body: IntentDoc)
  datatype IntentRow = IntentRow(document: Document, createdAt: int, createdBy: Id)

  /** What `reservation_hash` covers. */
  datatype ReservationBody = ReservationBody(domain: Id, fabric: Id, nets: seq<NetClaim>, scalars: seq<ScalarClaim>)

  datatype ReservationRow = ReservationRow(key: string, requirements: Requirements, policy: Policy,
    body: ReservationBody, state: State, document: Document, createdAt: int, createdBy: Id)

  datatype PlanRow = PlanRow(planHash: string, artifactHash: string, version: string, reservation: Option<Id>,
    intent: Id, fabric: Id, createdAt: int, createdBy: Id)

  datatype Approval = Approval(id: Id, plan: Id, planHash: string, artifactHash: string, version: string,
    approved: bool, approver: Id, change: string, expiresAt: int, createdAt: int)

  datatype Mode = DryRun | Apply

  datatype Status =
    | DryRunQueued | DryRunRunning | DryRunSucceeded | DryRunBlocked | DryRunFailed
    | ApplyQueued | ApplyRunning | ApplySucceeded | ApplyFailed | RollbackRunning | RolledBack | RollbackFailed

  datatype RunRow = RunRow(plan: Id, planHash: string, artifactHash: string, version: string, fabric: Id,
    key: string, mode: Mode, status: Status, requestedBy: Id, createdAt: int)

  datatype LockRow = LockRow(run: Id, acquiredAt: int, expiresAt: int)

  datatype ManifestRow = ManifestRow(fabric: Id, manifest: Manifest, source: Source, reference: Reference,
    artifact: Option<string>, evidence: Option<string>, createdAt: int, createdBy: Id)

  /** What `evidence_id` is the hash of. */
  datatype EvidenceKey = EvidenceKey(run: Id, phase: Id, device: Option<Id>, kind: string, payload: string)
  datatype EvidenceRow = EvidenceRow(createdAt: int, createdBy: Id)

  /** Aggregate, event type and payload of an audit event. */
  datatype Event =
    | IntentCreated(intent: Id)
    | ReservationCreated(reservation: Id)
    | ReservationMoved(reservation: Id, from: State, to: State, verified: bool)
    | PlanCreated(plan: Id)
    | PlanRebound(plan: Id, previous: Option<Id>, current: Option<Id>)
    | PlanDecided(plan: Id, approval: Id, approved: bool)
    | RunCreated(run: Id, status: Status, approval: Id)
    | RunMoved(run: Id, before: Status, after: Status)
    | OwnedAdopted(fabric: Id, manifest: ManifestBody)
    | OwnedCommitted(fabric: Id, run: Id, manifest: ManifestBody)
    | EvidenceRecorded(evidence: EvidenceKey)

  /** `sha256_json(body)`: injective, and never the genesis constant. */
  datatype Hash = Genesis | HashOf(body: EventBody)
  datatype EventBody = EventBody(id: Id, event: Event, actor: Id, previous: Hash, at: int)
  datatype AuditRow = AuditRow(body: EventBody, hash: Hash)

  datatype Db = Db(
    intents: map<Id, IntentRow>,
    reservations: map<Id, ReservationRow>, nets: seq<NetRow>, scalars: seq<ScalarRow>,
    plans: map<Id, PlanRow>, approvals: seq<Approval>,
    runs: map<Id, RunRow>, locks: map<Id, LockRow>,
    manifests: seq<ManifestRow>, evidence: map<EvidenceKey, EvidenceRow>,
    audit: seq<AuditRow>, clock: int)

  function EmptyDb(): Db { Db(map[], map[], [], [], map[], [], map[], map[], [], map[], [], 0) }

  // ----- Audit -----

  function LastHash(audit: seq<AuditRow>): Hash {
    if audit == [] then Genesis else audit[|audit| - 1].hash
  }

  /** `_append_audit`. */
  function Append(audit: seq<AuditRow>, id: Id, event: Event, actor: Id, now: int): (r: seq<AuditRow>)
    ensures audit <= r
  {
    var body := EventBody(id, event, actor, LastHash(audit), now);
    audit + [AuditRow(body, HashOf(body))]
  }

  /** The table's uniqueness constraint on event ids. */
  predicate FreshEvent(audit: seq<AuditRow>, id: Id) {
    forall r :: r in audit ==> r.body.id != id
  }

  // ----- Queries -----

  /** A query's row, where at most one can match. */
  function AnyOf(ids: set<Id>): (r: Option<Id>)
    ensures r == None <==> ids == {}
    ensures r.Some? ==> r.value in ids
  {
    if ids == {} then None
    else
      var sorted := SortedIds(ids);
      assert sorted != [] by { var x :| x in ids; assert x in sorted; }
      assert sorted[0] in sorted;
      Some(sorted[0])
  }

  function IntentsWith(db: Db, document: Document): set<Id> {
    set i | i in db.intents && db.intents[i].document == document
  }

  function ActiveWithKey(db: Db, key: string): set<Id> {
    set i | i in db.reservations && db.reservations[i].key == key && Active(db.reservations[i].state)
  }

  function ActiveWithBody(db: Db, body: ReservationBody): set<Id> {
    set i | i in db.reservations && db.reservations[i].body == body && Active(db.reservations[i].state)
  }

  function RunsWithKey(db: Db, key: string): set<Id> {
    set i | i in db.runs && db.runs[i].key == key
  }

  predicate PlanHashUsed(db: Db, planHash: string) {
    exists p :: p in db.plans && db.plans[p].planHash == planHash
  }

  /** The newest approval row of a plan. */
  function NewestApproval(approvals: seq<Approval>, plan: Id): Option<Approval> {
    if approvals == [] then None
    else if approvals[|approvals| - 1].plan == plan then Some(approvals[|approvals| - 1])
    else NewestApproval(approvals[..|approvals| - 1], plan)
  }

  function NewestManifest(rows: seq<ManifestRow>, fabric: Id): Option<ManifestRow> {
    if rows == [] then None
    else if rows[|rows| - 1].fabric == fabric then Some(rows[|rows| - 1])
    else NewestManifest(rows[..|rows| - 1], fabric)
  }

  predicate Referenced(rows: seq<ManifestRow>, reference: Reference) {
    exists r :: r in rows && r.reference == reference
  }

  function BaselineOf(row: ManifestRow): Baseline {
    MakeBaseline(row.manifest, row.source, row.reference, row.artifact, row.evidence)
  }

  /** `latest_owned_state`. */
  function LatestOwnedState(db: Db, fabric: Id): Option<Baseline> {
    match NewestManifest(db.manifests, fabric)
    case None => None
    case Some(row) => Some(BaselineOf(row))
  }

  // ----- Intents -----

  function SaveIntent(db: Db, id: Id, document: Document, actor: Id, event: Id): Result<(Db, Id, bool), StoreError> {
    match AnyOf(IntentsWith(db, document))
    case Some(existing) => Ok((db, existing, false))
    case None =>
      if id in db.intents || !FreshEvent(db.audit, event) then Err(IntegrityError)
      else
        var now := db.clock + 1;
        Ok((db.(intents := db.intents[id := IntentRow(document, now, actor)],
                audit := Append(db.audit, event, IntentCreated(id), actor, now), clock := now), id, true))
  }

  // ----- Reservations -----

  /** `idempotency_key.strip()` is the argument; a short one is refused. */
  predicate KeyAccepted(key: string) { |key| >= 12 }

  function NetRows(id: Id, domain: Id, claims: seq<NetClaim>): seq<NetRow> {
    seq(|claims|, i requires 0 <= i < |claims| => NetRow(id, domain, claims[i].pool, claims[i].prefix, Reserved))
  }

  function ScalarRows(id: Id, domain: Id, claims: seq<ScalarClaim>): seq<ScalarRow> {
    seq(|claims|, i requires 0 <= i < |claims| => ScalarRow(id, domain, claims[i].kind, claims[i].value, Reserved))
  }

  function BodyOf(req: Requirements, d: Draft): ReservationBody {
    ReservationBody(req.domain, req.fabric, d.book.netClaims, d.book.scalarClaims)
  }

  function InsertReservation(db: Db, id: Id, req: Requirements, pol: Policy, key: string, d: Draft, actor: Id, event: Id): Db {
    var now := db.clock + 1;
    db.(reservations := db.reservations[id :=
          ReservationRow(key, req, pol, BodyOf(req, d), Reserved, Document(req.fabric, IntentOf(d)), now, actor)],
        nets := db.nets + NetRows(id, req.domain, d.book.netClaims),
        scalars := db.scalars + ScalarRows(id, req.domain, d.book.scalarClaims),
        audit := Append(db.audit, event, ReservationCreated(id), actor, now), clock := now)
  }

  function ReserveDesign(db: Db, id: Id, req: Requirements, pol: Policy, key: string, actor: Id, event: Id): Result<(Db, Id, bool), StoreError> {
    if !KeyAccepted(key) then Err(ValueError)
    else
      match AnyOf(ActiveWithKey(db, key))
      case Some(existing) =>
        if db.reservations[existing].requirements != req || db.reservations[existing].policy != pol then Err(Conflict)
        else Ok((db, existing, false))
      case None =>
        match Derive(req, pol, db.nets, db.scalars)
        case Err(e) => Err(AllocationFailed(e))
        case Ok(d) =>
          if id in db.reservations || ActiveWithBody(db, BodyOf(req, d)) != {} || !FreshEvent(db.audit, event) then Err(IntegrityError)
          else Ok((InsertReservation(db, id, req, pol, key, d, actor, event), id, true))
  }

  predicate MayMove(from: State, to: State) {
    match from
    case Reserved => to == Committed || to == Released || to == Quarantined
    case Committed => to == Released || to == Quarantined
    case Quarantined => to == Released
    case Released => false
  }

  function MoveNets(rows: seq<NetRow>, id: Id, to: State): seq<NetRow> {
    seq(|rows|, i requires 0 <= i < |rows| => if rows[i].reservation == id then rows[i].(state := to) else rows[i])
  }

  function MoveScalars(rows: seq<ScalarRow>, id: Id, to: State): seq<ScalarRow> {
    seq(|rows|, i requires 0 <= i < |rows| => if rows[i].reservation == id then rows[i].(state := to) else rows[i])
  }

  function MoveReservation(db: Db, id: Id, to: State, actor: Id, verified: bool, event: Id): Db
    requires id in db.reservations
  {
    var now := db.clock + 1;
    db.(reservations := db.reservations[id := db.reservations[id].(state := to)],
        nets := MoveNets(db.nets, id, to), scalars := MoveScalars(db.scalars, id, to),
        audit := Append(db.audit, event, ReservationMoved(id, db.reservations[id].state, to, verified), actor, now),
        clock := now)
  }

  function TransitionReservation(db: Db, id: Id, to: State, actor: Id, verified: bool, event: Id): Result<Db, StoreError> {
    if to == Reserved then Err(ValueError)
    else if id !in db.reservations then Err(NotFound)
    else if !MayMove(db.reservations[id].state, to) then Err(Conflict)
    else if to == Released && !verified then Err(Conflict)
    else if !FreshEvent(db.audit, event) then Err(IntegrityError)
    else Ok(MoveReservation(db, id, to, actor, verified, event))
  }

  // ----- Plans and approvals -----

  /** What `save_plan` reads of the plan document. */
  datatype PlanDoc = PlanDoc(id: Id, planHash: string, intentHash: Document)

  function RebindPlan(db: Db, id: Id, reservation: Option<Id>, actor: Id, event: Id): Db
    requires id in db.plans
  {
    var now := db.clock + 1;
    db.(plans := db.plans[id := db.plans[id].(reservation := reservation)],
        audit := Append(db.audit, event, PlanRebound(id, db.plans[id].reservation, reservation), actor, now), clock := now)
  }

  function InsertPlan(db: Db, intent: Id, plan: PlanDoc, actor: Id, artifactHash: string, version: string, reservation: Option<Id>, event: Id): Db
    requires intent in db.intents
  {
    var now := db.clock + 1;
    db.(plans := db.plans[plan.id := PlanRow(plan.planHash, artifactHash, version, reservation, intent,
                                             db.intents[intent].document.fabric, now, actor)],
        audit := Append(db.audit, event, PlanCreated(plan.id), actor, now), clock := now)
  }

  predicate StillActive(db: Db, reservation: Option<Id>) {
    reservation.Some? && reservation.value in db.reservations && Active(db.reservations[reservation.value].state)
  }

  function SavePlan(db: Db, intent: Id, plan: PlanDoc, actor: Id, artifactHash: string, version: string,
                    reservation: Option<Id>, event: Id): Result<(Db, bool), StoreError> {
    if |artifactHash| != 64 || version == "" then Err(ValueError)
    else if intent !in db.intents then Err(NotFound)
    else if plan.intentHash != db.intents[intent].document then Err(Conflict)
    else if reservation.Some? && reservation.value !in db.reservations then Err(NotFound)
    else if reservation.Some? && db.reservations[reservation.value].document != db.intents[intent].document then Err(Conflict)
    else if plan.id in db.plans then
      if db.plans[plan.id].artifactHash != artifactHash then Err(Conflict)
      else if db.plans[plan.id].reservation == reservation then Ok((db, false))
      else if StillActive(db, db.plans[plan.id].reservation) then Err(Conflict)
      else if !FreshEvent(db.audit, event) then Err(IntegrityError)
      else Ok((RebindPlan(db, plan.id, reservation, actor, event), false))
    else if PlanHashUsed(db, plan.planHash) || !FreshEvent(db.audit, event) then Err(IntegrityError)
    else Ok((InsertPlan(db, intent, plan, actor, artifactHash, version, reservation, event), true))
  }

  function InsertApproval(db: Db, id: Id, plan: Id, approved: bool, approver: Id, change: string, expiresAt: int, event: Id): Db
    requires plan in db.plans
  {
    var now := db.clock + 1;
    var p := db.plans[plan];
    db.(approvals := db.approvals + [Approval(id, plan, p.planHash, p.artifactHash, p.version, approved, approver, change, expiresAt, now)],
        audit := Append(db.audit, event, PlanDecided(plan, id, approved), approver, now), clock := now)
  }

  function RecordApproval(db: Db, id: Id, plan: Id, approved: bool, approver: Id, change: string, expiresAt: int, event: Id): Result<Db, StoreError> {
    if change == "" || expiresAt <= db.clock + 1 then Err(ValueError)
    else if plan !in db.plans then Err(NotFound)
    else if db.plans[plan].createdBy == approver then Err(Conflict)
    else if db.plans[plan].artifactHash == "" then Err(Conflict)
    else if (exists a :: a in db.approvals && a.id == id) || !FreshEvent(db.audit, event) then Err(IntegrityError)
    else Ok(InsertApproval(db, id, plan, approved, approver, change, expiresAt, event))
  }

  // ----- Runs -----

  /** `_active_approval`, at the instant `now`. */
  function ActiveApproval(db: Db, plan: Id, now: int): Result<Approval, StoreError> {
    match NewestApproval(db.approvals, plan)
    case None => Err(ApprovalRequired)
    case Some(a) => if !a.approved || a.expiresAt <= now then Err(ApprovalRequired) else Ok(a)
  }

  predicate WindowOpen(window: Option<(int, int)>, now: int) {
    window.Some? && window.value.0 < window.value.1 && window.value.0 <= now <= window.value.1
  }

  predicate ApprovalMatches(a: Approval, p: PlanRow) {
    a.planHash == p.planHash && a.artifactHash == p.artifactHash && a.version == p.version
  }

  function InitialStatus(mode: Mode): Status { if mode == DryRun then DryRunQueued else ApplyQueued }

  function InsertRun(db: Db, id: Id, plan: Id, mode: Mode, key: string, actor: Id, ttl: int, approval: Id, event: Id): Db
    requires plan in db.plans
  {
    var now := db.clock + 1;
    var p := db.plans[plan];
    var run := RunRow(plan, p.planHash, p.artifactHash, p.version, p.fabric, key, mode, InitialStatus(mode), actor, now);
    db.(runs := db.runs[id := run],
        locks := if mode == Apply then db.locks[p.fabric := LockRow(id, now, now + ttl)] else db.locks,
        audit := Append(db.audit, event, RunCreated(id, InitialStatus(mode), approval), actor, now), clock := now)
  }

  function CreateRun(db: Db, id: Id, plan: Id, mode: Mode, key: string, actor: Id, enabled: bool,
                     window: Option<(int, int)>, ttl: int, event: Id): Result<(Db, Id, bool), StoreError> {
    if !KeyAccepted(key) then Err(ValueError)
    else if mode == Apply && !enabled then Err(ExecutionDisabled)
    else if mode == Apply && !WindowOpen(window, db.clock + 1) then Err(MaintenanceWindow)
    else if plan !in db.plans then Err(NotFound)
    else
      match AnyOf(RunsWithKey(db, key))
      case Some(existing) =>
        if db.runs[existing].plan != plan || db.runs[existing].mode != mode then Err(Conflict)
        else Ok((db, existing, false))
      case None =>
        match ActiveApproval(db, plan, db.clock + 1)
        case Err(e) => Err(e)
        case Ok(a) =>
          if !ApprovalMatches(a, db.plans[plan]) then Err(ApprovalRequired)
          else if id in db.runs then Err(IntegrityError)
          else if mode == Apply && db.plans[plan].fabric in db.locks then Err(Conflict)
          else if !FreshEvent(db.audit, event) then Err(IntegrityError)
          else Ok((InsertRun(db, id, plan, mode, key, actor, ttl, a.id, event), id, true))
  }

  predicate MayProceed(before: Status, after: Status) {
    match before
    case DryRunQueued => after == DryRunRunning || after == DryRunFailed
    case DryRunRunning => after == DryRunSucceeded || after == DryRunBlocked || after == DryRunFailed
    case ApplyQueued => after == ApplyRunning || after == ApplyFailed
    case ApplyRunning => after == ApplySucceeded || after == ApplyFailed || after == RollbackRunning
    case RollbackRunning => after == RolledBack || after == RollbackFailed
    case _ => false
  }

  predicate Terminal(s: Status) {
    s in {DryRunSucceeded, DryRunBlocked, DryRunFailed, ApplySucceeded, ApplyFailed, RolledBack, RollbackFailed}
  }

  function Unlock(locks: map<Id, LockRow>, run: Id): map<Id, LockRow> {
    locks - (set f | f in locks && locks[f].run == run)
  }

  function MoveRun(db: Db, id: Id, status: Status, actor: Id, event: Id): Db
    requires id in db.runs
  {
    var now := db.clock + 1;
    db.(runs := db.runs[id := db.runs[id].(status := status)],
        locks := if Terminal(status) then Unlock(db.locks, id) else db.locks,
        audit := Append(db.audit, event, RunMoved(id, db.runs[id].status, status), actor, now), clock := now)
  }

  function TransitionRun(db: Db, id: Id, status: Status, actor: Id, event: Id): Result<Db, StoreError> {
    if id !in db.runs then Err(NotFound)
    else if !MayProceed(db.runs[id].status, status) then Err(Conflict)
    else if !FreshEvent(db.audit, event) then Err(IntegrityError)
    else Ok(MoveRun(db, id, status, actor, event))
  }

  // ----- Owned state -----

  function CommitOwnedState(db: Db, id: Id, artifactHash: string, owned: Manifest, actor: Id, event: Id, event': Id): Db
    requires id in db.runs
  {
    var now := db.clock + 1;
    var fabric := db.runs[id].fabric;
    var moved := Append(db.audit, event, RunMoved(id, ApplyRunning, ApplySucceeded), actor, now);
    db.(manifests := db.manifests +
          [ManifestRow(fabric, owned, SuccessfulApply, RunReference(id), Some(artifactHash), None, now, actor)],
        runs := db.runs[id := db.runs[id].(status := ApplySucceeded)],
        locks := Unlock(db.locks, id),
        audit := Append(moved, event', OwnedCommitted(fabric, id, owned.hash), actor, now), clock := now)
  }

  function CompleteApply(db: Db, id: Id, artifactHash: string, owned: Manifest,
                         actor: Id, event: Id, event': Id): Result<Db, StoreError> {
    if !ManifestValid(owned) then Err(InvalidState)
    else if |artifactHash| != 64 then Err(ValueError)
    else if id !in db.runs then Err(NotFound)
    else if db.runs[id].status != ApplyRunning then Err(Conflict)
    else if db.runs[id].artifactHash != artifactHash then Err(Conflict)
    else if db.runs[id].fabric != owned.body.fabric then Err(Conflict)
    else if Referenced(db.manifests, RunReference(id)) then Err(Conflict)
    else if event == event' || !FreshEvent(db.audit, event) || !FreshEvent(db.audit, event') then Err(IntegrityError)
    else Ok(CommitOwnedState(db, id, artifactHash, owned, actor, event, event'))
  }

  function Adopt(db: Db, fabric: Id, m: Manifest, evidence: string, change: string, approver: Id, event: Id): Db {
    var now := db.clock + 1;
    db.(manifests := db.manifests +
          [ManifestRow(fabric, m, AdoptedDiscovery, AdoptionReference(change, m.hash), None, Some(evidence), now, approver)],
        audit := Append(db.audit, event, OwnedAdopted(fabric, m.hash), approver, now), clock := now)
  }

  function RecordAdopted(db: Db, fabric: Id, m: Manifest, evidence: string, change: string,
                         discoverer: Id, approver: Id, event: Id): Result<Db, StoreError> {
    if !ManifestValid(m) || m.body.fabric != fabric then Err(InvalidState)
    else if !IsDigest(evidence) || change == "" || discoverer == "" || approver == "" then Err(ValueError)
    else if discoverer == approver then Err(Conflict)
    else if Referenced(db.manifests, AdoptionReference(change, m.hash)) then Ok(db)
    else if !FreshEvent(db.audit, event) then Err(IntegrityError)
    else Ok(Adopt(db, fabric, m, evidence, change, approver, event))
  }

  // ----- Evidence -----

  function AddEvidence(db: Db, key: EvidenceKey, actor: Id, event: Id): Result<Db, StoreError> {
    if key.run !in db.runs then Err(NotFound)
    else if key in db.evidence then Ok(db)
    else if !FreshEvent(db.audit, event) then Err(IntegrityError)
    else
      var now := db.clock + 1;
      Ok(db.(evidence := db.evidence[key := EvidenceRow(now, actor)],
             audit := Append(db.audit, event, EvidenceRecorded(key), actor, now), clock := now))
  }
}
