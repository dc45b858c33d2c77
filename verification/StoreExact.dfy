/**
 When each operation of the store is accepted and what it writes, and where an apply run
 comes from: the conditions are written out on the tables.
 */
module StoreExact {
  import opened Basics
  import opened Allocator
  import opened IntentValidation
  import opened Reconciliation
  import opened Store
  import opened StoreMachine
  import StoreAudit
  import StoreRuns

  /** No audit event has the id yet. */
  ghost predicate Unused(db: Db, event: Id) {
    forall r :: r in db.audit ==> r.body.id != event
  }

  /** One event was appended, chained to the last one, and the clock moved on. */
  ghost predicate Recorded(db: Db, later: Db, event: Id, what: Event, actor: Id) {
    var body := EventBody(event, what, actor, if db.audit == [] then Genesis else db.audit[|db.audit| - 1].hash, db.clock + 1);
    later.audit == db.audit + [AuditRow(body, HashOf(body))] && later.clock == db.clock + 1
  }

  // ----- Intents and reservations -----

  ghost predicate Known(db: Db, document: Document, i: Id) { i in db.intents && db.intents[i].document == document }

  /** A stored document is given back; any other is one new row. */
  lemma SaveIntentExact(db: Db, id: Id, document: Document, actor: Id, event: Id)
    ensures match SaveIntent(db, id, document, actor, event)
            case Ok((later, given, created)) =>
              if exists i :: Known(db, document, i) then !created && later == db && Known(db, document, given)
              else
                && created && given == id && id !in db.intents && Unused(db, event)
                && later == db.(intents := db.intents[id := IntentRow(document, db.clock + 1, actor)], audit := later.audit, clock := later.clock)
                && Recorded(db, later, event, IntentCreated(id), actor)
            case Err(e) => e == IntegrityError && !(exists i :: Known(db, document, i)) && (id in db.intents || !Unused(db, event))
  {
    var ids := IntentsWith(db, document);
    assert forall i :: i in ids <==> Known(db, document, i);
  }

  /** An active reservation holds the key. */
  ghost predicate KeyHeldBy(db: Db, key: string, i: Id) {
    i in db.reservations && db.reservations[i].key == key && db.reservations[i].state != Released
  }

  /** An active reservation already claims exactly this. */
  ghost predicate BodyHeldBy(db: Db, body: ReservationBody, i: Id) {
    i in db.reservations && db.reservations[i].body == body && db.reservations[i].state != Released
  }

  /** The rows that a new design adds to the ledger, all reserved. */
  ghost predicate RowsAdded(db: Db, later: Db, id: Id, domain: Id, nets: seq<NetClaim>, scalars: seq<ScalarClaim>) {
    && |later.nets| == |db.nets| + |nets| && db.nets <= later.nets
    && (forall i :: 0 <= i < |nets| ==> later.nets[|db.nets| + i] == NetRow(id, domain, nets[i].pool, nets[i].prefix, Reserved))
    && |later.scalars| == |db.scalars| + |scalars| && db.scalars <= later.scalars
    && (forall i :: 0 <= i < |scalars| ==> later.scalars[|db.scalars| + i] == ScalarRow(id, domain, scalars[i].kind, scalars[i].value, Reserved))
  }

  /** One reservation with its rows and its event, and nothing else. */
  ghost predicate DesignReserved(db: Db, later: Db, id: Id, req: Requirements, pol: Policy, key: string, d: Draft, actor: Id, event: Id) {
    var body := ReservationBody(req.domain, req.fabric, d.book.netClaims, d.book.scalarClaims);
    && later == db.(reservations := db.reservations[id := ReservationRow(key, req, pol, body, Reserved,
                       Document(req.fabric, IntentOf(d)), db.clock + 1, actor)],
                    nets := later.nets, scalars := later.scalars, audit := later.audit, clock := later.clock)
    && RowsAdded(db, later, id, req.domain, body.nets, body.scalars)
    && Recorded(db, later, event, ReservationCreated(id), actor)
  }

  lemma InsertionReserves(db: Db, id: Id, req: Requirements, pol: Policy, key: string, d: Draft, actor: Id, event: Id)
    ensures DesignReserved(db, InsertReservation(db, id, req, pol, key, d, actor, event), id, req, pol, key, d, actor, event)
  {
  }

  /** A key that an active reservation holds gives that one back for the same requirements and policy, else a conflict. */
  lemma HeldKeyExact(db: Db, id: Id, req: Requirements, pol: Policy, key: string, actor: Id, event: Id)
    requires exists i :: KeyHeldBy(db, key, i)
    ensures match ReserveDesign(db, id, req, pol, key, actor, event)
            case Ok((later, given, created)) =>
              && |key| >= 12 && !created && later == db && KeyHeldBy(db, key, given)
              && db.reservations[given].requirements == req && db.reservations[given].policy == pol
            case Err(e) =>
              if |key| < 12 then e == ValueError
              else
                && e == Conflict
                && exists i :: KeyHeldBy(db, key, i) && (db.reservations[i].requirements != req || db.reservations[i].policy != pol)
  {
    var ids := ActiveWithKey(db, key);
    assert forall i :: i in ids <==> KeyHeldBy(db, key, i);
  }

  /** A free key reserves what the derivation claims, unless an active reservation claims exactly that already. */
  lemma FreeKeyExact(db: Db, id: Id, req: Requirements, pol: Policy, key: string, actor: Id, event: Id)
    requires forall i :: !KeyHeldBy(db, key, i)
    ensures var d := Derive(req, pol, db.nets, db.scalars);
            match ReserveDesign(db, id, req, pol, key, actor, event)
            case Ok((later, given, created)) =>
              && |key| >= 12 && d.Ok? && created && given == id && id !in db.reservations && Unused(db, event)
              && (forall i :: !BodyHeldBy(db, ReservationBody(req.domain, req.fabric, d.value.book.netClaims, d.value.book.scalarClaims), i))
              && DesignReserved(db, later, id, req, pol, key, d.value, actor, event)
            case Err(e) =>
              if |key| < 12 then e == ValueError
              else if d.Err? then e == AllocationFailed(d.error)
              else
                && e == IntegrityError
                && (|| id in db.reservations || !Unused(db, event)
                    || exists i :: BodyHeldBy(db, ReservationBody(req.domain, req.fabric, d.value.book.netClaims, d.value.book.scalarClaims), i))
  {
    assert ActiveWithKey(db, key) == {} by { assert forall i :: i in ActiveWithKey(db, key) ==> KeyHeldBy(db, key, i); }
    if Derive(req, pol, db.nets, db.scalars).Ok? {
      var d := Derive(req, pol, db.nets, db.scalars).value;
      InsertionReserves(db, id, req, pol, key, d, actor, event);
      BodyHeldExact(db, BodyOf(req, d));
    }
  }

  lemma BodyHeldExact(db: Db, body: ReservationBody)
    ensures ActiveWithBody(db, body) == {} <==> forall i :: !BodyHeldBy(db, body, i)
  {
    assert forall i :: i in ActiveWithBody(db, body) <==> BodyHeldBy(db, body, i);
  }

  /** The lifecycle of a reservation. */
  const RESERVATION_MOVES: set<(State, State)> := {
    (Reserved, Allocator.Committed), (Reserved, Released), (Reserved, Quarantined),
    (Allocator.Committed, Released), (Allocator.Committed, Quarantined), (Quarantined, Released)
  }

  /** A move rewrites the reservation and exactly its own rows. */
  ghost predicate RowsMoved(db: Db, later: Db, id: Id, to: State) {
    && |later.nets| == |db.nets| && |later.scalars| == |db.scalars|
    && (forall i :: 0 <= i < |db.nets| ==>
          later.nets[i] == if db.nets[i].reservation == id then db.nets[i].(state := to) else db.nets[i])
    && (forall i :: 0 <= i < |db.scalars| ==>
          later.scalars[i] == if db.scalars[i].reservation == id then db.scalars[i].(state := to) else db.scalars[i])
  }

  lemma TransitionReservationExact(db: Db, id: Id, to: State, actor: Id, verified: bool, event: Id)
    ensures match TransitionReservation(db, id, to, actor, verified, event)
            case Ok(later) =>
              && id in db.reservations && (db.reservations[id].state, to) in RESERVATION_MOVES && (to == Released ==> verified) && Unused(db, event)
              && later == db.(reservations := db.reservations[id := db.reservations[id].(state := to)],
                              nets := later.nets, scalars := later.scalars, audit := later.audit, clock := later.clock)
              && RowsMoved(db, later, id, to)
              && Recorded(db, later, event, ReservationMoved(id, db.reservations[id].state, to, verified), actor)
            case Err(e) =>
              if to == Reserved then e == ValueError
              else if id !in db.reservations then e == NotFound
              else if (db.reservations[id].state, to) !in RESERVATION_MOVES || (to == Released && !verified) then e == Conflict
              else e == IntegrityError && !Unused(db, event)
  {
  }

  // ----- Plans and approvals -----

  /** The plan document is of the stored intent, and the reservation, where given, was derived for it. */
  ghost predicate PlanFits(db: Db, intent: Id, plan: PlanDoc, reservation: Option<Id>) {
    && intent in db.intents && plan.intentHash == db.intents[intent].document
    && (reservation.Some? ==> reservation.value in db.reservations && db.reservations[reservation.value].document == db.intents[intent].document)
  }

  ghost predicate SpaceHeld(db: Db, reservation: Option<Id>) {
    reservation.Some? && reservation.value in db.reservations && db.reservations[reservation.value].state != Released
  }

  /** A new plan, one event, and nothing else. */
  ghost predicate PlanInserted(db: Db, later: Db, intent: Id, plan: PlanDoc, actor: Id, artifactHash: string, version: string,
                               reservation: Option<Id>, event: Id)
    requires intent in db.intents
  {
    && later == db.(plans := db.plans[plan.id := PlanRow(plan.planHash, artifactHash, version, reservation, intent,
                                        db.intents[intent].document.fabric, db.clock + 1, actor)],
                    audit := later.audit, clock := later.clock)
    && Recorded(db, later, event, PlanCreated(plan.id), actor)
  }

  /** Only the plan's reservation changed. */
  ghost predicate PlanRebinds(db: Db, later: Db, plan: Id, reservation: Option<Id>, actor: Id, event: Id)
    requires plan in db.plans
  {
    && later == db.(plans := db.plans[plan := db.plans[plan].(reservation := reservation)], audit := later.audit, clock := later.clock)
    && Recorded(db, later, event, PlanRebound(plan, db.plans[plan].reservation, reservation), actor)
  }

  lemma NewPlanExact(db: Db, intent: Id, plan: PlanDoc, actor: Id, artifactHash: string, version: string, reservation: Option<Id>, event: Id)
    requires plan.id !in db.plans
    ensures match SavePlan(db, intent, plan, actor, artifactHash, version, reservation, event)
            case Ok((later, created)) =>
              && |artifactHash| == 64 && version != "" && PlanFits(db, intent, plan, reservation)
              && (forall p :: p in db.plans ==> db.plans[p].planHash != plan.planHash) && Unused(db, event)
              && created && PlanInserted(db, later, intent, plan, actor, artifactHash, version, reservation, event)
            case Err(e) =>
              || |artifactHash| != 64 || version == "" || !PlanFits(db, intent, plan, reservation)
              || (exists p :: p in db.plans && db.plans[p].planHash == plan.planHash) || !Unused(db, event)
  {
  }

  /** A stored plan is given back, and rebound only when its own reservation holds no space. */
  lemma StoredPlanExact(db: Db, intent: Id, plan: PlanDoc, actor: Id, artifactHash: string, version: string, reservation: Option<Id>, event: Id)
    requires plan.id in db.plans
    ensures match SavePlan(db, intent, plan, actor, artifactHash, version, reservation, event)
            case Ok((later, created)) =>
              && |artifactHash| == 64 && version != "" && PlanFits(db, intent, plan, reservation)
              && db.plans[plan.id].artifactHash == artifactHash && !created
              && (if db.plans[plan.id].reservation == reservation then later == db
                  else !SpaceHeld(db, db.plans[plan.id].reservation) && Unused(db, event) && PlanRebinds(db, later, plan.id, reservation, actor, event))
            case Err(e) =>
              || |artifactHash| != 64 || version == "" || !PlanFits(db, intent, plan, reservation)
              || db.plans[plan.id].artifactHash != artifactHash
              || (db.plans[plan.id].reservation != reservation && (SpaceHeld(db, db.plans[plan.id].reservation) || !Unused(db, event)))
  {
  }

  /** Accepted from anyone but the plan's creator, with a change reference and an expiry in the future; it carries the plan's bindings. */
  lemma RecordApprovalExact(db: Db, id: Id, plan: Id, approved: bool, approver: Id, change: string, expiresAt: int, event: Id)
    ensures match RecordApproval(db, id, plan, approved, approver, change, expiresAt, event)
            case Ok(later) =>
              && change != "" && expiresAt > db.clock + 1 && plan in db.plans && approver != db.plans[plan].createdBy
              && db.plans[plan].artifactHash != "" && (forall a :: a in db.approvals ==> a.id != id) && Unused(db, event)
              && later == db.(approvals := db.approvals + [Approval(id, plan, db.plans[plan].planHash, db.plans[plan].artifactHash,
                                 db.plans[plan].version, approved, approver, change, expiresAt, db.clock + 1)],
                              audit := later.audit, clock := later.clock)
              && Recorded(db, later, event, PlanDecided(plan, id, approved), approver)
            case Err(e) =>
              if change == "" || expiresAt <= db.clock + 1 then e == ValueError
              else if plan !in db.plans then e == NotFound
              else if approver == db.plans[plan].createdBy || db.plans[plan].artifactHash == "" then e == Conflict
              else e == IntegrityError && ((exists a :: a in db.approvals && a.id == id) || !Unused(db, event))
  {
  }

  // ----- Runs -----

  /** The caller enabled execution, and the instant lies in a window that ends after it starts. */
  ghost predicate ApplyAllowed(enabled: bool, window: Option<(int, int)>, now: int) {
    enabled && window.Some? && window.value.0 < window.value.1 && window.value.0 <= now && now <= window.value.1
  }

  /** The k-th approval is the plan's last one; it approves exactly this plan, artifact and version, and has not expired. */
  ghost predicate CoveredBy(db: Db, plan: Id, now: int, k: nat)
    requires plan in db.plans
  {
    && k < |db.approvals| && db.approvals[k].plan == plan && (forall j :: k < j < |db.approvals| ==> db.approvals[j].plan != plan)
    && db.approvals[k].approved && now < db.approvals[k].expiresAt
    && db.approvals[k].planHash == db.plans[plan].planHash && db.approvals[k].artifactHash == db.plans[plan].artifactHash
    && db.approvals[k].version == db.plans[plan].version
  }

  ghost predicate Covered(db: Db, plan: Id, now: int)
    requires plan in db.plans
  {
    exists k: nat :: CoveredBy(db, plan, now, k)
  }

  /** One queued run carrying the plan's bindings, for an apply the fabric's lock, one event, and nothing else. */
  ghost predicate RunMade(db: Db, later: Db, id: Id, plan: Id, mode: Mode, key: string, actor: Id, ttl: int, approval: Id, event: Id)
    requires plan in db.plans
  {
    var p, now, status := db.plans[plan], db.clock + 1, if mode == DryRun then DryRunQueued else ApplyQueued;
    && later == db.(runs := db.runs[id := RunRow(plan, p.planHash, p.artifactHash, p.version, p.fabric, key, mode, status, actor, now)],
                    locks := later.locks, audit := later.audit, clock := later.clock)
    && later.locks == (if mode == Apply then db.locks[p.fabric := LockRow(id, now, now + ttl)] else db.locks)
    && Recorded(db, later, event, RunCreated(id, status, approval), actor)
  }

  /** What a request under a free key must meet for a run to be made. */
  ghost predicate RunAllowed(db: Db, id: Id, plan: Id, mode: Mode, key: string, enabled: bool, window: Option<(int, int)>, event: Id, k: nat) {
    && |key| >= 12 && plan in db.plans && CoveredBy(db, plan, db.clock + 1, k) && id !in db.runs && Unused(db, event)
    && (mode == Apply ==> ApplyAllowed(enabled, window, db.clock + 1) && db.plans[plan].fabric !in db.locks)
  }

  lemma ActiveApprovalExact(db: Db, plan: Id, now: int)
    requires plan in db.plans
    ensures var a := ActiveApproval(db, plan, now);
            && (a.Ok? && ApprovalMatches(a.value, db.plans[plan]) ==> exists k: nat :: CoveredBy(db, plan, now, k) && db.approvals[k] == a.value)
            && (Covered(db, plan, now) ==> a.Ok? && ApprovalMatches(a.value, db.plans[plan]))
  {
    StoreRuns.NewestApprovalExact(db.approvals, plan);
    var a := NewestApproval(db.approvals, plan);
    if a.Some? {
      var k :| 0 <= k < |db.approvals| && db.approvals[k] == a.value && a.value.plan == plan
               && forall j :: k < j < |db.approvals| ==> db.approvals[j].plan != plan;
      assert forall m: nat :: CoveredBy(db, plan, now, m) ==> m == k;
      assert a.value.approved && now < a.value.expiresAt && ApprovalMatches(a.value, db.plans[plan]) ==> CoveredBy(db, plan, now, k);
    }
  }

  /** A request under a free key makes a run exactly when it is allowed, and the error tells why not. */
  lemma NewRunExact(db: Db, id: Id, plan: Id, mode: Mode, key: string, actor: Id, enabled: bool, window: Option<(int, int)>, ttl: int, event: Id)
    requires forall i :: i in db.runs ==> db.runs[i].key != key
    ensures match CreateRun(db, id, plan, mode, key, actor, enabled, window, ttl, event)
            case Ok((later, given, created)) =>
              && created && given == id
              && exists k: nat :: RunAllowed(db, id, plan, mode, key, enabled, window, event, k)
                   && RunMade(db, later, id, plan, mode, key, actor, ttl, db.approvals[k].id, event)
            case Err(e) =>
              if |key| < 12 then e == ValueError
              else if mode == Apply && !enabled then e == ExecutionDisabled
              else if mode == Apply && !ApplyAllowed(enabled, window, db.clock + 1) then e == StoreError.MaintenanceWindow
              else if plan !in db.plans then e == NotFound
              else if !Covered(db, plan, db.clock + 1) then e == ApprovalRequired
              else if id in db.runs then e == IntegrityError
              else if mode == Apply && db.plans[plan].fabric in db.locks then e == Conflict
              else e == IntegrityError && !Unused(db, event)
  {
    assert RunsWithKey(db, key) == {};
    if plan in db.plans { ActiveApprovalExact(db, plan, db.clock + 1); }
  }

  /** A key in use gives its run back for the same plan and mode, within the same limits, and a conflict for any other. */
  lemma UsedKeyExact(db: Db, id: Id, plan: Id, mode: Mode, key: string, actor: Id, enabled: bool, window: Option<(int, int)>, ttl: int, event: Id)
    requires exists i :: i in db.runs && db.runs[i].key == key
    ensures match CreateRun(db, id, plan, mode, key, actor, enabled, window, ttl, event)
            case Ok((later, given, created)) =>
              && |key| >= 12 && (mode == Apply ==> ApplyAllowed(enabled, window, db.clock + 1)) && plan in db.plans
              && !created && later == db && given in db.runs && db.runs[given].key == key && db.runs[given].plan == plan && db.runs[given].mode == mode
            case Err(e) =>
              if |key| < 12 then e == ValueError
              else if mode == Apply && !enabled then e == ExecutionDisabled
              else if mode == Apply && !ApplyAllowed(enabled, window, db.clock + 1) then e == StoreError.MaintenanceWindow
              else if plan !in db.plans then e == NotFound
              else e == Conflict && exists i :: i in db.runs && db.runs[i].key == key && (db.runs[i].plan != plan || db.runs[i].mode != mode)
  {
    assert forall i :: i in RunsWithKey(db, key) <==> i in db.runs && db.runs[i].key == key;
  }

  /** The status graph of a run. */
  const RUN_MOVES: set<(Status, Status)> := {
    (DryRunQueued, DryRunRunning), (DryRunQueued, DryRunFailed),
    (DryRunRunning, DryRunSucceeded), (DryRunRunning, DryRunBlocked), (DryRunRunning, DryRunFailed),
    (ApplyQueued, ApplyRunning), (ApplyQueued, ApplyFailed),
    (ApplyRunning, ApplySucceeded), (ApplyRunning, ApplyFailed), (ApplyRunning, RollbackRunning),
    (RollbackRunning, RolledBack), (RollbackRunning, RollbackFailed)
  }

  /** The statuses from which no move leads on give the run's lock back. */
  ghost predicate LocksAfter(db: Db, later: Db, id: Id, status: Status) {
    var ended := forall next :: (status, next) !in RUN_MOVES;
    && (forall f :: f in later.locks <==> f in db.locks && !(ended && db.locks[f].run == id))
    && (forall f :: f in later.locks ==> later.locks[f] == db.locks[f])
  }

  lemma TransitionRunExact(db: Db, id: Id, status: Status, actor: Id, event: Id)
    ensures match TransitionRun(db, id, status, actor, event)
            case Ok(later) =>
              && id in db.runs && (db.runs[id].status, status) in RUN_MOVES && Unused(db, event)
              && later == db.(runs := db.runs[id := db.runs[id].(status := status)], locks := later.locks, audit := later.audit, clock := later.clock)
              && LocksAfter(db, later, id, status) && Recorded(db, later, event, RunMoved(id, db.runs[id].status, status), actor)
            case Err(e) =>
              if id !in db.runs then e == NotFound
              else if (db.runs[id].status, status) !in RUN_MOVES then e == Conflict
              else e == IntegrityError && !Unused(db, event)
  {
    EndedIsTerminal(status);
  }

  lemma EndedIsTerminal(status: Status)
    ensures Terminal(status) <==> forall next :: (status, next) !in RUN_MOVES
  {
    assert status == DryRunQueued ==> (status, DryRunFailed) in RUN_MOVES;
    assert status == DryRunRunning ==> (status, DryRunFailed) in RUN_MOVES;
    assert status == ApplyQueued ==> (status, ApplyFailed) in RUN_MOVES;
    assert status == ApplyRunning ==> (status, ApplyFailed) in RUN_MOVES;
    assert status == RollbackRunning ==> (status, RolledBack) in RUN_MOVES;
  }

  // ----- Owned state and evidence -----

  ghost predicate HexDigest(s: string) {
    |s| == 64 && forall i :: 0 <= i < |s| ==> '0' <= s[i] <= '9' || 'a' <= s[i] <= 'f' || 'A' <= s[i] <= 'F'
  }

  lemma DigestIsHex(s: string)
    ensures IsDigest(s) <==> HexDigest(s)
  {
    if IsDigest(s) {
      forall i | 0 <= i < |s| ensures '0' <= s[i] <= '9' || 'a' <= s[i] <= 'f' || 'A' <= s[i] <= 'F' { assert s[i] in s; }
    }
  }

  /** The manifest row, the success, the lock given back and both events, in one transaction. */
  ghost predicate ApplyCommitted(db: Db, later: Db, id: Id, artifactHash: string, owned: Manifest, actor: Id, event: Id, event': Id)
    requires id in db.runs
  {
    var now, fabric := db.clock + 1, db.runs[id].fabric;
    var previous := if db.audit == [] then Genesis else db.audit[|db.audit| - 1].hash;
    var moved := EventBody(event, RunMoved(id, ApplyRunning, ApplySucceeded), actor, previous, now);
    var recorded := EventBody(event', OwnedCommitted(fabric, id, owned.hash), actor, HashOf(moved), now);
    && later == db.(manifests := db.manifests + [ManifestRow(fabric, owned, SuccessfulApply, RunReference(id), Some(artifactHash), None, now, actor)],
                    runs := db.runs[id := db.runs[id].(status := ApplySucceeded)], locks := later.locks,
                    audit := db.audit + [AuditRow(moved, HashOf(moved)), AuditRow(recorded, HashOf(recorded))], clock := now)
    && (forall f :: f in later.locks <==> f in db.locks && db.locks[f].run != id)
    && (forall f :: f in later.locks ==> later.locks[f] == db.locks[f])
  }

  lemma CommitIsCommitted(db: Db, id: Id, artifactHash: string, owned: Manifest, actor: Id, event: Id, event': Id)
    requires id in db.runs
    ensures ApplyCommitted(db, CommitOwnedState(db, id, artifactHash, owned, actor, event, event'), id, artifactHash, owned, actor, event, event')
  {
    var moved := Store.Append(db.audit, event, RunMoved(id, ApplyRunning, ApplySucceeded), actor, db.clock + 1);
    assert moved[|moved| - 1].hash == LastHash(moved);
  }

  /** Accepted for a running apply's own artifact and fabric, once, with a valid manifest. */
  lemma CompleteApplyExact(db: Db, id: Id, artifactHash: string, owned: Manifest, actor: Id, event: Id, event': Id)
    ensures match CompleteApply(db, id, artifactHash, owned, actor, event, event')
            case Ok(later) =>
              && ManifestValid(owned) && |artifactHash| == 64 && id in db.runs && db.runs[id].status == ApplyRunning
              && db.runs[id].artifactHash == artifactHash && db.runs[id].fabric == owned.body.fabric
              && (forall row :: row in db.manifests ==> row.reference != RunReference(id))
              && event != event' && Unused(db, event) && Unused(db, event')
              && ApplyCommitted(db, later, id, artifactHash, owned, actor, event, event')
            case Err(e) =>
              if !ManifestValid(owned) then e == InvalidState
              else if |artifactHash| != 64 then e == ValueError
              else if id !in db.runs then e == NotFound
              else if db.runs[id].status != ApplyRunning || db.runs[id].artifactHash != artifactHash || db.runs[id].fabric != owned.body.fabric
              then e == Conflict
              else if exists row :: row in db.manifests && row.reference == RunReference(id) then e == Conflict
              else e == IntegrityError && (event == event' || !Unused(db, event) || !Unused(db, event'))
  {
    if id in db.runs { CommitIsCommitted(db, id, artifactHash, owned, actor, event, event'); }
  }

  /** Two named people, a change reference and a digest of the discovery; recorded once for each change and manifest. */
  lemma RecordAdoptedExact(db: Db, fabric: Id, m: Manifest, evidence: string, change: string, discoverer: Id, approver: Id, event: Id)
    ensures var known := exists row :: row in db.manifests && row.reference == AdoptionReference(change, m.hash);
            match RecordAdopted(db, fabric, m, evidence, change, discoverer, approver, event)
            case Ok(later) =>
              && ManifestValid(m) && m.body.fabric == fabric && HexDigest(evidence)
              && change != "" && discoverer != "" && approver != "" && discoverer != approver
              && if known then later == db
                 else
                   && Unused(db, event)
                   && later == db.(manifests := db.manifests + [ManifestRow(fabric, m, AdoptedDiscovery, AdoptionReference(change, m.hash),
                                                                            None, Some(evidence), db.clock + 1, approver)],
                                   audit := later.audit, clock := later.clock)
                   && Recorded(db, later, event, OwnedAdopted(fabric, m.hash), approver)
            case Err(e) =>
              if !ManifestValid(m) || m.body.fabric != fabric then e == InvalidState
              else if !HexDigest(evidence) || change == "" || discoverer == "" || approver == "" then e == ValueError
              else if discoverer == approver then e == Conflict
              else e == IntegrityError && !known && !Unused(db, event)
  {
    DigestIsHex(evidence);
  }

  lemma AddEvidenceExact(db: Db, key: EvidenceKey, actor: Id, event: Id)
    ensures match AddEvidence(db, key, actor, event)
            case Ok(later) =>
              && key.run in db.runs && key in later.evidence
              && if key in db.evidence then later == db
                 else
                   && Unused(db, event) && Recorded(db, later, event, EvidenceRecorded(key), actor)
                   && later == db.(evidence := db.evidence[key := EvidenceRow(db.clock + 1, actor)], audit := later.audit, clock := later.clock)
            case Err(e) => if key.run !in db.runs then e == NotFound else e == IntegrityError && key !in db.evidence && !Unused(db, event)
  {
  }

  // ----- Where a run comes from -----

  /** The operation asked for the run, and for an apply it was enabled in an open window at the run's own creation time. */
  ghost predicate AskedFor(op: Op, id: Id, r: RunRow) {
    && op.OpCreateRun? && op.id == id && op.target == r.plan && op.mode == r.mode && op.key == r.key && op.actor == r.requestedBy
    && (r.mode == Apply ==> ApplyAllowed(op.enabled, op.window, r.createdAt))
  }

  /** The k-th operation made the run, which was not there before. */
  ghost predicate MadeBy(db: Db, ops: seq<Op>, id: Id, r: RunRow, k: nat) {
    k < |ops| && AskedFor(ops[k], id, r) && id !in After(db, ops[..k]).runs
  }

  /** What an operation leaves of a run besides its status. */
  ghost predicate SameRequest(r: RunRow, now: RunRow) { now.(status := r.status) == r }

  lemma CreateRunMakes(db: Db, op: Op, id: Id)
    requires op.OpCreateRun? && id in NextRun(db, op).runs
    ensures if id in db.runs then NextRun(db, op).runs[id] == db.runs[id] else AskedFor(op, id, NextRun(db, op).runs[id])
  {
    if exists i :: i in db.runs && db.runs[i].key == op.key {
      UsedKeyExact(db, op.id, op.target, op.mode, op.key, op.actor, op.enabled, op.window, op.ttl, op.event);
    } else {
      NewRunExact(db, op.id, op.target, op.mode, op.key, op.actor, op.enabled, op.window, op.ttl, op.event);
    }
  }

  lemma MovesKeepRequests(db: Db, op: Op, id: Id)
    requires (op.OpMoveRun? || op.OpComplete?) && id in NextRun(db, op).runs
    ensures id in db.runs && SameRequest(db.runs[id], NextRun(db, op).runs[id])
  {
  }

  lemma StepMakes(db: Db, op: Op, id: Id)
    requires id in Next(db, op).runs
    ensures if id in db.runs then SameRequest(db.runs[id], Next(db, op).runs[id]) else AskedFor(op, id, Next(db, op).runs[id])
  {
    if op.OpCreateRun? { CreateRunMakes(db, op, id); }
    else if op.OpMoveRun? || op.OpComplete? { MovesKeepRequests(db, op, id); }
  }

  /**
   Every run of every reachable store was made by one `create_run`, for the run's plan, mode, key and
   requester; an apply run only with execution enabled, and in a window that ends after it starts and
   contains the instant at which the run was created.
   */
  lemma {:induction false} EveryRunWasAskedFor(ops: seq<Op>, id: Id)
    requires id in After(EmptyDb(), ops).runs
    ensures exists k: nat :: MadeBy(EmptyDb(), ops, id, After(EmptyDb(), ops).runs[id], k)
    decreases |ops|
  {
    var init, last := ops[..|ops| - 1], ops[|ops| - 1];
    var before := After(EmptyDb(), init);
    StepMakes(before, last, id);
    if id in before.runs {
      EveryRunWasAskedFor(init, id);
      var k: nat :| MadeBy(EmptyDb(), init, id, before.runs[id], k);
      assert init[..k] == ops[..k] && init[k] == ops[k];
      assert MadeBy(EmptyDb(), ops, id, After(EmptyDb(), ops).runs[id], k);
    } else {
      assert MadeBy(EmptyDb(), ops, id, After(EmptyDb(), ops).runs[id], |init|);
    }
  }

  ghost predicate EnabledInWindow(op: Op, id: Id, at: int) {
    && op.OpCreateRun? && op.id == id && op.mode == Apply && op.enabled
    && op.window.Some? && op.window.value.0 < op.window.value.1 && op.window.value.0 <= at <= op.window.value.1
  }

  /** So an apply run exists only if someone asked for it with execution enabled and inside its window. */
  lemma ApplyRunsAreWindowed(ops: seq<Op>, id: Id, r: RunRow)
    requires id in After(EmptyDb(), ops).runs && After(EmptyDb(), ops).runs[id] == r && r.mode == Apply
    ensures exists k: nat :: k < |ops| && EnabledInWindow(ops[k], id, r.createdAt)
  {
    EveryRunWasAskedFor(ops, id);
    var k: nat :| MadeBy(EmptyDb(), ops, id, r, k);
    assert EnabledInWindow(ops[k], id, r.createdAt);
  }

  // ----- What the log and the ownership ledger say -----

  /** A recorded move is one of the two graphs', and a recorded release was verified. */
  ghost predicate ListedMove(e: Event) {
    && (e.RunMoved? ==> (e.before, e.after) in RUN_MOVES)
    && (e.ReservationMoved? ==> (e.from, e.to) in RESERVATION_MOVES && (e.to == Released ==> e.verified))
  }

  lemma LegalIsListed(e: Event)
    requires StoreAudit.EventLegal(e)
    ensures ListedMove(e)
  {
  }

  lemma AuditedMovesAreLegal(db: Db, k: nat)
    requires StoreAudit.AuditSafe(db) && k < |db.audit|
    ensures ListedMove(db.audit[k].body.event)
  {
    assert db.audit[k] in db.audit;
    LegalIsListed(db.audit[k].body.event);
  }

  lemma RecordedMovesAreLegal(ops: seq<Op>, db: Db, k: nat)
    requires db == After(EmptyDb(), ops) && k < |db.audit|
    ensures ListedMove(db.audit[k].body.event)
  {
    StoreAudit.AuditIsSafe(ops);
    AuditedMovesAreLegal(db, k);
  }

  /** The baseline handed out is the fabric's newest manifest row, with that row's source, reference and hashes. */
  lemma LatestBaselineExact(db: Db, fabric: Id)
    ensures match LatestOwnedState(db, fabric)
            case None => forall row :: row in db.manifests ==> row.fabric != fabric
            case Some(b) => exists k: nat :: NewestRow(db.manifests, fabric, k) && BaselineFrom(b, db.manifests[k])
  {
    NewestManifestExact(db.manifests, fabric);
  }

  ghost predicate NewestRow(rows: seq<ManifestRow>, fabric: Id, k: nat) {
    k < |rows| && rows[k].fabric == fabric && forall j :: k < j < |rows| ==> rows[j].fabric != fabric
  }

  ghost predicate BaselineFrom(b: Baseline, row: ManifestRow) {
    && b.body.source == row.source && b.body.reference == row.reference && b.body.manifest == row.manifest
    && b.body.manifestHash == row.manifest.hash && b.body.artifact == row.artifact && b.body.evidence == row.evidence
    && b.hash == b.body
  }

  lemma {:induction false} NewestManifestExact(rows: seq<ManifestRow>, fabric: Id)
    ensures match NewestManifest(rows, fabric)
            case None => forall row :: row in rows ==> row.fabric != fabric
            case Some(row) => exists k: nat :: NewestRow(rows, fabric, k) && rows[k] == row
    decreases |rows|
  {
    if rows != [] {
      var init, last := rows[..|rows| - 1], rows[|rows| - 1];
      assert rows == init + [last];
      if last.fabric == fabric {
        assert NewestRow(rows, fabric, |init|);
      } else {
        NewestManifestExact(init, fabric);
        if k: nat :| NewestRow(init, fabric, k) && rows[k] == NewestManifest(init, fabric).value {
          assert NewestRow(rows, fabric, k);
        }
      }
    }
  }
}
