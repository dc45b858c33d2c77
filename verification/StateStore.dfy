/**
 The store as the program holds it: tables in fields, updated in place by each
 public operation.  Every method is proved to leave exactly the state, and return
 exactly the answer, of the corresponding step of module Store.
 */
module StateStore {
  import opened Basics
  import opened Allocator
  import opened FabricAllocator
  import opened Reconciliation
  import opened Store
  import opened StoreAudit

  class Tables {
    var intents: map<Id, IntentRow>
    var reservations: map<Id, ReservationRow>
    var nets: seq<NetRow>
    var scalars: seq<ScalarRow>
    var plans: map<Id, PlanRow>
    var approvals: seq<Approval>
    var runs: map<Id, RunRow>
    var locks: map<Id, LockRow>
    var manifests: seq<ManifestRow>
    var evidence: map<EvidenceKey, EvidenceRow>
    var audit: seq<AuditRow>
    var clock: int

    function View(): Db
      reads this
    {
      Db(intents, reservations, nets, scalars, plans, approvals, runs, locks, manifests, evidence, audit, clock)
    }

    constructor ()
      ensures View() == EmptyDb()
    {
      intents, reservations, nets, scalars, plans, approvals := map[], map[], [], [], map[], [];
      runs, locks, manifests, evidence, audit, clock := map[], map[], [], map[], [], 0;
    }

    /** `_append_audit`; the caller has ruled out a repeated event id. */
    method AppendAudit(id: Id, event: Event, actor: Id)
      modifies this`audit
      ensures audit == Store.Append(old(audit), id, event, actor, clock)
    {
      var previous := if audit == [] then Genesis else audit[|audit| - 1].hash;
      var body := EventBody(id, event, actor, previous, clock);
      audit := audit + [AuditRow(body, HashOf(body))];
    }

    method SaveIntent(id: Id, document: Document, actor: Id, event: Id) returns (r: Result<(Id, bool), StoreError>)
      modifies this
      ensures match Store.SaveIntent(old(View()), id, document, actor, event)
              case Ok(done) => r == Ok((done.1, done.2)) && View() == done.0
              case Err(e) => r == Err(e) && View() == old(View())
    {
      var existing := AnyOf(IntentsWith(View(), document));
      if existing.Some? { return Ok((existing.value, false)); }
      if id in intents || !FreshEvent(audit, event) { return Err(IntegrityError); }
      clock := clock + 1;
      intents := intents[id := IntentRow(document, clock, actor)];
      AppendAudit(event, IntentCreated(id), actor);
      return Ok((id, true));
    }

    method InsertRows(id: Id, domain: Id, claims: seq<NetClaim>, scalarClaims: seq<ScalarClaim>)
      modifies this`nets, this`scalars
      ensures nets == old(nets) + NetRows(id, domain, claims)
      ensures scalars == old(scalars) + ScalarRows(id, domain, scalarClaims)
    {
      for i := 0 to |claims|
        invariant nets == old(nets) + NetRows(id, domain, claims)[..i] && scalars == old(scalars)
      {
        nets := nets + [NetRow(id, domain, claims[i].pool, claims[i].prefix, Reserved)];
      }
      for i := 0 to |scalarClaims|
        invariant nets == old(nets) + NetRows(id, domain, claims)
        invariant scalars == old(scalars) + ScalarRows(id, domain, scalarClaims)[..i]
      {
        scalars := scalars + [ScalarRow(id, domain, scalarClaims[i].kind, scalarClaims[i].value, Reserved)];
      }
    }

    method ReserveDesign(id: Id, req: Requirements, pol: Policy, reserved: map<Pool, seq<Addressing.Prefix>>,
                         key: string, actor: Id, event: Id) returns (r: Result<(Id, bool), StoreError>)
      requires reserved.Keys == pol.pools.Keys
      requires forall p :: p in pol.pools ==> (set e | e in reserved[p]) == pol.pools[p].reserved
      modifies this
      ensures match Store.ReserveDesign(old(View()), id, req, pol, key, actor, event)
              case Ok(done) => r == Ok((done.1, done.2)) && View() == done.0
              case Err(e) => r == Err(e) && View() == old(View())
    {
      if !KeyAccepted(key) { return Err(ValueError); }
      var existing := AnyOf(ActiveWithKey(View(), key));
      if existing.Some? {
        var row := reservations[existing.value];
        if row.requirements != req || row.policy != pol { return Err(Conflict); }
        return Ok((existing.value, false));
      }
      var derived := DeriveFabricIntent(req, pol, reserved, nets, scalars);
      if derived.Err? { return Err(AllocationFailed(derived.error)); }
      var d := derived.value;
      if id in reservations || ActiveWithBody(View(), BodyOf(req, d)) != {} || !FreshEvent(audit, event) { return Err(IntegrityError); }
      InsertDesign(id, req, pol, key, d, actor, event);
      return Ok((id, true));
    }

    method InsertDesign(id: Id, req: Requirements, pol: Policy, key: string, d: Draft, actor: Id, event: Id)
      modifies this
      ensures View() == InsertReservation(old(View()), id, req, pol, key, d, actor, event)
    {
      clock := clock + 1;
      reservations := reservations[id := ReservationRow(key, req, pol, BodyOf(req, d), Reserved,
                                     Document(req.fabric, IntentValidation.IntentOf(d)), clock, actor)];
      InsertRows(id, req.domain, d.book.netClaims, d.book.scalarClaims);
      AppendAudit(event, ReservationCreated(id), actor);
    }

    method TransitionDesignReservation(id: Id, to: State, actor: Id, verified: bool, event: Id) returns (error: Option<StoreError>)
      modifies this
      ensures match TransitionReservation(old(View()), id, to, actor, verified, event)
              case Ok(later) => error == None && View() == later
              case Err(e) => error == Some(e) && View() == old(View())
    {
      if to == Reserved { return Some(ValueError); }
      if id !in reservations { return Some(NotFound); }
      var current := reservations[id].state;
      if !MayMove(current, to) { return Some(Conflict); }
      if to == Released && !verified { return Some(Conflict); }
      if !FreshEvent(audit, event) { return Some(IntegrityError); }
      MoveRows(id, to, actor, verified, event);
      return None;
    }

    method MoveRows(id: Id, to: State, actor: Id, verified: bool, event: Id)
      requires id in reservations
      modifies this`reservations, this`nets, this`scalars, this`audit, this`clock
      ensures View() == MoveReservation(old(View()), id, to, actor, verified, event)
    {
      var current := reservations[id].state;
      clock := clock + 1;
      reservations := reservations[id := reservations[id].(state := to)];
      nets := MoveNets(nets, id, to);
      scalars := MoveScalars(scalars, id, to);
      AppendAudit(event, ReservationMoved(id, current, to, verified), actor);
    }

    method SavePlan(intent: Id, plan: PlanDoc, actor: Id, artifactHash: string, version: string, reservation: Option<Id>, event: Id)
      returns (r: Result<bool, StoreError>)
      modifies this
      ensures match Store.SavePlan(old(View()), intent, plan, actor, artifactHash, version, reservation, event)
              case Ok(done) => r == Ok(done.1) && View() == done.0
              case Err(e) => r == Err(e) && View() == old(View())
    {
      if |artifactHash| != 64 || version == "" { return Err(ValueError); }
      if intent !in intents { return Err(NotFound); }
      var document := intents[intent].document;
      if plan.intentHash != document { return Err(Conflict); }
      if reservation.Some? {
        if reservation.value !in reservations { return Err(NotFound); }
        if reservations[reservation.value].document != document { return Err(Conflict); }
      }
      if plan.id in plans {
        var prior := plans[plan.id];
        if prior.artifactHash != artifactHash { return Err(Conflict); }
        if prior.reservation == reservation { return Ok(false); }
        if StillActive(View(), prior.reservation) { return Err(Conflict); }
        if !FreshEvent(audit, event) { return Err(IntegrityError); }
        UpdatePlanRow(plan.id, reservation, actor, event);
        return Ok(false);
      }
      if PlanHashUsed(View(), plan.planHash) || !FreshEvent(audit, event) { return Err(IntegrityError); }
      InsertPlanRow(intent, plan, actor, artifactHash, version, reservation, event);
      return Ok(true);
    }

    method UpdatePlanRow(id: Id, reservation: Option<Id>, actor: Id, event: Id)
      requires id in plans
      modifies this`plans, this`audit, this`clock
      ensures View() == RebindPlan(old(View()), id, reservation, actor, event)
    {
      var prior := plans[id];
      clock := clock + 1;
      plans := plans[id := prior.(reservation := reservation)];
      AppendAudit(event, PlanRebound(id, prior.reservation, reservation), actor);
    }

    method InsertPlanRow(intent: Id, plan: PlanDoc, actor: Id, artifactHash: string, version: string, reservation: Option<Id>, event: Id)
      requires intent in intents
      modifies this`plans, this`audit, this`clock
      ensures View() == InsertPlan(old(View()), intent, plan, actor, artifactHash, version, reservation, event)
    {
      clock := clock + 1;
      plans := plans[plan.id := PlanRow(plan.planHash, artifactHash, version, reservation, intent, intents[intent].document.fabric, clock, actor)];
      AppendAudit(event, PlanCreated(plan.id), actor);
    }

    method RecordApproval(id: Id, plan: Id, approved: bool, approver: Id, change: string, expiresAt: int, event: Id)
      returns (error: Option<StoreError>)
      modifies this
      ensures match Store.RecordApproval(old(View()), id, plan, approved, approver, change, expiresAt, event)
              case Ok(later) => error == None && View() == later
              case Err(e) => error == Some(e) && View() == old(View())
    {
      if change == "" || expiresAt <= clock + 1 { return Some(ValueError); }
      if plan !in plans { return Some(NotFound); }
      var p := plans[plan];
      if p.createdBy == approver { return Some(Conflict); }
      if p.artifactHash == "" { return Some(Conflict); }
      if (exists a :: a in approvals && a.id == id) || !FreshEvent(audit, event) { return Some(IntegrityError); }
      clock := clock + 1;
      approvals := approvals + [Approval(id, plan, p.planHash, p.artifactHash, p.version, approved, approver, change, expiresAt, clock)];
      AppendAudit(event, PlanDecided(plan, id, approved), approver);
      return None;
    }

    /** The run row is inserted before the lock is tried; a held lock rolls the insertion back. */
    method CreateRun(id: Id, plan: Id, mode: Mode, key: string, actor: Id, enabled: bool, window: Option<(int, int)>,
                     ttl: int, event: Id) returns (r: Result<(Id, bool), StoreError>)
      modifies this
      ensures match Store.CreateRun(old(View()), id, plan, mode, key, actor, enabled, window, ttl, event)
              case Ok(done) => r == Ok((done.1, done.2)) && View() == done.0
              case Err(e) => r == Err(e) && View() == old(View())
    {
      if !KeyAccepted(key) { return Err(ValueError); }
      if mode == Apply && !enabled { return Err(ExecutionDisabled); }
      if mode == Apply && !WindowOpen(window, clock + 1) { return Err(MaintenanceWindow); }
      if plan !in plans { return Err(NotFound); }
      var existing := AnyOf(RunsWithKey(View(), key));
      if existing.Some? {
        var row := runs[existing.value];
        if row.plan != plan || row.mode != mode { return Err(Conflict); }
        return Ok((existing.value, false));
      }
      var approval := ActiveApproval(View(), plan, clock + 1);
      if approval.Err? { return Err(approval.error); }
      var p := plans[plan];
      if !ApprovalMatches(approval.value, p) { return Err(ApprovalRequired); }
      if id in runs { return Err(IntegrityError); }
      var error := InsertRunRow(id, plan, mode, key, actor, ttl, approval.value.id, event);
      if error.Some? { return Err(error.value); }
      return Ok((id, true));
    }

    method InsertRunRow(id: Id, plan: Id, mode: Mode, key: string, actor: Id, ttl: int, approval: Id, event: Id)
      returns (error: Option<StoreError>)
      requires plan in plans
      modifies this`runs, this`locks, this`audit, this`clock
      ensures error == (if mode == Apply && old(plans)[plan].fabric in old(locks) then Some(Conflict)
                        else if !FreshEvent(old(audit), event) then Some(IntegrityError) else None)
      ensures View() == if error == None then InsertRun(old(View()), id, plan, mode, key, actor, ttl, approval, event)
                        else old(View())
    {
      var p := plans[plan];
      var savedRuns, savedClock := runs, clock;
      clock := clock + 1;
      runs := runs[id := RunRow(plan, p.planHash, p.artifactHash, p.version, p.fabric, key, mode, InitialStatus(mode), actor, clock)];
      if mode == Apply && p.fabric in locks {
        runs, clock := savedRuns, savedClock;
        return Some(Conflict);
      }
      if !FreshEvent(audit, event) {
        runs, clock := savedRuns, savedClock;
        return Some(IntegrityError);
      }
      if mode == Apply { locks := locks[p.fabric := LockRow(id, clock, clock + ttl)]; }
      AppendAudit(event, RunCreated(id, InitialStatus(mode), approval), actor);
      return None;
    }

    method TransitionRun(id: Id, status: Status, actor: Id, event: Id) returns (error: Option<StoreError>)
      modifies this
      ensures match Store.TransitionRun(old(View()), id, status, actor, event)
              case Ok(later) => error == None && View() == later
              case Err(e) => error == Some(e) && View() == old(View())
    {
      if id !in runs { return Some(NotFound); }
      var current := runs[id].status;
      if !MayProceed(current, status) { return Some(Conflict); }
      if !FreshEvent(audit, event) { return Some(IntegrityError); }
      SetStatus(id, status, actor, event);
      return None;
    }

    /** The update, the release of the lock at the end of a run, and the audit event. */
    method SetStatus(id: Id, status: Status, actor: Id, event: Id)
      requires id in runs
      modifies this
      ensures View() == MoveRun(old(View()), id, status, actor, event)
    {
      var current := runs[id].status;
      clock := clock + 1;
      runs := runs[id := runs[id].(status := status)];
      if Terminal(status) { locks := Unlock(locks, id); }
      AppendAudit(event, RunMoved(id, current, status), actor);
    }

    method CompleteApply(id: Id, artifactHash: string, owned: Manifest, actor: Id, event: Id, event': Id) returns (error: Option<StoreError>)
      modifies this
      ensures match Store.CompleteApply(old(View()), id, artifactHash, owned, actor, event, event')
              case Ok(later) => error == None && View() == later
              case Err(e) => error == Some(e) && View() == old(View())
    {
      var invalid := ValidateOwnedState(owned, None);
      if invalid.Some? { return Some(InvalidState); }
      if |artifactHash| != 64 { return Some(ValueError); }
      if id !in runs { return Some(NotFound); }
      var run := runs[id];
      if run.status != ApplyRunning || run.artifactHash != artifactHash || run.fabric != owned.body.fabric { return Some(Conflict); }
      if Referenced(manifests, RunReference(id)) { return Some(Conflict); }
      if event == event' || !FreshEvent(audit, event) || !FreshEvent(audit, event') { return Some(IntegrityError); }
      CommitOwned(id, artifactHash, owned, actor, event, event');
      return None;
    }

    method CommitOwned(id: Id, artifactHash: string, owned: Manifest, actor: Id, event: Id, event': Id)
      requires id in runs
      modifies this
      ensures View() == CommitOwnedState(old(View()), id, artifactHash, owned, actor, event, event')
    {
      var run := runs[id];
      clock := clock + 1;
      manifests := manifests + [ManifestRow(run.fabric, owned, SuccessfulApply, RunReference(id), Some(artifactHash), None, clock, actor)];
      runs := runs[id := run.(status := ApplySucceeded)];
      locks := Unlock(locks, id);
      AppendAudit(event, RunMoved(id, ApplyRunning, ApplySucceeded), actor);
      AppendAudit(event', OwnedCommitted(run.fabric, id, owned.hash), actor);
    }

    method RecordAdoptedOwnedState(fabric: Id, m: Manifest, proof: string, change: string, discoverer: Id, approver: Id, event: Id)
      returns (error: Option<StoreError>)
      modifies this
      ensures match RecordAdopted(old(View()), fabric, m, proof, change, discoverer, approver, event)
              case Ok(later) => error == None && View() == later
              case Err(e) => error == Some(e) && View() == old(View())
    {
      var invalid := ValidateOwnedState(m, Some(fabric));
      if invalid.Some? { return Some(InvalidState); }
      if !IsDigest(proof) || change == "" || discoverer == "" || approver == "" { return Some(ValueError); }
      if discoverer == approver { return Some(Conflict); }
      if Referenced(manifests, AdoptionReference(change, m.hash)) { return None; }
      if !FreshEvent(audit, event) { return Some(IntegrityError); }
      clock := clock + 1;
      manifests := manifests + [ManifestRow(fabric, m, AdoptedDiscovery, AdoptionReference(change, m.hash), None, Some(proof), clock, approver)];
      AppendAudit(event, OwnedAdopted(fabric, m.hash), approver);
      return None;
    }

    method AddEvidence(key: EvidenceKey, actor: Id, event: Id) returns (error: Option<StoreError>)
      modifies this
      ensures match Store.AddEvidence(old(View()), key, actor, event)
              case Ok(later) => error == None && View() == later
              case Err(e) => error == Some(e) && View() == old(View())
    {
      if key.run !in runs { return Some(NotFound); }
      if key in evidence { return None; }
      if !FreshEvent(audit, event) { return Some(IntegrityError); }
      clock := clock + 1;
      evidence := evidence[key := EvidenceRow(clock, actor)];
      AppendAudit(event, EvidenceRecorded(key), actor);
      return None;
    }

    method VerifyChain() returns (ok: bool)
      ensures ok <==> ChainValid(audit)
    {
      ok := VerifyAuditChain(audit);
    }
  }
}
