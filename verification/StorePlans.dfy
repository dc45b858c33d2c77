/** How plans, intents and reservations stay bound to one another in every reachable store. */
module StorePlans {
  import opened Basics
  import opened Allocator
  import opened Store
  import opened StoreMachine

  /** The plan's intent exists, and its reservation, if any, was derived for exactly that intent. */
  ghost predicate PlanBound(intents: map<Id, IntentRow>, reservations: map<Id, ReservationRow>, p: PlanRow) {
    && p.intent in intents && p.fabric == intents[p.intent].document.fabric
    && (p.reservation.Some? ==>
          && p.reservation.value in reservations
          && reservations[p.reservation.value].document == intents[p.intent].document)
  }

  ghost predicate PlansBound(db: Db) {
    forall p :: p in db.plans ==> PlanBound(db.intents, db.reservations, db.plans[p])
  }

  /** Rows keep their documents. */
  ghost predicate DocumentsKept(before: Db, after: Db) {
    && (forall i :: i in before.intents ==> i in after.intents && after.intents[i] == before.intents[i])
    && (forall r :: r in before.reservations ==>
          r in after.reservations && after.reservations[r].document == before.reservations[r].document)
  }

  lemma KeptDocumentsKeepBindings(before: Db, after: Db)
    requires PlansBound(before) && DocumentsKept(before, after) && after.plans == before.plans
    ensures PlansBound(after)
  {
    forall p | p in after.plans ensures PlanBound(after.intents, after.reservations, after.plans[p]) {
      assert PlanBound(before.intents, before.reservations, before.plans[p]);
    }
  }

  lemma ReserveKeepsDocuments(db: Db, id: Id, req: Requirements, pol: Policy, key: string, actor: Id, event: Id, later: Db)
    requires var made := ReserveDesign(db, id, req, pol, key, actor, event); made.Ok? && made.value.0 == later
    ensures DocumentsKept(db, later)
  {
    if later != db {
      var d := Derive(req, pol, db.nets, db.scalars).value;
      assert later == InsertReservation(db, id, req, pol, key, d, actor, event) && id !in db.reservations;
    }
  }

  lemma MoveKeepsDocuments(db: Db, id: Id, to: State, actor: Id, verified: bool, event: Id, later: Db)
    requires TransitionReservation(db, id, to, actor, verified, event) == Ok(later)
    ensures DocumentsKept(db, later)
  {
  }

  lemma SavePlanKeepsBindings(db: Db, intent: Id, plan: PlanDoc, actor: Id, artifactHash: string, version: string,
                              reservation: Option<Id>, event: Id)
    requires PlansBound(db) && SavePlan(db, intent, plan, actor, artifactHash, version, reservation, event).Ok?
    requires plan.id !in db.plans || db.plans[plan.id].intent == intent
    ensures PlansBound(SavePlan(db, intent, plan, actor, artifactHash, version, reservation, event).value.0)
  {
    var later := SavePlan(db, intent, plan, actor, artifactHash, version, reservation, event).value.0;
    forall p | p in later.plans ensures PlanBound(later.intents, later.reservations, later.plans[p]) {
      if p in db.plans { assert PlanBound(db.intents, db.reservations, db.plans[p]); }
    }
  }

  /**
   What `save_plan` does not check: it compares the reservation with the intent named in
   the call, but keeps the stored plan's.  A rebinding is sound exactly when the two
   intents are the same document, as they are when a plan id stands for one plan.
   */
  lemma RebindingIsSoundIff(db: Db, intent: Id, plan: PlanDoc, actor: Id, artifactHash: string, version: string,
                            reservation: Id, event: Id)
    requires PlansBound(db) && SavePlan(db, intent, plan, actor, artifactHash, version, Some(reservation), event).Ok?
    requires plan.id in db.plans && db.plans[plan.id].reservation != Some(reservation)
    ensures var later := SavePlan(db, intent, plan, actor, artifactHash, version, Some(reservation), event).value.0;
            var sameDocument := db.intents[db.plans[plan.id].intent].document == plan.intentHash;
            PlanBound(later.intents, later.reservations, later.plans[plan.id]) <==> sameDocument
  {
    assert PlanBound(db.intents, db.reservations, db.plans[plan.id]);
  }

  /** A plan id is saved again only for the intent it was first saved for. */
  ghost predicate Faithful(db: Db, op: Op) {
    op.OpSavePlan? && op.plan.id in db.plans ==> db.plans[op.plan.id].intent == op.intent
  }

  ghost predicate FaithfulRun(ops: seq<Op>) {
    ops == [] || (FaithfulRun(ops[..|ops| - 1]) && Faithful(After(EmptyDb(), ops[..|ops| - 1]), ops[|ops| - 1]))
  }

  lemma PlanStepKeepsBindings(db: Db, op: Op)
    requires op.OpSavePlan? || op.OpApprove?
    requires PlansBound(db) && Faithful(db, op)
    ensures PlansBound(NextPlan(db, op))
  {
    if op.OpSavePlan? {
      if SavePlan(db, op.intent, op.plan, op.actor, op.artifactHash, op.version, op.reservation, op.event).Ok? {
        SavePlanKeepsBindings(db, op.intent, op.plan, op.actor, op.artifactHash, op.version, op.reservation, op.event);
      }
    } else {
      KeptDocumentsKeepBindings(db, NextPlan(db, op));
    }
  }

  lemma ReservationStepKeepsDocuments(db: Db, op: Op)
    requires op.OpReserve? || op.OpMoveReservation?
    ensures DocumentsKept(db, NextReservation(db, op))
  {
    match op
    case OpReserve(id, req, pol, key, actor, event) =>
      if ReserveDesign(db, id, req, pol, key, actor, event).Ok? {
        ReserveKeepsDocuments(db, id, req, pol, key, actor, event, NextReservation(db, op));
      }
    case OpMoveReservation(id, to, actor, verified, event) =>
      if TransitionReservation(db, id, to, actor, verified, event).Ok? {
        MoveKeepsDocuments(db, id, to, actor, verified, event, NextReservation(db, op));
      }
  }

  lemma RunStepKeepsDocuments(db: Db, op: Op)
    requires op.OpCreateRun? || op.OpMoveRun? || op.OpComplete?
    ensures DocumentsKept(db, NextRun(db, op))
  {
  }

  lemma OtherStepKeepsDocuments(db: Db, op: Op)
    requires op.OpSaveIntent? || op.OpAdopt? || op.OpEvidence? || op.OpWait?
    ensures DocumentsKept(db, NextOther(db, op))
  {
  }

  lemma StepKeepsBindings(db: Db, op: Op)
    requires PlansBound(db) && Faithful(db, op)
    ensures PlansBound(Next(db, op))
  {
    if op.OpSavePlan? || op.OpApprove? {
      PlanStepKeepsBindings(db, op);
    } else if op.OpReserve? || op.OpMoveReservation? {
      ReservationStepKeepsDocuments(db, op);
      KeptDocumentsKeepBindings(db, NextReservation(db, op));
    } else if op.OpCreateRun? || op.OpMoveRun? || op.OpComplete? {
      RunStepKeepsDocuments(db, op);
      KeptDocumentsKeepBindings(db, NextRun(db, op));
    } else {
      OtherStepKeepsDocuments(db, op);
      KeptDocumentsKeepBindings(db, NextOther(db, op));
    }
  }

  /** In every reachable store each plan's reservation holds exactly the plan's intent. */
  lemma {:induction false} PlansAreBound(ops: seq<Op>)
    requires FaithfulRun(ops)
    ensures PlansBound(After(EmptyDb(), ops))
    decreases |ops|
  {
    if ops != [] {
      PlansAreBound(ops[..|ops| - 1]);
      StepKeepsBindings(After(EmptyDb(), ops[..|ops| - 1]), ops[|ops| - 1]);
    }
  }

  /** No step takes a plan away from a reservation that still holds its space. */
  lemma ActiveBindingStays(db: Db, op: Op, p: Id)
    requires p in db.plans && StillActive(db, db.plans[p].reservation)
    ensures p in Next(db, op).plans && Next(db, op).plans[p] == db.plans[p]
  {
    if op.OpSavePlan? || op.OpApprove? { PlanStepKeepsActiveBinding(db, op, p); }
  }

  lemma PlanStepKeepsActiveBinding(db: Db, op: Op, p: Id)
    requires p in db.plans && StillActive(db, db.plans[p].reservation) && (op.OpSavePlan? || op.OpApprove?)
    ensures p in NextPlan(db, op).plans && NextPlan(db, op).plans[p] == db.plans[p]
  {
  }
}
