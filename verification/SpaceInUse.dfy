/**
 Who holds the space that a successful run's configuration uses, over every history of
 store operations and calls of `process_apply`, of whatever plans and in whatever order.
 */
module SpaceInUse {
  import opened Basics
  import opened Allocator
  import opened Store
  import opened StoreMachine
  import opened StoreLedger
  import opened Worker

  /** The plan of the run is bound to the reservation. */
  ghost predicate BoundTo(db: Db, run: Id, id: Id) {
    run in db.runs && db.runs[run].plan in db.plans && db.plans[db.runs[run].plan].reservation == Some(id)
  }

  ghost predicate Held(db: Db, id: Id) {
    id in db.reservations && Active(db.reservations[id].state)
  }

  // ----- One call -----

  /** A call gives a reservation's space back exactly when the run's plan is bound to it and the run is rolled back. */
  lemma HeldAfterCallIff(before: Db, after: Db, run: Id, status: Status, id: Id)
    requires Ended(before, after, run, status) && id in before.reservations
    ensures id in after.reservations
    ensures Held(after, id) <==> Held(before, id) && !(BoundTo(before, run, id) && status == RolledBack)
  {
  }

  /** A call moves a reservation together with all its rows. */
  lemma CallKeepsRows(before: Db, after: Db, run: Id, status: Status)
    requires Ended(before, after, run, status) && RowsFollow(before.reservations, before.nets, before.scalars)
    ensures RowsFollow(after.reservations, after.nets, after.scalars)
  {
    var plan, to := before.runs[run].plan, Destination(status);
    if to.Some? && MaySettle(before, plan, to) && before.plans[plan].reservation.Some? {
      MovedRowsFollow(before.reservations, before.nets, before.scalars, before.plans[plan].reservation.value, to.value);
    }
  }

  /**
   The reservation's state at entry decides both: a successful run's space is held
   afterwards unless it was released, and the call returns only if it was reserved.
   */
  lemma SuccessHoldsIff(before: Db, after: Db, run: Id, id: Id)
    requires Ended(before, after, run, ApplySucceeded) && BoundTo(before, run, id) && id in before.reservations
    ensures Held(after, id) <==> before.reservations[id].state != Released
    ensures Verdict(before, before.runs[run].plan, ApplySucceeded)
              == if before.reservations[id].state == Reserved then Finished(true, false) else Raised(true)
  {
  }

  /** A rolled-back run leaves the space released in any case, and the call raises only if it was so before. */
  lemma RollbackReleases(before: Db, after: Db, run: Id, id: Id)
    requires Ended(before, after, run, RolledBack) && BoundTo(before, run, id) && id in before.reservations
    ensures id in after.reservations && after.reservations[id].state == Released
    ensures Verdict(before, before.runs[run].plan, RolledBack)
              == if before.reservations[id].state == Released then Raised(true) else Finished(false, true)
  {
  }

  /** Each end's destination for the reservation, written out; the state at entry decides whether it gets there. */
  lemma EndSettles(before: Db, after: Db, run: Id, status: Status, id: Id)
    requires Ended(before, after, run, status) && BoundTo(before, run, id) && id in before.reservations
    requires status in {ApplySucceeded, ApplyFailed, RolledBack, RollbackFailed}
    ensures var was := before.reservations[id].state;
            var settled := match status
                           case ApplySucceeded => was == Reserved
                           case RolledBack => was != Released
                           case RollbackFailed => was == Reserved || was == Committed
                           case _ => true;
            && id in after.reservations
            && after.reservations[id] == before.reservations[id].(state :=
                 if !settled then was
                 else match status
                      case ApplySucceeded => Committed
                      case RolledBack => Released
                      case RollbackFailed => Quarantined
                      case _ => was)
            && Verdict(before, before.runs[run].plan, status) == if settled then Finished(status == ApplySucceeded, status == RolledBack) else Raised(true)
  {
  }

  // ----- Histories -----

  /** A store operation, or a call of `process_apply` whose run came to its end. */
  datatype Happening = Did(op: Op) | Ran(run: Id, status: Status)

  ghost predicate Step(before: Db, after: Db, h: Happening) {
    match h
    case Did(op) => after == Next(before, op)
    case Ran(run, status) => Ended(before, after, run, status)
  }

  ghost predicate History(dbs: seq<Db>, hs: seq<Happening>) {
    |dbs| == |hs| + 1 && forall i :: 0 <= i < |hs| ==> Step(dbs[i], dbs[i + 1], hs[i])
  }

  /** The reservation is moved directly, by a `transition_design_reservation` that is accepted. */
  predicate MovedTo(db: Db, op: Op, id: Id, to: State) {
    op.OpMoveReservation? && op.id == id && op.to == to && TransitionReservation(db, id, to, op.actor, op.verified, op.event).Ok?
  }

  ghost predicate GivesBack(db: Db, h: Happening, id: Id) {
    match h
    case Did(op) => MovedTo(db, op, id, Released)
    case Ran(run, status) => status == RolledBack && BoundTo(db, run, id)
  }

  /** An operation changes a reservation's state exactly by moving it, along the lifecycle. */
  ghost predicate OnlyMoved(db: Db, later: Db, op: Op, id: Id)
    requires id in db.reservations
  {
    && id in later.reservations
    && (forall s :: MovedTo(db, op, id, s) ==> later.reservations[id].state == s && MayMove(db.reservations[id].state, s))
    && ((forall s :: !MovedTo(db, op, id, s)) ==> later.reservations[id].state == db.reservations[id].state)
  }

  lemma ReserveMovesNothing(db: Db, op: Op, id: Id)
    requires id in db.reservations && op.OpReserve?
    ensures OnlyMoved(db, NextReservation(db, op), op, id)
  {
    var answer := ReserveDesign(db, op.id, op.req, op.policy, op.key, op.actor, op.event);
    assert answer.Ok? ==> id in answer.value.0.reservations && answer.value.0.reservations[id] == db.reservations[id];
  }

  lemma MoveMovesOne(db: Db, op: Op, id: Id)
    requires id in db.reservations && op.OpMoveReservation?
    ensures OnlyMoved(db, NextReservation(db, op), op, id)
  {
    assert TransitionReservation(db, op.id, op.to, op.actor, op.verified, op.event).Ok? && op.id == id ==> MovedTo(db, op, id, op.to);
  }

  lemma OtherMovesNothing(db: Db, later: Db, op: Op, id: Id)
    requires id in db.reservations && later.reservations == db.reservations && !op.OpMoveReservation?
    ensures OnlyMoved(db, later, op, id)
  {
  }

  lemma OperationMoves(db: Db, op: Op, id: Id)
    requires id in db.reservations
    ensures OnlyMoved(db, Next(db, op), op, id)
  {
    if op.OpReserve? {
      ReserveMovesNothing(db, op, id);
    } else if op.OpMoveReservation? {
      MoveMovesOne(db, op, id);
    } else {
      OtherMovesNothing(db, Next(db, op), op, id);
    }
  }

  lemma MovedHolds(db: Db, later: Db, op: Op, id: Id)
    requires id in db.reservations && OnlyMoved(db, later, op, id)
    ensures Held(later, id) <==> Held(db, id) && !MovedTo(db, op, id, Released)
  {
    if s :| MovedTo(db, op, id, s) { assert later.reservations[id].state == s; }
  }

  lemma StepHolds(before: Db, after: Db, h: Happening, id: Id)
    requires Step(before, after, h) && id in before.reservations
    ensures id in after.reservations
    ensures Held(after, id) <==> Held(before, id) && !GivesBack(before, h, id)
  {
    match h
    case Did(op) => OperationMoves(before, op, id); MovedHolds(before, after, op, id);
    case Ran(run, status) => HeldAfterCallIff(before, after, run, status, id);
  }

  /** Nothing between the two points gave the space back. */
  ghost predicate KeptBetween(dbs: seq<Db>, hs: seq<Happening>, start: nat, end: nat, id: Id)
    requires History(dbs, hs) && end <= |hs|
  {
    forall i :: start <= i < end ==> !GivesBack(dbs[i], hs[i], id)
  }

  /**
   Over every history, between any two points of it: a reservation's space is held at the
   end if and only if it was at the beginning and nothing gave it back, no rolled-back run
   of any plan bound to it, and no direct release.
   */
  lemma {:induction false} HeldExactly(dbs: seq<Db>, hs: seq<Happening>, start: nat, end: nat, id: Id)
    requires History(dbs, hs) && start <= end <= |hs| && id in dbs[start].reservations
    ensures id in dbs[end].reservations
    ensures Held(dbs[end], id) <==> Held(dbs[start], id) && KeptBetween(dbs, hs, start, end, id)
    decreases end - start
  {
    if start < end {
      HeldExactly(dbs, hs, start, end - 1, id);
      assert Step(dbs[end - 1], dbs[end - 1 + 1], hs[end - 1]);
      StepHolds(dbs[end - 1], dbs[end], hs[end - 1], id);
      assert KeptBetween(dbs, hs, start, end, id) <==> KeptBetween(dbs, hs, start, end - 1, id) && !GivesBack(dbs[end - 1], hs[end - 1], id);
    }
  }

  /**
   The space that a successful run, the `k`-th happening, has configured: it is held at any
   later point if and only if the reservation was not released when that run was called,
   and nothing gave it back since.
   */
  lemma UsedSpaceIsHeldIff(dbs: seq<Db>, hs: seq<Happening>, k: nat, end: nat, id: Id)
    requires History(dbs, hs) && k < end <= |hs| && hs[k].Ran? && hs[k].status == ApplySucceeded
    requires BoundTo(dbs[k], hs[k].run, id) && id in dbs[k].reservations
    ensures Held(dbs[end], id) <==> dbs[k].reservations[id].state != Released && KeptBetween(dbs, hs, k + 1, end, id)
  {
    assert Step(dbs[k], dbs[k + 1], hs[k]);
    SuccessHoldsIff(dbs[k], dbs[k + 1], hs[k].run, id);
    HeldAfterCallIff(dbs[k], dbs[k + 1], hs[k].run, ApplySucceeded, id);
    HeldExactly(dbs, hs, k + 1, end, id);
  }

  // ----- What a caller can read off the state at entry -----

  /** The happening moves the reservation. */
  ghost predicate Settles(db: Db, h: Happening, id: Id) {
    h.Ran? && BoundTo(db, h.run, id) && Destination(h.status).Some?
  }

  ghost predicate MovedDirectly(db: Db, h: Happening, id: Id) {
    h.Did? && exists s :: MovedTo(db, h.op, id, s)
  }

  ghost predicate UsedBy(db: Db, h: Happening, id: Id) {
    h.Ran? && BoundTo(db, h.run, id) && h.status == ApplySucceeded
  }

  lemma StepTells(before: Db, after: Db, h: Happening, id: Id)
    requires Step(before, after, h) && id in before.reservations
    ensures id in after.reservations
    ensures after.reservations[id].state == Reserved <==>
              before.reservations[id].state == Reserved && !Settles(before, h, id) && !MovedDirectly(before, h, id)
    ensures !MovedDirectly(before, h, id) ==>
              (after.reservations[id].state == Committed <==>
                 (before.reservations[id].state == Committed && !(Settles(before, h, id) && h.status != ApplySucceeded))
                 || (before.reservations[id].state == Reserved && UsedBy(before, h, id)))
  {
    if h.Did? { OperationMoves(before, h.op, id); }
  }

  /** Nothing so far has moved the reservation. */
  ghost predicate NeverMoved(dbs: seq<Db>, hs: seq<Happening>, end: nat, id: Id)
    requires History(dbs, hs) && end <= |hs|
  {
    forall i :: 0 <= i < end ==> !Settles(dbs[i], hs[i], id) && !MovedDirectly(dbs[i], hs[i], id)
  }

  /** Calls only have moved it so far. */
  ghost predicate MovedByCalls(dbs: seq<Db>, hs: seq<Happening>, end: nat, id: Id)
    requires History(dbs, hs) && end <= |hs|
  {
    forall i :: 0 <= i < end ==> !MovedDirectly(dbs[i], hs[i], id)
  }

  ghost predicate Used(dbs: seq<Db>, hs: seq<Happening>, end: nat, id: Id)
    requires History(dbs, hs) && end <= |hs|
  {
    exists i :: 0 <= i < end && UsedBy(dbs[i], hs[i], id)
  }

  /** No call so far asked for its release or quarantine. */
  ghost predicate OnlySuccesses(dbs: seq<Db>, hs: seq<Happening>, end: nat, id: Id)
    requires History(dbs, hs) && end <= |hs|
  {
    forall i :: 0 <= i < end && Settles(dbs[i], hs[i], id) ==> hs[i].status == ApplySucceeded
  }

  /**
   What the state of a reservation that began as reserved tells the caller of the next run.
   Reserved: nothing has moved it, so no run uses the space.  Committed, and moved by calls
   only: some successful run of a plan bound to it uses the space, and no run of such a
   plan was rolled back, or failed to be.
   */
  lemma {:induction false} StateTells(dbs: seq<Db>, hs: seq<Happening>, end: nat, id: Id)
    requires History(dbs, hs) && end <= |hs| && id in dbs[0].reservations && dbs[0].reservations[id].state == Reserved
    ensures id in dbs[end].reservations
    ensures dbs[end].reservations[id].state == Reserved <==> NeverMoved(dbs, hs, end, id)
    ensures MovedByCalls(dbs, hs, end, id) ==>
              (dbs[end].reservations[id].state == Committed <==> Used(dbs, hs, end, id) && OnlySuccesses(dbs, hs, end, id))
    decreases end
  {
    if end > 0 {
      hide NeverMoved, MovedByCalls, OnlySuccesses, Used, Ended;
      StateTells(dbs, hs, end - 1, id);
      assert Step(dbs[end - 1], dbs[end - 1 + 1], hs[end - 1]);
      StepTells(dbs[end - 1], dbs[end], hs[end - 1], id);
      NeverMovedStep(dbs, hs, end, id);
      MovedByCallsStep(dbs, hs, end, id);
      OnlySuccessesStep(dbs, hs, end, id);
      UseStep(dbs, hs, end, id);
      if NeverMoved(dbs, hs, end - 1, id) { UnmovedIsUnused(dbs, hs, end - 1, id); }
    }
  }

  lemma NeverMovedStep(dbs: seq<Db>, hs: seq<Happening>, end: nat, id: Id)
    requires History(dbs, hs) && 0 < end <= |hs|
    ensures NeverMoved(dbs, hs, end, id) <==>
              && NeverMoved(dbs, hs, end - 1, id)
              && !Settles(dbs[end - 1], hs[end - 1], id) && !MovedDirectly(dbs[end - 1], hs[end - 1], id)
  {
  }

  lemma MovedByCallsStep(dbs: seq<Db>, hs: seq<Happening>, end: nat, id: Id)
    requires History(dbs, hs) && 0 < end <= |hs|
    ensures MovedByCalls(dbs, hs, end, id) <==> MovedByCalls(dbs, hs, end - 1, id) && !MovedDirectly(dbs[end - 1], hs[end - 1], id)
  {
  }

  lemma OnlySuccessesStep(dbs: seq<Db>, hs: seq<Happening>, end: nat, id: Id)
    requires History(dbs, hs) && 0 < end <= |hs|
    ensures OnlySuccesses(dbs, hs, end, id) <==>
              OnlySuccesses(dbs, hs, end - 1, id) && (Settles(dbs[end - 1], hs[end - 1], id) ==> hs[end - 1].status == ApplySucceeded)
  {
  }

  lemma UseStep(dbs: seq<Db>, hs: seq<Happening>, end: nat, id: Id)
    requires History(dbs, hs) && 0 < end <= |hs|
    ensures Used(dbs, hs, end, id) <==> Used(dbs, hs, end - 1, id) || UsedBy(dbs[end - 1], hs[end - 1], id)
    ensures UsedBy(dbs[end - 1], hs[end - 1], id) ==> Settles(dbs[end - 1], hs[end - 1], id)
  {
    if Used(dbs, hs, end, id) {
      var i :| 0 <= i < end && UsedBy(dbs[i], hs[i], id);
      assert i < end - 1 || i == end - 1;
    }
  }

  /** Nobody has used a space that nothing has moved. */
  lemma UnmovedIsUnused(dbs: seq<Db>, hs: seq<Happening>, end: nat, id: Id)
    requires History(dbs, hs) && end <= |hs| && NeverMoved(dbs, hs, end, id)
    ensures !Used(dbs, hs, end, id)
  {
    forall i | 0 <= i < end ensures !UsedBy(dbs[i], hs[i], id) {
      assert !Settles(dbs[i], hs[i], id);
    }
  }
}
