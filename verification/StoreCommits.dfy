/**
 When a successful run has committed its owned state: exactly when no bare status
 transition declared it successful.
 */
module StoreCommits {
  import opened Basics
  import opened Reconciliation
  import opened Store
  import opened StoreMachine
  import opened StoreRuns

  /** The ledger has a manifest that names the run. */
  predicate HasManifest(db: Db, run: Id) { Referenced(db.manifests, RunReference(run)) }

  /** The operation is a `transition_run` that takes the run to success, and is accepted. */
  predicate DeclaresSuccess(db: Db, op: Op, run: Id) {
    && op.OpMoveRun? && op.id == run && op.status == ApplySucceeded
    && TransitionRun(db, op.id, op.status, op.actor, op.event).Ok?
  }

  function Declaration(run: Id): (seq<Op>, Op) -> bool {
    (before: seq<Op>, op: Op) => DeclaresSuccess(After(EmptyDb(), before), op, run)
  }

  /** Somewhere in the run of operations. */
  ghost predicate EverDeclared(ops: seq<Op>, run: Id) { Happened(ops, Declaration(run)) }

  predicate Succeeded(db: Db, run: Id) { run in db.runs && db.runs[run].status == ApplySucceeded }

  /** The account of one run: `declared` says whether a bare transition declared its success. */
  ghost predicate Accounted(db: Db, run: Id, declared: bool) {
    && (HasManifest(db, run) || declared <==> Succeeded(db, run))
    && !(HasManifest(db, run) && declared)
  }

  lemma CreateAccounts(db: Db, op: Op, run: Id, declared: bool)
    requires Accounted(db, run, declared) && op.OpCreateRun?
    ensures Accounted(NextRun(db, op), run, declared)
  {
  }

  lemma MoveAccounts(db: Db, op: Op, run: Id, declared: bool)
    requires Accounted(db, run, declared) && op.OpMoveRun?
    ensures Accounted(NextRun(db, op), run, declared || DeclaresSuccess(db, op, run))
  {
  }

  lemma CompleteAccounts(db: Db, op: Op, run: Id, declared: bool)
    requires Accounted(db, run, declared) && op.OpComplete?
    ensures Accounted(NextRun(db, op), run, declared)
  {
    var later := NextRun(db, op);
    if later != db {
      var row := later.manifests[|db.manifests|];
      assert later.manifests == db.manifests + [row];
      assert HasManifest(later, run) <==> HasManifest(db, run) || row.reference == RunReference(run) by {
        assert forall r :: r in later.manifests <==> r in db.manifests || r == row;
      }
    }
  }

  lemma OtherStepAccounts(db: Db, op: Op, run: Id, declared: bool)
    requires Accounted(db, run, declared) && (op.OpSaveIntent? || op.OpAdopt? || op.OpEvidence? || op.OpWait?)
    ensures Accounted(NextOther(db, op), run, declared)
  {
    var later := NextOther(db, op);
    if later.manifests != db.manifests {
      assert forall r :: r in later.manifests <==> r in db.manifests || r == later.manifests[|db.manifests|];
    }
  }

  lemma StepAccounts(db: Db, op: Op, run: Id, declared: bool)
    requires Accounted(db, run, declared)
    ensures Accounted(Next(db, op), run, declared || DeclaresSuccess(db, op, run))
  {
    if op.OpCreateRun? {
      CreateAccounts(db, op, run, declared);
    } else if op.OpMoveRun? {
      MoveAccounts(db, op, run, declared);
    } else if op.OpComplete? {
      CompleteAccounts(db, op, run, declared);
    } else if op.OpSaveIntent? || op.OpAdopt? || op.OpEvidence? || op.OpWait? {
      OtherStepAccounts(db, op, run, declared);
    }
  }

  lemma {:induction false} EveryRunIsAccounted(ops: seq<Op>, run: Id)
    ensures Accounted(After(EmptyDb(), ops), run, EverDeclared(ops, run))
    decreases |ops|
  {
    if ops != [] {
      var init := ops[..|ops| - 1];
      EveryRunIsAccounted(init, run);
      StepAccounts(After(EmptyDb(), init), ops[|ops| - 1], run, EverDeclared(init, run));
      HappenedStep(ops, Declaration(run));
    }
  }

  /**
   A committed manifest always means success.  A successful run has one if and only if no
   accepted `transition_run` declared the success; then `complete_apply` made it.
   */
  lemma ManifestUnlessDeclared(ops: seq<Op>, run: Id)
    ensures var db := After(EmptyDb(), ops);
            && (HasManifest(db, run) ==> Succeeded(db, run))
            && (Succeeded(db, run) ==> (HasManifest(db, run) <==> !EverDeclared(ops, run)))
  {
    EveryRunIsAccounted(ops, run);
  }
}
