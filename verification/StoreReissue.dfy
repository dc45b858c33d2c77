/**
 Runs of the store, from its empty state, along the steps that calls of `process_apply`
 take, after which the space that a successful run's configuration uses is reserved anew:
 another plan on the same reservation was rolled back, or the plan's first run was.
 */
module StoreReissue {
  import opened Basics
  import opened Allocator
  import opened IntentValidation
  import opened Reconciliation
  import opened Store
  import opened StoreMachine
  import StoreLedger
  import opened StoreCommits

  /** A property of the empty store that every operation keeps. */
  ghost predicate Kept(p: Db -> bool) {
    p(EmptyDb()) && forall db, op :: p(db) ==> p(Next(db, op))
  }

  lemma KeptByRun(p: Db -> bool, db: Db, op: Op)
    requires Kept(p) && p(db) && (op.OpCreateRun? || op.OpMoveRun? || op.OpComplete?)
    ensures p(NextRun(db, op))
  {
    assert p(Next(db, op));
  }

  lemma KeptByPlan(p: Db -> bool, db: Db, op: Op)
    requires Kept(p) && p(db) && (op.OpSavePlan? || op.OpApprove?)
    ensures p(NextPlan(db, op))
  {
    assert p(Next(db, op));
  }

  lemma KeptByReservation(p: Db -> bool, db: Db, op: Op)
    requires Kept(p) && p(db) && (op.OpReserve? || op.OpMoveReservation?)
    ensures p(NextReservation(db, op))
  {
    assert p(Next(db, op));
  }

  lemma KeptByIntent(p: Db -> bool, db: Db, op: Op)
    requires Kept(p) && p(db) && op.OpSaveIntent?
    ensures p(NextOther(db, op))
  {
    assert p(Next(db, op));
  }

  /** Event ids, told apart by their length. */
  function EventId(n: nat): Id { seq(n, _ => 'e') }

  /** At most `n` events and ticks so far. */
  ghost predicate Early(db: Db, n: nat) {
    0 <= db.clock <= n <= 100 && forall r :: r in db.audit ==> |r.body.id| <= n
  }

  lemma Recorded(db: Db, later: Db, n: nat, event: Event, actor: Id)
    requires Early(db, n) && n < 100 && later.clock == db.clock + 1
    requires later.audit == Store.Append(db.audit, EventId(n + 1), event, actor, later.clock)
    ensures Early(later, n + 1)
  {
  }

  /** The next event id is unused. */
  lemma Unused(db: Db, n: nat)
    requires Early(db, n)
    ensures FreshEvent(db.audit, EventId(n + 1))
  {
  }

  /** The reservation "v" and its rows, all in one state. */
  ghost predicate Holding(db: Db, body: ReservationBody, document: Document, state: State) {
    && db.reservations.Keys == {"v"} && db.reservations["v"].state == state
    && db.reservations["v"].body == body && db.reservations["v"].document == document
    && (forall r :: r in db.nets ==> r.reservation == "v" && r.state == state)
    && (forall r :: r in db.scalars ==> r.reservation == "v" && r.state == state)
  }

  ghost predicate NoRuns(db: Db) { db.runs == map[] && db.locks == map[] && db.manifests == [] }

  function Letters(): string { seq(64, _ => 'z') }

  function KeyOf(run: Id): string { run + "-0123456789" }

  // ----- Up to an approved plan -----

  lemma Reserve(p: Db -> bool, req: Requirements, pol: Policy, d: Draft) returns (db: Db)
    requires Kept(p) && Derive(req, pol, [], []) == Ok(d)
    ensures p(db) && Early(db, 1) && Holding(db, BodyOf(req, d), Document(req.fabric, IntentOf(d)), Reserved)
    ensures db.intents == map[] && db.plans == map[] && db.approvals == [] && NoRuns(db)
  {
    var op := OpReserve("v", req, pol, "key-0123456789", "alice", EventId(1));
    assert ActiveWithKey(EmptyDb(), "key-0123456789") == {};
    assert ActiveWithBody(EmptyDb(), BodyOf(req, d)) == {};
    StoreLedger.ReserveInserts(EmptyDb(), "v", req, pol, "key-0123456789", "alice", EventId(1), d);
    db := NextReservation(EmptyDb(), op);
    KeptByReservation(p, EmptyDb(), op);
  }

  lemma SaveIt(p: Db -> bool, db: Db, document: Document, body: ReservationBody) returns (later: Db)
    requires Kept(p) && p(db) && Early(db, 1) && Holding(db, body, document, Reserved)
    requires db.intents == map[] && db.plans == map[] && db.approvals == [] && NoRuns(db)
    ensures p(later) && Early(later, 2) && Holding(later, body, document, Reserved)
    ensures "i" in later.intents && later.intents["i"].document == document
    ensures later.plans == map[] && later.approvals == [] && NoRuns(later)
  {
    var op := OpSaveIntent("i", document, "alice", EventId(2));
    assert IntentsWith(db, document) == {};
    later := NextOther(db, op);
    KeptByIntent(p, db, op);
  }

  function HashOfPlan(plan: Id): string { plan + "-hash" }

  /** A stored plan of the fabric, bound to the reservation "v". */
  ghost predicate Planned(db: Db, plan: Id, fabric: Id) {
    plan in db.plans && db.plans[plan].planHash == HashOfPlan(plan) && db.plans[plan].artifactHash == Letters()
    && db.plans[plan].version == "1.0" && db.plans[plan].reservation == Some("v") && db.plans[plan].fabric == fabric
  }

  /** All but the plans and approvals is as it was. */
  ghost predicate OnlyPlans(db: Db, later: Db) {
    && later.reservations == db.reservations && later.nets == db.nets && later.scalars == db.scalars && later.intents == db.intents
    && later.runs == db.runs && later.locks == db.locks && later.manifests == db.manifests
  }

  lemma PlanIt(p: Db -> bool, db: Db, plan: Id, document: Document, body: ReservationBody, state: State, n: nat) returns (later: Db)
    requires Kept(p) && p(db) && Early(db, n) && n < 50 && Holding(db, body, document, state)
    requires "i" in db.intents && db.intents["i"].document == document
    requires plan !in db.plans && forall x :: x in db.plans ==> db.plans[x].planHash != HashOfPlan(plan)
    ensures p(later) && Early(later, n + 1) && OnlyPlans(db, later) && later.approvals == db.approvals
    ensures Planned(later, plan, document.fabric) && later.plans[plan].createdBy == "alice"
    ensures later.plans.Keys == db.plans.Keys + {plan} && forall x :: x in db.plans ==> later.plans[x] == db.plans[x]
  {
    var op := OpSavePlan("i", PlanDoc(plan, HashOfPlan(plan), document), "alice", Letters(), "1.0", Some("v"), EventId(n + 1));
    Unused(db, n);
    later := NextPlan(db, op);
    KeptByPlan(p, db, op);
  }

  function ApprovalOf(plan: Id): Id { plan + "-ok" }

  /** The plan's newest approval lets runs start for a long time. */
  ghost predicate Approved(db: Db, plan: Id, fabric: Id) {
    && Planned(db, plan, fabric) && db.approvals != []
    && var a := db.approvals[|db.approvals| - 1];
       && a.plan == plan && a.planHash == HashOfPlan(plan) && a.artifactHash == Letters() && a.version == "1.0"
       && a.approved && a.expiresAt == 1000
  }

  lemma ApproveIt(p: Db -> bool, db: Db, plan: Id, fabric: Id, n: nat) returns (later: Db)
    requires Kept(p) && p(db) && Early(db, n) && n < 50
    requires Planned(db, plan, fabric) && db.plans[plan].createdBy == "alice"
    requires forall a :: a in db.approvals ==> a.id != ApprovalOf(plan)
    ensures p(later) && Early(later, n + 1) && OnlyPlans(db, later) && later.plans == db.plans
    ensures Approved(later, plan, fabric) && |later.approvals| == |db.approvals| + 1 && later.approvals[..|db.approvals|] == db.approvals
    ensures later.approvals[|db.approvals|].id == ApprovalOf(plan)
  {
    var op := OpApprove(ApprovalOf(plan), plan, true, "bob", "CHG", 1000, EventId(n + 1));
    Unused(db, n);
    later := NextPlan(db, op);
    KeptByPlan(p, db, op);
  }

  // ----- Steps of a run -----

  /** Beside runs, locks and manifests a step leaves all as it was. */
  ghost predicate Aside(db: Db, later: Db) {
    && later.reservations == db.reservations && later.nets == db.nets && later.scalars == db.scalars && later.intents == db.intents
    && later.plans == db.plans && later.approvals == db.approvals
  }

  lemma MayRun(db: Db, plan: Id, fabric: Id, run: Id)
    requires Approved(db, plan, fabric) && 0 <= db.clock < 100 && run != ""
    ensures ActiveApproval(db, plan, db.clock + 1) == Ok(db.approvals[|db.approvals| - 1])
    ensures ApprovalMatches(db.approvals[|db.approvals| - 1], db.plans[plan]) && KeyAccepted(KeyOf(run)) && WindowOpen(Some((0, 1000)), db.clock + 1)
  {
    assert db.approvals[|db.approvals| - 1].plan == plan;
  }

  /** A new run, which holds the fabric's lock. */
  ghost predicate Queued(db: Db, plan: Id, fabric: Id, run: Id, status: Status) {
    && run in db.runs && db.runs[run].plan == plan && db.runs[run].artifactHash == Letters() && db.runs[run].fabric == fabric
    && db.runs[run].key == KeyOf(run) && db.runs[run].status == status && db.runs[run].mode == Apply
    && db.locks.Keys == {fabric} && db.locks[fabric].run == run
  }

  ghost predicate OnlyRun(db: Db, later: Db, run: Id) {
    later.runs.Keys == db.runs.Keys + {run} && forall r :: r in db.runs && r != run ==> later.runs[r] == db.runs[r]
  }

  lemma Queue(p: Db -> bool, db: Db, plan: Id, fabric: Id, run: Id, n: nat) returns (later: Db)
    requires Kept(p) && p(db) && Early(db, n) && n < 50 && Approved(db, plan, fabric) && run !in db.runs && db.locks == map[] && run != ""
    requires forall r :: r in db.runs ==> db.runs[r].key != KeyOf(run)
    ensures p(later) && Early(later, n + 1) && Aside(db, later) && later.manifests == db.manifests
    ensures OnlyRun(db, later, run) && Queued(later, plan, fabric, run, ApplyQueued)
  {
    var op := OpCreateRun(run, plan, Apply, KeyOf(run), "alice", true, Some((0, 1000)), 60, EventId(n + 1));
    var approval := db.approvals[|db.approvals| - 1].id;
    assert RunsWithKey(db, KeyOf(run)) == {};
    MayRun(db, plan, fabric, run);
    Unused(db, n);
    later := InsertRun(db, run, plan, Apply, KeyOf(run), "alice", 60, approval, EventId(n + 1));
    Recorded(db, later, n, RunCreated(run, ApplyQueued, approval), "alice");
    assert NextRun(db, op) == later;
    KeptByRun(p, db, op);
  }

  lemma Step(p: Db -> bool, db: Db, run: Id, status: Status, n: nat) returns (later: Db)
    requires Kept(p) && p(db) && Early(db, n) && n < 50 && run in db.runs && MayProceed(db.runs[run].status, status)
    ensures p(later) && Early(later, n + 1) && Aside(db, later) && later.manifests == db.manifests
    ensures later.runs == db.runs[run := db.runs[run].(status := status)]
    ensures later.locks == if Terminal(status) then Unlock(db.locks, run) else db.locks
  {
    var op := OpMoveRun(run, status, "alice", EventId(n + 1));
    Unused(db, n);
    later := MoveRun(db, run, status, "alice", EventId(n + 1));
    Recorded(db, later, n, RunMoved(run, db.runs[run].status, status), "alice");
    assert NextRun(db, op) == later;
    KeptByRun(p, db, op);
  }

  function NothingOwned(fabric: Id): Manifest {
    var body := ManifestBody(VERSION, SCOPE, fabric, "", []);
    Manifest(body, body)
  }

  lemma Complete(p: Db -> bool, db: Db, fabric: Id, run: Id, n: nat) returns (later: Db)
    requires Kept(p) && p(db) && Early(db, n) && n < 50 && run in db.runs && db.runs[run].status == ApplyRunning
    requires db.runs[run].artifactHash == Letters() && db.runs[run].fabric == fabric && db.manifests == []
    ensures p(later) && Early(later, n + 2) && Aside(db, later)
    ensures later.runs == db.runs[run := db.runs[run].(status := ApplySucceeded)] && later.locks == Unlock(db.locks, run)
    ensures |later.manifests| == 1 && later.manifests[0].reference == RunReference(run) && later.manifests[0].fabric == fabric
  {
    var op := OpComplete(run, Letters(), NothingOwned(fabric), "alice", EventId(n + 1), EventId(n + 2));
    assert ManifestValid(NothingOwned(fabric));
    assert |EventId(n + 1)| != |EventId(n + 2)|;
    assert CompleteApply(db, run, Letters(), NothingOwned(fabric), "alice", EventId(n + 1), EventId(n + 2)).Ok?;
    later := NextRun(db, op);
    KeptByRun(p, db, op);
  }

  lemma MovedHolding(db: Db, body: ReservationBody, document: Document, from: State, to: State, actor: Id, verified: bool, event: Id)
    requires Holding(db, body, document, from)
    ensures Holding(MoveReservation(db, "v", to, actor, verified, event), body, document, to)
  {
    forall r | r in MoveNets(db.nets, "v", to) ensures r.reservation == "v" && r.state == to {
      var i :| 0 <= i < |db.nets| && MoveNets(db.nets, "v", to)[i] == r;
      assert db.nets[i] in db.nets;
    }
    forall r | r in MoveScalars(db.scalars, "v", to) ensures r.reservation == "v" && r.state == to {
      var i :| 0 <= i < |db.scalars| && MoveScalars(db.scalars, "v", to)[i] == r;
      assert db.scalars[i] in db.scalars;
    }
  }

  lemma Move(p: Db -> bool, db: Db, body: ReservationBody, document: Document, from: State, to: State, verified: bool, n: nat) returns (later: Db)
    requires Kept(p) && p(db) && Early(db, n) && n < 50 && Holding(db, body, document, from) && MayMove(from, to) && (to == Released ==> verified)
    ensures p(later) && Early(later, n + 1) && Holding(later, body, document, to)
    ensures later.plans == db.plans && later.approvals == db.approvals && later.runs == db.runs && later.locks == db.locks
    ensures later.manifests == db.manifests && later.intents == db.intents
  {
    var op := OpMoveReservation("v", to, "alice", verified, EventId(n + 1));
    Unused(db, n);
    MovedHolding(db, body, document, from, to, "alice", verified, EventId(n + 1));
    later := MoveReservation(db, "v", to, "alice", verified, EventId(n + 1));
    Recorded(db, later, n, ReservationMoved("v", from, to, verified), "alice");
    assert NextReservation(db, op) == later;
    KeptByReservation(p, db, op);
  }

  // ----- The same space again -----

  lemma ReleasedRowsAreUnseen(nets: seq<NetRow>, scalars: seq<ScalarRow>, domain: Id, pol: Policy)
    requires (forall r :: r in nets ==> r.state == Released) && (forall r :: r in scalars ==> r.state == Released)
    ensures Opening(pol, domain, nets, scalars) == Opening(pol, domain, [], [])
  {
    forall p ensures ActiveNetworks(nets, domain, p) == ActiveNetworks([], domain, p) {}
    forall k ensures ActiveScalars(scalars, domain, k) == ActiveScalars([], domain, k) {}
  }

  lemma Again(p: Db -> bool, db: Db, req: Requirements, pol: Policy, d: Draft, document: Document, n: nat) returns (later: Db)
    requires Kept(p) && p(db) && Early(db, n) && n < 50 && Holding(db, BodyOf(req, d), document, Released)
    requires Derive(req, pol, [], []) == Ok(d)
    ensures p(later) && later.runs == db.runs && later.plans == db.plans && later.manifests == db.manifests
    ensures "w" in later.reservations && later.reservations["w"].body == BodyOf(req, d) && later.reservations["w"].state == Reserved
    ensures "v" in later.reservations && later.reservations["v"] == db.reservations["v"]
  {
    var op := OpReserve("w", req, pol, "key-9876543210", "carol", EventId(n + 1));
    ReleasedRowsAreUnseen(db.nets, db.scalars, req.domain, pol);
    assert Derive(req, pol, db.nets, db.scalars) == Ok(d);
    assert ActiveWithKey(db, "key-9876543210") == {};
    assert ActiveWithBody(db, BodyOf(req, d)) == {};
    StoreLedger.ReserveInserts(db, "w", req, pol, "key-9876543210", "carol", EventId(n + 1), d);
    later := NextReservation(db, op);
    KeptByReservation(p, db, op);
  }

  // ----- The run of the store -----

  /** The intent is stored, and the plan "p" is the only one, approved and bound to the reservation. */
  ghost predicate Ready(db: Db, body: ReservationBody, document: Document) {
    && Holding(db, body, document, Reserved) && "i" in db.intents && db.intents["i"].document == document
    && db.plans.Keys == {"p"} && Approved(db, "p", document.fabric)
    && |db.approvals| == 1 && db.approvals[0].id == ApprovalOf("p") && NoRuns(db)
  }

  lemma Prepare(p: Db -> bool, req: Requirements, pol: Policy, d: Draft) returns (db: Db)
    requires Kept(p) && Derive(req, pol, [], []) == Ok(d)
    ensures p(db) && Early(db, 4) && Ready(db, BodyOf(req, d), Document(req.fabric, IntentOf(d)))
  {
    var document, body := Document(req.fabric, IntentOf(d)), BodyOf(req, d);
    db := Reserve(p, req, pol, d);
    db := SaveIt(p, db, document, body);
    db := PlanIt(p, db, "p", document, body, Reserved, 2);
    db := ApproveIt(p, db, "p", document.fabric, 3);
  }

  /** The one successful run is of plan "p", and its owned state is the newest. */
  ghost predicate InUse(db: Db, run: Id, fabric: Id) {
    && run in db.runs && db.runs[run].status == ApplySucceeded && db.runs[run].plan == "p"
    && |db.manifests| == 1 && db.manifests[0].reference == RunReference(run) && db.manifests[0].fabric == fabric
  }

  /** A new run, up to its active state. */
  lemma Start(p: Db -> bool, db: Db, plan: Id, fabric: Id, run: Id, n: nat) returns (later: Db)
    requires Kept(p) && p(db) && Early(db, n) && n < 40 && Approved(db, plan, fabric) && run !in db.runs && db.locks == map[] && run != ""
    requires forall r :: r in db.runs ==> db.runs[r].key != KeyOf(run)
    ensures p(later) && Early(later, n + 2) && Aside(db, later) && later.manifests == db.manifests
    ensures OnlyRun(db, later, run) && Queued(later, plan, fabric, run, ApplyRunning)
  {
    var queued := Queue(p, db, plan, fabric, run, n);
    later := Step(p, queued, run, ApplyRunning, n + 1);
  }

  /** The moves of a run that succeeds. */
  lemma Succeed(p: Db -> bool, db: Db, fabric: Id, run: Id, n: nat) returns (later: Db)
    requires Kept(p) && p(db) && Early(db, n) && n < 40 && Approved(db, "p", fabric) && run !in db.runs && db.locks == map[] && run != ""
    requires (forall r :: r in db.runs ==> db.runs[r].key != KeyOf(run)) && db.manifests == []
    ensures p(later) && Early(later, n + 4) && Aside(db, later) && OnlyRun(db, later, run) && later.locks == map[]
    ensures InUse(later, run, fabric) && later.runs[run].key == KeyOf(run)
  {
    var active := Start(p, db, "p", fabric, run, n);
    later := Complete(p, active, fabric, run, n + 2);
  }

  lemma Undo(p: Db -> bool, db: Db, plan: Id, fabric: Id, run: Id, n: nat) returns (later: Db)
    requires Kept(p) && p(db) && Early(db, n) && n < 45 && Queued(db, plan, fabric, run, ApplyRunning)
    ensures p(later) && Early(later, n + 2) && Aside(db, later) && OnlyRun(db, later, run) && later.locks == map[]
    ensures later.manifests == db.manifests && later.runs[run] == db.runs[run].(status := RolledBack)
  {
    var undoing := Step(p, db, run, RollbackRunning, n);
    later := Step(p, undoing, run, RolledBack, n + 1);
  }

  /** The moves of a run that is rolled back. */
  lemma RollBack(p: Db -> bool, db: Db, plan: Id, fabric: Id, run: Id, n: nat) returns (later: Db)
    requires Kept(p) && p(db) && Early(db, n) && n < 40 && Approved(db, plan, fabric) && run !in db.runs && db.locks == map[] && run != ""
    requires forall r :: r in db.runs ==> db.runs[r].key != KeyOf(run)
    ensures p(later) && Early(later, n + 4) && Aside(db, later) && OnlyRun(db, later, run) && later.locks == map[]
    ensures later.manifests == db.manifests && later.runs[run].plan == plan && later.runs[run].key == KeyOf(run)
    ensures later.runs[run].status == RolledBack
  {
    var active := Start(p, db, plan, fabric, run, n);
    later := Undo(p, active, plan, fabric, run, n + 2);
  }

  lemma KeysDiffer()
    ensures KeyOf("r1") != KeyOf("r2")
  {
    assert KeyOf("r1")[1] == '1' && KeyOf("r2")[1] == '2';
  }

  /** A second plan on the reservation that the first plan's run has committed. */
  lemma PlanOnTheSameSpace(p: Db -> bool, db: Db, body: ReservationBody, document: Document, n: nat) returns (later: Db)
    requires Kept(p) && p(db) && Early(db, n) && n < 40 && Holding(db, body, document, Committed)
    requires "i" in db.intents && db.intents["i"].document == document && db.plans.Keys == {"p"} && Planned(db, "p", document.fabric)
    requires |db.approvals| == 1 && db.approvals[0].id == ApprovalOf("p")
    ensures p(later) && Early(later, n + 2) && Approved(later, "q", document.fabric) && OnlyPlans(db, later)
    ensures "p" in later.plans && later.plans["p"] == db.plans["p"]
  {
    assert HashOfPlan("p")[0] == 'p' && HashOfPlan("q")[0] == 'q' && ApprovalOf("p")[0] == 'p' && ApprovalOf("q")[0] == 'q';
    later := PlanIt(p, db, "q", document, body, Committed, n);
    later := ApproveIt(p, later, "q", document.fabric, n + 1);
  }

  /** The space of the successful run is released, and another reservation holds it. */
  ghost predicate GivenAway(db: Db, run: Id, req: Requirements, d: Draft) {
    && InUse(db, run, req.fabric) && "p" in db.plans && db.plans["p"].reservation == Some("v")
    && "v" in db.reservations && db.reservations["v"].state == Released && db.reservations["v"].body == BodyOf(req, d)
    && "w" in db.reservations && db.reservations["w"].state == Reserved && db.reservations["w"].body == BodyOf(req, d)
  }

  /** The first plan's run succeeds, and a second plan is bound to the committed reservation. */
  ghost predicate Shared(db: Db, body: ReservationBody, document: Document) {
    && Holding(db, body, document, Committed) && InUse(db, "r1", document.fabric)
    && Planned(db, "p", document.fabric) && Approved(db, "q", document.fabric)
    && db.runs.Keys == {"r1"} && db.runs["r1"].key == KeyOf("r1") && db.locks == map[]
  }

  lemma FirstPlan(p: Db -> bool, db: Db, body: ReservationBody, document: Document) returns (later: Db)
    requires Kept(p) && p(db) && Early(db, 4) && Ready(db, body, document)
    ensures p(later) && Early(later, 11) && Shared(later, body, document)
  {
    var done := Succeed(p, db, document.fabric, "r1", 4);
    var committed := Move(p, done, body, document, Reserved, Committed, false, 8);
    later := PlanOnTheSameSpace(p, committed, body, document, 9);
  }

  /** The second plan's run is rolled back. */
  lemma SecondPlan(p: Db -> bool, db: Db, body: ReservationBody, document: Document) returns (later: Db)
    requires Kept(p) && p(db) && Early(db, 11) && Shared(db, body, document)
    ensures p(later) && Early(later, 16) && Holding(later, body, document, Released) && InUse(later, "r1", document.fabric)
    ensures Planned(later, "p", document.fabric) && Planned(later, "q", document.fabric)
    ensures "r2" in later.runs && later.runs["r2"].plan == "q" && later.runs["r2"].status == RolledBack
  {
    KeysDiffer();
    var undone := RollBack(p, db, "q", document.fabric, "r2", 11);
    later := Move(p, undone, body, document, Committed, Released, true, 15);
  }

  /** One plan: its first run is rolled back, a later one succeeds. */
  lemma RolledBackFirst(p: Db -> bool, db: Db, body: ReservationBody, document: Document) returns (later: Db)
    requires Kept(p) && p(db) && Early(db, 4) && Ready(db, body, document)
    ensures p(later) && Early(later, 13) && Holding(later, body, document, Released) && InUse(later, "r2", document.fabric)
    ensures Planned(later, "p", document.fabric)
    ensures "r1" in later.runs && later.runs["r1"].plan == "p" && later.runs["r1"].status == RolledBack
  {
    KeysDiffer();
    var fabric := document.fabric;
    later := RollBack(p, db, "p", fabric, "r1", 4);
    later := Move(p, later, body, document, Reserved, Released, true, 8);
    later := Succeed(p, later, fabric, "r2", 9);
  }

  lemma TwoPlansStory(p: Db -> bool, req: Requirements, pol: Policy, d: Draft) returns (db: Db)
    requires Kept(p) && Derive(req, pol, [], []) == Ok(d)
    ensures p(db) && GivenAway(db, "r1", req, d) && "q" in db.plans && db.plans["q"].reservation == Some("v")
    ensures "r2" in db.runs && db.runs["r2"].plan == "q" && db.runs["r2"].status == RolledBack
  {
    var document, body := Document(req.fabric, IntentOf(d)), BodyOf(req, d);
    db := Prepare(p, req, pol, d);
    db := FirstPlan(p, db, body, document);
    db := SecondPlan(p, db, body, document);
    db := Again(p, db, req, pol, d, document, 16);
  }

  lemma RolledBackFirstStory(p: Db -> bool, req: Requirements, pol: Policy, d: Draft) returns (db: Db)
    requires Kept(p) && Derive(req, pol, [], []) == Ok(d)
    ensures p(db) && GivenAway(db, "r2", req, d)
    ensures "r1" in db.runs && db.runs["r1"].plan == "p" && db.runs["r1"].status == RolledBack
  {
    var document, body := Document(req.fabric, IntentOf(d)), BodyOf(req, d);
    db := Prepare(p, req, pol, d);
    db := RolledBackFirst(p, db, body, document);
    db := Again(p, db, req, pol, d, document, 13);
  }

  lemma OneMore(ops: seq<Op>, op: Op)
    ensures After(EmptyDb(), ops + [op]) == Next(After(EmptyDb(), ops), op)
  {
    assert (ops + [op])[..|ops|] == ops;
  }

  ghost predicate Reachable(db: Db) { exists ops :: After(EmptyDb(), ops) == db }

  lemma ReachableIsKept()
    ensures Kept(Reachable)
  {
    assert After(EmptyDb(), []) == EmptyDb();
    forall db, op | Reachable(db) ensures Reachable(Next(db, op)) {
      var ops :| After(EmptyDb(), ops) == db;
      OneMore(ops, op);
    }
  }

  /**
   For every design that fits the empty ledger there are operations after which its space
   is reserved anew although a successful run still uses it: a second plan was bound to the
   same reservation, its run was rolled back, and the release gave the first run's space away.
   */
  lemma SpaceIsGivenBackInUse(req: Requirements, pol: Policy) returns (ops: seq<Op>)
    requires Derive(req, pol, [], []).Ok?
    ensures var db := After(EmptyDb(), ops);
            && GivenAway(db, "r1", req, Derive(req, pol, [], []).value) && "q" in db.plans && db.plans["q"].reservation == Some("v")
            && "r2" in db.runs && db.runs["r2"].plan == "q" && db.runs["r2"].status == RolledBack
  {
    ReachableIsKept();
    var db := TwoPlansStory(Reachable, req, pol, Derive(req, pol, [], []).value);
    ops :| After(EmptyDb(), ops) == db;
  }

  /**
   And operations after which it is reserved anew because the plan's first run was rolled
   back, which released the space, and a later run of the plan succeeded all the same.
   */
  lemma SpaceIsUsedUnheld(req: Requirements, pol: Policy) returns (ops: seq<Op>)
    requires Derive(req, pol, [], []).Ok?
    ensures var db := After(EmptyDb(), ops);
            && GivenAway(db, "r2", req, Derive(req, pol, [], []).value)
            && "r1" in db.runs && db.runs["r1"].plan == "p" && db.runs["r1"].status == RolledBack
  {
    ReachableIsKept();
    var db := RolledBackFirstStory(Reachable, req, pol, Derive(req, pol, [], []).value);
    ops :| After(EmptyDb(), ops) == db;
  }
}
