/** Runs of the store from its empty state, in which a property that one might expect fails. */
module StoreScenarios {
  import opened Basics
  import opened Allocator
  import opened IntentValidation
  import opened Reconciliation
  import opened Store
  import opened StoreMachine
  import opened StoreCommits
  import opened StoreLedger
  import opened StorePlans
  import opened LegacyVlans

  lemma OneMore(ops: seq<Op>, op: Op)
    ensures After(EmptyDb(), ops + [op]) == Next(After(EmptyDb(), ops), op)
  {
    assert (ops + [op])[..|ops|] == ops;
  }

  /** These event ids are unused. */
  predicate Unused(audit: seq<AuditRow>, ids: set<Id>) {
    forall r :: r in audit ==> r.body.id !in ids
  }

  // ----- One apply run, up to its active state -----

  /** 64 characters that are no digest. */
  function Letters(): string { seq(64, _ => 'z') }

  function Blueprint(): Document { Document("f", IntentDoc([], [], [], [], [])) }

  function SaveIt(): Op { OpSaveIntent("i", Blueprint(), "alice", "e0") }
  function PlanIt(): Op { OpSavePlan("i", PlanDoc("p", "ph", Blueprint()), "alice", Letters(), "1.0", None, "e1") }
  function ApproveIt(): Op { OpApprove("a", "p", true, "bob", "CHG", 1000, "e2") }
  function QueueIt(): Op { OpCreateRun("r", "p", Apply, "key-0123456789", "alice", true, Some((0, 1000)), 60, "e3") }
  function StartIt(): Op { OpMoveRun("r", ApplyRunning, "alice", "e4") }

  predicate IntentStored(db: Db) {
    && db.intents == map["i" := IntentRow(Blueprint(), 1, "alice")]
    && db.plans == map[] && db.approvals == [] && db.runs == map[] && db.locks == map[] && db.manifests == []
    && db.clock == 1 && Unused(db.audit, {"e1", "e2", "e3", "e4", "e5", "e6"})
  }

  lemma StoreIntent()
    ensures IntentStored(NextOther(EmptyDb(), SaveIt()))
  {
    assert IntentsWith(EmptyDb(), Blueprint()) == {};
  }

  predicate PlanStored(db: Db) {
    && db.plans == map["p" := PlanRow("ph", Letters(), "1.0", None, "i", "f", 2, "alice")]
    && db.approvals == [] && db.runs == map[] && db.locks == map[] && db.manifests == []
    && db.clock == 2 && Unused(db.audit, {"e2", "e3", "e4", "e5", "e6"})
  }

  lemma StorePlan(db: Db)
    requires IntentStored(db)
    ensures PlanStored(NextPlan(db, PlanIt()))
  {
  }

  predicate PlanApproved(db: Db) {
    && db.plans == map["p" := PlanRow("ph", Letters(), "1.0", None, "i", "f", 2, "alice")]
    && db.approvals == [Approval("a", "p", "ph", Letters(), "1.0", true, "bob", "CHG", 1000, 3)]
    && db.runs == map[] && db.locks == map[] && db.manifests == []
    && db.clock == 3 && Unused(db.audit, {"e3", "e4", "e5", "e6"})
  }

  lemma ApprovePlan(db: Db)
    requires PlanStored(db)
    ensures PlanApproved(NextPlan(db, ApproveIt()))
  {
  }

  predicate RunIs(db: Db, status: Status, unused: set<Id>) {
    && db.runs == map["r" := RunRow("p", "ph", Letters(), "1.0", "f", "key-0123456789", Apply, status, "alice", 4)]
    && db.manifests == [] && Unused(db.audit, unused)
  }

  lemma QueueRun(db: Db)
    requires PlanApproved(db)
    ensures RunIs(NextRun(db, QueueIt()), ApplyQueued, {"e4", "e5", "e6"})
  {
    assert RunsWithKey(db, "key-0123456789") == {};
  }

  lemma StartRun(db: Db)
    requires RunIs(db, ApplyQueued, {"e4", "e5", "e6"})
    ensures RunIs(NextRun(db, StartIt()), ApplyRunning, {"e5", "e6"})
  {
  }

  lemma IntentStage(ops: seq<Op>)
    requires ops == []
    ensures IntentStored(After(EmptyDb(), ops + [SaveIt()]))
  {
    OneMore(ops, SaveIt());
    StoreIntent();
  }

  lemma PlanStage(ops: seq<Op>)
    requires IntentStored(After(EmptyDb(), ops))
    ensures PlanStored(After(EmptyDb(), ops + [PlanIt()]))
  {
    OneMore(ops, PlanIt());
    StorePlan(After(EmptyDb(), ops));
  }

  lemma ApprovalStage(ops: seq<Op>)
    requires PlanStored(After(EmptyDb(), ops))
    ensures PlanApproved(After(EmptyDb(), ops + [ApproveIt()]))
  {
    OneMore(ops, ApproveIt());
    ApprovePlan(After(EmptyDb(), ops));
  }

  lemma QueueStage(ops: seq<Op>)
    requires PlanApproved(After(EmptyDb(), ops))
    ensures RunIs(After(EmptyDb(), ops + [QueueIt()]), ApplyQueued, {"e4", "e5", "e6"})
  {
    OneMore(ops, QueueIt());
    QueueRun(After(EmptyDb(), ops));
  }

  lemma StartStage(ops: seq<Op>)
    requires RunIs(After(EmptyDb(), ops), ApplyQueued, {"e4", "e5", "e6"})
    ensures RunIs(After(EmptyDb(), ops + [StartIt()]), ApplyRunning, {"e5", "e6"})
  {
    OneMore(ops, StartIt());
    StartRun(After(EmptyDb(), ops));
  }

  lemma RunStarted() returns (ops: seq<Op>)
    ensures RunIs(After(EmptyDb(), ops), ApplyRunning, {"e5", "e6"})
  {
    ops := [];
    IntentStage(ops);
    ops := ops + [SaveIt()];
    PlanStage(ops);
    ops := ops + [PlanIt()];
    ApprovalStage(ops);
    ops := ops + [ApproveIt()];
    QueueStage(ops);
    ops := ops + [QueueIt()];
    StartStage(ops);
    ops := ops + [StartIt()];
  }

  // ----- Success without a manifest -----

  lemma DeclareSuccess(db: Db)
    requires RunIs(db, ApplyRunning, {"e5", "e6"})
    ensures var later := NextRun(db, OpMoveRun("r", ApplySucceeded, "alice", "e5"));
            Succeeded(later, "r") && !HasManifest(later, "r")
  {
  }

  /** The store alone does not tie success to a manifest: a run of the store that ends with one and not the other. */
  lemma SuccessWithoutManifest() returns (ops: seq<Op>)
    ensures Succeeded(After(EmptyDb(), ops), "r") && !HasManifest(After(EmptyDb(), ops), "r")
  {
    var started := RunStarted();
    var last := OpMoveRun("r", ApplySucceeded, "alice", "e5");
    OneMore(started, last);
    DeclareSuccess(After(EmptyDb(), started));
    ops := started + [last];
  }

  // ----- A committed baseline that the planner refuses -----

  function NothingOwned(): Manifest {
    var body := ManifestBody(VERSION, SCOPE, "f", "", []);
    Manifest(body, body)
  }

  lemma CompleteIt(db: Db)
    requires RunIs(db, ApplyRunning, {"e5", "e6"})
    ensures var later := NextRun(db, OpComplete("r", Letters(), NothingOwned(), "alice", "e5", "e6"));
            var latest := LatestOwnedState(later, "f");
            latest.Some? && !BaselineValid(latest.value, "f")
  {
    assert ManifestValid(NothingOwned());
    var later := NextRun(db, OpComplete("r", Letters(), NothingOwned(), "alice", "e5", "e6"));
    assert later.manifests[|later.manifests| - 1].artifact == Some(Letters());
    assert Letters()[0] == 'z' && 'z' in Letters() && !IsDigest(Letters());
  }

  /** A run of the store after which the newest baseline is refused by the planner: its artifact hash is no digest. */
  lemma LatestBaselineCanBeRefused() returns (ops: seq<Op>)
    ensures var latest := LatestOwnedState(After(EmptyDb(), ops), "f");
            latest.Some? && !BaselineValid(latest.value, "f")
  {
    var started := RunStarted();
    var last := OpComplete("r", Letters(), NothingOwned(), "alice", "e5", "e6");
    OneMore(started, last);
    CompleteIt(After(EmptyDb(), started));
    ops := started + [last];
  }

  // ----- A plan rebound to another intent's reservation -----

  predicate Holding(db: Db, document: Document) {
    && "v" in db.reservations && db.reservations["v"].document == document && Active(db.reservations["v"].state)
  }

  lemma ReserveIt(req: Requirements, pol: Policy, d: Draft) returns (op: Op)
    requires Derive(req, pol, [], []) == Ok(d)
    ensures op.OpReserve?
    ensures var db := NextReservation(EmptyDb(), op);
            && Holding(db, Document(req.fabric, IntentOf(d)))
            && db.intents == map[] && db.plans == map[] && Unused(db.audit, {"f1", "f2", "f3", "f4"})
  {
    op := OpReserve("v", req, pol, "key-0123456789", "alice", "f0");
    assert ActiveWithKey(EmptyDb(), "key-0123456789") == {};
    assert ActiveWithBody(EmptyDb(), BodyOf(req, d)) == {};
    ReserveInserts(EmptyDb(), "v", req, pol, "key-0123456789", "alice", "f0", d);
  }

  predicate IntentIs(db: Db, id: Id, document: Document) { id in db.intents && db.intents[id].document == document }

  lemma StoreNewIntent(db: Db, id: Id, document: Document, event: Id, unused: set<Id>)
    requires id !in db.intents && IntentsWith(db, document) == {} && Unused(db.audit, unused + {event}) && event !in unused
    ensures var later := NextOther(db, OpSaveIntent(id, document, "alice", event));
            && later.intents.Keys == db.intents.Keys + {id} && IntentIs(later, id, document)
            && (forall i :: i in db.intents ==> later.intents[i] == db.intents[i])
            && later.reservations == db.reservations && later.plans == db.plans && Unused(later.audit, unused)
  {
  }

  function PlanFirst(): Op { OpSavePlan("i1", PlanDoc("p", "ph", Blueprint()), "alice", Letters(), "1.0", None, "f3") }
  function PlanAgain(document: Document): Op {
    OpSavePlan("i2", PlanDoc("p", "ph", document), "alice", Letters(), "1.0", Some("v"), "f4")
  }

  lemma RebindPlan(db: Db, document: Document)
    requires IntentIs(db, "i1", Blueprint()) && IntentIs(db, "i2", document) && Holding(db, document)
    requires db.plans == map[] && Unused(db.audit, {"f3", "f4"})
    ensures var later := NextPlan(NextPlan(db, PlanFirst()), PlanAgain(document));
            "p" in later.plans && later.plans["p"].intent == "i1" && later.plans["p"].reservation == Some("v")
            && IntentIs(later, "i1", Blueprint()) && Holding(later, document)
  {
    var first := NextPlan(db, PlanFirst());
    assert first.plans.Keys == {"p"} && first.plans["p"].reservation == None && first.plans["p"].artifactHash == Letters();
    assert first.intents == db.intents && Unused(first.audit, {"f4"});
  }

  lemma Reserving() returns (ops: seq<Op>, document: Document)
    ensures var db := After(EmptyDb(), ops);
            && document.fabric == "fabric-1" && Holding(db, document)
            && db.intents == map[] && db.plans == map[] && Unused(db.audit, {"f1", "f2", "f3", "f4"})
  {
    LegacyVlanIsHandedOut();
    var d := Derive(SmallDesign(), SmallPolicy(), [], []).value;
    document := Document(SmallDesign().fabric, IntentOf(d));
    var op := ReserveIt(SmallDesign(), SmallPolicy(), d);
    OneMore([], op);
    ops := [] + [op];
  }

  lemma AddIntent(ops: seq<Op>, id: Id, document: Document, event: Id, unused: set<Id>) returns (longer: seq<Op>)
    requires id !in After(EmptyDb(), ops).intents && IntentsWith(After(EmptyDb(), ops), document) == {}
    requires Unused(After(EmptyDb(), ops).audit, unused + {event}) && event !in unused
    ensures var db, later := After(EmptyDb(), ops), After(EmptyDb(), longer);
            && later.intents.Keys == db.intents.Keys + {id} && IntentIs(later, id, document)
            && (forall i :: i in db.intents ==> later.intents[i] == db.intents[i])
            && later.reservations == db.reservations && later.plans == db.plans && Unused(later.audit, unused)
  {
    StoreNewIntent(After(EmptyDb(), ops), id, document, event, unused);
    OneMore(ops, OpSaveIntent(id, document, "alice", event));
    longer := ops + [OpSaveIntent(id, document, "alice", event)];
  }

  lemma BothIntentsStored() returns (ops: seq<Op>, document: Document)
    ensures var db := After(EmptyDb(), ops);
            && document.fabric == "fabric-1" && IntentIs(db, "i1", Blueprint()) && IntentIs(db, "i2", document)
            && Holding(db, document) && db.plans == map[] && Unused(db.audit, {"f3", "f4"})
  {
    var first, second;
    first, document := Reserving();
    assert IntentsWith(After(EmptyDb(), first), Blueprint()) == {};
    assert {"f2", "f3", "f4"} + {"f1"} == {"f1", "f2", "f3", "f4"};
    second := AddIntent(first, "i1", Blueprint(), "f1", {"f2", "f3", "f4"});
    assert IntentsWith(After(EmptyDb(), second), document) == {};
    assert {"f3", "f4"} + {"f2"} == {"f2", "f3", "f4"};
    ops := AddIntent(second, "i2", document, "f2", {"f3", "f4"});
  }

  /**
   A run of the store that ends with a plan bound to the reservation of another intent: the
   plan id was saved again with another intent, as only a caller that makes up plan ids can.
   */
  lemma PlanCanBeMisbound() returns (ops: seq<Op>)
    ensures !PlansBound(After(EmptyDb(), ops))
  {
    var document;
    ops, document := BothIntentsStored();
    RebindPlan(After(EmptyDb(), ops), document);
    OneMore(ops, PlanFirst());
    ops := ops + [PlanFirst()];
    OneMore(ops, PlanAgain(document));
    ops := ops + [PlanAgain(document)];
    var db := After(EmptyDb(), ops);
    assert !PlanBound(db.intents, db.reservations, db.plans["p"]);
  }
}
