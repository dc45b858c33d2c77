/**
 A transaction that no rollback can finish: its manifest names one pair of groups in two
 cell operations, the cell is created and then updated, and the answer to the rollback's
 DELETE is lost.  The manifest is valid, and the transaction is run from its beginning.
 */
module IseStuck {
  import opened Basics
  import opened Ordering
  import opened IseObjects
  import opened IseServer
  import opened IseOperations
  import opened IsePlan
  import opened IseSmooth
  import opened IseAdapter

  const MARKER: string := "m"

  function Group(name: string, value: int): Obj { map[Name := Text(name), Description := Text("m group"), Value := Number(value)] }
  function Acl(): Obj { map[Name := Text("P"), Description := Text("m acl"), AclContent := Text("permit ip")] }
  function CellText(text: string): Obj { map[Description := Text(text), MatrixCellStatus := Text("ENABLED"), DefaultRule := Text("NONE")] }

  function GroupOp(op: Id, name: string, value: int): Operation { Named(op, Sgt, name, Group(name, value)) }
  function AclOp(): Operation { Named("3", Sgacl, "P", Acl()) }
  function CellOp(op: Id, text: string): Operation { CellFor(op, "A", "B", ["P"], CellText(text)) }

  function Twice(): seq<Operation> {
    [GroupOp("1", "A", 1), GroupOp("2", "B", 2), AclOp(), CellOp("4", "m one"), CellOp("5", "m two")]
  }

  /** Both groups are there already; the ACL and the cell are not. */
  function Before(): Objects { map[(Sgt, "a") := Group("A", 1), (Sgt, "b") := Group("B", 2)] }

  /** Every request is answered and obeyed, but the answer to the rollback's first DELETE is lost. */
  function LostDelete(): Script { t => Reply(t != 24, Wholly, true, if t < 12 then "p" else "c") }

  // ----- The manifest -----

  lemma Marked(text: string)
    requires text != "" && text[0] == 'm'
    ensures Substring(MARKER, text)
  {
    assert text[0..1] == "m";
    assert OccursAt(MARKER, text, 0);
  }

  lemma OwnedHere(o: Obj)
    requires Description in o && o[Description].Text? && o[Description].text != "" && o[Description].text[0] == 'm'
    ensures Owned(MARKER, o)
  {
    Marked(o[Description].text);
  }

  lemma GroupOpIsValid(op: Id, name: string, value: int)
    requires op != "" && name != "" && 1 <= value <= 65535
    ensures OperationValid(MARKER, GroupOp(op, name, value))
  {
    OwnedHere(Group(name, value));
  }

  lemma CellOpIsValid(op: Id, text: string)
    requires op != "" && text != "" && text[0] == 'm'
    ensures OperationValid(MARKER, CellOp(op, text))
  {
    OwnedHere(CellText(text));
    assert "A" != "B";
  }

  ghost predicate IsTwice(ops: seq<Operation>) {
    && |ops| == 5 && ops[0] == GroupOp("1", "A", 1) && ops[1] == GroupOp("2", "B", 2) && ops[2] == AclOp()
    && ops[3] == CellOp("4", "m one") && ops[4] == CellOp("5", "m two")
  }

  lemma TwiceIsBound(ops: seq<Operation>)
    requires IsTwice(ops)
    ensures NamesUnique(ops) && CellsBound(ops) && !CellPairsDistinct(ops)
  {
    assert ops[0] in ops && ops[1] in ops && ops[2] in ops;
    assert Names(ops, Sgt, "A") && Names(ops, Sgt, "B") && Names(ops, Sgacl, "P");
    assert !PairsApart(ops[3], ops[4]);
  }

  lemma TwiceIsValid(ops: seq<Operation>)
    requires IsTwice(ops)
    ensures ManifestValid(MARKER, ops) && !CellPairsDistinct(ops)
  {
    GroupOpIsValid("1", "A", 1);
    GroupOpIsValid("2", "B", 2);
    OwnedHere(Acl());
    assert OperationValid(MARKER, AclOp());
    CellOpIsValid("4", "m one");
    CellOpIsValid("5", "m two");
    forall o | o in ops ensures OperationValid(MARKER, o) {
      var i :| 0 <= i < |ops| && ops[i] == o;
      assert i == 0 || i == 1 || i == 2 || i == 3 || i == 4;
    }
    TwiceIsBound(ops);
  }

  /** A sequence in order is its own sort. */
  lemma {:induction false} SortOfOrdered<T>(s: seq<T>, le: (T, T) -> bool)
    requires forall i :: 0 <= i < |s| - 1 ==> le(s[i], s[i + 1])
    ensures Sort(s, le) == s
    decreases s
  {
    if s != [] {
      SortOfOrdered(s[1..], le);
      assert s == [s[0]] + s[1..];
    }
  }

  lemma TwiceIsOrdered(ops: seq<Operation>)
    requires IsTwice(ops)
    ensures Sort(ops, OperationLe) == ops
  {
    SortOfOrdered(ops, OperationLe);
  }

  // ----- Searches -----

  lemma SearchFinds(objects: Objects, hits: set<Key>, k: Key)
    requires k in objects && hits == {k}
    ensures Search(objects, hits) == Some(Some((k.1, objects[k])))
  {
    assert forall j :: j in hits ==> j == k;
  }

  lemma LookupFinds(objects: Objects, r: Resource, probe: Obj, k: Key)
    requires forall j :: Matches(objects, r, probe, j) <==> j == k
    ensures k in objects && Search(objects, Hits(objects, r, probe)) == Some(Some((k.1, objects[k])))
  {
    assert Matches(objects, r, probe, k);
    assert Hits(objects, r, probe) == {k};
    SearchFinds(objects, Hits(objects, r, probe), k);
  }

  lemma LookupMisses(objects: Objects, r: Resource, probe: Obj)
    requires forall j :: !Matches(objects, r, probe, j)
    ensures Search(objects, Hits(objects, r, probe)) == Some(None)
  {
    assert Hits(objects, r, probe) == {};
  }

  // ----- Prepare -----

  function GroupNoop(op: Id, name: string, value: int, id: Id): Action {
    Noop(op, Sgt, Group(name, value), id, Comparable(Sgt, Group(name, value)))
  }

  function AclCreate(): Action { Create("3", Sgacl, Acl()) }
  function Waiting(op: Id, text: string): Action { Deferred(op, "A", "B", ["P"], CellText(text)) }

  function Planned(): seq<Action> {
    [GroupNoop("1", "A", 1, "a"), GroupNoop("2", "B", 2, "b"), AclCreate(), Waiting("4", "m one"), Waiting("5", "m two")]
  }

  lemma NameLookup(name: string, value: int)
    ensures LookupOf(Sgt, Group(name, value)) == map[Name := Text(name)]
  {
  }

  ghost predicate IsGroup(name: string, value: int, id: Id) {
    (name == "A" && value == 1 && id == "a") || (name == "B" && value == 2 && id == "b")
  }

  lemma GroupIsFound(name: string, value: int, id: Id)
    requires IsGroup(name, value, id)
    ensures (Sgt, id) in Before() && Before()[(Sgt, id)] == Group(name, value)
    ensures Search(Before(), Hits(Before(), Sgt, LookupOf(Sgt, Group(name, value)))) == Some(Some((id, Group(name, value))))
  {
    NameLookup("A", 1);
    NameLookup("B", 2);
    assert map[Name := Text("A")][Name] != map[Name := Text("B")][Name];
    LookupFinds(Before(), Sgt, LookupOf(Sgt, Group(name, value)), (Sgt, id));
  }

  lemma ValueIsFree(name: string, value: int, id: Id)
    requires IsGroup(name, value, id)
    ensures ValueFree(Before(), Group(name, value), Some((id, Group(name, value))))
  {
    var hits := ValueHits(Before(), Group(name, value)[Value]);
    assert hits == {(Sgt, id)};
    SearchFinds(Before(), hits, (Sgt, id));
  }

  lemma GroupIsThere(p: Plan, op: Id, name: string, value: int, id: Id)
    requires IsGroup(name, value, id)
    ensures PlanNamed(MARKER, Before(), p, GroupOp(op, name, value))
              == Some(Plan(p.actions + [GroupNoop(op, name, value, id)], p.sgts[name := id], p.sgacls, p.tick + 2))
  {
    GroupIsFound(name, value, id);
    ValueIsFree(name, value, id);
    OwnedHere(Group(name, value));
  }

  lemma AclIsMissing(p: Plan)
    ensures PlanNamed(MARKER, Before(), p, AclOp()) == Some(Plan(p.actions + [AclCreate()], p.sgts, p.sgacls, p.tick + 1))
  {
    LookupMisses(Before(), Sgacl, LookupOf(Sgacl, Acl()));
  }

  /** The cells refer to an ACL that is not there yet. */
  lemma CellWaits(p: Plan, op: Id, text: string)
    requires "P" !in p.sgacls
    ensures PlanCell(MARKER, Before(), p, CellOp(op, text)) == Some(p.(actions := p.actions + [Waiting(op, text)]))
  {
    assert "P" in CellOp(op, text).refs;
  }

  lemma NamedPlan(ops: seq<Operation>, p0: Plan) returns (p3: Plan)
    requires IsTwice(ops)
    ensures p3 == Plan(p0.actions + [GroupNoop("1", "A", 1, "a")] + [GroupNoop("2", "B", 2, "b")] + [AclCreate()],
                       p0.sgts["A" := "a"]["B" := "b"], p0.sgacls, p0.tick + 5)
    ensures PlanNamedAll(MARKER, Before(), p0, ops, 0) == Some(p3)
  {
    GroupIsThere(p0, "1", "A", 1, "a");
    var p1 := PlanNamed(MARKER, Before(), p0, ops[0]).value;
    GroupIsThere(p1, "2", "B", 2, "b");
    var p2 := PlanNamed(MARKER, Before(), p1, ops[1]).value;
    AclIsMissing(p2);
    p3 := PlanNamed(MARKER, Before(), p2, ops[2]).value;
    assert PlanNamedAll(MARKER, Before(), p3, ops, 5) == Some(p3);
    assert PlanNamedAll(MARKER, Before(), p3, ops, 4) == Some(p3);
    assert PlanNamedAll(MARKER, Before(), p2, ops, 2) == Some(p3);
    assert PlanNamedAll(MARKER, Before(), p1, ops, 1) == Some(p3);
  }

  lemma CellPlan(ops: seq<Operation>, p0: Plan) returns (p2: Plan)
    requires IsTwice(ops) && "P" !in p0.sgacls
    ensures p2 == p0.(actions := p0.actions + [Waiting("4", "m one")] + [Waiting("5", "m two")])
    ensures PlanCellAll(MARKER, Before(), p0, ops, 0) == Some(p2)
  {
    CellWaits(p0, "4", "m one");
    var p1 := PlanCell(MARKER, Before(), p0, ops[3]).value;
    CellWaits(p1, "5", "m two");
    p2 := PlanCell(MARKER, Before(), p1, ops[4]).value;
    assert PlanCellAll(MARKER, Before(), p2, ops, 5) == Some(p2);
    assert PlanCellAll(MARKER, Before(), p1, ops, 4) == Some(p2);
    assert PlanCellAll(MARKER, Before(), p0, ops, 3) == Some(p2);
    assert PlanCellAll(MARKER, Before(), p0, ops, 2) == Some(p2);
    assert PlanCellAll(MARKER, Before(), p0, ops, 1) == Some(p2);
  }

  lemma FiveInOrder<T>(a: T, b: T, c: T, d: T, e: T)
    ensures ([] + [a] + [b] + [c]) + ([] + [d] + [e]) == [a, b, c, d, e]
  {
  }

  lemma PlanIs(ops: seq<Operation>)
    requires IsTwice(ops)
    ensures PlanAll(MARKER, Before(), 2, ops) == Some(Plan(Planned(), map["A" := "a", "B" := "b"], map[], 7))
  {
    var p3 := NamedPlan(ops, Plan([], map[], map[], 2));
    var p5 := CellPlan(ops, p3.(actions := []));
    FiveInOrder(GroupNoop("1", "A", 1, "a"), GroupNoop("2", "B", 2, "b"), AclCreate(), Waiting("4", "m one"), Waiting("5", "m two"));
  }

  // ----- Apply -----

  function CellBetween(text: string): Obj { CellDesired(CellText(text), "a", "b", ["p"]) }

  function CellCreate(): Action { Create("4", Cell, CellBetween("m one")) }

  function CellUpdate(): Action {
    var old' := Mutable(Cell, CellBetween("m one"));
    Update("5", Cell, CellBetween("m two"), "c", Mutable(Cell, old'), Comparable(Cell, old'))
  }

  function WithAclP(): Objects { Before()[(Sgacl, "p") := Mutable(Sgacl, Acl())] }
  function WithCell(text: string): Objects { WithAclP()[(Cell, "c") := Mutable(Cell, CellBetween(text))] }

  /** The journal of the transaction: the last two entries are about one cell. */
  function Entries(): seq<Entry> { [CreatedEntry(AclCreate(), "p"), CreatedEntry(CellCreate(), "c"), UpdatedEntry(CellUpdate())] }

  lemma GroupStands(r: Run, op: Id, name: string, value: int, id: Id)
    requires r.node.objects == Before() && IsGroup(name, value, id)
    ensures var a := GroupNoop(op, name, value, id);
            NamedRun(LostDelete(), r, a)
              == Some(Run(r.node.(tick := r.node.tick + 1), r.results + [(a, id)], r.sgts[name := id], r.sgacls))
  {
  }

  lemma AclIsMade(r: Run)
    requires r.node.objects == Before() && r.node.tick == 9
    ensures NamedRun(LostDelete(), r, AclCreate())
              == Some(Run(Node(WithAclP(), 12, r.node.journal + [CreatedEntry(AclCreate(), "p")]), r.results + [(AclCreate(), "p")],
                          r.sgts, r.sgacls["P" := "p"]))
  {
    LookupMisses(Before(), Sgacl, LookupOf(Sgacl, Acl()));
    assert CreateRun(LostDelete(), r.node, AclCreate()).Some?;
  }

  ghost predicate NamesKnown(r: Run) {
    "A" in r.sgts && r.sgts["A"] == "a" && "B" in r.sgts && r.sgts["B"] == "b" && "P" in r.sgacls && r.sgacls["P"] == "p"
  }

  lemma CellIsResolved(r: Run, op: Id, text: string)
    requires NamesKnown(r)
    ensures forall ref :: ref in ["P"] ==> ref in r.sgacls
    ensures CellDesired(CellText(text), r.sgts["A"], r.sgts["B"], IdsOf(r.sgacls, ["P"])) == CellBetween(text)
  {
    assert IdsOf(r.sgacls, ["P"]) == ["p"];
  }

  function PairLookup(): Obj { map[SourceSgtId := Text("a"), DestinationSgtId := Text("b")] }

  lemma CellFacts(text: string)
    ensures LookupOf(Cell, CellBetween(text)) == LookupOf(Cell, Mutable(Cell, CellBetween(text))) == PairLookup()
    ensures Description in Comparable(Cell, CellBetween(text)) && Comparable(Cell, CellBetween(text))[Description] == Text(text)
    ensures Comparable(Cell, Mutable(Cell, CellBetween(text))) == Comparable(Cell, CellBetween(text))
  {
    assert LookupOf(Cell, CellBetween(text)) == PairLookup();
    ComparableOfMutable(Cell, CellBetween(text));
  }

  lemma CellIsMade(r: Run)
    requires NamesKnown(r) && r.node.objects == WithAclP() && r.node.tick == 12
    ensures CellRun(LostDelete(), MARKER, r, Waiting("4", "m one"))
              == Some(r.(node := Node(WithCell("m one"), 16, r.node.journal + [CreatedEntry(CellCreate(), "c")]), results := r.results + [(CellCreate(), "c")]))
  {
    CellIsResolved(r, "4", "m one");
    LookupMisses(WithAclP(), Cell, LookupOf(Cell, CellBetween("m one")));
    assert Resolve(MARKER, r, Waiting("4", "m one")) == Some((CellCreate(), 13));
    assert CreateRun(LostDelete(), r.node.(tick := 13), CellCreate()).Some?;
  }

  lemma CellIsChanged(r: Run)
    requires NamesKnown(r) && r.node.objects == WithCell("m one") && r.node.tick == 16
    ensures CellRun(LostDelete(), MARKER, r, Waiting("5", "m two"))
              == Some(r.(node := Node(WithCell("m two"), 20, r.node.journal + [UpdatedEntry(CellUpdate())]), results := r.results + [(CellUpdate(), "c")]))
  {
    var k: Key := (Cell, "c");
    CellIsResolved(r, "5", "m two");
    CellFacts("m one");
    CellFacts("m two");
    assert forall j :: Matches(WithCell("m one"), Cell, PairLookup(), j) <==> j == k;
    LookupFinds(WithCell("m one"), Cell, PairLookup(), k);
    OwnedHere(Mutable(Cell, CellBetween("m one")));
    assert Resolve(MARKER, r, Waiting("5", "m two")) == Some((CellUpdate(), 17));
    assert WithCell("m one")[k := Mutable(Cell, CellBetween("m two"))] == WithCell("m two");
  }

  ghost predicate IsPlanned(actions: seq<Action>) {
    && |actions| == 5 && actions[0] == GroupNoop("1", "A", 1, "a") && actions[1] == GroupNoop("2", "B", 2, "b") && actions[2] == AclCreate()
    && actions[3] == Waiting("4", "m one") && actions[4] == Waiting("5", "m two")
  }

  lemma NamedAreApplied(actions: seq<Action>, r0: Run) returns (r3: Run)
    requires IsPlanned(actions) && r0.node == Node(Before(), 7, [])
    requires forall i :: 0 <= i < |actions| && IsNamed(actions[i]) ==> HasName(actions[i])
    ensures NamesKnown(r3) && r3.node == Node(WithAclP(), 12, [] + [CreatedEntry(AclCreate(), "p")])
    ensures NamedRunAll(LostDelete(), r0, actions, 0) == Some(r3)
  {
    var script := LostDelete();
    GroupStands(r0, "1", "A", 1, "a");
    var r1 := NamedRun(script, r0, actions[0]).value;
    GroupStands(r1, "2", "B", 2, "b");
    var r2 := NamedRun(script, r1, actions[1]).value;
    AclIsMade(r2);
    r3 := NamedRun(script, r2, actions[2]).value;
    assert NamedRunAll(script, r3, actions, 5) == Some(r3);
    assert NamedRunAll(script, r3, actions, 4) == Some(r3);
    assert NamedRunAll(script, r2, actions, 2) == Some(r3);
    assert NamedRunAll(script, r1, actions, 1) == Some(r3);
  }

  lemma CellsAreApplied(actions: seq<Action>, r0: Run) returns (r2: Run)
    requires IsPlanned(actions) && NamesKnown(r0) && r0.node.objects == WithAclP() && r0.node.tick == 12
    ensures r2.node == Node(WithCell("m two"), 20, r0.node.journal + [CreatedEntry(CellCreate(), "c")] + [UpdatedEntry(CellUpdate())])
    ensures CellRunAll(LostDelete(), MARKER, r0, actions, 0) == Some(r2)
  {
    var script := LostDelete();
    CellIsMade(r0);
    var r1 := CellRun(script, MARKER, r0, actions[3]).value;
    CellIsChanged(r1);
    r2 := CellRun(script, MARKER, r1, actions[4]).value;
    assert CellRunAll(script, MARKER, r2, actions, 5) == Some(r2);
    assert CellRunAll(script, MARKER, r1, actions, 4) == Some(r2);
    assert CellRunAll(script, MARKER, r0, actions, 3) == Some(r2);
    assert CellRunAll(script, MARKER, r0, actions, 2) == Some(r2);
    assert CellRunAll(script, MARKER, r0, actions, 1) == Some(r2);
  }

  lemma RunIs(actions: seq<Action>)
    requires IsPlanned(actions)
    requires forall i :: 0 <= i < |actions| && IsNamed(actions[i]) ==> HasName(actions[i])
    ensures var last := ApplyRun(LostDelete(), MARKER, Before(), 7, actions);
            last.Some? && last.value.node == Node(WithCell("m two"), 20, Entries())
  {
    var r3 := NamedAreApplied(actions, Run(Node(Before(), 7, []), [], map[], map[]));
    var r5 := CellsAreApplied(actions, r3);
  }

  // ----- Rollback -----

  lemma CellIsRestored()
    ensures UndoRun(LostDelete(), MARKER, WithCell("m two"), 20, Entries()[2]) == Undoing(WithCell("m one"), 23, true)
  {
    var k: Key := (Cell, "c");
    CellFacts("m one");
    CellFacts("m two");
    assert Mutable(Cell, Mutable(Cell, CellBetween("m one"))) == Mutable(Cell, CellBetween("m one"));
    assert WithCell("m two")[k := Mutable(Cell, CellBetween("m one"))] == WithCell("m one");
  }

  /** The DELETE whose answer is lost. */
  lemma CellIsDeleted()
    ensures UndoRun(LostDelete(), MARKER, WithCell("m one"), 23, Entries()[1]) == Undoing(WithAclP(), 25, false)
  {
    CellFacts("m one");
    OwnedHere(Mutable(Cell, CellBetween("m one")));
    assert WithCell("m one") - {(Cell, "c")} == WithAclP();
  }

  lemma AclIsDeleted()
    ensures UndoRun(LostDelete(), MARKER, WithAclP(), 25, Entries()[0]) == Undoing(Before(), 28, true)
  {
    ComparableOfMutable(Sgacl, Acl());
    OwnedHere(Mutable(Sgacl, Acl()));
    assert WithAclP() - {(Sgacl, "p")} == Before();
  }

  lemma FirstRollbackIs()
    ensures IdsKnown(Entries())
    ensures UndoAllRun(LostDelete(), MARKER, WithCell("m two"), 20, Entries(), 3) == Undoing(Before(), 28, false)
  {
    CellIsRestored();
    CellIsDeleted();
    AclIsDeleted();
    assert UndoAllRun(LostDelete(), MARKER, Before(), 28, Entries(), 0) == Undoing(Before(), 28, true);
    assert UndoAllRun(LostDelete(), MARKER, WithAclP(), 25, Entries(), 1) == Undoing(Before(), 28, true);
    assert UndoAllRun(LostDelete(), MARKER, WithCell("m one"), 23, Entries(), 2) == Undoing(Before(), 28, false);
  }

  /** From the restored objects, whatever the node answers, the journal is refused and nothing changes. */
  lemma LaterRollbacksAre(script: Script, tick: nat)
    ensures var u := UndoAllRun(script, MARKER, Before(), tick, Entries(), 3);
            u.objects == Before() && !u.verified
  {
    var u2 := UndoRun(script, MARKER, Before(), tick, Entries()[2]);
    var u1 := UndoRun(script, MARKER, Before(), u2.tick, Entries()[1]);
    var u0 := UndoRun(script, MARKER, Before(), u1.tick, Entries()[0]);
    assert u2.objects == u1.objects == u0.objects == Before() && !u2.verified;
    assert UndoAllRun(script, MARKER, Before(), u0.tick, Entries(), 0) == Undoing(Before(), u0.tick, true);
    assert UndoAllRun(script, MARKER, Before(), u1.tick, Entries(), 1).objects == Before();
    assert UndoAllRun(script, MARKER, Before(), u2.tick, Entries(), 2).objects == Before();
  }

  lemma PlannedHaveNames(actions: seq<Action>)
    requires IsPlanned(actions)
    ensures forall i :: 0 <= i < |actions| && IsNamed(actions[i]) ==> HasName(actions[i])
  {
    forall i | 0 <= i < |actions| && IsNamed(actions[i]) ensures HasName(actions[i]) {
      assert i == 0 || i == 1 || i == 2;
    }
  }

  lemma ServedUntil(to: nat)
    requires to <= 24
    ensures forall from: nat :: Serves(LostDelete(), from, to)
  {
  }

  // ----- The transaction -----

  /** A new adapter whose transaction is prepared on a node that serves. */
  method Prepared(ops: seq<Operation>, script: Script, before: Objects, ghost plan: Plan) returns (adapter: Adapter, error: Option<IseError>)
    requires ManifestValid(MARKER, ops) && Sort(ops, OperationLe) == ops
    requires PlanAll(MARKER, before, 2, ops) == Some(plan) && Serves(script, 0, plan.tick)
    ensures fresh(adapter) && fresh(adapter.server) && adapter.Valid() && error == None
    ensures adapter.marker == MARKER && adapter.server.script == script
    ensures adapter.Now() == Node(before, plan.tick, []) && adapter.prepared == Some(plan.actions)
  {
    var server := new Server(script, before);
    adapter := new Adapter(MARKER, ops, server);
    error := adapter.Prepare(true, true);
  }

  /** After a first attempt that fails, attempts that change nothing and fail. */
  method RolledBack(adapter: Adapter, retries: nat, ghost first: Undoing) returns (verified: seq<bool>)
    requires adapter.Valid() && IdsKnown(adapter.journal)
    requires WholeRun(adapter.server.script, adapter.marker, adapter.server.objects, adapter.server.tick, adapter.journal) == first && !first.verified
    requires forall t: nat :: Futile(adapter.server.script, adapter.marker, first.objects, t, adapter.journal)
    modifies adapter, adapter.server
    ensures adapter.journal == old(adapter.journal) && adapter.server.objects == first.objects
    ensures |verified| == retries + 1 && forall i :: 0 <= i < |verified| ==> !verified[i]
  {
    var answer := adapter.Rollback();
    verified := [answer];
    for i := 0 to retries
      invariant adapter.Valid() && adapter.journal == old(adapter.journal) && adapter.server.objects == first.objects
      invariant |verified| == i + 1 && forall i :: 0 <= i < |verified| ==> !verified[i]
    {
      assert Futile(adapter.server.script, adapter.marker, first.objects, adapter.server.tick, adapter.journal);
      var again := adapter.Rollback();
      verified := verified + [again];
    }
  }

  ghost predicate Futile(script: Script, marker: string, objects: Objects, tick: nat, journal: seq<Entry>) {
    var u := WholeRun(script, marker, objects, tick, journal);
    IdsKnown(journal) && u.objects == objects && !u.verified
  }

  /** Prepare and apply on a node that serves, then rollbacks of which none can finish. */
  method Transaction(ops: seq<Operation>, script: Script, before: Objects, retries: nat, ghost plan: Plan, ghost last: Run, ghost first: Undoing)
    returns (prepared: Option<IseError>, applied: Result<seq<(Action, Id)>, IseError>, verified: seq<bool>, left: Objects, journal: seq<Entry>)
    requires ManifestValid(MARKER, ops) && Sort(ops, OperationLe) == ops
    requires PlanAll(MARKER, before, 2, ops) == Some(plan) && Serves(script, 0, plan.tick)
    requires forall i :: 0 <= i < |plan.actions| && IsNamed(plan.actions[i]) ==> HasName(plan.actions[i])
    requires ApplyRun(script, MARKER, before, plan.tick, plan.actions) == Some(last) && Serves(script, plan.tick, last.node.tick)
    requires IdsKnown(last.node.journal) && !first.verified
    requires WholeRun(script, MARKER, last.node.objects, last.node.tick, last.node.journal) == first
    requires forall t: nat :: Futile(script, MARKER, first.objects, t, last.node.journal)
    ensures prepared == None && applied == Ok(last.results) && left == first.objects && journal == last.node.journal
    ensures |verified| == retries + 1 && forall i :: 0 <= i < |verified| ==> !verified[i]
  {
    var adapter;
    adapter, prepared := Prepared(ops, script, before, plan);
    applied := adapter.Apply();
    verified := RolledBack(adapter, retries, first);
    left, journal := adapter.server.objects, adapter.journal;
  }

  lemma Forwards(actions: seq<Action>) returns (last: Run)
    requires IsPlanned(actions)
    ensures forall i :: 0 <= i < |actions| && IsNamed(actions[i]) ==> HasName(actions[i])
    ensures ApplyRun(LostDelete(), MARKER, Before(), 7, actions) == Some(last) && Serves(LostDelete(), 7, last.node.tick)
    ensures last.node == Node(WithCell("m two"), 20, Entries())
  {
    PlannedHaveNames(actions);
    RunIs(actions);
    last := ApplyRun(LostDelete(), MARKER, Before(), 7, actions).value;
    ServedUntil(20);
  }

  lemma Backwards()
    ensures IdsKnown(Entries()) && !DistinctTargets(Entries(), None)
    ensures WholeRun(LostDelete(), MARKER, WithCell("m two"), 20, Entries()) == Undoing(Before(), 28, false)
    ensures forall t: nat :: Futile(LostDelete(), MARKER, Before(), t, Entries())
  {
    FirstRollbackIs();
    forall t: nat ensures Futile(LostDelete(), MARKER, Before(), t, Entries()) { LaterRollbacksAre(LostDelete(), t); }
    assert TargetOf(Entries()[1], None) == TargetOf(Entries()[2], None);
  }

  /**
   A valid manifest, prepared and applied without a fault.  The first rollback meets one
   lost answer and puts every object back, and yet no rollback is ever verified.
   */
  method SharedCellNeverFinishes(retries: nat)
    returns (prepared: Option<IseError>, applied: Result<seq<(Action, Id)>, IseError>, verified: seq<bool>, left: Objects, journal: seq<Entry>)
    ensures ManifestValid(MARKER, Twice()) && !CellPairsDistinct(Twice())
    ensures prepared == None && applied.Ok?
    ensures |verified| == retries + 1 && forall i :: 0 <= i < |verified| ==> !verified[i]
    ensures left == Before() && journal == Entries() && !DistinctTargets(journal, None)
  {
    var ops := Twice();
    TwiceIsValid(ops);
    TwiceIsOrdered(ops);
    PlanIs(ops);
    ghost var plan := Plan(Planned(), map["A" := "a", "B" := "b"], map[], 7);
    ghost var last := Forwards(Planned());
    Backwards();
    ServedUntil(7);
    prepared, applied, verified, left, journal := Transaction(ops, LostDelete(), Before(), retries, plan, last, Undoing(Before(), 28, false));
  }
}
