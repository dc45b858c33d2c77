/**
 What the ISE transaction comes to on a node that serves it (orchestrator/ise.py): it goes
 through if and only if no operation meets an object that is not ours or not unique, and then
 every operation of the manifest is in force and nothing else has changed.
 */
module IsePolicy {
  import opened Basics
  import opened Ordering
  import opened IseObjects
  import opened IseServer
  import opened IseOperations
  import opened IsePlan
  import opened IseSmooth

  // ----- What the manifest asks for, and what it may meet -----

  /** Both objects have the field with one value, or neither has it. */
  ghost predicate Agrees(a: Obj, b: Obj, f: Field) {
    (f in a <==> f in b) && (f in a ==> a[f] == b[f])
  }

  /** A group or ACL of that name. */
  ghost predicate Bears(objects: Objects, k: Key, r: Resource, name: string) {
    k.0 == r && NamedSo(objects, k, name)
  }

  /** A cell between the two groups. */
  ghost predicate Joins(objects: Objects, k: Key, source: Id, destination: Id) {
    && k in objects && k.0 == Cell
    && SourceSgtId in objects[k] && objects[k][SourceSgtId] == Text(source)
    && DestinationSgtId in objects[k] && objects[k][DestinationSgtId] == Text(destination)
  }

  ghost predicate NamedInForce(objects: Objects, o: Operation, id: Id)
    requires o.Named?
  {
    var k := (o.resource, id);
    && Bears(objects, k, o.resource, o.name) && Agrees(objects[k], o.desired, Description)
    && (o.resource == Sgt ==> Agrees(objects[k], o.desired, Value) && Agrees(objects[k], o.desired, PropagateToApic))
    && (o.resource == Sgacl ==> Agrees(objects[k], o.desired, AclContent) && Agrees(objects[k], o.desired, IpVersion))
  }

  /** The cell joins the groups of the two names and holds the ACLs of the listed names, in that order. */
  ghost predicate CellInForce(objects: Objects, o: Operation, id: Id, source: Id, destination: Id, acls: seq<Id>)
    requires o.CellFor?
  {
    var k := (Cell, id);
    && Joins(objects, k, source, destination)
    && Bears(objects, (Sgt, source), Sgt, o.source) && Bears(objects, (Sgt, destination), Sgt, o.destination)
    && Sgacls in objects[k] && objects[k][Sgacls] == Ids(acls) && |acls| == |o.refs|
    && (forall i :: 0 <= i < |acls| ==> Bears(objects, (Sgacl, acls[i]), Sgacl, o.refs[i]))
    && Agrees(objects[k], o.desired, Description) && Agrees(objects[k], o.desired, MatrixCellStatus)
    && Agrees(objects[k], o.desired, DefaultRule)
  }

  /** The object of that key carries out the operation. */
  ghost predicate InForce(objects: Objects, o: Operation, k: Key) {
    if o.Named? then k.0 == o.resource && NamedInForce(objects, o, k.1)
    else k.0 == Cell && exists source, destination, acls :: CellInForce(objects, o, k.1, source, destination, acls)
  }

  /** What a write may set besides the cell's groups and ACLs. */
  function Writable(o: Operation): set<Field> {
    if o.CellFor? then {Name, Description, MatrixCellStatus, DefaultRule}
    else if o.resource == Sgt then {Name, Description, Value, PropagateToApic, DefaultSgacls}
    else {Name, Description, AclContent, IpVersion, ModelledContent}
  }

  /** The object holds what a write of the operation sends, and nothing else. */
  ghost predicate AsSent(objects: Objects, o: Operation, k: Key) {
    && k in objects && (forall f :: f in Writable(o) ==> Agrees(objects[k], o.desired, f))
    && forall f :: f in objects[k] ==> f in Writable(o) || (o.CellFor? && f in {SourceSgtId, DestinationSgtId, Sgacls})
  }

  /** The marker stands somewhere in the description. */
  ghost predicate Marked(marker: string, o: Obj) {
    && Description in o && o[Description].Text?
    && exists before, after :: o[Description].text == before + marker + after
  }

  lemma OwnedIsMarked(marker: string, o: Obj)
    ensures Owned(marker, o) <==> Marked(marker, o)
  {
    if Owned(marker, o) {
      var text := o[Description].text;
      var i :| 0 <= i <= |text| - |marker| && OccursAt(marker, text, i);
      assert text == text[..i] + marker + text[i + |marker|..];
    } else if Marked(marker, o) {
      var text := o[Description].text;
      var before, after :| text == before + marker + after;
      assert OccursAt(marker, text, |before|);
    }
  }

  /** At most one object has the name, and it carries the marker. */
  ghost predicate NameIsOurs(marker: string, objects: Objects, r: Resource, name: string) {
    && (forall k, l :: Bears(objects, k, r, name) && Bears(objects, l, r, name) ==> k == l)
    && forall k :: Bears(objects, k, r, name) ==> Marked(marker, objects[k])
  }

  /** At most one cell joins the groups, and it carries the marker. */
  ghost predicate PairIsOurs(marker: string, objects: Objects, source: Id, destination: Id) {
    && (forall k, l :: Joins(objects, k, source, destination) && Joins(objects, l, source, destination) ==> k == l)
    && forall k :: Joins(objects, k, source, destination) ==> Marked(marker, objects[k])
  }

  /** The operation meets nothing that is foreign or ambiguous; a group's tag value is its own. */
  ghost predicate Admissible(marker: string, objects: Objects, o: Operation) {
    match o
    case Named(_, r, name, desired) =>
      && NameIsOurs(marker, objects, r, name)
      && (r == Sgt ==> Value in desired && forall k :: HasValue(objects, desired[Value], k) ==> NamedSo(objects, k, name))
    case CellFor(_, source, destination, _, _) =>
      forall s, d :: Bears(objects, (Sgt, s), Sgt, source) && Bears(objects, (Sgt, d), Sgt, destination) ==> PairIsOurs(marker, objects, s, d)
  }

  // ----- Lookups -----

  lemma SearchExact(objects: Objects, hits: set<Key>, r: Resource)
    requires hits <= objects.Keys && forall k :: k in hits ==> k.0 == r
    ensures Search(objects, hits) == None <==> exists k, l :: k in hits && l in hits && k != l
    ensures Search(objects, hits) == Some(None) <==> hits == {}
    ensures forall id, o :: Search(objects, hits) == Some(Some((id, o))) <==> hits == {(r, id)} && o == objects[(r, id)]
  {
    if hits != {} {
      var k :| k in hits;
      if hits == {k} {
        assert k == (r, k.1);
      } else {
        assert exists l :: l in hits && l != k;
      }
    }
  }

  lemma NameHits(objects: Objects, r: Resource, desired: Obj, name: string, k: Key)
    requires r != Cell && Name in desired && desired[Name] == Text(name)
    ensures k in Hits(objects, r, LookupOf(r, desired)) <==> Bears(objects, k, r, name)
  {
    var probe := LookupOf(r, desired);
    assert probe == map[Name := Text(name)];
    if k in objects && k.0 == r {
      var found := LookupOf(r, objects[k]);
      assert found.Keys == objects[k].Keys * {Name};
      assert Name in found ==> found == map[Name := found[Name]];
    }
  }

  lemma CellHits(objects: Objects, desired: Obj, source: Id, destination: Id, acls: seq<Id>, k: Key)
    ensures k in Hits(objects, Cell, LookupOf(Cell, CellDesired(desired, source, destination, acls))) <==> Joins(objects, k, source, destination)
  {
    var probe := LookupOf(Cell, CellDesired(desired, source, destination, acls));
    assert probe.Keys == {SourceSgtId, DestinationSgtId};
    assert probe == map[SourceSgtId := Text(source), DestinationSgtId := Text(destination)];
    if k in objects && k.0 == Cell {
      var found := LookupOf(Cell, objects[k]);
      assert found.Keys == objects[k].Keys * {SourceSgtId, DestinationSgtId};
      if found.Keys == probe.Keys {
        assert found == map[SourceSgtId := found[SourceSgtId], DestinationSgtId := found[DestinationSgtId]];
      }
    }
  }

  // ----- Working order: groups, then ACLs, then cells -----

  ghost predicate Ordered(ops: seq<Operation>, n: nat) {
    && n <= |ops| && (forall i :: 0 <= i < n ==> ops[i].Named? && ops[i].resource != Cell)
    && forall i :: n <= i < |ops| ==> ops[i].CellFor?
  }

  /** The first operation comes before the second. */
  ghost predicate Precedes(a: Operation, b: Operation) {
    && (b.Named? && b.resource == Sgt ==> a.Named? && a.resource == Sgt)
    && (b.Named? ==> a.Named?)
    && (a.CellFor? && b.CellFor? ==> StringLe(a.op, b.op))
    && (a.Named? && b.Named? && a.resource == b.resource ==> StringLe(a.op, b.op))
  }

  lemma OperationLePreorder()
    ensures Preorder(OperationLe)
  {
    StringLePreorder();
  }

  lemma InWorkingOrder(marker: string, operations: seq<Operation>) returns (ops: seq<Operation>, n: nat)
    requires ManifestValid(marker, operations)
    ensures ops == Sort(operations, OperationLe) && multiset(ops) == multiset(operations)
    ensures Sorted(ops, OperationLe) && (forall o :: o in ops ==> OperationValid(marker, o)) && Ordered(ops, n)
    ensures NamesUnique(ops) && (CellPairsDistinct(operations) ==> CellPairsDistinct(ops)) && CellsBound(ops)
  {
    ops := Sort(operations, OperationLe);
    OperationLePreorder();
    SortIsSorted(operations, OperationLe);
    SortIsPermutation(operations, OperationLe);
    SortedOperations(operations);
    SameMembers(ops, operations);
    n := Split(marker, ops);
  }

  lemma SameMembers(a: seq<Operation>, b: seq<Operation>)
    requires multiset(a) == multiset(b)
    ensures forall o :: o in a <==> o in b
    ensures CellsBound(a) <==> CellsBound(b)
  {
    assert forall o :: o in a <==> o in multiset(a);
    assert forall o :: o in b <==> o in multiset(b);
    assert forall r, name :: Names(a, r, name) <==> Names(b, r, name);
  }

  lemma Split(marker: string, ops: seq<Operation>) returns (n: nat)
    requires Sorted(ops, OperationLe) && forall o :: o in ops ==> OperationValid(marker, o)
    ensures Ordered(ops, n)
  {
    n := 0;
    while n < |ops| && ops[n].Named?
      invariant n <= |ops| && forall i :: 0 <= i < n ==> ops[i].Named?
    {
      n := n + 1;
    }
    forall i | 0 <= i < n ensures ops[i].resource != Cell {
      assert OperationValid(marker, ops[i]);
    }
    forall i | n <= i < |ops| ensures ops[i].CellFor? {
      assert i > n ==> OperationLe(ops[n], ops[i]);
    }
  }

  // ----- The plan -----

  ghost predicate NamedFor(marker: string, objects: Objects, a: Action, o: Operation) {
    && o.Named? && !a.Deferred? && a.op == o.op && a.resource == o.resource && a.desired == o.desired
    && HasName(a) && NameOf(a) == o.name && ActionValid(marker, a) && Classifies(objects, marker, a)
  }

  /** The action found the object of that name. */
  ghost predicate Finds(a: Action, r: Resource, name: string, id: Id) {
    (a.Noop? || a.Update?) && a.resource == r && HasName(a) && NameOf(a) == name && a.id == id
  }

  ghost predicate KnownBy(actions: seq<Action>, known: map<string, Id>, r: Resource) {
    forall name :: name in known ==> exists k :: 0 <= k < |actions| && Finds(actions[k], r, name, known[name])
  }

  ghost predicate KnownIfFound(a: Action, sgts: map<string, Id>, sgacls: map<string, Id>) {
    HasName(a) && !a.Create? ==> NameOf(a) in (if a.resource == Sgt then sgts else sgacls)
  }

  /** The first `i` operations are planned. */
  ghost predicate NamesPlanned(marker: string, objects: Objects, ops: seq<Operation>, i: nat, p: Plan) {
    && i <= |ops| && |p.actions| == i && (forall k :: 0 <= k < i ==> NamedFor(marker, objects, p.actions[k], ops[k]))
    && KnownBy(p.actions, p.sgts, Sgt) && KnownBy(p.actions, p.sgacls, Sgacl)
    && forall k :: 0 <= k < i ==> KnownIfFound(p.actions[k], p.sgts, p.sgacls)
  }

  /** A group's lookup is refused if and only if a name or the tag value is taken twice, or the value by another group. */
  lemma NamedFoundExact(marker: string, objects: Objects, o: Operation)
    requires o.Named? && OperationValid(marker, o)
    ensures NamedFound(objects, o).Some? <==>
              && (forall k, l :: Bears(objects, k, o.resource, o.name) && Bears(objects, l, o.resource, o.name) ==> k == l)
              && (o.resource == Sgt ==> forall k :: HasValue(objects, o.desired[Value], k) ==> NamedSo(objects, k, o.name))
    ensures NamedFound(objects, o) == Some(None) ==> forall k :: !Bears(objects, k, o.resource, o.name)
    ensures NamedFound(objects, o).Some? && NamedFound(objects, o).value.Some? ==>
              var k := (o.resource, NamedFound(objects, o).value.value.0);
              Bears(objects, k, o.resource, o.name) && NamedFound(objects, o).value.value.1 == objects[k]
  {
    var hits := Hits(objects, o.resource, LookupOf(o.resource, o.desired));
    forall k ensures k in hits <==> Bears(objects, k, o.resource, o.name) { NameHits(objects, o.resource, o.desired, o.name, k); }
    SearchExact(objects, hits, o.resource);
    if o.resource == Sgt {
      var holders := ValueHits(objects, o.desired[Value]);
      SearchExact(objects, holders, Sgt);
      forall k | k in holders ensures NamedSo(objects, k, o.name) <==> k in hits {}
    }
  }

  lemma PlanNamedExact(marker: string, objects: Objects, p: Plan, ops: seq<Operation>, i: nat)
    requires i < |ops| && ops[i].Named? && OperationValid(marker, ops[i]) && NamesPlanned(marker, objects, ops, i, p)
    ensures var next := PlanNamed(marker, objects, p, ops[i]);
            && (next.Some? <==> Admissible(marker, objects, ops[i]))
            && (next.Some? ==> NamesPlanned(marker, objects, ops, i + 1, next.value))
  {
    var o := ops[i];
    NamedFoundExact(marker, objects, o);
    var found := NamedFound(objects, o);
    if found.Some? {
      if found.value.Some? { OwnedIsMarked(marker, found.value.value.1); }
      NamedClassified(marker, objects, o, found.value);
      var action := Classify(marker, o.op, o.resource, o.desired, found.value);
      if action.Ok? { NamesPlannedOn(marker, objects, p, ops, i, action.value, found.value); }
    }
  }

  lemma NamedClassified(marker: string, objects: Objects, o: Operation, found: Option<(Id, Obj)>)
    requires o.Named? && OperationValid(marker, o)
    requires found == None ==> forall k :: !Bears(objects, k, o.resource, o.name)
    requires found.Some? ==> Bears(objects, (o.resource, found.value.0), o.resource, o.name) && found.value.1 == objects[(o.resource, found.value.0)]
    ensures var action := Classify(marker, o.op, o.resource, o.desired, found);
            && (action.Err? <==> found.Some? && !Owned(marker, found.value.1))
            && (action.Ok? ==>
                  && NamedFor(marker, objects, action.value, o)
                  && (found == None ==> action.value.Create?)
                  && (found.Some? ==> Finds(action.value, o.resource, o.name, found.value.0)))
  {
    forall k ensures Matches(objects, o.resource, LookupOf(o.resource, o.desired), k) <==> Bears(objects, k, o.resource, o.name) {
      NameHits(objects, o.resource, o.desired, o.name, k);
    }
    ClassifyExact(objects, marker, o.op, o.resource, o.desired, found);
  }

  lemma NamesPlannedOn(marker: string, objects: Objects, p: Plan, ops: seq<Operation>, i: nat, a: Action, found: Option<(Id, Obj)>)
    requires i < |ops| && ops[i].Named? && OperationValid(marker, ops[i]) && NamesPlanned(marker, objects, ops, i, p)
    requires NamedFor(marker, objects, a, ops[i]) && (found == None ==> a.Create?)
    requires found.Some? ==> Finds(a, ops[i].resource, ops[i].name, found.value.0)
    ensures var o := ops[i];
            NamesPlanned(marker, objects, ops, i + 1,
                         Plan(p.actions + [a], WithGroup(p.sgts, o, found), WithAcl(p.sgacls, o, found), p.tick + Requests(o)))
  {
    var o, all := ops[i], p.actions + [a];
    var sgts, sgacls := WithGroup(p.sgts, o, found), WithAcl(p.sgacls, o, found);
    assert all[i] == a && forall k :: 0 <= k < i ==> all[k] == p.actions[k];
    forall name | name in sgts ensures exists k :: 0 <= k < |all| && Finds(all[k], Sgt, name, sgts[name]) {
      if o.resource == Sgt && found.Some? && name == o.name {
        assert Finds(all[i], Sgt, name, sgts[name]);
      } else {
        var k :| 0 <= k < i && Finds(p.actions[k], Sgt, name, p.sgts[name]);
        assert Finds(all[k], Sgt, name, sgts[name]);
      }
    }
    forall name | name in sgacls ensures exists k :: 0 <= k < |all| && Finds(all[k], Sgacl, name, sgacls[name]) {
      if o.resource != Sgt && found.Some? && name == o.name {
        assert Finds(all[i], Sgacl, name, sgacls[name]);
      } else {
        var k :| 0 <= k < i && Finds(p.actions[k], Sgacl, name, p.sgacls[name]);
        assert Finds(all[k], Sgacl, name, sgacls[name]);
      }
    }
    forall k | 0 <= k <= i ensures KnownIfFound(all[k], sgts, sgacls) {
      assert k < i ==> KnownIfFound(p.actions[k], p.sgts, p.sgacls);
    }
  }

  lemma {:induction false} PlanNamedAllExact(marker: string, objects: Objects, p: Plan, ops: seq<Operation>, i: nat, n: nat)
    requires i <= n && Ordered(ops, n) && (forall o :: o in ops ==> OperationValid(marker, o)) && NamesPlanned(marker, objects, ops, i, p)
    ensures var last := PlanNamedAll(marker, objects, p, ops, i);
            && (last.Some? <==> forall k :: i <= k < n ==> Admissible(marker, objects, ops[k]))
            && (last.Some? ==> NamesPlanned(marker, objects, ops, n, last.value))
    decreases n - i
  {
    if i == n {
      NoMoreNames(marker, objects, p, ops, i);
    } else {
      PlanNamedExact(marker, objects, p, ops, i);
      var next := PlanNamed(marker, objects, p, ops[i]);
      if next.Some? { PlanNamedAllExact(marker, objects, next.value, ops, i + 1, n); }
    }
  }

  lemma {:induction false} NoMoreNames(marker: string, objects: Objects, p: Plan, ops: seq<Operation>, i: nat)
    requires i <= |ops| && forall k :: i <= k < |ops| ==> ops[k].CellFor?
    ensures PlanNamedAll(marker, objects, p, ops, i) == Some(p)
    decreases |ops| - i
  {
    if i < |ops| { NoMoreNames(marker, objects, p, ops, i + 1); }
  }

  /** The classified action on the operation's cell, between these groups and with these ACLs. */
  ghost predicate CellFits(marker: string, a: Action, o: Operation, sgts: map<string, Id>, sgacls: map<string, Id>) {
    && o.CellFor? && Resolvable(sgts, sgacls, o)
    && !a.Deferred? && a.op == o.op && a.resource == Cell && ActionValid(marker, a)
    && a.desired == CellDesired(o.desired, sgts[o.source], sgts[o.destination], IdsOf(sgacls, o.refs))
  }

  ghost predicate CellPlanned(marker: string, objects: Objects, a: Action, o: Operation, sgts: map<string, Id>, sgacls: map<string, Id>) {
    && o.CellFor?
    && if Resolvable(sgts, sgacls, o) then CellFits(marker, a, o, sgts, sgacls) && Classifies(objects, marker, a)
       else a == Deferred(o.op, o.source, o.destination, o.refs, o.desired)
  }

  /** Operations `n` up to `i` are planned, the cells. */
  ghost predicate CellsPlanned(marker: string, objects: Objects, ops: seq<Operation>, n: nat, i: nat, p: Plan) {
    && n <= i <= |ops| && |p.actions| == i - n
    && forall k :: n <= k < i ==> CellPlanned(marker, objects, p.actions[k - n], ops[k], p.sgts, p.sgacls)
  }

  /** If its names are all known, the operation's cell is ours. */
  ghost predicate KnownPairIsOurs(marker: string, objects: Objects, o: Operation, sgts: map<string, Id>, sgacls: map<string, Id>) {
    o.CellFor? && Resolvable(sgts, sgacls, o) ==> PairIsOurs(marker, objects, sgts[o.source], sgts[o.destination])
  }

  /** A cell between two groups is classified if and only if it is ours. */
  lemma CellClassified(marker: string, objects: Objects, o: Operation, sgts: map<string, Id>, sgacls: map<string, Id>)
    requires o.CellFor? && OperationValid(marker, o) && Resolvable(sgts, sgacls, o)
    ensures var desired := CellDesired(o.desired, sgts[o.source], sgts[o.destination], IdsOf(sgacls, o.refs));
            var found := Search(objects, Hits(objects, Cell, LookupOf(Cell, desired)));
            && (PairIsOurs(marker, objects, sgts[o.source], sgts[o.destination]) <==>
                  found.Some? && Classify(marker, o.op, Cell, desired, found.value).Ok?)
            && (found.Some? && Classify(marker, o.op, Cell, desired, found.value).Ok? ==>
                  var a := Classify(marker, o.op, Cell, desired, found.value).value;
                  CellFits(marker, a, o, sgts, sgacls) && Classifies(objects, marker, a))
  {
    var s, d, acls := sgts[o.source], sgts[o.destination], IdsOf(sgacls, o.refs);
    var desired := CellDesired(o.desired, s, d, acls);
    var hits := Hits(objects, Cell, LookupOf(Cell, desired));
    forall k ensures k in hits <==> Joins(objects, k, s, d) { CellHits(objects, o.desired, s, d, acls, k); }
    SearchExact(objects, hits, Cell);
    var found := Search(objects, hits);
    if found.Some? {
      if found.value.Some? {
        assert (Cell, found.value.value.0) in hits;
        OwnedIsMarked(marker, found.value.value.1);
      }
      ClassifyExact(objects, marker, o.op, Cell, desired, found.value);
    }
  }

  lemma PlanCellExact(marker: string, objects: Objects, p: Plan, ops: seq<Operation>, n: nat, i: nat)
    requires i < |ops| && ops[i].CellFor? && OperationValid(marker, ops[i]) && CellsPlanned(marker, objects, ops, n, i, p)
    ensures var next := PlanCell(marker, objects, p, ops[i]);
            && (next.Some? <==> KnownPairIsOurs(marker, objects, ops[i], p.sgts, p.sgacls))
            && (next.Some? ==> CellsPlanned(marker, objects, ops, n, i + 1, next.value))
  {
    if Resolvable(p.sgts, p.sgacls, ops[i]) { CellClassified(marker, objects, ops[i], p.sgts, p.sgacls); }
    var next := PlanCell(marker, objects, p, ops[i]);
    if next.Some? {
      assert CellPlanned(marker, objects, next.value.actions[i - n], ops[i], p.sgts, p.sgacls);
      assert next.value.actions[..i - n] == p.actions;
    }
  }

  lemma {:induction false} PlanCellAllExact(marker: string, objects: Objects, p: Plan, ops: seq<Operation>, n: nat, i: nat)
    requires n <= i && Ordered(ops, n) && (forall o :: o in ops ==> OperationValid(marker, o)) && CellsPlanned(marker, objects, ops, n, i, p)
    ensures var last := PlanCellAll(marker, objects, p, ops, i);
            && (last.Some? <==> forall k :: i <= k < |ops| ==> KnownPairIsOurs(marker, objects, ops[k], p.sgts, p.sgacls))
            && (last.Some? ==> last.value.sgts == p.sgts && last.value.sgacls == p.sgacls && CellsPlanned(marker, objects, ops, n, |ops|, last.value))
    decreases |ops| - i
  {
    if i < |ops| {
      PlanCellExact(marker, objects, p, ops, n, i);
      var next := PlanCell(marker, objects, p, ops[i]);
      if next.Some? { PlanCellAllExact(marker, objects, next.value, ops, n, i + 1); }
    }
  }

  lemma {:induction false} SkipNames(marker: string, objects: Objects, p: Plan, ops: seq<Operation>, i: nat, n: nat)
    requires i <= n && Ordered(ops, n)
    ensures PlanCellAll(marker, objects, p, ops, i) == PlanCellAll(marker, objects, p, ops, n)
    decreases n - i
  {
    if i < n { SkipNames(marker, objects, p, ops, i + 1, n); }
  }

  /** One action for each operation, at its place. */
  ghost predicate Planned(marker: string, objects: Objects, ops: seq<Operation>, n: nat, plan: Plan) {
    && |plan.actions| == |ops| && n <= |ops|
    && NamesPlanned(marker, objects, ops, n, plan.(actions := plan.actions[..n]))
    && CellsPlanned(marker, objects, ops, n, |ops|, plan.(actions := plan.actions[n..]))
  }

  /** The plan is made if and only if every operation is admissible, for a cell as far as its names are known. */
  lemma PlanAllExact(marker: string, objects: Objects, tick: nat, ops: seq<Operation>, n: nat) returns (known: Plan)
    requires Ordered(ops, n) && forall o :: o in ops ==> OperationValid(marker, o)
    ensures (forall k :: 0 <= k < n ==> Admissible(marker, objects, ops[k])) ==> NamesPlanned(marker, objects, ops, n, known)
    ensures PlanAll(marker, objects, tick, ops).Some? <==>
              && (forall k :: 0 <= k < n ==> Admissible(marker, objects, ops[k]))
              && forall k :: n <= k < |ops| ==> KnownPairIsOurs(marker, objects, ops[k], known.sgts, known.sgacls)
    ensures var plan := PlanAll(marker, objects, tick, ops);
            plan.Some? ==> Planned(marker, objects, ops, n, plan.value) && plan.value.sgts == known.sgts && plan.value.sgacls == known.sgacls
  {
    known := Plan([], map[], map[], tick);
    PlanNamedAllExact(marker, objects, known, ops, 0, n);
    var named := PlanNamedAll(marker, objects, known, ops, 0);
    if named.Some? {
      known := named.value;
      var from := known.(actions := []);
      SkipNames(marker, objects, from, ops, 0, n);
      PlanCellAllExact(marker, objects, from, ops, n, n);
      var cells := PlanCellAll(marker, objects, from, ops, n);
      if cells.Some? {
        var plan := PlanAll(marker, objects, tick, ops).value;
        assert plan.actions[..n] == known.actions && plan.actions[n..] == cells.value.actions;
      }
    }
  }
}
