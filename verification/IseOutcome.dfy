/** Where a served ISE transaction leads: it goes through exactly when it may, and puts the manifest in force. */
module IseOutcome {
  import opened Basics
  import opened Ordering
  import opened IseObjects
  import opened IseServer
  import opened IseOperations
  import opened IsePlan
  import opened IseSmooth
  import opened IsePolicy

  // ----- The objects during a run -----

  /** An id that the node gave before this request. */
  ghost predicate Issued(script: Script, tick: nat, id: Id) {
    exists t: nat {:trigger script(t)} :: t < tick && id == script(t).newId
  }

  ghost predicate Keyed(results: seq<(Action, Id)>, r: Resource, probe: Obj) {
    exists j :: 0 <= j < |results| && !results[j].0.Deferred? && ActionKey(results[j].0) == (r, probe)
  }

  /** What no action is about is as it was. */
  ghost predicate Elsewhere(origin: Objects, now: Objects, results: seq<(Action, Id)>, k: Key) {
    && (k in origin && !Keyed(results, k.0, LookupOf(k.0, origin[k])) ==> k in now && now[k] == origin[k])
    && (k in now && !Keyed(results, k.0, LookupOf(k.0, now[k])) ==> k in origin && now[k] == origin[k])
  }

  function KeyOf(x: (Action, Id)): Option<Key> {
    if x.0.Deferred? then None else Some((x.0.resource, x.1))
  }

  /** The object is the result's, and holds exactly what was sent. */
  ghost predicate Wrote(now: Objects, x: (Action, Id), k: Key) {
    KeyOf(x) == Some(k) && k in now && now[k] == Mutable(k.0, x.0.desired)
  }

  /** Only objects of the results have changed. */
  ghost predicate Spared(origin: Objects, now: Objects, results: seq<(Action, Id)>, k: Key) {
    Same(origin, now, k) || exists j :: 0 <= j < |results| && Wrote(now, results[j], k)
  }

  /** An existing object keeps its id, a new one has one that the node gave. */
  ghost predicate Kept(script: Script, tick: nat, x: (Action, Id)) {
    (x.0.Noop? || x.0.Update? ==> x.1 == x.0.id) && (x.0.Create? ==> Issued(script, tick, x.1))
  }

  ghost predicate Sound(script: Script, origin: Objects, results: seq<(Action, Id)>, now: Objects, tick: nat) {
    && AllConfirmedIn(now, results) && DistinctLookups(results)
    && (forall j :: 0 <= j < |results| ==> Kept(script, tick, results[j]))
    && (forall k :: Elsewhere(origin, now, results, k)) && (forall k :: Spared(origin, now, results, k))
    && (forall k :: k in now && k !in origin ==> Issued(script, tick, k.1))
  }

  lemma ActionEffect(script: Script, marker: string, n: Node, a: Action, m: Node, id: Id)
    requires !a.Deferred? && ActionValid(marker, a) && ActionRun(script, n, a) == Some((m, id))
    ensures OnlyAt(n.objects, m.objects, a, id) && ConfirmedIn(m.objects, a, id) && Kept(script, m.tick, (a, id))
    ensures forall k :: k in m.objects && k !in n.objects ==> Issued(script, m.tick, k.1)
    ensures m.tick > n.tick && (m.objects == n.objects || Wrote(m.objects, (a, id), (a.resource, id)))
  {
    ComparableOfMutable(a.resource, a.desired);
    if a.Create? {
      assert Issued(script, m.tick, script(n.tick + 1).newId);
    } else {
      var was := n.objects[(a.resource, a.id)];
      if a.Update? { OwnedIsComparable(marker, a.resource, was, a.snapshot); }
      else { OwnedIsComparable(marker, a.resource, was, a.desired); }
    }
  }

  lemma IssuedStays(script: Script, tick: nat, later: nat, id: Id)
    requires tick <= later
    ensures Issued(script, tick, id) ==> Issued(script, later, id)
  {
  }

  lemma ElsewhereStays(origin: Objects, was: Objects, now: Objects, results: seq<(Action, Id)>, a: Action, id: Id, k: Key)
    requires !a.Deferred? && OnlyAt(was, now, a, id) && ConfirmedIn(now, a, id) && Elsewhere(origin, was, results, k)
    ensures Elsewhere(origin, now, results + [(a, id)], k)
  {
    var all := results + [(a, id)];
    assert all[|results|] == (a, id);
    forall r, probe | Keyed(results, r, probe) ensures Keyed(all, r, probe) {
      var j :| 0 <= j < |results| && !results[j].0.Deferred? && ActionKey(results[j].0) == (r, probe);
      assert all[j] == results[j];
    }
    assert Keyed(all, a.resource, LookupOf(a.resource, a.desired));
    if k == (a.resource, id) {
      ComparableOfMutable(a.resource, now[k]);
      ComparableOfMutable(a.resource, a.desired);
      assert LookupOf(a.resource, now[k]) == LookupOf(a.resource, a.desired);
    } else {
      assert Same(was, now, k);
    }
  }

  lemma SparedStays(origin: Objects, was: Objects, now: Objects, results: seq<(Action, Id)>, a: Action, id: Id, k: Key)
    requires !a.Deferred? && OnlyAt(was, now, a, id) && (now == was || Wrote(now, (a, id), (a.resource, id)))
    requires Spared(origin, was, results, k)
    ensures Spared(origin, now, results + [(a, id)], k)
  {
    var all := results + [(a, id)];
    assert all[|results|] == (a, id);
    if k != (a.resource, id) || now == was {
      assert Same(was, now, k);
      if !Same(origin, now, k) {
        var j :| 0 <= j < |results| && Wrote(was, results[j], k);
        assert all[j] == results[j] && Wrote(now, all[j], k);
      }
    } else {
      assert Wrote(now, all[|results|], k);
    }
  }

  lemma SoundStep(script: Script, marker: string, origin: Objects, results: seq<(Action, Id)>, tick: nat, n: Node, a: Action, m: Node, id: Id)
    requires Sound(script, origin, results, n.objects, tick) && tick <= n.tick
    requires !a.Deferred? && ActionValid(marker, a) && ActionRun(script, n, a) == Some((m, id))
    requires !Keyed(results, a.resource, LookupOf(a.resource, a.desired))
    ensures Sound(script, origin, results + [(a, id)], m.objects, m.tick)
  {
    var all := results + [(a, id)];
    ActionEffect(script, marker, n, a, m, id);
    assert DistinctLookups(all) by {
      assert forall j :: 0 <= j < |results| ==> all[j] == results[j];
    }
    ConfirmedStay(marker, n.objects, m.objects, results, a, id);
    forall k ensures Elsewhere(origin, m.objects, all, k) { ElsewhereStays(origin, n.objects, m.objects, results, a, id, k); }
    forall k ensures Spared(origin, m.objects, all, k) {
      SparedStays(origin, n.objects, m.objects, results, a, id, k);
    }
    forall x ensures Issued(script, tick, x) ==> Issued(script, m.tick, x) { IssuedStays(script, tick, m.tick, x); }
    forall j | 0 <= j < |all| ensures Kept(script, m.tick, all[j]) {
      assert j < |results| ==> all[j] == results[j] && Kept(script, tick, results[j]);
    }
  }

  // ----- When an action goes through -----

  /** No object has the id, and no cell refers to it. */
  ghost predicate Unknown(objects: Objects, id: Id) {
    forall k :: k in objects ==>
      && k.1 != id
      && !(SourceSgtId in objects[k] && objects[k][SourceSgtId] == Text(id))
      && !(DestinationSgtId in objects[k] && objects[k][DestinationSgtId] == Text(id))
  }

  /** The node gives each new object an id of its own. */
  ghost predicate IdsAreNew(script: Script, origin: Objects) {
    && (forall t: nat, u: nat {:trigger script(t), script(u)} :: t < u ==> script(t).newId != script(u).newId)
    && forall t: nat {:trigger script(t)} :: Unknown(origin, script(t).newId)
  }

  /** A lookup that no action was about finds what it would have found at first. */
  lemma LookupStands(origin: Objects, now: Objects, results: seq<(Action, Id)>, r: Resource, probe: Obj)
    requires (forall k :: Elsewhere(origin, now, results, k)) && !Keyed(results, r, probe)
    ensures forall k :: Matches(now, r, probe, k) <==> Matches(origin, r, probe, k)
    ensures forall k :: Matches(now, r, probe, k) ==> k in origin && now[k] == origin[k]
    ensures Hits(now, r, probe) == Hits(origin, r, probe)
  {
    forall k ensures Matches(now, r, probe, k) <==> Matches(origin, r, probe, k)
      ensures Matches(now, r, probe, k) ==> k in origin && now[k] == origin[k]
    {
      assert Elsewhere(origin, now, results, k);
    }
  }

  /** What was classified at first still is so. */
  lemma ClassifiesStill(origin: Objects, marker: string, now: Objects, results: seq<(Action, Id)>, a: Action)
    requires !a.Deferred? && Classifies(origin, marker, a) && !Keyed(results, a.resource, LookupOf(a.resource, a.desired))
    requires forall k :: Elsewhere(origin, now, results, k)
    ensures Classifies(now, marker, a)
  {
    LookupStands(origin, now, results, a.resource, LookupOf(a.resource, a.desired));
  }

  lemma ActionGoes(script: Script, marker: string, origin: Objects, tick: nat, n: Node, a: Action)
    requires !a.Deferred? && ActionValid(marker, a) && Classifies(n.objects, marker, a)
    requires IdsAreNew(script, origin) && tick <= n.tick && forall k :: k in n.objects && k !in origin ==> Issued(script, tick, k.1)
    ensures ActionRun(script, n, a).Some?
  {
    if a.Create? {
      var hits := Hits(n.objects, a.resource, LookupOf(a.resource, a.desired));
      assert hits == {};
      var k := (a.resource, script(n.tick + 1).newId);
      assert Unknown(origin, k.1);
    }
  }

  // ----- The groups and ACLs -----

  /** The action was carried out on the object of that name. */
  ghost predicate Under(x: (Action, Id), r: Resource, name: string, id: Id) {
    !x.0.Deferred? && x.0.resource == r && HasName(x.0) && NameOf(x.0) == name && x.1 == id
  }

  ghost predicate RecordedBy(results: seq<(Action, Id)>, ids: map<string, Id>, r: Resource) {
    forall name :: name in ids ==> exists k :: 0 <= k < |results| && Under(results[k], r, name, ids[name])
  }

  ghost predicate RecordedIn(a: Action, sgts: map<string, Id>, sgacls: map<string, Id>) {
    HasName(a) ==> NameOf(a) in (if a.resource == Sgt then sgts else sgacls)
  }

  ghost predicate NamesCarried(script: Script, origin: Objects, actions: seq<Action>, i: nat, r: Run) {
    && i <= |actions| && |r.results| == i && (forall k :: 0 <= k < i ==> r.results[k].0 == actions[k])
    && Sound(script, origin, r.results, r.node.objects, r.node.tick)
    && RecordedBy(r.results, r.sgts, Sgt) && RecordedBy(r.results, r.sgacls, Sgacl)
    && forall k :: 0 <= k < i ==> RecordedIn(actions[k], r.sgts, r.sgacls)
  }

  /** The first `n` actions are those of the first `n` operations, all named. */
  ghost predicate NamesFirst(marker: string, origin: Objects, actions: seq<Action>, ops: seq<Operation>, n: nat) {
    && n <= |actions| == |ops| && Ordered(ops, n) && NamesUnique(ops)
    && (forall k :: 0 <= k < n ==> NamedFor(marker, origin, actions[k], ops[k]))
    && forall k :: n <= k < |actions| ==> !IsNamed(actions[k])
  }

  lemma NewName(marker: string, origin: Objects, actions: seq<Action>, ops: seq<Operation>, n: nat, i: nat, results: seq<(Action, Id)>)
    requires NamesFirst(marker, origin, actions, ops, n) && i < n && |results| == i && forall k :: 0 <= k < i ==> results[k].0 == actions[k]
    ensures !Keyed(results, actions[i].resource, LookupOf(actions[i].resource, actions[i].desired))
  {
    forall j | 0 <= j < i ensures ActionKey(results[j].0) != ActionKey(actions[i]) {
      assert NamedFor(marker, origin, actions[j], ops[j]) && NamedFor(marker, origin, actions[i], ops[i]);
      NamesMakeKeys(actions[j], actions[i]);
    }
  }

  lemma RecordedOn(results: seq<(Action, Id)>, ids: map<string, Id>, r: Resource, a: Action, id: Id)
    requires !a.Deferred? && HasName(a) && RecordedBy(results, ids, r)
    ensures RecordedBy(results + [(a, id)], if a.resource == r then ids[NameOf(a) := id] else ids, r)
  {
    var all, later := results + [(a, id)], if a.resource == r then ids[NameOf(a) := id] else ids;
    forall name | name in later ensures exists k :: 0 <= k < |all| && Under(all[k], r, name, later[name]) {
      if a.resource == r && name == NameOf(a) {
        assert Under(all[|results|], r, name, id);
      } else {
        var k :| 0 <= k < |results| && Under(results[k], r, name, ids[name]);
        assert Under(all[k], r, name, ids[name]);
      }
    }
  }

  lemma NamedRunExact(script: Script, marker: string, origin: Objects, actions: seq<Action>, ops: seq<Operation>, n: nat, i: nat, r: Run)
    requires NamesFirst(marker, origin, actions, ops, n) && i < n && NamesCarried(script, origin, actions, i, r)
    requires IsNamed(actions[i]) && HasName(actions[i])
    ensures var next := NamedRun(script, r, actions[i]);
            && (IdsAreNew(script, origin) ==> next.Some?)
            && (next.Some? ==> NamesCarried(script, origin, actions, i + 1, next.value))
  {
    var a := actions[i];
    assert NamedFor(marker, origin, a, ops[i]);
    NewName(marker, origin, actions, ops, n, i, r.results);
    ClassifiesStill(origin, marker, r.node.objects, r.results, a);
    if IdsAreNew(script, origin) { ActionGoes(script, marker, origin, r.node.tick, r.node, a); }
    var step := ActionRun(script, r.node, a);
    if step.Some? {
      var (m, id) := step.value;
      SoundStep(script, marker, origin, r.results, r.node.tick, r.node, a, m, id);
      NamesCarriedOn(script, origin, actions, i, r, m, id);
    }
  }

  lemma NamesCarriedOn(script: Script, origin: Objects, actions: seq<Action>, i: nat, r: Run, m: Node, id: Id)
    requires i < |actions| && NamesCarried(script, origin, actions, i, r) && IsNamed(actions[i]) && HasName(actions[i])
    requires actions[i].resource == Sgt || actions[i].resource == Sgacl
    requires Sound(script, origin, r.results + [(actions[i], id)], m.objects, m.tick)
    ensures var a := actions[i];
            NamesCarried(script, origin, actions, i + 1, Run(m, r.results + [(a, id)], Recorded(r.sgts, a, id), RecordedAcl(r.sgacls, a, id)))
  {
    var a := actions[i];
    RecordedOn(r.results, r.sgts, Sgt, a, id);
    RecordedOn(r.results, r.sgacls, Sgacl, a, id);
    forall k | 0 <= k <= i ensures RecordedIn(actions[k], Recorded(r.sgts, a, id), RecordedAcl(r.sgacls, a, id)) {
      assert k < i ==> RecordedIn(actions[k], r.sgts, r.sgacls);
    }
  }

  lemma {:induction false} NamedRunAllExact(script: Script, marker: string, origin: Objects, actions: seq<Action>, ops: seq<Operation>, n: nat, i: nat, r: Run)
    requires NamesFirst(marker, origin, actions, ops, n) && i <= n && NamesCarried(script, origin, actions, i, r)
    requires forall k :: 0 <= k < |actions| && IsNamed(actions[k]) ==> HasName(actions[k])
    ensures var last := NamedRunAll(script, r, actions, i);
            && (IdsAreNew(script, origin) ==> last.Some?)
            && (last.Some? ==> NamesCarried(script, origin, actions, n, last.value))
    decreases n - i
  {
    if i == n {
      CellsWait(script, r, actions, i);
    } else {
      assert NamedFor(marker, origin, actions[i], ops[i]);
      NamedRunExact(script, marker, origin, actions, ops, n, i, r);
      var next := NamedRun(script, r, actions[i]);
      if next.Some? { NamedRunAllExact(script, marker, origin, actions, ops, n, i + 1, next.value); }
    }
  }

  lemma {:induction false} CellsWait(script: Script, r: Run, actions: seq<Action>, i: nat)
    requires i <= |actions| && forall k :: i <= k < |actions| ==> !IsNamed(actions[k])
    requires forall k :: 0 <= k < |actions| && IsNamed(actions[k]) ==> HasName(actions[k])
    ensures NamedRunAll(script, r, actions, i) == Some(r)
    decreases |actions| - i
  {
    if i < |actions| { CellsWait(script, r, actions, i + 1); }
  }

  // ----- The cells -----

  /** What the plan knew is what the run recorded. */
  ghost predicate Extends(known: map<string, Id>, ids: map<string, Id>) {
    forall name :: name in known ==> name in ids && ids[name] == known[name]
  }

  lemma SameNameSameAction(marker: string, origin: Objects, actions: seq<Action>, ops: seq<Operation>, n: nat, j: nat, k: nat)
    requires NamesFirst(marker, origin, actions, ops, n) && j < n && k < n
    requires !actions[j].Deferred? && !actions[k].Deferred? && actions[j].resource == actions[k].resource
    requires HasName(actions[j]) && HasName(actions[k]) && NameOf(actions[j]) == NameOf(actions[k])
    ensures j == k
  {
    assert NamedFor(marker, origin, actions[j], ops[j]) && NamedFor(marker, origin, actions[k], ops[k]);
  }

  lemma KnownIsRecorded(script: Script, marker: string, origin: Objects, actions: seq<Action>, ops: seq<Operation>, n: nat, r: Run,
                        named: seq<Action>, known: map<string, Id>, ids: map<string, Id>, q: Resource)
    requires NamesFirst(marker, origin, actions, ops, n) && NamesCarried(script, origin, actions, n, r) && named == actions[..n]
    requires KnownBy(named, known, q) && q != Cell && ids == if q == Sgt then r.sgts else r.sgacls
    ensures Extends(known, ids)
  {
    forall name | name in known ensures name in ids && ids[name] == known[name] {
      var k :| 0 <= k < |named| && Finds(named[k], q, name, known[name]);
      hide NamesFirst, RecordedBy, Sound;
      assert RecordedIn(actions[k], r.sgts, r.sgacls);
      RecordedUnderFound(script, marker, origin, actions, ops, n, r, k, name, ids, q);
    }
  }

  /** What the run recorded for a name that was found is the found object. */
  lemma RecordedUnderFound(script: Script, marker: string, origin: Objects, actions: seq<Action>, ops: seq<Operation>, n: nat, r: Run,
                           k: nat, name: string, ids: map<string, Id>, q: Resource)
    requires NamesFirst(marker, origin, actions, ops, n) && NamesCarried(script, origin, actions, n, r) && k < n
    requires (actions[k].Noop? || actions[k].Update?) && Finds(actions[k], q, name, actions[k].id)
    requires q != Cell && ids == (if q == Sgt then r.sgts else r.sgacls) && name in ids
    ensures ids[name] == actions[k].id
  {
    hide NamesFirst, Elsewhere, Spared, ConfirmedIn, DistinctLookups;
    assert RecordedBy(r.results, ids, q);
    var j :| 0 <= j < n && Under(r.results[j], q, name, ids[name]);
    assert r.results[j].0 == actions[j] && Kept(script, r.node.tick, r.results[j]);
    SameNameSameAction(marker, origin, actions, ops, n, j, k);
  }

  lemma RecordedAreExact(script: Script, origin: Objects, actions: seq<Action>, n: nat, r: Run)
    requires NamesCarried(script, origin, actions, n, r)
    ensures GroupIds(r.sgts, map[])
  {
    forall name | name in r.sgts ensures NamedSo(r.node.objects, (Sgt, r.sgts[name]), name) {
      var k :| 0 <= k < n && Under(r.results[k], Sgt, name, r.sgts[name]);
      UnderBears(r.node.objects, r.results, k, Sgt, name, r.sgts[name]);
    }
    forall a, b | a in r.sgts && b in r.sgts && r.sgts[a] == r.sgts[b] ensures a == b {
      assert NamedSo(r.node.objects, (Sgt, r.sgts[a]), a) && NamedSo(r.node.objects, (Sgt, r.sgts[b]), b);
    }
  }

  /** The object of a confirmed result bears its name. */
  lemma UnderBears(now: Objects, results: seq<(Action, Id)>, k: nat, r: Resource, name: string, id: Id)
    requires AllConfirmedIn(now, results) && k < |results| && r != Cell && Under(results[k], r, name, id)
    ensures Bears(now, (r, id), r, name)
  {
    assert ConfirmedIn(now, results[k].0, id);
    AgreesOn(r, now[(r, id)], results[k].0.desired, Name);
  }

  lemma AgreesOn(r: Resource, a: Obj, b: Obj, f: Field)
    requires Comparable(r, a) == Comparable(r, b) && f in CompareFields(r)
    ensures Agrees(a, b, f)
  {
    assert f in a <==> f in Comparable(r, a);
    assert f in b <==> f in Comparable(r, b);
    assert f in a ==> a[f] == Comparable(r, a)[f];
    assert f in b ==> b[f] == Comparable(r, b)[f];
  }

  /** Up to action `i` the cells are carried out, between the groups and with the ACLs that were recorded. */
  ghost predicate CellsCarried(script: Script, marker: string, origin: Objects, actions: seq<Action>, ops: seq<Operation>, n: nat, i: nat, r: Run) {
    && n <= i <= |ops| == |actions| && |r.results| == i && (forall k :: 0 <= k < n ==> r.results[k].0 == actions[k])
    && Sound(script, origin, r.results, r.node.objects, r.node.tick)
    && RecordedBy(r.results, r.sgts, Sgt) && RecordedBy(r.results, r.sgacls, Sgacl)
    && forall k :: n <= k < i ==> CellFits(marker, r.results[k].0, ops[k], r.sgts, r.sgacls)
  }

  lemma NewCell(script: Script, marker: string, origin: Objects, actions: seq<Action>, ops: seq<Operation>, n: nat, i: nat, r: Run, probe: Obj)
    requires CellsCarried(script, marker, origin, actions, ops, n, i, r) && i < |ops| && ops[i].CellFor? && Resolvable(r.sgts, r.sgacls, ops[i])
    requires NamesFirst(marker, origin, actions, ops, n) && CellPairsDistinct(ops) && GroupIds(r.sgts, map[])
    requires probe == LookupOf(Cell, CellDesired(ops[i].desired, r.sgts[ops[i].source], r.sgts[ops[i].destination], IdsOf(r.sgacls, ops[i].refs)))
    ensures !Keyed(r.results, Cell, probe)
  {
    var p := (ops[i].source, ops[i].destination);
    CellDesiredKey(ops[i].desired, r.sgts, p, IdsOf(r.sgacls, ops[i].refs));
    forall j | 0 <= j < i && !r.results[j].0.Deferred? ensures ActionKey(r.results[j].0) != (Cell, probe) {
      if j < n {
        assert NamedFor(marker, origin, actions[j], ops[j]);
      } else {
        var o := ops[j];
        assert CellFits(marker, r.results[j].0, o, r.sgts, r.sgacls) && PairsApart(o, ops[i]);
        CellDesiredKey(o.desired, r.sgts, (o.source, o.destination), IdsOf(r.sgacls, o.refs));
        PairsMakeKeys(r.sgts, map[], (o.source, o.destination), p);
      }
    }
  }

  lemma ResolveExact(marker: string, origin: Objects, r: Run, a: Action, o: Operation, sgts: map<string, Id>, sgacls: map<string, Id>)
    requires OperationValid(marker, o) && CellPlanned(marker, origin, a, o, sgts, sgacls)
    requires Extends(sgts, r.sgts) && Extends(sgacls, r.sgacls) && Resolvable(r.sgts, r.sgacls, o)
    ensures var found := Resolve(marker, r, a);
            && (found.Some? <==> (a.Deferred? ==> PairIsOurs(marker, r.node.objects, r.sgts[o.source], r.sgts[o.destination])))
            && (found.Some? ==> CellFits(marker, found.value.0, o, r.sgts, r.sgacls) && found.value.1 >= r.node.tick)
            && (found.Some? ==> if a.Deferred? then Classifies(r.node.objects, marker, found.value.0) else found.value.0 == a && Classifies(origin, marker, a))
  {
    if a.Deferred? {
      CellClassified(marker, r.node.objects, o, r.sgts, r.sgacls);
    } else {
      assert IdsOf(sgacls, o.refs) == IdsOf(r.sgacls, o.refs);
    }
  }

  /** Cells that no action was about are as they were. */
  lemma PairStands(script: Script, tick: nat, marker: string, origin: Objects, now: Objects, results: seq<(Action, Id)>, desired: Obj, s: Id, d: Id, acls: seq<Id>)
    requires Sound(script, origin, results, now, tick)
    requires !Keyed(results, Cell, LookupOf(Cell, CellDesired(desired, s, d, acls)))
    ensures PairIsOurs(marker, now, s, d) <==> PairIsOurs(marker, origin, s, d)
  {
    var probe := LookupOf(Cell, CellDesired(desired, s, d, acls));
    LookupStands(origin, now, results, Cell, probe);
    forall k ensures Joins(now, k, s, d) <==> Joins(origin, k, s, d) ensures Joins(now, k, s, d) ==> now[k] == origin[k] {
      CellHits(origin, desired, s, d, acls, k);
      CellHits(now, desired, s, d, acls, k);
      assert Matches(now, Cell, probe, k) <==> Matches(origin, Cell, probe, k);
    }
  }

  /** If the cell had to wait for its groups or ACLs, it is ours now that they are there. */
  ghost predicate Settled(marker: string, origin: Objects, a: Action, o: Operation, sgts: map<string, Id>) {
    a.Deferred? && o.CellFor? && o.source in sgts && o.destination in sgts ==> PairIsOurs(marker, origin, sgts[o.source], sgts[o.destination])
  }

  /** The plan's cells, against the ids that the run recorded. */
  ghost predicate CellsReady(marker: string, origin: Objects, actions: seq<Action>, ops: seq<Operation>, n: nat, p: Plan,
                             sgts: map<string, Id>, sgacls: map<string, Id>)
  {
    && |actions| == |ops| && Extends(p.sgts, sgts) && Extends(p.sgacls, sgacls) && GroupIds(sgts, map[])
    && forall k :: n <= k < |ops| ==> CellReady(marker, origin, actions[k], ops[k], p, sgts, sgacls)
  }

  ghost predicate CellReady(marker: string, origin: Objects, a: Action, o: Operation, p: Plan, sgts: map<string, Id>, sgacls: map<string, Id>) {
    OperationValid(marker, o) && CellPlanned(marker, origin, a, o, p.sgts, p.sgacls) && Resolvable(sgts, sgacls, o)
  }

  lemma CellRunExact(script: Script, marker: string, origin: Objects, actions: seq<Action>, ops: seq<Operation>, n: nat, i: nat, r: Run, p: Plan)
    requires CellsCarried(script, marker, origin, actions, ops, n, i, r) && i < |ops| && NamesFirst(marker, origin, actions, ops, n)
    requires CellPairsDistinct(ops) && CellsReady(marker, origin, actions, ops, n, p, r.sgts, r.sgacls)
    ensures var next := CellRun(script, marker, r, actions[i]);
            && (IdsAreNew(script, origin) && Settled(marker, origin, actions[i], ops[i], r.sgts) ==> next.Some?)
            && (next.Some? ==> Settled(marker, origin, actions[i], ops[i], r.sgts))
            && (next.Some? ==> CellsCarried(script, marker, origin, actions, ops, n, i + 1, next.value))
  {
    hide RecordedBy, Sound, ActionRun;
    var o := ops[i];
    assert CellReady(marker, origin, actions[i], o, p, r.sgts, r.sgacls);
    var s, d, acls := r.sgts[o.source], r.sgts[o.destination], IdsOf(r.sgacls, o.refs);
    NewCell(script, marker, origin, actions, ops, n, i, r, LookupOf(Cell, CellDesired(o.desired, s, d, acls)));
    PairStands(script, r.node.tick, marker, origin, r.node.objects, r.results, o.desired, s, d, acls);
    ResolveExact(marker, origin, r, actions[i], o, p.sgts, p.sgacls);
    var found := Resolve(marker, r, actions[i]);
    if found.Some? { CellCarriedOn(script, marker, origin, actions, ops, n, i, r, found.value.0, found.value.1); }
  }

  /** The classified action goes through on a node that gives new ids, and keeps everything sound. */
  lemma CellCarriedOn(script: Script, marker: string, origin: Objects, actions: seq<Action>, ops: seq<Operation>, n: nat, i: nat, r: Run, a: Action, tick: nat)
    requires CellsCarried(script, marker, origin, actions, ops, n, i, r) && i < |ops| && tick >= r.node.tick
    requires CellFits(marker, a, ops[i], r.sgts, r.sgacls) && !Keyed(r.results, Cell, LookupOf(Cell, a.desired))
    requires Classifies(r.node.objects, marker, a) || Classifies(origin, marker, a)
    ensures var step := ActionRun(script, r.node.(tick := tick), a);
            && (IdsAreNew(script, origin) ==> step.Some?)
            && (step.Some? ==>
                  CellsCarried(script, marker, origin, actions, ops, n, i + 1, r.(node := step.value.0, results := r.results + [(a, step.value.1)])))
  {
    hide RecordedBy, Elsewhere, Spared, Kept;
    var node := r.node.(tick := tick);
    if Classifies(origin, marker, a) { ClassifiesStill(origin, marker, r.node.objects, r.results, a); }
    if IdsAreNew(script, origin) { ActionGoes(script, marker, origin, r.node.tick, node, a); }
    var step := ActionRun(script, node, a);
    if step.Some? {
      SoundStep(script, marker, origin, r.results, r.node.tick, node, a, step.value.0, step.value.1);
      OneCellMore(script, marker, origin, actions, ops, n, i, r, a, step.value.0, step.value.1);
    }
  }

  lemma OneCellMore(script: Script, marker: string, origin: Objects, actions: seq<Action>, ops: seq<Operation>, n: nat, i: nat, r: Run, a: Action, m: Node, id: Id)
    requires CellsCarried(script, marker, origin, actions, ops, n, i, r) && i < |ops| && CellFits(marker, a, ops[i], r.sgts, r.sgacls)
    requires Sound(script, origin, r.results + [(a, id)], m.objects, m.tick)
    ensures CellsCarried(script, marker, origin, actions, ops, n, i + 1, r.(node := m, results := r.results + [(a, id)]))
  {
    hide RecordedBy, Sound, CellFits;
    RecordedStays(r.results, r.sgts, Sgt, (a, id));
    RecordedStays(r.results, r.sgacls, Sgacl, (a, id));
  }

  lemma RecordedStays(results: seq<(Action, Id)>, ids: map<string, Id>, r: Resource, x: (Action, Id))
    requires RecordedBy(results, ids, r)
    ensures RecordedBy(results + [x], ids, r)
  {
    var all := results + [x];
    forall name | name in ids ensures exists k :: 0 <= k < |all| && Under(all[k], r, name, ids[name]) {
      var k :| 0 <= k < |results| && Under(results[k], r, name, ids[name]);
      assert Under(all[k], r, name, ids[name]);
    }
  }

  lemma {:induction false} CellRunAllExact(script: Script, marker: string, origin: Objects, actions: seq<Action>, ops: seq<Operation>, n: nat, i: nat,
                                           r: Run, p: Plan)
    requires CellsCarried(script, marker, origin, actions, ops, n, i, r) && NamesFirst(marker, origin, actions, ops, n)
    requires CellPairsDistinct(ops) && CellsReady(marker, origin, actions, ops, n, p, r.sgts, r.sgacls)
    ensures var last := CellRunAll(script, marker, r, actions, i);
            && (IdsAreNew(script, origin) && (forall k :: i <= k < |ops| ==> Settled(marker, origin, actions[k], ops[k], r.sgts)) ==> last.Some?)
            && (last.Some? ==> forall k :: i <= k < |ops| ==> Settled(marker, origin, actions[k], ops[k], r.sgts))
            && (last.Some? ==>
                  && CellsCarried(script, marker, origin, actions, ops, n, |ops|, last.value)
                  && last.value.sgts == r.sgts && last.value.sgacls == r.sgacls)
    decreases |ops| - i
  {
    hide RecordedBy, Sound, CellRun, Settled, CellFits;
    if i < |ops| {
      CellRunExact(script, marker, origin, actions, ops, n, i, r, p);
      var next := CellRun(script, marker, r, actions[i]);
      if next.Some? { CellRunAllExact(script, marker, origin, actions, ops, n, i + 1, next.value, p); }
    }
  }

  lemma {:induction false} NamesAreDone(script: Script, marker: string, r: Run, actions: seq<Action>, i: nat, n: nat)
    requires i <= n <= |actions| && forall k :: 0 <= k < n ==> IsNamed(actions[k])
    ensures CellRunAll(script, marker, r, actions, i) == CellRunAll(script, marker, r, actions, n)
    decreases n - i
  {
    if i < n { NamesAreDone(script, marker, r, actions, i + 1, n); }
  }

  // ----- The whole transaction -----

  ghost predicate Manifest(marker: string, ops: seq<Operation>, n: nat) {
    && Ordered(ops, n) && (forall o :: o in ops ==> OperationValid(marker, o))
    && NamesUnique(ops) && CellsBound(ops) && CellPairsDistinct(ops)
  }

  lemma PlanLaidOut(marker: string, origin: Objects, ops: seq<Operation>, n: nat, plan: Plan)
    requires Manifest(marker, ops, n) && Planned(marker, origin, ops, n, plan)
    ensures NamesFirst(marker, origin, plan.actions, ops, n)
    ensures forall k :: 0 <= k < n ==> IsNamed(plan.actions[k]) && HasName(plan.actions[k])
  {
    var named, cells := plan.(actions := plan.actions[..n]), plan.(actions := plan.actions[n..]);
    forall k | 0 <= k < n ensures NamedFor(marker, origin, plan.actions[k], ops[k]) {
      assert NamedFor(marker, origin, named.actions[k], ops[k]);
    }
    forall k | n <= k < |ops| ensures !IsNamed(plan.actions[k]) {
      assert CellPlanned(marker, origin, cells.actions[k - n], ops[k], plan.sgts, plan.sgacls);
    }
  }

  lemma NamesAreRecorded(script: Script, marker: string, origin: Objects, actions: seq<Action>, ops: seq<Operation>, n: nat, r: Run)
    requires NamesFirst(marker, origin, actions, ops, n) && NamesCarried(script, origin, actions, n, r)
    ensures forall q, name :: Names(ops, q, name) && q != Cell ==> name in (if q == Sgt then r.sgts else r.sgacls)
  {
    forall q, name | Names(ops, q, name) && q != Cell ensures name in (if q == Sgt then r.sgts else r.sgacls) {
      var o :| o in ops && o.Named? && o.resource == q && o.name == name;
      var k :| 0 <= k < |ops| && ops[k] == o;
      assert NamedFor(marker, origin, actions[k], ops[k]) && RecordedIn(actions[k], r.sgts, r.sgacls);
    }
  }

  /** Every name that a cell refers to was recorded. */
  lemma CellsAreReady(script: Script, marker: string, origin: Objects, ops: seq<Operation>, n: nat, plan: Plan, r: Run)
    requires Manifest(marker, ops, n) && Planned(marker, origin, ops, n, plan) && NamesCarried(script, origin, plan.actions, n, r)
    ensures CellsReady(marker, origin, plan.actions, ops, n, plan, r.sgts, r.sgacls)
  {
    PlanLaidOut(marker, origin, ops, n, plan);
    KnownIsRecorded(script, marker, origin, plan.actions, ops, n, r, plan.actions[..n], plan.sgts, r.sgts, Sgt);
    KnownIsRecorded(script, marker, origin, plan.actions, ops, n, r, plan.actions[..n], plan.sgacls, r.sgacls, Sgacl);
    RecordedAreExact(script, origin, plan.actions, n, r);
    NamesAreRecorded(script, marker, origin, plan.actions, ops, n, r);
    forall k | n <= k < |ops| ensures CellReady(marker, origin, plan.actions[k], ops[k], plan, r.sgts, r.sgacls) {
      assert plan.actions[n..][k - n] == plan.actions[k] && ops[k] in ops;
    }
  }

  lemma NothingDoneYet(script: Script, origin: Objects, start: nat, actions: seq<Action>)
    ensures NamesCarried(script, origin, actions, 0, Run(Node(origin, start, []), [], map[], map[]))
  {
    forall k ensures Elsewhere(origin, origin, [], k) && Spared(origin, origin, [], k) {}
  }

  lemma RunExact(script: Script, marker: string, origin: Objects, start: nat, ops: seq<Operation>, n: nat, plan: Plan) returns (r: Run)
    requires Manifest(marker, ops, n) && Planned(marker, origin, ops, n, plan)
    requires forall k :: 0 <= k < |plan.actions| && IsNamed(plan.actions[k]) ==> HasName(plan.actions[k])
    ensures IdsAreNew(script, origin) || ApplyRun(script, marker, origin, start, plan.actions).Some? ==> NamesCarried(script, origin, plan.actions, n, r)
    ensures var last := ApplyRun(script, marker, origin, start, plan.actions);
            && (IdsAreNew(script, origin) && (forall k :: n <= k < |ops| ==> Settled(marker, origin, plan.actions[k], ops[k], r.sgts)) ==> last.Some?)
            && (last.Some? ==>
                  && (forall k :: n <= k < |ops| ==> Settled(marker, origin, plan.actions[k], ops[k], r.sgts))
                  && CellsCarried(script, marker, origin, plan.actions, ops, n, |ops|, last.value))
  {
    hide RecordedBy, Sound, CellsReady, CellFits;
    PlanLaidOut(marker, origin, ops, n, plan);
    r := Run(Node(origin, start, []), [], map[], map[]);
    NothingDoneYet(script, origin, start, plan.actions);
    NamedRunAllExact(script, marker, origin, plan.actions, ops, n, 0, r);
    var named := NamedRunAll(script, r, plan.actions, 0);
    if named.Some? {
      r := named.value;
      CellsAreReady(script, marker, origin, ops, n, plan, r);
      NamesAreDone(script, marker, r, plan.actions, 0, n);
      CellRunAllExact(script, marker, origin, plan.actions, ops, n, n, r, plan);
    }
  }

  // ----- In force -----

  lemma NamedIsInForce(marker: string, origin: Objects, now: Objects, x: (Action, Id), o: Operation)
    requires NamedFor(marker, origin, x.0, o) && OperationValid(marker, o) && ConfirmedIn(now, x.0, x.1)
    ensures InForce(now, o, (o.resource, x.1))
  {
    var r, made := o.resource, now[(o.resource, x.1)];
    forall f | f in CompareFields(r) ensures Agrees(made, o.desired, f) { AgreesOn(r, made, o.desired, f); }
  }

  lemma CellIsInForce(marker: string, now: Objects, results: seq<(Action, Id)>, k: nat, o: Operation, sgts: map<string, Id>, sgacls: map<string, Id>)
    requires AllConfirmedIn(now, results) && RecordedBy(results, sgts, Sgt) && RecordedBy(results, sgacls, Sgacl)
    requires k < |results| && CellFits(marker, results[k].0, o, sgts, sgacls)
    ensures InForce(now, o, (Cell, results[k].1))
  {
    var x := results[k];
    var s, d, acls := sgts[o.source], sgts[o.destination], IdsOf(sgacls, o.refs);
    assert ConfirmedIn(now, x.0, x.1);
    var made := now[(Cell, x.1)];
    forall f | f in CompareFields(Cell) ensures Agrees(made, x.0.desired, f) { AgreesOn(Cell, made, x.0.desired, f); }
    RecordedBears(now, results, sgts, Sgt, o.source);
    RecordedBears(now, results, sgts, Sgt, o.destination);
    forall i | 0 <= i < |acls| ensures Bears(now, (Sgacl, acls[i]), Sgacl, o.refs[i]) {
      RecordedBears(now, results, sgacls, Sgacl, o.refs[i]);
    }
    assert CellInForce(now, o, x.1, s, d, acls);
  }

  lemma RecordedBears(now: Objects, results: seq<(Action, Id)>, ids: map<string, Id>, r: Resource, name: string)
    requires AllConfirmedIn(now, results) && RecordedBy(results, ids, r) && name in ids && r != Cell
    ensures Bears(now, (r, ids[name]), r, name)
  {
    var k :| 0 <= k < |results| && Under(results[k], r, name, ids[name]);
    UnderBears(now, results, k, r, name, ids[name]);
  }

  lemma WrittenAsSent(now: Objects, x: (Action, Id), o: Operation, k: Key)
    requires Wrote(now, x, k) && k.0 == x.0.resource
    requires o.Named? ==> k.0 == o.resource && o.resource != Cell && x.0.desired == o.desired
    requires o.CellFor? ==> k.0 == Cell && exists s, d, acls :: x.0.desired == CellDesired(o.desired, s, d, acls)
    ensures AsSent(now, o, k)
  {
  }

  /** Result by result, in working order, each operation is in force; nothing else has changed. */
  lemma ResultsInForce(script: Script, marker: string, origin: Objects, ops: seq<Operation>, n: nat, plan: Plan, r: Run)
    requires Manifest(marker, ops, n) && Planned(marker, origin, ops, n, plan)
    requires CellsCarried(script, marker, origin, plan.actions, ops, n, |ops|, r)
    ensures forall k :: 0 <= k < |ops| ==>
              && !r.results[k].0.Deferred? && r.results[k].0.op == ops[k].op
              && InForce(r.node.objects, ops[k], (r.results[k].0.resource, r.results[k].1))
    ensures forall k :: Spared(origin, r.node.objects, r.results, k)
    ensures forall k, j :: 0 <= j < |ops| && Wrote(r.node.objects, r.results[j], k) ==> InForce(r.node.objects, ops[j], k) && AsSent(r.node.objects, ops[j], k)
  {
    PlanLaidOut(marker, origin, ops, n, plan);
    forall k | 0 <= k < |ops| ensures !r.results[k].0.Deferred? && r.results[k].0.op == ops[k].op
      ensures InForce(r.node.objects, ops[k], (r.results[k].0.resource, r.results[k].1))
    {
      assert ops[k] in ops;
      if k < n {
        assert NamedFor(marker, origin, plan.actions[k], ops[k]);
        NamedIsInForce(marker, origin, r.node.objects, r.results[k], ops[k]);
      } else {
        CellIsInForce(marker, r.node.objects, r.results, k, ops[k], r.sgts, r.sgacls);
      }
    }
    forall k, j | 0 <= j < |ops| && Wrote(r.node.objects, r.results[j], k) ensures AsSent(r.node.objects, ops[j], k) {
      assert ops[j] in ops;
      if j < n {
        assert NamedFor(marker, origin, plan.actions[j], ops[j]);
      } else {
        assert CellFits(marker, r.results[j].0, ops[j], r.sgts, r.sgacls);
      }
      WrittenAsSent(r.node.objects, r.results[j], ops[j], k);
    }
  }

  // ----- When the transaction goes through -----

  /** A known group is the one of its name, and a group that is there is known. */
  lemma KnownGroupsAreThere(marker: string, origin: Objects, ops: seq<Operation>, n: nat, p: Plan, name: string)
    requires Manifest(marker, ops, n) && NamesPlanned(marker, origin, ops, n, p) && Names(ops, Sgt, name)
    ensures name in p.sgts ==> Bears(origin, (Sgt, p.sgts[name]), Sgt, name)
    ensures name !in p.sgts ==> forall k :: !Bears(origin, k, Sgt, name)
    ensures name !in p.sgts ==>
              exists k :: 0 <= k < n && p.actions[k].Create? && p.actions[k].resource == Sgt && HasName(p.actions[k]) && NameOf(p.actions[k]) == name
  {
    var o :| o in ops && o.Named? && o.resource == Sgt && o.name == name;
    var i :| 0 <= i < |ops| && ops[i] == o;
    var a := p.actions[i];
    hide ActionValid;
    assert NamedFor(marker, origin, a, o) && KnownIfFound(a, p.sgts, p.sgacls);
    if name in p.sgts {
      var k :| 0 <= k < n && Finds(p.actions[k], Sgt, name, p.sgts[name]);
      var b := p.actions[k];
      assert NamedFor(marker, origin, b, ops[k]) && ops[k] in ops;
      NameHits(origin, Sgt, b.desired, name, (Sgt, b.id));
    } else {
      forall k ensures !Bears(origin, k, Sgt, name) { NameHits(origin, Sgt, a.desired, name, k); }
    }
  }

  lemma AdmissibleWhenKnown(marker: string, origin: Objects, ops: seq<Operation>, n: nat, p: Plan, o: Operation)
    requires Manifest(marker, ops, n) && NamesPlanned(marker, origin, ops, n, p) && o in ops && o.CellFor?
    requires Admissible(marker, origin, o)
    ensures KnownPairIsOurs(marker, origin, o, p.sgts, p.sgacls)
  {
    KnownGroupsAreThere(marker, origin, ops, n, p, o.source);
    KnownGroupsAreThere(marker, origin, ops, n, p, o.destination);
  }

  ghost predicate OldOrNew(origin: Objects, known: map<string, Id>, ids: map<string, Id>, name: string) {
    && name in ids
    && (name in known ==> ids[name] == known[name] && Bears(origin, (Sgt, ids[name]), Sgt, name))
    && (name !in known ==> Unknown(origin, ids[name]) && forall k :: !Bears(origin, k, Sgt, name))
  }

  ghost predicate Sole(objects: Objects, name: string) {
    forall k, l :: Bears(objects, k, Sgt, name) && Bears(objects, l, Sgt, name) ==> k == l
  }

  /** The group is the one it was, or has an id that the node gave. */
  lemma GroupOldOrNew(script: Script, marker: string, origin: Objects, ops: seq<Operation>, n: nat, plan: Plan, r: Run, name: string)
    requires Manifest(marker, ops, n) && Planned(marker, origin, ops, n, plan) && NamesCarried(script, origin, plan.actions, n, r)
    requires IdsAreNew(script, origin) && Names(ops, Sgt, name)
    ensures OldOrNew(origin, plan.sgts, r.sgts, name)
  {
    var p := plan.(actions := plan.actions[..n]);
    PlanLaidOut(marker, origin, ops, n, plan);
    KnownGroupsAreThere(marker, origin, ops, n, p, name);
    KnownIsRecorded(script, marker, origin, plan.actions, ops, n, r, p.actions, plan.sgts, r.sgts, Sgt);
    NamesAreRecorded(script, marker, origin, plan.actions, ops, n, r);
    if name !in plan.sgts {
      var k :| 0 <= k < n && p.actions[k].Create? && p.actions[k].resource == Sgt && HasName(p.actions[k]) && NameOf(p.actions[k]) == name;
      var j :| 0 <= j < n && Under(r.results[j], Sgt, name, r.sgts[name]);
      SameNameSameAction(marker, origin, plan.actions, ops, n, j, k);
      assert Kept(script, r.node.tick, r.results[j]);
    }
  }

  /** A cell meets nothing foreign or ambiguous if and only if it is ours when planned, or else when its turn comes. */
  lemma CellAdmissibleIff(script: Script, marker: string, origin: Objects, ops: seq<Operation>, n: nat, plan: Plan, r: Run, i: nat)
    requires Manifest(marker, ops, n) && Planned(marker, origin, ops, n, plan) && NamesCarried(script, origin, plan.actions, n, r)
    requires IdsAreNew(script, origin) && n <= i < |ops| && forall k :: 0 <= k < n ==> Admissible(marker, origin, ops[k])
    requires KnownPairIsOurs(marker, origin, ops[i], plan.sgts, plan.sgacls)
    ensures Admissible(marker, origin, ops[i]) <==> Settled(marker, origin, plan.actions[i], ops[i], r.sgts)
  {
    var o := ops[i];
    hide NamesCarried, Planned, CellPlanned, Admissible, KnownPairIsOurs, Settled, OldOrNew, Sole, IdsAreNew, Manifest;
    PlannedCell(marker, origin, ops, n, plan, i);
    GroupOldOrNew(script, marker, origin, ops, n, plan, r, o.source);
    GroupOldOrNew(script, marker, origin, ops, n, plan, r, o.destination);
    NameIsSole(marker, origin, ops, n, o.source);
    NameIsSole(marker, origin, ops, n, o.destination);
    PairAdmissibleIff(marker, origin, plan.actions[i], o, plan.sgts, plan.sgacls, r.sgts);
  }

  lemma PlannedCell(marker: string, origin: Objects, ops: seq<Operation>, n: nat, plan: Plan, i: nat)
    requires Manifest(marker, ops, n) && Planned(marker, origin, ops, n, plan) && n <= i < |ops|
    ensures CellPlanned(marker, origin, plan.actions[i], ops[i], plan.sgts, plan.sgacls)
    ensures Names(ops, Sgt, ops[i].source) && Names(ops, Sgt, ops[i].destination)
  {
    assert plan.actions[n..][i - n] == plan.actions[i] && ops[i] in ops;
  }

  lemma PairAdmissibleIff(marker: string, origin: Objects, a: Action, o: Operation, known: map<string, Id>, sgacls: map<string, Id>, ids: map<string, Id>)
    requires CellPlanned(marker, origin, a, o, known, sgacls) && KnownPairIsOurs(marker, origin, o, known, sgacls)
    requires OldOrNew(origin, known, ids, o.source) && OldOrNew(origin, known, ids, o.destination)
    requires Sole(origin, o.source) && Sole(origin, o.destination)
    ensures Admissible(marker, origin, o) <==> Settled(marker, origin, a, o, ids)
  {
    hide PairIsOurs, ActionValid, Classifies, Bears;
    var s, d := ids[o.source], ids[o.destination];
    if o.source in known && o.destination in known {
      assert Bears(origin, (Sgt, s), Sgt, o.source) && Bears(origin, (Sgt, d), Sgt, o.destination);
    } else {
      NewPairIsOurs(marker, origin, s, d);
    }
  }

  lemma NewPairIsOurs(marker: string, origin: Objects, s: Id, d: Id)
    requires Unknown(origin, s) || Unknown(origin, d)
    ensures PairIsOurs(marker, origin, s, d)
  {
  }

  lemma NameIsSole(marker: string, origin: Objects, ops: seq<Operation>, n: nat, name: string)
    requires Manifest(marker, ops, n) && Names(ops, Sgt, name) && forall k :: 0 <= k < n ==> Admissible(marker, origin, ops[k])
    ensures Sole(origin, name)
  {
    var o :| o in ops && o.Named? && o.resource == Sgt && o.name == name;
    var i :| 0 <= i < |ops| && ops[i] == o;
    assert Admissible(marker, origin, ops[i]);
  }

  /** The plan is made, and its actions are carried out. */
  ghost predicate GoesThrough(script: Script, marker: string, origin: Objects, from: nat, start: nat, ops: seq<Operation>) {
    var plan := PlanAll(marker, origin, from, ops);
    && plan.Some? && (forall i :: 0 <= i < |plan.value.actions| && IsNamed(plan.value.actions[i]) ==> HasName(plan.value.actions[i]))
    && ApplyRun(script, marker, origin, start, plan.value.actions).Some?
  }

  /**
   On a node that gives new objects ids of their own, the transaction goes through if and only if
   every operation of the manifest is admissible.
   */
  lemma GoesThroughIff(script: Script, marker: string, origin: Objects, from: nat, start: nat, operations: seq<Operation>)
    requires ManifestValid(marker, operations) && CellPairsDistinct(operations) && IdsAreNew(script, origin)
    ensures GoesThrough(script, marker, origin, from, start, Sort(operations, OperationLe)) <==>
              forall o :: o in operations ==> Admissible(marker, origin, o)
  {
    var ops, n := InWorkingOrder(marker, operations);
    SameMembers(ops, operations);
    OrderedGoesThroughIff(script, marker, origin, from, start, ops, n);
    assert forall i :: 0 <= i < |ops| ==> ops[i] in ops;
  }

  lemma OrderedGoesThroughIff(script: Script, marker: string, origin: Objects, from: nat, start: nat, ops: seq<Operation>, n: nat)
    requires Manifest(marker, ops, n) && IdsAreNew(script, origin)
    ensures GoesThrough(script, marker, origin, from, start, ops) <==> forall k :: 0 <= k < |ops| ==> Admissible(marker, origin, ops[k])
  {
    var known := PlanAllExact(marker, origin, from, ops, n);
    var plan := PlanAll(marker, origin, from, ops);
    if forall k :: 0 <= k < |ops| ==> Admissible(marker, origin, ops[k]) {
      forall k | n <= k < |ops| ensures KnownPairIsOurs(marker, origin, ops[k], known.sgts, known.sgacls) {
        AdmissibleWhenKnown(marker, origin, ops, n, known, ops[k]);
      }
    }
    if plan.Some? {
      PlanLaidOut(marker, origin, ops, n, plan.value);
      var r := RunExact(script, marker, origin, start, ops, n, plan.value);
      forall k | n <= k < |ops| ensures Admissible(marker, origin, ops[k]) <==> Settled(marker, origin, plan.value.actions[k], ops[k], r.sgts) {
        CellAdmissibleIff(script, marker, origin, ops, n, plan.value, r, k);
      }
    }
  }

  /**
   The transaction that goes through puts every operation of the manifest in force, one after
   the other in working order, and changes no other object.
   */
  lemma PolicyIsInForce(script: Script, marker: string, origin: Objects, from: nat, start: nat, operations: seq<Operation>, results: seq<(Action, Id)>, now: Objects)
    requires ManifestValid(marker, operations) && CellPairsDistinct(operations)
    requires GoesThrough(script, marker, origin, from, start, Sort(operations, OperationLe))
    requires var plan := PlanAll(marker, origin, from, Sort(operations, OperationLe)).value;
             var last := ApplyRun(script, marker, origin, start, plan.actions).value;
             results == last.results && now == last.node.objects
    ensures forall o :: o in operations ==> exists k :: InForce(now, o, k)
    ensures forall k :: Same(origin, now, k) || exists o :: o in operations && InForce(now, o, k) && AsSent(now, o, k)
    ensures var ops := Sort(operations, OperationLe);
            && |results| == |ops| && (forall i :: 0 <= i < |ops| ==> !results[i].0.Deferred? && results[i].0.op == ops[i].op)
            && (forall i, j :: 0 <= i < j < |ops| ==> Precedes(ops[i], ops[j]))
  {
    var ops, n := InWorkingOrder(marker, operations);
    SameMembers(ops, operations);
    OrderedInForce(script, marker, origin, from, start, ops, n, results, now);
    forall i, j | 0 <= i < j < |ops| ensures Precedes(ops[i], ops[j]) {
      assert OperationLe(ops[i], ops[j]) && ops[i] in ops && ops[j] in ops;
    }
  }

  lemma OrderedInForce(script: Script, marker: string, origin: Objects, from: nat, start: nat, ops: seq<Operation>, n: nat, results: seq<(Action, Id)>, now: Objects)
    requires Manifest(marker, ops, n) && GoesThrough(script, marker, origin, from, start, ops)
    requires var last := ApplyRun(script, marker, origin, start, PlanAll(marker, origin, from, ops).value.actions).value;
             results == last.results && now == last.node.objects
    ensures forall o :: o in ops ==> exists k :: InForce(now, o, k)
    ensures forall k :: Same(origin, now, k) || exists o :: o in ops && InForce(now, o, k) && AsSent(now, o, k)
    ensures |results| == |ops| && forall i :: 0 <= i < |ops| ==> !results[i].0.Deferred? && results[i].0.op == ops[i].op
  {
    var known := PlanAllExact(marker, origin, from, ops, n);
    var plan := PlanAll(marker, origin, from, ops).value;
    var r := RunExact(script, marker, origin, start, ops, n, plan);
    var last := ApplyRun(script, marker, origin, start, plan.actions).value;
    ResultsInForce(script, marker, origin, ops, n, plan, last);
    forall o | o in ops ensures exists k :: InForce(now, o, k) {
      var i :| 0 <= i < |ops| && ops[i] == o;
      assert InForce(now, ops[i], (results[i].0.resource, results[i].1));
    }
    forall k ensures Same(origin, now, k) || exists o :: o in ops && InForce(now, o, k) && AsSent(now, o, k) {
      assert Spared(origin, now, results, k);
      if !Same(origin, now, k) {
        var j :| 0 <= j < |results| && Wrote(now, results[j], k);
        assert ops[j] in ops && InForce(now, ops[j], k) && AsSent(now, ops[j], k);
      }
    }
  }
}
