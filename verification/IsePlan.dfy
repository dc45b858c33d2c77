/** Prepared actions of the ISE transaction, and the list of those that were carried out. */
module IsePlan {
  import opened Basics
  import opened Ordering
  import opened IseObjects
  import opened IseServer
  import opened IseOperations

  function CellDesired(desired: Obj, source: Id, destination: Id, acls: seq<Id>): Obj {
    desired[SourceSgtId := Text(source)][DestinationSgtId := Text(destination)][Sgacls := Ids(acls)]
  }

  function IdsOf(known: map<string, Id>, refs: seq<string>): seq<Id>
    requires forall ref :: ref in refs ==> ref in known
  {
    seq(|refs|, i requires 0 <= i < |refs| => known[refs[i]])
  }

  /** `_classify`: create what is missing, refuse what is not ours, else compare. */
  function Classify(marker: string, op: Id, r: Resource, desired: Obj, existing: Option<(Id, Obj)>): Result<Action, IseError> {
    match existing
    case None => Ok(Create(op, r, desired))
    case Some((id, o)) =>
      if !Owned(marker, o) then Err(Collision)
      else if Comparable(r, o) == Comparable(r, desired) then Ok(Noop(op, r, desired, id, Comparable(r, o)))
      else Ok(Update(op, r, desired, id, Mutable(r, o), Comparable(r, o)))
  }

  /** On what a lookup found, the classification is exact; an unowned object is always refused. */
  lemma ClassifyExact(objects: Objects, marker: string, op: Id, r: Resource, desired: Obj, existing: Option<(Id, Obj)>)
    requires Owned(marker, desired)
    requires existing == None ==> forall k :: !Matches(objects, r, LookupOf(r, desired), k)
    requires existing.Some? ==> Matches(objects, r, LookupOf(r, desired), (r, existing.value.0))
    requires existing.Some? ==> existing.value.1 == objects[(r, existing.value.0)]
    ensures Classify(marker, op, r, desired, existing).Err? <==> existing.Some? && !Owned(marker, existing.value.1)
    ensures var a := Classify(marker, op, r, desired, existing);
            a.Ok? ==> ActionValid(marker, a.value) && Classifies(objects, marker, a.value)
  {
    if existing.Some? && Owned(marker, existing.value.1) {
      var o := existing.value.1;
      ComparableOfMutable(r, o);
      OwnedIsComparable(marker, r, Mutable(r, o), o);
    }
  }

  /** An action changed at most its own object, which was found by the desired lookup if it was there before. */
  ghost predicate OnlyAt(before: Objects, after: Objects, a: Action, id: Id)
    requires !a.Deferred?
  {
    && (forall k :: k != (a.resource, id) ==> Same(before, after, k))
    && ((a.resource, id) in before ==> LookupOf(a.resource, before[(a.resource, id)]) == LookupOf(a.resource, a.desired))
  }

  /** What an action's object is looked up by. */
  function ActionKey(a: Action): (Resource, Obj)
    requires !a.Deferred?
  {
    (a.resource, LookupOf(a.resource, a.desired))
  }

  /** The results concern pairwise different lookups. */
  predicate DistinctLookups(results: seq<(Action, Id)>) {
    forall i, j :: 0 <= i < j < |results| ==>
      results[i].0.Deferred? || results[j].0.Deferred? || ActionKey(results[i].0) != ActionKey(results[j].0)
  }

  /** The journal holds entries of pairwise different lookups, each of a listed action. */
  ghost predicate Covers(results: seq<(Action, Id)>, journal: seq<Entry>) {
    && DistinctEntries(journal)
    && forall e :: e in journal ==> exists i :: 0 <= i < |results| && !results[i].0.Deferred? && EntryKey(e) == ActionKey(results[i].0)
  }

  /** The action added one entry of its own lookup, or none. */
  ghost predicate Grew(before: seq<Entry>, after: seq<Entry>, a: Action)
    requires !a.Deferred?
  {
    || after == before
    || (|after| == |before| + 1 && after[..|before|] == before && EntryKey(after[|before|]) == ActionKey(a))
  }

  lemma GrewStaysCovered(before: seq<Entry>, after: seq<Entry>, results: seq<(Action, Id)>, a: Action, id: Id)
    requires !a.Deferred? && Grew(before, after, a) && Covers(results, before) && DistinctLookups(results + [(a, id)])
    ensures Covers(results + [(a, id)], after)
  {
    var next := results + [(a, id)];
    assert next[|results|] == (a, id);
    forall e | e in after ensures exists i :: 0 <= i < |next| && !next[i].0.Deferred? && EntryKey(e) == ActionKey(next[i].0) {
      if e in before {
        var i :| 0 <= i < |results| && !results[i].0.Deferred? && EntryKey(e) == ActionKey(results[i].0);
        assert next[i] == results[i];
      } else {
        assert e == after[|before|];
      }
    }
    forall i, j | 0 <= i < j < |after| ensures EntryKey(after[i]) != EntryKey(after[j]) {
      assert after[i] == before[i];
      if j == |before| && after != before {
        var k :| 0 <= k < |results| && !results[k].0.Deferred? && EntryKey(before[i]) == ActionKey(results[k].0);
        assert next[k] == results[k];
      } else {
        assert after[j] == before[j];
      }
    }
  }

  ghost predicate Listed(results: seq<(Action, Id)>, a: Action) {
    exists i :: 0 <= i < |results| && results[i].0 == a
  }

  predicate IsNamed(a: Action) { !a.Deferred? && a.resource != Cell }

  function CountNamed(actions: seq<Action>): nat {
    if actions == [] then 0 else (if IsNamed(actions[0]) then 1 else 0) + CountNamed(actions[1..])
  }

  lemma ListedStays(results: seq<(Action, Id)>, next: seq<(Action, Id)>)
    requires |next| == |results| + 1 && next[..|results|] == results
    ensures forall a :: Listed(results, a) ==> Listed(next, a)
    ensures Listed(next, next[|results|].0)
  {
    forall a | Listed(results, a) ensures Listed(next, a) {
      var i :| 0 <= i < |results| && results[i].0 == a;
      assert next[i] == results[i];
    }
  }

  ghost predicate ConfirmedIn(objects: Objects, a: Action, id: Id) {
    && !a.Deferred? && (a.resource, id) in objects
    && Comparable(a.resource, objects[(a.resource, id)]) == Comparable(a.resource, a.desired)
  }

  /** Every listed action's object is there as desired. */
  ghost predicate AllConfirmedIn(objects: Objects, results: seq<(Action, Id)>) {
    forall i :: 0 <= i < |results| ==> ConfirmedIn(objects, results[i].0, results[i].1)
  }

  lemma DistinctPrefix(results: seq<(Action, Id)>, x: (Action, Id))
    requires DistinctLookups(results + [x])
    ensures DistinctLookups(results)
  {
    assert forall i :: 0 <= i < |results| ==> (results + [x])[i] == results[i];
  }

  lemma ConfirmedStay(marker: string, before: Objects, after: Objects, results: seq<(Action, Id)>, a: Action, id: Id)
    requires !a.Deferred? && OnlyAt(before, after, a, id) && DistinctLookups(results + [(a, id)])
    requires AllConfirmedIn(before, results) && ConfirmedIn(after, a, id)
    ensures AllConfirmedIn(after, results + [(a, id)])
  {
    var all := results + [(a, id)];
    forall i | 0 <= i < |results| ensures ConfirmedIn(after, results[i].0, results[i].1) {
      var b, k := results[i].0, (results[i].0.resource, results[i].1);
      assert all[i] == results[i] && all[|results|] == (a, id);
      assert ConfirmedIn(before, b, results[i].1);
      if k == (a.resource, id) {
        OwnedIsComparable(marker, b.resource, before[k], b.desired);
      } else {
        assert Same(before, after, k);
      }
    }
  }

  // ----- What a plan knows about names and pairs -----

  type Pair = (string, string)

  predicate HasName(a: Action) { !a.Deferred? && Name in a.desired && a.desired[Name].Text? }

  function NameOf(a: Action): string
    requires HasName(a)
  {
    a.desired[Name].text
  }

  /** Groups and ACLs carry names, and those of one resource differ. */
  ghost predicate NamesDistinct(actions: seq<Action>) {
    && (forall i :: 0 <= i < |actions| && IsNamed(actions[i]) ==> HasName(actions[i]))
    && (forall i, j :: 0 <= i < j < |actions| && IsNamed(actions[i]) && IsNamed(actions[j]) ==>
          actions[i].resource != actions[j].resource || NameOf(actions[i]) != NameOf(actions[j]))
  }

  /** What a cell between two groups is looked up by. */
  function CellKey(ids: map<string, Id>, p: Pair): (Resource, Obj)
    requires p.0 in ids && p.1 in ids
  {
    (Cell, map[SourceSgtId := Text(ids[p.0]), DestinationSgtId := Text(ids[p.1])])
  }

  /** The action is about the cell between the two groups. */
  ghost predicate CellOf(a: Action, p: Pair, known: map<string, Id>) {
    if a.Deferred? then a.source == p.0 && a.destination == p.1
    else p.0 in known && p.1 in known && ActionKey(a) == CellKey(known, p)
  }

  ghost predicate OnExistingGroup(a: Action, name: string, id: Id) {
    (a.Noop? || a.Update?) && a.resource == Sgt && HasName(a) && NameOf(a) == name && a.id == id
  }

  /** The group ids known at `prepare` are those of the plan's existing groups. */
  ghost predicate KnownGroups(actions: seq<Action>, known: map<string, Id>) {
    forall n :: n in known ==> exists a :: a in actions && OnExistingGroup(a, n, known[n])
  }

  /** One of the named operations has the action's resource and name. */
  ghost predicate AmongNamed(ops: seq<Operation>, a: Action) {
    HasName(a) && exists o :: o in ops && o.Named? && o.resource == a.resource && o.name == NameOf(a)
  }

  /** The ids behind names, once an existing group or ACL is known. */
  function WithGroup(sgts: map<string, Id>, o: Operation, existing: Option<(Id, Obj)>): map<string, Id>
    requires o.Named?
  {
    if o.resource == Sgt && existing.Some? then sgts[o.name := existing.value.0] else sgts
  }

  function WithAcl(sgacls: map<string, Id>, o: Operation, existing: Option<(Id, Obj)>): map<string, Id>
    requires o.Named?
  {
    if o.resource != Sgt && existing.Some? then sgacls[o.name := existing.value.0] else sgacls
  }

  /** One more named operation keeps names distinct and the known groups known. */
  lemma AnotherName(actions: seq<Action>, known: map<string, Id>, ops: seq<Operation>, i: nat, a: Action, existing: Option<(Id, Obj)>)
    requires i < |ops| && ops[i].Named? && ops[i].resource != Cell && NamesUnique(ops)
    requires NamesDistinct(actions) && KnownGroups(actions, known) && forall b :: b in actions ==> IsNamed(b) && AmongNamed(ops[..i], b)
    requires IsNamed(a) && a.resource == ops[i].resource && HasName(a) && NameOf(a) == ops[i].name
    requires existing.Some? ==> (a.Noop? || a.Update?) && a.id == existing.value.0
    ensures NamesDistinct(actions + [a]) && AmongNamed(ops[..i + 1], a)
    ensures forall b :: b in actions ==> AmongNamed(ops[..i + 1], b)
    ensures KnownGroups(actions + [a], WithGroup(known, ops[i], existing))
  {
    assert ops[..i + 1] == ops[..i] + [ops[i]];
    forall b | b in actions && b.resource == a.resource ensures NameOf(b) != NameOf(a) {
      var o :| o in ops[..i] && o.Named? && o.resource == b.resource && o.name == NameOf(b);
      var k :| 0 <= k < i && ops[k] == o;
    }
    forall b | b in actions ensures AmongNamed(ops[..i + 1], b) {
      var o :| o in ops[..i] && o.Named? && o.resource == b.resource && o.name == NameOf(b);
      assert o in ops[..i + 1];
    }
    var all := actions + [a];
    assert ops[i] in ops[..i + 1] && all[|actions|] == a;
    assert forall k :: 0 <= k < |actions| ==> all[k] in actions;
    var later := WithGroup(known, ops[i], existing);
    forall n | n in later ensures exists b :: b in all && OnExistingGroup(b, n, later[n]) {
      if existing.Some? && a.resource == Sgt && n == ops[i].name {
        assert a in all;
      } else {
        var b :| b in actions && OnExistingGroup(b, n, known[n]);
        assert b in all;
      }
    }
  }

  /** `pairs` gives the two groups of each cell action. */
  ghost predicate PlanSound(actions: seq<Action>, pairs: seq<Pair>, known: map<string, Id>) {
    && |pairs| == |actions| && NamesDistinct(actions) && KnownGroups(actions, known)
    && forall i :: 0 <= i < |actions| && !IsNamed(actions[i]) ==> CellOf(actions[i], pairs[i], known)
  }

  ghost predicate PairsDistinct(actions: seq<Action>, pairs: seq<Pair>)
    requires |pairs| == |actions|
  {
    forall i, j :: 0 <= i < j < |actions| && !IsNamed(actions[i]) && !IsNamed(actions[j]) ==> pairs[i] != pairs[j]
  }

  /** A cell's desired object is looked up by its pair. */
  lemma CellDesiredKey(desired: Obj, ids: map<string, Id>, p: Pair, acls: seq<Id>)
    requires p.0 in ids && p.1 in ids
    ensures (Cell, LookupOf(Cell, CellDesired(desired, ids[p.0], ids[p.1], acls))) == CellKey(ids, p)
  {
    var lookup := LookupOf(Cell, CellDesired(desired, ids[p.0], ids[p.1], acls));
    assert lookup.Keys == {SourceSgtId, DestinationSgtId};
    assert lookup == map[SourceSgtId := Text(ids[p.0]), DestinationSgtId := Text(ids[p.1])];
  }

  lemma JoinPlan(named: seq<Action>, cells: seq<Action>, cellPairs: seq<Pair>, known: map<string, Id>) returns (pairs: seq<Pair>)
    requires NamesDistinct(named) && (forall a :: a in named ==> IsNamed(a)) && KnownGroups(named, known)
    requires |cellPairs| == |cells| && forall i :: 0 <= i < |cells| ==> !IsNamed(cells[i]) && CellOf(cells[i], cellPairs[i], known)
    ensures PlanSound(named + cells, pairs, known)
    ensures (forall i, j :: 0 <= i < j < |cells| ==> cellPairs[i] != cellPairs[j]) ==> PairsDistinct(named + cells, pairs)
  {
    var all := named + cells;
    pairs := seq(|named|, _ => ("", "")) + cellPairs;
    assert forall i :: 0 <= i < |named| ==> all[i] in named;
    assert forall i :: |named| <= i < |all| ==> all[i] == cells[i - |named|] && pairs[i] == cellPairs[i - |named|];
    forall n | n in known ensures exists a :: a in all && OnExistingGroup(a, n, known[n]) {
      var a :| a in named && OnExistingGroup(a, n, known[n]);
      assert a in all;
    }
  }

  // ----- The groups and ACLs that were carried out -----

  ghost predicate GroupResult(x: (Action, Id), name: string, id: Id) {
    IsNamed(x.0) && x.0.resource == Sgt && HasName(x.0) && NameOf(x.0) == name && x.1 == id
  }

  /** After the first `i` actions: a result for each named one, of its own lookup, and an id for each group's name. */
  ghost predicate NamedSoFar(actions: seq<Action>, i: nat, results: seq<(Action, Id)>, sgts: map<string, Id>)
    requires i <= |actions|
  {
    && DistinctLookups(results)
    && (forall x :: x in results ==> IsNamed(x.0) && HasName(x.0) && x.0 in actions[..i])
    && (forall n :: n in sgts ==> exists x :: x in results && GroupResult(x, n, sgts[n]))
    && (forall a :: a in actions[..i] ==> GroupRecorded(a, sgts))
  }

  /** The group's name is recorded, and if the group existed, with its id. */
  ghost predicate GroupRecorded(a: Action, sgts: map<string, Id>) {
    IsNamed(a) && a.resource == Sgt && HasName(a) ==>
      NameOf(a) in sgts && (a.Noop? || a.Update? ==> sgts[NameOf(a)] == a.id)
  }

  lemma NamesMakeKeys(a: Action, b: Action)
    requires IsNamed(a) && IsNamed(b) && HasName(a) && HasName(b)
    requires a.resource != b.resource || NameOf(a) != NameOf(b)
    ensures ActionKey(a) != ActionKey(b)
  {
    assert a.resource == b.resource ==> LookupOf(a.resource, a.desired)[Name] != LookupOf(b.resource, b.desired)[Name];
  }

  lemma NewNameIsNew(actions: seq<Action>, i: nat, results: seq<(Action, Id)>, sgts: map<string, Id>, id: Id)
    requires i < |actions| && NamesDistinct(actions) && NamedSoFar(actions, i, results, sgts) && IsNamed(actions[i])
    ensures DistinctLookups(results + [(actions[i], id)])
    ensures forall a :: a in actions[..i] && IsNamed(a) && a.resource == actions[i].resource ==> NameOf(a) != NameOf(actions[i])
  {
    forall a | a in actions[..i] && IsNamed(a) ensures ActionKey(a) != ActionKey(actions[i])
      ensures a.resource == actions[i].resource ==> NameOf(a) != NameOf(actions[i])
    {
      var j :| 0 <= j < i && actions[..i][j] == a;
      NamesMakeKeys(actions[j], actions[i]);
    }
    var next := results + [(actions[i], id)];
    forall k, l | 0 <= k < l < |next| ensures ActionKey(next[k].0) != ActionKey(next[l].0) {
      assert next[k] in results;
      assert l < |results| ==> next[l] == results[l] && next[l] in results;
    }
  }

  function Recorded(sgts: map<string, Id>, a: Action, id: Id): map<string, Id>
    requires HasName(a)
  {
    if a.resource == Sgt then sgts[NameOf(a) := id] else sgts
  }

  lemma NamedStep(actions: seq<Action>, i: nat, results: seq<(Action, Id)>, sgts: map<string, Id>, id: Id)
    requires i < |actions| && NamesDistinct(actions) && NamedSoFar(actions, i, results, sgts) && IsNamed(actions[i])
    requires actions[i].Noop? || actions[i].Update? ==> id == actions[i].id
    ensures NamedSoFar(actions, i + 1, results + [(actions[i], id)], Recorded(sgts, actions[i], id))
  {
    NewNameIsNew(actions, i, results, sgts, id);
    var next, later := results + [(actions[i], id)], Recorded(sgts, actions[i], id);
    assert actions[..i + 1] == actions[..i] + [actions[i]];
    assert (actions[i], id) in next;
    forall n | n in later ensures exists x :: x in next && GroupResult(x, n, later[n]) {
      if actions[i].resource == Sgt && n == NameOf(actions[i]) {
        assert GroupResult((actions[i], id), n, later[n]);
      } else {
        var x :| x in results && GroupResult(x, n, sgts[n]);
        assert x in next;
      }
    }
    forall a | a in actions[..i + 1] ensures GroupRecorded(a, later) {
      if a in actions[..i] { assert GroupRecorded(a, sgts); }
    }
  }

  lemma SkipStep(actions: seq<Action>, i: nat, results: seq<(Action, Id)>, sgts: map<string, Id>)
    requires i < |actions| && NamedSoFar(actions, i, results, sgts) && !IsNamed(actions[i])
    ensures NamedSoFar(actions, i + 1, results, sgts)
  {
    assert actions[..i + 1] == actions[..i] + [actions[i]];
  }

  /** Different names have different ids, and what was known at `prepare` is so. */
  ghost predicate GroupIds(sgts: map<string, Id>, known: map<string, Id>) {
    && (forall m, n :: m in sgts && n in sgts && sgts[m] == sgts[n] ==> m == n)
    && (forall n :: n in known ==> n in sgts && sgts[n] == known[n])
  }

  ghost predicate NamedSo(objects: Objects, k: Key, name: string) {
    k in objects && Name in objects[k] && objects[k][Name] == Text(name)
  }

  /** A confirmed group has the name it was recorded under. */
  lemma ConfirmedHasName(objects: Objects, x: (Action, Id), name: string, id: Id)
    requires GroupResult(x, name, id) && ConfirmedIn(objects, x.0, x.1)
    ensures NamedSo(objects, (Sgt, id), name)
  {
    assert Name in Comparable(Sgt, x.0.desired) && Comparable(Sgt, x.0.desired)[Name] == Text(name);
  }

  /** Confirmed groups with one id are one object, and an object has one name. */
  lemma GroupIdsAreExact(objects: Objects, actions: seq<Action>, results: seq<(Action, Id)>, sgts: map<string, Id>, known: map<string, Id>)
    requires NamedSoFar(actions, |actions|, results, sgts) && KnownGroups(actions, known)
    requires AllConfirmedIn(objects, results)
    ensures GroupIds(sgts, known)
  {
    forall n | n in sgts ensures NamedSo(objects, (Sgt, sgts[n]), n) {
      var x :| x in results && GroupResult(x, n, sgts[n]);
      var i :| 0 <= i < |results| && results[i] == x;
      ConfirmedHasName(objects, x, n, sgts[n]);
    }
    forall m, n | m in sgts && n in sgts && sgts[m] == sgts[n] ensures m == n {
      assert NamedSo(objects, (Sgt, sgts[m]), m) && NamedSo(objects, (Sgt, sgts[n]), n);
    }
    assert actions[..|actions|] == actions;
    forall n | n in known ensures n in sgts && sgts[n] == known[n] {
      var a :| a in actions && OnExistingGroup(a, n, known[n]);
      assert GroupRecorded(a, sgts);
    }
  }

  /** One result for every named action so far. */
  ghost predicate NamedProgress(actions: seq<Action>, i: nat, results: seq<(Action, Id)>)
    requires i <= |actions|
  {
    && |results| + CountNamed(actions[i..]) == CountNamed(actions)
    && forall k :: 0 <= k < i && IsNamed(actions[k]) ==> Listed(results, actions[k])
  }

  lemma NamedProgressStep(actions: seq<Action>, i: nat, results: seq<(Action, Id)>, id: Id)
    requires i < |actions| && NamedProgress(actions, i, results)
    ensures IsNamed(actions[i]) ==> NamedProgress(actions, i + 1, results + [(actions[i], id)])
    ensures !IsNamed(actions[i]) ==> NamedProgress(actions, i + 1, results)
  {
    assert actions[i..][1..] == actions[i + 1..];
    ListedStays(results, results + [(actions[i], id)]);
  }

  // ----- The cells that were carried out -----

  ghost predicate CellProgress(actions: seq<Action>, i: nat, named: seq<(Action, Id)>, results: seq<(Action, Id)>)
    requires i <= |actions|
  {
    && |results| + |actions| - i - CountNamed(actions[i..]) == |named| + |actions| - CountNamed(actions)
    && forall a :: Listed(named, a) ==> Listed(results, a)
  }

  lemma CellProgressStep(actions: seq<Action>, i: nat, named: seq<(Action, Id)>, results: seq<(Action, Id)>, x: (Action, Id))
    requires i < |actions| && CellProgress(actions, i, named, results)
    ensures IsNamed(actions[i]) ==> CellProgress(actions, i + 1, named, results)
    ensures !IsNamed(actions[i]) ==> CellProgress(actions, i + 1, named, results + [x])
  {
    assert actions[i..][1..] == actions[i + 1..];
    ListedStays(results, results + [x]);
  }

  ghost predicate CellsSoFar(actions: seq<Action>, pairs: seq<Pair>, i: nat, named: seq<(Action, Id)>, results: seq<(Action, Id)>,
                             sgts: map<string, Id>, done: seq<Pair>)
    requires i <= |actions| == |pairs|
  {
    && |results| == |named| + |done| && results[..|named|] == named
    && (forall k :: 0 <= k < |done| ==> CellDone(results[|named| + k].0, done[k], sgts))
    && (forall p :: p in done ==> exists j :: 0 <= j < i && !IsNamed(actions[j]) && pairs[j] == p)
    && (PairsDistinct(actions, pairs) ==> forall k, l :: 0 <= k < l < |done| ==> done[k] != done[l])
  }

  /** A classified action on the cell of the pair. */
  ghost predicate CellDone(a: Action, p: Pair, sgts: map<string, Id>) {
    !a.Deferred? && p.0 in sgts && p.1 in sgts && ActionKey(a) == CellKey(sgts, p)
  }

  lemma PairsMakeKeys(sgts: map<string, Id>, known: map<string, Id>, p: Pair, q: Pair)
    requires GroupIds(sgts, known) && p.0 in sgts && p.1 in sgts && q.0 in sgts && q.1 in sgts && p != q
    ensures CellKey(sgts, p) != CellKey(sgts, q)
  {
    var a, b := CellKey(sgts, p).1, CellKey(sgts, q).1;
    if p.0 != q.0 {
      assert a[SourceSgtId] != b[SourceSgtId];
    } else {
      assert a[DestinationSgtId] != b[DestinationSgtId];
    }
  }

  /** With distinct pairs all results, named and cells, have distinct lookups. */
  lemma AllLookupsDistinct(actions: seq<Action>, pairs: seq<Pair>, i: nat, named: seq<(Action, Id)>, results: seq<(Action, Id)>,
                           sgts: map<string, Id>, known: map<string, Id>, done: seq<Pair>)
    requires i <= |actions| == |pairs| && CellsSoFar(actions, pairs, i, named, results, sgts, done) && GroupIds(sgts, known)
    requires DistinctLookups(named) && (forall x :: x in named ==> IsNamed(x.0)) && PairsDistinct(actions, pairs)
    ensures DistinctLookups(results)
  {
    assert forall k :: 0 <= k < |named| ==> results[k] == named[k] && named[k] in named;
    forall k | 0 <= k < |results| ensures !results[k].0.Deferred? {
      if k >= |named| { assert CellDone(results[|named| + (k - |named|)].0, done[k - |named|], sgts); }
    }
    forall k, l | 0 <= k < l < |results| ensures ActionKey(results[k].0) != ActionKey(results[l].0) {
      if k >= |named| {
        PairsMakeKeys(sgts, known, done[k - |named|], done[l - |named|]);
        assert CellDone(results[|named| + (k - |named|)].0, done[k - |named|], sgts);
      }
      if l >= |named| { assert CellDone(results[|named| + (l - |named|)].0, done[l - |named|], sgts); }
    }
  }

  lemma CellStep(actions: seq<Action>, pairs: seq<Pair>, i: nat, named: seq<(Action, Id)>, results: seq<(Action, Id)>,
                 sgts: map<string, Id>, done: seq<Pair>, a: Action, id: Id)
    requires i < |actions| == |pairs| && CellsSoFar(actions, pairs, i, named, results, sgts, done) && !IsNamed(actions[i])
    requires CellDone(a, pairs[i], sgts)
    ensures CellsSoFar(actions, pairs, i + 1, named, results + [(a, id)], sgts, done + [pairs[i]])
  {
    var next, more := results + [(a, id)], done + [pairs[i]];
    forall k | 0 <= k < |more| ensures CellDone(next[|named| + k].0, more[k], sgts) {
      if k < |done| { assert CellDone(results[|named| + k].0, done[k], sgts); }
    }
    forall p | p in more ensures exists j :: 0 <= j < i + 1 && !IsNamed(actions[j]) && pairs[j] == p {
      if p in done {
        var j :| 0 <= j < i && !IsNamed(actions[j]) && pairs[j] == p;
      }
    }
    if PairsDistinct(actions, pairs) {
      assert pairs[i] !in done;
    }
  }
}
