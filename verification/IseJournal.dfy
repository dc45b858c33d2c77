/** Every write of the ISE transaction, forward or backward, keeps the journal's account of the objects. */
module IseJournal {
  import opened Basics
  import opened IseObjects

  /** During `apply` every entry names an object, and nothing has been deleted. */
  ghost predicate Present(origin: Objects, objects: Objects, journal: seq<Entry>) {
    && origin.Keys <= objects.Keys
    && forall e :: e in journal ==> TargetOf(e, None).Some? && TargetOf(e, None).value in objects
  }

  lemma NothingJournaled(marker: string, origin: Objects, objects: Objects, landed: Option<Key>)
    requires Explains(marker, origin, objects, [], landed)
    ensures landed == None && origin == objects && Present(origin, objects, [])
  {
    forall k: Key ensures (k in objects <==> k in origin) && (k in objects ==> objects[k] == origin[k]) {
      assert !Touched([], landed, k);
      assert Same(origin, objects, k);
    }
  }

  lemma NamedTargets(journal: seq<Entry>, landed: Option<Key>)
    requires forall e :: e in journal ==> TargetOf(e, None).Some?
    ensures forall i :: 0 <= i < |journal| ==> TargetOf(journal[i], landed) == TargetOf(journal[i], None)
  {
    forall i | 0 <= i < |journal| ensures TargetOf(journal[i], landed) == TargetOf(journal[i], None) {
      assert journal[i] in journal;
    }
  }

  lemma TouchedByPrefix(journal: seq<Entry>, e: Entry, landed: Option<Key>, k: Key)
    requires forall d :: d in journal ==> TargetOf(d, None).Some?
    ensures Touched(journal + [e], landed, k) <==> Touched(journal, None, k) || TargetOf(e, landed) == Some(k)
  {
    NamedTargets(journal, landed);
    if Touched(journal, None, k) {
      var i :| 0 <= i < |journal| && TargetOf(journal[i], None) == Some(k);
      assert (journal + [e])[i] == journal[i];
    }
    if TargetOf(e, landed) == Some(k) { assert (journal + [e])[|journal|] == e; }
  }

  /** Earlier entries keep their meaning when another is appended and lookups stay. */
  lemma EarlierEntriesStand(marker: string, origin: Objects, before: Objects, after: Objects, journal: seq<Entry>, e: Entry, landed: Option<Key>, i: nat)
    requires i < |journal| && Present(origin, before, journal)
    requires EntryValid(marker, origin, before, journal, None, i)
    requires forall k :: k in before && k in after ==> LookupOf(k.0, after[k]) == LookupOf(k.0, before[k])
    ensures EntryValid(marker, origin, after, journal + [e], landed, i)
  {
    NamedTargets(journal, landed);
    assert journal[i] in journal;
    assert forall j :: 0 <= j < |journal| ==> (journal + [e])[j] == journal[j];
    assert First(journal + [e], landed, i) ==> First(journal, None, i);
  }

  lemma AppendCreate(marker: string, origin: Objects, before: Objects, after: Objects, journal: seq<Entry>,
                     op: Id, r: Resource, desired: Obj, landed: Option<Key>, e: Effect)
    requires Explains(marker, origin, before, journal, None) && Present(origin, before, journal)
    requires Owned(marker, desired) && forall k :: !Matches(before, r, LookupOf(r, desired), k)
    requires landed == None ==> after == before
    requires landed.Some? ==> landed.value.0 == r && landed.value !in before
    requires landed.Some? ==> after == before[landed.value := IseObjects.Created(r, Mutable(r, desired), e)]
    ensures Explains(marker, origin, after, journal + [CreateEntry(op, r, desired, None, None)], landed)
  {
    var entry := CreateEntry(op, r, desired, None, None);
    var all := journal + [entry];
    ComparableOfMutable(r, desired);
    CreatedKeepsLookup(r, Mutable(r, desired), e);
    forall k | !Touched(all, landed, k) ensures Same(origin, after, k) {
      TouchedByPrefix(journal, entry, landed, k);
      assert Same(origin, before, k);
    }
    forall k | Matches(after, r, LookupOf(r, desired), k) ensures landed == Some(k) {
      assert !Matches(before, r, LookupOf(r, desired), k);
    }
    forall i: nat | i < |all| ensures EntryValid(marker, origin, after, all, landed, i) {
      if i < |journal| {
        EarlierEntriesStand(marker, origin, before, after, journal, entry, landed, i);
      }
    }
  }

  /** The id becomes known: the entry itself now names what it created. */
  lemma RecordId(marker: string, origin: Objects, objects: Objects, journal: seq<Entry>, op: Id, r: Resource, desired: Obj,
                 landed: Option<Key>, id: Id, post: Option<Obj>)
    requires forall e :: e in journal ==> TargetOf(e, None).Some?
    requires Explains(marker, origin, objects, journal + [CreateEntry(op, r, desired, None, None)], landed)
    requires (r, id) !in origin && (landed.Some? ==> landed.value == (r, id))
    requires landed == None ==> (r, id) !in objects
    ensures Explains(marker, origin, objects, journal + [CreateEntry(op, r, desired, Some(id), post)], None)
  {
    var old', new' := CreateEntry(op, r, desired, None, None), CreateEntry(op, r, desired, Some(id), post);
    var was, all := journal + [old'], journal + [new'];
    NamedTargets(journal, landed);
    forall k | !Touched(all, None, k) ensures Same(origin, objects, k) {
      TouchedByPrefix(journal, new', None, k);
      TouchedByPrefix(journal, old', landed, k);
    }
    forall i: nat | i < |all| ensures EntryValid(marker, origin, objects, all, None, i) {
      assert EntryValid(marker, origin, objects, was, landed, i);
      assert forall j :: 0 <= j < |journal| ==> all[j] == was[j] == journal[j];
      if i < |journal| {
        assert journal[i] in journal;
        assert First(all, None, i) ==> First(was, landed, i);
      }
    }
  }

  /** An entry's post-state is a note to the rollback; it claims nothing about the objects. */
  function WithPost(e: Entry, post: Option<Obj>): Entry {
    match e
    case CreateEntry(op, r, desired, id, _) => CreateEntry(op, r, desired, id, post)
    case UpdateEntry(op, r, id, snapshot, pre, _) => UpdateEntry(op, r, id, snapshot, pre, post)
  }

  lemma RecordPost(marker: string, origin: Objects, objects: Objects, journal: seq<Entry>, e: Entry, post: Option<Obj>, landed: Option<Key>)
    requires Explains(marker, origin, objects, journal + [e], landed)
    ensures Explains(marker, origin, objects, journal + [WithPost(e, post)], landed)
  {
    var was, all := journal + [e], journal + [WithPost(e, post)];
    assert forall i :: 0 <= i < |all| ==> TargetOf(all[i], landed) == TargetOf(was[i], landed);
    forall k | Touched(was, landed, k) ensures Touched(all, landed, k) {
      var i :| 0 <= i < |was| && TargetOf(was[i], landed) == Some(k);
      assert TargetOf(all[i], landed) == Some(k);
    }
    forall i: nat | i < |all| ensures EntryValid(marker, origin, objects, all, landed, i) {
      assert EntryValid(marker, origin, objects, was, landed, i);
      assert First(all, landed, i) <==> First(was, landed, i);
    }
  }

  lemma AppendUpdate(marker: string, origin: Objects, before: Objects, journal: seq<Entry>, op: Id, r: Resource, id: Id,
                     snapshot: Obj, pre: Obj, body: Obj, e: Effect)
    requires Explains(marker, origin, before, journal, None) && Present(origin, before, journal)
    requires (r, id) in before && Comparable(r, before[(r, id)]) == pre == Comparable(r, snapshot)
    requires Owned(marker, snapshot) && snapshot == Mutable(r, snapshot) && LookupOf(r, body) == LookupOf(r, snapshot)
    ensures Explains(marker, origin, before[(r, id) := Blend(before[(r, id)], body, e)],
                     journal + [UpdateEntry(op, r, id, snapshot, pre, None)], None)
  {
    var key := (r, id);
    var after := before[key := Blend(before[key], body, e)];
    var entry := UpdateEntry(op, r, id, snapshot, pre, None);
    var all := journal + [entry];
    OwnedIsComparable(marker, r, before[key], snapshot);
    BlendKeepsLookup(r, before[key], body, e);
    forall k | !Touched(all, None, k) ensures Same(origin, after, k) {
      TouchedByPrefix(journal, entry, None, k);
      assert Same(origin, before, k);
    }
    forall i: nat | i < |all| ensures EntryValid(marker, origin, after, all, None, i) {
      if i < |journal| {
        EarlierEntriesStand(marker, origin, before, after, journal, entry, None, i);
      } else {
        NewUpdateIsValid(marker, origin, before, journal, op, r, id, snapshot, pre);
      }
    }
  }

  /** The object of a new update was owned at `prepare`, and unless it was touched before, it is as it was then. */
  lemma NewUpdateIsValid(marker: string, origin: Objects, before: Objects, journal: seq<Entry>, op: Id, r: Resource, id: Id, snapshot: Obj, pre: Obj)
    requires Explains(marker, origin, before, journal, None) && Present(origin, before, journal)
    requires (r, id) in before && Comparable(r, before[(r, id)]) == pre == Comparable(r, snapshot)
    requires Owned(marker, snapshot)
    ensures var all := journal + [UpdateEntry(op, r, id, snapshot, pre, None)];
            && ((r, id) in origin ==> Owned(marker, origin[(r, id)]))
            && (First(all, None, |journal|) ==> (r, id) in origin && pre == Comparable(r, origin[(r, id)]))
  {
    var key := (r, id);
    var all := journal + [UpdateEntry(op, r, id, snapshot, pre, None)];
    OwnedIsComparable(marker, r, before[key], snapshot);
    if Touched(journal, None, key) {
      var i :| 0 <= i < |journal| && TargetOf(journal[i], None) == Some(key);
      assert EntryValid(marker, origin, before, journal, None, i);
      assert all[i] == journal[i];
      assert !First(all, None, |journal|);
    } else {
      assert Same(origin, before, key);
    }
  }

  // ----- Rolling back -----

  lemma DeleteKeeps(marker: string, origin: Objects, before: Objects, journal: seq<Entry>, landed: Option<Key>, i: nat)
    requires Explains(marker, origin, before, journal, landed)
    requires i < |journal| && TargetOf(journal[i], landed).Some?
    ensures Explains(marker, origin, before - {TargetOf(journal[i], landed).value}, journal, landed)
  {
    var key := TargetOf(journal[i], landed).value;
    var after := before - {key};
    forall k | !Touched(journal, landed, k) ensures Same(origin, after, k) {
      assert Same(origin, before, k);
    }
    forall j: nat | j < |journal| ensures EntryValid(marker, origin, after, journal, landed, j) {
      assert EntryValid(marker, origin, before, journal, landed, j);
      assert forall r, probe, k :: Matches(after, r, probe, k) ==> Matches(before, r, probe, k);
    }
  }

  lemma RestoreKeeps(marker: string, origin: Objects, before: Objects, journal: seq<Entry>, landed: Option<Key>, i: nat, e: Effect)
    requires Explains(marker, origin, before, journal, landed)
    requires i < |journal| && journal[i].UpdateEntry?
    requires (journal[i].resource, journal[i].target) in before
    ensures var key := (journal[i].resource, journal[i].target);
            Explains(marker, origin, before[key := Blend(before[key], journal[i].snapshot, e)], journal, landed)
  {
    var key := (journal[i].resource, journal[i].target);
    var after := before[key := Blend(before[key], journal[i].snapshot, e)];
    assert EntryValid(marker, origin, before, journal, landed, i);
    BlendKeepsLookup(key.0, before[key], journal[i].snapshot, e);
    assert TargetOf(journal[i], landed) == Some(key);
    forall k | !Touched(journal, landed, k) ensures Same(origin, after, k) {
      assert Same(origin, before, k);
    }
    forall j: nat | j < |journal| ensures EntryValid(marker, origin, after, journal, landed, j) {
      assert EntryValid(marker, origin, before, journal, landed, j);
      assert forall r, probe, k :: Matches(after, r, probe, k) <==> Matches(before, r, probe, k);
    }
  }

  /** What an entry can still do depends on its own object only. */
  lemma RecoverableIsLocal(before: Objects, after: Objects, e: Entry, landed: Option<Key>)
    requires TargetOf(e, landed).Some? ==> Same(before, after, TargetOf(e, landed).value)
    ensures Recoverable(before, e, landed) <==> Recoverable(after, e, landed)
  {
  }

  /** A write journaled by a new entry leaves the earlier entries as undoable as they were. */
  lemma EarlierStayUndoable(before: Objects, after: Objects, journal: seq<Entry>, e: Entry, landed: Option<Key>)
    requires forall d :: d in journal ==> TargetOf(d, None).Some?
    requires UndoableUpTo(before, journal, None, |journal|)
    requires forall k :: Some(k) != TargetOf(e, landed) ==> Same(before, after, k)
    ensures UndoableUpTo(after, journal + [e], landed, |journal|)
  {
    var all := journal + [e];
    NamedTargets(journal, landed);
    if DistinctTargets(all, landed) {
      assert forall i :: 0 <= i < |journal| ==> all[i] == journal[i];
      assert DistinctTargets(journal, None);
      forall i | 0 <= i < |journal| ensures Recoverable(after, all[i], landed) {
        assert journal[i] in journal;
        var t := TargetOf(all[i], landed);
        assert t != TargetOf(all[|journal|], landed);
        assert Same(before, after, t.value);
        RecoverableIsLocal(before, after, journal[i], None);
      }
    }
  }

  /** Learning more about the last entry changes nothing for the earlier ones. */
  lemma LastEntryAside(objects: Objects, journal: seq<Entry>, e: Entry, f: Entry, landed: Option<Key>, landed': Option<Key>)
    requires forall d :: d in journal ==> TargetOf(d, None).Some?
    requires UndoableUpTo(objects, journal + [e], landed, |journal|)
    requires TargetOf(f, landed') == TargetOf(e, landed) || TargetOf(e, landed) == None
    ensures UndoableUpTo(objects, journal + [f], landed', |journal|)
  {
    var was, all := journal + [e], journal + [f];
    NamedTargets(journal, landed);
    NamedTargets(journal, landed');
    if DistinctTargets(all, landed') {
      assert forall i :: 0 <= i < |journal| ==> all[i] == was[i] == journal[i];
      assert DistinctTargets(was, landed) by {
        forall i, j | 0 <= i < j < |was| && TargetOf(was[i], landed).Some? ensures TargetOf(was[i], landed) != TargetOf(was[j], landed) {
          assert TargetOf(all[i], landed') != TargetOf(all[j], landed');
        }
      }
      forall i | 0 <= i < |journal| ensures Recoverable(objects, all[i], landed') {
        assert journal[i] in journal;
        assert Recoverable(objects, was[i], landed);
      }
    }
  }

  // ----- Entries of different lookups are about different objects -----

  lemma TargetHasKey(marker: string, origin: Objects, objects: Objects, journal: seq<Entry>, landed: Option<Key>, i: nat, k: Key)
    requires Explains(marker, origin, objects, journal, landed)
    requires i < |journal| && TargetOf(journal[i], landed) == Some(k) && k in objects
    ensures EntryKey(journal[i]) == (k.0, LookupOf(k.0, objects[k]))
  {
    assert EntryValid(marker, origin, objects, journal, landed, i);
  }

  /** While all entries but the last have their objects, different lookups mean different targets. */
  lemma DistinctEntriesNameDistinctly(marker: string, origin: Objects, objects: Objects, journal: seq<Entry>, landed: Option<Key>)
    requires Explains(marker, origin, objects, journal, landed) && DistinctEntries(journal)
    requires forall i :: 0 <= i < |journal| - 1 ==> TargetOf(journal[i], None).Some? && TargetOf(journal[i], None).value in objects
    ensures DistinctTargets(journal, landed)
  {
    forall i, j | 0 <= i < j < |journal| && TargetOf(journal[i], landed).Some?
      ensures TargetOf(journal[i], landed) != TargetOf(journal[j], landed)
    {
      assert TargetOf(journal[i], landed) == TargetOf(journal[i], None);
      if TargetOf(journal[i], landed) == TargetOf(journal[j], landed) {
        var k := TargetOf(journal[i], landed).value;
        TargetHasKey(marker, origin, objects, journal, landed, i, k);
        TargetHasKey(marker, origin, objects, journal, landed, j, k);
      }
    }
  }
}
