/**
 ISE policy objects (orchestrator/ise.py): which fields a write may set, which it is
 compared by and which it is looked up by, the prepared actions and journal entries
 of the nested transaction, and the facts that make its undo exact.
 */
module IseObjects {
  import opened Basics

  datatype Resource = Sgt | Sgacl | Cell

  datatype Field =
    | Name | Description | Value | PropagateToApic | DefaultSgacls
    | AclContent | IpVersion | ModelledContent
    | SourceSgtId | DestinationSgtId | MatrixCellStatus | DefaultRule | Sgacls
    | OtherField(name: string)

  datatype Datum = Text(text: string) | Number(number: int) | Flag(flag: bool) | Ids(ids: seq<Id>)

  type Obj = map<Field, Datum>
  type Key = (Resource, Id)
  type Objects = map<Key, Obj>

  function MutableFields(r: Resource): set<Field> {
    match r
    case Sgt => {Name, Description, Value, PropagateToApic, DefaultSgacls}
    case Sgacl => {Name, Description, AclContent, IpVersion, ModelledContent}
    case Cell => {Name, Description, SourceSgtId, DestinationSgtId, MatrixCellStatus, DefaultRule, Sgacls}
  }

  function CompareFields(r: Resource): set<Field> {
    match r
    case Sgt => {Name, Description, Value, PropagateToApic}
    case Sgacl => {Name, Description, AclContent, IpVersion}
    case Cell => {Description, SourceSgtId, DestinationSgtId, MatrixCellStatus, DefaultRule, Sgacls}
  }

  /** Named objects are found by name, cells by their pair of groups. */
  function LookupFields(r: Resource): set<Field> {
    if r == Cell then {SourceSgtId, DestinationSgtId} else {Name}
  }

  function Only(o: Obj, fields: set<Field>): Obj { o - (o.Keys - fields) }

  function Mutable(r: Resource, o: Obj): Obj { Only(o, MutableFields(r)) }

  /** The comparable part of an object; `_state_hash` is its injective hash. */
  function Comparable(r: Resource, o: Obj): Obj { Only(o, CompareFields(r)) }

  function LookupOf(r: Resource, o: Obj): Obj { Only(o, LookupFields(r)) }

  lemma FieldsNest(r: Resource)
    ensures LookupFields(r) <= CompareFields(r) <= MutableFields(r)
    ensures Description in CompareFields(r)
  {
  }

  lemma ComparableOfMutable(r: Resource, o: Obj)
    ensures Comparable(r, Mutable(r, o)) == Comparable(r, o)
    ensures LookupOf(r, Comparable(r, o)) == LookupOf(r, o)
    ensures LookupOf(r, Mutable(r, o)) == LookupOf(r, o)
  {
    FieldsNest(r);
  }

  predicate OccursAt(part: string, whole: string, i: int) {
    0 <= i <= |whole| - |part| && whole[i..i + |part|] == part
  }

  predicate Substring(part: string, whole: string) {
    exists i :: 0 <= i <= |whole| - |part| && OccursAt(part, whole, i)
  }

  /** The ownership marker stands in the description. */
  predicate Owned(marker: string, o: Obj) {
    Description in o && o[Description].Text? && Substring(marker, o[Description].text)
  }

  lemma OwnedIsComparable(marker: string, r: Resource, a: Obj, b: Obj)
    requires Comparable(r, a) == Comparable(r, b)
    ensures Owned(marker, a) <==> Owned(marker, b)
    ensures LookupOf(r, a) == LookupOf(r, b)
  {
    FieldsNest(r);
    ComparableOfMutable(r, a);
    ComparableOfMutable(r, b);
    assert Description in a <==> Description in Comparable(r, a);
    assert Description in b <==> Description in Comparable(r, b);
    assert Description in a ==> a[Description] == Comparable(r, a)[Description];
    assert Description in b ==> b[Description] == Comparable(r, b)[Description];
  }

  /** A lookup: the objects of a resource with given lookup fields. */
  predicate Matches(objects: Objects, r: Resource, probe: Obj, k: Key) {
    k in objects && k.0 == r && LookupOf(r, objects[k]) == probe
  }

  // ----- Effects of a write -----

  /** What a write did at the server, whatever it answered: nothing, some fields, or all of it. */
  datatype Effect = Untouched | Partly(fields: set<Field>) | Wholly

  function Blend(before: Obj, after: Obj, e: Effect): Obj {
    match e
    case Untouched => before
    case Partly(fields) => (before - fields) + Only(after, fields)
    case Wholly => after
  }

  /** A PUT, POST or DELETE as the node saw it: what was there, what was sent, and what it did. */
  datatype Write = Write(key: Key, before: Option<Obj>, body: Option<Obj>, effect: Effect)

  /** The fields in which two objects differ. */
  function Differences(a: Obj, b: Obj): set<Field> {
    set f | f in a.Keys + b.Keys && (f !in a || f !in b || a[f] != b[f])
  }

  /** A PUT that took effect on some, but not all, of the comparable fields that it was to change. */
  predicate Tears(r: Resource, before: Obj, body: Obj, e: Effect) {
    var changed := Differences(Comparable(r, before), Comparable(r, body));
    e.Partly? && !(changed <= e.fields) && !(changed !! e.fields)
  }

  predicate Torn(w: Write) {
    w.before.Some? && w.body.Some? && Tears(w.key.0, w.before.value, w.body.value, w.effect)
  }

  ghost predicate NoneTorn(writes: seq<Write>) {
    forall w :: w in writes ==> !Torn(w)
  }

  /** Field by field, a blend is what was sent where the write took effect, and what was there elsewhere. */
  lemma ComparableOfBlend(r: Resource, before: Obj, body: Obj, fields: set<Field>, f: Field)
    ensures var c := Comparable(r, Blend(before, body, Partly(fields)));
            var source := if f in fields then Comparable(r, body) else Comparable(r, before);
            (f in c <==> f in source) && (f in c ==> c[f] == source[f])
  {
  }

  /** What a PUT leaves behind is comparable to what was there or to what was sent exactly when it did not tear. */
  lemma TornExactly(r: Resource, before: Obj, body: Obj, e: Effect)
    ensures var c := Comparable(r, Blend(before, body, e));
            (c == Comparable(r, before) || c == Comparable(r, body)) <==> !Tears(r, before, body, e)
  {
    if e.Partly? {
      var c, a, b := Comparable(r, Blend(before, body, e)), Comparable(r, before), Comparable(r, body);
      var changed := Differences(a, b);
      forall f ensures (f in c <==> f in if f in e.fields then b else a) && (f in c ==> c[f] == (if f in e.fields then b else a)[f]) {
        ComparableOfBlend(r, before, body, e.fields, f);
      }
      if !(changed <= e.fields) {
        var f :| f in changed && f !in e.fields;
        assert c != b;
      } else {
        assert forall f :: f in c <==> f in b;
        assert c == b;
      }
      if !(changed !! e.fields) {
        var f :| f in changed && f in e.fields;
        assert c != a;
      } else {
        assert forall f :: f in c <==> f in a;
        assert c == a;
      }
    }
  }

  /** Writing the same lookup fields, in whole or in part, leaves the object findable as before. */
  lemma BlendKeepsLookup(r: Resource, before: Obj, after: Obj, e: Effect)
    requires LookupOf(r, before) == LookupOf(r, after)
    ensures LookupOf(r, Blend(before, after, e)) == LookupOf(r, before)
  {
    var l := LookupOf(r, Blend(before, after, e));
    forall f | f in LookupFields(r)
      ensures (f in l <==> f in LookupOf(r, before)) && (f in l ==> l[f] == LookupOf(r, before)[f])
    {
      assert f in before <==> f in LookupOf(r, before);
      assert f in after <==> f in LookupOf(r, after);
      if f in before { assert before[f] == LookupOf(r, before)[f]; }
      if f in after { assert after[f] == LookupOf(r, after)[f]; }
    }
    assert l.Keys == LookupOf(r, before).Keys;
  }

  /** A partial creation still names the object. */
  function Created(r: Resource, body: Obj, e: Effect): Obj {
    match e
    case Partly(fields) => Only(body, fields + LookupFields(r))
    case _ => body
  }

  lemma CreatedKeepsLookup(r: Resource, body: Obj, e: Effect)
    ensures LookupOf(r, Created(r, body, e)) == LookupOf(r, body)
  {
  }

  // ----- Prepared actions -----

  datatype Action =
    | Create(op: Id, resource: Resource, desired: Obj)
    | Update(op: Id, resource: Resource, desired: Obj, id: Id, snapshot: Obj, pre: Obj)
    | Noop(op: Id, resource: Resource, desired: Obj, id: Id, pre: Obj)
    | Deferred(op: Id, source: string, destination: string, refs: seq<string>, desired: Obj)

  /** What any action promises about itself. */
  ghost predicate ActionValid(marker: string, a: Action) {
    && Owned(marker, a.desired)
    && (a.Noop? ==> a.pre == Comparable(a.resource, a.desired))
    && (a.Update? ==>
          && Owned(marker, a.snapshot) && a.pre == Comparable(a.resource, a.snapshot)
          && a.snapshot == Mutable(a.resource, a.snapshot)
          && LookupOf(a.resource, a.snapshot) == LookupOf(a.resource, a.desired))
  }

  /** What it says about the objects it was prepared from. */
  ghost predicate Classifies(objects: Objects, marker: string, a: Action) {
    match a
    case Create(_, r, desired) => forall k :: !Matches(objects, r, LookupOf(r, desired), k)
    case Update(_, r, desired, id, snapshot, pre) =>
      && Matches(objects, r, LookupOf(r, desired), (r, id)) && Owned(marker, objects[(r, id)])
      && snapshot == Mutable(r, objects[(r, id)]) && pre == Comparable(r, objects[(r, id)])
      && pre != Comparable(r, desired)
    case Noop(_, r, desired, id, pre) =>
      && Matches(objects, r, LookupOf(r, desired), (r, id)) && Owned(marker, objects[(r, id)])
      && pre == Comparable(r, objects[(r, id)]) == Comparable(r, desired)
    case Deferred(_, _, _, _, _) => true
  }

  // ----- The journal -----

  datatype Entry =
    | CreateEntry(op: Id, resource: Resource, desired: Obj, id: Option<Id>, post: Option<Obj>)
    | UpdateEntry(op: Id, resource: Resource, target: Id, snapshot: Obj, pre: Obj, post: Option<Obj>)

  /**
   The object an entry is about.  `landed` is the key of an object that a creation
   left behind without telling its id.
   */
  function TargetOf(e: Entry, landed: Option<Key>): Option<Key> {
    match e
    case CreateEntry(_, r, _, Some(id), _) => Some((r, id))
    case CreateEntry(_, _, _, None, _) => landed
    case UpdateEntry(_, r, id, _, _, _) => Some((r, id))
  }

  ghost predicate Touched(journal: seq<Entry>, landed: Option<Key>, k: Key) {
    exists i :: 0 <= i < |journal| && TargetOf(journal[i], landed) == Some(k)
  }

  /** No earlier entry is about the same object. */
  ghost predicate First(journal: seq<Entry>, landed: Option<Key>, i: nat)
    requires i < |journal|
  {
    forall j :: 0 <= j < i ==> TargetOf(journal[j], landed) != TargetOf(journal[i], landed)
  }

  ghost predicate Same(origin: Objects, objects: Objects, k: Key) {
    (k in objects <==> k in origin) && (k in objects ==> objects[k] == origin[k])
  }

  /** If the object is there, it has the lookup fields of `o`. */
  ghost predicate FoundBy(objects: Objects, k: Key, o: Obj) {
    k in objects ==> LookupOf(k.0, objects[k]) == LookupOf(k.0, o)
  }

  ghost predicate EntryValid(marker: string, origin: Objects, objects: Objects, journal: seq<Entry>, landed: Option<Key>, i: nat)
    requires i < |journal|
  {
    match journal[i]
    case CreateEntry(_, r, desired, id, _) =>
      && Owned(marker, desired)
      && (id.Some? ==> (r, id.value) !in origin && FoundBy(objects, (r, id.value), desired))
      && (id == None ==> i == |journal| - 1)
      && (id == None ==> forall k :: Matches(objects, r, LookupOf(r, desired), k) ==> landed == Some(k))
    case UpdateEntry(_, r, id, snapshot, pre, _) =>
      var k := (r, id);
      && Owned(marker, snapshot) && pre == Comparable(r, snapshot) && snapshot == Mutable(r, snapshot)
      && FoundBy(objects, k, snapshot)
      && (k in origin ==> Owned(marker, origin[k]))
      && (First(journal, landed, i) ==> k in origin && pre == Comparable(r, origin[k]))
  }

  /** An unrecorded creation belongs to the last entry, and its object can be found again. */
  ghost predicate LandedValid(origin: Objects, objects: Objects, journal: seq<Entry>, landed: Option<Key>) {
    landed.Some? ==>
      && journal != []
      && var e := journal[|journal| - 1];
         && e.CreateEntry? && e.id == None && landed.value !in origin
         && (landed.value in objects ==> Matches(objects, e.resource, LookupOf(e.resource, e.desired), landed.value))
  }

  /**
   What the journal says about the objects, whatever failed so far: everything outside
   it is as it was at `prepare`, and every entry names an object that was new or owned.
   */
  ghost predicate Explains(marker: string, origin: Objects, objects: Objects, journal: seq<Entry>, landed: Option<Key>) {
    && (forall k :: !Touched(journal, landed, k) ==> Same(origin, objects, k))
    && (forall i: nat :: i < |journal| ==> EntryValid(marker, origin, objects, journal, landed, i))
    && LandedValid(origin, objects, journal, landed)
  }

  /** Equal on comparable fields to its state at `prepare`, or absent as it was. */
  ghost predicate Settled(origin: Objects, objects: Objects, k: Key) {
    (k in objects <==> k in origin) && (k in objects ==> Comparable(k.0, objects[k]) == Comparable(k.0, origin[k]))
  }

  ghost predicate Restored(origin: Objects, objects: Objects) {
    forall k :: Settled(origin, objects, k)
  }

  /** The entry has been undone. */
  ghost predicate Undone(objects: Objects, e: Entry, landed: Option<Key>) {
    match e
    case CreateEntry(_, _, _, _, _) => TargetOf(e, landed).Some? ==> TargetOf(e, landed).value !in objects
    case UpdateEntry(_, r, id, _, pre, _) => (r, id) in objects && Comparable(r, objects[(r, id)]) == pre
  }

  /** Undoing the first entry about an object settles it. */
  lemma UndoneSettles(marker: string, origin: Objects, objects: Objects, journal: seq<Entry>, landed: Option<Key>, i: nat)
    requires Explains(marker, origin, objects, journal, landed)
    requires i < |journal| && First(journal, landed, i) && Undone(objects, journal[i], landed)
    requires TargetOf(journal[i], landed).Some?
    ensures Settled(origin, objects, TargetOf(journal[i], landed).value)
  {
    assert EntryValid(marker, origin, objects, journal, landed, i);
  }

  lemma FirstExists(journal: seq<Entry>, landed: Option<Key>, k: Key) returns (i: nat)
    requires Touched(journal, landed, k)
    ensures i < |journal| && TargetOf(journal[i], landed) == Some(k) && First(journal, landed, i)
  {
    i := 0;
    while TargetOf(journal[i], landed) != Some(k)
      invariant i < |journal|
      invariant exists j :: i <= j < |journal| && TargetOf(journal[j], landed) == Some(k)
      invariant forall j :: 0 <= j < i ==> TargetOf(journal[j], landed) != Some(k)
      decreases |journal| - i
    {
      i := i + 1;
    }
  }

  ghost predicate FirstsSettled(origin: Objects, objects: Objects, journal: seq<Entry>, landed: Option<Key>, from: nat) {
    forall i: nat :: from <= i < |journal| ==> FirstSettled(origin, objects, journal, landed, i)
  }

  /** The entry's object is settled, if this is the first entry about it. */
  ghost predicate FirstSettled(origin: Objects, objects: Objects, journal: seq<Entry>, landed: Option<Key>, i: nat)
    requires i < |journal|
  {
    First(journal, landed, i) && TargetOf(journal[i], landed).Some? ==> Settled(origin, objects, TargetOf(journal[i], landed).value)
  }

  /** When every first entry is settled, the whole object map is. */
  lemma AllSettled(marker: string, origin: Objects, objects: Objects, journal: seq<Entry>, landed: Option<Key>)
    requires Explains(marker, origin, objects, journal, landed)
    requires FirstsSettled(origin, objects, journal, landed, 0)
    ensures Restored(origin, objects)
  {
    forall k ensures Settled(origin, objects, k) {
      if Touched(journal, landed, k) {
        var i := FirstExists(journal, landed, k);
        assert FirstSettled(origin, objects, journal, landed, i);
      } else {
        assert Same(origin, objects, k);
      }
    }
  }

  /** The journal never names an object that lacked the marker at `prepare`. */
  lemma UnownedIsNeverTouched(marker: string, origin: Objects, objects: Objects, journal: seq<Entry>, landed: Option<Key>, k: Key)
    requires Explains(marker, origin, objects, journal, landed) && k in origin && !Owned(marker, origin[k])
    ensures !Touched(journal, landed, k)
  {
    forall i: nat | i < |journal| ensures TargetOf(journal[i], landed) != Some(k) {
      assert EntryValid(marker, origin, objects, journal, landed, i);
    }
  }

  /** What an entry's object is looked up by. */
  function EntryKey(e: Entry): (Resource, Obj) {
    match e
    case CreateEntry(_, r, desired, _, _) => (r, LookupOf(r, desired))
    case UpdateEntry(_, r, _, snapshot, _, _) => (r, LookupOf(r, snapshot))
  }

  ghost predicate DistinctEntries(journal: seq<Entry>) {
    forall i, j :: 0 <= i < j < |journal| ==> EntryKey(journal[i]) != EntryKey(journal[j])
  }

  // ----- Which entries can still be undone -----

  /** The journal's entries address distinct objects. */
  ghost predicate DistinctTargets(journal: seq<Entry>, landed: Option<Key>) {
    forall i, j :: 0 <= i < j < |journal| && TargetOf(journal[i], landed).Some?
      ==> TargetOf(journal[i], landed) != TargetOf(journal[j], landed)
  }

  /** Untouched since, undone already, or recognisably the transaction's own doing. */
  ghost predicate Recoverable(objects: Objects, e: Entry, landed: Option<Key>) {
    var t := TargetOf(e, landed);
    match e
    case CreateEntry(_, r, desired, _, post) =>
      t.Some? && t.value in objects ==>
        && Comparable(r, objects[t.value]) == Comparable(r, desired)
        && (post.Some? ==> post.value == Comparable(r, objects[t.value]))
    case UpdateEntry(_, r, id, _, pre, post) =>
      && (r, id) in objects
      && (Comparable(r, objects[(r, id)]) == pre || (post == Some(Comparable(r, objects[(r, id)]))))
  }

  /** With distinct targets, each of the first `n` entries can be undone. */
  ghost predicate UndoableUpTo(objects: Objects, journal: seq<Entry>, landed: Option<Key>, n: nat)
    requires n <= |journal|
  {
    DistinctTargets(journal, landed) ==> forall i :: 0 <= i < n ==> Recoverable(objects, journal[i], landed)
  }

  ghost predicate AllRecoverable(objects: Objects, journal: seq<Entry>, landed: Option<Key>) {
    forall e :: e in journal ==> Recoverable(objects, e, landed)
  }
}
