/** What a rollback of the ISE transaction can still undo, attempt after attempt. */
module IseUndo {
  import opened Basics
  import opened IseObjects
  import opened IseServer
  import opened IseJournal

  /** What the log has gained. */
  ghost function Since(before: seq<Write>, now: seq<Write>): seq<Write>
    requires before <= now
  {
    now[|before|..]
  }

  lemma OneWrite(before: seq<Write>, w: Write)
    ensures Since(before, before) == [] && Since(before, before + [w]) == [w]
    ensures NoneTorn([]) && (NoneTorn([w]) <==> !Torn(w))
  {
    assert w in [w];
  }

  /** A rollback's PUT over the recorded post-state keeps the entry recoverable exactly when it does not tear. */
  lemma RestoringPut(objects: Objects, entry: Entry, e: Effect, landed: Option<Key>)
    requires entry.UpdateEntry? && (entry.resource, entry.target) in objects
    requires entry.post == Some(Comparable(entry.resource, objects[(entry.resource, entry.target)]))
    requires entry.pre == Comparable(entry.resource, entry.snapshot)
    ensures var key := (entry.resource, entry.target);
            Recoverable(objects[key := Blend(objects[key], entry.snapshot, e)], entry, landed) <==>
              !Torn(Write(key, Some(objects[key]), Some(entry.snapshot), e))
  {
    TornExactly(entry.resource, objects[(entry.resource, entry.target)], entry.snapshot, e);
  }

  lemma SinceJoins(a: seq<Write>, b: seq<Write>, c: seq<Write>)
    requires a <= b <= c
    ensures Since(a, c) == Since(a, b) + Since(b, c)
    ensures NoneTorn(Since(a, c)) <==> NoneTorn(Since(a, b)) && NoneTorn(Since(b, c))
  {
    assert c[|a|..] == b[|a|..] + c[|b|..];
  }

  /** The exact condition for a rollback to finish once the node is healthy. */
  ghost predicate CanFinish(objects: Objects, journal: seq<Entry>, landed: Option<Key>, attempted: seq<Write>) {
    AllRecoverable(objects, journal, landed) && NoneTorn(attempted)
  }

  /** While entries `from` on are undone: what was recoverable is handled unless a PUT tears, what was not still is not. */
  ghost predicate Progress(before: Objects, now: Objects, journal: seq<Entry>, landed: Option<Key>, from: nat, failures: bool,
                           healthy: bool, attempted: seq<Write>)
    requires from <= |journal|
  {
    && (forall i :: 0 <= i < from ==> (Recoverable(now, journal[i], landed) <==> Recoverable(before, journal[i], landed)))
    && (forall i :: from <= i < |journal| && !Recoverable(before, journal[i], landed) ==>
          failures && !Recoverable(now, journal[i], landed))
    && (!failures ==> RecoverableFrom(now, journal, landed, from))
    && (RecoverableFrom(before, journal, landed, from) ==>
          (healthy ==> !failures) && (RecoverableFrom(now, journal, landed, from) <==> NoneTorn(attempted)))
  }

  ghost predicate RecoverableFrom(objects: Objects, journal: seq<Entry>, landed: Option<Key>, from: nat) {
    forall i :: from <= i < |journal| ==> Recoverable(objects, journal[i], landed)
  }

  /** What the attempt at one entry comes to: nothing else changes, and a PUT that tears is the only way to lose it. */
  ghost predicate EntryTried(before: Objects, after: Objects, e: Entry, landed: Option<Key>, failed: bool, healthy: bool, added: seq<Write>) {
    && (forall k :: Some(k) != TargetOf(e, landed) ==> Same(before, after, k))
    && (!failed ==> Undone(after, e, landed))
    && (!Recoverable(before, e, landed) ==> failed && after == before)
    && (Recoverable(before, e, landed) ==> (healthy ==> !failed) && (Recoverable(after, e, landed) <==> NoneTorn(added)))
  }

  lemma ProgressStep(before: Objects, now: Objects, after: Objects, journal: seq<Entry>, landed: Option<Key>, i: nat,
                             was: bool, failed: bool, healthy: bool, attempted: seq<Write>, added: seq<Write>)
    requires i < |journal| && DistinctTargets(journal, landed)
    requires Progress(before, now, journal, landed, i + 1, was, healthy, attempted)
    requires EntryTried(now, after, journal[i], landed, failed, healthy, added)
    ensures Progress(before, after, journal, landed, i, was || failed, healthy, attempted + added)
  {
    forall j | 0 <= j < |journal| && j != i ensures Recoverable(after, journal[j], landed) <==> Recoverable(now, journal[j], landed) {
      var t := TargetOf(journal[j], landed);
      if t.Some? {
        assert t != TargetOf(journal[i], landed);
        assert Same(now, after, t.value);
      }
      RecoverableIsLocal(now, after, journal[j], landed);
    }
    assert NoneTorn(attempted + added) <==> NoneTorn(attempted) && NoneTorn(added);
    assert RecoverableFrom(now, journal, landed, i) <==> Recoverable(now, journal[i], landed) && RecoverableFrom(now, journal, landed, i + 1);
    assert RecoverableFrom(before, journal, landed, i) <==> Recoverable(before, journal[i], landed) && RecoverableFrom(before, journal, landed, i + 1);
    assert RecoverableFrom(after, journal, landed, i) <==> Recoverable(after, journal[i], landed) && RecoverableFrom(after, journal, landed, i + 1);
    assert RecoverableFrom(after, journal, landed, i + 1) <==> RecoverableFrom(now, journal, landed, i + 1);
  }

  lemma FirstsStaySettled(marker: string, origin: Objects, now: Objects, after: Objects, journal: seq<Entry>, landed: Option<Key>, i: nat)
    requires i < |journal| && Explains(marker, origin, after, journal, landed)
    requires forall k :: Some(k) != TargetOf(journal[i], landed) ==> Same(now, after, k)
    ensures Undone(after, journal[i], landed) && FirstsSettled(origin, now, journal, landed, i + 1) ==>
              FirstsSettled(origin, after, journal, landed, i)
  {
    if Undone(after, journal[i], landed) && FirstsSettled(origin, now, journal, landed, i + 1) {
      forall j: nat | i <= j < |journal| ensures FirstSettled(origin, after, journal, landed, j) {
        if First(journal, landed, j) && TargetOf(journal[j], landed).Some? {
          var k := TargetOf(journal[j], landed).value;
          if j == i {
            UndoneSettles(marker, origin, after, journal, landed, i);
          } else {
            assert TargetOf(journal[i], landed) != TargetOf(journal[j], landed);
            assert FirstSettled(origin, now, journal, landed, j) && Same(now, after, k);
          }
        }
      }
    }
  }

  /** Entries `from` on have been tried, with the writes since `start`. */
  ghost predicate Tried(origin: Objects, before: Objects, now: Objects, journal: seq<Entry>, landed: Option<Key>, from: nat, failures: bool,
                        healthy: bool, start: seq<Write>, writes: seq<Write>)
    requires from <= |journal|
  {
    && start <= writes
    && (!failures ==> FirstsSettled(origin, now, journal, landed, from))
    && (DistinctTargets(journal, landed) ==> Progress(before, now, journal, landed, from, failures, healthy, Since(start, writes)))
  }

  lemma NoneTried(origin: Objects, objects: Objects, journal: seq<Entry>, landed: Option<Key>, healthy: bool, writes: seq<Write>)
    ensures Tried(origin, objects, objects, journal, landed, |journal|, false, healthy, writes, writes)
  {
  }

  lemma TriedStep(marker: string, origin: Objects, before: Objects, now: Objects, after: Objects, journal: seq<Entry>, landed: Option<Key>, i: nat,
                  was: bool, failed: bool, healthy: bool, start: seq<Write>, sent: seq<Write>, writes: seq<Write>)
    requires i < |journal| && sent <= writes && Explains(marker, origin, after, journal, landed)
    requires Tried(origin, before, now, journal, landed, i + 1, was, healthy, start, sent)
    requires EntryTried(now, after, journal[i], landed, failed, healthy, Since(sent, writes))
    ensures Tried(origin, before, after, journal, landed, i, was || failed, healthy, start, writes)
  {
    SinceJoins(start, sent, writes);
    FirstsStaySettled(marker, origin, now, after, journal, landed, i);
    if DistinctTargets(journal, landed) {
      ProgressStep(before, now, after, journal, landed, i, was, failed, healthy, Since(start, sent), Since(sent, writes));
    }
  }

  /** What an attempt comes to. */
  ghost predicate Attempt(before: Objects, now: Objects, journal: seq<Entry>, landed: Option<Key>, failures: bool, healthy: bool, attempted: seq<Write>) {
    && (!AllRecoverable(before, journal, landed) ==> failures && !AllRecoverable(now, journal, landed))
    && (AllRecoverable(before, journal, landed) ==>
          && (healthy ==> !failures)
          && (!failures ==> NoneTorn(attempted))
          && (AllRecoverable(now, journal, landed) <==> NoneTorn(attempted)))
  }

  lemma AllTried(origin: Objects, before: Objects, now: Objects, journal: seq<Entry>, landed: Option<Key>, failures: bool, healthy: bool,
                 start: seq<Write>, writes: seq<Write>)
    requires Tried(origin, before, now, journal, landed, 0, failures, healthy, start, writes)
    ensures !failures ==> FirstsSettled(origin, now, journal, landed, 0)
    ensures DistinctTargets(journal, landed) ==> Attempt(before, now, journal, landed, failures, healthy, Since(start, writes))
  {
    assert AllRecoverable(before, journal, landed) <==> RecoverableFrom(before, journal, landed, 0);
    assert AllRecoverable(now, journal, landed) <==> RecoverableFrom(now, journal, landed, 0);
    if DistinctTargets(journal, landed) && !RecoverableFrom(before, journal, landed, 0) {
      var i :| 0 <= i < |journal| && !Recoverable(before, journal[i], landed);
      assert !Recoverable(now, journal[i], landed);
    }
  }

  /** No write was addressed to an object that lacked the marker at `prepare`. */
  ghost predicate WritesOwned(marker: string, origin: Objects, writes: seq<Write>) {
    forall w :: w in writes && w.key in origin ==> Owned(marker, origin[w.key])
  }

  lemma StillOwned(marker: string, origin: Objects, writes: seq<Write>, writes': seq<Write>, base: nat, w: Write)
    requires base <= |writes| && WritesOwned(marker, origin, writes[base..])
    requires writes' == writes || (writes' == writes + [w] && (w.key in origin ==> Owned(marker, origin[w.key])))
    ensures base <= |writes'| && WritesOwned(marker, origin, writes'[base..])
  {
    if writes' == writes + [w] { assert writes'[base..] == writes[base..] + [w]; }
  }

  // ----- What a transaction that stopped can still undo -----

  /** The write took effect on a comparable field that it was to change. */
  predicate Shows(r: Resource, before: Obj, body: Obj, e: Effect) {
    var changed := Differences(Comparable(r, before), Comparable(r, body));
    changed != {} && (e.Wholly? || (e.Partly? && !(changed !! e.fields)))
  }

  /** The creation took effect without some comparable field that it was to set. */
  predicate Lacks(r: Resource, desired: Obj, e: Effect) {
    e.Partly? && !(Comparable(r, desired).Keys <= e.fields + LookupFields(r))
  }

  lemma DifferentMeansDifferences(a: Obj, b: Obj)
    ensures a == b <==> Differences(a, b) == {}
  {
    if Differences(a, b) == {} {
      forall f ensures (f in a <==> f in b) && (f in a ==> a[f] == b[f]) { assert f !in Differences(a, b); }
      assert a == b;
    }
  }

  /** A write that takes effect in part leaves the comparable fields alone exactly when it misses all that it was to change. */
  lemma ShowsExactly(r: Resource, before: Obj, body: Obj, e: Effect)
    ensures Comparable(r, Blend(before, body, e)) == Comparable(r, before) <==> !Shows(r, before, body, e)
  {
    var c, a, b := Comparable(r, Blend(before, body, e)), Comparable(r, before), Comparable(r, body);
    DifferentMeansDifferences(a, b);
    if e.Partly? {
      forall f ensures (f in c <==> f in if f in e.fields then b else a) && (f in c ==> c[f] == (if f in e.fields then b else a)[f]) {
        ComparableOfBlend(r, before, body, e.fields, f);
      }
      if !(Differences(a, b) !! e.fields) {
        var f :| f in Differences(a, b) && f in e.fields;
        assert c != a;
      } else {
        assert forall f :: f in c <==> f in a;
        assert c == a;
      }
    }
  }

  /**
   An update whose post-state was not noted, as after a lost answer: it can be undone if
   and only if its PUT took effect on none of the comparable fields that it was to change.
   */
  lemma UnverifiedUpdateIff(before: Objects, entry: Entry, body: Obj, e: Effect, landed: Option<Key>)
    requires entry.UpdateEntry? && entry.post == None && (entry.resource, entry.target) in before
    requires entry.pre == Comparable(entry.resource, before[(entry.resource, entry.target)])
    ensures var k := (entry.resource, entry.target);
            Recoverable(before[k := Blend(before[k], body, e)], entry, landed) <==> !Shows(k.0, before[k], body, e)
  {
    ShowsExactly(entry.resource, before[(entry.resource, entry.target)], body, e);
  }

  /**
   A creation whose post-state was not noted: it can be undone if and only if its POST did
   not leave an object behind that lacks some of the comparable fields.
   */
  lemma UnverifiedCreateIff(before: Objects, entry: Entry, k: Key, e: Effect, landed: Option<Key>)
    requires entry.CreateEntry? && entry.post == None && TargetOf(entry, landed) == Some(k) && k.0 == entry.resource
    ensures Recoverable(before[k := IseObjects.Created(k.0, Mutable(k.0, entry.desired), e)], entry, landed) <==> !Lacks(k.0, entry.desired, e)
  {
    var made, want := Comparable(k.0, IseObjects.Created(k.0, Mutable(k.0, entry.desired), e)), Comparable(k.0, entry.desired);
    ComparableOfMutable(k.0, entry.desired);
    FieldsNest(k.0);
    if e.Partly? {
      assert made.Keys == want.Keys * (e.fields + LookupFields(k.0));
      assert forall f :: f in made ==> made[f] == want[f];
      if Lacks(k.0, entry.desired, e) {
        assert made.Keys != want.Keys;
      } else {
        assert made.Keys == want.Keys;
        assert made == want;
      }
    }
  }

  /** The write that the entry stands for. */
  ghost predicate SentFor(e: Entry, w: Write) {
    match e
    case CreateEntry(_, r, desired, _, _) => w.key.0 == r && w.before == None && w.body == Some(Mutable(r, desired))
    case UpdateEntry(_, r, id, _, pre, _) => w.key == (r, id) && w.before.Some? && w.body.Some? && pre == Comparable(r, w.before.value)
  }

  /** What the write did can no longer be told apart from somebody else's doing. */
  predicate Lost(e: Entry, w: Write) {
    match e
    case CreateEntry(_, r, desired, _, _) => Lacks(r, desired, w.effect)
    case UpdateEntry(_, r, _, _, _, post) =>
      post == None && w.before.Some? && w.body.Some? && Shows(r, w.before.value, w.body.value, w.effect)
  }

  /** The entry's write is the last one that was sent, or it had no effect; the entry can be undone unless that write is lost. */
  ghost predicate KnownAt(objects: Objects, journal: seq<Entry>, landed: Option<Key>, writes: seq<Write>, sent: Write, i: nat)
    requires i < |journal|
  {
    && SentFor(journal[i], sent) && (sent.effect != Untouched ==> writes != [] && writes[|writes| - 1] == sent)
    && (Recoverable(objects, journal[i], landed) <==> !Lost(journal[i], sent))
  }

  ghost predicate LastKnown(objects: Objects, journal: seq<Entry>, landed: Option<Key>, writes: seq<Write>, sent: Write) {
    forall i: nat :: i < |journal| && i == |journal| - 1 ==> KnownAt(objects, journal, landed, writes, sent, i)
  }

  lemma UpdateSent(before: Objects, journal: seq<Entry>, entry: Entry, body: Obj, e: Effect, writes: seq<Write>)
    requires entry.UpdateEntry? && entry.post == None && (entry.resource, entry.target) in before
    requires entry.pre == Comparable(entry.resource, before[(entry.resource, entry.target)])
    ensures var k := (entry.resource, entry.target);
            var w := Write(k, Some(before[k]), Some(body), e);
            LastKnown(before[k := Blend(before[k], body, e)], journal + [entry], None, writes + [w], w)
  {
    UnverifiedUpdateIff(before, entry, body, e, None);
  }

  /** `left`: the object that the POST left behind. */
  lemma CreateSent(before: Objects, after: Objects, journal: seq<Entry>, op: Id, r: Resource, desired: Obj, key: Key, left: Option<Key>,
                   e: Effect, writes: seq<Write>, writes': seq<Write>)
    requires key.0 == r && (left == None || left == Some(key))
    requires left == None ==> after == before
    requires left.Some? ==> after == before[key := IseObjects.Created(r, Mutable(r, desired), e)]
    requires left.Some? ==> writes' == writes + [Write(key, None, Some(Mutable(r, desired)), e)]
    ensures var w := Write(key, None, Some(Mutable(r, desired)), if left == None then Untouched else e);
            LastKnown(after, journal + [CreateEntry(op, r, desired, None, None)], left, writes', w)
  {
    if left.Some? { UnverifiedCreateIff(before, CreateEntry(op, r, desired, None, None), key, e, left); }
  }

  /** What a journaled POST of any effect leaves: the account, the earlier entries, and what is known of the last one. */
  lemma CreateAccounted(marker: string, origin: Objects, before: Objects, after: Objects, journal: seq<Entry>, op: Id, r: Resource, desired: Obj,
                        key: Key, left: Option<Key>, e: Effect, writes: seq<Write>, writes': seq<Write>)
    requires Explains(marker, origin, before, journal, None) && Present(origin, before, journal)
    requires UndoableUpTo(before, journal, None, |journal|)
    requires Owned(marker, desired) && forall k :: !Matches(before, r, LookupOf(r, desired), k)
    requires key.0 == r && (left == None || left == Some(key))
    requires left == None ==> after == before
    requires left.Some? ==> key !in before && after == before[key := IseObjects.Created(r, Mutable(r, desired), e)]
    requires left.Some? ==> writes' == writes + [Write(key, None, Some(Mutable(r, desired)), e)]
    ensures var all := journal + [CreateEntry(op, r, desired, None, None)];
            && Explains(marker, origin, after, all, left) && UndoableUpTo(after, all, left, |journal|)
            && LastKnown(after, all, left, writes', Write(key, None, Some(Mutable(r, desired)), if left == None then Untouched else e))
  {
    AppendCreate(marker, origin, before, after, journal, op, r, desired, left, e);
    EarlierStayUndoable(before, after, journal, CreateEntry(op, r, desired, None, None), left);
    CreateSent(before, after, journal, op, r, desired, key, left, e, writes, writes');
  }

  /** The same for a journaled PUT. */
  lemma UpdateAccounted(marker: string, origin: Objects, before: Objects, after: Objects, journal: seq<Entry>, entry: Entry, body: Obj, e: Effect, writes: seq<Write>)
    requires Explains(marker, origin, before, journal, None) && Present(origin, before, journal)
    requires UndoableUpTo(before, journal, None, |journal|)
    requires entry.UpdateEntry? && entry.post == None && (entry.resource, entry.target) in before
    requires entry.pre == Comparable(entry.resource, before[(entry.resource, entry.target)]) == Comparable(entry.resource, entry.snapshot)
    requires Owned(marker, entry.snapshot) && entry.snapshot == Mutable(entry.resource, entry.snapshot)
    requires LookupOf(entry.resource, body) == LookupOf(entry.resource, entry.snapshot)
    requires after == before[(entry.resource, entry.target) := Blend(before[(entry.resource, entry.target)], body, e)]
    ensures Explains(marker, origin, after, journal + [entry], None) && UndoableUpTo(after, journal + [entry], None, |journal|)
    ensures Present(origin, after, journal + [entry])
    ensures LastKnown(after, journal + [entry], None, writes + [Write((entry.resource, entry.target), Some(before[(entry.resource, entry.target)]), Some(body), e)],
                      Write((entry.resource, entry.target), Some(before[(entry.resource, entry.target)]), Some(body), e))
  {
    AppendUpdate(marker, origin, before, journal, entry.op, entry.resource, entry.target, entry.snapshot, entry.pre, body, e);
    EarlierStayUndoable(before, after, journal, entry, None);
    UpdateSent(before, journal, entry, body, e, writes);
  }

  /** Noting the observed post-state keeps what is known of the last entry; an update is then recognised. */
  lemma PostNoted(objects: Objects, journal: seq<Entry>, entry: Entry, post: Obj, landed: Option<Key>, writes: seq<Write>, sent: Write)
    requires LastKnown(objects, journal + [entry], landed, writes, sent)
    requires TargetOf(entry, landed).Some? && TargetOf(entry, landed).value in objects
    requires post == Comparable(entry.resource, objects[TargetOf(entry, landed).value])
    requires entry.post == None
    ensures LastKnown(objects, journal + [WithPost(entry, Some(post))], landed, writes, sent)
  {
    assert KnownAt(objects, journal + [entry], landed, writes, sent, |journal|);
  }

  lemma PostAccounted(marker: string, origin: Objects, objects: Objects, journal: seq<Entry>, entry: Entry, post: Obj, writes: seq<Write>, sent: Write)
    requires Explains(marker, origin, objects, journal + [entry], None) && Present(origin, objects, journal + [entry])
    requires UndoableUpTo(objects, journal + [entry], None, |journal|) && LastKnown(objects, journal + [entry], None, writes, sent)
    requires entry.post == None && TargetOf(entry, None).Some? && TargetOf(entry, None).value in objects
    requires post == Comparable(entry.resource, objects[TargetOf(entry, None).value])
    ensures var all := journal + [WithPost(entry, Some(post))];
            && Explains(marker, origin, objects, all, None) && Present(origin, objects, all)
            && UndoableUpTo(objects, all, None, |journal|) && LastKnown(objects, all, None, writes, sent)
  {
    RecordPost(marker, origin, objects, journal, entry, Some(post), None);
    forall e | e in journal ensures TargetOf(e, None).Some? { assert e in journal + [entry]; }
    LastEntryAside(objects, journal, entry, WithPost(entry, Some(post)), None, None);
    PostNoted(objects, journal, entry, post, None, writes, sent);
    forall e | e in journal + [WithPost(entry, Some(post))] ensures TargetOf(e, None).Some? && TargetOf(e, None).value in objects {
      if e in journal { assert e in journal + [entry]; } else { assert entry in journal + [entry]; }
    }
  }

  /** So does learning the id of a creation. */
  lemma IdNoted(objects: Objects, journal: seq<Entry>, entry: Entry, id: Id, post: Option<Obj>, landed: Option<Key>, writes: seq<Write>, sent: Write)
    requires entry.CreateEntry? && entry.id == None && entry.post == None
    requires LastKnown(objects, journal + [entry], landed, writes, sent)
    requires if landed == None then (entry.resource, id) !in objects else landed.value == (entry.resource, id)
    requires post.Some? ==> (entry.resource, id) in objects && post.value == Comparable(entry.resource, objects[(entry.resource, id)])
    ensures LastKnown(objects, journal + [CreateEntry(entry.op, entry.resource, entry.desired, Some(id), post)], None, writes, sent)
  {
    assert KnownAt(objects, journal + [entry], landed, writes, sent, |journal|);
  }

  /** The state in which `apply` leaves off can be undone exactly when its last write was not lost. */
  lemma StoppedIsRecoverableIff(objects: Objects, journal: seq<Entry>, landed: Option<Key>, writes: seq<Write>, sent: Write)
    requires LastKnown(objects, journal, landed, writes, sent) && DistinctTargets(journal, landed)
    requires journal != [] ==> UndoableUpTo(objects, journal, landed, |journal| - 1)
    ensures AllRecoverable(objects, journal, landed) <==> journal == [] || !Lost(journal[|journal| - 1], sent)
  {
    if journal != [] {
      assert journal[|journal| - 1] in journal;
      assert KnownAt(objects, journal, landed, writes, sent, |journal| - 1);
      forall e | e in journal && e != journal[|journal| - 1] ensures Recoverable(objects, e, landed) {
        var i :| 0 <= i < |journal| && journal[i] == e;
      }
    }
  }

  // ----- Every object is back, and the journal is not cleared -----

  /** An update entry recorded, before or after, the state in which the first entry about its object found it. */
  ghost predicate Rejoins(journal: seq<Entry>, landed: Option<Key>, j: nat)
    requires j < |journal|
  {
    journal[j].UpdateEntry? ==>
      forall i: nat :: i <= j && First(journal, landed, i) && TargetOf(journal[i], landed) == TargetOf(journal[j], landed) ==>
        journal[i].UpdateEntry? && (journal[i].pre == journal[j].pre || journal[j].post == Some(journal[i].pre))
  }

  lemma CreatedIsGone(marker: string, origin: Objects, objects: Objects, journal: seq<Entry>, landed: Option<Key>, i: nat, k: Key)
    requires Explains(marker, origin, objects, journal, landed) && Restored(origin, objects)
    requires i < |journal| && journal[i].CreateEntry? && TargetOf(journal[i], landed) == Some(k)
    ensures k !in objects
  {
    assert EntryValid(marker, origin, objects, journal, landed, i);
    assert Settled(origin, objects, k);
  }

  lemma RestoredEntryIff(marker: string, origin: Objects, objects: Objects, journal: seq<Entry>, landed: Option<Key>, j: nat)
    requires Explains(marker, origin, objects, journal, landed) && Restored(origin, objects) && j < |journal|
    ensures Recoverable(objects, journal[j], landed) <==> Rejoins(journal, landed, j)
  {
    match journal[j]
    case CreateEntry(_, _, _, _, _) =>
      if TargetOf(journal[j], landed).Some? { CreatedIsGone(marker, origin, objects, journal, landed, j, TargetOf(journal[j], landed).value); }
    case UpdateEntry(_, r, id, _, pre, post) =>
      var k: Key := (r, id);
      assert TargetOf(journal[j], landed) == Some(k) && Touched(journal, landed, k);
      var i := FirstExists(journal, landed, k);
      assert i <= j;
      assert forall h: nat :: h < |journal| && First(journal, landed, h) && TargetOf(journal[h], landed) == Some(k) ==> h == i;
      if journal[i].CreateEntry? {
        CreatedIsGone(marker, origin, objects, journal, landed, i, k);
      } else {
        assert EntryValid(marker, origin, objects, journal, landed, i);
        assert Settled(origin, objects, k);
      }
  }

  /**
   A rollback put every object back but could not see it, as after a lost answer.  The
   entries are recoverable if and only if each update recorded the state that its object is
   back in: never, when the transaction had created the object first; when it had updated
   it first, exactly if the later update recorded the first one's pre-state.
   */
  lemma RestoredCanFinishIff(marker: string, origin: Objects, objects: Objects, journal: seq<Entry>, landed: Option<Key>)
    requires Explains(marker, origin, objects, journal, landed) && Restored(origin, objects)
    ensures AllRecoverable(objects, journal, landed) <==> forall j: nat :: j < |journal| ==> Rejoins(journal, landed, j)
  {
    forall j: nat | j < |journal| ensures Recoverable(objects, journal[j], landed) <==> Rejoins(journal, landed, j) {
      RestoredEntryIff(marker, origin, objects, journal, landed, j);
    }
    if forall j: nat :: j < |journal| ==> Rejoins(journal, landed, j) {
      forall e | e in journal ensures Recoverable(objects, e, landed) {
        var j :| 0 <= j < |journal| && journal[j] == e;
        assert Rejoins(journal, landed, j);
      }
    } else {
      var j: nat :| j < |journal| && !Rejoins(journal, landed, j);
      assert journal[j] in journal;
    }
  }

  // A group whose restoring PUT takes effect on its description only.

  function OldGroup(): Obj { map[Name := Text("x"), Description := Text("m old"), Value := Number(1)] }
  function NewGroup(): Obj { map[Name := Text("x"), Description := Text("m new"), Value := Number(2)] }

  /**
   A restoring PUT that takes effect in part: the object is then neither what it was nor
   what the transaction made of it, and no later rollback accepts the entry.
   */
  lemma TornPutIsNeverUndone(op: Id, id: Id)
    ensures var entry := UpdateEntry(op, Sgt, id, Mutable(Sgt, OldGroup()), Comparable(Sgt, OldGroup()), Some(Comparable(Sgt, NewGroup())));
            var after := Blend(NewGroup(), Mutable(Sgt, OldGroup()), Partly({Description}));
            && Recoverable(map[(Sgt, id) := NewGroup()], entry, None)
            && !Recoverable(map[(Sgt, id) := after], entry, None)
  {
    var before, body, e := NewGroup(), Mutable(Sgt, OldGroup()), Partly({Description});
    ComparableOfMutable(Sgt, OldGroup());
    assert Comparable(Sgt, before) == NewGroup() && Comparable(Sgt, body) == OldGroup();
    assert Value in Differences(NewGroup(), OldGroup()) && Description in Differences(NewGroup(), OldGroup());
    TornExactly(Sgt, before, body, e);
  }
}
