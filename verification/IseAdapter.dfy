/**
 The ISE adapter (orchestrator/ise.py): a transaction that classifies at `prepare`,
 journals before each write, verifies after it, and undoes in reverse.
 */
module IseAdapter {
  import opened Basics
  import opened Ordering
  import opened IseObjects
  import opened IseServer
  import opened IseJournal
  import opened IseOperations
  import opened IsePlan
  import opened IseUndo
  import opened IseSmooth

  class Adapter {
    const marker: string
    const operations: seq<Operation>
    const server: Server
    var prepared: Option<seq<Action>>
    var journal: seq<Entry>
    /** The objects at `prepare`, an unrecorded creation, and where the write log stood. */
    ghost var origin: Objects
    ghost var landed: Option<Key>
    ghost var base: nat
    /** The write of the journal's last entry, as the node saw it. */
    ghost var sent: Write
    /** The groups of each prepared cell, and the group ids known at `prepare`. */
    ghost var pairs: seq<Pair>
    ghost var known: map<string, Id>

    ghost predicate Valid()
      reads this, server`objects, server`writes
    {
      && Explains(marker, origin, server.objects, journal, landed)
      && base <= |server.writes|
      && WritesOwned(marker, origin, server.writes[base..])
      && (forall o :: o in operations ==> OperationValid(marker, o)) && NamesUnique(operations)
      && (prepared.Some? ==> PreparedValid(prepared.value))
    }

    ghost predicate PreparedValid(actions: seq<Action>)
      reads this`pairs, this`known
    {
      && (forall a :: a in actions ==> ActionValid(marker, a))
      && PlanSound(actions, pairs, known) && (CellPairsDistinct(operations) ==> PairsDistinct(actions, pairs))
    }

    constructor (marker: string, operations: seq<Operation>, server: Server)
      requires ManifestValid(marker, operations)
      ensures Valid() && journal == [] && prepared == None && origin == server.objects
      ensures this.marker == marker && this.operations == operations && this.server == server
    {
      this.marker, this.operations, this.server := marker, operations, server;
      prepared, journal, origin, landed, base, pairs, known := None, [], server.objects, None, |server.writes|, [], map[];
      sent := Write((Sgt, ""), None, None, Untouched);
    }

    ghost function Now(): Node
      reads this, server
    {
      Node(server.objects, server.tick, journal)
    }

    // ----- Forward -----

    /** So far every write was verified: no creation is pending, nothing was deleted. */
    ghost predicate Forward()
      reads this, server`objects, server`writes
    {
      Valid() && landed == None && Present(origin, server.objects, journal)
    }

    /** Besides, every entry can still be undone, if no two are about one object. */
    ghost predicate Clean()
      reads this, server`objects, server`writes
    {
      Forward() && UndoableUpTo(server.objects, journal, landed, |journal|) && LastKnown(server.objects, journal, landed, server.writes, sent)
    }

    /** Where an action may stop: at most the last entry cannot be undone, and only for what its write did. */
    ghost predicate Stopped()
      reads this, server`objects, server`writes
    {
      && Valid() && (journal != [] ==> UndoableUpTo(server.objects, journal, landed, |journal| - 1))
      && LastKnown(server.objects, journal, landed, server.writes, sent)
    }

    method ApplyNoop(a: Action) returns (answer: Result<Id, IseError>)
      requires Clean() && a.Noop? && ActionValid(marker, a)
      modifies server`tick
      ensures Clean() && server.tick >= old(server.tick)
      ensures answer.Ok? ==> Confirmed(a, answer.value)
      ensures answer.Ok? ==> answer.value == a.id
      ensures Follows(server.script, old(server.tick), NoopRun(old(Now()), a), answer, Now())
      ensures answer.Ok? ==> OnlyAt(old(server.objects), server.objects, a, answer.value)
    {
      var r := a.resource;
      var read := server.Get(r, a.id);
      if read.Err? { return Err(read.error); }
      if read.value.None? || Comparable(r, read.value.value) != a.pre { return Err(Collision); }
      OwnedIsComparable(marker, r, read.value.value, a.desired);
      return Ok(a.id);
    }

    /** Journals the update, then writes; the answer may be lost although the write landed. */
    method SendUpdate(a: Action) returns (error: Option<IseError>)
      requires Clean() && a.Update? && ActionValid(marker, a)
      requires (a.resource, a.id) in server.objects && Comparable(a.resource, server.objects[(a.resource, a.id)]) == a.pre
      modifies this`journal, this`sent, server
      ensures Forward() && Stopped()
      ensures journal == old(journal) + [UpdateEntry(a.op, a.resource, a.id, a.snapshot, a.pre, None)]
      ensures var key := (a.resource, a.id);
              server.objects == old(server.objects)[key := Blend(old(server.objects)[key], Mutable(a.resource, a.desired), server.script(old(server.tick)).effect)]
      ensures server.tick == old(server.tick) + 1 && (error == None <==> server.script(old(server.tick)).answered)
    {
      var r, body := a.resource, Mutable(a.resource, a.desired);
      ComparableOfMutable(r, a.desired);
      ghost var before, init, logged, e := server.objects, journal, server.writes, server.script(server.tick).effect;
      ghost var entry := UpdateEntry(a.op, r, a.id, a.snapshot, a.pre, None);
      journal := journal + [UpdateEntry(a.op, r, a.id, a.snapshot, a.pre, None)];
      sent := Write((r, a.id), Some(before[(r, a.id)]), Some(body), e);
      error := server.Put(r, a.id, body);
      UpdateAccounted(marker, origin, before, server.objects, init, entry, body, e, logged);
      assert EntryValid(marker, origin, server.objects, journal, landed, |journal| - 1);
      StillOwned(marker, origin, logged, server.writes, base, sent);
    }

    /** Notes the observed post-state on the last entry. */
    method NotePost(post: Obj)
      requires Forward() && Stopped() && journal != [] && journal[|journal| - 1].post == None
      requires var e := journal[|journal| - 1];
               TargetOf(e, None).value in server.objects && post == Comparable(e.resource, server.objects[TargetOf(e, None).value])
      modifies this`journal
      ensures Forward() && Stopped()
      ensures journal == old(journal)[..|old(journal)| - 1] + [WithPost(old(journal)[|old(journal)| - 1], Some(post))]
    {
      ghost var init := journal[..|journal| - 1];
      var entry := journal[|journal| - 1];
      assert journal == init + [entry];
      assert entry in journal;
      PostAccounted(marker, origin, server.objects, init, entry, post, server.writes, sent);
      journal := journal[..|journal| - 1] + [WithPost(entry, Some(post))];
    }

    method ApplyUpdate(a: Action) returns (answer: Result<Id, IseError>)
      requires Clean() && a.Update? && ActionValid(marker, a)
      modifies this`journal, this`sent, server
      ensures Stopped() && server.tick >= old(server.tick)
      ensures answer.Ok? ==> Clean() && Confirmed(a, answer.value)
      ensures Grew(old(journal), journal, a) && old(server.objects).Keys <= server.objects.Keys
      ensures answer.Ok? ==> answer.value == a.id
      ensures Follows(server.script, old(server.tick), UpdateRun(old(Now()), a), answer, Now())
      ensures answer.Ok? ==> OnlyAt(old(server.objects), server.objects, a, answer.value)
    {
      var r := a.resource;
      var read := server.Get(r, a.id);
      if read.Err? { return Err(read.error); }
      if read.value.None? || Comparable(r, read.value.value) != a.pre { return Err(Collision); }
      OwnedIsComparable(marker, r, read.value.value, a.snapshot);
      answer := WriteUpdate(a);
    }

    /** The PUT and its verification. */
    method WriteUpdate(a: Action) returns (answer: Result<Id, IseError>)
      requires Clean() && a.Update? && ActionValid(marker, a)
      requires (a.resource, a.id) in server.objects && Comparable(a.resource, server.objects[(a.resource, a.id)]) == a.pre
      modifies this`journal, this`sent, server
      ensures Stopped() && server.tick >= old(server.tick)
      ensures |journal| == |old(journal)| + 1 && Grew(old(journal), journal, a)
      ensures server.objects.Keys == old(server.objects).Keys && OnlyAt(old(server.objects), server.objects, a, a.id)
      ensures answer.Ok? ==> answer.value == a.id && Clean() && Confirmed(a, a.id)
      ensures Serves(server.script, old(server.tick), old(server.tick) + 2) ==>
                && answer == Ok(a.id) && server.tick == old(server.tick) + 2
                && server.objects == old(server.objects)[(a.resource, a.id) := Mutable(a.resource, a.desired)]
                && journal == old(journal) + [UpdatedEntry(a)]
    {
      ghost var init, before := journal, server.objects;
      OwnedIsComparable(marker, a.resource, before[(a.resource, a.id)], a.snapshot);
      var error := SendUpdate(a);
      PutIsLocal(before, server.objects, a, server.objects[(a.resource, a.id)]);
      if error.Some? { return Err(error.value); }
      assert journal[..|journal| - 1] == init;
      ghost var served := Serves(server.script, old(server.tick), old(server.tick) + 2);
      assert served ==> server.script(server.tick).answered && ConfirmedIn(server.objects, a, a.id) by {
        ComparableOfMutable(a.resource, a.desired);
      }
      answer := VerifyLast(a, a.id);
      NotedEntry(init, journal, UpdateEntry(a.op, a.resource, a.id, a.snapshot, a.pre, None), a, a.id, server.objects, served);
    }

    static lemma PutIsLocal(before: Objects, after: Objects, a: Action, left: Obj)
      requires a.Update? && (a.resource, a.id) in before && after == before[(a.resource, a.id) := left]
      requires LookupOf(a.resource, before[(a.resource, a.id)]) == LookupOf(a.resource, a.desired)
      ensures OnlyAt(before, after, a, a.id)
    {
    }

    /** A verified action's entry carries the desired state. */
    static lemma NotedEntry(init: seq<Entry>, journal: seq<Entry>, entry: Entry, a: Action, id: Id, objects: Objects, served: bool)
      requires !a.Deferred? && |journal| == |init| + 1 && journal[..|init|] == init
      requires served ==> ConfirmedIn(objects, a, id)
      requires served ==> journal[|init|] == WithPost(entry, Some(Comparable(a.resource, objects[(a.resource, id)])))
      ensures served ==> journal == init + [WithPost(entry, Some(Comparable(a.resource, a.desired)))]
    {
      assert journal == init + [journal[|init|]];
    }

    /** The write of the last entry is read back: its post-state is noted, and must be what was desired. */
    method VerifyLast(a: Action, id: Id) returns (answer: Result<Id, IseError>)
      requires Stopped() && landed == None && !a.Deferred? && origin.Keys <= server.objects.Keys && journal != []
      requires ExceptLastPresent()
      requires TargetOf(journal[|journal| - 1], None) == Some((a.resource, id)) && EntryKey(journal[|journal| - 1]) == ActionKey(a)
      requires journal[|journal| - 1].post == None
      requires journal[|journal| - 1].CreateEntry? ==> journal[|journal| - 1].desired == a.desired
      modifies this`journal, server`tick
      ensures Stopped() && server.tick == old(server.tick) + 1 && |journal| == |old(journal)|
      ensures journal[..|journal| - 1] == old(journal)[..|journal| - 1] && EntryKey(journal[|journal| - 1]) == ActionKey(a)
      ensures answer.Ok? ==> answer.value == id && Clean() && Confirmed(a, id)
      ensures server.script(old(server.tick)).answered && ConfirmedIn(server.objects, a, id) ==>
                && answer == Ok(id)
                && journal[|journal| - 1] == WithPost(old(journal)[|journal| - 1], Some(Comparable(a.resource, server.objects[(a.resource, id)])))
    {
      var after := server.Get(a.resource, id);
      if after.Err? { return Err(after.error); }
      if after.value.None? { return Err(Verification); }
      ghost var init := journal[..|journal| - 1];
      assert journal == init + [journal[|journal| - 1]];
      assert Present(origin, server.objects, journal);
      var post := Comparable(a.resource, after.value.value);
      NotePost(post);
      if post != Comparable(a.resource, a.desired) { return Err(Verification); }
      return Ok(id);
    }

    ghost predicate ExceptLastPresent()
      reads this, server`objects, server`writes
    {
      forall e :: e in journal[..if journal == [] then 0 else |journal| - 1] ==>
        TargetOf(e, None).Some? && TargetOf(e, None).value in server.objects
    }

    /** Journals the creation, then posts; an object may be left behind without a usable id. */
    method SendCreate(a: Action) returns (answer: Result<Option<Id>, IseError>)
      requires Clean() && a.Create? && ActionValid(marker, a)
      requires forall k :: !Matches(server.objects, a.resource, LookupOf(a.resource, a.desired), k)
      modifies this`journal, this`landed, this`sent, server
      ensures Stopped() && server.tick >= old(server.tick)
      ensures journal == old(journal) + [CreateEntry(a.op, a.resource, a.desired, None, None)]
      ensures forall e :: e in old(journal) ==> TargetOf(e, None).Some? && TargetOf(e, None).value in server.objects
      ensures origin.Keys <= server.objects.Keys
      ensures answer.Ok? && answer.value.Some? ==>
                && (a.resource, answer.value.value) !in origin && (a.resource, answer.value.value) !in old(server.objects)
                && (landed.Some? ==> landed.value == (a.resource, answer.value.value))
                && (landed == None ==> (a.resource, answer.value.value) !in server.objects)
      ensures old(server.objects).Keys <= server.objects.Keys && server.tick == old(server.tick) + 1
      ensures var k := (a.resource, server.script(old(server.tick)).newId);
              Serves(server.script, old(server.tick), old(server.tick) + 1) && k !in old(server.objects) ==>
                answer == Ok(Some(k.1)) && server.objects == old(server.objects)[k := Mutable(a.resource, a.desired)]
      ensures forall k :: Some(k) != landed ==> Same(old(server.objects), server.objects, k)
    {
      var r, body := a.resource, Mutable(a.resource, a.desired);
      ghost var before, init, e, logged := server.objects, journal, server.script(server.tick).effect, server.writes;
      ghost var key := (r, server.script(server.tick).newId);
      journal := journal + [CreateEntry(a.op, r, a.desired, None, None)];
      ghost var left;
      answer, left := server.Post(r, body);
      landed := left;
      sent := Write(key, None, Some(body), if left == None then Untouched else e);
      StillOwned(marker, origin, logged, server.writes, base, Write(key, None, Some(body), e));
      CreateAccounted(marker, origin, before, server.objects, init, a.op, r, a.desired, key, left, e, logged, server.writes);
    }

    /** The creation's id and observed state become known. */
    method NoteId(a: Action, id: Id, post: Option<Obj>)
      requires Stopped() && a.Create? && journal != []
      requires journal[|journal| - 1] == CreateEntry(a.op, a.resource, a.desired, None, None)
      requires forall e :: e in journal[..|journal| - 1] ==> TargetOf(e, None).Some?
      requires (a.resource, id) !in origin && (landed.Some? ==> landed.value == (a.resource, id))
      requires landed == None ==> (a.resource, id) !in server.objects
      requires post.Some? ==> (a.resource, id) in server.objects && post.value == Comparable(a.resource, server.objects[(a.resource, id)])
      modifies this`journal, this`landed
      ensures Stopped() && landed == None
      ensures journal == old(journal)[..|old(journal)| - 1] + [CreateEntry(a.op, a.resource, a.desired, Some(id), post)]
    {
      ghost var init := journal[..|journal| - 1];
      assert journal == init + [journal[|journal| - 1]];
      RecordId(marker, origin, server.objects, init, a.op, a.resource, a.desired, landed, id, post);
      LastEntryAside(server.objects, init, journal[|journal| - 1], CreateEntry(a.op, a.resource, a.desired, Some(id), post), landed, None);
      IdNoted(server.objects, init, journal[|journal| - 1], id, post, landed, server.writes, sent);
      journal := journal[..|journal| - 1] + [CreateEntry(a.op, a.resource, a.desired, Some(id), post)];
      landed := None;
    }

    method ApplyCreate(a: Action) returns (answer: Result<Id, IseError>)
      requires Clean() && a.Create? && ActionValid(marker, a)
      modifies this`journal, this`landed, this`sent, server
      ensures Stopped() && server.tick >= old(server.tick)
      ensures answer.Ok? ==> Clean() && Confirmed(a, answer.value)
      ensures Grew(old(journal), journal, a) && old(server.objects).Keys <= server.objects.Keys
      ensures Follows(server.script, old(server.tick), CreateRun(server.script, old(Now()), a), answer, Now())
      ensures answer.Ok? ==> OnlyAt(old(server.objects), server.objects, a, answer.value)
    {
      CreateCourse(server.script, Now(), a);
      var error := CheckAbsent(a);
      if error.Some? { return Err(error.value); }
      answer := WriteCreate(a);
    }

    /** Nothing of that name, or between that pair of groups, has appeared since `prepare`. */
    method CheckAbsent(a: Action) returns (error: Option<IseError>)
      requires a.Create?
      modifies server`tick
      ensures server.tick == old(server.tick) + 1
      ensures error == None ==> forall k :: !Matches(server.objects, a.resource, LookupOf(a.resource, a.desired), k)
      ensures server.script(old(server.tick)).answered ==>
                Search(server.objects, Hits(server.objects, a.resource, LookupOf(a.resource, a.desired))) == Some(None) ==> error == None
    {
      var found := server.Find(a.resource, LookupOf(a.resource, a.desired));
      if found.Err? { return Some(found.error); }
      return if found.value.Some? then Some(Collision) else None;
    }

    /** The POST, and its verification. */
    method WriteCreate(a: Action) returns (answer: Result<Id, IseError>)
      requires Clean() && a.Create? && ActionValid(marker, a)
      requires forall k :: !Matches(server.objects, a.resource, LookupOf(a.resource, a.desired), k)
      modifies this`journal, this`landed, this`sent, server
      ensures Stopped() && server.tick >= old(server.tick)
      ensures |journal| == |old(journal)| + 1 && Grew(old(journal), journal, a)
      ensures old(server.objects).Keys <= server.objects.Keys
      ensures answer.Ok? ==> Clean() && Confirmed(a, answer.value) && OnlyAt(old(server.objects), server.objects, a, answer.value)
      ensures Follows(server.script, old(server.tick), PostRun(server.script, old(Now()), a), answer, Now())
    {
      ghost var init := journal;
      var id := NewObject(a);
      if id.Err? { return id; }
      ghost var served := Serves(server.script, old(server.tick), old(server.tick) + 2) && (a.resource, server.script(old(server.tick)).newId) !in old(server.objects);
      assert served ==> server.script(server.tick).answered && ConfirmedIn(server.objects, a, id.value) by {
        ComparableOfMutable(a.resource, a.desired);
      }
      answer := VerifyLast(a, id.value);
      NotedEntry(init, journal, CreateEntry(a.op, a.resource, a.desired, Some(id.value), None), a, id.value, server.objects, served);
    }

    /** The POST and the id it gave; without a usable one the object is looked up, and the creation fails. */
    method NewObject(a: Action) returns (answer: Result<Id, IseError>)
      requires Clean() && a.Create? && ActionValid(marker, a)
      requires forall k :: !Matches(server.objects, a.resource, LookupOf(a.resource, a.desired), k)
      modifies this`journal, this`landed, this`sent, server
      ensures Stopped() && server.tick >= old(server.tick) && old(server.objects).Keys <= server.objects.Keys
      ensures |journal| == |old(journal)| + 1 && journal[..|journal| - 1] == old(journal) && EntryKey(journal[|journal| - 1]) == ActionKey(a)
      ensures answer.Ok? ==> journal[|journal| - 1] == CreateEntry(a.op, a.resource, a.desired, Some(answer.value), None)
      ensures answer.Ok? ==> landed == None && ExceptLastPresent() && origin.Keys <= server.objects.Keys
      ensures answer.Ok? ==> (a.resource, answer.value) !in old(server.objects)
      ensures answer.Ok? ==> forall k :: k != (a.resource, answer.value) ==> Same(old(server.objects), server.objects, k)
      ensures var k := (a.resource, server.script(old(server.tick)).newId);
              Serves(server.script, old(server.tick), old(server.tick) + 1) && k !in old(server.objects) ==>
                && answer == Ok(k.1) && server.tick == old(server.tick) + 1
                && server.objects == old(server.objects)[k := Mutable(a.resource, a.desired)]
    {
      ghost var init := journal;
      var posted := SendCreate(a);
      assert journal[..|journal| - 1] == init;
      if posted.Err? { return Err(posted.error); }
      if posted.value == None {
        RecoverCreate(a);
        return Err(Verification);
      }
      NoteId(a, posted.value.value, None);
      return Ok(posted.value.value);
    }

    /** Never follow an untrusted Location: look the object up, so that rollback can still own it. */
    method RecoverCreate(a: Action)
      requires Stopped() && a.Create? && journal != []
      requires journal[|journal| - 1] == CreateEntry(a.op, a.resource, a.desired, None, None)
      requires forall e :: e in journal[..|journal| - 1] ==> TargetOf(e, None).Some?
      modifies this`journal, this`landed, server`tick
      ensures journal == old(journal) || exists id, post ::
                journal == old(journal)[..|old(journal)| - 1] + [CreateEntry(a.op, a.resource, a.desired, id, post)]
      ensures Stopped() && |journal| == |old(journal)| && server.tick >= old(server.tick)
    {
      var r := a.resource;
      assert EntryValid(marker, origin, server.objects, journal, landed, |journal| - 1);
      var found := server.Find(r, LookupOf(r, a.desired));
      if found.Ok? && found.value.Some? {
        var id, current := found.value.value.0, found.value.value.1;
        assert Matches(server.objects, r, LookupOf(r, a.desired), (r, id));
        if Owned(marker, current) && Comparable(r, current) == Comparable(r, a.desired) {
          NoteId(a, id, Some(Comparable(r, current)));
        }
      }
    }

    /** The object of a verified action is there, with the desired comparable fields. */
    ghost predicate Confirmed(a: Action, id: Id)
      requires !a.Deferred?
      reads server`objects
    {
      (a.resource, id) in server.objects
      && Comparable(a.resource, server.objects[(a.resource, id)]) == Comparable(a.resource, a.desired)
    }

    // ----- Prepare -----

    /**
     `prepare`: preflight, then every planned object classified against the server; nothing is
     written.  On a node that serves, the plan is the one that `PlanAll` gives.
     */
    method Prepare(primary: bool, denies: bool) returns (error: Option<IseError>)
      requires Valid()
      modifies this`prepared, this`origin, this`base, this`pairs, this`known, server`tick
      ensures Valid() && server.tick >= old(server.tick)
      ensures old(journal) != [] ==> error == Some(ActiveJournal)
      ensures error.Some? ==> origin == old(origin)
      ensures error == None ==> journal == [] && landed == None && origin == server.objects && prepared.Some?
      ensures error == None ==> forall a :: a in prepared.value ==> Classifies(server.objects, marker, a)
      ensures error == None ==> primary && denies
      ensures var plan := PlanAll(marker, server.objects, old(server.tick) + 2, Sort(operations, OperationLe));
              old(journal) == [] && primary && denies && SmoothPlan(server.script, old(server.tick), plan) ==>
                error == None && prepared == Some(plan.value.actions) && server.tick == plan.value.tick
    {
      if journal != [] { return Some(ActiveJournal); }
      error := Preflight(primary, denies);
      if error.Some? { return; }
      var actions;
      ghost var pairs', known';
      actions, pairs', known' := PrepareActions();
      if actions.Err? { return Some(actions.error); }
      AdoptPlan(actions.value, pairs', known');
      return None;
    }

    method AdoptPlan(actions: seq<Action>, ghost pairs': seq<Pair>, ghost known': map<string, Id>)
      requires Valid() && journal == []
      requires forall a :: a in actions ==> ActionValid(marker, a)
      requires PlanSound(actions, pairs', known') && (CellPairsDistinct(operations) ==> PairsDistinct(actions, pairs'))
      modifies this`prepared, this`origin, this`base, this`pairs, this`known
      ensures Valid() && landed == None && origin == server.objects && prepared == Some(actions)
    {
      NothingJournaled(marker, origin, server.objects, landed);
      prepared, pairs, known := Some(actions), pairs', known';
      origin, base := server.objects, |server.writes|;
    }

    /** The node is the primary one, and its default policy denies. */
    method Preflight(primary: bool, denies: bool) returns (error: Option<IseError>)
      modifies server`tick
      ensures server.tick >= old(server.tick)
      ensures error == None ==> primary && denies
      ensures primary && denies && Serves(server.script, old(server.tick), old(server.tick) + 2) ==>
                error == None && server.tick == old(server.tick) + 2
    {
      error := server.Check(primary);
      if error.Some? { return; }
      error := server.Check(denies);
    }

    /** The operations in working order are as valid as the manifest. */
    lemma InWorkingOrder()
      requires Valid()
      ensures var ops := Sort(operations, OperationLe);
              && NamesUnique(ops) && (forall o :: o in ops ==> OperationValid(marker, o))
              && (CellPairsDistinct(operations) ==> CellPairsDistinct(ops))
    {
      SortIsPermutation(operations, OperationLe);
      SortedOperations(operations);
    }

    /** The named operations in working order, then the cells. */
    method PrepareActions() returns (r: Result<seq<Action>, IseError>, ghost pairs': seq<Pair>, ghost known': map<string, Id>)
      requires Valid()
      modifies server`tick
      ensures server.tick >= old(server.tick)
      ensures r.Ok? ==> forall a :: a in r.value ==> ActionValid(marker, a) && Classifies(server.objects, marker, a)
      ensures r.Ok? ==> PlanSound(r.value, pairs', known') && (CellPairsDistinct(operations) ==> PairsDistinct(r.value, pairs'))
      ensures var plan := PlanAll(marker, server.objects, old(server.tick), Sort(operations, OperationLe));
              SmoothPlan(server.script, old(server.tick), plan) ==> r == Ok(plan.value.actions) && server.tick == plan.value.tick
    {
      pairs', known' := [], map[];
      var ops := Sort(operations, OperationLe);
      InWorkingOrder();
      var named := PrepareNamed(ops);
      if named.Err? { return Err(named.error), pairs', known'; }
      ghost var cellPairs;
      var cells;
      cells, cellPairs := PrepareCells(ops, named.value.1, named.value.2);
      if cells.Err? { return Err(cells.error), pairs', known'; }
      pairs' := JoinPlan(named.value.0, cells.value, cellPairs, named.value.1);
      return Ok(named.value.0 + cells.value), pairs', named.value.1;
    }

    /** The groups and ACLs, with the ids of those that exist. */
    method PrepareNamed(ops: seq<Operation>) returns (r: Result<(seq<Action>, map<string, Id>, map<string, Id>), IseError>)
      requires NamesUnique(ops) && (forall o :: o in ops ==> OperationValid(marker, o))
      modifies server`tick
      ensures server.tick >= old(server.tick)
      ensures r.Ok? ==> forall a :: a in r.value.0 ==> ActionValid(marker, a) && Classifies(server.objects, marker, a)
      ensures r.Ok? ==> NamesDistinct(r.value.0) && KnownGroups(r.value.0, r.value.1) && forall a :: a in r.value.0 ==> IsNamed(a)
      ensures var last := PlanNamedAll(marker, server.objects, Plan([], map[], map[], old(server.tick)), ops, 0);
              SmoothPlan(server.script, old(server.tick), last) ==>
                r.Ok? && last.value == Plan(r.value.0, r.value.1, r.value.2, server.tick)
    {
      ghost var last := PlanNamedAll(marker, server.objects, Plan([], map[], map[], server.tick), ops, 0);
      var actions: seq<Action> := [];
      var sgts: map<string, Id>, sgacls: map<string, Id> := map[], map[];
      for i := 0 to |ops|
        invariant server.tick >= old(server.tick)
        invariant forall a :: a in actions ==> ActionValid(marker, a) && Classifies(server.objects, marker, a)
        invariant NamesDistinct(actions) && KnownGroups(actions, sgts)
        invariant forall a :: a in actions ==> IsNamed(a) && AmongNamed(ops[..i], a)
        invariant SmoothPlan(server.script, old(server.tick), last) ==>
          PlanNamedAll(marker, server.objects, Plan(actions, sgts, sgacls, server.tick), ops, i) == last
      {
        assert ops[..i + 1] == ops[..i] + [ops[i]];
        PlanNamedCourse(server.script, marker, server.objects, old(server.tick), last, Plan(actions, sgts, sgacls, server.tick), ops, i);
        if ops[i].Named? {
          var o := ops[i];
          var found := LookUpNamed(o);
          if found.Err? { return Err(found.error); }
          var action := Classify(marker, o.op, o.resource, o.desired, found.value);
          if action.Err? { return Err(action.error); }
          ClassifyExact(server.objects, marker, o.op, o.resource, o.desired, found.value);
          AnotherName(actions, sgts, ops, i, action.value, found.value);
          actions := actions + [action.value];
          sgts, sgacls := WithGroup(sgts, o, found.value), WithAcl(sgacls, o, found.value);
        }
      }
      return Ok((actions, sgts, sgacls));
    }

    /** The group or ACL of that name, if there is one; a group's tag value must not be another's. */
    method LookUpNamed(o: Operation) returns (r: Result<Option<(Id, Obj)>, IseError>)
      requires o.Named? && OperationValid(marker, o)
      modifies server`tick
      ensures server.tick >= old(server.tick)
      ensures r == Ok(None) ==> forall k :: !Matches(server.objects, o.resource, LookupOf(o.resource, o.desired), k)
      ensures r.Ok? && r.value.Some? ==>
                && Matches(server.objects, o.resource, LookupOf(o.resource, o.desired), (o.resource, r.value.value.0))
                && r.value.value.1 == server.objects[(o.resource, r.value.value.0)]
      ensures var found := NamedFound(server.objects, o);
              found.Some? && Serves(server.script, old(server.tick), old(server.tick) + Requests(o)) ==>
                r == Ok(found.value) && server.tick == old(server.tick) + Requests(o)
    {
      r := server.Find(o.resource, LookupOf(o.resource, o.desired));
      if r.Err? || o.resource != Sgt { return; }
      var byValue := server.FindByValue(o.desired[Value]);
      if byValue.Err? { return Err(byValue.error); }
      if byValue.value.Some? && (r.value == None || r.value.value.0 != byValue.value.value) { return Err(Collision); }
    }

    /** The matrix cells: classified when everything they refer to exists, deferred otherwise. */
    method PrepareCells(ops: seq<Operation>, sgts: map<string, Id>, sgacls: map<string, Id>)
      returns (r: Result<seq<Action>, IseError>, ghost pairs: seq<Pair>)
      requires forall o :: o in ops ==> OperationValid(marker, o)
      modifies server`tick
      ensures server.tick >= old(server.tick)
      ensures r.Ok? ==> forall a :: a in r.value ==> ActionValid(marker, a) && Classifies(server.objects, marker, a)
      ensures r.Ok? ==> |pairs| == |r.value| && forall k :: 0 <= k < |pairs| ==> !IsNamed(r.value[k]) && CellOf(r.value[k], pairs[k], sgts)
      ensures CellPairsDistinct(ops) ==> forall k, l :: 0 <= k < l < |pairs| ==> pairs[k] != pairs[l]
      ensures var last := PlanCellAll(marker, server.objects, Plan([], sgts, sgacls, old(server.tick)), ops, 0);
              SmoothPlan(server.script, old(server.tick), last) ==> r.Ok? && last.value == Plan(r.value, sgts, sgacls, server.tick)
    {
      ghost var last := PlanCellAll(marker, server.objects, Plan([], sgts, sgacls, server.tick), ops, 0);
      pairs := [];
      var actions: seq<Action> := [];
      for i := 0 to |ops|
        invariant server.tick >= old(server.tick)
        invariant forall a :: a in actions ==> ActionValid(marker, a) && Classifies(server.objects, marker, a)
        invariant |pairs| == |actions| && forall k :: 0 <= k < |pairs| ==> !IsNamed(actions[k]) && CellOf(actions[k], pairs[k], sgts)
        invariant forall p :: p in pairs ==> exists k :: 0 <= k < i && ops[k].CellFor? && p == (ops[k].source, ops[k].destination)
        invariant CellPairsDistinct(ops) ==> forall k, l :: 0 <= k < l < |pairs| ==> pairs[k] != pairs[l]
        invariant SmoothPlan(server.script, old(server.tick), last) ==>
          PlanCellAll(marker, server.objects, Plan(actions, sgts, sgacls, server.tick), ops, i) == last
      {
        PlanCellCourse(server.script, marker, server.objects, old(server.tick), last, Plan(actions, sgts, sgacls, server.tick), ops, i);
        if ops[i].CellFor? {
          var action := PrepareCell(ops[i], actions, sgts, sgacls);
          if action.Err? { return Err(action.error), pairs; }
          NewPair(ops, i, pairs);
          actions, pairs := actions + [action.value], pairs + [(ops[i].source, ops[i].destination)];
        }
      }
      return Ok(actions), pairs;
    }

    method PrepareCell(o: Operation, ghost actions: seq<Action>, sgts: map<string, Id>, sgacls: map<string, Id>) returns (r: Result<Action, IseError>)
      requires o.CellFor? && OperationValid(marker, o)
      modifies server`tick
      ensures server.tick >= old(server.tick)
      ensures r.Ok? ==> ActionValid(marker, r.value) && Classifies(server.objects, marker, r.value)
      ensures r.Ok? ==> !IsNamed(r.value) && CellOf(r.value, (o.source, o.destination), sgts)
      ensures var next := PlanCell(marker, server.objects, Plan(actions, sgts, sgacls, old(server.tick)), o);
              SmoothPlan(server.script, old(server.tick), next) ==> r.Ok? && next.value == Plan(actions + [r.value], sgts, sgacls, server.tick)
    {
      if !Resolvable(sgts, sgacls, o) { return Ok(Deferred(o.op, o.source, o.destination, o.refs, o.desired)); }
      var desired := CellDesired(o.desired, sgts[o.source], sgts[o.destination], IdsOf(sgacls, o.refs));
      var found := server.Find(Cell, LookupOf(Cell, desired));
      if found.Err? { return Err(found.error); }
      CellDesiredKey(o.desired, sgts, (o.source, o.destination), IdsOf(sgacls, o.refs));
      ClassifyExact(server.objects, marker, o.op, Cell, desired, found.value);
      return Classify(marker, o.op, Cell, desired, found.value);
    }

    // ----- Apply -----

    method ApplyAction(a: Action) returns (answer: Result<Id, IseError>)
      requires Clean() && !a.Deferred? && ActionValid(marker, a)
      modifies this`journal, this`landed, this`sent, server
      ensures Stopped() && server.tick >= old(server.tick)
      ensures answer.Ok? ==> Clean() && Confirmed(a, answer.value)
      ensures Grew(old(journal), journal, a) && old(server.objects).Keys <= server.objects.Keys
      ensures answer.Ok? && (a.Noop? || a.Update?) ==> answer.value == a.id
      ensures Follows(server.script, old(server.tick), ActionRun(server.script, old(Now()), a), answer, Now())
      ensures answer.Ok? ==> OnlyAt(old(server.objects), server.objects, a, answer.value)
    {
      match a
      case Noop(_, _, _, _, _) => answer := ApplyNoop(a);
      case Create(_, _, _) => answer := ApplyCreate(a);
      case Update(_, _, _, _, _, _) => answer := ApplyUpdate(a);
    }

    ghost predicate AllConfirmed(results: seq<(Action, Id)>)
      reads server`objects
    {
      AllConfirmedIn(server.objects, results)
    }

    /** A journal whose entries stem from actions of different lookups is about distinct objects. */
    lemma CoveredIsDistinct(results: seq<(Action, Id)>)
      requires Forward() && Covers(results, journal)
      ensures DistinctTargets(journal, landed)
    {
      assert forall i :: 0 <= i < |journal| ==> journal[i] in journal;
      DistinctEntriesNameDistinctly(marker, origin, server.objects, journal, landed);
    }

    /** The same for a journal that has grown by an unverified write. */
    lemma GrewIsDistinct(was: seq<Entry>, results: seq<(Action, Id)>, a: Action)
      requires Stopped() && !a.Deferred? && Grew(was, journal, a) && Covers(results, was) && DistinctLookups(results + [(a, "")])
      requires forall e :: e in was ==> TargetOf(e, None).Some? && TargetOf(e, None).value in server.objects
      ensures DistinctTargets(journal, landed)
    {
      GrewStaysCovered(was, journal, results, a, "");
      assert forall i :: 0 <= i < |journal| - 1 ==> journal[i] in was;
      DistinctEntriesNameDistinctly(marker, origin, server.objects, journal, landed);
    }

    /** One more verified action; the earlier ones stay confirmed when it looks up another object. */
    method ApplyNext(a: Action, results: seq<(Action, Id)>) returns (answer: Result<seq<(Action, Id)>, IseError>)
      requires Clean() && !a.Deferred? && ActionValid(marker, a)
      requires DistinctLookups(results) ==> AllConfirmed(results) && Covers(results, journal)
      modifies this`journal, this`landed, this`sent, server
      ensures Stopped() && server.tick >= old(server.tick)
      ensures DistinctLookups(results + [(a, "")]) ==> DistinctTargets(journal, landed)
      ensures answer.Ok? ==> Clean() && (DistinctLookups(answer.value) ==> AllConfirmed(answer.value) && Covers(answer.value, journal))
      ensures answer.Ok? ==> exists id :: answer.value == results + [(a, id)] && (a.Noop? || a.Update? ==> id == a.id)
      ensures var run := ActionRun(server.script, old(Now()), a);
              run.Some? && Serves(server.script, old(server.tick), run.value.0.tick) ==>
                answer == Ok(results + [(a, run.value.1)]) && Now() == run.value.0
    {
      ghost var before, was := server.objects, journal;
      var done := ApplyAction(a);
      if DistinctLookups(results + [(a, "")]) {
        DistinctPrefix(results, (a, ""));
        GrewIsDistinct(was, results, a);
      }
      if done.Err? { return Err(done.error); }
      var next := results + [(a, done.value)];
      if DistinctLookups(next) {
        DistinctPrefix(results, (a, done.value));
        ConfirmedStay(marker, before, server.objects, results, a, done.value);
        GrewStaysCovered(was, journal, results, a, done.value);
      }
      return Ok(next);
    }

    /**
     `apply`: groups and ACLs first, then cells, the deferred ones classified on the way.
     When no two cell operations name the same pair of groups, the journal is about distinct
     objects wherever the transaction stops, all of it can be undone unless the last write is
     lost, and success confirms every action.  A node that serves takes the transaction where
     `ApplyRun` says.
     */
    method Apply() returns (answer: Result<seq<(Action, Id)>, IseError>)
      requires Valid()
      modifies this`journal, this`landed, this`sent, server
      ensures Valid() && |old(journal)| <= |journal| && server.tick >= old(server.tick)
      ensures prepared == None ==> answer == Err(NotPrepared)
      ensures prepared.Some? && old(journal) != [] ==> answer == Err(ActiveJournal)
      ensures old(journal) == [] ==> Stopped()
      ensures old(journal) == [] && CellPairsDistinct(operations) ==> DistinctTargets(journal, landed)
      ensures old(journal) == [] && CellPairsDistinct(operations) ==>
                (AllRecoverable(server.objects, journal, landed) <==> journal == [] || !Lost(journal[|journal| - 1], sent))
      ensures answer.Ok? ==> Carried(prepared.value, answer.value)
      ensures prepared.Some? && old(journal) == [] ==>
                var last := ApplyRun(server.script, marker, old(server.objects), old(server.tick), prepared.value);
                Smooth(server.script, old(server.tick), last) ==> answer == Ok(last.value.results) && Now() == last.value.node
    {
      if prepared == None { return Err(NotPrepared); }
      if journal != [] { return Err(ActiveJournal); }
      NothingJournaled(marker, origin, server.objects, landed);
      answer := Carry(prepared.value);
      if CellPairsDistinct(operations) { StoppedIsRecoverableIff(server.objects, journal, landed, server.writes, sent); }
    }

    method Carry(actions: seq<Action>) returns (answer: Result<seq<(Action, Id)>, IseError>)
      requires Clean() && journal == [] && PreparedValid(actions)
      modifies this`journal, this`landed, this`sent, server
      ensures Stopped() && server.tick >= old(server.tick)
      ensures CellPairsDistinct(operations) ==> DistinctTargets(journal, landed)
      ensures answer.Ok? ==> Carried(actions, answer.value)
      ensures var last := ApplyRun(server.script, marker, old(server.objects), old(server.tick), actions);
              Smooth(server.script, old(server.tick), last) ==> answer == Ok(last.value.results) && Now() == last.value.node
    {
      var named := ApplyNamed(actions);
      if named.Err? { return Err(named.error); }
      var (results, sgts, sgacls) := named.value;
      StartOfCells(actions, results, sgts);
      ghost var done;
      answer, done := ApplyCells(actions, results, sgts, sgacls);
      if answer.Ok? { EndOfCells(actions, results, answer.value, sgts, done); }
    }

    /** All actions were carried out; every entry can be undone, if no two are about one object. */
    ghost predicate Carried(actions: seq<Action>, results: seq<(Action, Id)>)
      reads this, server`objects, server`writes
    {
      && |results| == |actions| && Clean()
      && (DistinctLookups(results) ==> AllConfirmed(results))
      && (CellPairsDistinct(operations) ==> AllConfirmed(results))
      && (forall a :: a in actions && IsNamed(a) ==> Listed(results, a))
    }

    /** The first `i` actions on groups and ACLs are done, confirmed, and cover the journal. */
    ghost predicate Underway(actions: seq<Action>, i: nat, results: seq<(Action, Id)>, sgts: map<string, Id>)
      reads this, server`objects, server`writes
    {
      && i <= |actions| && Clean() && PreparedValid(actions)
      && AllConfirmed(results) && Covers(results, journal)
      && NamedSoFar(actions, i, results, sgts) && NamedProgress(actions, i, results)
    }

    lemma StartOfNamed(actions: seq<Action>)
      requires Clean() && journal == [] && PreparedValid(actions)
      ensures Underway(actions, 0, [], map[])
    {
      assert actions[0..] == actions;
    }

    lemma PassCell(actions: seq<Action>, i: nat, results: seq<(Action, Id)>, sgts: map<string, Id>)
      requires Underway(actions, i, results, sgts) && i < |actions| && !IsNamed(actions[i])
      ensures Underway(actions, i + 1, results, sgts)
    {
      NamedProgressStep(actions, i, results, "");
      SkipStep(actions, i, results, sgts);
    }

    /** The actions on groups and ACLs, recording the id behind each name. */
    method ApplyNamed(actions: seq<Action>) returns (answer: Result<(seq<(Action, Id)>, map<string, Id>, map<string, Id>), IseError>)
      requires Clean() && journal == [] && PreparedValid(actions)
      modifies this`journal, this`landed, this`sent, server
      ensures server.tick >= old(server.tick)
      ensures answer.Ok? ==> Underway(actions, |actions|, answer.value.0, answer.value.1)
      ensures answer.Err? ==> Stopped() && DistinctTargets(journal, landed)
      ensures var last := NamedRunAll(server.script, Run(old(Now()), [], map[], map[]), actions, 0);
              Smooth(server.script, old(server.tick), last) ==>
                answer.Ok? && last.value == Run(Now(), answer.value.0, answer.value.1, answer.value.2)
    {
      ghost var last := NamedRunAll(server.script, Run(Now(), [], map[], map[]), actions, 0);
      StartOfNamed(actions);
      var results: seq<(Action, Id)> := [];
      var sgts: map<string, Id>, sgacls: map<string, Id> := map[], map[];
      for i := 0 to |actions|
        invariant Underway(actions, i, results, sgts) && server.tick >= old(server.tick)
        invariant Smooth(server.script, old(server.tick), last) ==> NamedRunAll(server.script, Run(Now(), results, sgts, sgacls), actions, i) == last
      {
        answer := ApplyIfNamed(actions, i, results, sgts, sgacls, old(server.tick), last);
        if answer.Err? { return; }
        results, sgts, sgacls := answer.value.0, answer.value.1, answer.value.2;
      }
      return Ok((results, sgts, sgacls));
    }

    /** One action further: a group's or an ACL's is carried out, a cell's is left for later. */
    method ApplyIfNamed(actions: seq<Action>, i: nat, results: seq<(Action, Id)>, sgts: map<string, Id>, sgacls: map<string, Id>,
                        ghost from: nat, ghost last: Option<Run>)
      returns (answer: Result<(seq<(Action, Id)>, map<string, Id>, map<string, Id>), IseError>)
      requires Underway(actions, i, results, sgts) && i < |actions| && server.tick >= from
      requires Smooth(server.script, from, last) ==> NamedRunAll(server.script, Run(Now(), results, sgts, sgacls), actions, i) == last
      modifies this`journal, this`landed, this`sent, server
      ensures server.tick >= from
      ensures answer.Ok? ==> Underway(actions, i + 1, answer.value.0, answer.value.1)
      ensures answer.Err? ==> Stopped() && DistinctTargets(journal, landed)
      ensures Smooth(server.script, from, last) ==>
                answer.Ok? && NamedRunAll(server.script, Run(Now(), answer.value.0, answer.value.1, answer.value.2), actions, i + 1) == last
    {
      NamedCourse(server.script, from, last, Run(Now(), results, sgts, sgacls), actions, i);
      if !IsNamed(actions[i]) {
        PassCell(actions, i, results, sgts);
        return Ok((results, sgts, sgacls));
      }
      var next := ApplyOneNamed(actions, i, results, sgts, sgacls);
      if next.Err? { return Err(next.error); }
      return Ok((next.value.0, Recorded(sgts, actions[i], next.value.1), RecordedAcl(sgacls, actions[i], next.value.1)));
    }

    method ApplyOneNamed(actions: seq<Action>, i: nat, results: seq<(Action, Id)>, ghost sgts: map<string, Id>, ghost sgacls: map<string, Id>)
      returns (answer: Result<(seq<(Action, Id)>, Id), IseError>)
      requires Underway(actions, i, results, sgts) && i < |actions| && IsNamed(actions[i])
      modifies this`journal, this`landed, this`sent, server
      ensures Stopped() && server.tick >= old(server.tick)
      ensures DistinctTargets(journal, landed)
      ensures answer.Ok? ==> Underway(actions, i + 1, answer.value.0, Recorded(sgts, actions[i], answer.value.1))
      ensures var next := NamedRun(server.script, Run(old(Now()), results, sgts, sgacls), actions[i]);
              Smooth(server.script, old(server.tick), next) ==>
                && answer.Ok? && next.value == Run(Now(), answer.value.0, Recorded(sgts, actions[i], answer.value.1), RecordedAcl(sgacls, actions[i], answer.value.1))
    {
      NewNameIsNew(actions, i, results, sgts, "");
      var next := ApplyNext(actions[i], results);
      if next.Err? { return Err(next.error); }
      var id := next.value[|results|].1;
      NamedStep(actions, i, results, sgts, id);
      NamedProgressStep(actions, i, results, id);
      return Ok((next.value, id));
    }

    /** The first `i` actions' cells are done: the results are confirmed, and cover the journal, if they are all of different lookups. */
    ghost predicate Midway(actions: seq<Action>, i: nat, named: seq<(Action, Id)>, results: seq<(Action, Id)>,
                           sgts: map<string, Id>, done: seq<Pair>)
      reads this, server`objects, server`writes
    {
      && i <= |actions| && Clean() && PreparedValid(actions) && GroupIds(sgts, known)
      && (DistinctLookups(results) ==> AllConfirmed(results) && Covers(results, journal))
      && CellsSoFar(actions, pairs, i, named, results, sgts, done) && CellProgress(actions, i, named, results)
      && DistinctLookups(named) && (forall x :: x in named ==> IsNamed(x.0))
    }

    lemma CellsAreDistinct(actions: seq<Action>, i: nat, named: seq<(Action, Id)>, results: seq<(Action, Id)>,
                           sgts: map<string, Id>, done: seq<Pair>)
      requires Midway(actions, i, named, results, sgts, done)
      ensures PairsDistinct(actions, pairs) ==> DistinctTargets(journal, landed) && DistinctLookups(results)
    {
      if PairsDistinct(actions, pairs) {
        AllLookupsDistinct(actions, pairs, i, named, results, sgts, known, done);
        CoveredIsDistinct(results);
      }
    }

    lemma PassNamed(actions: seq<Action>, i: nat, named: seq<(Action, Id)>, results: seq<(Action, Id)>, sgts: map<string, Id>, done: seq<Pair>)
      requires Midway(actions, i, named, results, sgts, done) && i < |actions| && IsNamed(actions[i])
      ensures Midway(actions, i + 1, named, results, sgts, done)
    {
      CellProgressStep(actions, i, named, results, (actions[i], ""));
    }

    lemma StartOfCells(actions: seq<Action>, named: seq<(Action, Id)>, sgts: map<string, Id>)
      requires Underway(actions, |actions|, named, sgts)
      ensures Midway(actions, 0, named, named, sgts, []) && DistinctTargets(journal, landed)
    {
      assert actions[0..] == actions && named[..|named|] == named;
      GroupIdsAreExact(server.objects, actions, named, sgts, known);
      CoveredIsDistinct(named);
    }

    lemma EndOfCells(actions: seq<Action>, named: seq<(Action, Id)>, results: seq<(Action, Id)>, sgts: map<string, Id>, done: seq<Pair>)
      requires Midway(actions, |actions|, named, results, sgts, done) && NamedProgress(actions, |actions|, named)
      requires CellPairsDistinct(operations) ==> PairsDistinct(actions, pairs)
      ensures Carried(actions, results) && (CellPairsDistinct(operations) ==> DistinctTargets(journal, landed))
    {
      CellsAreDistinct(actions, |actions|, named, results, sgts, done);
    }

    method ApplyCells(actions: seq<Action>, named: seq<(Action, Id)>, sgts: map<string, Id>, sgacls: map<string, Id>)
      returns (answer: Result<seq<(Action, Id)>, IseError>, ghost done: seq<Pair>)
      requires Midway(actions, 0, named, named, sgts, [])
      modifies this`journal, this`landed, this`sent, server
      ensures server.tick >= old(server.tick)
      ensures answer.Ok? ==> Midway(actions, |actions|, named, answer.value, sgts, done)
      ensures answer.Err? ==> Stopped() && (PairsDistinct(actions, pairs) ==> DistinctTargets(journal, landed))
      ensures var last := CellRunAll(server.script, marker, Run(old(Now()), named, sgts, sgacls), actions, 0);
              Smooth(server.script, old(server.tick), last) ==> answer.Ok? && last.value == Run(Now(), answer.value, sgts, sgacls)
    {
      ghost var last := CellRunAll(server.script, marker, Run(Now(), named, sgts, sgacls), actions, 0);
      var results := named;
      done := [];
      for i := 0 to |actions|
        invariant Midway(actions, i, named, results, sgts, done) && server.tick >= old(server.tick)
        invariant Smooth(server.script, old(server.tick), last) ==> CellRunAll(server.script, marker, Run(Now(), results, sgts, sgacls), actions, i) == last
      {
        CellCourse(server.script, marker, old(server.tick), last, Run(Now(), results, sgts, sgacls), actions, i);
        if IsNamed(actions[i]) {
          PassNamed(actions, i, named, results, sgts, done);
        } else {
          var next := ApplyOneCell(actions, i, named, results, sgts, sgacls, done);
          if next.Err? { return Err(next.error), done; }
          results, done := next.value, done + [pairs[i]];
        }
      }
      return Ok(results), done;
    }

    method ApplyOneCell(actions: seq<Action>, i: nat, ghost named: seq<(Action, Id)>, results: seq<(Action, Id)>,
                        sgts: map<string, Id>, sgacls: map<string, Id>, ghost done: seq<Pair>)
      returns (answer: Result<seq<(Action, Id)>, IseError>)
      requires Midway(actions, i, named, results, sgts, done) && i < |actions| && !IsNamed(actions[i])
      modifies this`journal, this`landed, this`sent, server
      ensures Stopped() && server.tick >= old(server.tick)
      ensures PairsDistinct(actions, pairs) ==> DistinctTargets(journal, landed)
      ensures answer.Ok? ==> Midway(actions, i + 1, named, answer.value, sgts, done + [pairs[i]])
      ensures var next := CellRun(server.script, marker, Run(old(Now()), results, sgts, sgacls), actions[i]);
              Smooth(server.script, old(server.tick), next) ==> answer.Ok? && next.value == Run(Now(), answer.value, sgts, sgacls)
    {
      CellParts(server.script, marker, Run(Now(), results, sgts, sgacls), actions[i]);
      var action := ResolveCell(actions[i], pairs[i], results, sgts, sgacls);
      if action.Err? {
        CellsAreDistinct(actions, i, named, results, sgts, done);
        return Err(action.error);
      }
      answer := ApplyResolved(actions, i, named, results, sgts, done, action.value);
    }

    method ApplyResolved(ghost actions: seq<Action>, ghost i: nat, ghost named: seq<(Action, Id)>, results: seq<(Action, Id)>,
                         ghost sgts: map<string, Id>, ghost done: seq<Pair>, a: Action)
      returns (answer: Result<seq<(Action, Id)>, IseError>)
      requires Midway(actions, i, named, results, sgts, done) && i < |actions| && !IsNamed(actions[i])
      requires ActionValid(marker, a) && CellDone(a, pairs[i], sgts)
      modifies this`journal, this`landed, this`sent, server
      ensures Stopped() && server.tick >= old(server.tick)
      ensures PairsDistinct(actions, pairs) ==> DistinctTargets(journal, landed)
      ensures answer.Ok? ==> Midway(actions, i + 1, named, answer.value, sgts, done + [pairs[i]])
      ensures var run := ActionRun(server.script, old(Now()), a);
              run.Some? && Serves(server.script, old(server.tick), run.value.0.tick) ==>
                answer == Ok(results + [(a, run.value.1)]) && Now() == run.value.0
    {
      CellStep(actions, pairs, i, named, results, sgts, done, a, "");
      if PairsDistinct(actions, pairs) {
        AllLookupsDistinct(actions, pairs, i + 1, named, results + [(a, "")], sgts, known, done + [pairs[i]]);
      }
      answer := ApplyNext(a, results);
      if answer.Err? { return; }
      var x := answer.value[|results|];
      CellStep(actions, pairs, i, named, results, sgts, done, a, x.1);
      CellProgressStep(actions, i, named, results, x);
    }

    /** A deferred cell is classified now that the ids it refers to are known. */
    method ResolveCell(a: Action, ghost p: Pair, ghost results: seq<(Action, Id)>, sgts: map<string, Id>, sgacls: map<string, Id>)
      returns (r: Result<Action, IseError>)
      requires ActionValid(marker, a) && CellOf(a, p, known) && GroupIds(sgts, known)
      modifies server`tick
      ensures server.tick >= old(server.tick)
      ensures r.Ok? ==> ActionValid(marker, r.value) && CellDone(r.value, p, sgts)
      ensures var found := Resolve(marker, Run(old(Now()), results, sgts, sgacls), a);
              found.Some? && Serves(server.script, old(server.tick), found.value.1) ==> r == Ok(found.value.0) && server.tick == found.value.1
    {
      if !a.Deferred? { return Ok(a); }
      if a.source !in sgts || a.destination !in sgts || exists ref :: ref in a.refs && ref !in sgacls { return Err(KeyError); }
      var desired := CellDesired(a.desired, sgts[a.source], sgts[a.destination], IdsOf(sgacls, a.refs));
      CellDesiredKey(a.desired, sgts, p, IdsOf(sgacls, a.refs));
      var found := server.Find(Cell, LookupOf(Cell, desired));
      if found.Err? { return Err(found.error); }
      r := Classify(marker, a.op, Cell, desired, found.value);
      ClassifyExact(server.objects, marker, a.op, Cell, desired, found.value);
    }

    // ----- Rollback -----

    /** The object a creation left: by its id, or by the bounded lookup when the id never arrived. */
    method LocateCreated(i: nat) returns (answer: Result<Option<(Id, Obj)>, IseError>)
      requires Valid() && i < |journal| && journal[i].CreateEntry?
      modifies server`tick
      ensures server.tick == old(server.tick) + 1
      ensures answer.Ok? ==>
                var t := TargetOf(journal[i], landed);
                && (answer.value == None ==> t.Some? ==> t.value !in server.objects)
                && (answer.value.Some? ==>
                      && t == Some((journal[i].resource, answer.value.value.0))
                      && t.value in server.objects && answer.value.value.1 == server.objects[t.value]
                      && t.value !in origin)
      ensures server.script(old(server.tick)).answered ==> answer.Ok?
      ensures journal[i].id.Some? ==>
                var k := (journal[i].resource, journal[i].id.value);
                answer == if !server.script(old(server.tick)).answered then Err(Transport)
                          else Ok(if k in server.objects then Some((k.1, server.objects[k])) else None)
    {
      var e := journal[i];
      var r := e.resource;
      assert EntryValid(marker, origin, server.objects, journal, landed, i);
      if e.id.Some? {
        var read := server.Get(r, e.id.value);
        if read.Err? { return Err(read.error); }
        return Ok(if read.value.None? then None else Some((e.id.value, read.value.value)));
      } else {
        answer := server.Find(r, LookupOf(r, e.desired));
        if answer.Ok? && answer.value.Some? {
          assert Matches(server.objects, r, LookupOf(r, e.desired), (r, answer.value.value.0));
        }
      }
    }

    method UndoCreate(i: nat) returns (error: Option<IseError>)
      requires Valid() && i < |journal| && journal[i].CreateEntry?
      modifies server
      ensures Valid()
      ensures server.tick >= old(server.tick) && old(server.writes) <= server.writes
      ensures error == None ==> Undone(server.objects, journal[i], landed)
      ensures forall k :: Some(k) != TargetOf(journal[i], landed) ==> Same(old(server.objects), server.objects, k)
      ensures Healthy(server.script, old(server.tick)) && Recoverable(old(server.objects), journal[i], landed) ==> error == None
      ensures !Recoverable(old(server.objects), journal[i], landed) ==> error.Some? && server.objects == old(server.objects)
      ensures Recoverable(old(server.objects), journal[i], landed) ==>
                Recoverable(server.objects, journal[i], landed) && NoneTorn(Since(old(server.writes), server.writes))
      ensures IdKnown(journal[i]) ==>
                UndoCreateRun(server.script, marker, old(server.objects), old(server.tick), journal[i])
                  == Undoing(server.objects, server.tick, error == None)
    {
      var e := journal[i];
      var r := e.resource;
      var answer := LocateCreated(i);
      if answer.Err? { return Some(answer.error); }
      var found := answer.value;
      if found == None { return None; }
      var id, current := found.value.0, found.value.1;
      assert EntryValid(marker, origin, server.objects, journal, landed, i);
      if Comparable(r, current) == Comparable(r, e.desired) { OwnedIsComparable(marker, r, current, e.desired); }
      if e.post.Some? && Comparable(r, current) != e.post.value { return Some(RollbackRefused); }
      if !Owned(marker, current) { return Some(RollbackRefused); }
      if Comparable(r, current) != Comparable(r, e.desired) { return Some(RollbackRefused); }
      error := DeleteCreated(i, id);
    }

    /** The DELETE of a recognised creation, read back. */
    method DeleteCreated(i: nat, id: Id) returns (error: Option<IseError>)
      requires Valid() && i < |journal| && journal[i].CreateEntry? && TargetOf(journal[i], landed) == Some((journal[i].resource, id))
      requires (journal[i].resource, id) in server.objects && (journal[i].resource, id) !in origin
      requires Recoverable(server.objects, journal[i], landed)
      modifies server
      ensures Valid() && server.tick >= old(server.tick) && old(server.writes) <= server.writes
      ensures error == None ==> (journal[i].resource, id) !in server.objects
      ensures forall k :: k != (journal[i].resource, id) ==> Same(old(server.objects), server.objects, k)
      ensures Healthy(server.script, old(server.tick)) ==> error == None
      ensures Recoverable(server.objects, journal[i], landed) && NoneTorn(Since(old(server.writes), server.writes))
      ensures DeleteRun(server.script, old(server.objects), old(server.tick), (journal[i].resource, id))
                == Undoing(server.objects, server.tick, error == None)
    {
      var r := journal[i].resource;
      DeleteKeeps(marker, origin, server.objects, journal, landed, i);
      OneWrite(server.writes, Write((r, id), Some(server.objects[(r, id)]), None, server.script(server.tick).effect));
      error := server.Delete(r, id);
      if error.Some? { return; }
      var after := server.Get(r, id);
      if after.Err? { return Some(after.error); }
      return if after.value.Some? then Some(RollbackRefused) else None;
    }

    method UndoUpdate(i: nat) returns (error: Option<IseError>)
      requires Valid() && i < |journal| && journal[i].UpdateEntry?
      modifies server
      ensures Valid()
      ensures server.tick >= old(server.tick) && old(server.writes) <= server.writes
      ensures error == None ==> Undone(server.objects, journal[i], landed)
      ensures forall k :: Some(k) != TargetOf(journal[i], landed) ==> Same(old(server.objects), server.objects, k)
      ensures Healthy(server.script, old(server.tick)) && Recoverable(old(server.objects), journal[i], landed) ==> error == None
      ensures !Recoverable(old(server.objects), journal[i], landed) ==> error.Some? && server.objects == old(server.objects)
      ensures Recoverable(old(server.objects), journal[i], landed) ==>
                (Recoverable(server.objects, journal[i], landed) <==> NoneTorn(Since(old(server.writes), server.writes)))
      ensures UndoUpdateRun(server.script, old(server.objects), old(server.tick), journal[i])
                == Undoing(server.objects, server.tick, error == None)
    {
      var e := journal[i];
      var r := e.resource;
      assert EntryValid(marker, origin, server.objects, journal, landed, i);
      var answer := server.Get(r, e.target);
      if answer.Err? { return Some(answer.error); }
      if answer.value.None? { return Some(RollbackRefused); }
      var current := Comparable(r, answer.value.value);
      if current == e.pre { return None; }
      if e.post.None? || current != e.post.value { return Some(RollbackRefused); }
      error := RestoreUpdated(i);
    }

    /** The PUT over a recognised update, read back. */
    method RestoreUpdated(i: nat) returns (error: Option<IseError>)
      requires Valid() && i < |journal| && journal[i].UpdateEntry? && (journal[i].resource, journal[i].target) in server.objects
      requires journal[i].post == Some(Comparable(journal[i].resource, server.objects[(journal[i].resource, journal[i].target)]))
      modifies server
      ensures Valid() && server.tick >= old(server.tick) && old(server.writes) <= server.writes
      ensures error == None ==> Undone(server.objects, journal[i], landed)
      ensures forall k :: k != (journal[i].resource, journal[i].target) ==> Same(old(server.objects), server.objects, k)
      ensures Healthy(server.script, old(server.tick)) ==> error == None
      ensures Recoverable(server.objects, journal[i], landed) <==> NoneTorn(Since(old(server.writes), server.writes))
      ensures RestoreRun(server.script, old(server.objects), old(server.tick), (journal[i].resource, journal[i].target), journal[i].snapshot, journal[i].pre)
                == Undoing(server.objects, server.tick, error == None)
    {
      var e, r := journal[i], journal[i].resource;
      error := SendRestore(i);
      if error.Some? { return; }
      var restored := server.Get(r, e.target);
      if restored.Err? { return Some(restored.error); }
      if restored.value.None? || Comparable(r, restored.value.value) != e.pre { return Some(RollbackRefused); }
      return None;
    }

    method SendRestore(i: nat) returns (error: Option<IseError>)
      requires Valid() && i < |journal| && journal[i].UpdateEntry? && (journal[i].resource, journal[i].target) in server.objects
      requires journal[i].post == Some(Comparable(journal[i].resource, server.objects[(journal[i].resource, journal[i].target)]))
      modifies server
      ensures Valid() && server.tick == old(server.tick) + 1 && old(server.writes) <= server.writes
      ensures var key := (journal[i].resource, journal[i].target);
              server.objects == old(server.objects)[key := Blend(old(server.objects)[key], journal[i].snapshot, server.script(old(server.tick)).effect)]
      ensures Recoverable(server.objects, journal[i], landed) <==> NoneTorn(Since(old(server.writes), server.writes))
      ensures error == None <==> server.script(old(server.tick)).answered
      ensures journal[i].pre == Comparable(journal[i].resource, journal[i].snapshot)
    {
      var e, r := journal[i], journal[i].resource;
      assert EntryValid(marker, origin, server.objects, journal, landed, i);
      RestoreKeeps(marker, origin, server.objects, journal, landed, i, server.script(server.tick).effect);
      RestoringPut(server.objects, e, server.script(server.tick).effect, landed);
      OneWrite(server.writes, Write((r, e.target), Some(server.objects[(r, e.target)]), Some(e.snapshot), server.script(server.tick).effect));
      error := server.Put(r, e.target, e.snapshot);
    }

    /** Undoes one journal entry, or refuses. */
    method UndoEntry(i: nat, ghost healthy: bool) returns (error: Option<IseError>)
      requires Valid() && i < |journal| && (healthy ==> Healthy(server.script, server.tick))
      modifies server
      ensures Valid() && server.tick >= old(server.tick) && old(server.writes) <= server.writes
      ensures EntryTried(old(server.objects), server.objects, journal[i], landed, error.Some?, healthy, Since(old(server.writes), server.writes))
      ensures IdKnown(journal[i]) ==>
                UndoRun(server.script, marker, old(server.objects), old(server.tick), journal[i])
                  == Undoing(server.objects, server.tick, error == None)
    {
      if journal[i].CreateEntry? {
        error := UndoCreate(i);
      } else {
        error := UndoUpdate(i);
      }
    }

    /**
     `rollback`: every entry in reverse, going on past failures; the journal is cleared
     only when all were undone.  A verified rollback restores the whole object map.  An
     attempt that is not verified leaves the journal recoverable exactly when it was so
     before and none of the attempt's PUTs tore.
     */
    method Rollback() returns (verified: bool)
      requires Valid()
      modifies this, server
      ensures Valid() && server.tick >= old(server.tick) && prepared == old(prepared) && old(server.writes) <= server.writes
      ensures verified ==> Restored(old(origin), server.objects) && journal == []
      ensures !verified ==> journal == old(journal) && landed == old(landed) && origin == old(origin) && base == old(base)
      ensures old(base) <= |server.writes| && WritesOwned(marker, old(origin), server.writes[old(base)..])
      ensures DistinctTargets(old(journal), old(landed)) ==>
                && (verified ==> AllRecoverable(old(server.objects), old(journal), old(landed))
                                 && NoneTorn(Since(old(server.writes), server.writes)))
                && (!verified ==> (AllRecoverable(server.objects, journal, landed) <==>
                                     AllRecoverable(old(server.objects), old(journal), old(landed))
                                     && NoneTorn(Since(old(server.writes), server.writes))))
                && (AllRecoverable(old(server.objects), old(journal), old(landed)) && Healthy(server.script, old(server.tick)) ==> verified)
      ensures IdsKnown(old(journal)) ==>
                UndoAllRun(server.script, marker, old(server.objects), old(server.tick), old(journal), |old(journal)|)
                  == Undoing(server.objects, server.tick, verified)
    {
      ghost var before, start, healthy := server.objects, server.writes, Healthy(server.script, server.tick);
      var failures := UndoAll(healthy);
      AllTried(origin, before, server.objects, journal, landed, failures, healthy, start, server.writes);
      if failures { return false; }
      AllSettled(marker, origin, server.objects, journal, landed);
      journal := [];
      origin, landed, base := server.objects, None, |server.writes|;
      return true;
    }

    /**
     Repeating the rollback after faults.  With distinct targets an attempt that meets a
     healthy node finishes, in the state a single clean rollback reaches, if and only if
     every entry was recoverable to begin with and no PUT of any attempt tore.
     */
    method Resume(attempts: nat) returns (verified: bool, ghost last: nat)
      requires Valid()
      modifies this, server
      ensures Valid() && last >= old(server.tick) && old(server.writes) <= server.writes
      ensures verified ==> Restored(old(origin), server.objects) && journal == []
      ensures old(base) <= |server.writes| && WritesOwned(marker, old(origin), server.writes[old(base)..])
      ensures DistinctTargets(old(journal), old(landed)) ==>
                && (verified ==> CanFinish(old(server.objects), old(journal), old(landed), Since(old(server.writes), server.writes)))
                && (Healthy(server.script, last) ==>
                      (verified <==> CanFinish(old(server.objects), old(journal), old(landed), Since(old(server.writes), server.writes))))
    {
      verified, last := false, server.tick;
      ghost var start := server.writes;
      for i := 0 to attempts + 1
        invariant Valid() && last >= old(server.tick) && server.tick >= old(server.tick) && !verified
        invariant journal == old(journal) && landed == old(landed) && origin == old(origin) && base == old(base)
        invariant start <= server.writes
        invariant DistinctTargets(journal, landed) ==>
          (AllRecoverable(server.objects, journal, landed) <==> CanFinish(old(server.objects), journal, landed, Since(start, server.writes)))
        invariant i > 0 && DistinctTargets(journal, landed) && Healthy(server.script, last) ==>
          !AllRecoverable(server.objects, journal, landed)
      {
        last := server.tick;
        ghost var before := server.writes;
        verified := Rollback();
        SinceJoins(start, before, server.writes);
        if verified { return; }
      }
    }

    /** Every entry in reverse; a failure does not stop the others. */
    method UndoAll(ghost healthy: bool) returns (failures: bool)
      requires Valid() && (healthy ==> Healthy(server.script, server.tick))
      modifies server
      ensures Valid() && server.tick >= old(server.tick)
      ensures Tried(origin, old(server.objects), server.objects, journal, landed, 0, failures, healthy, old(server.writes), server.writes)
      ensures LeadsTo(server.script, marker, WholeRun(server.script, marker, old(server.objects), old(server.tick), journal),
                      server.objects, server.tick, journal, 0, failures)
    {
      failures := false;
      ghost var before, start, from := server.objects, server.writes, server.tick;
      ghost var whole := WholeRun(server.script, marker, before, from, journal);
      NoneTried(origin, before, journal, landed, healthy, start);
      for i := |journal| downto 0
        invariant Valid() && server.tick >= from
        invariant Tried(origin, before, server.objects, journal, landed, i, failures, healthy, start, server.writes)
        invariant LeadsTo(server.script, marker, whole, server.objects, server.tick, journal, i, failures)
      {
        failures := UndoNext(i, failures, healthy, before, start, from, whole);
      }
    }

    /** One entry further; a failure is remembered. */
    method UndoNext(i: nat, was: bool, ghost healthy: bool, ghost before: Objects, ghost start: seq<Write>, ghost from: nat, ghost whole: Undoing)
      returns (failures: bool)
      requires Valid() && i < |journal| && server.tick >= from && (healthy ==> Healthy(server.script, from))
      requires Tried(origin, before, server.objects, journal, landed, i + 1, was, healthy, start, server.writes)
      requires LeadsTo(server.script, marker, whole, server.objects, server.tick, journal, i + 1, was)
      modifies server
      ensures Valid() && server.tick >= from
      ensures Tried(origin, before, server.objects, journal, landed, i, failures, healthy, start, server.writes)
      ensures LeadsTo(server.script, marker, whole, server.objects, server.tick, journal, i, failures)
    {
      ghost var now, tick, sent := server.objects, server.tick, server.writes;
      var error := UndoEntry(i, healthy);
      TriedStep(marker, origin, before, now, server.objects, journal, landed, i, was, error.Some?, healthy, start, sent, server.writes);
      LeadsOn(server.script, marker, whole, now, tick, server.objects, server.tick, journal, i, was, error.Some?);
      return was || error.Some?;
    }
  }
}
