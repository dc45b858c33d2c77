/**
 Where the ISE transaction leads, as functions: `prepare` and `apply` on a node that answers
 and obeys, and `rollback` under any replies.  None means that the transaction is refused.
 */
module IseSmooth {
  import opened Basics
  import opened IseObjects
  import opened IseServer
  import opened IseOperations
  import opened IsePlan

  // ----- Prepare -----

  /** What `prepare` has gathered: actions, the ids behind known names, and the requests made. */
  datatype Plan = Plan(actions: seq<Action>, sgts: map<string, Id>, sgacls: map<string, Id>, tick: nat)

  /** A group's tag value may be in use by the group of that name only. */
  ghost predicate ValueFree(objects: Objects, desired: Obj, existing: Option<(Id, Obj)>) {
    && Value in desired
    && var other := Search(objects, ValueHits(objects, desired[Value]));
       other.Some? && (other.value.Some? ==> existing.Some? && existing.value.0 == other.value.value.0)
  }

  /** The object of a named operation, unless there are several, or another group has its tag value. */
  ghost function NamedFound(objects: Objects, o: Operation): Option<Option<(Id, Obj)>>
    requires o.Named?
  {
    var found := Search(objects, Hits(objects, o.resource, LookupOf(o.resource, o.desired)));
    if found.Some? && o.resource == Sgt && !ValueFree(objects, o.desired, found.value) then None else found
  }

  function Requests(o: Operation): nat
    requires o.Named?
  {
    if o.resource == Sgt then 2 else 1
  }

  ghost function PlanNamed(marker: string, objects: Objects, p: Plan, o: Operation): (r: Option<Plan>)
    requires o.Named?
    ensures r.Some? ==> r.value.tick > p.tick
  {
    var found := NamedFound(objects, o);
    if found.None? then None
    else
      var action := Classify(marker, o.op, o.resource, o.desired, found.value);
      if action.Err? then None
      else Some(Plan(p.actions + [action.value], WithGroup(p.sgts, o, found.value), WithAcl(p.sgacls, o, found.value), p.tick + Requests(o)))
  }

  /** From operation `i` on. */
  ghost function PlanNamedAll(marker: string, objects: Objects, p: Plan, ops: seq<Operation>, i: nat): (r: Option<Plan>)
    requires i <= |ops|
    ensures r.Some? ==> r.value.tick >= p.tick
    decreases |ops| - i
  {
    if i == |ops| then Some(p)
    else if !ops[i].Named? then PlanNamedAll(marker, objects, p, ops, i + 1)
    else
      var next := PlanNamed(marker, objects, p, ops[i]);
      if next.None? then None else PlanNamedAll(marker, objects, next.value, ops, i + 1)
  }

  predicate Resolvable(sgts: map<string, Id>, sgacls: map<string, Id>, o: Operation)
    requires o.CellFor?
  {
    o.source in sgts && o.destination in sgts && forall ref :: ref in o.refs ==> ref in sgacls
  }

  ghost function PlanCell(marker: string, objects: Objects, p: Plan, o: Operation): (r: Option<Plan>)
    requires o.CellFor?
    ensures r.Some? ==> r.value.tick >= p.tick && r.value.sgts == p.sgts && r.value.sgacls == p.sgacls
  {
    if !Resolvable(p.sgts, p.sgacls, o) then Some(p.(actions := p.actions + [Deferred(o.op, o.source, o.destination, o.refs, o.desired)]))
    else
      var desired := CellDesired(o.desired, p.sgts[o.source], p.sgts[o.destination], IdsOf(p.sgacls, o.refs));
      var found := Search(objects, Hits(objects, Cell, LookupOf(Cell, desired)));
      if found.None? then None
      else
        var action := Classify(marker, o.op, Cell, desired, found.value);
        if action.Err? then None else Some(p.(actions := p.actions + [action.value], tick := p.tick + 1))
  }

  ghost function PlanCellAll(marker: string, objects: Objects, p: Plan, ops: seq<Operation>, i: nat): (r: Option<Plan>)
    requires i <= |ops|
    ensures r.Some? ==> r.value.tick >= p.tick
    decreases |ops| - i
  {
    if i == |ops| then Some(p)
    else if !ops[i].CellFor? then PlanCellAll(marker, objects, p, ops, i + 1)
    else
      var next := PlanCell(marker, objects, p, ops[i]);
      if next.None? then None else PlanCellAll(marker, objects, next.value, ops, i + 1)
  }

  /** The plan for operations in working order; the cells' actions follow the named ones. */
  ghost function PlanAll(marker: string, objects: Objects, tick: nat, ops: seq<Operation>): (r: Option<Plan>)
    ensures r.Some? ==> r.value.tick >= tick
  {
    var named := PlanNamedAll(marker, objects, Plan([], map[], map[], tick), ops, 0);
    if named.None? then None
    else
      var cells := PlanCellAll(marker, objects, named.value.(actions := []), ops, 0);
      if cells.None? then None else Some(cells.value.(actions := named.value.actions + cells.value.actions))
  }

  /** The node serves until the plan is made, and the plan is not refused. */
  ghost predicate SmoothPlan(script: Script, from: nat, last: Option<Plan>) {
    last.Some? && Serves(script, from, last.value.tick)
  }

  lemma PlanNamedCourse(script: Script, marker: string, objects: Objects, from: nat, last: Option<Plan>, p: Plan, ops: seq<Operation>, i: nat)
    requires i < |ops| && from <= p.tick
    requires SmoothPlan(script, from, last) ==> PlanNamedAll(marker, objects, p, ops, i) == last
    ensures SmoothPlan(script, from, last) && !ops[i].Named? ==> PlanNamedAll(marker, objects, p, ops, i + 1) == last
    ensures SmoothPlan(script, from, last) && ops[i].Named? ==>
              var next := PlanNamed(marker, objects, p, ops[i]);
              SmoothPlan(script, p.tick, next) && PlanNamedAll(marker, objects, next.value, ops, i + 1) == last
  {
  }

  lemma PlanCellCourse(script: Script, marker: string, objects: Objects, from: nat, last: Option<Plan>, p: Plan, ops: seq<Operation>, i: nat)
    requires i < |ops| && from <= p.tick
    requires SmoothPlan(script, from, last) ==> PlanCellAll(marker, objects, p, ops, i) == last
    ensures SmoothPlan(script, from, last) && !ops[i].CellFor? ==> PlanCellAll(marker, objects, p, ops, i + 1) == last
    ensures SmoothPlan(script, from, last) && ops[i].CellFor? ==>
              var next := PlanCell(marker, objects, p, ops[i]);
              SmoothPlan(script, p.tick, next) && PlanCellAll(marker, objects, next.value, ops, i + 1) == last
  {
  }

  // ----- Apply -----

  /** The entry of a verified update, and of a verified creation. */
  function UpdatedEntry(a: Action): Entry
    requires a.Update?
  {
    UpdateEntry(a.op, a.resource, a.id, a.snapshot, a.pre, Some(Comparable(a.resource, a.desired)))
  }

  function CreatedEntry(a: Action, id: Id): Entry
    requires a.Create?
  {
    CreateEntry(a.op, a.resource, a.desired, Some(id), Some(Comparable(a.resource, a.desired)))
  }

  datatype Node = Node(objects: Objects, tick: nat, journal: seq<Entry>)

  ghost function NoopRun(n: Node, a: Action): (r: Option<(Node, Id)>)
    requires a.Noop?
    ensures r.Some? ==> r.value.0.tick > n.tick
  {
    var k := (a.resource, a.id);
    if k in n.objects && Comparable(k.0, n.objects[k]) == a.pre then Some((n.(tick := n.tick + 1), a.id)) else None
  }

  ghost function UpdateRun(n: Node, a: Action): (r: Option<(Node, Id)>)
    requires a.Update?
    ensures r.Some? ==> r.value.0.tick > n.tick
  {
    var k := (a.resource, a.id);
    if k in n.objects && Comparable(k.0, n.objects[k]) == a.pre
    then Some((Node(n.objects[k := Mutable(k.0, a.desired)], n.tick + 3, n.journal + [UpdatedEntry(a)]), a.id))
    else None
  }

  /** The POST of a creation, and its reading back. */
  ghost function PostRun(script: Script, n: Node, a: Action): (r: Option<(Node, Id)>)
    requires a.Create?
    ensures r.Some? ==> r.value.0.tick == n.tick + 2
  {
    var k := (a.resource, script(n.tick).newId);
    if k in n.objects then None
    else Some((Node(n.objects[k := Mutable(k.0, a.desired)], n.tick + 2, n.journal + [CreatedEntry(a, k.1)]), k.1))
  }

  ghost function CreateRun(script: Script, n: Node, a: Action): (r: Option<(Node, Id)>)
    requires a.Create?
    ensures r.Some? ==> r.value.0.tick > n.tick
  {
    if Search(n.objects, Hits(n.objects, a.resource, LookupOf(a.resource, a.desired))) == Some(None)
    then PostRun(script, n.(tick := n.tick + 1), a) else None
  }

  /** A served creation finds nothing, and the rest of it is served. */
  lemma CreateCourse(script: Script, n: Node, a: Action)
    requires a.Create?
    ensures var run := CreateRun(script, n, a);
            run.Some? && Serves(script, n.tick, run.value.0.tick) ==>
              && Search(n.objects, Hits(n.objects, a.resource, LookupOf(a.resource, a.desired))) == Some(None) && script(n.tick).answered
              && run == PostRun(script, n.(tick := n.tick + 1), a) && Serves(script, n.tick + 1, run.value.0.tick)
  {
  }

  ghost function ActionRun(script: Script, n: Node, a: Action): (r: Option<(Node, Id)>)
    requires !a.Deferred?
    ensures r.Some? ==> r.value.0.tick > n.tick
  {
    match a
    case Noop(_, _, _, _, _) => NoopRun(n, a)
    case Update(_, _, _, _, _, _) => UpdateRun(n, a)
    case Create(_, _, _) => CreateRun(script, n, a)
  }

  /** If the node serves the whole way, the action ends as the run says. */
  ghost predicate Follows(script: Script, from: nat, run: Option<(Node, Id)>, answer: Result<Id, IseError>, now: Node) {
    run.Some? && Serves(script, from, run.value.0.tick) ==> answer == Ok(run.value.1) && now == run.value.0
  }

  /** A run of `apply`: the node, the results, and the ids behind the names. */
  datatype Run = Run(node: Node, results: seq<(Action, Id)>, sgts: map<string, Id>, sgacls: map<string, Id>)

  function RecordedAcl(sgacls: map<string, Id>, a: Action, id: Id): map<string, Id>
    requires HasName(a)
  {
    if a.resource == Sgt then sgacls else sgacls[NameOf(a) := id]
  }

  /** The node serves to the end of the run, which exists. */
  ghost predicate Smooth(script: Script, from: nat, last: Option<Run>) {
    last.Some? && Serves(script, from, last.value.node.tick)
  }

  ghost function NamedRun(script: Script, r: Run, a: Action): (next: Option<Run>)
    requires IsNamed(a) && HasName(a)
    ensures next.Some? ==> next.value.node.tick > r.node.tick
  {
    var step := ActionRun(script, r.node, a);
    if step.None? then None
    else
      var (node, id) := step.value;
      Some(Run(node, r.results + [(a, id)], Recorded(r.sgts, a, id), RecordedAcl(r.sgacls, a, id)))
  }

  /** From action `i` on. */
  ghost function NamedRunAll(script: Script, r: Run, actions: seq<Action>, i: nat): (last: Option<Run>)
    requires i <= |actions| && forall k :: 0 <= k < |actions| && IsNamed(actions[k]) ==> HasName(actions[k])
    ensures last.Some? ==> last.value.node.tick >= r.node.tick
    decreases |actions| - i
  {
    if i == |actions| then Some(r)
    else if !IsNamed(actions[i]) then NamedRunAll(script, r, actions, i + 1)
    else
      var next := NamedRun(script, r, actions[i]);
      if next.None? then None else NamedRunAll(script, next.value, actions, i + 1)
  }

  /** The classified form of a cell action, and the requests it took. */
  ghost function Resolve(marker: string, r: Run, a: Action): (found: Option<(Action, nat)>)
    ensures found.Some? ==> !found.value.0.Deferred? && found.value.1 >= r.node.tick
  {
    if !a.Deferred? then Some((a, r.node.tick))
    else if a.source !in r.sgts || a.destination !in r.sgts || exists ref :: ref in a.refs && ref !in r.sgacls then None
    else
      var desired := CellDesired(a.desired, r.sgts[a.source], r.sgts[a.destination], IdsOf(r.sgacls, a.refs));
      var hit := Search(r.node.objects, Hits(r.node.objects, Cell, LookupOf(Cell, desired)));
      if hit.None? then None
      else
        var action := Classify(marker, a.op, Cell, desired, hit.value);
        if action.Err? then None else Some((action.value, r.node.tick + 1))
  }

  ghost function CellRun(script: Script, marker: string, r: Run, a: Action): (next: Option<Run>)
    ensures next.Some? ==> next.value.node.tick > r.node.tick && next.value.sgts == r.sgts && next.value.sgacls == r.sgacls
  {
    var resolved := Resolve(marker, r, a);
    if resolved.None? then None
    else
      var step := ActionRun(script, r.node.(tick := resolved.value.1), resolved.value.0);
      if step.None? then None
      else Some(r.(node := step.value.0, results := r.results + [(resolved.value.0, step.value.1)]))
  }

  ghost function CellRunAll(script: Script, marker: string, r: Run, actions: seq<Action>, i: nat): (last: Option<Run>)
    requires i <= |actions|
    ensures last.Some? ==> last.value.node.tick >= r.node.tick
    decreases |actions| - i
  {
    if i == |actions| then Some(r)
    else if IsNamed(actions[i]) then CellRunAll(script, marker, r, actions, i + 1)
    else
      var next := CellRun(script, marker, r, actions[i]);
      if next.None? then None else CellRunAll(script, marker, next.value, actions, i + 1)
  }

  ghost function ApplyRun(script: Script, marker: string, objects: Objects, tick: nat, actions: seq<Action>): (last: Option<Run>)
    requires forall i :: 0 <= i < |actions| && IsNamed(actions[i]) ==> HasName(actions[i])
    ensures last.Some? ==> last.value.node.tick >= tick
  {
    var named := NamedRunAll(script, Run(Node(objects, tick, []), [], map[], map[]), actions, 0);
    if named.None? then None else CellRunAll(script, marker, named.value, actions, 0)
  }

  /** One step of a smooth run is smooth, and the rest leads to the same end. */
  lemma NamedCourse(script: Script, from: nat, last: Option<Run>, r: Run, actions: seq<Action>, i: nat)
    requires i < |actions| && from <= r.node.tick
    requires forall k :: 0 <= k < |actions| && IsNamed(actions[k]) ==> HasName(actions[k])
    requires Smooth(script, from, last) ==> NamedRunAll(script, r, actions, i) == last
    ensures Smooth(script, from, last) && !IsNamed(actions[i]) ==> NamedRunAll(script, r, actions, i + 1) == last
    ensures Smooth(script, from, last) && IsNamed(actions[i]) ==>
              var next := NamedRun(script, r, actions[i]);
              Smooth(script, r.node.tick, next) && NamedRunAll(script, next.value, actions, i + 1) == last
  {
  }

  lemma CellCourse(script: Script, marker: string, from: nat, last: Option<Run>, r: Run, actions: seq<Action>, i: nat)
    requires i < |actions| && from <= r.node.tick
    requires Smooth(script, from, last) ==> CellRunAll(script, marker, r, actions, i) == last
    ensures Smooth(script, from, last) && IsNamed(actions[i]) ==> CellRunAll(script, marker, r, actions, i + 1) == last
    ensures Smooth(script, from, last) && !IsNamed(actions[i]) ==>
              var next := CellRun(script, marker, r, actions[i]);
              Smooth(script, r.node.tick, next) && CellRunAll(script, marker, next.value, actions, i + 1) == last
  {
  }

  /** A smooth cell step is a smooth classification followed by a smooth action. */
  lemma CellParts(script: Script, marker: string, r: Run, a: Action)
    ensures Smooth(script, r.node.tick, CellRun(script, marker, r, a)) ==>
              var resolved := Resolve(marker, r, a);
              && resolved.Some? && Serves(script, r.node.tick, resolved.value.1)
              && var step := ActionRun(script, r.node.(tick := resolved.value.1), resolved.value.0);
                 && step.Some? && Serves(script, resolved.value.1, step.value.0.tick)
                 && CellRun(script, marker, r, a) == Some(Run(step.value.0, r.results + [(resolved.value.0, step.value.1)], r.sgts, r.sgacls))
  {
  }

  // ----- Rollback -----

  /** After an attempt to undo: the objects, the requests made, and whether it was verified. */
  datatype Undoing = Undoing(objects: Objects, tick: nat, verified: bool)

  /** A DELETE, read back. */
  function DeleteRun(script: Script, objects: Objects, tick: nat, k: Key): Undoing {
    var left := if script(tick).effect == Untouched then objects else objects - {k};
    if !script(tick).answered then Undoing(left, tick + 1, false)
    else Undoing(left, tick + 2, script(tick + 1).answered && k !in left)
  }

  function UndoCreateRun(script: Script, marker: string, objects: Objects, tick: nat, e: Entry): Undoing
    requires e.CreateEntry? && e.id.Some?
  {
    var k := (e.resource, e.id.value);
    if !script(tick).answered then Undoing(objects, tick + 1, false)
    else if k !in objects then Undoing(objects, tick + 1, true)
    else if || (e.post.Some? && Comparable(k.0, objects[k]) != e.post.value) || !Owned(marker, objects[k])
            || Comparable(k.0, objects[k]) != Comparable(k.0, e.desired) then Undoing(objects, tick + 1, false)
    else DeleteRun(script, objects, tick + 1, k)
  }

  /** A PUT over the object, read back. */
  function RestoreRun(script: Script, objects: Objects, tick: nat, k: Key, snapshot: Obj, pre: Obj): Undoing
    requires k in objects
  {
    var left := objects[k := Blend(objects[k], snapshot, script(tick).effect)];
    if !script(tick).answered then Undoing(left, tick + 1, false)
    else Undoing(left, tick + 2, script(tick + 1).answered && Comparable(k.0, left[k]) == pre)
  }

  function UndoUpdateRun(script: Script, objects: Objects, tick: nat, e: Entry): Undoing
    requires e.UpdateEntry?
  {
    var k := (e.resource, e.target);
    if !script(tick).answered || k !in objects then Undoing(objects, tick + 1, false)
    else if Comparable(k.0, objects[k]) == e.pre then Undoing(objects, tick + 1, true)
    else if e.post.None? || Comparable(k.0, objects[k]) != e.post.value then Undoing(objects, tick + 1, false)
    else RestoreRun(script, objects, tick + 1, k, e.snapshot, e.pre)
  }

  predicate IdKnown(e: Entry) { e.CreateEntry? ==> e.id.Some? }

  function UndoRun(script: Script, marker: string, objects: Objects, tick: nat, e: Entry): Undoing
    requires IdKnown(e)
  {
    if e.CreateEntry? then UndoCreateRun(script, marker, objects, tick, e) else UndoUpdateRun(script, objects, tick, e)
  }

  ghost predicate IdsKnown(journal: seq<Entry>) { forall e :: e in journal ==> IdKnown(e) }

  /** The first `n` entries in reverse; a failure does not stop the others. */
  ghost function UndoAllRun(script: Script, marker: string, objects: Objects, tick: nat, journal: seq<Entry>, n: nat): Undoing
    requires n <= |journal| && IdsKnown(journal)
    decreases n
  {
    if n == 0 then Undoing(objects, tick, true)
    else
      assert journal[n - 1] in journal;
      var first := UndoRun(script, marker, objects, tick, journal[n - 1]);
      var rest := UndoAllRun(script, marker, first.objects, first.tick, journal, n - 1);
      rest.(verified := first.verified && rest.verified)
  }

  ghost function WholeRun(script: Script, marker: string, objects: Objects, tick: nat, journal: seq<Entry>): (whole: Undoing)
    ensures LeadsTo(script, marker, whole, objects, tick, journal, |journal|, false)
  {
    if IdsKnown(journal) then UndoAllRun(script, marker, objects, tick, journal, |journal|) else Undoing(objects, tick, true)
  }

  /** The whole run is what it comes to from here, with `i` entries left. */
  ghost predicate LeadsTo(script: Script, marker: string, whole: Undoing, objects: Objects, tick: nat, journal: seq<Entry>, i: nat, failures: bool)
    requires i <= |journal|
  {
    IdsKnown(journal) ==>
      var rest := UndoAllRun(script, marker, objects, tick, journal, i);
      whole == rest.(verified := rest.verified && !failures)
  }

  lemma LeadsOn(script: Script, marker: string, whole: Undoing, now: Objects, tick: nat, after: Objects, tick': nat, journal: seq<Entry>, i: nat,
                was: bool, failed: bool)
    requires i < |journal| && LeadsTo(script, marker, whole, now, tick, journal, i + 1, was)
    requires IdKnown(journal[i]) ==> UndoRun(script, marker, now, tick, journal[i]) == Undoing(after, tick', !failed)
    ensures LeadsTo(script, marker, whole, after, tick', journal, i, was || failed)
  {
    assert journal[i] in journal;
  }
}
