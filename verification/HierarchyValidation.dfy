/**
 The validator's own hierarchy check and descendant test (orchestrator/intent.py): it
 notes every finding and walks whatever it can, broken references included.
 */
module HierarchyValidation {
  import opened Basics
  import opened Ordering
  import opened Hierarchy

  // ----- The depth walk -----

  /** What the findings so far prove about the hierarchy. */
  ghost predicate Justified(issues: seq<HierarchyError>, parents: Parents, root: Id) {
    forall e :: e in issues ==> Blames(e, parents, root, MAX_HIERARCHY_DEPTH)
  }

  lemma JustifiedAppend(a: seq<HierarchyError>, b: seq<HierarchyError>, parents: Parents, root: Id)
    requires Justified(a, parents, root) && Justified(b, parents, root)
    ensures Justified(a + b, parents, root)
  {
  }

  /** Nothing noted: depths stay within the limit.  Something noted: the graph is too deep. */
  ghost predicate NotesExcess(found: seq<HierarchyError>, before: map<Id, nat>, depths: map<Id, nat>, parents: Parents, root: Id) {
    if found == [] then Within(before, MAX_HIERARCHY_DEPTH) ==> Within(depths, MAX_HIERARCHY_DEPTH)
    else !DepthWithin(parents, root, MAX_HIERARCHY_DEPTH)
  }

  /** What makes the validator's walk meaningful: the checks before it found nothing. */
  ghost predicate Sane(nodes: set<Id>, parents: Parents, root: Id, depths: map<Id, nat>) {
    Rooted(nodes, parents, root) && Measured(depths, nodes, parents, root)
  }

  /**
   The validator's climb, also over broken references: a node outside the hierarchy or met
   again makes the path invalid, and a node without a parent is measured on the spot.
   */
  method ClimbNoting(nodes: set<Id>, parents: Parents, before: map<Id, nat>, start: Id, ghost root: Id)
    returns (trail: seq<Id>, cursor: Id, cycle: bool, invalid: bool, depths: map<Id, nat>)
    requires start in nodes
    ensures cycle ==> invalid
    ensures !invalid ==> cursor in depths
    ensures Sane(nodes, parents, root, before) ==>
              && depths == before && (cycle ==> !Acyclic(parents)) && (invalid ==> cycle)
              && (!invalid ==> Trail(trail, cursor, parents) && if trail == [] then cursor == start else trail[0] == start)
  {
    trail, cursor, cycle, invalid, depths := [], start, false, false, before;
    ghost var sane := Sane(nodes, parents, root, before);
    var visiting: set<Id> := {};
    while cursor !in depths
      invariant depths == before
      invariant visiting == (set t | t in trail) && visiting <= nodes
      invariant sane ==> cursor in nodes && Trail(trail, cursor, parents)
      invariant if trail == [] then cursor == start else trail[0] == start
      decreases nodes - visiting
    {
      if cursor in visiting {
        if sane { RevisitIsCycle(trail, cursor, parents); }
        cycle, invalid := true, true;
        return;
      }
      if cursor !in nodes {
        invalid := true;
        return;
      }
      visiting := visiting + {cursor};
      trail := trail + [cursor];
      if cursor !in parents {
        depths := depths[cursor := 0];
        return;
      }
      cursor := parents[cursor];
    }
  }

  /** The validator's unwinding: it records every depth and notes each one past the limit. */
  method UnwindNoting(nodes: set<Id>, parents: Parents, before: map<Id, nat>, trail: seq<Id>, cursor: Id, ghost root: Id)
    returns (found: seq<HierarchyError>, depths: map<Id, nat>)
    requires cursor in before
    ensures Sane(nodes, parents, root, before) && Trail(trail, cursor, parents) ==>
              && Measured(depths, nodes, parents, root)
              && before.Keys <= depths.Keys && (forall t :: t in trail ==> t in depths)
              && NotesExcess(found, before, depths, parents, root)
    ensures forall e :: e in found ==> e == TooDeep
  {
    found, depths := [], before;
    ghost var sane := Sane(nodes, parents, root, before) && Trail(trail, cursor, parents);
    var depth := depths[cursor];
    var i := |trail|;
    while i > 0
      invariant 0 <= i <= |trail|
      invariant before.Keys <= depths.Keys && forall j :: i <= j < |trail| ==> trail[j] in depths
      invariant var next := if i < |trail| then trail[i] else cursor; next in depths && depths[next] == depth
      invariant forall e :: e in found ==> e == TooDeep
      invariant sane ==> Measured(depths, nodes, parents, root) && NotesExcess(found, before, depths, parents, root)
    {
      i := i - 1;
      var node := trail[i];
      if node in depths {
        depth := depths[node];
      } else {
        depth := depth + 1;
        if sane { RecordStep(depths, nodes, parents, root, node, depth); }
        depths := depths[node := depth];
        if depth > MAX_HIERARCHY_DEPTH {
          found := found + [TooDeep];
        }
      }
    }
  }

  /** What the walk has found, against what is so, when it is meaningful. */
  ghost predicate WalkProgress(issues: seq<HierarchyError>, depths: map<Id, nat>, order: seq<Id>, at: nat,
                               nodes: set<Id>, parents: Parents, root: Id)
    requires at <= |order|
  {
    && Measured(depths, nodes, parents, root) && Justified(issues, parents, root)
    && (issues == [] ==> Within(depths, MAX_HIERARCHY_DEPTH) && forall i :: 0 <= i < at ==> order[i] in depths)
  }

  /**
   The validator's walk: it records depths past the limit and only notes the
   findings, reports one cycle at most, and never stops early.
   */
  method FindDepthIssues(nodes: set<Id>, parents: Parents, globals: set<Id>, ghost root: Id)
    returns (issues: seq<HierarchyError>)
    ensures Rooted(nodes, parents, root) && globals == {root} ==>
              && (issues == [] <==> Acyclic(parents) && DepthWithin(parents, root, MAX_HIERARCHY_DEPTH))
              && Justified(issues, parents, root)
  {
    issues := [];
    var depths: map<Id, nat> := map g | g in globals :: 0;
    ghost var sane := Rooted(nodes, parents, root) && globals == {root};
    var cycleReported := false;
    var order := SortedIds(nodes);
    var at := 0;
    while at < |order|
      invariant 0 <= at <= |order|
      invariant cycleReported ==> issues != []
      invariant sane ==> WalkProgress(issues, depths, order, at, nodes, parents, root)
    {
      ghost var before, was := depths, issues;
      assert order[at] in nodes;
      var trail, cursor, cycle, invalid;
      trail, cursor, cycle, invalid, depths := ClimbNoting(nodes, parents, depths, order[at], root);
      if invalid {
        if cycle && !cycleReported {
          if sane { JustifiedAppend(issues, [ParentCycle], parents, root); }
          issues := issues + [ParentCycle];
          cycleReported := true;
        }
      } else {
        var found;
        found, depths := UnwindNoting(nodes, parents, depths, trail, cursor, root);
        if sane { JustifiedAppend(issues, found, parents, root); }
        issues := issues + found;
      }
      at := at + 1;
    }
    if sane { WalkIsExact(issues, depths, order, nodes, parents, root); }
  }

  lemma WalkIsExact(issues: seq<HierarchyError>, depths: map<Id, nat>, order: seq<Id>, nodes: set<Id>, parents: Parents, root: Id)
    requires Rooted(nodes, parents, root) && WalkProgress(issues, depths, order, |order|, nodes, parents, root)
    requires forall n :: n in order <==> n in nodes
    ensures issues == [] <==> Acyclic(parents) && DepthWithin(parents, root, MAX_HIERARCHY_DEPTH)
  {
    if issues == [] {
      TableIsExact(depths, order, nodes, parents, root);
      CompleteTable(depths, nodes, parents, root, MAX_HIERARCHY_DEPTH);
    } else {
      assert issues[0] in issues;
    }
  }

  // ----- The validator's reading: every finding is noted -----

  /** A global node has no parent, any other node names one. */
  predicate ParentGiven(n: Node) { n.kind == Global <==> n.parent.None? }

  ghost predicate PrefixDistinct(ns: seq<Node>, i: nat)
    requires i <= |ns|
  {
    forall k, l :: 0 <= k < l < i ==> ns[k].id != ns[l].id
  }

  /** The dictionaries after the first `i` nodes; they speak for each node when ids are distinct. */
  ghost predicate Noted(ns: seq<Node>, i: nat, ids: set<Id>, types: map<Id, Kind>, parents: Parents)
    requires i <= |ns|
  {
    && ids == (set k | 0 <= k < i :: ns[k].id) && types.Keys == ids && parents.Keys <= ids
    && (PrefixDistinct(ns, i) ==> forall k :: 0 <= k < i ==> NodeNoted(ns[k], types, parents))
  }

  ghost predicate NodeNoted(n: Node, types: map<Id, Kind>, parents: Parents) {
    && n.id in types && types[n.id] == n.kind
    && (if n.kind != Global && n.parent.Some? then n.id in parents && parents[n.id] == n.parent.value else n.id !in parents)
  }

  ghost predicate ReadClean(ns: seq<Node>, i: nat)
    requires i <= |ns|
  {
    PrefixDistinct(ns, i) && forall k :: 0 <= k < i ==> ParentGiven(ns[k])
  }

  /** The parent entry of one node. */
  function NoteParent(parents: Parents, n: Node): Parents {
    if n.kind != Global && n.parent.Some? then parents[n.id := n.parent.value] else parents
  }

  lemma NotedNext(ns: seq<Node>, i: nat, ids: set<Id>, types: map<Id, Kind>, parents: Parents)
    requires i < |ns| && Noted(ns, i, ids, types, parents)
    ensures Noted(ns, i + 1, ids + {ns[i].id}, types[ns[i].id := ns[i].kind], NoteParent(parents, ns[i]))
    ensures PrefixDistinct(ns, i + 1) <==> PrefixDistinct(ns, i) && ns[i].id !in ids
  {
    var n, types', parents' := ns[i], types[ns[i].id := ns[i].kind], NoteParent(parents, ns[i]);
    if PrefixDistinct(ns, i + 1) {
      forall k | 0 <= k <= i ensures NodeNoted(ns[k], types', parents') {
        if k < i { assert NodeNoted(ns[k], types, parents); }
      }
    }
  }

  /** The findings at one node. */
  method NoteNode(n: Node, ids: set<Id>) returns (found: seq<HierarchyError>)
    ensures found == [] <==> n.id !in ids && ParentGiven(n)
  {
    found := if n.id in ids then [DuplicateNode] else [];
    if n.kind == Global {
      if n.parent.Some? { found := found + [GlobalParent]; }
    } else if n.parent.None? {
      found := found + [UnknownParent];
    }
  }

  method NoteNodes(ns: seq<Node>) returns (issues: seq<HierarchyError>, ids: set<Id>, types: map<Id, Kind>, parents: Parents)
    ensures Noted(ns, |ns|, ids, types, parents)
    ensures issues == [] <==> ReadClean(ns, |ns|)
  {
    issues, ids, types, parents := [], {}, map[], map[];
    for i := 0 to |ns|
      invariant Noted(ns, i, ids, types, parents) && (issues == [] <==> ReadClean(ns, i))
    {
      var found := NoteNode(ns[i], ids);
      NotedNext(ns, i, ids, types, parents);
      issues := issues + found;
      ids, types, parents := ids + {ns[i].id}, types[ns[i].id := ns[i].kind], NoteParent(parents, ns[i]);
    }
  }

  predicate ReferenceGood(ids: set<Id>, types: map<Id, Kind>, parents: Parents, id: Id)
    requires id in parents && id in types && types.Keys == ids
  {
    parents[id] in ids && AllowedChild(types[parents[id]], types[id])
  }

  method NoteReferences(ids: set<Id>, types: map<Id, Kind>, parents: Parents) returns (issues: seq<HierarchyError>)
    requires types.Keys == ids && parents.Keys <= ids
    ensures issues == [] <==> forall id :: id in parents ==> ReferenceGood(ids, types, parents, id)
  {
    issues := [];
    var order := SortedIds(parents.Keys);
    for i := 0 to |order|
      invariant issues == [] <==> forall k :: 0 <= k < i ==> ReferenceGood(ids, types, parents, order[k])
    {
      assert order[i] in parents;
      if parents[order[i]] !in ids {
        issues := issues + [UnknownParent];
      } else if !AllowedChild(types[parents[order[i]]], types[order[i]]) {
        issues := issues + [ParentType];
      }
    }
    assert forall id :: id in parents <==> id in order;
  }

  lemma SameId(ns: seq<Node>, a: Node, b: Node)
    requires DistinctIds(ns) && a in ns && b in ns && a.id == b.id
    ensures a == b
  {
    var i, j :| 0 <= i < |ns| && ns[i] == a && 0 <= j < |ns| && ns[j] == b;
  }

  /** For distinct ids, a node's parent is good exactly when the dictionaries say so. */
  lemma ReferenceIsParent(ns: seq<Node>, ids: set<Id>, types: map<Id, Kind>, parents: Parents, n: Node)
    requires DistinctIds(ns) && Noted(ns, |ns|, ids, types, parents) && n in ns && ParentGiven(n)
    ensures GoodParent(ns, n) <==> n.id in parents ==> ReferenceGood(ids, types, parents, n.id)
  {
    var k :| 0 <= k < |ns| && ns[k] == n;
    assert NodeNoted(ns[k], types, parents);
    if n.kind != Global {
      if p :| p in ns && p.id == n.parent.value {
        var l :| 0 <= l < |ns| && ns[l] == p;
        assert NodeNoted(ns[l], types, parents);
        forall q | q in ns && q.id == n.parent.value ensures q == p { SameId(ns, q, p); }
      }
      if parents[n.id] in ids {
        var l :| 0 <= l < |ns| && ns[l].id == parents[n.id];
        assert ns[l] in ns;
      }
    }
  }

  lemma ReadingIsExact(ns: seq<Node>, ids: set<Id>, types: map<Id, Kind>, parents: Parents)
    requires Noted(ns, |ns|, ids, types, parents)
    ensures WellTyped(ns) <==> && ReadClean(ns, |ns|) && OneGlobal(ns)
                               && forall id :: id in parents ==> ReferenceGood(ids, types, parents, id)
  {
    if DistinctIds(ns) {
      forall n | n in ns && ParentGiven(n)
        ensures GoodParent(ns, n) <==> n.id in parents ==> ReferenceGood(ids, types, parents, n.id)
      {
        ReferenceIsParent(ns, ids, types, parents, n);
      }
      forall n | n in ns && GoodParent(ns, n) ensures ParentGiven(n) {}
      forall id | id in parents ensures exists n :: n in ns && n.id == id {
        var k :| 0 <= k < |ns| && ns[k].id == id;
        assert ns[k] in ns;
      }
      assert forall k :: 0 <= k < |ns| ==> ns[k] in ns;
    }
  }

  lemma NotedDescribes(ns: seq<Node>, ids: set<Id>, types: map<Id, Kind>, parents: Parents, root: Id)
    requires WellTyped(ns) && Noted(ns, |ns|, ids, types, parents)
    requires exists g :: g in ns && g.kind == Global && g.id == root
    requires forall n :: n in ns && n.kind == Global ==> n.id == root
    ensures Describes(ns, ids, parents, root)
    ensures (set id | id in types && types[id] == Global) == {root}
  {
    forall id ensures id in ids <==> exists n :: n in ns && n.id == id {
      if id in ids { var k :| 0 <= k < |ns| && ns[k].id == id; assert ns[k] in ns; }
      if n :| n in ns && n.id == id { var k :| 0 <= k < |ns| && ns[k] == n; }
    }
    forall n | n in ns
      ensures NodeNoted(n, types, parents)
      ensures if n.kind == Global then n.id == root && n.id !in parents else n.id in parents && n.parent == Some(parents[n.id])
    {
      var k :| 0 <= k < |ns| && ns[k] == n;
      assert GoodParent(ns, n);
    }
    forall id | id in types && types[id] == Global ensures id == root {
      var n :| n in ns && n.id == id;
    }
  }

  /**
   The validator's check, which notes every finding and walks whatever it can: with
   `DeriveHierarchy`, both accept the same hierarchies at limit 16.
   */
  method ValidateHierarchy(ns: seq<Node>) returns (issues: seq<HierarchyError>)
    ensures issues == [] <==> Sound(ns, MAX_HIERARCHY_DEPTH)
  {
    var read, ids, types, parents := NoteNodes(ns);
    var globals, root := CountGlobals(ns);
    var counted := if globals != 1 then [GlobalCount] else [];
    var references := NoteReferences(ids, types, parents);
    ReadingIsExact(ns, ids, types, parents);
    if globals == 1 && read == [] && references == [] {
      NotedDescribes(ns, ids, types, parents, root);
      DescriptionIsRooted(ns, ids, parents, root);
      SoundByDescription(ns, ids, parents, root, MAX_HIERARCHY_DEPTH);
    }
    var walked := FindDepthIssues(ids, parents, (set id | id in types && types[id] == Global), root);
    issues := read + counted + references + walked;
  }

  // ----- Descendants -----

  method HierarchyDescendsFrom(parents: Parents, nodeId: Id, ancestorId: Id) returns (r: bool)
    ensures r <==> Descends(parents, nodeId, ancestorId)
  {
    var cursor := nodeId;
    var visited: set<Id> := {};
    ghost var steps := 0;
    while cursor !in visited
      invariant Passed(parents, nodeId, ancestorId, visited, cursor, steps)
      decreases parents.Keys - visited
    {
      if cursor == ancestorId {
        return true;
      }
      if cursor !in parents {
        NeverReached(parents, nodeId, ancestorId, visited, cursor, steps);
        return false;
      }
      visited := visited + {cursor};
      cursor := parents[cursor];
      steps := steps + 1;
    }
    NeverReached(parents, nodeId, ancestorId, visited, cursor, steps);
    return false;
  }
}
