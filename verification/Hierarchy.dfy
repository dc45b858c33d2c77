/**
 The site hierarchy: what a sound one is, the allocator's checks and memoised depth
 walk, and its descendant test (orchestrator/allocator.py).
 */
module Hierarchy {
  import opened Basics
  import opened Ordering

  const MAX_HIERARCHY_DEPTH := 16

  datatype Kind = Global | Area | Building | Floor | Unsupported

  datatype Node = Node(id: Id, kind: Kind, parent: Option<Id>)

  datatype HierarchyError =
    | DuplicateNode | GlobalCount | GlobalParent | UnknownParent | ParentType | ParentCycle | TooDeep | BadLimit

  type Parents = map<Id, Id>

  predicate AllowedChild(parent: Kind, child: Kind) {
    match parent
    case Global => child == Area || child == Building
    case Area => child == Area || child == Building
    case Building => child == Floor
    case _ => false
  }

  /** The node reached from `n` after following `k` parent references. */
  function Ancestor(parents: Parents, n: Id, k: nat): Option<Id> {
    if k == 0 then Some(n)
    else
      match Ancestor(parents, n, k - 1)
      case None => None
      case Some(m) => if m in parents then Some(parents[m]) else None
  }

  ghost predicate Acyclic(parents: Parents) {
    forall n, k: nat :: k > 0 ==> Ancestor(parents, n, k) != Some(n)
  }

  ghost predicate DepthWithin(parents: Parents, root: Id, limit: nat) {
    forall n, k: nat :: Ancestor(parents, n, k) == Some(root) ==> k <= limit
  }

  ghost predicate Descends(parents: Parents, n: Id, ancestor: Id) {
    exists k: nat :: Ancestor(parents, n, k) == Some(ancestor)
  }

  /** Every node but the root has a known parent. */
  predicate Rooted(nodes: set<Id>, parents: Parents, root: Id) {
    && root in nodes && root !in parents && parents.Keys == nodes - {root}
    && forall n {:trigger parents[n]} :: n in parents ==> parents[n] in nodes
  }

  /** One more than its parent, which is measured too. */
  ghost predicate OneBelowParent(depths: map<Id, nat>, parents: Parents, n: Id)
    requires n in depths
  {
    n in parents && parents[n] in depths && depths[n] == depths[parents[n]] + 1
  }

  /** A partial depth table that is closed under parents and counts them. */
  ghost predicate Measured(depths: map<Id, nat>, nodes: set<Id>, parents: Parents, root: Id) {
    && depths.Keys <= nodes
    && root in depths && depths[root] == 0
    && forall n {:trigger OneBelowParent(depths, parents, n)} ::
         n in depths && n != root ==> OneBelowParent(depths, parents, n)
  }

  lemma {:induction false} AncestorDepth(depths: map<Id, nat>, nodes: set<Id>, parents: Parents, root: Id, n: Id, k: nat)
    requires Rooted(nodes, parents, root) && Measured(depths, nodes, parents, root)
    requires n in depths && Ancestor(parents, n, k).Some?
    ensures var m := Ancestor(parents, n, k).value; m in depths && depths[m] + k == depths[n]
  {
    if k > 0 {
      AncestorDepth(depths, nodes, parents, root, n, k - 1);
      assert OneBelowParent(depths, parents, Ancestor(parents, n, k - 1).value);
    }
  }

  lemma {:induction false} AncestorShift(parents: Parents, n: Id, k: nat)
    requires n in parents
    ensures Ancestor(parents, n, k + 1) == Ancestor(parents, parents[n], k)
  {
    if k > 0 {
      AncestorShift(parents, n, k - 1);
    } else {
      assert Ancestor(parents, n, 0) == Some(n);
    }
  }

  /** The table holds true distances: following that many parents ends at the root. */
  lemma {:induction false} DepthIsDistance(depths: map<Id, nat>, nodes: set<Id>, parents: Parents, root: Id, n: Id)
    requires Rooted(nodes, parents, root) && Measured(depths, nodes, parents, root) && n in depths
    ensures Ancestor(parents, n, depths[n]) == Some(root)
    decreases depths[n]
  {
    if n != root {
      assert OneBelowParent(depths, parents, n);
      DepthIsDistance(depths, nodes, parents, root, parents[n]);
      AncestorShift(parents, n, depths[n] - 1);
    }
  }

  /** A complete table within the limit proves the hierarchy sound. */
  lemma CompleteTable(depths: map<Id, nat>, nodes: set<Id>, parents: Parents, root: Id, limit: nat)
    requires Rooted(nodes, parents, root) && Measured(depths, nodes, parents, root)
    requires depths.Keys == nodes && forall n :: n in depths ==> depths[n] <= limit
    ensures Acyclic(parents) && DepthWithin(parents, root, limit)
  {
    forall n, k: nat | k > 0 ensures Ancestor(parents, n, k) != Some(n) {
      if Ancestor(parents, n, k) == Some(n) {
        FirstStep(parents, n, k);
        AncestorDepth(depths, nodes, parents, root, n, k);
      }
    }
    forall n, k: nat | Ancestor(parents, n, k) == Some(root) ensures k <= limit {
      if k > 0 {
        FirstStep(parents, n, k);
        AncestorDepth(depths, nodes, parents, root, n, k);
      }
    }
  }

  lemma {:induction false} FirstStep(parents: Parents, n: Id, k: nat)
    requires k > 0 && Ancestor(parents, n, k).Some?
    ensures n in parents
  {
    if k > 1 { FirstStep(parents, n, k - 1); }
  }

  /** A path of parent references. */
  ghost predicate Trail(trail: seq<Id>, cursor: Id, parents: Parents) {
    && (forall i :: 0 <= i < |trail| ==> trail[i] in parents)
    && (forall i :: 0 <= i < |trail| - 1 ==> parents[trail[i]] == trail[i + 1])
    && (trail != [] ==> parents[trail[|trail| - 1]] == cursor)
  }

  lemma {:induction false} TrailIsAncestry(trail: seq<Id>, cursor: Id, parents: Parents, i: nat)
    requires Trail(trail, cursor, parents) && i < |trail|
    ensures Ancestor(parents, trail[i], |trail| - i) == Some(cursor)
    decreases |trail| - i
  {
    if i < |trail| - 1 {
      TrailIsAncestry(trail, cursor, parents, i + 1);
      AncestorShift(parents, trail[i], |trail| - i - 1);
    } else {
      assert Ancestor(parents, trail[i], 0) == Some(trail[i]);
    }
  }

  /** Meeting a node of the trail again closes a cycle. */
  lemma RevisitIsCycle(trail: seq<Id>, cursor: Id, parents: Parents)
    requires Trail(trail, cursor, parents) && cursor in trail
    ensures !Acyclic(parents)
  {
    var i :| 0 <= i < |trail| && trail[i] == cursor;
    TrailIsAncestry(trail, cursor, parents, i);
  }

  /** The inner loop of the walk: climb until a measured node, or meet the trail again. */
  method Climb(nodes: set<Id>, parents: Parents, root: Id, depths: map<Id, nat>, start: Id)
    returns (trail: seq<Id>, cursor: Id, cycle: bool)
    requires Rooted(nodes, parents, root) && root in depths && start in nodes
    ensures cycle ==> !Acyclic(parents)
    ensures !cycle ==> && cursor in depths && Trail(trail, cursor, parents)
                       && (if trail == [] then cursor == start else trail[0] == start)
                       && forall t :: t in trail ==> t in nodes && t !in depths
  {
    trail, cursor, cycle := [], start, false;
    var visiting: set<Id> := {};
    while cursor !in depths
      invariant cursor in nodes && Trail(trail, cursor, parents)
      invariant if trail == [] then cursor == start else trail[0] == start
      invariant visiting == set t | t in trail
      invariant visiting <= nodes && visiting !! depths.Keys
      decreases nodes - visiting
    {
      if cursor in visiting {
        RevisitIsCycle(trail, cursor, parents);
        cycle := true;
        return;
      }
      visiting := visiting + {cursor};
      trail := trail + [cursor];
      cursor := parents[cursor];
    }
  }

  ghost predicate Within(depths: map<Id, nat>, limit: nat) {
    forall n :: n in depths ==> depths[n] <= limit
  }

  lemma RecordStep(depths: map<Id, nat>, nodes: set<Id>, parents: Parents, root: Id, node: Id, depth: nat)
    requires Rooted(nodes, parents, root) && Measured(depths, nodes, parents, root)
    requires node in parents && node !in depths && parents[node] in depths && depth == depths[parents[node]] + 1
    ensures Measured(depths[node := depth], nodes, parents, root)
    ensures Ancestor(parents, node, depth) == Some(root)
  {
    var deeper := depths[node := depth];
    forall n | n in deeper && n != root ensures OneBelowParent(deeper, parents, n) {
      if n != node { assert OneBelowParent(depths, parents, n); }
    }
    DepthIsDistance(deeper, nodes, parents, root, node);
  }

  /** Assigns depths along a trail, from its measured end back to its start; the allocator stops past the limit. */
  method Unwind(nodes: set<Id>, parents: Parents, root: Id, before: map<Id, nat>,
                trail: seq<Id>, cursor: Id, maxDepth: nat)
    returns (deep: bool, depths: map<Id, nat>)
    requires Rooted(nodes, parents, root) && Measured(before, nodes, parents, root) && Within(before, maxDepth)
    requires cursor in before && Trail(trail, cursor, parents)
    ensures deep ==> !DepthWithin(parents, root, maxDepth)
    ensures !deep ==> && Measured(depths, nodes, parents, root) && Within(depths, maxDepth)
                      && before.Keys <= depths.Keys && forall t :: t in trail ==> t in depths
  {
    deep, depths := false, before;
    var depth := depths[cursor];
    var i := |trail|;
    while i > 0
      invariant 0 <= i <= |trail|
      invariant Measured(depths, nodes, parents, root) && Within(depths, maxDepth)
      invariant before.Keys <= depths.Keys && forall j :: i <= j < |trail| ==> trail[j] in depths
      invariant var next := if i < |trail| then trail[i] else cursor; next in depths && depths[next] == depth
    {
      i := i - 1;
      var node := trail[i];
      if node in depths {
        depth := depths[node];
      } else {
        depth := depth + 1;
        RecordStep(depths, nodes, parents, root, node, depth);
        if depth > maxDepth {
          deep := true;
          return;
        }
        depths := depths[node := depth];
      }
    }
  }

  /** The error names a fault that the hierarchy has. */
  ghost predicate Blames(e: HierarchyError, parents: Parents, root: Id, limit: nat) {
    || (e == ParentCycle && !Acyclic(parents))
    || (e == TooDeep && !DepthWithin(parents, root, limit))
  }

  /** One start node: climb, then assign depths on the way back. */
  method MeasureFrom(nodes: set<Id>, parents: Parents, root: Id, before: map<Id, nat>, start: Id, maxDepth: nat)
    returns (failure: Option<HierarchyError>, depths: map<Id, nat>)
    requires Rooted(nodes, parents, root) && Measured(before, nodes, parents, root) && Within(before, maxDepth)
    requires start in nodes
    ensures failure == None ==> && Measured(depths, nodes, parents, root) && Within(depths, maxDepth)
                                && before.Keys <= depths.Keys && start in depths
    ensures failure.Some? ==> Blames(failure.value, parents, root, maxDepth)
  {
    depths := before;
    var trail, cursor, cycle := Climb(nodes, parents, root, depths, start);
    if cycle {
      return Some(ParentCycle), depths;
    }
    var deep, deeper := Unwind(nodes, parents, root, depths, trail, cursor, maxDepth);
    if deep {
      return Some(TooDeep), depths;
    }
    return None, deeper;
  }

  method MeasureAll(nodes: set<Id>, parents: Parents, root: Id, order: seq<Id>, maxDepth: nat)
    returns (failure: Option<HierarchyError>, depths: map<Id, nat>)
    requires Rooted(nodes, parents, root) && forall n :: n in order ==> n in nodes
    ensures failure == None ==> && Measured(depths, nodes, parents, root) && Within(depths, maxDepth)
                                && forall i :: 0 <= i < |order| ==> order[i] in depths
    ensures failure.Some? ==> Blames(failure.value, parents, root, maxDepth)
  {
    depths := map[root := 0];
    for at := 0 to |order|
      invariant Measured(depths, nodes, parents, root) && Within(depths, maxDepth)
      invariant forall i :: 0 <= i < at ==> order[i] in depths
    {
      failure, depths := MeasureFrom(nodes, parents, root, depths, order[at], maxDepth);
      if failure.Some? { return; }
    }
    failure := None;
  }

  /**
   The allocator's memoised depth walk, one trail per start node: it accepts
   exactly the acyclic hierarchies within the limit, and measures them truly.
   */
  method DeriveDepths(nodes: set<Id>, parents: Parents, root: Id, maxDepth: nat)
    returns (r: Result<map<Id, nat>, HierarchyError>)
    requires Rooted(nodes, parents, root)
    ensures r.Ok? <==> Acyclic(parents) && DepthWithin(parents, root, maxDepth)
    ensures r.Ok? ==> Exact(r.value, nodes, parents, root)
    ensures r.Err? ==> Blames(r.error, parents, root, maxDepth)
  {
    var order := SortedIds(nodes);
    var failure, depths := MeasureAll(nodes, parents, root, order, maxDepth);
    if failure.Some? {
      return Err(failure.value);
    }
    TableIsExact(depths, order, nodes, parents, root);
    CompleteTable(depths, nodes, parents, root, maxDepth);
    return Ok(depths);
  }

  /** Every node with its true distance to the root. */
  ghost predicate Exact(depths: map<Id, nat>, nodes: set<Id>, parents: Parents, root: Id) {
    depths.Keys == nodes && forall n :: n in nodes ==> Ancestor(parents, n, depths[n]) == Some(root)
  }

  lemma TableIsExact(depths: map<Id, nat>, order: seq<Id>, nodes: set<Id>, parents: Parents, root: Id)
    requires Rooted(nodes, parents, root) && Measured(depths, nodes, parents, root)
    requires forall n :: n in order <==> n in nodes
    requires forall i :: 0 <= i < |order| ==> order[i] in depths
    ensures Exact(depths, nodes, parents, root)
  {
    forall n | n in nodes ensures n in depths && Ancestor(parents, n, depths[n]) == Some(root) {
      assert n in order;
      DepthIsDistance(depths, nodes, parents, root, n);
    }
  }

  // ----- From the node list -----

  predicate DistinctIds(ns: seq<Node>) {
    forall i, j :: 0 <= i < j < |ns| ==> ns[i].id != ns[j].id
  }

  predicate GoodParent(ns: seq<Node>, n: Node) {
    if n.kind == Global then n.parent.None?
    else n.parent.Some? && exists p :: p in ns && p.id == n.parent.value && AllowedChild(p.kind, n.kind)
  }

  /** Distinct ids, one global node, and every other node below a known parent of a suitable type. */
  ghost predicate WellTyped(ns: seq<Node>) {
    && DistinctIds(ns)
    && OneGlobal(ns)
    && (forall n :: n in ns ==> GoodParent(ns, n))
  }

  /** `nodes`, `parents` and `root` are what a well-typed node list says. */
  ghost predicate Describes(ns: seq<Node>, nodes: set<Id>, parents: Parents, root: Id) {
    && (forall id :: id in nodes <==> exists n :: n in ns && n.id == id)
    && parents.Keys <= nodes
    && (exists g :: g in ns && g.kind == Global && g.id == root)
    && (forall n :: n in ns ==> if n.kind == Global then n.id == root && n.id !in parents
                                else n.id in parents && n.parent == Some(parents[n.id]))
  }

  /** The node list is a hierarchy that both components must accept at this limit. */
  ghost predicate Sound(ns: seq<Node>, limit: nat) {
    && WellTyped(ns)
    && forall nodes, parents, root :: Describes(ns, nodes, parents, root)
         ==> Acyclic(parents) && DepthWithin(parents, root, limit)
  }

  lemma DescriptionIsRooted(ns: seq<Node>, nodes: set<Id>, parents: Parents, root: Id)
    requires WellTyped(ns) && Describes(ns, nodes, parents, root)
    ensures Rooted(nodes, parents, root)
  {
    forall id | id in nodes ensures (id in parents <==> id != root) && (id in parents ==> parents[id] in nodes) {
      var n :| n in ns && n.id == id;
      assert GoodParent(ns, n);
      var g :| g in ns && g.kind == Global && g.id == root;
    }
  }

  lemma DescriptionIsUnique(ns: seq<Node>, n1: set<Id>, p1: Parents, r1: Id, n2: set<Id>, p2: Parents, r2: Id)
    requires Describes(ns, n1, p1, r1) && Describes(ns, n2, p2, r2)
    ensures p1 == p2 && r1 == r2
  {
    SameParents(ns, n1, p1, r1, n2, p2, r2);
    SameParents(ns, n2, p2, r2, n1, p1, r1);
    assert p1.Keys == p2.Keys;
  }

  lemma SameParents(ns: seq<Node>, n1: set<Id>, p1: Parents, r1: Id, n2: set<Id>, p2: Parents, r2: Id)
    requires Describes(ns, n1, p1, r1) && Describes(ns, n2, p2, r2)
    ensures n1 <= n2 && forall id :: id in p1 ==> id in p2 && p1[id] == p2[id]
  {
    forall id | id in p1 ensures id in p2 && p1[id] == p2[id] {
      var n :| n in ns && n.id == id;
    }
  }

  lemma SoundByDescription(ns: seq<Node>, nodes: set<Id>, parents: Parents, root: Id, limit: nat)
    requires WellTyped(ns) && Describes(ns, nodes, parents, root)
    ensures Sound(ns, limit) <==> Acyclic(parents) && DepthWithin(parents, root, limit)
  {
    forall n2, p2, r2 | Describes(ns, n2, p2, r2) ensures p2 == parents && r2 == root {
      DescriptionIsUnique(ns, nodes, parents, root, n2, p2, r2);
    }
  }

  method ReadIds(ns: seq<Node>) returns (distinct: bool, ids: set<Id>)
    ensures distinct <==> DistinctIds(ns)
    ensures distinct ==> forall id :: id in ids <==> exists n :: n in ns && n.id == id
  {
    distinct, ids := true, {};
    var i := 0;
    while i < |ns|
      invariant 0 <= i <= |ns|
      invariant ids == set k | 0 <= k < i :: ns[k].id
      invariant forall k, l :: 0 <= k < l < i ==> ns[k].id != ns[l].id
    {
      if ns[i].id in ids {
        distinct := false;
        return;
      }
      ids := ids + {ns[i].id};
      i := i + 1;
    }
  }

  ghost predicate OneGlobal(ns: seq<Node>) {
    && (exists g :: g in ns && g.kind == Global)
    && (forall i, j :: 0 <= i < j < |ns| ==> ns[i].kind != Global || ns[j].kind != Global)
  }

  method CountGlobals(ns: seq<Node>) returns (globals: nat, root: Id)
    ensures globals == 1 <==> OneGlobal(ns)
    ensures globals == 1 ==> exists g :: g in ns && g.kind == Global && g.id == root
    ensures globals == 1 ==> forall n :: n in ns && n.kind == Global ==> n.id == root
  {
    globals, root := 0, "";
    ghost var at, second := 0, 0;
    var i := 0;
    while i < |ns|
      invariant 0 <= i <= |ns|
      invariant globals == 0 ==> forall k :: 0 <= k < i ==> ns[k].kind != Global
      invariant globals >= 1 ==> 0 <= at < i && ns[at].kind == Global && root == ns[at].id
      invariant globals == 1 ==> forall k :: 0 <= k < i && k != at ==> ns[k].kind != Global
      invariant globals > 1 ==> at < second < i && ns[second].kind == Global
    {
      if ns[i].kind == Global {
        if globals == 0 { root := ns[i].id; at := i; } else { second := i; }
        globals := globals + 1;
      }
      i := i + 1;
    }
    if globals == 1 { assert ns[at] in ns; }
  }

  /** The first node, in the order given, whose parent is not what it should be. */
  ghost predicate FirstBadParent(ns: seq<Node>, k: nat) {
    k < |ns| && !GoodParent(ns, ns[k]) && forall j :: 0 <= j < k ==> GoodParent(ns, ns[j])
  }

  function ParentFault(nodes: set<Id>, n: Node): HierarchyError {
    if n.kind == Global then GlobalParent
    else if n.parent.None? || n.parent.value !in nodes then UnknownParent else ParentType
  }

  function IdsOf(ns: seq<Node>): set<Id> { set n | n in ns :: n.id }

  method ReadParents(ns: seq<Node>, nodes: set<Id>) returns (r: Result<Parents, HierarchyError>)
    requires DistinctIds(ns)
    ensures r.Ok? <==> forall n :: n in ns ==> GoodParent(ns, n)
    ensures r.Ok? ==> forall id :: id in r.value ==> exists n :: n in ns && n.id == id && n.kind != Global
    ensures r.Ok? ==> forall n :: n in ns && n.kind != Global ==> n.id in r.value && n.parent == Some(r.value[n.id])
    ensures r.Err? ==> exists k: nat :: FirstBadParent(ns, k) && r.error == ParentFault(nodes, ns[k])
  {
    var parents: Parents := map[];
    var i := 0;
    while i < |ns|
      invariant 0 <= i <= |ns|
      invariant forall k :: 0 <= k < i ==> GoodParent(ns, ns[k])
      invariant forall id :: id in parents ==> exists n :: n in ns[..i] && n.id == id && n.kind != Global
      invariant forall k :: 0 <= k < i && ns[k].kind != Global ==> ns[k].id in parents && ns[k].parent == Some(parents[ns[k].id])
    {
      var n := ns[i];
      if !GoodParent(ns, n) {
        assert FirstBadParent(ns, i);
        return Err(ParentFault(nodes, n));
      }
      if n.kind != Global {
        parents := parents[n.id := n.parent.value];
      }
      assert ns[..i + 1] == ns[..i] + [n];
      i := i + 1;
    }
    return Ok(parents);
  }

  /** Why the node list is refused, in the order of the checks, and of the nodes. */
  ghost predicate FirstFailure(ns: seq<Node>, e: HierarchyError) {
    if !DistinctIds(ns) then e == DuplicateNode
    else if !OneGlobal(ns) then e == GlobalCount
    else exists k: nat :: FirstBadParent(ns, k) && e == ParentFault(IdsOf(ns), ns[k])
  }

  /** The allocator's checks before it walks: the first failure ends it. */
  method ReadHierarchy(ns: seq<Node>)
    returns (failure: Option<HierarchyError>, nodes: set<Id>, parents: Parents, root: Id)
    ensures failure == None <==> WellTyped(ns)
    ensures failure == None ==> Describes(ns, nodes, parents, root)
    ensures failure.Some? ==> FirstFailure(ns, failure.value)
  {
    parents, root, failure := map[], "", None;
    var distinct;
    distinct, nodes := ReadIds(ns);
    if !distinct {
      failure := Some(DuplicateNode);
      return;
    }
    var globals;
    globals, root := CountGlobals(ns);
    if globals != 1 {
      failure := Some(GlobalCount);
      return;
    }
    assert nodes == IdsOf(ns);
    var read := ReadParents(ns, nodes);
    if read.Err? {
      failure := Some(read.error);
      return;
    }
    parents := read.value;
    forall n | n in ns && n.kind == Global ensures n.id !in parents {
      forall m | m in ns && m.id == n.id ensures m == n {
        var i, j :| 0 <= i < |ns| && ns[i] == n && 0 <= j < |ns| && ns[j] == m;
      }
    }
  }

  /** Which kind may stand below which. */
  const PLACEMENTS: set<(Kind, Kind)> := {(Global, Area), (Global, Building), (Area, Area), (Area, Building), (Building, Floor)}

  /** The global node has no parent; every other is placed below a listed node. */
  ghost predicate Placed(ns: seq<Node>, n: Node) {
    || n == Node(n.id, Global, None)
    || (n.kind != Global && exists p :: p in ns && n.parent == Some(p.id) && (p.kind, n.kind) in PLACEMENTS)
  }

  ghost predicate SameIdTwice(ns: seq<Node>) { exists i, j :: 0 <= i < j < |ns| && ns[i].id == ns[j].id }

  /** The global node is at this place and nowhere else. */
  ghost predicate GlobalAt(ns: seq<Node>, g: nat) {
    g < |ns| && forall i :: 0 <= i < |ns| ==> (ns[i].kind == Global <==> i == g)
  }

  lemma OneGlobalExact(ns: seq<Node>)
    ensures OneGlobal(ns) <==> exists g: nat :: GlobalAt(ns, g)
  {
    if OneGlobal(ns) {
      var n :| n in ns && n.kind == Global;
      var g :| 0 <= g < |ns| && ns[g] == n;
      assert GlobalAt(ns, g);
    } else if g: nat :| GlobalAt(ns, g) {
      assert ns[g] in ns;
    }
  }

  /** Well typed: no id twice, one global node, every node placed. */
  lemma WellTypedExact(ns: seq<Node>)
    ensures WellTyped(ns) <==> !SameIdTwice(ns) && (exists g: nat :: GlobalAt(ns, g)) && forall n :: n in ns ==> Placed(ns, n)
  {
    OneGlobalExact(ns);
    forall n | n in ns ensures GoodParent(ns, n) <==> Placed(ns, n) { GoodParentIsPlaced(ns, n); }
  }

  lemma GoodParentIsPlaced(ns: seq<Node>, n: Node)
    ensures GoodParent(ns, n) <==> Placed(ns, n)
  {
  }

  /** The error names the first check that fails, and for parents the first node, in the order given, that is not placed. */
  lemma FirstFailureExact(ns: seq<Node>, e: HierarchyError)
    requires FirstFailure(ns, e)
    ensures if SameIdTwice(ns) then e == DuplicateNode
            else if forall g: nat :: !GlobalAt(ns, g) then e == GlobalCount
            else exists k: nat :: k < |ns| && !Placed(ns, ns[k]) && (forall j :: 0 <= j < k ==> Placed(ns, ns[j]))
                   && e == (if ns[k].kind == Global then GlobalParent
                            else if forall p :: p in ns ==> ns[k].parent != Some(p.id) then UnknownParent else ParentType)
  {
    OneGlobalExact(ns);
    if DistinctIds(ns) && OneGlobal(ns) {
      var k: nat :| FirstBadParent(ns, k) && e == ParentFault(IdsOf(ns), ns[k]);
      forall j | 0 <= j <= k ensures GoodParent(ns, ns[j]) <==> Placed(ns, ns[j]) { GoodParentIsPlaced(ns, ns[j]); }
    }
  }

  predicate NodeLe(a: Node, b: Node) { StringLe(a.id, b.id) }
  predicate IdsApart(a: Node, b: Node) { a.id != b.id }
  predicate GlobalsApart(a: Node, b: Node) { a.kind != Global || b.kind != Global }

  lemma DescribesAlike(a: seq<Node>, b: seq<Node>, nodes: set<Id>, parents: Parents, root: Id)
    requires (forall n :: n in a <==> n in b) && Describes(a, nodes, parents, root)
    ensures Describes(b, nodes, parents, root)
  {
  }

  lemma GoodParentAlike(a: seq<Node>, b: seq<Node>, n: Node)
    requires (forall m :: m in a <==> m in b) && GoodParent(a, n)
    ensures GoodParent(b, n)
  {
  }

  lemma WellTypedAlike(a: seq<Node>, b: seq<Node>)
    requires multiset(a) == multiset(b) && (forall n :: n in a <==> n in b) && WellTyped(a)
    ensures WellTyped(b)
  {
    PairwiseAfterReordering(a, b, IdsApart);
    PairwiseAfterReordering(a, b, GlobalsApart);
    assert forall i, j :: 0 <= i < j < |b| ==> IdsApart(b[i], b[j]) && GlobalsApart(b[i], b[j]);
    forall n | n in b ensures GoodParent(b, n) { GoodParentAlike(a, b, n); }
  }

  /** What a node list says does not depend on its order. */
  lemma OrderSaysNothing(a: seq<Node>, b: seq<Node>, limit: nat)
    requires multiset(a) == multiset(b) && (forall n :: n in a <==> n in b)
    ensures Sound(a, limit) ==> Sound(b, limit)
  {
    if Sound(a, limit) {
      WellTypedAlike(a, b);
      forall nodes, parents, root | Describes(b, nodes, parents, root) ensures Acyclic(parents) && DepthWithin(parents, root, limit) {
        DescribesAlike(b, a, nodes, parents, root);
      }
    }
  }

  /** The allocator's hierarchy check, with the guardrail limit: the nodes are read in id order. */
  method DeriveHierarchy(ns: seq<Node>, maxDepth: int) returns (r: Result<map<Id, nat>, HierarchyError>)
    ensures r.Ok? <==> 1 <= maxDepth <= MAX_HIERARCHY_DEPTH && Sound(ns, maxDepth)
    ensures r.Ok? ==> exists nodes, parents, root ::
              Describes(ns, nodes, parents, root) && Exact(r.value, nodes, parents, root)
    ensures r.Err? && !WellTyped(Sort(ns, NodeLe)) ==> FirstFailure(Sort(ns, NodeLe), r.error)
    ensures r.Err? && WellTyped(Sort(ns, NodeLe)) && !(1 <= maxDepth <= MAX_HIERARCHY_DEPTH) ==> r.error == BadLimit
  {
    var sorted := Sort(ns, NodeLe);
    SortIsPermutation(ns, NodeLe);
    if 1 <= maxDepth {
      OrderSaysNothing(ns, sorted, maxDepth);
      OrderSaysNothing(sorted, ns, maxDepth);
    }
    r := DeriveSorted(sorted, maxDepth);
    if r.Ok? {
      ghost var nodes, parents, root :| Describes(sorted, nodes, parents, root) && Exact(r.value, nodes, parents, root);
      DescribesAlike(sorted, ns, nodes, parents, root);
    }
  }

  method DeriveSorted(ns: seq<Node>, maxDepth: int) returns (r: Result<map<Id, nat>, HierarchyError>)
    ensures r.Ok? <==> 1 <= maxDepth <= MAX_HIERARCHY_DEPTH && Sound(ns, maxDepth)
    ensures r.Ok? ==> exists nodes, parents, root ::
              Describes(ns, nodes, parents, root) && Exact(r.value, nodes, parents, root)
    ensures r.Err? && !WellTyped(ns) ==> FirstFailure(ns, r.error)
    ensures r.Err? && WellTyped(ns) && !(1 <= maxDepth <= MAX_HIERARCHY_DEPTH) ==> r.error == BadLimit
  {
    var read, nodes, parents, root := ReadHierarchy(ns);
    if read.Some? {
      return Err(read.value);
    }
    if maxDepth < 1 || maxDepth > MAX_HIERARCHY_DEPTH {
      return Err(BadLimit);
    }
    DescriptionIsRooted(ns, nodes, parents, root);
    SoundByDescription(ns, nodes, parents, root, maxDepth);
    r := DeriveDepths(nodes, parents, root, maxDepth);
  }

  // ----- Descendant tests -----

  /** Once the walk returns to a visited node, every ancestor has been visited. */
  lemma {:induction false} VisitedIsClosed(parents: Parents, n: Id, visited: set<Id>, k: nat)
    requires n in visited
    requires forall v :: v in visited ==> v in parents && parents[v] in visited
    ensures Ancestor(parents, n, k).Some? && Ancestor(parents, n, k).value in visited
  {
    if k > 0 { VisitedIsClosed(parents, n, visited, k - 1); }
  }

  lemma {:induction false} AncestryEnds(parents: Parents, n: Id, i: nat, k: nat)
    requires Ancestor(parents, n, i).Some? && Ancestor(parents, n, i).value !in parents
    requires k > i
    ensures Ancestor(parents, n, k) == None
  {
    if k > i + 1 { AncestryEnds(parents, n, i, k - 1); }
  }

  ghost predicate Passed(parents: Parents, n: Id, ancestor: Id, visited: set<Id>, cursor: Id, steps: nat) {
    && Ancestor(parents, n, steps) == Some(cursor)
    && (forall j: nat :: j < steps ==> Ancestor(parents, n, j).Some? && Ancestor(parents, n, j).value in visited)
    && (forall v :: v in visited ==> v in parents && (parents[v] in visited || parents[v] == cursor))
    && ancestor !in visited && (steps > 0 ==> n in visited) && (steps == 0 ==> visited == {} && cursor == n)
  }

  lemma NeverReached(parents: Parents, n: Id, ancestor: Id, visited: set<Id>, cursor: Id, steps: nat)
    requires Passed(parents, n, ancestor, visited, cursor, steps)
    requires cursor in visited || (cursor != ancestor && cursor !in parents)
    ensures !Descends(parents, n, ancestor)
  {
    forall k: nat ensures Ancestor(parents, n, k) != Some(ancestor) {
      if cursor in visited {
        VisitedIsClosed(parents, n, visited, k);
      } else if k > steps {
        AncestryEnds(parents, n, steps, k);
      }
    }
  }

  method IsDescendant(parents: Parents, nodeId: Id, ancestorId: Id) returns (r: bool)
    ensures r <==> Descends(parents, nodeId, ancestorId)
  {
    var cursor := nodeId;
    var visited: set<Id> := {};
    ghost var steps := 0;
    while true
      invariant Passed(parents, nodeId, ancestorId, visited, cursor, steps)
      decreases parents.Keys - visited
    {
      if cursor == ancestorId {
        return true;
      }
      if cursor in visited || cursor !in parents {
        NeverReached(parents, nodeId, ancestorId, visited, cursor, steps);
        return false;
      }
      visited := visited + {cursor};
      cursor := parents[cursor];
      steps := steps + 1;
    }
  }
}
