/**
 Production-acceptance registries (orchestrator/acceptance.py): the three-colour
 cycle search over gate dependencies, and the checks on gates and evidence.
 */
module Acceptance {
  import opened Basics

  type Graph = map<Id, seq<Id>>

  /** A dependency on a gate that the registry does not list is not followed. */
  predicate Edge(g: Graph, a: Id, b: Id) {
    a in g && b in g && b in g[a]
  }

  ghost predicate Walk(g: Graph, c: seq<Id>) {
    forall i :: 0 <= i < |c| - 1 ==> Edge(g, c[i], c[i + 1])
  }

  ghost predicate IsCycle(g: Graph, c: seq<Id>) {
    |c| >= 2 && c[0] == c[|c| - 1] && Walk(g, c)
  }

  ghost predicate Cyclic(g: Graph) {
    exists c :: IsCycle(g, c)
  }

  // ----- A topological order rules out every cycle -----

  predicate Distinct(s: seq<Id>) {
    forall i, j :: 0 <= i < j < |s| ==> s[i] != s[j]
  }

  /** Every gate of `order` comes after all its listed dependencies. */
  ghost predicate Topological(g: Graph, order: seq<Id>) {
    && Distinct(order)
    && forall i :: 0 <= i < |order| ==> order[i] in g && forall d :: Edge(g, order[i], d) ==> d in order[..i]
  }

  ghost function Rank(order: seq<Id>, id: Id): (i: nat)
    requires id in order
    ensures i < |order| && order[i] == id
  {
    var i :| 0 <= i < |order| && order[i] == id; i
  }

  lemma EdgeLowersRank(g: Graph, order: seq<Id>, a: Id, b: Id)
    requires Topological(g, order) && a in order && Edge(g, a, b)
    ensures b in order && Rank(order, b) < Rank(order, a)
  {
    var i := Rank(order, a);
    assert b in order[..i];
    var j :| 0 <= j < i && order[..i][j] == b;
    assert order[j] == b && order[Rank(order, b)] == b;
  }

  lemma {:induction false} WalkLowersRank(g: Graph, order: seq<Id>, c: seq<Id>, k: nat)
    requires Topological(g, order) && Walk(g, c) && 0 < k < |c| && c[0] in order
    ensures c[k] in order && Rank(order, c[k]) < Rank(order, c[0])
  {
    assert Edge(g, c[k - 1], c[k]);
    if k > 1 { WalkLowersRank(g, order, c, k - 1); }
    EdgeLowersRank(g, order, c[k - 1], c[k]);
  }

  lemma OrderedIsAcyclic(g: Graph, order: seq<Id>)
    requires Topological(g, order) && forall id :: id in g ==> id in order
    ensures !Cyclic(g)
  {
    forall c | IsCycle(g, c) ensures false {
      assert Edge(g, c[0], c[1]);
      WalkLowersRank(g, order, c, |c| - 1);
    }
  }

  lemma PopKeepsOthers(s: seq<Id>)
    requires Distinct(s) && s != []
    ensures var top := s[|s| - 1]; top !in s[..|s| - 1] && forall id :: id in s <==> id == top || id in s[..|s| - 1]
  {
    assert s == s[..|s| - 1] + [s[|s| - 1]];
  }

  lemma AppendToOrder(g: Graph, order: seq<Id>, id: Id)
    requires Distinct(order) && id !in order
    ensures Distinct(order + [id])
    ensures Topological(g, order) && id in g && (forall d :: Edge(g, id, d) ==> d in order) ==> Topological(g, order + [id])
  {
    var longer := order + [id];
    assert forall i :: 0 <= i < |longer| ==> longer[..i] == order[..i];
  }

  const WHITE := 0
  const GRAY := 1
  const BLACK := 2

  /** The colouring and the recursion stack of `_detect_dependency_cycles`. */
  class CycleSearch {
    const gates: Graph
    var state: map<Id, int>
    var stack: seq<Id>
    var cycles: seq<seq<Id>>
    ghost var order: seq<Id>

    constructor (gates: Graph)
      ensures this.gates == gates && Valid() && stack == [] && cycles == [] && state == map[]
    {
      this.gates := gates;
      state, stack, cycles, order := map[], [], [], [];
    }

    function Colour(id: Id): int
      reads this`state
    {
      if id in state then state[id] else WHITE
    }

    ghost predicate Coloured()
      reads this
    {
      && state.Keys <= gates.Keys
      && (forall id :: id in state ==> state[id] == GRAY || state[id] == BLACK)
      && (forall id :: id in stack <==> Colour(id) == GRAY)
      && (forall id :: id in order <==> Colour(id) == BLACK)
    }

    ghost predicate Valid()
      reads this
    {
      && Coloured()
      && Distinct(stack) && Walk(gates, stack) && Distinct(order)
      && (forall c :: c in cycles ==> IsCycle(gates, c))
      && (cycles == [] ==> Topological(gates, order))
    }

    /** Explores one gate; a gate met while still on the stack closes a cycle. */
    method Visit(id: Id)
      requires Valid() && id in gates
      requires stack != [] ==> Edge(gates, stack[|stack| - 1], id)
      modifies this
      ensures Valid() && stack == old(stack)
      ensures state.Keys >= old(state.Keys) + {id}
      ensures old(cycles) <= cycles
      ensures old(order) <= order
      ensures cycles == [] ==> Colour(id) == BLACK
      ensures old(stack) == [] ==> Colour(id) == BLACK
      decreases gates.Keys - state.Keys, 1
    {
      var marker := Colour(id);
      if marker == BLACK {
        return;
      }
      if marker == GRAY {
        ReportCycle(id);
        return;
      }
      Enter(id);
      Explore(id);
      Leave(id);
    }

    method ReportCycle(id: Id)
      requires Valid() && Colour(id) == GRAY && Edge(gates, stack[|stack| - 1], id)
      modifies this`cycles
      ensures Valid() && |cycles| == |old(cycles)| + 1 && old(cycles) <= cycles
    {
      assert id in stack;
      var start := 0;
      while stack[start] != id
        invariant 0 <= start < |stack| && id !in stack[..start]
        decreases |stack| - start
      {
        assert id in stack[start + 1..] by {
          var k :| 0 <= k < |stack| && stack[k] == id;
          assert forall j :: 0 <= j < start ==> stack[..start][j] == stack[j];
          assert stack[start + 1..][k - start - 1] == id;
        }
        assert stack[..start + 1] == stack[..start] + [stack[start]];
        start := start + 1;
      }
      var cycle := stack[start..] + [id];
      assert Walk(gates, cycle) by {
        forall i | 0 <= i < |cycle| - 1 ensures Edge(gates, cycle[i], cycle[i + 1]) {
          assert cycle[i] == stack[start + i];
          if i < |cycle| - 2 { assert cycle[i + 1] == stack[start + i + 1]; }
        }
      }
      cycles := cycles + [cycle];
    }

    method Enter(id: Id)
      requires Valid() && id in gates && Colour(id) == WHITE
      requires stack != [] ==> Edge(gates, stack[|stack| - 1], id)
      modifies this`state, this`stack
      ensures Valid() && stack == old(stack) + [id] && state == old(state)[id := GRAY]
    {
      state := state[id := GRAY];
      stack := stack + [id];
    }

    method Explore(id: Id)
      requires Valid() && stack != [] && stack[|stack| - 1] == id && id in gates
      modifies this
      ensures Valid() && stack == old(stack)
      ensures state.Keys >= old(state.Keys) && old(cycles) <= cycles && old(order) <= order
      ensures cycles == [] ==> forall d :: Edge(gates, id, d) ==> Colour(d) == BLACK
      decreases gates.Keys - state.Keys, 2
    {
      var i := 0;
      while i < |gates[id]|
        invariant 0 <= i <= |gates[id]|
        invariant Valid() && stack == old(stack)
        invariant state.Keys >= old(state.Keys) && old(cycles) <= cycles && old(order) <= order
        invariant cycles == [] ==> forall k :: 0 <= k < i && gates[id][k] in gates ==> gates[id][k] in order
      {
        var dependency := gates[id][i];
        if dependency in gates {
          Visit(dependency);
        }
        i := i + 1;
      }
    }

    method Leave(id: Id)
      requires Valid() && stack != [] && stack[|stack| - 1] == id && id in gates
      requires cycles == [] ==> forall d :: Edge(gates, id, d) ==> Colour(d) == BLACK
      modifies this`state, this`stack, this`order
      ensures Valid() && stack == old(stack)[..|old(stack)| - 1] && state == old(state)[id := BLACK]
      ensures order == old(order) + [id]
    {
      ghost var was := stack;
      PopKeepsOthers(stack);
      assert id !in order;
      AppendToOrder(gates, order, id);
      stack := stack[..|stack| - 1];
      state := state[id := BLACK];
      order := order + [id];
      forall x ensures x in stack <==> Colour(x) == GRAY {
        assert x in was <==> x == id || x in stack;
      }
    }

    /** Starts from every gate not yet coloured; `gateIds` is the registry's key order. */
    method DetectDependencyCycles(gateIds: seq<Id>)
      requires Valid() && stack == [] && cycles == []
      requires forall id :: id in gateIds <==> id in gates
      modifies this
      ensures cycles != [] <==> Cyclic(gates)
      ensures forall c :: c in cycles ==> IsCycle(gates, c)
    {
      var i := 0;
      while i < |gateIds|
        invariant 0 <= i <= |gateIds|
        invariant Valid() && stack == []
        invariant forall k :: 0 <= k < i ==> gateIds[k] in state
      {
        var gateId := gateIds[i];
        if Colour(gateId) == WHITE {
          Visit(gateId);
        }
        i := i + 1;
      }
      if cycles == [] {
        forall id | id in gates ensures id in order {
          assert id in gateIds;
          assert id !in stack;
        }
        OrderedIsAcyclic(gates, order);
      } else {
        assert cycles[0] in cycles;
      }
    }
  }

  // ----- Registry checks -----

  datatype Status = Pending | Passed | Failed | NotApplicable

  /** `intact`: the evidence file is inside the approved root, exists and has the recorded hash. */
  datatype Evidence = Evidence(id: Id, result: Status, intact: bool)

  datatype Gate = Gate(id: Id, status: Status, required: bool, rationale: bool, evidence: seq<Evidence>, dependencies: seq<Id>)

  datatype Issue =
    | DuplicateGate(id: Id) | DuplicateEvidence(id: Id) | BrokenEvidence(id: Id)
    | PassedWithoutEvidence(id: Id) | FailedWithoutEvidence(id: Id)
    | MissingRationale(id: Id) | NotOptional(id: Id)
    | DependencyMissing(id: Id) | DependencyNotPassed(id: Id) | DependencyCycle(chain: seq<Id>)

  /** `gates_by_id`: the first gate of each id. */
  function GatesById(gates: seq<Gate>): (m: map<Id, Gate>)
    ensures forall id :: id in m <==> exists g :: g in gates && g.id == id
    ensures forall id :: id in m ==> m[id] in gates && m[id].id == id
  {
    if gates == [] then map[]
    else
      var rest := GatesById(gates[..|gates| - 1]);
      var last := gates[|gates| - 1];
      assert gates == gates[..|gates| - 1] + [last];
      if last.id in rest then rest else rest[last.id := last]
  }

  function DependencyGraph(m: map<Id, Gate>): Graph {
    map id | id in m :: m[id].dependencies
  }

  predicate EvidenceSupports(g: Gate) {
    && (g.status == Passed ==> g.evidence != [] && forall e :: e in g.evidence ==> e.result == Passed)
    && (g.status == Failed ==> exists e :: e in g.evidence && e.result == Failed)
    && (g.status == NotApplicable ==> g.rationale && !g.required)
  }

  predicate DependenciesPassed(g: Gate, m: map<Id, Gate>) {
    forall d :: d in g.dependencies ==> d in m && (g.status == Passed ==> m[d].status == Passed)
  }

  function EvidenceIds(gates: seq<Gate>): seq<Id> {
    if gates == [] then []
    else EvidenceIds(gates[..|gates| - 1]) + IdsOf(gates[|gates| - 1].evidence)
  }

  function IdsOf(evidence: seq<Evidence>): (ids: seq<Id>)
    ensures |ids| == |evidence| && forall i :: 0 <= i < |ids| ==> ids[i] == evidence[i].id
  {
    if evidence == [] then [] else [evidence[0].id] + IdsOf(evidence[1..])
  }

  /** What a registry without a gate, evidence or dependency finding satisfies. */
  ghost predicate Clean(gates: seq<Gate>) {
    && (forall i, j :: 0 <= i < j < |gates| ==> gates[i].id != gates[j].id)
    && Distinct(EvidenceIds(gates))
    && (forall g :: g in gates ==> EvidenceSupports(g) && forall e :: e in g.evidence ==> e.intact)
    && (forall g :: g in gates ==> DependenciesPassed(g, GatesById(gates)))
    && !Cyclic(DependencyGraph(GatesById(gates)))
  }

  /** Gate `b` is reached from gate `a` by following dependencies. */
  ghost predicate DependsOn(g: Graph, a: Id, b: Id, path: seq<Id>) {
    path != [] && path[0] == a && path[|path| - 1] == b && Walk(g, path)
  }

  /** In a clean registry, everything a passed gate depends on, at any distance, passed on real evidence. */
  lemma {:induction false} PassedGatesRestOnPassedGates(gates: seq<Gate>, a: Id, b: Id, path: seq<Id>)
    requires Clean(gates)
    requires a in GatesById(gates) && GatesById(gates)[a].status == Passed
    requires DependsOn(DependencyGraph(GatesById(gates)), a, b, path)
    ensures b in GatesById(gates)
    ensures var gate := GatesById(gates)[b];
            && gate.status == Passed && gate.evidence != []
            && forall e :: e in gate.evidence ==> e.result == Passed && e.intact
    decreases |path|
  {
    var m := GatesById(gates);
    if |path| > 1 {
      assert Edge(DependencyGraph(m), path[0], path[1]);
      assert DependenciesPassed(m[a], m);
      PassedGatesRestOnPassedGates(gates, path[1], b, path[1..]);
    } else {
      assert EvidenceSupports(m[a]);
    }
  }

  /** The evidence pass: duplicates across the whole registry, broken files, and support for each status. */
  method CheckEvidence(gates: seq<Gate>) returns (issues: seq<Issue>)
    ensures forall i :: i in issues ==> !i.DependencyCycle?
    ensures issues == [] <==> EvidenceClean(gates)
  {
    issues := [];
    var gateIds: set<Id> := {};
    var seen: seq<Id> := [];
    NothingSurveyed(gates);
    for i := 0 to |gates|
      invariant Surveyed(gates[..i], issues, gateIds, seen)
    {
      issues, gateIds, seen := CheckGate(gates[i], issues, gateIds, seen, gates[..i]);
      TakeOne(gates, i);
    }
    TakeOne(gates, |gates|);
  }

  lemma NothingSurveyed(gates: seq<Gate>)
    ensures Surveyed(gates[..0], [], {}, [])
  {
  }

  lemma TakeOne(gates: seq<Gate>, i: nat)
    requires i <= |gates|
    ensures i < |gates| ==> gates[..i] + [gates[i]] == gates[..i + 1]
    ensures i == |gates| ==> gates[..i] == gates
  {
  }

  /** What the pass knows after some gates. */
  ghost predicate Surveyed(done: seq<Gate>, issues: seq<Issue>, gateIds: set<Id>, seen: seq<Id>) {
    && (forall g :: g in done ==> g.id in gateIds)
    && (forall x :: x in gateIds ==> exists g :: g in done && g.id == x)
    && seen == EvidenceIds(done)
    && (issues == [] <==> EvidenceClean(done))
    && (forall k :: k in issues ==> !k.DependencyCycle?)
  }

  /** One gate against those before it. */
  method CheckGate(g: Gate, issues: seq<Issue>, gateIds: set<Id>, seen: seq<Id>, ghost done: seq<Gate>)
    returns (issues': seq<Issue>, gateIds': set<Id>, seen': seq<Id>)
    requires Surveyed(done, issues, gateIds, seen)
    ensures Surveyed(done + [g], issues', gateIds', seen')
  {
    var found := CheckOneEvidence(g, seen);
    issues' := issues + (if g.id in gateIds then [DuplicateGate(g.id)] else []) + found;
    gateIds', seen' := gateIds + {g.id}, seen + IdsOf(g.evidence);
    ExtendEvidenceClean(done, g);
    assert (done + [g])[..|done|] == done;
  }

  ghost predicate EvidenceClean(gates: seq<Gate>) {
    && (forall i, j :: 0 <= i < j < |gates| ==> gates[i].id != gates[j].id)
    && Distinct(EvidenceIds(gates))
    && (forall g :: g in gates ==> EvidenceSupports(g) && forall e :: e in g.evidence ==> e.intact)
  }

  ghost predicate GateEvidenceClean(g: Gate, seen: seq<Id>) {
    && Distinct(IdsOf(g.evidence)) && (forall id :: id in IdsOf(g.evidence) ==> id !in seen)
    && EvidenceSupports(g) && forall e :: e in g.evidence ==> e.intact
  }

  lemma ExtendEvidenceClean(gates: seq<Gate>, g: Gate)
    ensures EvidenceClean(gates + [g]) <==>
      && EvidenceClean(gates) && (forall h :: h in gates ==> h.id != g.id)
      && GateEvidenceClean(g, EvidenceIds(gates))
  {
    var all := gates + [g];
    assert all[..|gates|] == gates;
    var ids, more := EvidenceIds(gates), IdsOf(g.evidence);
    assert EvidenceIds(all) == ids + more;
    DistinctConcat(ids, more);
    if EvidenceClean(all) {
      forall h | h in gates ensures h.id != g.id {
        var k :| 0 <= k < |gates| && gates[k] == h;
        assert all[k].id != all[|gates|].id;
      }
      forall i, j | 0 <= i < j < |gates| ensures gates[i].id != gates[j].id {
        assert all[i].id != all[j].id;
      }
      assert g in all;
    }
  }

  lemma DistinctConcat(a: seq<Id>, b: seq<Id>)
    ensures Distinct(a + b) <==> Distinct(a) && Distinct(b) && forall id :: id in b ==> id !in a
  {
    var c := a + b;
    if Distinct(c) {
      forall i, j | 0 <= i < j < |a| ensures a[i] != a[j] { assert c[i] != c[j]; }
      forall i, j | 0 <= i < j < |b| ensures b[i] != b[j] { assert c[|a| + i] != c[|a| + j]; }
      forall id | id in b ensures id !in a {
        var k :| 0 <= k < |b| && b[k] == id;
        forall i | 0 <= i < |a| ensures a[i] != id { assert c[i] != c[|a| + k]; }
      }
    } else {
      var i, j :| 0 <= i < j < |c| && c[i] == c[j];
      if i < |a| <= j { assert c[j] in b; }
    }
  }

  method CheckOneEvidence(g: Gate, seen: seq<Id>) returns (issues: seq<Issue>)
    ensures forall i :: i in issues ==> !i.DependencyCycle?
    ensures issues == [] <==> GateEvidenceClean(g, seen)
  {
    var files := CheckFiles(g.evidence, seen);
    var support := CheckSupport(g);
    issues := files + support;
    AllFilesClean(g.evidence, seen);
  }

  /** The file is intact, and its id is new: at no earlier gate, at no earlier file of this one. */
  ghost predicate FileClean(evidence: seq<Evidence>, k: nat, seen: seq<Id>)
    requires k < |evidence|
  {
    evidence[k].intact && evidence[k].id !in seen && forall j :: 0 <= j < k ==> evidence[j].id != evidence[k].id
  }

  ghost predicate FilesClean(evidence: seq<Evidence>, n: nat, seen: seq<Id>)
    requires n <= |evidence|
  {
    forall k: nat :: k < n ==> FileClean(evidence, k, seen)
  }

  lemma AllFilesClean(evidence: seq<Evidence>, seen: seq<Id>)
    ensures FilesClean(evidence, |evidence|, seen) <==>
      Distinct(IdsOf(evidence)) && (forall id :: id in IdsOf(evidence) ==> id !in seen) && forall e :: e in evidence ==> e.intact
  {
    var ids := IdsOf(evidence);
    if FilesClean(evidence, |evidence|, seen) {
      forall i: nat, j: nat | i < j < |ids| ensures ids[i] != ids[j] { assert FileClean(evidence, j, seen); }
      forall id | id in ids ensures id !in seen {
        var k :| 0 <= k < |ids| && ids[k] == id;
        assert FileClean(evidence, k, seen);
      }
      forall e | e in evidence ensures e.intact {
        var k :| 0 <= k < |evidence| && evidence[k] == e;
        assert FileClean(evidence, k, seen);
      }
    } else {
      var k: nat :| k < |evidence| && !FileClean(evidence, k, seen);
      assert evidence[k] in evidence && ids[k] in ids;
    }
  }

  /** The evidence files of one gate: an id used before, here or at an earlier gate, and a broken file. */
  method CheckFiles(evidence: seq<Evidence>, seen: seq<Id>) returns (issues: seq<Issue>)
    ensures forall i :: i in issues ==> !i.DependencyCycle?
    ensures issues == [] <==> FilesClean(evidence, |evidence|, seen)
  {
    issues := [];
    var local: seq<Id> := [];
    var i := 0;
    while i < |evidence|
      invariant 0 <= i == |local| <= |evidence|
      invariant forall j :: 0 <= j < i ==> local[j] == evidence[j].id
      invariant issues == [] <==> FilesClean(evidence, i, seen)
      invariant forall k :: k in issues ==> !k.DependencyCycle?
    {
      var item := evidence[i];
      if item.id in seen || item.id in local {
        issues := issues + [DuplicateEvidence(item.id)];
      }
      if !item.intact {
        issues := issues + [BrokenEvidence(item.id)];
      }
      assert item.id in local <==> exists j :: 0 <= j < i && evidence[j].id == item.id;
      assert FilesClean(evidence, i + 1, seen) <==> FilesClean(evidence, i, seen) && FileClean(evidence, i, seen);
      local := local + [item.id];
      i := i + 1;
    }
  }

  /** What a gate's status asks of its evidence. */
  method CheckSupport(g: Gate) returns (issues: seq<Issue>)
    ensures forall i :: i in issues ==> !i.DependencyCycle?
    ensures issues == [] <==> EvidenceSupports(g)
  {
    issues := [];
    if g.status == Passed && (g.evidence == [] || exists e :: e in g.evidence && e.result != Passed) {
      issues := issues + [PassedWithoutEvidence(g.id)];
    }
    if g.status == Failed && forall e :: e in g.evidence ==> e.result != Failed {
      issues := issues + [FailedWithoutEvidence(g.id)];
    }
    if g.status == NotApplicable && !g.rationale {
      issues := issues + [MissingRationale(g.id)];
    }
    if g.status == NotApplicable && g.required {
      issues := issues + [NotOptional(g.id)];
    }
  }

  method CheckDependencies(gates: seq<Gate>, byId: map<Id, Gate>) returns (issues: seq<Issue>)
    ensures forall i :: i in issues ==> !i.DependencyCycle?
    ensures issues == [] <==> forall g :: g in gates ==> DependenciesPassed(g, byId)
  {
    issues := [];
    var i := 0;
    while i < |gates|
      invariant 0 <= i <= |gates|
      invariant issues == [] <==> forall k :: 0 <= k < i ==> DependenciesPassed(gates[k], byId)
      invariant forall k :: k in issues ==> !k.DependencyCycle?
    {
      var g := gates[i];
      ghost var clean := issues == [];
      var j := 0;
      while j < |g.dependencies|
        invariant 0 <= j <= |g.dependencies|
        invariant issues == [] <==> clean && forall k :: 0 <= k < j ==>
          g.dependencies[k] in byId && (g.status == Passed ==> byId[g.dependencies[k]].status == Passed)
        invariant forall k :: k in issues ==> !k.DependencyCycle?
      {
        var dependency := g.dependencies[j];
        if dependency !in byId {
          issues := issues + [DependencyMissing(g.id)];
        } else if g.status == Passed && byId[dependency].status != Passed {
          issues := issues + [DependencyNotPassed(g.id)];
        }
        j := j + 1;
      }
      i := i + 1;
    }
  }

  function CycleIssues(cycles: seq<seq<Id>>): (issues: seq<Issue>)
    ensures |issues| == |cycles| && forall i :: 0 <= i < |cycles| ==> issues[i] == DependencyCycle(cycles[i])
  {
    if cycles == [] then [] else [DependencyCycle(cycles[0])] + CycleIssues(cycles[1..])
  }

  lemma OnlyRealCycles(issues: seq<Issue>, others: seq<Issue>, cycles: seq<seq<Id>>)
    requires issues == others + CycleIssues(cycles) && forall i :: i in others ==> !i.DependencyCycle?
    ensures forall i :: i in issues && i.DependencyCycle? ==> i.chain in cycles
  {
  }

  /** The gate, evidence and dependency findings: none exactly when the registry is clean. */
  method ValidateGates(gates: seq<Gate>, gateIds: seq<Id>) returns (issues: seq<Issue>)
    requires forall id :: id in gateIds <==> id in GatesById(gates)
    ensures issues == [] <==> Clean(gates)
    ensures forall i :: i in issues && i.DependencyCycle? ==> IsCycle(DependencyGraph(GatesById(gates)), i.chain)
  {
    var evidence := CheckEvidence(gates);
    var byId := GatesById(gates);
    var dependencies := CheckDependencies(gates, byId);
    var search := new CycleSearch(DependencyGraph(byId));
    search.DetectDependencyCycles(gateIds);
    issues := evidence + dependencies + CycleIssues(search.cycles);
    OnlyRealCycles(issues, evidence + dependencies, search.cycles);
  }
}
