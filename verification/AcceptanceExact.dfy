/** What a clean acceptance registry is, written out on its gates (orchestrator/acceptance.py). */
module AcceptanceExact {
  import opened Basics
  import opened Acceptance

  ghost predicate SameGateTwice(gates: seq<Gate>) { exists i, j :: 0 <= i < j < |gates| && gates[i].id == gates[j].id }

  /** The a-th evidence of the i-th gate. */
  ghost predicate EvidenceAt(gates: seq<Gate>, i: nat, a: nat, id: Id) {
    i < |gates| && a < |gates[i].evidence| && gates[i].evidence[a].id == id
  }

  /** No evidence id is used twice, in one gate or in two. */
  ghost predicate EvidenceOnce(gates: seq<Gate>) {
    forall i: nat, a: nat, j: nat, b: nat, id :: EvidenceAt(gates, i, a, id) && EvidenceAt(gates, j, b, id) ==> i == j && a == b
  }

  /** A gate's status rests on its evidence, which is intact. */
  ghost predicate Supported(g: Gate) {
    && (forall e :: e in g.evidence ==> e.intact)
    && match g.status
       case Pending => true
       case Passed => |g.evidence| > 0 && forall e :: e in g.evidence ==> e.result == Passed
       case Failed => exists e :: e in g.evidence && e.result == Failed
       case NotApplicable => g.rationale && !g.required
  }

  /** Every dependency names a listed gate, which has passed if this one has. */
  ghost predicate Founded(gates: seq<Gate>, g: Gate) {
    forall d :: d in g.dependencies ==> exists h :: h in gates && h.id == d && (g.status == Passed ==> h.status == Passed)
  }

  /** Each gate of the chain depends on the next one. */
  ghost predicate Chain(gates: seq<Gate>, c: seq<Gate>) {
    && (forall i :: 0 <= i < |c| ==> c[i] in gates)
    && forall i :: 0 <= i < |c| - 1 ==> c[i + 1].id in c[i].dependencies
  }

  ghost predicate Circle(gates: seq<Gate>, c: seq<Gate>) { |c| >= 2 && c[0] == c[|c| - 1] && Chain(gates, c) }

  lemma {:induction false} EvidenceIdsExact(gates: seq<Gate>)
    ensures forall id :: id in EvidenceIds(gates) <==> exists i: nat, a: nat :: EvidenceAt(gates, i, a, id)
    ensures Distinct(EvidenceIds(gates)) <==> EvidenceOnce(gates)
    decreases |gates|
  {
    if gates != [] {
      var n := |gates| - 1;
      var init, more := gates[..n], IdsOf(gates[n].evidence);
      EvidenceIdsExact(init);
      DistinctConcat(EvidenceIds(init), more);
      forall i: nat, a: nat, id ensures EvidenceAt(gates, i, a, id) <==> EvidenceAt(init, i, a, id) || (i == n && a < |more| && more[a] == id) {}
      LastEvidence(gates, init, n, more);
    }
  }

  lemma LastEvidence(gates: seq<Gate>, init: seq<Gate>, n: nat, more: seq<Id>)
    requires forall i: nat, a: nat, id :: EvidenceAt(gates, i, a, id) <==> EvidenceAt(init, i, a, id) || (i == n && a < |more| && more[a] == id)
    requires |init| == n
    ensures EvidenceOnce(gates) <==> EvidenceOnce(init) && Distinct(more) && Apart(init, more)
    ensures forall id :: (exists i: nat, a: nat :: EvidenceAt(gates, i, a, id)) <==> (exists i: nat, a: nat :: EvidenceAt(init, i, a, id)) || id in more
  {
    forall id ensures (exists i: nat, a: nat :: EvidenceAt(gates, i, a, id)) <==> (exists i: nat, a: nat :: EvidenceAt(init, i, a, id)) || id in more {
      if id in more {
        var a :| 0 <= a < |more| && more[a] == id;
        assert EvidenceAt(gates, n, a, id);
      }
      if i: nat, a: nat :| EvidenceAt(init, i, a, id) { assert EvidenceAt(gates, i, a, id); }
    }
    if EvidenceOnce(gates) {
      forall i: nat, a: nat, j: nat, b: nat, id | EvidenceAt(init, i, a, id) && EvidenceAt(init, j, b, id) ensures i == j && a == b {
        assert EvidenceAt(gates, i, a, id) && EvidenceAt(gates, j, b, id);
      }
      forall a, b | 0 <= a < b < |more| ensures more[a] != more[b] {
        assert EvidenceAt(gates, n, a, more[a]) && EvidenceAt(gates, n, b, more[b]);
      }
      forall i: nat, a: nat, id | EvidenceAt(init, i, a, id) ensures id !in more {
        assert EvidenceAt(gates, i, a, id);
        if id in more {
          var b :| 0 <= b < |more| && more[b] == id;
          assert EvidenceAt(gates, n, b, id);
        }
      }
    }
  }

  ghost predicate Apart(init: seq<Gate>, more: seq<Id>) {
    forall i: nat, a: nat, id :: EvidenceAt(init, i, a, id) ==> id !in more
  }

  // ----- Dependencies -----

  /** With distinct ids the registry looks each gate up by its id. */
  lemma LookedUp(gates: seq<Gate>, g: Gate)
    requires !SameGateTwice(gates) && g in gates
    ensures g.id in GatesById(gates) && GatesById(gates)[g.id] == g
  {
    var h := GatesById(gates)[g.id];
    var i, j :| 0 <= i < |gates| && gates[i] == g && 0 <= j < |gates| && gates[j] == h;
    assert i == j;
  }

  lemma FoundedExact(gates: seq<Gate>, g: Gate)
    requires !SameGateTwice(gates)
    ensures DependenciesPassed(g, GatesById(gates)) <==> Founded(gates, g)
  {
    var m := GatesById(gates);
    forall d ensures d in m && (g.status == Passed ==> m[d].status == Passed) <==>
                       exists h :: h in gates && h.id == d && (g.status == Passed ==> h.status == Passed) {
      if d in m { assert m[d] in gates && m[d].id == d; }
      forall h | h in gates && h.id == d ensures d in m && m[d] == h { LookedUp(gates, h); }
    }
  }

  lemma CycleOfGates(gates: seq<Gate>, ids: seq<Id>)
    requires IsCycle(DependencyGraph(GatesById(gates)), ids)
    ensures exists c :: Circle(gates, c)
  {
    var m := GatesById(gates);
    forall i | 0 <= i < |ids| ensures ids[i] in m {
      assert Edge(DependencyGraph(m), ids[if i == 0 then 0 else i - 1], ids[if i == 0 then 1 else i]);
    }
    var c := seq(|ids|, i requires 0 <= i < |ids| => m[ids[i]]);
    forall i | 0 <= i < |c| - 1 ensures c[i + 1].id in c[i].dependencies {
      assert Edge(DependencyGraph(m), ids[i], ids[i + 1]);
    }
    assert Circle(gates, c);
  }

  lemma CycleOfIds(gates: seq<Gate>, c: seq<Gate>)
    requires !SameGateTwice(gates) && Circle(gates, c)
    ensures Cyclic(DependencyGraph(GatesById(gates)))
  {
    var m := GatesById(gates);
    var ids := seq(|c|, i requires 0 <= i < |c| => c[i].id);
    forall i | 0 <= i < |c| ensures ids[i] in m && m[ids[i]] == c[i] { LookedUp(gates, c[i]); }
    forall i | 0 <= i < |ids| - 1 ensures Edge(DependencyGraph(m), ids[i], ids[i + 1]) {
      assert c[i + 1].id in c[i].dependencies;
    }
    assert IsCycle(DependencyGraph(m), ids);
  }

  /** Cycles of ids in the dependency graph are circles of gates. */
  lemma CircleExact(gates: seq<Gate>)
    requires !SameGateTwice(gates)
    ensures Cyclic(DependencyGraph(GatesById(gates))) <==> exists c :: Circle(gates, c)
  {
    if Cyclic(DependencyGraph(GatesById(gates))) {
      var ids :| IsCycle(DependencyGraph(GatesById(gates)), ids);
      CycleOfGates(gates, ids);
    }
    if c: seq<Gate> :| Circle(gates, c) { CycleOfIds(gates, c); }
  }

  /**
   Clean: no gate id and no evidence id is used twice, every status rests on intact evidence,
   every dependency is listed and passed where it must be, and no gate depends on itself, at
   any distance.
   */
  lemma CleanExact(gates: seq<Gate>)
    ensures Clean(gates) <==>
              && !SameGateTwice(gates) && EvidenceOnce(gates)
              && (forall g :: g in gates ==> Supported(g) && Founded(gates, g))
              && !(exists c :: Circle(gates, c))
  {
    EvidenceIdsExact(gates);
    if !SameGateTwice(gates) {
      forall g | g in gates ensures DependenciesPassed(g, GatesById(gates)) <==> Founded(gates, g) { FoundedExact(gates, g); }
      CircleExact(gates);
    }
    SupportedExact(gates);
  }

  lemma SupportedExact(gates: seq<Gate>)
    ensures (forall g :: g in gates ==> EvidenceSupports(g) && forall e :: e in g.evidence ==> e.intact) <==> forall g :: g in gates ==> Supported(g)
  {
    forall g | g in gates ensures (EvidenceSupports(g) && forall e :: e in g.evidence ==> e.intact) <==> Supported(g) {}
  }
}
