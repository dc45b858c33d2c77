/** The ISE manifest's operations and their validation (orchestrator/ise.py). */
module IseOperations {
  import opened Basics
  import opened Ordering
  import opened IseObjects

  datatype Operation =
    | Named(op: Id, resource: Resource, name: string, desired: Obj)
    | CellFor(op: Id, source: string, destination: string, refs: seq<string>, desired: Obj)

  function Priority(o: Operation): nat {
    if o.CellFor? then 2 else if o.resource == Sgt then 0 else 1
  }

  predicate OperationLe(a: Operation, b: Operation) {
    if Priority(a) != Priority(b) then Priority(a) < Priority(b) else StringLe(a.op, b.op)
  }

  // ----- The manifest -----

  predicate OperationValid(marker: string, o: Operation) {
    && o.op != "" && Owned(marker, o.desired)
    && match o
       case Named(_, r, name, desired) =>
         && r != Cell && name != "" && Name in desired && desired[Name] == Text(name)
         && (r == Sgt ==> Value in desired && desired[Value].Number? && 1 <= desired[Value].number <= 65535)
       case CellFor(_, source, destination, refs, _) => source != "" && destination != "" && source != destination && refs != []
  }

  ghost predicate Names(ops: seq<Operation>, r: Resource, name: string) {
    exists o :: o in ops && o.Named? && o.resource == r && o.name == name
  }

  ghost predicate NamesUnique(ops: seq<Operation>) {
    forall i, j :: 0 <= i < j < |ops| ==>
      && ops[i].op != ops[j].op
      && (ops[i].Named? && ops[j].Named? && ops[i].resource == ops[j].resource ==> ops[i].name != ops[j].name)
  }

  ghost predicate CellsBound(ops: seq<Operation>) {
    forall o :: o in ops && o.CellFor? ==>
      && Names(ops, Sgt, o.source) && Names(ops, Sgt, o.destination)
      && (forall ref :: ref in o.refs ==> Names(ops, Sgacl, ref))
      && (forall i, j :: 0 <= i < j < |o.refs| ==> o.refs[i] != o.refs[j])
  }

  ghost predicate ManifestValid(marker: string, ops: seq<Operation>) {
    && ops != [] && (forall o :: o in ops ==> OperationValid(marker, o))
    && NamesUnique(ops) && CellsBound(ops)
  }

  /** `_validate_manifest`: the operation checks and the two uniqueness sets, then the references. */
  method ValidateManifest(marker: string, ops: seq<Operation>) returns (ok: bool)
    ensures ok <==> ManifestValid(marker, ops)
  {
    if ops == [] { return false; }
    var opIds: set<Id>, names: set<(Resource, string)> := {}, {};
    for i := 0 to |ops|
      invariant forall k :: 0 <= k < i ==> OperationValid(marker, ops[k])
      invariant NamesUnique(ops[..i])
      invariant forall x :: x in opIds <==> exists k :: 0 <= k < i && ops[k].op == x
      invariant forall r, n :: (r, n) in names <==> exists k :: 0 <= k < i && ops[k] == Named(ops[k].op, r, n, ops[k].desired)
    {
      if !OperationValid(marker, ops[i]) { return false; }
      if ops[i].op in opIds { return false; }
      opIds := opIds + {ops[i].op};
      if ops[i].Named? {
        if (ops[i].resource, ops[i].name) in names { return false; }
        names := names + {(ops[i].resource, ops[i].name)};
      }
      assert ops[..i + 1] == ops[..i] + [ops[i]];
    }
    assert ops[..|ops|] == ops;
    assert forall r, n :: (r, n) in names <==> Names(ops, r, n);
    ok := CheckReferences(ops, names);
  }

  method CheckReferences(ops: seq<Operation>, names: set<(Resource, string)>) returns (ok: bool)
    requires forall r, n :: (r, n) in names <==> Names(ops, r, n)
    ensures ok <==> CellsBound(ops)
  {
    for i := 0 to |ops|
      invariant forall k :: 0 <= k < i && ops[k].CellFor? ==>
        && (Sgt, ops[k].source) in names && (Sgt, ops[k].destination) in names
        && (forall ref :: ref in ops[k].refs ==> (Sgacl, ref) in names)
        && (forall a, b :: 0 <= a < b < |ops[k].refs| ==> ops[k].refs[a] != ops[k].refs[b])
    {
      if ops[i].CellFor? {
        var refs := ops[i].refs;
        if (Sgt, ops[i].source) !in names || (Sgt, ops[i].destination) !in names { return false; }
        if exists a, b :: 0 <= a < b < |refs| && refs[a] == refs[b] { return false; }
        if exists ref :: ref in refs && (Sgacl, ref) !in names { return false; }
      }
    }
    return true;
  }

  // ----- Pairs of groups -----

  predicate PairsApart(a: Operation, b: Operation) {
    a.CellFor? && b.CellFor? ==> a.source != b.source || a.destination != b.destination
  }

  /** No two cell operations name the same pair of groups: what the manifest validation does not ask for. */
  ghost predicate CellPairsDistinct(ops: seq<Operation>) {
    forall i, j :: 0 <= i < j < |ops| ==> PairsApart(ops[i], ops[j])
  }

  lemma NewPair(ops: seq<Operation>, i: nat, pairs: seq<(string, string)>)
    requires i < |ops| && ops[i].CellFor?
    requires forall p :: p in pairs ==> exists k :: 0 <= k < i && ops[k].CellFor? && p == (ops[k].source, ops[k].destination)
    ensures CellPairsDistinct(ops) ==> (ops[i].source, ops[i].destination) !in pairs
  {
  }

  predicate NamesApart(a: Operation, b: Operation) {
    a.op != b.op && (a.Named? && b.Named? && a.resource == b.resource ==> a.name != b.name)
  }

  /** Working order keeps both. */
  lemma SortedOperations(ops: seq<Operation>)
    ensures NamesUnique(ops) ==> NamesUnique(Sort(ops, OperationLe))
    ensures CellPairsDistinct(ops) ==> CellPairsDistinct(Sort(ops, OperationLe))
  {
    var sorted := Sort(ops, OperationLe);
    SortIsPermutation(ops, OperationLe);
    if NamesUnique(ops) {
      assert forall i, j :: 0 <= i < j < |ops| ==> NamesApart(ops[i], ops[j]);
      PairwiseAfterReordering(ops, sorted, NamesApart);
      assert forall i, j :: 0 <= i < j < |sorted| ==> NamesApart(sorted[i], sorted[j]);
    }
    if CellPairsDistinct(ops) { PairwiseAfterReordering(ops, sorted, PairsApart); }
  }
}
