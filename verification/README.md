# Dafny model of the dynamic SDA orchestrator

This project models the transactional core of the orchestrator: how it hands out addresses and
identifiers, how it records plans, approvals and runs, how it works out what to remove from and what to
send to the network, and how one apply either completes or is undone. The modules follow the source files.

- `VlanRanges`, `Addressing`, `Hierarchy`, `Allocator`, `FabricAllocator`, `AllocatorProofs`,
  `AllocatorOrder`: carving prefixes and identifiers (orchestrator/allocator.py), the site hierarchy, and the
  VLAN-range text that the renderer and the gate builder print. `DerivedExact` says item by item which design is
  derived, without the allocator's own functions.
- `HierarchyValidation`, `IntentValidation`, `FindingsExact`, `DerivedIntents`, `DerivedNames`, `LegacyVlans`: the
  independent checks of orchestrator/intent.py, what each finding says of the document, and which of them a derived
  intent can raise.
- `Reconciliation`, `ReconciliationProofs`: owned-state manifests, the diff between the last committed manifest
  and the new one, and what a history of applies leaves on the devices.
- `Store` (each public operation as one atomic step), `StoreExact` (when each is accepted and what it writes, on the
  tables), `StoreMachine` (runs of steps), `StateStore` (the tables as the program updates them), what every
  reachable store keeps (`StoreLedger`, `StoreReuse`, `StoreRuns`,
  `StoreCommits`, `StorePlans`, `StoreAudit`), and runs from the empty store in which something goes wrong
  (`StoreScenarios`, `StoreReissue`).
- `Planning`, `GatePlan`, `PlanExact`, `SagaLog`, `SagaOrder`: plan phases, rendered phases and gates, which of them
  each device is due, and the order in which a successful run works through them.
- `IseObjects`, `IseServer`, `IseOperations`, `IsePlan`, `IseJournal`, `IseUndo`, `IseAdapter`: the nested ISE
  transaction. `IseSmooth` says as functions where it leads on a node that serves, and where any rollback leads;
  `IsePolicy` and `IseOutcome` say when a served transaction goes through, and that it puts the manifest in force;
  `IseStuck` is one transaction that no rollback can finish.
- `Devices`, `Worker`, `WorkerPolicy`: the apply saga over the store, the devices and ISE. `SpaceInUse`: who holds the space that a
  successful run's configuration uses, over every history of calls and store operations.
- `Acceptance`, `AcceptanceExact`: the registry of production gates and its cycle search.
- `Basics`, `Ordering`, `Decimal`: shared types, Python's `sorted`, decimal text.

Where the source works step by step, the model has a class or a method with a loop, proved equal to a function of
the old state; the theorems are lemmas about those functions, over every input and every run. The modules named
`...Exact` state what the functions compute without using them: in numbers, sets, tables and positions.

## How the world is modelled

- Faults. Every device and every ISE node answers from a script, a function from the number of the request to
  what the other side does and what the caller hears. A theorem for all scripts is a theorem for every pattern of
  failures: a call may succeed, fail without effect, or fail after some or all of its effect.
- Devices. A configuration is opaque. A verified checkpoint holds the running configuration and a verified
  rollback leaves exactly the checkpoint's; a sent block may leave anything behind on its own device.
- ISE. A node is a map from resource and id to fields. A PUT replaces the object, or part of it under a fault; a
  creation keeps the fields it is looked up by and gets an id that is not in use; a Location on the
  node's own origin names the object created; a search lists every match; no field holds null. Nobody else
  writes during the transaction.
- SHA-256 is injective and never yields the genesis constant, so a hash is represented by the value that was
  hashed. Ids that are truncated hashes are inputs (the intent id) or the hashed value itself (the evidence id).
- Time is the store's own strictly increasing clock, read once in each transaction. `uuid4` never repeats an id;
  in the worker this is the hypothesis `UuidsFresh`. An idempotency key is given after stripping. A clash with a
  uniqueness constraint raises and changes nothing.
- `_host_prefix` multiplies users and headroom in floating point; the product is a parameter (`scaled`), and the
  bound is stated for the requirement computed from it.
- The worker's result holds for every state of the plan's reservation. It assumes `RunsSafe`, which holds in
  every reachable store.
- The reservation's document is its derived intent as far as the allocator model derives it.

## Where the code falls short of a stated or expected property

- The allocator never consults the validator's list of legacy VLANs. `LegacyVlans.LegacyVlanExactlyWhenReached`
  gives the exact condition under which a derived intent is then rejected, `LegacyVlans.LegacyVlanIsHandedOut` a
  design that meets it.
- A derived intent takes over names that the allocator compares otherwise than the validator, or not at all: the
  validator strips them, and the allocator joins and lowers site and network into a pool's id. The intent is refused for
  a repeated device id, link id, network name, VRF or pool id, or for a link from a device to itself, exactly when the
  requirements ask for it (`DerivedNames.NamesAreRefusedIff`); site `a` of network `b-c` and site `a-b` of network `c`
  collide (`DerivedNames.PoolIdsCanCollide`).
- The first end of a link gets the first address of the link's subnet. That is a usable host exactly when the pool
  carves /31 (`DerivedNames.LinkAddressesUsableIff`); on a /30 it is the network address, which no check refuses.
- docs/ise-ers-executor.md:71-74 says that the journal covers a write which was committed although the client
  received an error. Its rollback accepts an update that was not verified if and only if the PUT took effect on none of
  the comparable fields that it was to change (`IseUndo.UnverifiedUpdateIff`), and a creation unless the POST left an
  object that lacks some of them (`IseUndo.UnverifiedCreateIff`). Where `IseAdapter.Adapter.Apply` stops, all can be
  undone unless its last write is lost in this way.
- A rollback whose own restoring PUT takes effect in part leaves an object that is neither what it was nor what the
  transaction made of it, and no later rollback accepts it (`IseUndo.TornPutIsNeverUndone`). A PUT tears exactly
  when it takes effect on some but not all of the comparable fields that it was to change (`IseObjects.TornExactly`).
- The manifest validation lets two cell operations name one pair of groups. The cell is then created and updated in
  one transaction, and if the answer to the rollback's DELETE is lost, no later rollback is ever verified, although
  every object is back (`IseStuck.SharedCellNeverFinishes`). Once every object is back, the entries are recoverable
  exactly when each update recorded the state that its object is back in (`IseUndo.RestoredCanFinishIff`): not when the
  transaction created the object first. When no two cell operations name one pair, the journal is about distinct objects
  wherever `IseAdapter.Adapter.Apply` stops.
- With a journal about distinct objects, `IseAdapter.Adapter.Rollback` and `IseAdapter.Adapter.Resume` say exactly when
  a rollback can finish: every entry is recoverable, and no PUT of any attempt has torn.
- `transition_run` lets an active apply succeed without a committed manifest
  (`StoreScenarios.SuccessWithoutManifest`). A successful run has one if and only if no accepted `transition_run`
  declared its success (`StoreCommits.ManifestUnlessDeclared`); the worker never does.
- `save_plan` may rebind a stored plan to a reservation that was checked against the intent named in the call, not
  against the stored plan's intent (`StorePlans.RebindingIsSoundIff`, and the run `StoreScenarios.PlanCanBeMisbound`).
  Only a caller that makes up plan ids can get there: the planner's id is a hash of a body that holds the intent's
  hash (orchestrator/planner.py:244-274).
- `save_plan` and `complete_apply` check the length of an artifact hash only, the diff also its digits: a committed
  baseline can be one that the diff refuses (`StoreScenarios.LatestBaselineCanBeRefused`), exactly when its hash is no
  digest (`StoreRuns.LatestBaselineValidIff`).
- `process_apply` moves the plan's reservation after the run has ended. When the reservation's state does not admit
  the move, the call raises although the run has its end, the devices are as the run left them, and the reservation
  stays (`Worker.TransactionWorker.ProcessApply`).
- Nothing ties the space that a successful run's configuration uses to that run. Several plans may be bound to one
  reservation (orchestrator/api.py:593-601 returns the same one for the same demand), and several runs may carry out one
  plan. Over every history of calls and store operations the space is held at the end if and only if the reservation was
  not released when the run was called, and nothing gave it back since: no rolled-back run of any plan bound to it, and
  no direct release (`SpaceInUse.UsedSpaceIsHeldIff`, `SpaceInUse.HeldExactly`). The state of the reservation tells the
  caller of the next run (`SpaceInUse.StateTells`): reserved, nobody uses the space yet; committed by calls, a rollback of this
  run would give away space in use; released, a success would use space that nobody holds (`SpaceInUse.SuccessHoldsIff`).
  Both happen: for every design there is a run of the store in which a second plan's rollback gives the first one's space
  back and it is reserved anew (`StoreReissue.SpaceIsGivenBackInUse`), and one in which a run succeeds after an earlier
  one of its plan had released the space (`StoreReissue.SpaceIsUsedUnheld`).

## Model

| member | source | states |
|---|---|---|
| `VlanRanges.CompressIntegerRanges` | orchestrator/renderer.py:1164-1176 | the text is the maximal, ascending, non-adjacent ranges of exactly the input values, and reading it back gives those ranges |
| `VlanRanges.EnforcementVlanList` | orchestrator/gates.py:418-435 | the gate builder's separate loop prints its VLAN set just as exactly |
| `VlanRanges.ParseUndoesPrint` | orchestrator/renderer.py:1174-1176 | parsing a printed list gives back the ranges: printing loses nothing |
| `VlanRanges.RunsPrintExactly` | orchestrator/renderer.py:1165-1176 | the runs of consecutive values of a sorted list cover its values and nothing else, with a gap between neighbours |
| `VlanRanges.MaximalRangesAreUnique` | orchestrator/renderer.py:1168-1175 | a set of values has only one list of maximal ranges |
| `VlanRanges.ExactPrintIsUnique` | orchestrator/gates.py:418-435 | the renderer and the gate builder print the same string for the same VLANs |
| `Addressing.FirstFitExact` | orchestrator/allocator.py:146-158 | first fit returns the lowest aligned block in the supernet that overlaps no exclusion, and fails exactly when there is none |
| `Addressing.FirstPrefix` | orchestrator/allocator.py:146-158 | the search over the list of exclusions computes that first fit |
| `Addressing.FirstFreeExact` | orchestrator/allocator.py:161-165 | the lowest value in range that is not excluded, exhausted exactly when there is none |
| `Addressing.FirstScalar` | orchestrator/allocator.py:161-165 | the counting loop computes that lowest free value |
| `Addressing.HostPrefixExact` | orchestrator/allocator.py:168-182 | the longest prefix of at most /30 with enough usable hosts, refused exactly when every such prefix exceeds the supernet |
| `Addressing.HostPrefixLoop` | orchestrator/allocator.py:168-182 | the loop on host bits computes that prefix |
| `DerivedExact.HostPrefixIsSized` | orchestrator/allocator.py:168-182 | the derived host prefix is at most /30, its block has at least the scaled demand of addresses besides its first and last, and the next smaller block has not |
| `Hierarchy.DeriveDepths` | orchestrator/allocator.py:284-308 | the memoised walk ends, accepts exactly the acyclic parent graphs within the limit, records each node's true distance to the global node, and names a fault that is there |
| `HierarchyValidation.FindDepthIssues` | orchestrator/intent.py:376-423 | the validator's walk reports something exactly when there is a cycle or a depth over 16, and each finding is justified |
| `Hierarchy.CompleteTable` | orchestrator/allocator.py:284-308 | a complete table that counts parents proves the graph acyclic and within the limit |
| `Hierarchy.RevisitIsCycle` | orchestrator/allocator.py:289-291 | meeting a node of the current trail again means that the parent graph has a cycle |
| `Hierarchy.DepthIsDistance` | orchestrator/allocator.py:298-308 | a recorded depth is the number of parents up to the global node |
| `Hierarchy.DeriveHierarchy` | orchestrator/allocator.py:237-308 | accepted exactly when the limit is legal and the hierarchy is well typed, acyclic and within it; a refused list gets the error of the first failing check, and of the first node in id order that fails it |
| `Hierarchy.WellTypedExact` | orchestrator/allocator.py:237-276 | well typed means: no id twice, one global node without a parent, and every other node below a listed node of a kind that may hold it |
| `Hierarchy.FirstFailureExact` | orchestrator/allocator.py:237-276 | the error of a refused list is that of its first failing check, and for parents of the first node that is misplaced: a global node with a parent, a parent that is not listed, or one of the wrong kind |
| `HierarchyValidation.ValidateHierarchy` | orchestrator/intent.py:330-423 | no finding exactly for the hierarchies that the allocator accepts at limit 16 |
| `Hierarchy.IsDescendant` | orchestrator/allocator.py:399-408 | true exactly when some number of parent steps reaches the ancestor, also on cyclic graphs |
| `HierarchyValidation.HierarchyDescendsFrom` | orchestrator/intent.py:810-820 | the validator's descendant test decides the same relation |
| `AllocatorProofs.DeriveIsGood` | orchestrator/allocator.py:498-780 | every claim of a derived design lies in its pool, avoids the active ledger and the policy-reserved space, and is disjoint from its other claims; the claims are exactly what the intent uses |
| `DerivedExact.DerivedExactly` | orchestrator/allocator.py:450-780 | a design is derived if and only if the policy and the requirements pass the checks and it is the design asked for: exactly one device, link, network, pool for each site of each network, and peer for each one asked for, as asked and in order, each with the lowest block and number that the ledger, the policy and the items before it leave free, and each pool sized for its own site; so derivation is refused exactly when there is no such design |
| `DerivedExact.DesignIsMet` | orchestrator/allocator.py:575-780 | what is derived is the design asked for |
| `DerivedExact.DesignIsForced` | orchestrator/allocator.py:575-780 | the design asked for, if there is one, is what is derived |
| `DerivedExact.OpeningExact` | orchestrator/allocator.py:70-99 | a design finds taken exactly the rows of its domain that are not released, and the prefixes, values and ranges that the policy reserves |
| `DerivedExact.ListsAreInOrder` | orchestrator/allocator.py:575-742 | devices and links come by id, networks by name, and the sites of a network by site, none lost |
| `DerivedExact.KeysAreInOrder` | orchestrator/allocator.py:649-660 | the ends of a link come by device and port, peers by device, fusion node and VRF, none lost |
| `FabricAllocator.Derivation.ReserveNetwork` | orchestrator/allocator.py:527-539 | reserving takes the first fit among everything taken so far and records it once in the taken list and once in the reservations |
| `FabricAllocator.Derivation.ReserveValue` | orchestrator/allocator.py:541-552 | the same for a scalar of one kind |
| `FabricAllocator.Derivation.DeriveDevices` | orchestrator/allocator.py:575-608 | devices in id order, each with its own loopback; duplicates and exhaustion raise |
| `FabricAllocator.Derivation.DeriveLinks` | orchestrator/allocator.py:649-680 | links in id order, each with its own subnet and one address per sorted endpoint |
| `FabricAllocator.Derivation.DeriveVn` | orchestrator/allocator.py:700-780 | one L3 instance and route distinguisher per virtual network, then its sites in order |
| `FabricAllocator.Derivation.DerivePool` | orchestrator/allocator.py:742-778 | the imperative step adds the specified pool for one site, its prefix sized for that site, or raises the first failure of id, VLAN, L2 instance, size, prefix and gateway; `DerivedExact.DerivedExactly` says which pool that is |
| `FabricAllocator.Derivation.DerivePeers` | orchestrator/allocator.py:1817-1856 | handoff peers in (device, fusion, VRF) order, on borders and known VRFs only, each with its own VLAN and prefix |
| `FabricAllocator.DeriveFabricIntent` | orchestrator/allocator.py:450-780 | the loops over mutable taken lists and reservation lists give exactly the specified derivation or its error; `DerivedExact.DerivedExactly` says which design that is |
| `FabricAllocator.ActiveListIsActive` | orchestrator/allocator.py:70-86 | the ledger comprehension holds exactly the prefixes that are not released |
| `AllocatorOrder.DeriveIgnoresOrder` | orchestrator/allocator.py:575-780 | permuting devices, links, endpoints, virtual networks, sites or peers changes neither intent nor reservations nor error, and of the ledgers only the active space matters |
| `AllocatorOrder.PermutedLedgersAgree` | orchestrator/allocator.py:70-99 | permuted ledger rows have the same active space |
| `Ordering.SortIgnoresOrder` | orchestrator/allocator.py:575-578 | sorting items with distinct keys forgets the order in which they were listed |
| `IntentValidation.CheckDuplicate` | orchestrator/intent.py:230-247 | reports a value exactly when there is one and it occurred before, and remembers it |
| `IntentValidation.CheckNetworkOverlaps` | orchestrator/intent.py:250-263 | a finding at a network exactly when an earlier network overlaps it |
| `IntentValidation.ValidateDevices` | orchestrator/intent.py:534-573 | exactly the repeated device ids, as read, and loopbacks |
| `IntentValidation.ValidateLinks` | orchestrator/intent.py:700-768 | exactly the links with a repeated id, a wrong prefix length or endpoint count, an unknown device, a repeated or outside address, or both ends on one device |
| `IntentValidation.ValidateVns` | orchestrator/intent.py:771-805 | exactly the repeated names, VRFs, L3 instances and route distinguishers, and the L3 instances out of range |
| `IntentValidation.ValidatePools` | orchestrator/intent.py:865-923 | exactly the pools with a repeated id, an illegal, legacy or repeated VLAN, an illegal or repeated L2 instance, or a gateway outside the prefix |
| `IntentValidation.ValidatePeers` | orchestrator/intent.py:1079-1165 | exactly the peers with a bad reference, VLAN, prefix length or address, or a repeated key or VLAN |
| `IntentValidation.ValidateIntent` | orchestrator/intent.py:534-1165 | reports a kind of finding exactly when some item of the document has it |
| `FindingsExact.RaisesExact` | orchestrator/intent.py:534-1165 | for every document and kind of finding: it is reported if and only if some item shows it, written out on texts, numbers, addresses and positions |
| `FindingsExact.ReadsExact` | orchestrator/intent.py:137-150 | a field is read as a text if and only if it is that text between blanks, on one line |
| `FindingsExact.OverlapExact` | orchestrator/intent.py:250-263 | an overlap is reported if and only if two different loopbacks, links, pools or handoffs occupy one address |
| `DerivedIntents.DerivedIntentsAreClean` | orchestrator/allocator.py:502-780 | with disjoint pools and /30 or /31 link and handoff pools, no derived intent raises an overlap, an address outside its subnet, an unusable handoff address, a wrong link or handoff shape, or a repeated loopback, link address, VLAN, L2 or L3 instance, route distinguisher or peer |
| `DerivedNames.NamesAreRefusedIff` | orchestrator/intent.py:550-886 | a derived intent is reported for a repeated device id, link id, network name, VRF or endpoint-pool id, or for a link from a device to itself, if and only if the requirements, in any order, hold two that the validator reads alike, two pools of one joined and lowered name, or a link with both ends on one device |
| `DerivedNames.LinkAddressesUsableIff` | orchestrator/allocator.py:661-674 | every link address of a derived intent is a usable host if and only if there is no link or the link pool carves /31 |
| `DerivedNames.PoolIdsCanCollide` | orchestrator/allocator.py:769 | a legal design and policy whose derived intent is reported for two pools of one id, and whose link starts at its network address |
| `LegacyVlans.VlansAreTheLowestFree` | orchestrator/allocator.py:742-744 | the VLANs of a derived design are exactly the n lowest that ledger and policy leave free, n the number of endpoint pools |
| `LegacyVlans.LegacyVlanExactlyWhenReached` | orchestrator/intent.py:892-894 | the derived intent is rejected for a legacy VLAN if and only if one is free in range with fewer free VLANs below it than there are pools |
| `LegacyVlans.LegacyVlanIsHandedOut` | orchestrator/allocator.py:742-744 | a legal design, policy and empty ledgers for which the derived intent is rejected |
| `Reconciliation.ValidateOwnedState` | orchestrator/reconciliation.py:539-633 | raises exactly unless version, scope, fabric, manifest hash, descriptors, both resource hashes and key uniqueness all hold |
| `Reconciliation.ValidateBaseline` | orchestrator/reconciliation.py:663-688 | accepts exactly the intact baselines of the fabric that carry the hash their source requires |
| `Reconciliation.MadeBaselineIsValid` | orchestrator/reconciliation.py:636-688 | what `make_baseline` builds from a valid manifest passes `validate_baseline` for its fabric if and only if the hash that its source requires is a hexadecimal digest |
| `Reconciliation.BuildReconciliation` | orchestrator/reconciliation.py:691-770 | the dictionaries, the comprehension and the grouping loop give the specified diff, and raise exactly on an invalid manifest or baseline; `ReconciliationProofs.RemovalsOrdered` says what each device is then sent and checked for |
| `ReconciliationProofs.RemovalsExact` | orchestrator/reconciliation.py:704-718 | a resource is removed if and only if the baseline owns it and the new manifest lacks it or has it in another state |
| `ReconciliationProofs.RemovalsOrdered` | orchestrator/reconciliation.py:719-760 | each device gets exactly its own removals, no key twice, in descending `remove_order`: the i-th block has the i-th resource's key, removal commands and removal hash, the i-th gate that device and the resource's show command and forbidden text, and the descriptor is the one the baseline recorded |
| `ReconciliationProofs.StaleCountExact` | orchestrator/reconciliation.py:713-770 | the diff counts exactly the removed resources |
| `ReconciliationProofs.ManifestValidExact` | orchestrator/reconciliation.py:539-633 | what a valid manifest is, written out on its fields |
| `ReconciliationProofs.IdenticalManifestIsQuiet` | orchestrator/reconciliation.py:713-718 | an identical manifest gives an empty diff |
| `ReconciliationProofs.ApplyConverges` | orchestrator/renderer.py:1483-1602 | an apply exchanges exactly the baseline's resources for the new manifest's, on active and retired devices; a resource goes only by a block that carries its own removal commands |
| `ReconciliationProofs.HistoryConverges` | orchestrator/reconciliation.py:691-770 | after any history of applies, each against the newest ledger entry, the devices hold exactly the newest manifest and whatever no manifest ever owned |
| `StateStore.Tables.AppendAudit` | orchestrator/store.py:353-398 | one event is appended, chained to the last hash |
| `StateStore.Tables.SaveIntent` | orchestrator/store.py:400-438 | the same document is returned, not stored twice; anything else is one new row and one event |
| `StateStore.Tables.ReserveDesign` | orchestrator/store.py:449-575 | idempotent by key, refuses a rebound key, else allocates against the ledgers and writes reservation, rows and event together, or changes nothing |
| `StateStore.Tables.TransitionDesignReservation` | orchestrator/store.py:613-669 | only the lifecycle's moves, release only when verified, and the reservation and all its rows move together |
| `StateStore.Tables.SavePlan` | orchestrator/store.py:671-790 | binding checks, idempotent replay, rebinding only away from an inactive reservation |
| `StateStore.Tables.RecordApproval` | orchestrator/store.py:801-874 | refuses a past expiry and the plan's creator; an approval carries the plan's three bindings |
| `StateStore.Tables.CreateRun` | orchestrator/store.py:913-1038 | the tables are updated as the specified step says, which `StoreExact.NewRunExact` and `StoreExact.UsedKeyExact` write out: idempotent by key, needs the window, the newest approval and a free fabric; a held lock rolls the inserted run back |
| `StateStore.Tables.TransitionRun` | orchestrator/store.py:1049-1105 | only the status graph's moves; a terminal status gives the lock back |
| `StateStore.Tables.RecordAdoptedOwnedState` | orchestrator/store.py:1133-1204 | two-person adoption of a valid manifest, once for each change and manifest |
| `StateStore.Tables.CompleteApply` | orchestrator/store.py:1206-1288 | manifest, success and unlocking in one transaction, bound to the run's artifact and fabric, or nothing |
| `StateStore.Tables.AddEvidence` | orchestrator/store.py:1290-1362 | evidence with one identity is recorded once |
| `StoreExact.SaveIntentExact` | orchestrator/store.py:400-438 | a stored document is given back, any other is one new row with its event; the error tells a clash of ids |
| `StoreExact.HeldKeyExact` | orchestrator/store.py:449-575 | a key that an active reservation holds gives that one back for the same requirements and policy, and is a conflict for any other |
| `StoreExact.FreeKeyExact` | orchestrator/store.py:449-575 | a free key makes one reservation with one reserved row for each claim of the derivation, unless an active reservation claims exactly that; each error has its reason |
| `StoreExact.TransitionReservationExact` | orchestrator/store.py:613-669 | accepted exactly for the six listed moves, release only when verified; it rewrites the state of the reservation and of exactly its own rows |
| `StoreExact.NewPlanExact` | orchestrator/store.py:671-790 | a new plan is stored exactly when hash, version, intent and reservation fit and its hash is new |
| `StoreExact.StoredPlanExact` | orchestrator/store.py:708-752 | a stored plan is given back for the same artifact, and rebound exactly when its own reservation holds no space |
| `StoreExact.RecordApprovalExact` | orchestrator/store.py:801-874 | accepted exactly with a change reference, an expiry in the future, a stored plan with an artifact, and an approver who did not create it |
| `StoreExact.NewRunExact` | orchestrator/store.py:913-1038 | a request under a free key makes a run exactly when the plan's last approval approves its three bindings and has not expired and, for an apply, execution is enabled, the window ends after it starts and contains the instant, and the fabric is unlocked; the error tells which of these fails |
| `StoreExact.UsedKeyExact` | orchestrator/store.py:935-972 | a key in use gives its run back for the same plan and mode, under the same switch and window |
| `StoreExact.TransitionRunExact` | orchestrator/store.py:1049-1105 | accepted exactly for the twelve listed moves; the statuses from which none leads on give the run's lock back |
| `StoreExact.CompleteApplyExact` | orchestrator/store.py:1206-1288 | accepted exactly once for a running apply of that artifact and fabric with a valid manifest; row, success, unlocking and both events are written together |
| `StoreExact.RecordAdoptedExact` | orchestrator/store.py:1133-1204 | accepted exactly from two named people with a change reference, a hexadecimal digest and a valid manifest of the fabric |
| `StoreExact.AddEvidenceExact` | orchestrator/store.py:1290-1362 | evidence is added for a stored run, once for each identity |
| `StoreExact.EveryRunWasAskedFor` | orchestrator/store.py:913-1038 | every run of every reachable store was made by one `create_run` for its plan, mode, key and requester, before which it was not there; if it is an apply, execution was enabled and the window, which ends after it starts, contained the instant of creation |
| `StoreExact.ApplyRunsAreWindowed` | orchestrator/store.py:935-945 | every apply run of every reachable store was asked for with execution enabled, in a window that contains its creation time |
| `StoreExact.RecordedMovesAreLegal` | orchestrator/store.py:1049-1105 | every move in the log of every reachable store is one of the listed ones, and a recorded release was verified |
| `StoreExact.LatestBaselineExact` | orchestrator/store.py:1107-1131 | the baseline handed out is the fabric's last manifest row, with its source, reference and hashes |
| `StoreAudit.VerifyAuditChain` | orchestrator/store.py:1391-1413 | true exactly when every event hashes to its hash and links to the one before it |
| `StoreAudit.AuditIsSafe` | orchestrator/store.py:353-398 | after every sequence of operations the chain verifies, replaying it gives exactly the stored run statuses and reservation states, and every recorded move is legal |
| `StoreAudit.HeadPinsHistory` | orchestrator/store.py:1391-1413 | two valid chains with one head hash are the same events, whatever length they claim |
| `StoreAudit.SameHeadSameTables` | orchestrator/store.py:353-398 | two stores with one head hash agree on every run's status and every reservation's state |
| `StoreLedger.LedgerIsSafe` | orchestrator/store.py:449-669 | in every reachable store active prefixes of a domain and pool are disjoint, active scalars of a domain and kind distinct, and every row is in its reservation's state |
| `StoreLedger.SpaceIsHeld` | orchestrator/store.py:613-669 | over any run of the store a reservation's rows stay, and it stops holding its space only through a release recorded as verified |
| `StoreLedger.HeldSpaceIsNotReissued` | orchestrator/store.py:449-575 | while a reservation holds its space, also in quarantine, no new reservation gets any prefix or scalar of it |
| `StoreLedger.ReleaseGivesBack` | tests/test_allocation_store.py:124-161 | after a verified release the same design, listed in any order, derives the same intent and claims |
| `StoreReuse.NoActiveTwin` | orchestrator/store.py:205-207 | the uniqueness constraint on active reservation hashes can never strike in a reachable store |
| `StoreReuse.BodiesAreHeld` | orchestrator/store.py:449-669 | in every reachable store a reservation's claims are ledger rows in its own state, and there is at least one |
| `StoreReuse.KeyIsFreedByRelease` | tests/test_allocation_store.py:164-190 | after a verified release the idempotency key is free again |
| `StoreReuse.ReplanSucceeds` | tests/test_allocation_store.py:124-161 | reserve, release verified, reserve again under a free key: it succeeds, makes a new reservation, and holds exactly what the first one held |
| `StoreRuns.RunsAreSafe` | orchestrator/store.py:913-1288 | locks, modes, idempotency keys, approvals and committed manifests are sound in every reachable store |
| `StoreRuns.LockNamesTheLiveRun` | orchestrator/store.py:997-1015 | a fabric is locked if and only if an apply run on it is live; there is then one such run, and the lock names it |
| `StoreRuns.TerminalIsFinal` | orchestrator/store.py:1049-1105 | a run that has ended never changes again |
| `StoreRuns.EveryRunWasAuthorised` | orchestrator/store.py:947-1038 | every stored run was created when its plan's newest approval was unexpired, by someone other than the plan's creator, with equal plan hash, artifact hash and version |
| `StoreRuns.KeyNamesOneRun` | orchestrator/store.py:953-972 | one idempotency key never names two runs |
| `StoreRuns.NewestIsLatest` | orchestrator/store.py:876-886 | the newest approval row is the one with the greatest creation time |
| `StoreCommits.ManifestUnlessDeclared` | orchestrator/store.py:1049-1288 | in every run of the store, a manifest that names a run means that the run succeeded, and a successful run has one if and only if no accepted `transition_run` declared its success |
| `StoreScenarios.SuccessWithoutManifest` | orchestrator/store.py:1049-1105 | operations from the empty store after which a run has succeeded and no manifest names it |
| `StoreRuns.LatestBaselineValidIff` | orchestrator/store.py:1107-1131 | in every reachable store the baseline handed to the planner is one that the diff accepts for the fabric if and only if it was adopted or its artifact hash is a digest |
| `StoreScenarios.LatestBaselineCanBeRefused` | orchestrator/store.py:1206-1288 | operations from the empty store after which the newest committed baseline is refused by the diff |
| `StoreRuns.LatestIsNewest` | orchestrator/store.py:1107-1131 | that baseline is the newest entry of the fabric's ledger, every entry of which holds a valid manifest |
| `StorePlans.PlansAreBound` | orchestrator/store.py:671-790 | in every store reached by saving each plan id for one intent only, a plan's reservation was derived for exactly its intent |
| `StorePlans.RebindingIsSoundIff` | orchestrator/store.py:708-752 | a rebinding leaves the plan soundly bound if and only if the stored plan's intent is the same document |
| `StoreScenarios.PlanCanBeMisbound` | orchestrator/store.py:708-752 | operations from the empty store after which a plan is bound to a reservation derived for another intent |
| `StoreReissue.SpaceIsGivenBackInUse` | orchestrator/api.py:256-275 | for every design that fits the empty ledger there is a run of the store in which a plan's run succeeds, a second plan on the same reservation is rolled back, and the first one's space is reserved anew |
| `StoreReissue.SpaceIsUsedUnheld` | orchestrator/store.py:947-1038 | and one in which a plan's first run is rolled back, a later one succeeds, and the space is reserved anew |
| `StorePlans.ActiveBindingStays` | orchestrator/store.py:708-752 | no operation takes a plan away from a reservation that still holds its space |
| `Planning.CreatePhases` | orchestrator/planner.py:51-242 | the plan is exactly the phases that the features call for, in order, each depending on the one before it and aimed at its own sorted targets |
| `PlanExact.PlanIsMet` | orchestrator/planner.py:51-242 | the plan has exactly the phases that the features and the diff call for, in their fixed order, the first without a predecessor and every other depending on the one before it, each aimed at its sorted targets |
| `PlanExact.TargetsExact` | orchestrator/planner.py:71-242 | a device is a target of a phase if and only if the phase concerns it, by role or by what the diff removes |
| `Planning.PlannedIdsDistinct` | orchestrator/planner.py:71-242 | no phase is planned twice |
| `Planning.Recheck` | orchestrator/renderer.py:1394-1406 | the re-check passes exactly when the plan's summary is the rebuilt reconciliation's |
| `Planning.RecheckPinsItsInputs` | orchestrator/renderer.py:1394-1406 | with intact inputs the re-check passes if and only if the renderer was given the baseline that the plan was made with and, if there is one, the same manifest |
| `Planning.RenderConfiguration` | orchestrator/renderer.py:1483-1602 | the loops over devices, fusion nodes and retired targets build the specified artifact, which `PlanExact.RenderedExactly` writes out |
| `PlanExact.RenderedExactly` | orchestrator/renderer.py:1483-1602 | with distinct ids, a device has a phase in the artifact if and only if it is due: by its roles and the features with exactly the builder's blocks for it, where empty ones are kept only for the phases that are always appended, and for reconciliation with exactly the diff's keys and removal commands, on active, fusion and retired devices |
| `PlanExact.RenderedForTargets` | orchestrator/renderer.py:1483-1602 | a device is rendered a phase exactly when the phase concerns it; multicast and policy phases exactly when the feature is on and the builder has blocks for the device |
| `Planning.EveryBlockIsPlanned` | orchestrator/renderer.py:1483-1602 | for every design, baseline and block builder, a rendered block belongs to an executed phase of the plan, and a device has one artifact phase for each id |
| `GatePlan.BuildGatePlan` | orchestrator/gates.py:30-717 | the loops append exactly the specified gates, absence gates first; `PlanExact.GatesExact` says which those are |
| `PlanExact.GatesExact` | orchestrator/gates.py:30-717 | a gate is in the plan if and only if it is the table's for a device by role, feature and phase, or the absence check of a resource that the diff removes from its device |
| `GatePlan.RenderedTargets` | orchestrator/renderer.py:1582-1602 | the artifact's devices are exactly the intent's devices, its fusion nodes and the baseline's retired devices with removals |
| `GatePlan.EveryGateIsPlanned` | orchestrator/gates.py:30-717 | every gate belongs to the prechecks or an executed phase of the plan, on a device of the artifact |
| `SagaLog.EveryBlockSentOnce` | orchestrator/worker.py:259-319 | a successful run sends every rendered block exactly once |
| `SagaLog.EveryGatePassed` | orchestrator/worker.py:228-319 | a successful run passes every gate of the gate plan, blocking or not |
| `SagaLog.NothingOutOfTurn` | orchestrator/worker.py:259-319 | at any point of any run, a block was sent only after all prechecks and all gates of the earlier phases had passed |
| `SagaOrder.StepsAreInTurn` | orchestrator/worker.py:228-319 | of any two steps of any run so far the earlier one is a precheck, or belongs to an earlier phase of the plan, or comes first in its phase: ISE, then the devices by id with each one's blocks in rendered order, then the gates in gate-plan order |
| `SagaOrder.PolicyIsAppliedOnce` | orchestrator/worker.py:267-284 | a successful run carries out the ISE transaction once if there is a manifest and the plan has the policy phase, else never |
| `IseOperations.ValidateManifest` | orchestrator/ise.py:227-319 | accepts exactly the manifests with unique operation ids and names, marked objects, legal tag values, and cells that refer to planned groups and ACLs |
| `IsePlan.ClassifyExact` | orchestrator/ise.py:515-546 | missing objects are created, unowned ones always refused, owned ones left alone or updated according to their comparable fields |
| `IseAdapter.Adapter.Prepare` | orchestrator/ise.py:594-681 | writes nothing, refuses an active journal, a node that is not primary and a default policy that permits, and classifies every planned object truly against the node; on a node that serves it makes the plan that `PlanAll` gives |
| `IseAdapter.Adapter.ApplyCreate` | orchestrator/ise.py:727-780 | journals before the POST, recovers an unusable Location by lookup, and wherever it stops the journal still accounts for the node |
| `IseAdapter.Adapter.ApplyUpdate` | orchestrator/ise.py:783-809 | refuses an object that changed, journals before the PUT, and confirms the comparable fields after it |
| `IseAdapter.Adapter.Apply` | orchestrator/ise.py:811-855 | wherever it stops the journal accounts for every difference; when no two cell operations name one pair of groups the journal is about distinct objects, and all of it can be undone if and only if the last write was verified, changed nothing comparable, or created the object whole; after a success every object is as desired; on a node that serves it ends as `ApplyRun` says |
| `IseOutcome.GoesThroughIff` | orchestrator/ise.py:594-855 | on a node that gives new objects ids of their own, the served transaction goes through if and only if every operation is admissible: its name or pair of groups is taken once at most, by an object with the marker, and a group's tag value by that group only |
| `IseOutcome.PolicyIsInForce` | orchestrator/ise.py:594-855 | then each operation is in force, in working order: the group or ACL has the fields asked for, the cell joins the groups of the two names and holds the ACLs of the listed names in that order; every changed object is one of these, and holds just what a write may set |
| `IsePolicy.PlanAllExact` | orchestrator/ise.py:594-664 | the plan is made if and only if every operation is admissible, for a cell as far as the ids behind its names are known |
| `WorkerPolicy.ReadyIff` | orchestrator/worker.py:217-232 | with a healthy node that meets the preflight, a worker's ISE transaction will be served if and only if every operation of the manifest is admissible |
| `WorkerPolicy.ForecastIsInForce` | orchestrator/worker.py:267-284 | where a successful run on a node that serves leaves ISE, every operation of the manifest is in force and no other object has changed |
| `IseAdapter.Adapter.UndoCreate` | orchestrator/ise.py:862-909 | deletes only an object this transaction created and still recognises, and nothing else changes |
| `IseAdapter.Adapter.UndoUpdate` | orchestrator/ise.py:910-938 | restores the snapshot only over the post-state this transaction observed, nothing else changes, and the entry stays recoverable if and only if the PUT does not tear |
| `IseAdapter.Adapter.Rollback` | orchestrator/ise.py:857-954 | a verified rollback makes the whole map equal on comparable fields to its state at `prepare`; with distinct targets a healthy node verifies it whenever every entry is recoverable, and an attempt that is not verified leaves the journal recoverable if and only if it was so and none of the attempt's PUTs tore; since `prepare` no write was addressed to an object that lacked the marker |
| `IseAdapter.Adapter.Resume` | orchestrator/ise.py:857-954 | with distinct targets, an attempt that meets a healthy node finishes in the state of one clean rollback if and only if every entry was recoverable to begin with and no PUT of any attempt tore |
| `IseUndo.UnverifiedUpdateIff` | orchestrator/ise.py:910-921 | an update whose post-state was not noted can be undone if and only if its PUT, whatever its effect, changed none of the comparable fields that it was to change |
| `IseUndo.UnverifiedCreateIff` | orchestrator/ise.py:862-894 | a creation whose post-state was not noted can be undone if and only if its POST left no object that lacks some comparable field |
| `IseUndo.RestoredCanFinishIff` | orchestrator/ise.py:857-954 | when every object is back but the rollback was not verified, the entries are recoverable if and only if each update recorded the state that its object is back in |
| `IseUndo.TornPutIsNeverUndone` | orchestrator/ise.py:922-934 | a restoring PUT that takes effect on one of two changed fields turns a recoverable entry into one that no rollback accepts |
| `IseObjects.TornExactly` | orchestrator/ise.py:922-934 | what a PUT leaves compares equal to what was there or to what was sent if and only if it did not take effect on some but not all of the comparable fields that it was to change |
| `IseStuck.SharedCellNeverFinishes` | orchestrator/ise.py:594-954 | a valid manifest with two cell operations on one pair, validated, prepared, applied and rolled back with one lost answer: every object is restored, and no rollback is ever verified, however often it is repeated |
| `IseObjects.AllSettled` | orchestrator/ise.py:857-954 | undoing the first entry about every journaled object restores the whole map, faults of `apply` included |
| `IseObjects.UnownedIsNeverTouched` | orchestrator/ise.py:515-546 | no object that lacked the marker at `prepare` is ever named by the journal |
| `IseObjects.OwnedIsComparable` | orchestrator/ise.py:500-513 | equal comparable fields mean equal ownership and equal lookup fields |
| `IseJournal.AppendCreate` | orchestrator/ise.py:730-744 | a journaled POST keeps the account, whether it took no, partial or full effect |
| `IseJournal.AppendUpdate` | orchestrator/ise.py:789-803 | a journaled PUT keeps the account, whatever part of it took effect |
| `IseJournal.RecordId` | orchestrator/ise.py:745-761 | learning the created object's id keeps the account |
| `IseJournal.DeleteKeeps` | orchestrator/ise.py:895-903 | a rollback's DELETE keeps the account |
| `IseJournal.RestoreKeeps` | orchestrator/ise.py:926-934 | a rollback's PUT of a snapshot keeps the account |
| `Devices.Fleet.CreateCheckpoint` | orchestrator/adapters.py:107-128 | a verified checkpoint holds the running configuration |
| `Devices.Fleet.ApplyBlock` | orchestrator/adapters.py:130-158 | whatever the answer, only the addressed device may have changed; an unanswered block is noted as a fault |
| `Devices.Fleet.Rollback` | orchestrator/adapters.py:160-190 | a verified rollback leaves exactly the checkpoint's configuration |
| `Worker.UnresolvedExact` | orchestrator/worker.py:86-100 | no unresolved blocker if and only if every blocker is well formed and explicitly allowed |
| `Worker.TransactionWorker.RecordGate` | orchestrator/worker.py:120-143 | a gate counts as passed only on an answer that satisfies it, and its verdict is recorded as evidence either way |
| `Worker.TransactionWorker.SendBlock` | orchestrator/worker.py:285-316 | the device is marked as changed before the block goes out, so a half-accepted block is covered by the undo |
| `Worker.TransactionWorker.Try` | orchestrator/worker.py:205-322 | under every fault the steps taken are a prefix of the expected ones, complete on success; unmarked devices and unjournaled objects are as before |
| `Worker.TransactionWorker.Undo` | orchestrator/worker.py:345-394 | the devices that were sent anything, or else all that were checkpointed, are tried one by one from the last to the first, and then ISE if it was written; it fails exactly when one of these was not verified, and otherwise all configurations and objects are as before |
| `Worker.TransactionWorker.Finish` | orchestrator/worker.py:324-343 | success and owned state are committed together, then the reservation if its state admits it, else the call raises with the run ended; a refused commit of the run is recovered like any other failure, an admissible one always succeeds |
| `Worker.TransactionWorker.ProcessApply` | orchestrator/worker.py:145-430 | for every pattern of faults and every state of the reservation. The call raises before the run ends exactly when the run is not queued or bound, or is cleared and lacks a device or a secret, and then nothing has changed. A bound run with a malformed or forbidden blocker fails with nothing sent and nothing changed. A cleared and supplied run succeeds when every device call is answered with its verdict holding, the ISE node serves and the store admits the commit. A success took every expected step, with no failed device call and every device checkpointed, and committed the owned state. A failed run had checkpointed nothing and changed nothing. Any other was undone, the last device first, and is rolled back, with devices and ISE as before, if and only if every part of that was verified. The run is terminal and the fabric unlocked; the call returns if and only if the plan has no reservation or its state at entry admits the move to committed, released or quarantined, which is then made, and else raises with the ledger unchanged |
| `SpaceInUse.HeldExactly` | orchestrator/worker.py:324-409 | over every history of store operations and calls, and between any two points of it, a reservation's space is held at the end if and only if it was at the beginning, no run of any plan bound to it was rolled back, and it was not released directly |
| `SpaceInUse.UsedSpaceIsHeldIff` | orchestrator/worker.py:324-409 | the space that a successful run configured is held at any later point if and only if the reservation was not released when the run was called and nothing gave it back since |
| `SpaceInUse.StateTells` | orchestrator/store.py:613-669 | a reservation is reserved exactly while nothing has moved it, so no run uses its space; moved by calls only, it is committed exactly when some run of a plan bound to it has succeeded and none was rolled back or failed to be |
| `SpaceInUse.HeldAfterCallIff` | orchestrator/worker.py:324-409 | a call gives a reservation's space back if and only if its run is rolled back and the run's plan is bound to it |
| `SpaceInUse.SuccessHoldsIff` | orchestrator/worker.py:324-343 | after a success the space is held if and only if the reservation was not released at entry, and the call returns if and only if it was reserved |
| `SpaceInUse.RollbackReleases` | orchestrator/worker.py:345-409 | after a rollback the reservation is released, and the call raises if and only if it was so at entry |
| `SpaceInUse.EndSettles` | orchestrator/worker.py:324-430 | for each end of a run, the state in which it leaves the reservation of its plan, whether it is returned or raised, and that nothing else of the reservation changes |
| `SpaceInUse.CallKeepsRows` | orchestrator/store.py:613-669 | a call moves a reservation together with all its rows |
| `Worker.SuccessIsComplete` | orchestrator/worker.py:259-319 | with the rendered artifact and gate plan, the expected steps hold every rendered block exactly once and every gate |
| `Acceptance.CycleSearch.Visit` | orchestrator/acceptance.py:96-116 | the colouring search keeps a real path on its stack, and blackened gates form a dependency order unless a cycle was reported |
| `Acceptance.CycleSearch.DetectDependencyCycles` | orchestrator/acceptance.py:90-120 | reports a chain if and only if the dependency graph has a cycle, and every chain is a real cycle |
| `Acceptance.OrderedIsAcyclic` | orchestrator/acceptance.py:90-120 | a complete dependency order rules out every cycle |
| `Acceptance.CheckEvidence` | orchestrator/acceptance.py:182-277 | no finding exactly when ids are unique, files are intact and every status is supported by its evidence |
| `Acceptance.ValidateGates` | orchestrator/acceptance.py:182-298 | no gate, evidence or dependency finding exactly for a clean registry; every reported cycle is real |
| `AcceptanceExact.CleanExact` | orchestrator/acceptance.py:182-298 | clean means: no gate id and no evidence id twice, every status rests on intact evidence, every dependency is listed and has passed where it must, and no gate depends on itself at any distance |
| `Acceptance.PassedGatesRestOnPassedGates` | orchestrator/acceptance.py:244-298 | in a registry without findings everything a passed gate depends on, at any distance, passed on intact, all-passed, non-empty evidence |

## Left out

- HTTP API, authentication, token files, Meraki workflow packages, runtime recovery and the simulator: input and output, tables of constants, thin sequencing.
- Devices.Fleet.CreateCheckpoint, Devices.Fleet.ApplyBlock, Devices.Fleet.Rollback: contracts in place of SSH sessions, command text and parsed device output; closing sessions at the end is not modelled.
- IseServer.Server.Find: one request in place of a paged search and one read for each hit; TLS, CSRF tokens, credentials, redirects and JSON bodies are not modelled.
- IseOperations.ValidateManifest: the whitelists of characters, the fixed strategy, policy and precondition strings, the bound of 10000 operations and the secret scan are not modelled.
- IseAdapter.Adapter.Apply: that every cell is as desired is claimed when no two cell operations name one pair of groups; two on one pair can overwrite each other in the source.
- IseOutcome.GoesThroughIff, IseOutcome.PolicyIsInForce: for manifests in which no two cell operations name one pair of groups; of an object that is already as desired only the compared fields are claimed.
- HierarchyValidation.ValidateHierarchy: global nodes are counted in a loop of their own, references are noted in id order, and missing ids, names and types are not modelled.
- FabricAllocator.DeriveFabricIntent: platform guardrails, required keys, fusion-node records, DHCP, endpoint attachments, LISP domain and multihoming ids, multicast, policy plane, SXP and shared services are not derived; handoff peers are given after the source's expansion of defaults.
- IntentValidation.ValidateIntent: only the checks of addresses and of these identifiers; host names, management addresses, schema, types, roles, redundancy, services, policy plane and references to sites and networks are left out, and a finding carries the index of its item in place of a path and a message.
- DerivedNames.NamesAreRefusedIff: `lower` is modelled on ASCII letters; a pool's id with other capitals is lowered by the source only.
- Reconciliation.ValidateOwnedState: the kinds and the whitelists for keys, removal commands and show commands, and the per-field text checks of descriptors, are not modelled.
- ReconciliationProofs.HistoryConverges: an adoption may only open the ledger, and is assumed to describe what is on the devices; a later adoption of something else would make the devices differ from the ledger.
- StateStore.Tables.SaveIntent, StateStore.Tables.SavePlan: of the documents only what the operations compare is kept; `get`, listing and summary queries are left out.
- StateStore.Tables.CreateRun: the lock's expiry is stored, as in the source, where no operation reads it.
- StoreReuse.ReplanSucceeds: between the two reservations only the released one is moved; another design may take freed space in the source as in the model.
- StorePlans.PlansAreBound: a plan id is saved for one intent only, which the source achieves by deriving the id from the plan.
- Planning.RenderConfiguration: command text is an arbitrary function of device and phase; that a builder returns no block without its feature is built into the rows.
- GatePlan.BuildGatePlan: commands and expected values are opaque, and gates that the source appends at different places for one phase may share a table entry.
- Worker.TransactionWorker.ProcessApply: the store itself never fails, secrets resolve or not as one flag, and another process may not move the same run or reservation meanwhile.
- Acceptance.ValidateGates: sign-offs, workflow state, hardware scope, secret keys and whether an evidence file is inside the root, present and unaltered (one flag) are left out.
