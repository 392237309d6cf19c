# Strix Gateway: control plane model

The gateway keeps two stores: a database of arrays, endpoints, pools, volumes, hosts and mappings, and an SPDK
target that it drives over JSON-RPC. Each API request is one database transaction; its SPDK calls may fail without
effect and are never rolled back. This project models both stores as a state machine and proves what every run of
requests keeps, what the start-up reconciler rebuilds, and what applying a topology does. It also models the Hitachi
personality's in-memory state: the LDEV index, the session store and the job history.

## How it is laid out

| files | content |
|---|---|
| `Model` | rows, SPDK state, `World` (both stores and the row-id supply) |
| `Alloc`, `Ensure`, `SpdkTarget` | id allocation; the `ensure_*` functions and SPDK calls, as functions of state and replies and as a class changed in place |
| `Inventory`, `Volumes`, `Mappings`, `Reconcile`, `Topology`, `Apply` | each service operation as a function on `World` |
| `DbSession`, `InventoryService`, `VolumeService`, `MappingService`, `ReconcileService`, `ApplyService`, `Gateway` | the same operations as methods that update a session and an SPDK target step by step, proved equal to those functions; `Gateway` adds the commit boundary |
| `Invariants`, `DbSteps`, `ExportSteps`, `SteadySteps`, `GoodSteps` | the invariants, request by request |
| `Replies`, `Outcomes` | which replies make an SPDK operation succeed; each request's exact success condition, errors and committed state |
| `ReconcileProofs`, `ReconcileSound`, `ReconcileExact`, `ReconcileListeners` | what a reconcile pass does |
| `ApplyGood`, `ApplyResidue`, `ApplyFailure`, `ApplyWires`, `ApplyAgain`, `ApplyCounts`, `ApplyRows`, `ApplyDeclared` | what an apply does |
| `Runs`, `RunResults`, `RunReconcile`, `RunSizes`, `TightIds`, `SizeHistory` | results over all runs |
| `RoundTrips` | what is created is found again, and what one request does another undoes |
| `MappingFailures`, `NvmeListeners`, `EndpointChoice` | failures and exact conditions |
| `Counterexamples` | concrete runs from the empty gateway in which the source does not do what it is described to do |
| `LdevIndex`, `HitachiMapper`, `Sessions`, `SessionStore`, `Jobs` | the Hitachi personality |

`Wire` says how each SPDK call of an operation is answered: served, refused, refused with code -32602, or lost on the
socket. Every theorem holds for every choice of replies, unless it says that some calls are served. A row id stands for
a UUID and is drawn from a supply that is never rewound; a query that takes the first of several rows takes the oldest,
and the reconciler takes its rows in any order.

A run is any sequence of requests. Its hypotheses are flags (`GoodSteps.Hyp`), and `Runs.Allowed` says what each flag
rules out. In every run endpoints are removed only when no mapping refers to them, and pools are moved only when empty.
`exports` adds: the IQNs and NQNs of one protocol are distinct and stay fixed while mapped, pools are not moved, the
clean-up call of a mapping deletion is served or has nothing to remove, and when a topology fails at one of its
mappings, no mapping declared before that one had a pair without a row on an array whose first iSCSI endpoint names a
target (`ApplyWires.LeavesNoLun`). `steady`: SPDK is not restarted. `exact`: only unmapped volumes are extended.

Where the code and its descriptions differ, the model follows the code:

- Deleting one iSCSI mapping deletes the whole target (`DeletionKeepsSiblingIff` says exactly which entries go,
  `DeletionDropsSibling` is a concrete run).
- Errors of that clean-up are dropped (`DeleteMappingSoundIff`), and the `ensure_*_mapping` functions compare ids, not
  bdevs (`CreationExposesOwnIff`); `StaleEntryExposesOtherVolume` is a concrete run in which a namespace then exposes
  another volume.
- `ensure_nvmef_export` is described as idempotent, but a listener that failed once is never retried
  (`CleanExportListensIff`, `FailedListenerSticks`).
- `extend_volume` ends in `available` even for a mapped volume (`ExtendStatusIff`, `ExtensionForgetsMapping`).
- An explicit persona endpoint on its own can be overridden by an FC endpoint (`LonePersonaHonouredIff`,
  `NamedPersonaOverridden`).
- A failed apply discards its rows but not the exports it wired (`FailedApplySoundIff`; `FailedApplyLeavesLun` is a
  concrete run that ends with a LUN and no mapping row).
- The reconciler compares ids only as well: a stale entry survives a pass (`ReconcileExposesOwnIff`,
  `StaleEntrySurvivesPass`).
- Moving a pool to another array leaves its lvol store under the old name, and no later pass makes a store of the new
  name (`PoolStoreIff`, `MovedPoolGetsNoStore`).
- A failed refresh of the LDEV index is described as keeping the last known state, but the maps are cleared before the
  rows are queried (`FailedRefreshAgreesIff`, `FailedRefreshReusesIff`).
- A rebuild of the LDEV index can give two rows one number (`RebuildInverseIff`, `UnnumberedBeforeZero`).

## Model

| member | source | states |
|---|---|---|
| Alloc.AllocateLun | strix_gateway/spdk/ensure.py:37-43 | the loop returns the least integer from 0 up that is not in use |
| Alloc.AllocateLunFromBase | strix_gateway/spdk/ensure.py:46-49 | shifting by the base and back gives the least unused integer from the base up; ids below the base play no part |
| Alloc.AllocateNsid | strix_gateway/spdk/ensure.py:52-58 | the least unused integer from 1 up, so never the reserved NSID 0 |
| Alloc.LeastFreeTight | strix_gateway/spdk/ensure.py:37-58 | pigeonhole: an allocated id exceeds its start by at most the number of ids in use |
| Alloc.LeastFreeUnique | strix_gateway/spdk/ensure.py:37-58 | being unused with every smaller candidate used determines the id |
| SpdkClient.SpdkTarget.EnsurePortalGroup | strix_gateway/spdk/iscsi.py:31-43 | creates portal group 1 once; any failing call leaves the target as it was |
| SpdkClient.SpdkTarget.EnsureInitiatorGroup | strix_gateway/spdk/iscsi.py:51-64 | the same for initiator group 1 |
| SpdkClient.SpdkTarget.EnsureTransport | strix_gateway/spdk/nvmf.py:26-39 | a -32602 answer counts as success, also when no transport exists |
| SpdkClient.SpdkTarget.EnsureNvmeExport | strix_gateway/spdk/ensure.py:255-287 | subsystem and listeners only when the NQN is new; the loop stops at the first failing listener and keeps the earlier ones |
| SpdkClient.SpdkTarget.EnsurePool | strix_gateway/spdk/ensure.py:95-151 | backing bdev, then lvol store, with the AIO size read back; every partial outcome of a failing call |
| SpdkClient.SpdkTarget.EnsureLvol | strix_gateway/spdk/ensure.py:158-194 | an existing lvol is left alone, a missing one is created at the row's size |
| SpdkClient.SpdkTarget.DeleteLvolBdev | strix_gateway/spdk/ensure.py:197-206 | an absent lvol counts as deleted |
| SpdkClient.SpdkTarget.ResizeLvolBdev | strix_gateway/spdk/ensure.py:209-215 | fails without effect when the bdev is missing |
| SpdkClient.SpdkTarget.EnsureIscsiMapping | strix_gateway/spdk/ensure.py:294-325 | creates the target with its first LUN or adds a LUN; an id already there is left whatever it exposes |
| SpdkClient.SpdkTarget.EnsureNvmeMapping | strix_gateway/spdk/ensure.py:328-346 | the same for namespaces; the subsystem must exist |
| SpdkClient.SpdkTarget.DeleteTargetNode | strix_gateway/spdk/iscsi.py:118-128 | removes the target with all its LUNs |
| SpdkClient.SpdkTarget.RemoveNamespaceOf | strix_gateway/spdk/nvmf.py:93-102 | removes one namespace and nothing else |
| Ensure.AttachEffect | strix_gateway/spdk/ensure.py:294-346 | attaching changes at most one entry of one table, only from absent to the given open bdev, and leaves the id present when it succeeds |
| Ensure.PoolEffect | strix_gateway/spdk/ensure.py:95-151 | a pool step adds at most its own backing bdev and its own store, re-points neither, and keeps the pool usable |
| Replies.GroupsByReplies | strix_gateway/spdk/iscsi.py:31-64 | both groups are there afterwards exactly when they were or their look-up and creation are served |
| Replies.TransportByReply | strix_gateway/spdk/nvmf.py:26-39 | the transport call fails exactly for an error other than -32602, and only a served call makes a transport |
| Replies.SubsystemByReplies | strix_gateway/spdk/ensure.py:255-287 | the exact replies for which an NVMe-oF export succeeds; a new subsystem gets the endpoint's listeners, an existing one stays |
| Replies.PoolByReplies | strix_gateway/spdk/ensure.py:95-151 | the exact replies for which a pool is ensured, the bdev and store it makes, and the AIO size of whole MiB of 512-byte blocks |
| Replies.LvolByReplies | strix_gateway/spdk/ensure.py:158-194 | an lvol of the given size is made exactly when none is there, its store is, the look-up is answered and the creation served |
| Replies.LunByReplies | strix_gateway/spdk/ensure.py:294-325 | the exact replies for which a LUN is found or made, and the only entry that changes |
| Replies.NamespaceByReplies | strix_gateway/spdk/ensure.py:328-346 | the same for a namespace |
| Replies.DetachByReply | strix_gateway/core/mappings.py:287-308 | a served iSCSI clean-up takes the target, a served NVMe-oF one the namespace, any other reply nothing |
| VolumeService.CreateVolume | strix_gateway/core/volumes.py:49-107 | creating, then available with the bdev name or error without one; equal to the specification from every state |
| VolumeService.DeleteVolume | strix_gateway/core/volumes.py:146-178 | refused while mapped; the lvol goes before the row; an SPDK error leaves the row in error |
| VolumeService.ExtendVolume | strix_gateway/core/volumes.py:181-210 | only growth is accepted; success sets size and available whatever the status was |
| VolumeService.ExpandVolume | strix_gateway/core/volumes.py:213-225 | extends to the current size plus the delta |
| InventoryService.CreateArray | strix_gateway/core/arrays.py:58-80 | refuses a used name |
| InventoryService.CreateEndpoint | strix_gateway/core/endpoints.py:25-50 | needs the array, nothing else |
| InventoryService.UpdateEndpoint | strix_gateway/core/endpoints.py:69-86 | may change target and listeners, never protocol or array |
| InventoryService.DeleteEndpoint | strix_gateway/core/endpoints.py:104-112 | has no guard for mappings |
| InventoryService.CreatePool | strix_gateway/core/pools.py:34-88 | checks in source order, then provisions; the row of a failed creation is still in the working copy |
| InventoryService.DeletePool | strix_gateway/core/pools.py:112-121 | refused while volumes are in the pool |
| InventoryService.AttachPool | strix_gateway/api/arrays.py:253-282 | moves a pool after a name check only |
| InventoryService.CreateHost | strix_gateway/core/hosts.py:28-51 | refuses a used name |
| InventoryService.AddHostPort | strix_gateway/core/hosts.py:103-134 | appends a port once |
| InventoryService.DeleteHost | strix_gateway/core/hosts.py:137-148 | refused while mapped |
| Outcomes.ArrayOutcome | strix_gateway/core/arrays.py:58-80 | refused exactly for a taken name; otherwise one new row and nothing else |
| Outcomes.EndpointOutcome | strix_gateway/core/endpoints.py:25-50 | refused exactly for an unknown array; otherwise the row with protocol, target and listeners as given |
| Outcomes.EndpointChangeOutcome | strix_gateway/core/endpoints.py:69-86 | target and listeners become what was given or stay, protocol and array stay |
| Outcomes.EndpointRemovalOutcome | strix_gateway/core/endpoints.py:104-112 | exactly the endpoint's row goes, whatever refers to it |
| Outcomes.PoolOutcome | strix_gateway/core/pools.py:34-88 | the order of the refusals, then success exactly when the backend is ensured; after a backend failure no row is committed and SPDK keeps what was done |
| Outcomes.PoolRemovalOutcome | strix_gateway/core/pools.py:112-121 | refused exactly for a pool that is missing or has volumes; SPDK is not touched |
| Outcomes.PoolMoveOutcome | strix_gateway/api/arrays.py:253-282 | refused exactly for a missing row or a name taken on another array; otherwise only the array changes |
| Outcomes.HostOutcome | strix_gateway/core/hosts.py:28-51 | refused exactly for a taken name; otherwise each port list is in its own field |
| Outcomes.PortOutcome | strix_gateway/core/hosts.py:103-134 | the port goes to the end of the list of its type unless it is there, and nothing else changes |
| Outcomes.HostRemovalOutcome | strix_gateway/core/hosts.py:137-148 | refused exactly for a host that is missing or mapped |
| Outcomes.VolumeOutcome | strix_gateway/core/volumes.py:49-107 | the refusals in order, then success exactly when SPDK finds or makes the lvol; the committed row in both cases, in error after a failure |
| Outcomes.VolumeRemovalOutcome | strix_gateway/core/volumes.py:146-178 | deleted exactly when unmapped and SPDK serves the deletion of its bdev, whatever its status; then exactly its row and its lvol are gone |
| Outcomes.VolumeGrowthOutcome | strix_gateway/core/volumes.py:181-210 | grows exactly for a larger size on an existing lvol with the call served, whatever its status; row and lvol get the size; an SPDK error is committed |
| Outcomes.VolumeExpansionOutcome | strix_gateway/core/volumes.py:213-225 | the same for a positive delta, but an SPDK error is not committed |
| MappingService.LunsInUse | strix_gateway/core/mappings.py:172-180 | the list handed to the allocator holds exactly the LUNs of the rows of this host and persona |
| MappingService.AllocateUnderlayId | strix_gateway/core/mappings.py:182-203 | NSID or LUN from the base, least unused among the rows of the underlay endpoint |
| MappingService.WireSpdkUnderlay | strix_gateway/core/mappings.py:226-264 | export, then attach, per protocol; FC needs no call |
| MappingService.CreateMapping | strix_gateway/core/mappings.py:126-223 | error order, endpoint choice, ids, row, wiring and status, equal to the specification from every state |
| MappingService.DeleteMapping | strix_gateway/core/mappings.py:271-315 | detach, drop clean-up errors, delete the row, reset the status when it was the last |
| Outcomes.IdsAreLeast | strix_gateway/core/mappings.py:172-203 | the host LUN is the least from 0 no mapping of the host has on the persona; the underlay id the least no mapping has on the underlay, from 1 on NVMe-oF and from the base otherwise |
| Outcomes.WiresIff | strix_gateway/core/mappings.py:226-264 | the exact replies and SPDK state for which wiring succeeds, per protocol |
| Outcomes.MappingOutcome | strix_gateway/core/mappings.py:126-223 | success exactly for an available or in-use volume, a host, endpoints and a served wiring; the committed row and status, and every error |
| Outcomes.UnmappingOutcome | strix_gateway/core/mappings.py:271-315 | an existing mapping is always unmapped; its volume becomes available whatever its status exactly when it was the last |
| RoundTrips.ArrayFound | strix_gateway/core/arrays.py:58-80 | creation is refused exactly when the name is taken, and the created array is what its name finds |
| RoundTrips.EndpointRoundTrip | strix_gateway/core/endpoints.py:115-148 | a created endpoint is found by id always and by protocol exactly when it is the array's first of that protocol; deleting it restores the tables |
| RoundTrips.UpdateRoundTrip | strix_gateway/core/endpoints.py:69-86 | an update writes what it is given, and writing the old values back undoes it |
| RoundTrips.PoolRoundTrip | strix_gateway/core/pools.py:34-121 | a created pool is what its name finds on its array, and deleting it restores the rows |
| RoundTrips.AttachRoundTrip | strix_gateway/api/arrays.py:253-282 | a pool that was moved can always be moved back, which restores everything |
| RoundTrips.HostRoundTrip | strix_gateway/core/hosts.py:28-51 | refused exactly when the name is taken; found by name with its three port lists; deleting it restores the tables |
| RoundTrips.PortAddedOnce | strix_gateway/core/hosts.py:103-134 | a port goes to the end of its own list once, no other list or row changes, and adding it again changes nothing |
| RoundTrips.VolumeRoundTrip | strix_gateway/core/volumes.py:49-178 | a created volume has an lvol of the requested size, and deleting it restores the database and SPDK |
| RoundTrips.MappingRoundTrip | strix_gateway/core/mappings.py:126-315 | mapping an unmapped volume and unmapping it restores every row, for NVMe-oF every LUN and namespace table, and for iSCSI the tables if and only if the target had no LUN before |
| EndpointChoice.BothIdsHonouredIff | strix_gateway/core/mappings.py:79-90 | two explicit ids are what the mapping gets if and only if both endpoints are of the volume's array |
| EndpointChoice.LonePersonaHonouredIff | strix_gateway/core/mappings.py:92-123 | exactly when a persona id given alone is overridden |
| EndpointChoice.UnderlayHonoured | strix_gateway/core/mappings.py:79-123 | an underlay id is never overridden |
| EndpointChoice.ChoiceIff | strix_gateway/core/mappings.py:60-123 | the pair of endpoints chosen, for all combinations of ids and protocols: the underlay is what id or protocol designate, the persona the oldest FC endpoint where FC is preferred and what id or protocol designate otherwise |
| EndpointChoice.AutomaticChoice | strix_gateway/core/mappings.py:92-123 | without ids an FC host on an array with FC gets the oldest FC persona unless a protocol is chosen; all else defaults to the oldest iSCSI endpoint |
| EndpointChoice.ChoiceError | strix_gateway/core/mappings.py:79-123 | exactly when the choice fails, and with which error |
| ReconcileService.Reconcile | strix_gateway/core/reconcile.py:36-133 | the four loops over a session equal the specified pass for all failing calls and row orders, and end with a commit |
| ReconcileService.ReconcileVolumes | strix_gateway/core/reconcile.py:78-97 | one lvol per row, bdev name updated, failures skipped |
| ReconcileProofs.ReconcileMonotone | strix_gateway/core/reconcile.py:36-133 | from any state and for any failing calls, nothing in SPDK is removed or re-pointed |
| ReconcileSound.ReconcileInv | strix_gateway/core/reconcile.py:63-97 | a pass keeps the database invariant and changes no row but the size of AIO pools |
| ReconcileSound.ReconcileExport | strix_gateway/core/reconcile.py:36-133 | a pass keeps every exposed entry explained by a row, whatever fails |
| ReconcileExact.ReconcileIsolation | strix_gateway/core/reconcile.py:45-131 | a mapping whose own pool, volume, endpoint and mapping calls are served is exposed on its own bdev afterwards, whatever fails elsewhere |
| ReconcileExact.ReconcileExposesOwnIff | strix_gateway/core/reconcile.py:63-131 | from any SPDK state, sound or not, a wanted mapping whose target no other endpoint names, whose lvol is there or whose pool's store no other store keeps out, and whose own chain is served, is exposed on its own bdev after the pass if and only if its id was absent before or its own already |
| ReconcileExact.AddedEntry | strix_gateway/core/reconcile.py:112-131 | from any SPDK state and for any failing calls, every entry a pass adds is that of a mapping whose volume is not in error, on its own bdev |
| ReconcileExact.CleanPassTables | strix_gateway/core/reconcile.py:63-131 | with no failing call, for a target that one endpoint names and whose volumes have an lvol or a pool whose store no other store keeps out: old entries stay as they were and the added ones are exactly the missing entries of wanted mappings, whether the SPDK state was sound or not |
| ReconcileExact.CleanPoolIff | strix_gateway/spdk/ensure.py:95-151 | with no failing call a usable pool gets its lvol store if and only if the store is there or no store sits on its backing bdev |
| ReconcileExact.PoolStoreIff | strix_gateway/core/reconcile.py:63-76 | the same over a whole pass, for a pool whose own calls are served and whose store name no other pool has |
| ReconcileExact.KeptOut | strix_gateway/core/reconcile.py:63-76 | whatever the replies, a store that another one keeps out stays out |
| ReconcileExact.ReconcileExactFromSound | strix_gateway/core/reconcile.py:63-131 | from any sound state the entries after a clean pass are exactly those of rows that are wanted or were exposed before |
| ReconcileExact.ReconcileExactFromEmpty | strix_gateway/core/reconcile.py:63-131 | on an empty SPDK with no failing call the exposed entries are exactly those of mappings whose volume is not in error and whose endpoint names a target, in both directions |
| ReconcileExact.SecondPassIdle | strix_gateway/core/reconcile.py:3-6 | where no lvol store sits in the place of another pool's, sound or not: after a pass with no failing call a second pass changes neither store, even if its own calls fail |
| ReconcileListeners.PassListensIff | strix_gateway/core/reconcile.py:100-110 | from any SPDK state, after a pass that serves an endpoint whose NQN is its own, the subsystem has exactly the endpoint's listeners if and only if it was absent or had them |
| ReconcileListeners.PassShares | strix_gateway/core/reconcile.py:45-61 | groups and transport are there after a pass that serves their calls, whatever endpoints there are |
| RunReconcile.PassRestoresTables | strix_gateway/core/reconcile.py:36-133 | after any export-sound run and a pass with no failing call, LUN and namespace tables are exactly the mapping rows whose volume is not in error or whose entry was there before |
| RunSizes.ReconcileSizeIff | strix_gateway/core/reconcile.py:78-97 | from any SPDK state, a volume that has an lvol or a pool whose store no other store keeps out, and whose own calls are served, has an lvol of exactly its size after a pass if and only if it had none, or one of that size |
| RunSizes.SizesThroughRun | strix_gateway/spdk/ensure.py:158-215 | in every run, restarts included, an lvol that a row names has exactly the row's size |
| RunSizes.PassRestoresSizes | strix_gateway/core/reconcile.py:78-97 | after any export-sound run, restarts included, and a pass, every volume not in error whose own calls are served has an lvol of exactly its size |
| RunSizes.PassPoolSize | strix_gateway/spdk/ensure.py:95-151 | after a pass an AIO pool has the size of its file exactly when the pass made its backing bdev, and its old size otherwise |
| Topology.Validate | strix_gateway/topology/validate.py:23-85 | the reported errors are exactly the faults of the specification, and there are none if and only if names are unique and references resolve |
| Topology.WellFormedIffFaultless | strix_gateway/topology/validate.py:31-83 | the faults characterise well-formedness in both directions |
| ApplyService.ApplyTopology | strix_gateway/topology/apply.py:50-246 | the five loops with their tables and counters equal the specified apply; success commits, an error does not |
| ApplyService.ApplyVolumes | strix_gateway/topology/apply.py:177-213 | the volume loop, with the pool and array look-up of the source |
| ApplyGood.ApplyLater | strix_gateway/topology/apply.py:84-246 | a successful apply keeps all invariants and only adds rows; existing rows change at most a volume status |
| ApplyResidue.ApplyResidues | strix_gateway/topology/apply.py:118-246 | whatever an apply leaves, failed or not, it removes no lvol, reuses no id and keeps sizes in agreement |
| ApplyWires.FailedApplySoundIff | strix_gateway/topology/apply.py:215-246 | a failed apply leaves the exports explained by the rows that remain if and only if no item before the failing one found, before the mapping section, its pair without a row on an array whose first iSCSI endpoint names a target |
| ApplyWires.FailedApplyQuiet | strix_gateway/topology/apply.py:118-246 | under that condition a failed apply changes no LUN and no namespace table |
| ApplyFailure.DiscardSoundIff | strix_gateway/topology/apply.py:215-246 | the same in terms of what is left: the exports stay explained if and only if no row that is discarded has its LUN or namespace |
| ApplyFailure.EarlyFailureWiresNothing | strix_gateway/topology/apply.py:118-213 | after an apply that fails before the mapping section no discarded row has a LUN or namespace |
| ApplyAgain.ApplyIdempotent | strix_gateway/topology/apply.py:84-246 | after a success, applying the specification again succeeds, creates nothing in any section and changes neither store, whatever SPDK answers |
| ApplyAgain.MappingPhaseOne | strix_gateway/topology/apply.py:215-243 | after a successful mapping section each declared pair has exactly one row |
| ApplyCounts.ApplyCountsAll | strix_gateway/topology/apply.py:84-243 | on a validated specification created plus skipped is the number of items of every section |
| Outcomes.ApplyOutcome | strix_gateway/topology/apply.py:245-246 | an apply commits all its rows or none, and its SPDK calls stay either way |
| ApplyDeclared.ApplyMakesArrays | strix_gateway/topology/apply.py:84-116 | every new array and endpoint is declared, an endpoint by the first item of its protocol; every declared array is there with an endpoint of each declared protocol |
| ApplyDeclared.ApplyMakesPools | strix_gateway/topology/apply.py:118-154 | every new pool has the name, array, backend, path and size of an item, for AIO the size of its file; every item on a declared array has its pool |
| ApplyDeclared.ApplyMakesHosts | strix_gateway/topology/apply.py:156-175 | every new host has the three port lists of an item, and every item its host |
| ApplyDeclared.ApplyMakesVolumes | strix_gateway/topology/apply.py:177-213 | every new volume has name and size of an item and lies in the last declared pool of the item's pool name; every item with a declared pool has its volume |
| ApplyDeclared.ApplyMakesMappings | strix_gateway/topology/apply.py:215-243 | every new mapping joins the named host and volume of an item through the oldest endpoint of its protocol, over the oldest iSCSI endpoint from the base up; every item has a row |
| ApplyDeclared.HostAsDeclared | strix_gateway/topology/apply.py:156-175 | a declared host that was not there has exactly the declared ports |
| ApplyDeclared.PoolAsDeclared | strix_gateway/topology/apply.py:118-154 | the same for a pool and its backend, size and path |
| ApplyDeclared.VolumeAsDeclared | strix_gateway/topology/apply.py:177-213 | the same for a volume and its size and pool |
| ApplyDeclared.EndpointAsDeclared | strix_gateway/topology/apply.py:93-116 | the same for an endpoint and its target and listeners |
| ApplyDeclared.MappingAsDeclared | strix_gateway/topology/apply.py:215-243 | the same for a mapping and its host, volume and persona protocol |
| DbSteps.CreateMappingInv | strix_gateway/core/mappings.py:126-223 | the database invariant (unique ids, closure, one array, settled states) survives a creation, failed or not |
| DbSteps.DeleteMappingInv | strix_gateway/core/mappings.py:271-315 | and a deletion |
| DbSteps.CreateVolumeInv | strix_gateway/core/volumes.py:49-107 | and a volume creation, committed even after an error |
| DbSteps.AllocatedFresh | strix_gateway/core/mappings.py:172-203 | the allocated ids are used by no row of their group |
| ExportSteps.FreshInSpdk | strix_gateway/core/mappings.py:182-203 | every id in a target's table is used by a row of its endpoint, so an id fresh in the database is fresh in SPDK |
| ExportSteps.CreateMappingExport | strix_gateway/core/mappings.py:126-264 | a creation keeps every exposed entry explained, failed or not |
| ExportSteps.UnmappedUnexposed | strix_gateway/core/volumes.py:158-178 | a volume the mapping table does not mention is exposed nowhere |
| ExportSteps.DeleteMappingSoundIff | strix_gateway/core/mappings.py:289-306 | a deletion keeps the exports explained if and only if its clean-up call is served or there was no entry |
| SteadySteps.ExtendStatusIff | strix_gateway/core/volumes.py:181-210 | an extension keeps in_use equivalent to mapped if and only if the volume is unmapped |
| SteadySteps.DeleteMappingNvme | strix_gateway/core/mappings.py:289-304 | detaching one namespace leaves the namespace of every other mapping |
| GoodSteps.CreateMappingGood | strix_gateway/core/mappings.py:126-223 | all invariants together survive a creation under each choice of hypotheses |
| GoodSteps.ReconcileGood | strix_gateway/core/reconcile.py:36-133 | and a reconcile pass |
| Runs.StepGood | strix_gateway/api/v1.py:135-311 | every allowed request keeps all invariants |
| Runs.RunGood | strix_gateway/api/v1.py:135-311 | every state of every allowed run from the empty gateway satisfies them |
| Gateway.ServeVolumes | strix_gateway/api/v1.py:135-200 | creating and extending commit after an error too, deleting commits on success only |
| Gateway.ServeMappings | strix_gateway/api/v1.py:285-311 | mapping requests commit on success only |
| Gateway.ServeAll | strix_gateway/api/v1.py:135-311 | serving requests imperatively, one session after the other, is a run, so all run results hold of the classes |
| RunResults.ExposedByOneRow | strix_gateway/core/mappings.py:126-315 | in export-sound runs every exposed LUN and namespace belongs to exactly one mapping row with that endpoint, id and bdev, and the lvol exists |
| RunResults.NamespacesAreRows | strix_gateway/core/mappings.py:126-315 | without restarts the namespace table of every NQN equals the mapping rows, in both directions |
| RunResults.DeletionIsSafe | strix_gateway/core/volumes.py:158-178 | the lvol behind every exposed entry is still there after any request to delete a volume, whatever the replies |
| RunResults.CommittedIsSettled | strix_gateway/core/volumes.py:87-107 | no transient volume status and no detached mapping survives a request |
| RunResults.StatusFollowsMappings | strix_gateway/core/mappings.py:310-315 | in_use implies a mapping, and is equivalent to one when only unmapped volumes are extended |
| RunResults.OneArray | strix_gateway/core/mappings.py:145-170 | every row a mapping refers to exists, and both endpoints, the volume and its pool are of one array |
| RunResults.ListingsPartition | strix_gateway/core/mappings.py:331-342 | every mapping is in the listing of exactly one array, that of its volume |
| RunResults.IdsAreUnique | strix_gateway/core/db.py:227-243 | LUNs per host and persona and underlay ids per endpoint are unique though the schema does not ask for it |
| RunResults.NsidsStartAtOne | strix_gateway/spdk/ensure.py:52-58 | every mapping's underlay row exists, no mapping has NSID 0, and no host LUN is negative |
| RunResults.SizesAgree | strix_gateway/core/volumes.py:181-210 | without restarts every named lvol has exactly the size of its row, through failed extensions |
| TightIds.IdsStayLow | strix_gateway/core/mappings.py:172-203 | with a fixed base every id is below its start plus the peak number of simultaneous mappings of its group |
| SizeHistory.SizeIsSum | strix_gateway/core/volumes.py:181-225 | over any run a volume's size is its earlier size plus the sum of the successful growths, none negative |
| MappingFailures.FailedMappingLeavesNothing | strix_gateway/core/mappings.py:204-264 | whichever call fails, all rows, all LUN and namespace entries and all existing subsystems are as before, and nothing in SPDK is removed |
| MappingFailures.CreationExposesOwnIff | strix_gateway/spdk/ensure.py:321-346 | from any SPDK state a successful creation exposes its own volume if and only if the allocated id was absent or already its own |
| MappingFailures.SoundCreationExposesOwn | strix_gateway/core/mappings.py:182-223 | from a sound state it always does |
| MappingFailures.DeletionKeepsSiblingIff | strix_gateway/core/mappings.py:292-304 | exactly when another mapping loses its entry |
| Counterexamples.StaleEntryExposesOtherVolume | strix_gateway/core/mappings.py:303-304 | two requests after which a dropped clean-up error has made a namespace expose another volume |
| Counterexamples.StaleEntrySurvivesPass | strix_gateway/core/reconcile.py:112-131 | after those two requests a reconcile pass with any replies, all served included, still exposes that other volume under the new mapping's id |
| Counterexamples.BeforeReached | strix_gateway/core/mappings.py:126-223 | the state these start from is reached from the empty gateway by an allowed run under all hypotheses, so every invariant holds of it |
| Counterexamples.FailedApplyLeavesLun | strix_gateway/topology/apply.py:215-246 | a concrete run whose last request is a topology with two mappings, the second refused: no mapping row is left and LUN 0 exposes the first volume |
| Counterexamples.MovedPoolGetsNoStore | strix_gateway/api/arrays.py:253-282 | a concrete pool that is moved and gets no store of its new name from a pass with any replies |
| Counterexamples.SharedReached | strix_gateway/core/mappings.py:182-203 | a concrete run that maps two volumes through one iSCSI endpoint, as LUNs 0 and 1 |
| Counterexamples.DeletionDropsSibling | strix_gateway/core/mappings.py:292-298 | after that run, deleting the first mapping with every call served takes the LUN of the second away |
| Counterexamples.NamedPersonaOverridden | strix_gateway/core/mappings.py:92-110 | a concrete array on which the named iSCSI persona gives way to the FC endpoint |
| Counterexamples.ExtensionForgetsMapping | strix_gateway/core/volumes.py:195-204 | a concrete mapped volume that is available after an extension, and that only the mapping table protects |
| NvmeListeners.CleanExportListensIff | strix_gateway/spdk/ensure.py:271-287 | an export with no failing call yields the endpoint's listeners if and only if the subsystem was new or had them |
| NvmeListeners.FailedListenerSticks | strix_gateway/spdk/ensure.py:271-287 | after a failed listener no later export completes the subsystem |
| HitachiMapper.HitachiIdMapper.RebuildVolumes | strix_gateway/personalities/hitachi/translate.py:116-137 | the loop leaves the maps and the stored numbers of the specification |
| HitachiMapper.HitachiIdMapper.NextLdevId | strix_gateway/personalities/hitachi/translate.py:210-214 | one more than the largest number, or 0 |
| HitachiMapper.HitachiIdMapper.RegisterLdev | strix_gateway/personalities/hitachi/translate.py:216-219 | enters the pair in both maps |
| HitachiMapper.HitachiIdMapper.UnregisterLdev | strix_gateway/personalities/hitachi/translate.py:221-225 | removes a volume and its number from both maps |
| HitachiMapper.LdevService.CreateLdev | strix_gateway/personalities/hitachi/routes.py:419-442 | the requested number, else 0 on an empty index and one above the largest otherwise, is answered, stored in the new row and entered in both maps; the new volume is committed, a failure changes neither rows nor maps; for an unused number the index stays in bijection with the committed volumes |
| HitachiMapper.LdevService.DeleteLdev | strix_gateway/personalities/hitachi/routes.py:526-539 | volume, row and both index entries go together or stay together, and nothing else goes |
| HitachiMapper.LdevService.RefreshMapper | strix_gateway/personalities/hitachi/routes.py:123-158 | a refresh rebuilds the maps and stores new numbers, and changes nothing while index and rows agree; one whose query fails leaves empty maps |
| LdevIndex.FailedRefreshAgreesIff | strix_gateway/personalities/hitachi/routes.py:147-155 | a failed refresh keeps index and rows in agreement if and only if there is no volume |
| LdevIndex.FailedRefreshReusesIff | strix_gateway/personalities/hitachi/translate.py:116-137 | after a failed refresh the next automatic number is 0, and later rebuilds give inverse maps if and only if no volume had 0 |
| LdevIndex.RebuildTwice | strix_gateway/personalities/hitachi/translate.py:116-137 | from any rows a second rebuild gives the rows and maps of the first |
| LdevIndex.RebuildNumbers | strix_gateway/personalities/hitachi/translate.py:126-136 | a rebuild keeps ids and stored numbers; a row without one gets the least number that is beyond all older ones by at least their distance |
| LdevIndex.RebuildInverseIff | strix_gateway/personalities/hitachi/translate.py:116-137 | a rebuild leaves mutually inverse maps if and only if no stored number repeats an older row's |
| LdevIndex.NewestUnnumbered | strix_gateway/personalities/hitachi/translate.py:126-136 | distinct stored numbers with the unnumbered rows newest suffice |
| LdevIndex.UnnumberedBeforeZero | strix_gateway/personalities/hitachi/translate.py:126-136 | an unnumbered row before a stored 0 loses its entry |
| LdevIndex.CreateAgreesIff | strix_gateway/personalities/hitachi/routes.py:428-440 | a creation keeps the agreement if and only if its number is unused |
| LdevIndex.RequestedNumber | strix_gateway/personalities/hitachi/routes.py:428-440 | a requested number is the new volume's number in its row and both maps, and nothing else changes |
| LdevIndex.AutomaticNumber | strix_gateway/personalities/hitachi/translate.py:210-214 | without a request the number is 0 on an empty index and one above the largest otherwise |
| LdevIndex.DeletedNumber | strix_gateway/personalities/hitachi/translate.py:221-225 | a deletion removes exactly the volume's row and its two entries |
| LdevIndex.IndexEqualsRebuild | strix_gateway/personalities/hitachi/routes.py:402-544 | over any creations with automatic or unused numbers, deletions and refreshes that get their rows, the maps stay mutually inverse and equal a rebuild, and a refresh changes nothing |
| HitachiSessions.SessionStore.Create | strix_gateway/personalities/hitachi/sessions.py:43-58 | evicts, issues the next id and enters both dictionaries |
| HitachiSessions.SessionStore.Validate | strix_gateway/personalities/hitachi/sessions.py:60-72 | all four outcomes with their removals |
| HitachiSessions.SessionStore.Delete | strix_gateway/personalities/hitachi/sessions.py:74-83 | removes the session and its token, and says whether it was there |
| HitachiSessions.SessionStore.EvictExpired | strix_gateway/personalities/hitachi/sessions.py:85-92 | removing the listed sessions one by one removes exactly the expired ones |
| Sessions.LateEvictionUnobservable | strix_gateway/personalities/hitachi/sessions.py:43-92 | under a monotone clock and new tokens the dictionaries stay mutually inverse, and a token validates exactly when a store that never evicts says it is alive |
| Sessions.SessionLifetime | strix_gateway/personalities/hitachi/sessions.py:60-72 | a session's token validates, with the data of its creation, exactly until its age exceeds the time to live or it is deleted |
| Sessions.UnissuedFails | strix_gateway/personalities/hitachi/sessions.py:60-72 | a token no login issued never validates |
| Sessions.FailsForever | strix_gateway/personalities/hitachi/sessions.py:60-72 | a token that fails once fails at every later time unless it is issued in between |
| Sessions.IdsIncrease | strix_gateway/personalities/hitachi/sessions.py:46-47 | later sessions have larger ids |
| Sessions.IdsCount | strix_gateway/personalities/hitachi/sessions.py:39-47 | sessions are numbered from 1 in the order of their logins |
| Jobs.JobTracker.SubmitCompleted | strix_gateway/personalities/hitachi/jobs.py:52-68 | the job's id is the number of submissions so far; the history stays the specified window |
| Jobs.JobTracker.SubmitFailed | strix_gateway/personalities/hitachi/jobs.py:70-88 | the same for a failed job with its message |
| Jobs.JobTracker.Get | strix_gateway/personalities/hitachi/jobs.py:90-92 | succeeds exactly for the ids of the window and returns what was submitted under the id |
| Jobs.JobTracker.Store | strix_gateway/personalities/hitachi/jobs.py:94-97 | the eviction loop trims from the front |
| Jobs.HistoryIsWindow | strix_gateway/personalities/hitachi/jobs.py:47-97 | after n submissions the history is the last min(n, max_history) jobs in order |
| Jobs.FindExact | strix_gateway/personalities/hitachi/jobs.py:90-97 | a look-up in that history succeeds exactly for the ids of the window |

## Left out

- The HTTP, CLI, SSH, TLS and virtual-host layers, JSON encoding, the JSON-RPC socket, and fault injection: plumbing around the operations modelled here.
- Other vendor personalities, capability profiles, error texts and response builders: they only read.
- `strix_gateway/core/services.py`: an older duplicate of the mapping service.
- SQLAlchemy: a session is a working copy that is committed or discarded; cascades on delete, and array deletion, are not modelled.
- Interleaving inside one request: requests are serialised.
- Parsing of target and address dictionaries: an endpoint carries its IQN or NQN and its listener list; portal addresses, default listeners, and the model and serial strings of a subsystem are not modelled.
- SPDK failures with an effect: a failing call changes nothing. Lvol store capacity, and lvol stores found again on an AIO file after a restart, are not modelled; a restart empties SPDK.
- Sizes given in GB: they are taken as MiB integers.
- Resolving an array by id: array names are taken to differ from array ids, and vendor and profile fields of arrays are dropped.
- Service operations that only rename or re-describe rows (array, host initiator and volume metadata updates).
- A failing commit, which could leave the LDEV index ahead of the rows until the next refresh.
- HitachiMapper.LdevService.RefreshMapper: the refresh interval, its lock, and the pool and endpoint halves of a rebuild are not modelled; a refresh happens when it is called.
- HitachiMapper.LdevService.CreateLdev: the pool's number is looked up by the caller, every volume belongs to the one array, and the submission of the job is left to `Jobs`.
- A refresh that fails before its volume query: it leaves the LDEV maps alone.
- Hitachi pool, port and host-group numbers, LDEV rename, and the rebuild fallback that reads rows of other arrays: LDEVs are modelled for one array. `max_history` is taken to be at least 0.
- GoodSteps.CreateMappingGood: with `exports`, assumes distinct targets; two endpoints with one IQN share a LUN table but allocate ids separately.
- SpdkClient.SpdkTarget.EnsureTransport: the text match for an "already exists" answer is part of a served call.
