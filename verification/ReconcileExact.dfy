/** What a reconcile pass reaches: isolation of failures, exactness, a second pass. */
module ReconcileExact {
  import opened Model
  import opened Ensure
  import opened Reconcile
  import opened Invariants
  import opened DbSteps
  import opened ReconcileProofs
  import opened ReconcileSound

  // ---- One item whose calls are all served ----------------------------------------------

  /** The name of the lvol store of a pool. */
  function StoreOf(db: Db, pool: Id): string
    requires pool in db.pools
  {
    LvsName(ArrayName(db.arrays, db.pools[pool].arr), db.pools[pool].name)
  }

  predicate PoolUp(db: Db, s: Spdk, pool: Id)
    requires pool in db.pools
  {
    pool in s.backing && StoreOf(db, pool) in s.lvstores
  }

  predicate Ready(s: Spdk, ep: Endpoint) {
    && (ep.protocol == Iscsi ==> s.portalGroup && s.initiatorGroup)
    && (ep.protocol == Nvme && ep.target != "" ==> ep.target in s.subsystems)
  }

  /** The store `lvs` is there, or no store sits on the backing bdev of pool `id`. */
  ghost predicate Placeable(s: Spdk, id: Id, lvs: string) {
    lvs in s.lvstores || forall n :: n in s.lvstores ==> s.lvstores[n] != id
  }

  /** The pool's own store is there, or no store sits on its backing bdev. */
  ghost predicate StoreFree(db: Db, s: Spdk, pool: Id)
    requires pool in db.pools
  {
    Placeable(s, pool, StoreOf(db, pool))
  }

  /** The volume's lvol is there, or its pool can have its store. */
  ghost predicate Provided(db: Db, s: Spdk, v: Id)
    requires v in db.volumes
  {
    Opens(s, db.volumes[v].bdev) || (db.volumes[v].pool in db.pools && StoreFree(db, s, db.volumes[v].pool))
  }

  /** With no failing call a usable pool gets its store exactly when no other store is in its place. */
  lemma CleanPoolIff(s: Spdk, id: Id, p: Pool, arrayName: string, w: Wire)
    requires w.Clean() && BackendUsable(p)
    ensures PoolEnsured(s, id, p, arrayName, w).ok <==> Placeable(s, id, LvsName(arrayName, p.name))
  {
    assert w.Up(GetBackingBdev) && w.Up(CreateBacking) && w.Up(ReadBackingSize) && w.Up(GetLvstore)
        && w.Up(CreateLvstore);
    BackingEffect(s, id, p, w);
    var b := BackingBdev(s, id, p, w);
    var lvs := LvsName(arrayName, p.name);
    assert id in b.s.lvstores.Values <==> exists n :: n in b.s.lvstores && b.s.lvstores[n] == id;
    hide LvsName;
  }

  lemma CleanExport(s: Spdk, ep: Endpoint, w: Wire)
    requires w.Clean()
    ensures Ready(Exported(s, ep, w).s, ep)
  {
    assert w.Up(GetPortalGroups) && w.Up(CreatePortalGroup) && w.Up(GetInitiatorGroups) && w.Up(CreateInitiatorGroup)
           && w.Up(CreateTransport) && w.Up(FindSubsystem) && w.Up(CreateSubsystem);
  }

  lemma CleanAttach(s: Spdk, under: int, bdev: Option<Bdev>, ep: Endpoint, w: Wire)
    requires w.Clean() && Ready(s, ep) && Opens(s, bdev)
    ensures Attach(s, under, bdev, ep, w).ok
  {
  }

  lemma ReadyGrows(s: Spdk, s': Spdk, ep: Endpoint)
    requires Ready(s, ep) && Grows(s, s')
    ensures Ready(s', ep)
  {
  }

  // ---- A clean item is reached by its loop, whatever happens to the others ------------------

  lemma PoolStepReaches(db: Db, y: PoolState, id: Id, w: Wire)
    requires PoolsOk(db.arrays, db.pools) && SamePools(db.pools, y.pools) && id in db.pools
    requires StoreFree(db, y.s, id) && w.Clean()
    ensures PoolUp(db, PoolStep(db.arrays, y, id, w).s, id)
  {
    var p := y.pools[id];
    var arrayName := ArrayName(db.arrays, p.arr);
    assert p == db.pools[id].(sizeMb := p.sizeMb);
    SamePoolsOk(db.arrays, db.pools, y.pools);
    CleanPoolIff(y.s, id, p, arrayName, w);
    PoolEffect(y.s, id, p, arrayName, w);
    hide PoolEnsured, LvsName, PoolsOk, SamePools;
  }

  /** The step of any pool leaves room for the store of `id`. */
  lemma PoolStepLeavesFree(db: Db, y: PoolState, j: Id, w: Wire, id: Id)
    requires SamePools(db.pools, y.pools) && j in db.pools && id in db.pools && StoreFree(db, y.s, id)
    ensures StoreFree(db, PoolStep(db.arrays, y, j, w).s, id)
  {
    var p := y.pools[j];
    assert p == db.pools[j].(sizeMb := p.sizeMb);
    PoolEffect(y.s, j, p, ArrayName(db.arrays, p.arr), w);
    hide PoolEnsured, LvsName, SamePools;
  }

  lemma {:induction false} PoolPassLeavesFree(db: Db, s: Spdk, order: seq<Id>, wires: Wires, serial: Id, id: Id)
    requires PoolsOk(db.arrays, db.pools) && SpdkIssued(s, serial)
    requires forall i :: i in order ==> i in db.pools && i < serial
    requires id in db.pools && StoreFree(db, s, id)
    ensures StoreFree(db, PoolPass(db.arrays, PoolState(db.pools, s), order, wires).s, id)
    decreases |order|
  {
    if order != [] {
      var k := |order| - 1;
      hide PoolsOk, PoolStep, SpdkIssued, SamePools, StoreFree;
      assert forall i :: i in order[..k] ==> i in order;
      PoolPassOk(db, s, order[..k], wires, serial);
      PoolPassLeavesFree(db, s, order[..k], wires, serial, id);
      PoolStepLeavesFree(db, PoolPass(db.arrays, PoolState(db.pools, s), order[..k], wires), order[k],
                         wires(PoolSite(order[k])), id);
    }
  }

  lemma {:induction false} PoolPassReaches(db: Db, s: Spdk, order: seq<Id>, wires: Wires, serial: Id, id: Id)
    requires PoolsOk(db.arrays, db.pools) && SpdkIssued(s, serial)
    requires forall i :: i in order ==> i in db.pools && i < serial
    requires id in order && wires(PoolSite(id)).Clean() && StoreFree(db, s, id)
    ensures PoolUp(db, PoolPass(db.arrays, PoolState(db.pools, s), order, wires).s, id)
    decreases |order|
  {
    var k := |order| - 1;
    var y := PoolPass(db.arrays, PoolState(db.pools, s), order[..k], wires);
    hide PoolsOk, PoolStep, SpdkIssued, SamePools, Grows, PoolUp, StoreFree;
    assert order == order[..k] + [order[k]];
    assert forall i :: i in order[..k] ==> i in order;
    PoolPassOk(db, s, order[..k], wires, serial);
    var w := wires(PoolSite(order[k]));
    if order[k] == id {
      PoolPassLeavesFree(db, s, order[..k], wires, serial, id);
      PoolStepReaches(db, y, id, w);
    } else {
      PoolPassReaches(db, s, order[..k], wires, serial, id);
      PoolStepGrows(db.arrays, y, order[k], w);
      PoolUpGrows(db, y.s, PoolStep(db.arrays, y, order[k], w).s, id);
    }
  }

  lemma PoolUpGrows(db: Db, s: Spdk, s': Spdk, id: Id)
    requires id in db.pools && PoolUp(db, s, id) && Grows(s, s')
    ensures PoolUp(db, s', id)
  {
  }

  lemma PoolStepGrows(arrays: map<Id, Array>, y: PoolState, id: Id, w: Wire)
    requires id in y.pools
    ensures Grows(y.s, PoolStep(arrays, y, id, w).s)
  {
    hide PoolEnsured, Grows;
    PoolGrows(y.s, id, y.pools[id], ArrayName(arrays, y.pools[id].arr), w);
  }

  lemma VolumeStepReaches(arrays: map<Id, Array>, pools: map<Id, Pool>, x: VolumeState, id: Id, w: Wire)
    requires VolumesOk(arrays, pools, x.volumes) && id in x.volumes && x.volumes[id].status != InError && w.Clean()
    requires x.volumes[id].pool in pools
        && LvsName(ArrayName(arrays, x.volumes[id].arr), pools[x.volumes[id].pool].name) in x.s.lvstores
    ensures Opens(VolumeStep(arrays, pools, x, id, w).s, x.volumes[id].bdev)
  {
    assert w.Up(GetLvolBdev) && w.Up(CreateLvol);
    assert VolumeOk(arrays, pools, id, x.volumes[id]);
    hide LvsName, VolumesOk;
  }

  lemma {:induction false} VolumePassReaches(arrays: map<Id, Array>, pools: map<Id, Pool>, volumes: map<Id, Volume>,
          s: Spdk, order: seq<Id>, wires: Wires, serial: Id, id: Id)
    requires VolumesOk(arrays, pools, volumes) && SpdkIssued(s, serial)
    requires forall i :: i in order ==> i in volumes && volumes[i].status != InError && i < serial
    requires id in order && wires(VolumeSite(id)).Clean()
    requires volumes[id].pool in pools
        && LvsName(ArrayName(arrays, volumes[id].arr), pools[volumes[id].pool].name) in s.lvstores
    ensures Opens(VolumePass(arrays, pools, VolumeState(volumes, s), order, wires).s, volumes[id].bdev)
    decreases |order|
  {
    var k := |order| - 1;
    hide VolumesOk, LvsName, VolumeStep, SpdkIssued, TablesGrow;
    VolumePassOk(arrays, pools, volumes, s, order[..k], wires, serial);
    var y := VolumePass(arrays, pools, VolumeState(volumes, s), order[..k], wires);
    var w := wires(VolumeSite(order[k]));
    if order[k] == id {
      VolumeStepReaches(arrays, pools, y, id, w);
    } else {
      assert order == order[..k] + [order[k]];
      VolumePassReaches(arrays, pools, volumes, s, order[..k], wires, serial, id);
      VolumeStepGrows(arrays, pools, y, order[k], w);
    }
  }

  lemma {:induction false} EndpointPassReaches(endpoints: map<Id, Endpoint>, s: Spdk, order: seq<Id>, wires: Wires,
          id: Id)
    requires forall i :: i in order ==> i in endpoints
    requires id in order && wires(EndpointSite(id)).Clean()
    ensures Ready(EndpointPass(endpoints, s, order, wires), endpoints[id])
    decreases |order|
  {
    var k := |order| - 1;
    hide Ready, Exported, Grows;
    var y := EndpointPass(endpoints, s, order[..k], wires);
    var w := wires(EndpointSite(order[k]));
    if order[k] == id {
      CleanExport(y, endpoints[id], w);
    } else {
      assert order == order[..k] + [order[k]];
      EndpointPassReaches(endpoints, s, order[..k], wires, id);
      ExportGrows(y, endpoints[order[k]], w);
      ReadyGrows(y, Exported(y, endpoints[order[k]], w).s, endpoints[id]);
    }
  }

  /** A mapping the loop wires: its volume is not in error and its endpoint names a target. */
  predicate Wanted(db: Db, m: Id) {
    && m in db.mappings && db.mappings[m].volume in LiveVolumes(db.volumes)
    && db.mappings[m].underlay in db.endpoints && Exports(db.endpoints[db.mappings[m].underlay])
  }

  /** The table its endpoint fills. */
  function TableOf(db: Db, s: Spdk, m: Id): map<int, Bdev>
    requires m in db.mappings && db.mappings[m].underlay in db.endpoints
  {
    Table(s, db.endpoints[db.mappings[m].underlay].protocol, db.endpoints[db.mappings[m].underlay].target)
  }

  lemma MappingStepReaches(db: Db, s: Spdk, id: Id, w: Wire)
    requires Wanted(db, id) && w.Clean()
    requires Ready(s, db.endpoints[db.mappings[id].underlay]) && Opens(s, db.volumes[db.mappings[id].volume].bdev)
    ensures db.mappings[id].under in TableOf(db, MappingStep(db, s, id, w), id)
  {
    var m := db.mappings[id];
    hide Ready, Attach, Table, Opens, OnlyTable;
    CleanAttach(s, m.under, db.volumes[m.volume].bdev, db.endpoints[m.underlay], w);
    AttachEffect(s, m.under, db.volumes[m.volume].bdev, db.endpoints[m.underlay], w);
  }

  lemma {:induction false} MappingPassReaches(db: Db, s: Spdk, order: seq<Id>, wires: Wires, id: Id)
    requires forall i :: i in order ==> i in db.mappings
    requires id in order && wires(MappingSite(id)).Clean() && Wanted(db, id)
    requires Ready(s, db.endpoints[db.mappings[id].underlay]) && Opens(s, db.volumes[db.mappings[id].volume].bdev)
    ensures db.mappings[id].under in TableOf(db, MappingPass(db, s, order, wires), id)
    decreases |order|
  {
    var k := |order| - 1;
    hide Ready, MappingStep, Table;
    var y := MappingPass(db, s, order[..k], wires);
    var w := wires(MappingSite(order[k]));
    MappingPassGrows(db, s, order[..k], wires);
    if order[k] == id {
      ReadyGrows(s, y, db.endpoints[db.mappings[id].underlay]);
      MappingStepReaches(db, y, id, w);
    } else {
      assert order == order[..k] + [order[k]];
      MappingPassReaches(db, s, order[..k], wires, id);
      MappingStepGrows(db, y, order[k], w);
    }
  }

  // ---- Isolation -----------------------------------------------------------------------------

  /** No call of the mapping's own chain fails: its pool, its volume, its endpoint, itself. */
  ghost predicate ChainClean(db: Db, m: Id, wires: Wires)
    requires m in db.mappings && db.mappings[m].volume in db.volumes
  {
    && wires(PoolSite(db.volumes[db.mappings[m].volume].pool)).Clean()
    && wires(VolumeSite(db.mappings[m].volume)).Clean()
    && wires(EndpointSite(db.mappings[m].underlay)).Clean()
    && wires(MappingSite(m)).Clean()
  }

  lemma ReachesPool(w: World, o: RowOrder, wires: Wires, p: Id)
    requires Inv(w) && OrderOf(o, w.db)
    requires p in w.db.pools && wires(PoolSite(p)).Clean() && StoreFree(w.db, w.spdk, p)
    ensures PoolUp(w.db, AfterPools(w, o, wires).s, p)
  {
    SharedOnly(w.spdk, wires);
    var s2 := AfterShared(w.spdk, wires);
    assert p in o.pools;
    hide ArraysOk, EndpointsOk, PoolsOk, HostsOk, VolumesOk, MappingsOk, LunsUnique, UnderUnique, InUseMapped,
         AfterShared, PoolPass, PoolUp, LvsName;
    PoolPassReaches(w.db, s2, o.pools, wires, w.serial, p);
  }

  /** No other pool's store has the same name. */
  ghost predicate OwnStoreName(db: Db, id: Id)
    requires id in db.pools
  {
    forall j :: j in db.pools && j != id ==> StoreOf(db, j) != StoreOf(db, id)
  }

  lemma PoolStepKeepsOut(db: Db, y: PoolState, j: Id, w: Wire, id: Id)
    requires SamePools(db.pools, y.pools) && j in db.pools && id in db.pools && !StoreFree(db, y.s, id)
    requires OwnStoreName(db, id)
    ensures !StoreFree(db, PoolStep(db.arrays, y, j, w).s, id)
  {
    var p := y.pools[j];
    assert p == db.pools[j].(sizeMb := p.sizeMb);
    var n :| n in y.s.lvstores && y.s.lvstores[n] == id;
    PoolStepGrows(db.arrays, y, j, w);
    if j == id {
      BackingEffect(y.s, j, p, w);
      assert id in y.s.lvstores.Values;
    } else {
      PoolEffect(y.s, j, p, ArrayName(db.arrays, p.arr), w);
      hide PoolEnsured;
    }
    hide LvsName, SamePools, BackingBdev;
    var s' := PoolStep(db.arrays, y, j, w).s;
    assert n in s'.lvstores && s'.lvstores[n] == id;
  }

  lemma {:induction false} PoolPassKeepsOut(db: Db, s: Spdk, order: seq<Id>, wires: Wires, serial: Id, id: Id)
    requires PoolsOk(db.arrays, db.pools) && SpdkIssued(s, serial)
    requires forall i :: i in order ==> i in db.pools && i < serial
    requires id in db.pools && OwnStoreName(db, id) && !StoreFree(db, s, id)
    ensures !StoreFree(db, PoolPass(db.arrays, PoolState(db.pools, s), order, wires).s, id)
    decreases |order|
  {
    if order != [] {
      var k := |order| - 1;
      hide PoolsOk, PoolStep, SpdkIssued, SamePools, StoreFree, OwnStoreName;
      assert forall i :: i in order[..k] ==> i in order;
      PoolPassOk(db, s, order[..k], wires, serial);
      PoolPassKeepsOut(db, s, order[..k], wires, serial, id);
      PoolStepKeepsOut(db, PoolPass(db.arrays, PoolState(db.pools, s), order[..k], wires), order[k],
                       wires(PoolSite(order[k])), id);
    }
  }

  /** Only the pool loop makes stores. */
  lemma PassStores(w: World, o: RowOrder, wires: Wires)
    requires Inv(w) && OrderOf(o, w.db)
    ensures Reconciled(w, o, wires).spdk.lvstores == AfterPools(w, o, wires).s.lvstores
  {
    LiveOrder(o, w.db, w.serial);
    ListedMappings(o, w.db);
    hide DbOk, Issued, AfterPools, VolumePass, EndpointPass, MappingPass, SamePools, SpdkIssued, VolumesOk,
         SameNamespaces;
    AfterPoolsOk(w, o, wires);
    AfterVolumesOk(w, o, wires);
    EndpointPassOnly(w.db.endpoints, AfterVolumes(w, o, wires).s, o.endpoints, wires);
    MappingPassStorage(DbAfter(w, o, wires), AfterEndpoints(w, o, wires), o.mappings, wires);
  }

  /** A store that another keeps out stays out, whatever the replies. */
  lemma KeptOut(w: World, o: RowOrder, wires: Wires, p: Id)
    requires Inv(w) && OrderOf(o, w.db) && p in w.db.pools && OwnStoreName(w.db, p) && !StoreFree(w.db, w.spdk, p)
    ensures !StoreFree(w.db, Reconciled(w, o, wires).spdk, p)
  {
    SharedOnly(w.spdk, wires);
    PassStores(w, o, wires);
    hide ArraysOk, EndpointsOk, HostsOk, VolumesOk, MappingsOk, LunsUnique, UnderUnique, InUseMapped, PoolsOk,
         AfterShared, PoolPass, LvsName, Reconciled, OwnStoreName;
    PoolPassKeepsOut(w.db, AfterShared(w.spdk, wires), o.pools, wires, w.serial, p);
  }

  /** From any SPDK state: a pool whose calls are served, and whose store name is its own, has its store
      after the pass if and only if it had it before or no store sat on its backing bdev. */
  lemma PoolStoreIff(w: World, o: RowOrder, wires: Wires, p: Id)
    requires Inv(w) && OrderOf(o, w.db) && p in w.db.pools && OwnStoreName(w.db, p) && wires(PoolSite(p)).Clean()
    ensures StoreOf(w.db, p) in Reconciled(w, o, wires).spdk.lvstores <==> StoreFree(w.db, w.spdk, p)
  {
    PassStores(w, o, wires);
    if StoreFree(w.db, w.spdk, p) {
      hide Inv, OrderOf, AfterShared, AfterPools, LvsName, Reconciled;
      ReachesPool(w, o, wires, p);
    } else {
      hide Inv, OrderOf, LvsName, Reconciled, OwnStoreName;
      KeptOut(w, o, wires, p);
    }
  }

  lemma ReachesVolume(w: World, o: RowOrder, wires: Wires, v: Id)
    requires Inv(w) && OrderOf(o, w.db) && v in LiveVolumes(w.db.volumes) && Provided(w.db, w.spdk, v)
    requires wires(VolumeSite(v)).Clean() && wires(PoolSite(w.db.volumes[v].pool)).Clean()
    ensures Opens(AfterVolumes(w, o, wires).s, w.db.volumes[v].bdev)
  {
    if Opens(w.spdk, w.db.volumes[v].bdev) {
      SharedOnly(w.spdk, wires);
      PassGrows(w, o, wires);
      hide Inv, OrderOf, AfterShared, AfterPools, AfterVolumes, AfterEndpoints, Reconciled, TablesGrow;
      OpensGrows(AfterShared(w.spdk, wires), AfterPools(w, o, wires).s, w.db.volumes[v].bdev);
      OpensGrows(AfterPools(w, o, wires).s, AfterVolumes(w, o, wires).s, w.db.volumes[v].bdev);
    } else {
      ReachesNewVolume(w, o, wires, v);
    }
  }

  lemma OpensGrows(s: Spdk, s': Spdk, bdev: Option<Bdev>)
    requires Opens(s, bdev) && Grows(s, s')
    ensures Opens(s', bdev)
  {
    hide TablesGrow;
  }

  lemma ReachesNewVolume(w: World, o: RowOrder, wires: Wires, v: Id)
    requires Inv(w) && OrderOf(o, w.db) && v in LiveVolumes(w.db.volumes)
    requires w.db.volumes[v].pool in w.db.pools && StoreFree(w.db, w.spdk, w.db.volumes[v].pool)
    requires wires(VolumeSite(v)).Clean() && wires(PoolSite(w.db.volumes[v].pool)).Clean()
    ensures Opens(AfterVolumes(w, o, wires).s, w.db.volumes[v].bdev)
  {
    var p := w.db.volumes[v].pool;
    ReachesPool(w, o, wires, p);
    AfterPoolsOk(w, o, wires);
    LiveOrder(o, w.db, w.serial);
    assert v in o.volumes;
    var x := AfterPools(w, o, wires);
    assert VolumeOk(w.db.arrays, w.db.pools, v, w.db.volumes[v]);
    assert x.pools[p].name == w.db.pools[p].name;
    hide DbOk, VolumesOk, AfterPools, VolumePass, SamePools, SpdkIssued, LvsName;
    VolumePassReaches(w.db.arrays, x.pools, w.db.volumes, x.s, o.volumes, wires, w.serial, v);
  }

  lemma ReachesMapping(w: World, o: RowOrder, wires: Wires, m: Id)
    requires Inv(w) && OrderOf(o, w.db)
    requires Wanted(w.db, m) && ChainClean(w.db, m, wires) && Provided(w.db, w.spdk, w.db.mappings[m].volume)
    ensures w.db.mappings[m].under in TableOf(w.db, Reconciled(w, o, wires).spdk, m)
  {
    var row := w.db.mappings[m];
    var v := row.volume;
    Unfold(w.db, v);
    BdevOfMapped(w.db, m);
    assert m in AttachedMappings(w.db.mappings);
    assert m in o.mappings && row.underlay in o.endpoints;
    ReachesVolume(w, o, wires, v);
    PassGrows(w, o, wires);
    ReconcileInv(w, o, wires);
    AfterVolumesOk(w, o, wires);
    var s3 := AfterEndpoints(w, o, wires);
    hide DbOk, Issued, AfterPools, AfterVolumes, MappingPass, SpdkIssued, Ready, TablesGrow, Table, SamePools;
    EndpointPassReaches(w.db.endpoints, AfterVolumes(w, o, wires).s, o.endpoints, wires, row.underlay);
    var db := DbAfter(w, o, wires);
    MappingPassReaches(db, s3, o.mappings, wires, m);
  }

  /** An entry under the id of a row exposes the bdev of that row's volume. */
  lemma EntryIsOwn(db: Db, s: Spdk, m: Id)
    requires UnderUnique(db.mappings) && Distinct(db.endpoints) && Sound(db, s) && Wanted(db, m)
    requires db.mappings[m].under in TableOf(db, s, m)
    ensures Some(TableOf(db, s, m)[db.mappings[m].under]) == db.volumes[db.mappings[m].volume].bdev
  {
  }

  /** The mapping's volume is exposed under its id. */
  ghost predicate ExposedOwn(db: Db, s: Spdk, m: Id)
    requires Wanted(db, m)
  {
    && db.mappings[m].under in TableOf(db, s, m)
    && Some(TableOf(db, s, m)[db.mappings[m].under]) == db.volumes[db.mappings[m].volume].bdev
  }

  /** A step adds at most the entry of its own row. */
  lemma MappingStepEntry(db: Db, s: Spdk, id: Id, w: Wire, p: Protocol, t: string, n: int)
    requires id in db.mappings && n in Table(MappingStep(db, s, id, w), p, t) && n !in Table(s, p, t)
    ensures Wanted(db, id) && Backs(db, id, p, t, n, Table(MappingStep(db, s, id, w), p, t)[n])
  {
    var m := db.mappings[id];
    if m.volume in LiveVolumes(db.volumes) && m.underlay in db.endpoints {
      var ep, bdev := db.endpoints[m.underlay], db.volumes[m.volume].bdev;
      hide Attach, Table;
      AttachEffect(s, m.under, bdev, ep, w);
    }
  }

  lemma {:induction false} MappingPassEntry(db: Db, s: Spdk, order: seq<Id>, wires: Wires, p: Protocol, t: string,
          n: int)
    returns (m: Id)
    requires forall id :: id in order ==> id in db.mappings
    requires n in Table(MappingPass(db, s, order, wires), p, t) && n !in Table(s, p, t)
    ensures Wanted(db, m) && Backs(db, m, p, t, n, Table(MappingPass(db, s, order, wires), p, t)[n])
    decreases |order|
  {
    assert order != [];
    var k := |order| - 1;
    var y := MappingPass(db, s, order[..k], wires);
    hide Table, MappingStep, Wanted, Backs;
    if n in Table(y, p, t) {
      m := MappingPassEntry(db, s, order[..k], wires, p, t, n);
      MappingStepGrows(db, y, order[k], wires(MappingSite(order[k])));
    } else {
      m := order[k];
      MappingStepEntry(db, y, m, wires(MappingSite(m)), p, t, n);
    }
  }

  /** Every entry a pass adds, from any SPDK state and for any failing calls, is that of a wanted
      mapping on its own bdev. */
  lemma AddedEntry(w: World, o: RowOrder, wires: Wires, p: Protocol, t: string, n: int) returns (m: Id)
    requires Inv(w) && OrderOf(o, w.db)
    requires n in Table(Reconciled(w, o, wires).spdk, p, t) && n !in Table(w.spdk, p, t)
    ensures Wanted(w.db, m) && Backs(w.db, m, p, t, n, Table(Reconciled(w, o, wires).spdk, p, t)[n])
  {
    hide Inv, DbAfter, AfterEndpoints, MappingPass, Table, SamePools, Claims, SpdkIssued, SameNamespaces, LiveVolumes,
         AttachedMappings;
    PassRows(w, o, wires);
    SameTable(w.spdk, AfterEndpoints(w, o, wires), p, t);
    ListedMappings(o, w.db);
    m := MappingPassEntry(DbAfter(w, o, wires), AfterEndpoints(w, o, wires), o.mappings, wires, p, t, n);
  }

  /** An entry that was there before the pass is there afterwards, as it was. */
  lemma OldEntry(w: World, o: RowOrder, wires: Wires, p: Protocol, t: string, n: int)
    requires OrderOf(o, w.db) && n in Table(w.spdk, p, t)
    ensures n in Table(Reconciled(w, o, wires).spdk, p, t)
    ensures Table(Reconciled(w, o, wires).spdk, p, t)[n] == Table(w.spdk, p, t)[n]
  {
    hide Reconciled, Table, OrderOf;
    ReconcileMonotone(w, o, wires);
  }

  /** No other endpoint names the mapping's target. */
  ghost predicate SoleTarget(db: Db, m: Id)
    requires Wanted(db, m)
  {
    var ep := db.endpoints[db.mappings[m].underlay];
    forall e :: e in db.endpoints && db.endpoints[e].protocol == ep.protocol && db.endpoints[e].target == ep.target ==>
      e == db.mappings[m].underlay
  }

  lemma DistinctSole(db: Db, m: Id)
    requires Distinct(db.endpoints) && Wanted(db, m)
    ensures SoleTarget(db, m)
  {
  }

  /** The row behind an added entry is the only one with its endpoint and id. */
  lemma AddedIsOwn(w: World, s: Spdk, m: Id, k: Id)
    requires UnderUnique(w.db.mappings) && Wanted(w.db, m) && SoleTarget(w.db, m)
    requires w.db.mappings[m].under in TableOf(w.db, s, m)
    requires var ep := w.db.endpoints[w.db.mappings[m].underlay];
      Backs(w.db, k, ep.protocol, ep.target, w.db.mappings[m].under, TableOf(w.db, s, m)[w.db.mappings[m].under])
    ensures ExposedOwn(w.db, s, m)
  {
    hide Table;
    assert w.db.mappings[k].underlay == w.db.mappings[m].underlay;
  }

  /** From any SPDK state, sound or not: a wanted mapping whose target is its endpoint's alone, whose lvol
      is there or whose pool's store is not kept out by another, and whose own chain has no failing call,
      is exposed on its own bdev after the pass if and only if its id was absent before, or was its own
      already. */
  lemma ReconcileExposesOwnIff(w: World, o: RowOrder, wires: Wires, m: Id)
    requires Wanted(w.db, m) && SoleTarget(w.db, m) && Provided(w.db, w.spdk, w.db.mappings[m].volume)
    requires Inv(w) && OrderOf(o, w.db) && ChainClean(w.db, m, wires)
    ensures ExposedOwn(w.db, Reconciled(w, o, wires).spdk, m) <==>
      w.db.mappings[m].under !in TableOf(w.db, w.spdk, m) || ExposedOwn(w.db, w.spdk, m)
  {
    var r := Reconciled(w, o, wires);
    var ep, n := w.db.endpoints[w.db.mappings[m].underlay], w.db.mappings[m].under;
    assert UnderUnique(w.db.mappings);
    hide Reconciled, Inv, Provided, SoleTarget, Table, UnderUnique, ChainClean, OrderOf, Backs, LiveVolumes;
    ReachesMapping(w, o, wires, m);
    if n in TableOf(w.db, w.spdk, m) {
      OldEntry(w, o, wires, ep.protocol, ep.target, n);
    } else {
      var k := AddedEntry(w, o, wires, ep.protocol, ep.target, n);
      AddedIsOwn(w, r.spdk, m, k);
    }
  }

  /** Where every store carries its pool's name, nothing keeps a store out. */
  lemma ClaimsFree(db: Db, s: Spdk, p: Id)
    requires PoolsOk(db.arrays, db.pools) && Claims(db, s) && p in db.pools
    ensures StoreFree(db, s, p)
  {
    hide LvsName;
  }

  lemma ClaimsProvide(db: Db, s: Spdk, v: Id)
    requires DbOk(db) && Claims(db, s) && v in db.volumes
    ensures Provided(db, s, v)
  {
    hide Claims, LvsName, StoreFree;
    Unfold(db, v);
    ClaimsFree(db, s, db.volumes[v].pool);
  }

  /** Failure isolation: from any sound state, a mapping whose own chain has no failing call is
      exposed on its own bdev after the pass, whatever calls failed for other items, for the shared
      groups and for the transport.  In particular every LUN that an iSCSI target deletion dropped
      is restored. */
  lemma ReconcileIsolation(w: World, o: RowOrder, wires: Wires, m: Id)
    requires Wanted(w.db, m) && ChainClean(w.db, m, wires)
    requires OrderOf(o, w.db) && Inv(w) && ExportInv(w)
    ensures ExposedOwn(w.db, Reconciled(w, o, wires).spdk, m)
  {
    assert UnderUnique(w.db.mappings);
    hide Reconciled, Inv, NoDangling, Claims, Sound, Distinct, Table, UnderUnique, ChainClean, OrderOf, LiveVolumes;
    DistinctSole(w.db, m);
    ClaimsProvide(w.db, w.spdk, w.db.mappings[m].volume);
    ReconcileExposesOwnIff(w, o, wires, m);
    if w.db.mappings[m].under in TableOf(w.db, w.spdk, m) {
      EntryIsOwn(w.db, w.spdk, m);
    }
  }

  // ---- Exactness ------------------------------------------------------------------------------

  /** Every call of the pass is served. */
  ghost predicate AllClean(wires: Wires) { forall site :: wires(site).Clean() }

  lemma CleanChain(db: Db, m: Id, wires: Wires)
    requires Wanted(db, m) && AllClean(wires)
    ensures db.mappings[m].volume in db.volumes && ChainClean(db, m, wires)
  {
  }

  lemma OwnEntry(db: Db, s: Spdk, m: Id, p: Protocol, t: string, n: int, b: Bdev)
    requires Wanted(db, m) && Backs(db, m, p, t, n, b)
    ensures ExposedOwn(db, s, m) ==> n in Table(s, p, t) && Table(s, p, t)[n] == b
    ensures db.mappings[m].under in TableOf(db, s, m) <==> n in Table(s, p, t)
  {
  }

  /** At most one endpoint of the protocol names the target. */
  ghost predicate OneNames(db: Db, p: Protocol, t: string) {
    t != "" ==>
      forall e, f | e in db.endpoints && f in db.endpoints && db.endpoints[e].protocol == db.endpoints[f].protocol == p
                    && db.endpoints[e].target == db.endpoints[f].target == t :: e == f
  }

  lemma OneNamesSole(db: Db, m: Id, p: Protocol, t: string, n: int, b: Bdev)
    requires OneNames(db, p, t) && Wanted(db, m) && Backs(db, m, p, t, n, b)
    ensures SoleTarget(db, m)
  {
  }

  lemma DistinctNames(db: Db, p: Protocol, t: string)
    requires Distinct(db.endpoints)
    ensures OneNames(db, p, t)
  {
  }

  /** Every wanted mapping with an entry in this place can have its lvol. */
  ghost predicate AllProvided(db: Db, s: Spdk, p: Protocol, t: string) {
    forall m, n, b :: Wanted(db, m) && Backs(db, m, p, t, n, b) ==> Provided(db, s, db.mappings[m].volume)
  }

  /** From any SPDK state, sound or not, with no failing call, for a target that one endpoint names and
      whose volumes can have their lvols: entries that were there stay as they were, and what is added is
      exactly the missing entries of wanted mappings, each on its own bdev. */
  lemma CleanPassTables(w: World, o: RowOrder, wires: Wires, p: Protocol, t: string, n: int, b: Bdev)
    requires Inv(w) && OneNames(w.db, p, t) && AllProvided(w.db, w.spdk, p, t) && OrderOf(o, w.db) && AllClean(wires)
    ensures var before, after := Table(w.spdk, p, t), Table(Reconciled(w, o, wires).spdk, p, t);
      n in after && after[n] == b <==>
      if n in before then before[n] == b else exists m :: Wanted(w.db, m) && Backs(w.db, m, p, t, n, b)
  {
    var s := Reconciled(w, o, wires).spdk;
    hide Inv, Reconciled, OneNames, Provided, OrderOf, Table, Wanted, Backs, AllClean, ChainClean, ExposedOwn;
    if n in Table(w.spdk, p, t) {
      OldEntry(w, o, wires, p, t, n);
    } else {
      if n in Table(s, p, t) {
        var k := AddedEntry(w, o, wires, p, t, n);
      }
      if m :| Wanted(w.db, m) && Backs(w.db, m, p, t, n, b) {
        WantedIsAdded(w, o, wires, m, p, t, n, b);
      }
    }
  }

  lemma WantedIsAdded(w: World, o: RowOrder, wires: Wires, m: Id, p: Protocol, t: string, n: int, b: Bdev)
    requires Inv(w) && OneNames(w.db, p, t) && OrderOf(o, w.db) && AllClean(wires)
    requires Wanted(w.db, m) && Provided(w.db, w.spdk, w.db.mappings[m].volume)
    requires Backs(w.db, m, p, t, n, b) && n !in Table(w.spdk, p, t)
    ensures var s := Reconciled(w, o, wires).spdk; n in Table(s, p, t) && Table(s, p, t)[n] == b
  {
    hide Inv, Reconciled, OneNames, Provided, OrderOf, Table, Backs, AllClean, ChainClean, ExposedOwn, TableOf,
         LiveVolumes;
    CleanChain(w.db, m, wires);
    OwnEntry(w.db, w.spdk, m, p, t, n, b);
    OwnEntry(w.db, Reconciled(w, o, wires).spdk, m, p, t, n, b);
    OneNamesSole(w.db, m, p, t, n, b);
    ReconcileExposesOwnIff(w, o, wires, m);
  }

  lemma ClaimsProvideAll(db: Db, s: Spdk, p: Protocol, t: string)
    requires DbOk(db) && Claims(db, s)
    ensures AllProvided(db, s, p, t)
  {
    hide DbOk, Claims, Provided, Backs;
    forall m, n, b | Wanted(db, m) && Backs(db, m, p, t, n, b)
      ensures Provided(db, s, db.mappings[m].volume)
    {
      ClaimsProvide(db, s, db.mappings[m].volume);
    }
  }

  /** Started on an empty SPDK with no failing call, a pass exposes exactly the wanted mappings,
      each on the bdev of its own volume. */
  lemma ReconcileExactFromEmpty(w: World, o: RowOrder, wires: Wires, p: Protocol, t: string, n: int, b: Bdev)
    requires Inv(w) && Distinct(w.db.endpoints) && w.spdk == EMPTY_SPDK && OrderOf(o, w.db) && AllClean(wires)
    ensures var s := Reconciled(w, o, wires).spdk;
      n in Table(s, p, t) && Table(s, p, t)[n] == b <==> exists m :: Wanted(w.db, m) && Backs(w.db, m, p, t, n, b)
  {
    assert Claims(w.db, EMPTY_SPDK);
    assert Table(w.spdk, p, t) == map[];
    hide DbOk, Issued, Reconciled, Distinct, Claims, OrderOf, Table, Wanted, Backs, AllClean, AllProvided, OneNames;
    DistinctNames(w.db, p, t);
    ClaimsProvideAll(w.db, w.spdk, p, t);
    CleanPassTables(w, o, wires, p, t, n, b);
  }

  /** From any sound state with no failing call, the entries after a pass are exactly those of the
      rows that are wanted or were exposed before: only a volume in error with no entry, or an
      endpoint without a target, keeps a mapping out. */
  lemma ReconcileExactFromSound(w: World, o: RowOrder, wires: Wires, p: Protocol, t: string, n: int, b: Bdev)
    requires Inv(w) && ExportInv(w) && OrderOf(o, w.db) && AllClean(wires)
    ensures var s := Reconciled(w, o, wires).spdk;
      n in Table(s, p, t) && Table(s, p, t)[n] == b <==>
      exists m :: Backs(w.db, m, p, t, n, b) && (Wanted(w.db, m) || n in Table(w.spdk, p, t))
  {
    assert UnderUnique(w.db.mappings);
    hide DbOk, Issued, Reconciled, Distinct, Claims, NoDangling, OrderOf, Table, Wanted, Backs, AllClean, UnderUnique,
         AllProvided, OneNames;
    DistinctNames(w.db, p, t);
    ClaimsProvideAll(w.db, w.spdk, p, t);
    CleanPassTables(w, o, wires, p, t, n, b);
    if n in Table(w.spdk, p, t) {
      var k :| Backs(w.db, k, p, t, n, Table(w.spdk, p, t)[n]);
      if m :| Backs(w.db, m, p, t, n, b) {
        BackerUnique(w.db, k, m, p, t, n, Table(w.spdk, p, t)[n], b);
      }
    }
  }

  // ---- A second pass ----------------------------------------------------------------------------

  /** Everything a pass could add is there. */
  ghost predicate Complete(db: Db, s: Spdk) {
    && s.portalGroup && s.initiatorGroup && s.transport
    && (forall p :: p in db.pools ==> PoolUp(db, s, p))
    && (forall v :: v in LiveVolumes(db.volumes) ==> Opens(s, db.volumes[v].bdev))
    && (forall e :: e in db.endpoints ==> Ready(s, db.endpoints[e]))
    && (forall m :: Wanted(db, m) ==> db.mappings[m].under in TableOf(db, s, m))
  }

  lemma CompletePool(s: Spdk, id: Id, p: Pool, arrayName: string, w: Wire)
    requires id in s.backing && LvsName(arrayName, p.name) in s.lvstores
    ensures PoolEnsured(s, id, p, arrayName, w).s == s && PoolEnsured(s, id, p, arrayName, w).pool == p
  {
  }

  lemma {:induction false} CompletePools(db: Db, s: Spdk, order: seq<Id>, wires: Wires)
    requires (forall p :: p in db.pools ==> PoolUp(db, s, p)) && forall i :: i in order ==> i in db.pools
    ensures PoolPass(db.arrays, PoolState(db.pools, s), order, wires) == PoolState(db.pools, s)
    decreases |order|
  {
    if order != [] {
      var k := |order| - 1;
      CompletePools(db, s, order[..k], wires);
      var p := db.pools[order[k]];
      hide PoolEnsured;
      CompletePool(s, order[k], p, ArrayName(db.arrays, p.arr), wires(PoolSite(order[k])));
      assert db.pools[order[k] := p] == db.pools;
    }
  }

  lemma {:induction false} CompleteVolumes(db: Db, s: Spdk, order: seq<Id>, wires: Wires)
    requires VolumesOk(db.arrays, db.pools, db.volumes) && forall v :: v in LiveVolumes(db.volumes) ==>
        Opens(s, db.volumes[v].bdev)
    requires forall i :: i in order ==> i in db.volumes && db.volumes[i].status != InError
    ensures VolumePass(db.arrays, db.pools, VolumeState(db.volumes, s), order, wires) == VolumeState(db.volumes, s)
    decreases |order|
  {
    if order != [] {
      var k := |order| - 1;
      CompleteVolumes(db, s, order[..k], wires);
      var id := order[k];
      assert id in LiveVolumes(db.volumes) && VolumeOk(db.arrays, db.pools, id, db.volumes[id]);
      hide VolumesOk, LvsName;
      var v := db.volumes[id];
      assert db.volumes[id := v.(bdev := v.bdev)] == db.volumes;
    }
  }

  lemma CompleteExport(s: Spdk, ep: Endpoint, w: Wire)
    requires s.portalGroup && s.initiatorGroup && s.transport && Ready(s, ep)
    ensures Exported(s, ep, w).s == s
  {
  }

  lemma {:induction false} CompleteEndpoints(db: Db, s: Spdk, order: seq<Id>, wires: Wires)
    requires s.portalGroup && s.initiatorGroup && s.transport && forall e :: e in db.endpoints ==>
        Ready(s, db.endpoints[e])
    requires forall i :: i in order ==> i in db.endpoints
    ensures EndpointPass(db.endpoints, s, order, wires) == s
    decreases |order|
  {
    if order != [] {
      var k := |order| - 1;
      CompleteEndpoints(db, s, order[..k], wires);
      hide Ready, Exported;
      CompleteExport(s, db.endpoints[order[k]], wires(EndpointSite(order[k])));
    }
  }

  lemma CompleteAttach(s: Spdk, under: int, bdev: Option<Bdev>, ep: Endpoint, w: Wire)
    requires Exports(ep) ==> under in Table(s, ep.protocol, ep.target)
    ensures Attach(s, under, bdev, ep, w).s == s
  {
  }

  lemma {:induction false} CompleteMappings(db: Db, s: Spdk, order: seq<Id>, wires: Wires)
    requires forall m :: Wanted(db, m) ==> db.mappings[m].under in TableOf(db, s, m)
    requires forall i :: i in order ==> i in db.mappings
    ensures MappingPass(db, s, order, wires) == s
    decreases |order|
  {
    if order != [] {
      var k := |order| - 1;
      CompleteMappings(db, s, order[..k], wires);
      var m := db.mappings[order[k]];
      if m.volume in LiveVolumes(db.volumes) && m.underlay in db.endpoints {
        assert Exports(db.endpoints[m.underlay]) ==> Wanted(db, order[k]);
        hide Attach, Table;
        CompleteAttach(s, m.under, db.volumes[m.volume].bdev, db.endpoints[m.underlay], wires(MappingSite(order[k])));
      }
    }
  }

  lemma FixedPools(w: World, o: RowOrder, wires: Wires)
    requires Complete(w.db, w.spdk) && OrderOf(o, w.db)
    ensures AfterPools(w, o, wires) == PoolState(w.db.pools, w.spdk)
  {
    assert AfterShared(w.spdk, wires) == w.spdk;
    hide AfterShared, PoolPass, PoolUp, Ready, TableOf, Wanted, Opens, LiveVolumes;
    CompletePools(w.db, w.spdk, o.pools, wires);
  }

  lemma FixedVolumes(w: World, o: RowOrder, wires: Wires)
    requires VolumesOk(w.db.arrays, w.db.pools, w.db.volumes) && Complete(w.db, w.spdk) && OrderOf(o, w.db)
    ensures AfterVolumes(w, o, wires) == VolumeState(w.db.volumes, w.spdk)
  {
    FixedPools(w, o, wires);
    ListedVolumes(o, w.db);
    hide VolumesOk, AfterPools, VolumePass, PoolUp, Ready, TableOf, Wanted, Opens, OrderOf;
    CompleteVolumes(w.db, w.spdk, o.volumes, wires);
  }

  /** On a complete state a pass changes nothing, even when its calls fail. */
  lemma CompleteIsFixed(w: World, o: RowOrder, wires: Wires)
    requires VolumesOk(w.db.arrays, w.db.pools, w.db.volumes) && Complete(w.db, w.spdk) && OrderOf(o, w.db)
    ensures Reconciled(w, o, wires) == w
  {
    FixedPools(w, o, wires);
    FixedVolumes(w, o, wires);
    hide VolumesOk, AfterPools, AfterVolumes, EndpointPass, MappingPass, PoolUp, Ready, TableOf, Wanted, Opens,
         LiveVolumes;
    CompleteEndpoints(w.db, w.spdk, o.endpoints, wires);
    CompleteMappings(w.db, w.spdk, o.mappings, wires);
    assert DbAfter(w, o, wires) == w.db;
  }

  /** No store keeps that of a pool out. */
  ghost predicate StoresFree(db: Db, s: Spdk) { forall p :: p in db.pools ==> StoreFree(db, s, p) }

  lemma FreeProvides(db: Db, s: Spdk, v: Id)
    requires VolumesOk(db.arrays, db.pools, db.volumes) && StoresFree(db, s) && v in db.volumes
    ensures Provided(db, s, v)
  {
    hide StoreFree;
    Unfold(db, v);
  }

  /** A pass with no failing call leaves nothing to add. */
  lemma CleanPassComplete(w: World, o: RowOrder, wires: Wires)
    requires Inv(w) && StoresFree(w.db, w.spdk) && OrderOf(o, w.db) && AllClean(wires)
    ensures Complete(Reconciled(w, o, wires).db, Reconciled(w, o, wires).spdk)
  {
    var r := Reconciled(w, o, wires);
    hide Inv, Reconciled, SamePools, PoolUp, Ready, Opens, TableOf, OrderOf, StoresFree;
    ReconcileInv(w, o, wires);
    CleanShared(w, o, wires);
    forall p | p in r.db.pools
      ensures PoolUp(r.db, r.spdk, p)
    {
      SamePoolKeys(w.db.pools, r.db.pools);
      CleanPools(w, o, wires, p);
    }
    forall v | v in LiveVolumes(r.db.volumes)
      ensures Opens(r.spdk, r.db.volumes[v].bdev)
    {
      CleanVolumes(w, o, wires, v);
    }
    forall e | e in r.db.endpoints
      ensures Ready(r.spdk, r.db.endpoints[e])
    {
      CleanEndpoints(w, o, wires, e);
    }
    forall m | Wanted(r.db, m)
      ensures r.db.mappings[m].under in TableOf(r.db, r.spdk, m)
    {
      CleanMapping(w, o, wires, r.db, m);
    }
  }

  lemma SamePoolKeys(pools: map<Id, Pool>, pools': map<Id, Pool>)
    requires SamePools(pools, pools')
    ensures pools'.Keys == pools.Keys
  {
  }

  lemma CleanMapping(w: World, o: RowOrder, wires: Wires, db: Db, m: Id)
    requires Inv(w) && StoresFree(w.db, w.spdk) && OrderOf(o, w.db) && AllClean(wires)
    requires db == w.db.(pools := db.pools) && Wanted(db, m)
    ensures db.mappings[m].under in TableOf(db, Reconciled(w, o, wires).spdk, m)
  {
    assert Wanted(w.db, m) && w.db.mappings[m].volume in w.db.volumes;
    FreeProvides(w.db, w.spdk, w.db.mappings[m].volume);
    hide Inv, Reconciled, Table, OrderOf, StoresFree, Provided;
    ReachesMapping(w, o, wires, m);
  }

  lemma CleanShared(w: World, o: RowOrder, wires: Wires)
    requires OrderOf(o, w.db) && AllClean(wires)
    ensures var s := Reconciled(w, o, wires).spdk; s.portalGroup && s.initiatorGroup && s.transport
  {
    var g, t := wires(GroupsSite), wires(TransportSite);
    assert g.Clean() && t.Clean();
    assert g.Up(GetPortalGroups) && g.Up(CreatePortalGroup) && g.Up(GetInitiatorGroups) && g.Up(CreateInitiatorGroup);
    assert t.Up(CreateTransport);
    PassGrows(w, o, wires);
    hide PoolPass, VolumePass, EndpointPass, MappingPass, TablesGrow, OrderOf;
  }

  lemma CleanPools(w: World, o: RowOrder, wires: Wires, p: Id)
    requires Inv(w) && StoresFree(w.db, w.spdk) && OrderOf(o, w.db) && AllClean(wires) && p in w.db.pools
    ensures p in Reconciled(w, o, wires).db.pools && PoolUp(Reconciled(w, o, wires).db, Reconciled(w, o, wires).spdk, p)
  {
    ReachesPool(w, o, wires, p);
    PassGrows(w, o, wires);
    ReconcileInv(w, o, wires);
    hide DbOk, Issued, AfterPools, AfterVolumes, AfterEndpoints, Reconciled, StoreFree, OrderOf, LvsName, TablesGrow;
  }

  lemma CleanVolumes(w: World, o: RowOrder, wires: Wires, v: Id)
    requires Inv(w) && StoresFree(w.db, w.spdk) && OrderOf(o, w.db) && AllClean(wires) && v in LiveVolumes(w.db.volumes)
    ensures Opens(Reconciled(w, o, wires).spdk, w.db.volumes[v].bdev)
  {
    FreeProvides(w.db, w.spdk, v);
    Unfold(w.db, v);
    ReachesVolume(w, o, wires, v);
    PassGrows(w, o, wires);
    hide DbOk, Issued, AfterPools, AfterVolumes, AfterEndpoints, Reconciled, StoreFree, OrderOf, LvsName, TablesGrow;
  }

  lemma CleanEndpoints(w: World, o: RowOrder, wires: Wires, e: Id)
    requires OrderOf(o, w.db) && AllClean(wires) && e in w.db.endpoints
    ensures Ready(Reconciled(w, o, wires).spdk, w.db.endpoints[e])
  {
    assert e in o.endpoints;
    PassGrows(w, o, wires);
    hide AfterVolumes, Reconciled, TablesGrow, Grows, Ready;
    EndpointPassReaches(w.db.endpoints, AfterVolumes(w, o, wires).s, o.endpoints, wires, e);
    ReadyGrows(AfterEndpoints(w, o, wires), Reconciled(w, o, wires).spdk, w.db.endpoints[e]);
  }

  /** From any SPDK state in which no store keeps that of a pool out: after a pass with no failing call, a
      second pass changes neither store, in any row order and even when all of its own calls fail. */
  lemma SecondPassIdle(w: World, o: RowOrder, wires: Wires, o': RowOrder, wires': Wires)
    requires Inv(w) && StoresFree(w.db, w.spdk) && OrderOf(o, w.db) && AllClean(wires)
    requires OrderOf(o', Reconciled(w, o, wires).db)
    ensures Reconciled(Reconciled(w, o, wires), o', wires') == Reconciled(w, o, wires)
  {
    CleanPassComplete(w, o, wires);
    ReconcileInv(w, o, wires);
    hide Reconciled, Complete, Issued, OrderOf, VolumesOk;
    CompleteIsFixed(Reconciled(w, o, wires), o', wires');
  }

  lemma ListedVolumes(o: RowOrder, db: Db)
    requires OrderOf(o, db)
    ensures forall id :: id in o.volumes ==> id in db.volumes && db.volumes[id].status != InError
  {
  }
}
