/** A reconcile pass keeps the invariants, whatever calls fail. */
module ReconcileSound {
  import opened Model
  import opened Ensure
  import opened Reconcile
  import opened Invariants
  import opened ExportSteps

  /** The only database change a pass makes: the size of an AIO pool, read back from SPDK. */
  ghost predicate SamePools(pools: map<Id, Pool>, pools': map<Id, Pool>) {
    && pools'.Keys == pools.Keys
    && forall p :: p in pools ==>
         pools'[p] == pools[p].(sizeMb := pools'[p].sizeMb) && (pools[p].backend != AioFile ==> pools'[p] == pools[p])
  }

  lemma SamePoolsOk(arrays: map<Id, Array>, pools: map<Id, Pool>, pools': map<Id, Pool>)
    requires PoolsOk(arrays, pools) && SamePools(pools, pools')
    ensures PoolsOk(arrays, pools')
  {
  }

  lemma SamePoolsPut(pools: map<Id, Pool>, pools': map<Id, Pool>, id: Id, p: Pool)
    requires SamePools(pools, pools') && id in pools
    requires p == pools'[id].(sizeMb := p.sizeMb) && (pools'[id].backend != AioFile ==> p == pools'[id])
    ensures SamePools(pools, pools'[id := p])
  {
  }

  lemma ClaimsPut(db: Db, s: Spdk, s': Spdk, id: Id)
    requires Claims(db, s) && id in db.pools && db.pools[id].arr in db.arrays
    requires s'.lvstores == s.lvstores
             || s'.lvstores == s.lvstores[LvsName(db.arrays[db.pools[id].arr].name, db.pools[id].name) := id]
    ensures Claims(db, s')
  {
  }

  lemma IssuedPut(s: Spdk, s': Spdk, serial: Id, id: Id, name: string)
    requires SpdkIssued(s, serial) && id < serial
    requires s'.backing <= s.backing + {id} && (s'.lvstores == s.lvstores || s'.lvstores == s.lvstores[name := id])
    requires s'.lvols == s.lvols
    ensures SpdkIssued(s', serial)
  {
  }

  lemma PoolStepOk(db: Db, y: PoolState, id: Id, w: Wire, serial: Id)
    requires PoolsOk(db.arrays, db.pools) && SamePools(db.pools, y.pools) && id in db.pools && id < serial
    requires SpdkIssued(y.s, serial)
    ensures var r := PoolStep(db.arrays, y, id, w);
      && SamePools(db.pools, r.pools) && r.s == y.s.(backing := r.s.backing, lvstores := r.s.lvstores)
      && (Claims(db, y.s) ==> Claims(db, r.s)) && SpdkIssued(r.s, serial)
  {
    var p := y.pools[id];
    var arrayName := ArrayName(db.arrays, p.arr);
    assert p == db.pools[id].(sizeMb := p.sizeMb);
    assert arrayName == db.arrays[db.pools[id].arr].name;
    hide PoolsOk, PoolEnsured, LvsName, Claims, SpdkIssued, SamePools;
    var a := PoolEnsured(y.s, id, p, arrayName, w);
    PoolEffect(y.s, id, p, arrayName, w);
    SamePoolsPut(db.pools, y.pools, id, a.pool);
    if Claims(db, y.s) {
      ClaimsPut(db, y.s, a.s, id);
    }
    IssuedPut(y.s, a.s, serial, id, LvsName(arrayName, p.name));
  }

  lemma {:induction false} PoolPassOk(db: Db, s: Spdk, order: seq<Id>, wires: Wires, serial: Id)
    requires PoolsOk(db.arrays, db.pools) && SpdkIssued(s, serial)
    requires forall id :: id in order ==> id in db.pools && id < serial
    ensures var r := PoolPass(db.arrays, PoolState(db.pools, s), order, wires);
      && SamePools(db.pools, r.pools) && r.s == s.(backing := r.s.backing, lvstores := r.s.lvstores)
      && (Claims(db, s) ==> Claims(db, r.s)) && SpdkIssued(r.s, serial)
    decreases |order|
  {
    if order != [] {
      var k := |order| - 1;
      hide PoolsOk, PoolStep, Claims, SpdkIssued, SamePools;
      assert forall id :: id in order[..k] ==> id in order;
      PoolPassOk(db, s, order[..k], wires, serial);
      PoolStepOk(db, PoolPass(db.arrays, PoolState(db.pools, s), order[..k], wires), order[k],
                 wires(PoolSite(order[k])), serial);
    }
  }

  /** Live volumes already carry their bdev name, so the loop rewrites no row. */
  lemma {:induction false} VolumePassOk(arrays: map<Id, Array>, pools: map<Id, Pool>, volumes: map<Id, Volume>,
          s: Spdk, order: seq<Id>, wires: Wires, serial: Id)
    requires VolumesOk(arrays, pools, volumes) && SpdkIssued(s, serial)
    requires forall id :: id in order ==> id in volumes && volumes[id].status != InError && id < serial
    ensures var r := VolumePass(arrays, pools, VolumeState(volumes, s), order, wires);
      && r.volumes == volumes && r.s == s.(lvols := r.s.lvols) && s.lvols.Keys <= r.s.lvols.Keys
      && SpdkIssued(r.s, serial)
    decreases |order|
  {
    if order != [] {
      var k := |order| - 1;
      VolumePassOk(arrays, pools, volumes, s, order[..k], wires, serial);
      var id := order[k];
      assert VolumeOk(arrays, pools, id, volumes[id]);
      hide VolumesOk, LvsName;
      var v := volumes[id];
      assert volumes[id := v.(bdev := v.bdev)] == volumes;
    }
  }

  lemma {:induction false} EndpointPassOnly(endpoints: map<Id, Endpoint>, s: Spdk, order: seq<Id>, wires: Wires)
    requires forall id :: id in order ==> id in endpoints
    ensures var r := EndpointPass(endpoints, s, order, wires);
      SameStorage(s, r) && r.targets == s.targets && SameNamespaces(s, r)
    decreases |order|
  {
    if order != [] {
      var k := |order| - 1;
      EndpointPassOnly(endpoints, s, order[..k], wires);
      hide Exported;
      ExportedOnly(EndpointPass(endpoints, s, order[..k], wires), endpoints[order[k]], wires(EndpointSite(order[k])));
    }
  }

  lemma MappingStepSound(db: Db, s: Spdk, id: Id, w: Wire)
    requires id in db.mappings && Sound(db, s) && NoDangling(s)
    ensures var r := MappingStep(db, s, id, w); SameStorage(s, r) && Sound(db, r) && NoDangling(r)
  {
    var m := db.mappings[id];
    if m.volume in LiveVolumes(db.volumes) && m.underlay in db.endpoints {
      var ep, bdev := db.endpoints[m.underlay], db.volumes[m.volume].bdev;
      hide Sound, NoDangling, Attach, OnlyTable, Table;
      AttachedStorage(s, m.under, bdev, ep, w);
      AttachEffect(s, m.under, bdev, ep, w);
      var r := Attach(s, m.under, bdev, ep, w).s;
      var b := if bdev.Some? then bdev.value else Lvol("", 0);
      if Table(r, ep.protocol, ep.target) != Table(s, ep.protocol, ep.target) {
        assert Backs(db, id, ep.protocol, ep.target, m.under, b);
      }
      assert KeepsBacking(db, db);
      EntryAdded(db, s, db, r, id, b);
      NoDanglingAdded(s, r, ep.protocol, ep.target, m.under, bdev);
    }
  }

  lemma {:induction false} MappingPassSound(db: Db, s: Spdk, order: seq<Id>, wires: Wires)
    requires forall id :: id in order ==> id in db.mappings
    requires Sound(db, s) && NoDangling(s)
    ensures var r := MappingPass(db, s, order, wires); SameStorage(s, r) && Sound(db, r) && NoDangling(r)
    decreases |order|
  {
    if order != [] {
      var k := |order| - 1;
      hide Sound, NoDangling, MappingStep;
      MappingPassSound(db, s, order[..k], wires);
      MappingStepSound(db, MappingPass(db, s, order[..k], wires), order[k], wires(MappingSite(order[k])));
    }
  }

  /** The database after a pass, and what it cannot have changed. */
  ghost predicate SameRows(db: Db, db': Db) {
    SamePools(db.pools, db'.pools) && db' == db.(pools := db'.pools)
  }

  lemma SameRowsOk(db: Db, db': Db)
    requires DbOk(db) && SameRows(db, db')
    ensures DbOk(db')
  {
    hide ArraysOk, EndpointsOk, PoolsOk, HostsOk, VolumesOk, MappingsOk, LunsUnique, UnderUnique, InUseMapped;
    SamePoolsOk(db.arrays, db.pools, db'.pools);
    VolumesPools(db.arrays, db.pools, db'.pools, db.volumes);
  }

  lemma SharedOnly(s: Spdk, wires: Wires)
    ensures var r := AfterShared(s, wires);
      r == s.(portalGroup := r.portalGroup, initiatorGroup := r.initiatorGroup, transport := r.transport)
  {
    hide IscsiExport, Transport;
    GroupsOnly(s, wires(GroupsSite));
    TransportOnly(IscsiExport(s, wires(GroupsSite)).s, wires(TransportSite));
  }

  lemma GroupsOnly(s: Spdk, w: Wire)
    ensures var r := IscsiExport(s, w).s; r == s.(portalGroup := r.portalGroup, initiatorGroup := r.initiatorGroup)
  {
  }

  lemma TransportOnly(s: Spdk, w: Wire)
    ensures var r := Transport(s, w).s; r == s.(transport := r.transport)
  {
  }

  lemma AfterPoolsOk(w: World, o: RowOrder, wires: Wires)
    requires Inv(w) && OrderOf(o, w.db)
    ensures var r := AfterPools(w, o, wires);
      && SamePools(w.db.pools, r.pools) && VolumesOk(w.db.arrays, r.pools, w.db.volumes)
      && SpdkIssued(r.s, w.serial) && (Claims(w.db, w.spdk) ==> Claims(w.db, r.s))
      && r.s.lvols == w.spdk.lvols && r.s.targets == w.spdk.targets && r.s.subsystems == w.spdk.subsystems
  {
    SharedOnly(w.spdk, wires);
    var s2 := AfterShared(w.spdk, wires);
    hide ArraysOk, EndpointsOk, PoolsOk, HostsOk, VolumesOk, MappingsOk, LunsUnique, UnderUnique, InUseMapped,
         AfterShared, PoolPass, SamePools, LvsName;
    PoolPassOk(w.db, s2, o.pools, wires, w.serial);
    VolumesPools2(w.db.arrays, w.db.pools, AfterPools(w, o, wires).pools, w.db.volumes);
  }

  lemma AfterVolumesOk(w: World, o: RowOrder, wires: Wires)
    requires Inv(w) && OrderOf(o, w.db)
    ensures var x, r := AfterPools(w, o, wires), AfterVolumes(w, o, wires);
      && r.volumes == w.db.volumes && r.s == x.s.(lvols := r.s.lvols) && x.s.lvols.Keys <= r.s.lvols.Keys
      && SpdkIssued(r.s, w.serial)
  {
    AfterPoolsOk(w, o, wires);
    LiveOrder(o, w.db, w.serial);
    hide DbOk, VolumesOk, AfterPools, VolumePass, SamePools, SpdkIssued, Claims;
    var x := AfterPools(w, o, wires);
    VolumePassOk(w.db.arrays, x.pools, w.db.volumes, x.s, o.volumes, wires, w.serial);
  }

  lemma IssuedSame(s: Spdk, s': Spdk, serial: Id)
    ensures SpdkIssued(s, serial) && SameStorage(s, s') ==> SpdkIssued(s', serial)
  {
  }

  lemma SubsystemsSame(s: Spdk, t: Spdk, u: Spdk)
    ensures t.subsystems == s.subsystems && SameNamespaces(t, u) ==> SameNamespaces(s, u)
  {
  }

  lemma ClaimsSame(db: Db, s: Spdk, s': Spdk)
    ensures Claims(db, s) && s'.lvstores == s.lvstores ==> Claims(db, s')
  {
  }

  /** The pass up to the mapping loop. */
  lemma PassRows(w: World, o: RowOrder, wires: Wires)
    requires Inv(w) && OrderOf(o, w.db)
    ensures SameRows(w.db, DbAfter(w, o, wires))
    ensures var s := AfterEndpoints(w, o, wires);
      && SpdkIssued(s, w.serial) && w.spdk.lvols.Keys <= s.lvols.Keys
      && s.targets == w.spdk.targets && SameNamespaces(w.spdk, s)
      && (Claims(w.db, w.spdk) ==> Claims(w.db, s))
  {
    hide Inv, VolumesOk, AfterPools, AfterVolumes, EndpointPass, SamePools, Claims, SpdkIssued, SameNamespaces,
         LiveVolumes, AttachedMappings;
    AfterPoolsOk(w, o, wires);
    AfterVolumesOk(w, o, wires);
    IssuedSame(AfterVolumes(w, o, wires).s, AfterEndpoints(w, o, wires), w.serial);
    SubsystemsSame(w.spdk, AfterVolumes(w, o, wires).s, AfterEndpoints(w, o, wires));
    ClaimsSame(w.db, AfterPools(w, o, wires).s, AfterEndpoints(w, o, wires));
    EndpointPassOnly(w.db.endpoints, AfterVolumes(w, o, wires).s, o.endpoints, wires);
  }

  lemma {:induction false} MappingPassStorage(db: Db, s: Spdk, order: seq<Id>, wires: Wires)
    requires forall id :: id in order ==> id in db.mappings
    ensures SameStorage(s, MappingPass(db, s, order, wires))
    decreases |order|
  {
    if order != [] {
      var k := |order| - 1;
      MappingPassStorage(db, s, order[..k], wires);
      var y := MappingPass(db, s, order[..k], wires);
      var m := db.mappings[order[k]];
      if m.volume in LiveVolumes(db.volumes) && m.underlay in db.endpoints {
        hide Attach;
        AttachedStorage(y, m.under, db.volumes[m.volume].bdev, db.endpoints[m.underlay], wires(MappingSite(order[k])));
      }
    }
  }

  lemma VolumesPools2(arrays: map<Id, Array>, pools: map<Id, Pool>, pools': map<Id, Pool>, volumes: map<Id, Volume>)
    requires VolumesOk(arrays, pools, volumes) && SamePools(pools, pools')
    ensures VolumesOk(arrays, pools', volumes)
  {
  }

  lemma LiveOrder(o: RowOrder, db: Db, serial: Id)
    requires OrderOf(o, db) && forall i :: i in db.volumes ==> i < serial
    ensures forall id :: id in o.volumes ==> id in db.volumes && db.volumes[id].status != InError && id < serial
  {
  }

  /** Before the mapping loop the tables and the rows behind them are as they were. */
  lemma CarryOver(db: Db, s: Spdk, db': Db, s': Spdk)
    requires Sound(db, s) && NoDangling(s) && SameRows(db, db')
    requires s'.targets == s.targets && SameNamespaces(s, s') && s.lvols.Keys <= s'.lvols.Keys
    ensures Sound(db', s') && NoDangling(s')
  {
    forall p, t
      ensures Table(s', p, t) == Table(s, p, t)
    {
      SameTable(s, s', p, t);
    }
    hide Table, SameNamespaces, SamePools;
    assert SameTables(s, s') && KeepsBacking(db, db');
    SoundFrame(db, s, db', s');
  }

  lemma ReconcileInv(w: World, o: RowOrder, wires: Wires)
    requires Inv(w) && OrderOf(o, w.db)
    ensures Inv(Reconciled(w, o, wires))
    ensures SameRows(w.db, Reconciled(w, o, wires).db)
  {
    PassRows(w, o, wires);
    MappingPassStorage(DbAfter(w, o, wires), AfterEndpoints(w, o, wires), o.mappings, wires);
    hide DbOk, DbAfter, AfterEndpoints, MappingPass, Claims, SameNamespaces, Issued;
    SameRowsOk(w.db, DbAfter(w, o, wires));
    StillIssued(w, Reconciled(w, o, wires));
  }

  lemma StillIssued(w: World, w': World)
    requires Issued(w) && SameRows(w.db, w'.db) && w'.serial == w.serial && SpdkIssued(w'.spdk, w'.serial)
    ensures Issued(w')
  {
  }

  lemma ReconcileExport(w: World, o: RowOrder, wires: Wires)
    requires Inv(w) && ExportInv(w) && OrderOf(o, w.db)
    ensures ExportInv(Reconciled(w, o, wires))
  {
    var r := Reconciled(w, o, wires);
    var db, s3 := DbAfter(w, o, wires), AfterEndpoints(w, o, wires);
    ListedMappings(o, w.db);
    hide DbOk, Issued, DbAfter, AfterEndpoints, MappingPass, NoDangling, Sound, Claims, Distinct, SamePools,
         SameNamespaces, KeepsBacking, SameTables;
    PassRows(w, o, wires);
    CarryOver(w.db, w.spdk, db, s3);
    MappingPassSound(db, s3, o.mappings, wires);
    ClaimsSameRows(w.db, s3, r.db, r.spdk);
  }

  lemma ListedMappings(o: RowOrder, db: Db)
    requires OrderOf(o, db)
    ensures forall id :: id in o.mappings ==> id in db.mappings
  {
  }

  lemma ClaimsSameRows(db: Db, s: Spdk, db': Db, s': Spdk)
    requires Claims(db, s) && SameRows(db, db') && s'.lvstores == s.lvstores
    ensures Claims(db', s')
  {
  }
}
