/** What a reconcile pass does, whatever calls fail. */
module ReconcileProofs {
  import opened Model
  import opened Ensure
  import opened Reconcile

  // ---- A pass only adds -----------------------------------------------------------------

  ghost predicate TablesGrow(s: Spdk, s': Spdk) {
    forall p, t, n :: n in Table(s, p, t) ==> n in Table(s', p, t) && Table(s', p, t)[n] == Table(s, p, t)[n]
  }

  /** Nothing is removed or re-pointed. */
  ghost predicate Grows(s: Spdk, s': Spdk) {
    && (s.portalGroup ==> s'.portalGroup) && (s.initiatorGroup ==> s'.initiatorGroup) && (s.transport ==> s'.transport)
    && s.backing <= s'.backing
    && (forall n :: n in s.lvstores ==> n in s'.lvstores && s'.lvstores[n] == s.lvstores[n])
    && (forall b :: b in s.lvols ==> b in s'.lvols && s'.lvols[b] == s.lvols[b])
    && s.targets.Keys <= s'.targets.Keys
    && (forall q :: q in s.subsystems ==> q in s'.subsystems && s'.subsystems[q].listeners == s.subsystems[q].listeners)
    && TablesGrow(s, s')
  }

  lemma GrowsTrans(s: Spdk, t: Spdk, u: Spdk)
    requires Grows(s, t) && Grows(t, u)
    ensures Grows(s, u)
  {
  }

  lemma PoolGrows(s: Spdk, id: Id, p: Pool, arrayName: string, w: Wire)
    ensures Grows(s, PoolEnsured(s, id, p, arrayName, w).s)
  {
    PoolEffect(s, id, p, arrayName, w);
    hide PoolEnsured, LvsName;
  }

  lemma LvolGrows(s: Spdk, name: Bdev, sizeMb: int, w: Wire)
    ensures Grows(s, LvolEnsured(s, name, sizeMb, w).s)
  {
  }

  lemma NvmeExportListeners(s: Spdk, ep: Endpoint, w: Wire)
    ensures var r := NvmeExport(s, ep, w).s;
      forall q :: q in s.subsystems ==> q in r.subsystems && r.subsystems[q] == s.subsystems[q]
  {
    if ep.target !in s.subsystems {
      var made := Transport(s, w).s.(subsystems := s.subsystems[ep.target := Subsystem([], map[])]);
      ListenersOnly(made, ep.target, ep.listeners, |ep.listeners|, w);
    }
  }

  lemma ExportGrows(s: Spdk, ep: Endpoint, w: Wire)
    ensures Grows(s, Exported(s, ep, w).s)
  {
    ExportedOnly(s, ep, w);
    if ep.protocol == Nvme {
      NvmeExportListeners(s, ep, w);
      NvmeExported(s, ep, w);
      TransportGrows(s, ep, w);
    }
    var r := Exported(s, ep, w).s;
    assert TablesGrow(s, r) by {
      hide Exported;
      forall p, t
        ensures Table(r, p, t) == Table(s, p, t)
      {
        SameTable(s, r, p, t);
      }
    }
    hide TablesGrow, NvmeExport, Table;
  }

  lemma TransportGrows(s: Spdk, ep: Endpoint, w: Wire)
    ensures s.transport ==> NvmeExport(s, ep, w).s.transport
  {
    if ep.target !in s.subsystems {
      var made := Transport(s, w).s.(subsystems := s.subsystems[ep.target := Subsystem([], map[])]);
      ListenersOnly(made, ep.target, ep.listeners, |ep.listeners|, w);
    }
  }

  lemma AttachGrows(s: Spdk, under: int, bdev: Option<Bdev>, ep: Endpoint, w: Wire)
    ensures Grows(s, Attach(s, under, bdev, ep, w).s)
  {
    AttachTablesGrow(s, under, bdev, ep, w);
    hide TablesGrow, Table;
  }

  lemma AttachTablesGrow(s: Spdk, under: int, bdev: Option<Bdev>, ep: Endpoint, w: Wire)
    ensures TablesGrow(s, Attach(s, under, bdev, ep, w).s)
  {
    hide Attach, Table;
    AttachEffect(s, under, bdev, ep, w);
  }

  lemma GroupsGrow(s: Spdk, w: Wire)
    ensures Grows(s, IscsiExport(s, w).s) && Grows(s, Transport(s, w).s)
    ensures SameStorage(s, IscsiExport(s, w).s) && SameStorage(s, Transport(s, w).s)
    ensures IscsiExport(s, w).s.targets == s.targets && Transport(s, w).s.targets == s.targets
    ensures IscsiExport(s, w).s.subsystems == s.subsystems && Transport(s, w).s.subsystems == s.subsystems
  {
    hide TablesGrow;
    TablesGrowSame(s, IscsiExport(s, w).s);
    TablesGrowSame(s, Transport(s, w).s);
  }

  lemma TablesGrowSame(s: Spdk, s': Spdk)
    requires s'.targets == s.targets && s'.subsystems == s.subsystems
    ensures TablesGrow(s, s')
  {
  }

  lemma {:induction false} PoolPassGrows(arrays: map<Id, Array>, x: PoolState, order: seq<Id>, wires: Wires)
    requires forall id :: id in order ==> id in x.pools
    ensures Grows(x.s, PoolPass(arrays, x, order, wires).s)
    decreases |order|
  {
    if order != [] {
      var k := |order| - 1;
      var y := PoolPass(arrays, x, order[..k], wires);
      PoolPassGrows(arrays, x, order[..k], wires);
      PoolGrows(y.s, order[k], y.pools[order[k]], ArrayName(arrays, y.pools[order[k]].arr), wires(PoolSite(order[k])));
      hide Grows, PoolEnsured;
      GrowsTrans(x.s, y.s, PoolPass(arrays, x, order, wires).s);
    } else {
      hide Table;
    }
  }

  lemma VolumeStepGrows(arrays: map<Id, Array>, pools: map<Id, Pool>, x: VolumeState, id: Id, w: Wire)
    requires id in x.volumes
    ensures Grows(x.s, VolumeStep(arrays, pools, x, id, w).s)
  {
    var v := x.volumes[id];
    if v.pool in pools {
      LvolGrows(x.s, Lvol(LvsName(ArrayName(arrays, v.arr), pools[v.pool].name), id), v.sizeMb, w);
      hide Grows, LvolEnsured;
    }
  }

  lemma {:induction false} VolumePassGrows(arrays: map<Id, Array>, pools: map<Id, Pool>, x: VolumeState,
          order: seq<Id>, wires: Wires)
    requires forall id :: id in order ==> id in x.volumes
    ensures Grows(x.s, VolumePass(arrays, pools, x, order, wires).s)
    decreases |order|
  {
    if order != [] {
      var k := |order| - 1;
      var y := VolumePass(arrays, pools, x, order[..k], wires);
      VolumePassGrows(arrays, pools, x, order[..k], wires);
      VolumeStepGrows(arrays, pools, y, order[k], wires(VolumeSite(order[k])));
      hide Grows, VolumeStep;
      GrowsTrans(x.s, y.s, VolumePass(arrays, pools, x, order, wires).s);
    }
  }

  lemma {:induction false} EndpointPassGrows(endpoints: map<Id, Endpoint>, s: Spdk, order: seq<Id>, wires: Wires)
    requires forall id :: id in order ==> id in endpoints
    ensures Grows(s, EndpointPass(endpoints, s, order, wires))
    decreases |order|
  {
    if order != [] {
      var k := |order| - 1;
      var y := EndpointPass(endpoints, s, order[..k], wires);
      EndpointPassGrows(endpoints, s, order[..k], wires);
      ExportGrows(y, endpoints[order[k]], wires(EndpointSite(order[k])));
      hide Grows, Exported;
      GrowsTrans(s, y, EndpointPass(endpoints, s, order, wires));
    }
  }

  lemma MappingStepGrows(db: Db, s: Spdk, id: Id, w: Wire)
    requires id in db.mappings
    ensures Grows(s, MappingStep(db, s, id, w))
  {
    var m := db.mappings[id];
    if m.volume in LiveVolumes(db.volumes) && m.underlay in db.endpoints {
      AttachGrows(s, m.under, db.volumes[m.volume].bdev, db.endpoints[m.underlay], w);
      hide Grows, Attach;
    }
  }

  lemma {:induction false} MappingPassGrows(db: Db, s: Spdk, order: seq<Id>, wires: Wires)
    requires forall id :: id in order ==> id in db.mappings
    ensures Grows(s, MappingPass(db, s, order, wires))
    decreases |order|
  {
    if order != [] {
      var k := |order| - 1;
      var y := MappingPass(db, s, order[..k], wires);
      MappingPassGrows(db, s, order[..k], wires);
      MappingStepGrows(db, y, order[k], wires(MappingSite(order[k])));
      hide Grows, MappingStep;
      GrowsTrans(s, y, MappingPass(db, s, order, wires));
    }
  }

  /** From any state and for any failing calls, a pass removes and re-points nothing in SPDK. */
  lemma ReconcileMonotone(w: World, o: RowOrder, wires: Wires)
    requires OrderOf(o, w.db)
    ensures Grows(w.spdk, Reconciled(w, o, wires).spdk)
  {
    hide Grows, IscsiExport, Transport, PoolPass, VolumePass, EndpointPass, MappingPass;
    GroupsGrow(w.spdk, wires(GroupsSite));
    GroupsGrow(IscsiExport(w.spdk, wires(GroupsSite)).s, wires(TransportSite));
    GrowsTrans(w.spdk, IscsiExport(w.spdk, wires(GroupsSite)).s, AfterShared(w.spdk, wires));
    PassGrows(w, o, wires);
    GrowsTrans(w.spdk, AfterShared(w.spdk, wires), AfterPools(w, o, wires).s);
    GrowsTrans(w.spdk, AfterPools(w, o, wires).s, AfterVolumes(w, o, wires).s);
    GrowsTrans(w.spdk, AfterVolumes(w, o, wires).s, AfterEndpoints(w, o, wires));
    GrowsTrans(w.spdk, AfterEndpoints(w, o, wires), Reconciled(w, o, wires).spdk);
  }

  lemma PassGrows(w: World, o: RowOrder, wires: Wires)
    requires OrderOf(o, w.db)
    ensures Grows(AfterShared(w.spdk, wires), AfterPools(w, o, wires).s)
    ensures Grows(AfterPools(w, o, wires).s, AfterVolumes(w, o, wires).s)
    ensures Grows(AfterVolumes(w, o, wires).s, AfterEndpoints(w, o, wires))
    ensures Grows(AfterEndpoints(w, o, wires), Reconciled(w, o, wires).spdk)
  {
    hide Grows, AfterShared, PoolPass, VolumePass, EndpointPass, MappingPass;
    PoolPassGrows(w.db.arrays, PoolState(w.db.pools, AfterShared(w.spdk, wires)), o.pools, wires);
    var x := AfterPools(w, o, wires);
    VolumePassGrows(w.db.arrays, x.pools, VolumeState(w.db.volumes, x.s), o.volumes, wires);
    EndpointPassGrows(w.db.endpoints, AfterVolumes(w, o, wires).s, o.endpoints, wires);
    MappingPassGrows(DbAfter(w, o, wires), AfterEndpoints(w, o, wires), o.mappings, wires);
  }
}
