/** The invariants a run may rely on, chosen by its hypotheses, request by request. */
module GoodSteps {
  import opened Model
  import opened Ensure
  import opened Inventory
  import opened Volumes
  import opened Mappings
  import opened Reconcile
  import opened Invariants
  import opened DbSteps
  import opened ExportSteps
  import opened ReconcileProofs
  import opened ReconcileSound
  import opened SteadySteps

  /** `exports`: the run satisfies the export hypotheses; `steady`: SPDK never restarts;
      `exact`: only unmapped volumes are extended. */
  datatype Hyp = Hyp(exports: bool, steady: bool, exact: bool)

  ghost predicate Good(w: World, h: Hyp) {
    && Inv(w)
    && (h.exports ==> ExportInv(w))
    && (h.steady ==> SizeAgree(w.db.volumes, w.spdk.lvols))
    && (h.exports && h.steady ==> NvmeComplete(w.db, w.spdk))
    && (h.exact ==> StatusExact(w.db.volumes, w.db.mappings))
  }

  /** Volumes and mappings stay, SPDK only grows. */
  lemma QuietGood(w: World, w': World, h: Hyp)
    requires Good(w, h) && Inv(w') && (h.exports ==> ExportInv(w'))
    requires w'.db.volumes == w.db.volumes && w'.db.mappings == w.db.mappings
    requires h.exports ==> KeepsBacking(w.db, w'.db)
    requires w'.spdk.lvols == w.spdk.lvols && w'.spdk.targets == w.spdk.targets
        && w'.spdk.subsystems == w.spdk.subsystems
    ensures Good(w', h)
  {
    MappingRefs(w.db);
    TablesGrowSame(w.spdk, w'.spdk);
    hide DbOk, Issued, ExportInv, SizeAgree, NvmeComplete, StatusExact, KeepsBacking, TablesGrow;
    if h.exports && h.steady {
      NvmeFrame(w.db, w.spdk, w'.db, w'.spdk);
    }
  }

  lemma BackingEndpoints(db: Db, endpoints: map<Id, Endpoint>)
    requires forall m :: m in db.mappings && db.mappings[m].underlay in db.endpoints ==>
      db.mappings[m].underlay in endpoints
      && endpoints[db.mappings[m].underlay].protocol == db.endpoints[db.mappings[m].underlay].protocol
      && endpoints[db.mappings[m].underlay].target == db.endpoints[db.mappings[m].underlay].target
    ensures KeepsBacking(db, db.(endpoints := endpoints))
  {
  }

  lemma BackingVolumes(db: Db, volumes: map<Id, Volume>)
    requires forall m :: m in db.mappings && db.mappings[m].volume in db.volumes ==>
      db.mappings[m].volume in volumes && volumes[db.mappings[m].volume].bdev == db.volumes[db.mappings[m].volume].bdev
    ensures KeepsBacking(db, db.(volumes := volumes))
  {
  }

  lemma CreateArrayGood(w: World, h: Hyp, name: string)
    requires Good(w, h)
    ensures Good(Committed(w, CreateArray(w, name)), h)
  {
    var w' := Committed(w, CreateArray(w, name));
    hide Inv, ExportInv, KeepsBacking, SizeAgree, NvmeComplete, StatusExact;
    CreateArrayInv(w, name);
    if h.exports { CreateArrayExport(w, name); }
    BackingSame(w.db, w'.db);
    QuietGood(w, w', h);
  }

  lemma CreateEndpointGood(w: World, h: Hyp, arr: Id, p: Protocol, target: string, listeners: seq<string>)
    requires Good(w, h) && (h.exports ==> NewTargetOk(w.db, w.serial, p, target))
    ensures Good(Committed(w, CreateEndpoint(w, arr, p, target, listeners)), h)
  {
    var w' := Committed(w, CreateEndpoint(w, arr, p, target, listeners));
    hide Inv, ExportInv, SizeAgree, NvmeComplete, StatusExact, KeepsBacking, NewTargetOk;
    SerialFresh(w);
    CreateEndpointInv(w, arr, p, target, listeners);
    if h.exports { CreateEndpointExport(w, arr, p, target, listeners); }
    BackingEndpoints(w.db, w'.db.endpoints);
    QuietGood(w, w', h);
  }

  /** A target may change only on an endpoint no mapping refers to. */
  ghost predicate TargetFixed(db: Db, id: Id, target: Option<string>) {
    target.Some? && id in db.endpoints && target.value != db.endpoints[id].target ==>
      Unreferenced(db, id) && NewTargetOk(db, id, db.endpoints[id].protocol, target.value)
  }

  lemma UpdateEndpointGood(w: World, h: Hyp, id: Id, target: Option<string>, listeners: Option<seq<string>>)
    requires Good(w, h) && (h.exports ==> TargetFixed(w.db, id, target))
    ensures Good(Committed(w, UpdateEndpoint(w, id, target, listeners)), h)
  {
    var w' := Committed(w, UpdateEndpoint(w, id, target, listeners));
    hide Inv, ExportInv, SizeAgree, NvmeComplete, StatusExact, NewTargetOk;
    UpdateEndpointInv(w, id, target, listeners);
    if h.exports { UpdateEndpointExport(w, id, target, listeners); }
    assert h.exports ==> KeepsBacking(w.db, w'.db);
    QuietGood(w, w', h);
  }

  lemma DeleteEndpointGood(w: World, h: Hyp, id: Id)
    requires Good(w, h) && Unreferenced(w.db, id)
    ensures Good(Committed(w, DeleteEndpoint(w, id)), h)
  {
    var w' := Committed(w, DeleteEndpoint(w, id));
    DeleteEndpointInv(w, id);
    if h.exports { DeleteEndpointExport(w, id); }
    hide Inv, ExportInv, SizeAgree, NvmeComplete, StatusExact, KeepsBacking, Good;
    BackingEndpoints(w.db, w'.db.endpoints);
    QuietGood(w, w', h);
  }

  lemma HostsGood(w: World, h: Hyp, w': World)
    requires Good(w, h) && Inv(w') && w'.spdk == w.spdk && w'.db == w.db.(hosts := w'.db.hosts)
    ensures Good(w', h)
  {
    hide DbOk, Issued, SizeAgree, NvmeComplete, StatusExact, KeepsBacking;
    BackingSame(w.db, w'.db);
    if h.exports {
      hide Distinct, Sound, NoDangling;
      QuietStep(w, w');
    }
    QuietGood(w, w', h);
  }

  lemma CreateHostGood(w: World, h: Hyp, name: string, iqns: seq<string>, nqns: seq<string>, wwpns: seq<string>)
    requires Good(w, h)
    ensures Good(Committed(w, CreateHost(w, name, iqns, nqns, wwpns)), h)
  {
    CreateHostInv(w, name, iqns, nqns, wwpns);
    hide Good, Inv;
    HostsGood(w, h, Committed(w, CreateHost(w, name, iqns, nqns, wwpns)));
  }

  lemma AddHostPortGood(w: World, h: Hyp, id: Id, kind: PortType, port: string)
    requires Good(w, h)
    ensures Good(Committed(w, AddHostPort(w, id, kind, port)), h)
  {
    AddHostPortInv(w, id, kind, port);
    hide Good, Inv;
    HostsGood(w, h, Committed(w, AddHostPort(w, id, kind, port)));
  }

  lemma DeleteHostGood(w: World, h: Hyp, id: Id)
    requires Good(w, h)
    ensures Good(Committed(w, DeleteHost(w, id)), h)
  {
    DeleteHostInv(w, id);
    hide Good, Inv;
    HostsGood(w, h, Committed(w, DeleteHost(w, id)));
  }

  lemma CreatePoolGood(w: World, h: Hyp, name: string, arr: Id, backend: PoolBackend, sizeMb: Option<int>, path: string,
                       wire: Wire)
    requires Good(w, h)
    ensures Good(Committed(w, CreatePool(w, name, arr, backend, sizeMb, path, wire)), h)
  {
    var w' := Committed(w, CreatePool(w, name, arr, backend, sizeMb, path, wire));
    hide Inv, ExportInv, KeepsBacking, SizeAgree, NvmeComplete, StatusExact, PoolEnsured;
    CreatePoolInv(w, name, arr, backend, sizeMb, path, wire);
    if h.exports { CreatePoolExport(w, name, arr, backend, sizeMb, path, wire); }
    if arr in w.db.arrays {
      PoolEffect(w.spdk, w.serial, Pool(name, arr, backend, sizeMb, path), w.db.arrays[arr].name, wire);
    }
    BackingSame(w.db, w'.db);
    QuietGood(w, w', h);
  }

  lemma DeletePoolGood(w: World, h: Hyp, id: Id)
    requires Good(w, h)
    ensures Good(Committed(w, DeletePool(w, id)), h)
  {
    var w' := Committed(w, DeletePool(w, id));
    hide Inv, ExportInv, KeepsBacking, SizeAgree, NvmeComplete, StatusExact;
    DeletePoolInv(w, id);
    if h.exports { DeletePoolExport(w, id); }
    BackingSame(w.db, w'.db);
    QuietGood(w, w', h);
  }

  lemma AttachPoolGood(w: World, h: Hyp, arr: Id, id: Id)
    requires Good(w, h) && VolumesIn(w.db, id) == {} && !h.exports
    ensures Good(Committed(w, AttachPool(w, arr, id)), h)
  {
    var w' := Committed(w, AttachPool(w, arr, id));
    hide Inv, ExportInv, KeepsBacking, SizeAgree, NvmeComplete, StatusExact;
    AttachPoolInv(w, arr, id);
    QuietGood(w, w', h);
  }

  // ---- Volumes -----------------------------------------------------------------------------

  /** The table entries stay and the mapped rows keep their bdev. */
  lemma VolumeGood(w: World, w': World, h: Hyp)
    requires Good(w, h) && Inv(w') && (h.exports ==> ExportInv(w'))
    requires w'.db.mappings == w.db.mappings && KeepsBacking(w.db, w'.db)
    requires w'.spdk.targets == w.spdk.targets && w'.spdk.subsystems == w.spdk.subsystems
    requires h.steady ==> SizeAgree(w'.db.volumes, w'.spdk.lvols)
    requires h.exact ==> StatusExact(w'.db.volumes, w'.db.mappings)
    ensures Good(w', h)
  {
    MappingRefs(w.db);
    TablesGrowSame(w.spdk, w'.spdk);
    hide DbOk, Issued, ExportInv, SizeAgree, NvmeComplete, StatusExact, KeepsBacking, TablesGrow;
    if h.exports && h.steady {
      NvmeFrame(w.db, w.spdk, w'.db, w'.spdk);
    }
  }

  lemma CreateVolumeGood(w: World, h: Hyp, name: string, pool: Id, sizeMb: int, wire: Wire)
    requires Good(w, h)
    ensures Good(CreateVolume(w, name, pool, sizeMb, wire).w, h)
  {
    var w' := CreateVolume(w, name, pool, sizeMb, wire).w;
    hide Inv, ExportInv, SizeAgree, NvmeComplete, StatusExact, KeepsBacking, CreateVolume, VolumeOk;
    if w' != w {
      CreatedVolume(w, name, pool, sizeMb, wire);
    }
    CreateVolumeInv(w, name, pool, sizeMb, wire);
    if h.exports { CreateVolumeExport(w, name, pool, sizeMb, wire); }
    if h.steady { CreateVolumeSize(w, name, pool, sizeMb, wire); }
    if h.exact { CreateVolumeStatus(w, name, pool, sizeMb, wire); }
    BackingVolumes(w.db, w'.db.volumes);
    VolumeGood(w, w', h);
  }

  lemma DeleteVolumeGood(w: World, h: Hyp, id: Id, wire: Wire)
    requires Good(w, h)
    ensures Good(Committed(w, DeleteVolume(w, id, wire)), h)
  {
    var w' := Committed(w, DeleteVolume(w, id, wire));
    hide Inv, ExportInv, SizeAgree, NvmeComplete, StatusExact, KeepsBacking;
    DeleteVolumeInv(w, id, wire);
    if h.exports { DeleteVolumeExport(w, id, wire); }
    if h.steady { DeleteVolumeSize(w, id, wire); }
    if h.exact { DeleteVolumeStatus(w, id, wire); }
    if MappingsOf(w.db, id) == {} {
      assert forall m :: m in w.db.mappings ==> m !in MappingsOf(w.db, id);
    }
    BackingVolumes(w.db, w'.db.volumes);
    VolumeGood(w, w', h);
  }

  lemma ExtendVolumeGood(w: World, h: Hyp, id: Id, newSizeMb: int, wire: Wire)
    requires Good(w, h) && (h.exact ==> MappingsOf(w.db, id) == {})
    ensures Good(ExtendVolume(w, id, newSizeMb, wire).w, h)
    ensures Good(Committed(w, ExtendVolume(w, id, newSizeMb, wire)), h)
  {
    var r, c := ExtendVolume(w, id, newSizeMb, wire).w, Committed(w, ExtendVolume(w, id, newSizeMb, wire));
    hide Inv, ExportInv, SizeAgree, NvmeComplete, StatusExact, KeepsBacking;
    ExtendVolumeInv(w, id, newSizeMb, wire);
    if h.exports { ExtendVolumeExport(w, id, newSizeMb, wire); }
    if h.steady { ExtendVolumeSize(w, id, newSizeMb, wire); }
    if h.exact { ExtendVolumeStatus(w, id, newSizeMb, wire); }
    BackingVolumes(w.db, r.db.volumes);
    BackingVolumes(w.db, c.db.volumes);
    VolumeGood(w, r, h);
    VolumeGood(w, c, h);
  }

  // ---- Mappings ------------------------------------------------------------------------------

  lemma CreateMappingGood(w: World, h: Hyp, a: MapArgs, wire: Wire)
    requires Good(w, h)
    ensures Good(Committed(w, CreateMapping(w, a, wire)), h)
  {
    hide Inv, ExportInv, SizeAgree, NvmeComplete, StatusExact, CreateMapping;
    CreateMappingInv(w, a, wire);
    if h.exports { CreateMappingExport(w, a, wire); }
    if h.steady { CreateMappingSize(w, a, wire); }
    if h.exports && h.steady { CreateMappingNvme(w, a, wire); }
    if h.exact { CreateMappingStatus(w, a, wire); }
  }

  lemma DeleteMappingGood(w: World, h: Hyp, id: Id, wire: Wire)
    requires Good(w, h) && (h.exports ==> CleanDelete(w, id, wire))
    ensures Good(Committed(w, DeleteMapping(w, id, wire)), h)
  {
    hide Inv, ExportInv, SizeAgree, NvmeComplete, StatusExact, DeleteMapping, CleanDelete;
    DeleteMappingInv(w, id, wire);
    if h.exports { DeleteMappingExport(w, id, wire); }
    if h.steady { DeleteMappingSize(w, id, wire); }
    if h.exports && h.steady { DeleteMappingNvme(w, id, wire); }
    if h.exact { DeleteMappingStatus(w, id, wire); }
  }

  // ---- Reconciling, restarting ----------------------------------------------------------------

  lemma ReconcileGood(w: World, h: Hyp, o: RowOrder, wires: Wires)
    requires Good(w, h) && OrderOf(o, w.db)
    ensures Good(Reconciled(w, o, wires), h)
  {
    hide Inv, ExportInv, SizeAgree, NvmeComplete, StatusExact, Reconciled, SamePools;
    ReconcileInv(w, o, wires);
    if h.exports { ReconcileExport(w, o, wires); }
    if h.steady { ReconcileSize(w, o, wires); }
    if h.exports && h.steady { ReconcileNvme(w, o, wires); }
  }

  lemma RestartGood(w: World, h: Hyp)
    requires Good(w, h) && !h.steady
    ensures Good(w.(spdk := EMPTY_SPDK), h)
  {
    hide DbOk, StatusExact, Distinct;
  }
}
