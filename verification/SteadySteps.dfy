/** Sizes, NVMe-oF completeness and the status field, request by request. */
module SteadySteps {
  import opened Model
  import opened Ensure
  import opened Volumes
  import opened Mappings
  import opened Alloc
  import opened Reconcile
  import opened Invariants
  import opened DbSteps
  import opened ExportSteps
  import opened ReconcileProofs
  import opened ReconcileSound

  // ---- Sizes ----------------------------------------------------------------------------

  /** A volume row with a bdev name has an lvol of its size. */
  ghost predicate SizeAgree(volumes: map<Id, Volume>, lvols: map<Bdev, int>) {
    forall v :: v in volumes && volumes[v].bdev.Some? ==>
      volumes[v].bdev.value in lvols && lvols[volumes[v].bdev.value] == volumes[v].sizeMb
  }

  lemma CreateVolumeSize(w: World, name: string, pool: Id, sizeMb: int, wire: Wire)
    requires Inv(w) && SizeAgree(w.db.volumes, w.spdk.lvols)
    ensures var w' := CreateVolume(w, name, pool, sizeMb, wire).w; SizeAgree(w'.db.volumes, w'.spdk.lvols)
  {
    hide Inv, CreateVolume, VolumeOk;
    var w' := CreateVolume(w, name, pool, sizeMb, wire).w;
    if w' != w {
      CreatedVolume(w, name, pool, sizeMb, wire);
    }
  }

  /** The bdev of a row carries the row's id. */
  ghost predicate OwnBdevs(volumes: map<Id, Volume>) {
    forall v :: v in volumes && volumes[v].bdev.Some? ==> volumes[v].bdev.value.volume == v
  }

  lemma OwnBdevsOk(db: Db)
    requires DbOk(db)
    ensures OwnBdevs(db.volumes)
  {
  }

  lemma DeleteVolumeSize(w: World, id: Id, wire: Wire)
    requires Inv(w) && SizeAgree(w.db.volumes, w.spdk.lvols)
    ensures var w' := Committed(w, DeleteVolume(w, id, wire)); SizeAgree(w'.db.volumes, w'.spdk.lvols)
  {
    OwnBdevsOk(w.db);
    hide Inv, SizeAgree, OwnBdevs;
    var res := DeleteVolume(w, id, wire);
    if res.r.Ok? {
      DropSize(w.db.volumes, w.spdk.lvols, id, res.w.spdk.lvols);
    }
  }

  lemma DropSize(volumes: map<Id, Volume>, lvols: map<Bdev, int>, id: Id, lvols': map<Bdev, int>)
    requires SizeAgree(volumes, lvols) && OwnBdevs(volumes) && id in volumes
    requires lvols' == lvols || (volumes[id].bdev.Some? && lvols' == lvols - {volumes[id].bdev.value})
    ensures SizeAgree(volumes - {id}, lvols')
  {
  }

  lemma ResizeSize(volumes: map<Id, Volume>, lvols: map<Bdev, int>, id: Id, v: Volume, b: Bdev)
    requires SizeAgree(volumes, lvols) && OwnBdevs(volumes) && id in volumes
    requires volumes[id].bdev == Some(b) && v.bdev == Some(b)
    ensures SizeAgree(volumes[id := v], lvols[b := v.sizeMb])
  {
  }

  lemma ExtendVolumeSize(w: World, id: Id, newSizeMb: int, wire: Wire)
    requires Inv(w) && SizeAgree(w.db.volumes, w.spdk.lvols)
    ensures var w' := ExtendVolume(w, id, newSizeMb, wire).w; SizeAgree(w'.db.volumes, w'.spdk.lvols)
    ensures var w' := Committed(w, ExtendVolume(w, id, newSizeMb, wire)); SizeAgree(w'.db.volumes, w'.spdk.lvols)
  {
    OwnBdevsOk(w.db);
    var res := ExtendVolume(w, id, newSizeMb, wire);
    if res.r.Ok? {
      ExtendedRow(w, id, newSizeMb, wire);
      hide Inv, SizeAgree, OwnBdevs, ExtendVolume;
      ResizeSize(w.db.volumes, w.spdk.lvols, id, res.w.db.volumes[id], w.db.volumes[id].bdev.value);
    } else {
      FailedExtension(w, id, newSizeMb, wire);
      hide Inv, SizeAgree, OwnBdevs, ExtendVolume;
      SizeFrame(w.db.volumes, w.spdk.lvols, res.w.db.volumes, res.w.spdk.lvols);
    }
  }

  lemma ExtendedRow(w: World, id: Id, newSizeMb: int, wire: Wire)
    requires ExtendVolume(w, id, newSizeMb, wire).r.Ok?
    ensures var r := ExtendVolume(w, id, newSizeMb, wire).w;
      && id in w.db.volumes && w.db.volumes[id].bdev.Some? && id in r.db.volumes
      && r.db.volumes == w.db.volumes[id := r.db.volumes[id]]
      && r.db.volumes[id].bdev == w.db.volumes[id].bdev && r.db.volumes[id].sizeMb == newSizeMb
      && r.spdk.lvols == w.spdk.lvols[w.db.volumes[id].bdev.value := newSizeMb]
  {
  }

  lemma FailedExtension(w: World, id: Id, newSizeMb: int, wire: Wire)
    requires ExtendVolume(w, id, newSizeMb, wire).r.Err?
    ensures var r := ExtendVolume(w, id, newSizeMb, wire).w;
      && r.spdk == w.spdk && r.db.volumes.Keys == w.db.volumes.Keys
      && forall v :: v in w.db.volumes ==> r.db.volumes[v] == w.db.volumes[v].(status := r.db.volumes[v].status)
  {
  }

  /** Storage only grows and the rows keep size and bdev. */
  lemma SizeFrame(volumes: map<Id, Volume>, lvols: map<Bdev, int>, volumes': map<Id, Volume>, lvols': map<Bdev, int>)
    requires SizeAgree(volumes, lvols)
    requires forall v :: v in volumes' ==>
        v in volumes && volumes'[v].bdev == volumes[v].bdev && volumes'[v].sizeMb == volumes[v].sizeMb
    requires forall b :: b in lvols ==> b in lvols' && lvols'[b] == lvols[b]
    ensures SizeAgree(volumes', lvols')
  {
  }

  lemma CreateMappingSize(w: World, a: MapArgs, wire: Wire)
    requires SizeAgree(w.db.volumes, w.spdk.lvols)
    ensures var w' := Committed(w, CreateMapping(w, a, wire)); SizeAgree(w'.db.volumes, w'.spdk.lvols)
  {
    hide WireUnderlay, ResolveEndpoints, SizeAgree;
    var res := CreateMapping(w, a, wire);
    if res.w != w {
      var m := res.w.db.mappings[w.serial];
      WiredStorage(w.db.(mappings := w.db.mappings[w.serial := m]), w.spdk, m.under, w.db.volumes[a.volume],
                   w.db.endpoints[m.underlay], wire);
    }
    var w' := Committed(w, res);
    SizeFrame(w.db.volumes, w.spdk.lvols, w'.db.volumes, w'.spdk.lvols);
  }

  lemma DeleteMappingSize(w: World, id: Id, wire: Wire)
    requires SizeAgree(w.db.volumes, w.spdk.lvols)
    ensures var w' := Committed(w, DeleteMapping(w, id, wire)); SizeAgree(w'.db.volumes, w'.spdk.lvols)
  {
    hide Detach, SizeAgree;
    if id in w.db.mappings && w.db.mappings[id].underlay in w.db.endpoints {
      DetachedStorage(w.spdk, w.db.mappings[id].under, w.db.endpoints[w.db.mappings[id].underlay], wire);
    }
    var w' := Committed(w, DeleteMapping(w, id, wire));
    SizeFrame(w.db.volumes, w.spdk.lvols, w'.db.volumes, w'.spdk.lvols);
  }

  lemma ReconcileSize(w: World, o: RowOrder, wires: Wires)
    requires Inv(w) && OrderOf(o, w.db) && SizeAgree(w.db.volumes, w.spdk.lvols)
    ensures var w' := Reconciled(w, o, wires); SizeAgree(w'.db.volumes, w'.spdk.lvols)
  {
    ReconcileInv(w, o, wires);
    ReconcileMonotone(w, o, wires);
    var w' := Reconciled(w, o, wires);
    hide Inv, Reconciled, SamePools, TablesGrow, SizeAgree;
    SizeFrame(w.db.volumes, w.spdk.lvols, w'.db.volumes, w'.spdk.lvols);
  }

  // ---- NVMe-oF completeness -----------------------------------------------------------------

  ghost predicate NvmeHeld(db: Db, s: Spdk, m: Id)
    requires m in db.mappings
  {
    db.mappings[m].underlay in db.endpoints && db.mappings[m].volume in db.volumes ==>
      var ep, n := db.endpoints[db.mappings[m].underlay], db.mappings[m].under;
      ep.protocol == Nvme && ep.target != "" ==>
        n in Table(s, Nvme, ep.target) && Some(Table(s, Nvme, ep.target)[n]) == db.volumes[db.mappings[m].volume].bdev
  }

  /** Every mapping on an NVMe-oF endpoint with an NQN has its namespace. */
  ghost predicate NvmeComplete(db: Db, s: Spdk) {
    forall m :: m in db.mappings ==> NvmeHeld(db, s, m)
  }

  lemma NvmeFrame(db: Db, s: Spdk, db': Db, s': Spdk)
    requires NvmeComplete(db, s) && KeepsBacking(db, db') && db'.mappings.Keys <= db.mappings.Keys && TablesGrow(s, s')
    requires forall m :: m in db.mappings ==>
        db.mappings[m].underlay in db.endpoints && db.mappings[m].volume in db.volumes
    ensures NvmeComplete(db', s')
  {
  }

  lemma MappingRefs(db: Db)
    requires DbOk(db)
    ensures forall m :: m in db.mappings ==>
        db.mappings[m].underlay in db.endpoints && db.mappings[m].volume in db.volumes
  {
  }

  lemma CreateMappingNvme(w: World, a: MapArgs, wire: Wire)
    requires Inv(w) && ExportInv(w) && NvmeComplete(w.db, w.spdk)
    ensures var w' := Committed(w, CreateMapping(w, a, wire)); NvmeComplete(w'.db, w'.spdk)
  {
    MappingRefs(w.db);
    SerialFresh(w);
    hide Inv, Sound, NoDangling, Claims, Distinct, OnlyTable, CreateMapping, NvmeComplete, Table, KeepsBacking,
         TablesGrow, NewUnder, LeastFree;
    var res := CreateMapping(w, a, wire);
    if res.w != w {
      var m := res.w.db.mappings[w.serial];
      var v := w.db.volumes[a.volume];
      var ep := w.db.endpoints[m.underlay];
      CreateMappingEffect(w, a, wire);
      OneMore(w.spdk, res.w.spdk, ep.protocol, ep.target, m.under, v.bdev);
      if res.r.Ok? {
        BackingAdded(w.db, res.w.db, w.serial, a.volume);
        if Exports(ep) {
          FreshInSpdk(w.db, w.spdk, m.underlay);
        }
        CompleteAdded(w.db, w.spdk, res.w.db, res.w.spdk, w.serial);
      } else {
        BackingSame(w.db, w.db);
        NvmeFrame(w.db, w.spdk, w.db, res.w.spdk);
      }
    }
  }

  lemma BackingAdded(db: Db, db': Db, id: Id, v: Id)
    requires id !in db.mappings && v in db.volumes && id in db'.mappings && v in db'.volumes
    requires db' == db.(mappings := db.mappings[id := db'.mappings[id]], volumes := db.volumes[v := db'.volumes[v]])
    requires db'.volumes[v].bdev == db.volumes[v].bdev
    ensures KeepsBacking(db, db')
  {
  }

  lemma CompleteAdded(db: Db, s: Spdk, db': Db, s': Spdk, id: Id)
    requires NvmeComplete(db, s) && KeepsBacking(db, db') && TablesGrow(s, s')
    requires forall m :: m in db.mappings ==>
        db.mappings[m].underlay in db.endpoints && db.mappings[m].volume in db.volumes
    requires id in db'.mappings && db'.mappings.Keys == db.mappings.Keys + {id}
    requires db'.mappings[id].underlay in db'.endpoints && db'.mappings[id].volume in db'.volumes
    requires var ep, n := db'.endpoints[db'.mappings[id].underlay], db'.mappings[id].under;
      Exports(ep) ==> n in Table(s', ep.protocol, ep.target)
                      && Some(Table(s', ep.protocol, ep.target)[n]) == db'.volumes[db'.mappings[id].volume].bdev
    ensures NvmeComplete(db', s')
  {
  }

  lemma OneMore(s: Spdk, s': Spdk, p: Protocol, t: string, under: int, bdev: Option<Bdev>)
    requires OnlyTable(s, s', p, t)
    requires var before, after := Table(s, p, t), Table(s', p, t);
      after == before || (bdev.Some? && under !in before && after == before[under := bdev.value])
    ensures TablesGrow(s, s')
  {
  }

  lemma DeleteMappingNvme(w: World, id: Id, wire: Wire)
    requires Inv(w) && ExportInv(w) && NvmeComplete(w.db, w.spdk)
    ensures var w' := Committed(w, DeleteMapping(w, id, wire)); NvmeComplete(w'.db, w'.spdk)
  {
    MappingRefs(w.db);
    var res := DeleteMapping(w, id, wire);
    if res.r.Ok? {
      var m := w.db.mappings[id];
      var ep := w.db.endpoints[m.underlay];
      DetachEffect(w.spdk, m.under, ep, wire);
      DeleteRows(w, id, wire);
      hide DbOk, Issued, Sound, NoDangling, Claims, Distinct, Detach, Table, OnlyTable, NvmeHeld, DeleteMapping;
      forall k | k in res.w.db.mappings
        ensures NvmeHeld(res.w.db, res.w.spdk, k)
      {
        assert NvmeHeld(w.db, w.spdk, k);
        RemainsHeld(w, res.w, id, k);
      }
    }
  }

  lemma DeleteRows(w: World, id: Id, wire: Wire)
    requires DeleteMapping(w, id, wire).r.Ok?
    ensures var r := DeleteMapping(w, id, wire).w;
      && id in w.db.mappings && w.db.mappings[id].underlay in w.db.endpoints
      && r.db.mappings == w.db.mappings - {id} && r.db.endpoints == w.db.endpoints
      && r.spdk == Detach(w.spdk, w.db.mappings[id].under, w.db.endpoints[w.db.mappings[id].underlay], wire).s
      && r.db.volumes.Keys == w.db.volumes.Keys
      && forall v :: v in w.db.volumes ==> r.db.volumes[v] == w.db.volumes[v].(status := r.db.volumes[v].status)
  {
  }

  lemma RemainsHeld(w: World, w': World, id: Id, k: Id)
    requires DbOk(w.db) && Distinct(w.db.endpoints)
    requires id in w.db.mappings && w.db.mappings[id].underlay in w.db.endpoints
    requires k in w.db.mappings && k != id && NvmeHeld(w.db, w.spdk, k)
    requires w.db.mappings[k].underlay in w.db.endpoints && w.db.mappings[k].volume in w.db.volumes
    requires k in w'.db.mappings && w'.db.mappings[k] == w.db.mappings[k] && w'.db.endpoints == w.db.endpoints
    requires w.db.mappings[k].volume in w'.db.volumes
             && w'.db.volumes[w.db.mappings[k].volume].bdev == w.db.volumes[w.db.mappings[k].volume].bdev
    requires var ep := w.db.endpoints[w.db.mappings[id].underlay];
      && OnlyTable(w.spdk, w'.spdk, ep.protocol, ep.target)
      && (ep.protocol == Nvme ==> Table(w'.spdk, Nvme, ep.target) == Table(w.spdk, Nvme, ep.target)
                                  || Table(w'.spdk, Nvme, ep.target) == Table(w.spdk, Nvme,
                                      ep.target) - {w.db.mappings[id].under})
    ensures NvmeHeld(w'.db, w'.spdk, k)
  {
    var e := w.db.endpoints[w.db.mappings[k].underlay];
    if e.protocol == Nvme && e.target != "" {
      hide Table, OnlyTable;
      OtherEntry(w.db, w.spdk, w'.spdk, id, k);
    }
  }

  /** Detaching one row leaves the namespace of every other row. */
  lemma OtherEntry(db: Db, s: Spdk, s': Spdk, id: Id, k: Id)
    requires UnderUnique(db.mappings) && Distinct(db.endpoints)
    requires id in db.mappings && k in db.mappings && k != id
    requires db.mappings[id].underlay in db.endpoints && db.mappings[k].underlay in db.endpoints
    requires var ep := db.endpoints[db.mappings[id].underlay];
      && OnlyTable(s, s', ep.protocol, ep.target)
      && (ep.protocol == Nvme ==> Table(s', Nvme, ep.target) == Table(s, Nvme, ep.target)
                                  || Table(s', Nvme, ep.target) == Table(s, Nvme, ep.target) - {db.mappings[id].under})
    requires var e := db.endpoints[db.mappings[k].underlay];
      e.protocol == Nvme && e.target != "" && db.mappings[k].under in Table(s, Nvme, e.target)
    ensures var e, n := db.endpoints[db.mappings[k].underlay], db.mappings[k].under;
      n in Table(s', Nvme, e.target) && Table(s', Nvme, e.target)[n] == Table(s, Nvme, e.target)[n]
  {
  }

  lemma ReconcileNvme(w: World, o: RowOrder, wires: Wires)
    requires Inv(w) && OrderOf(o, w.db) && NvmeComplete(w.db, w.spdk)
    ensures var w' := Reconciled(w, o, wires); NvmeComplete(w'.db, w'.spdk)
  {
    MappingRefs(w.db);
    ReconcileInv(w, o, wires);
    ReconcileMonotone(w, o, wires);
    var w' := Reconciled(w, o, wires);
    hide DbOk, Issued, Reconciled, SamePools, TablesGrow, NvmeComplete, KeepsBacking;
    BackingSame(w.db, w'.db);
    NvmeFrame(w.db, w.spdk, w'.db, w'.spdk);
  }

  // ---- Status ---------------------------------------------------------------------------------

  /** A volume is `in_use` exactly when it is mapped. */
  ghost predicate StatusExact(volumes: map<Id, Volume>, mappings: map<Id, Mapping>) {
    forall v :: v in volumes ==> (volumes[v].status == InUse <==> Mapped(mappings, v))
  }

  lemma StatusPut(volumes: map<Id, Volume>, mappings: map<Id, Mapping>, id: Id, v: Volume)
    requires StatusExact(volumes, mappings) && (v.status == InUse <==> Mapped(mappings, id))
    ensures StatusExact(volumes[id := v], mappings)
  {
  }

  lemma UnmappedIff(db: Db, v: Id)
    ensures Mapped(db.mappings, v) <==> MappingsOf(db, v) != {}
  {
    if m :| m in db.mappings && db.mappings[m].volume == v {
      assert m in MappingsOf(db, v);
    }
    if m :| m in MappingsOf(db, v) {
      assert m in db.mappings && db.mappings[m].volume == v;
    }
  }

  lemma CreateVolumeStatus(w: World, name: string, pool: Id, sizeMb: int, wire: Wire)
    requires Inv(w) && StatusExact(w.db.volumes, w.db.mappings)
    ensures var w' := CreateVolume(w, name, pool, sizeMb, wire).w; StatusExact(w'.db.volumes, w'.db.mappings)
  {
    MappingRefs(w.db);
    hide Inv, StatusExact, CreateVolume, VolumeOk;
    var w' := CreateVolume(w, name, pool, sizeMb, wire).w;
    if w' != w {
      CreatedVolume(w, name, pool, sizeMb, wire);
      assert !Mapped(w.db.mappings, w.serial);
      StatusPut(w.db.volumes, w.db.mappings, w.serial, w'.db.volumes[w.serial]);
    }
  }

  lemma DeleteVolumeStatus(w: World, id: Id, wire: Wire)
    requires StatusExact(w.db.volumes, w.db.mappings)
    ensures var w' := Committed(w, DeleteVolume(w, id, wire)); StatusExact(w'.db.volumes, w'.db.mappings)
  {
  }

  /** An extension that gets as far as the resize call keeps the status exact when, and only when,
      the volume is unmapped: on a mapped volume it writes `available`, or `error`. */
  lemma ExtendStatusIff(w: World, id: Id, newSizeMb: int, wire: Wire)
    requires Inv(w) && StatusExact(w.db.volumes, w.db.mappings)
    requires id in w.db.volumes && newSizeMb > w.db.volumes[id].sizeMb
    ensures var w' := ExtendVolume(w, id, newSizeMb, wire).w;
      StatusExact(w'.db.volumes, w'.db.mappings) <==> MappingsOf(w.db, id) == {}
  {
    UnmappedIff(w.db, id);
    var w' := ExtendVolume(w, id, newSizeMb, wire).w;
    hide Inv, LvolResized;
    assert w'.db.volumes == w.db.volumes[id := w'.db.volumes[id]] && w'.db.volumes[id].status in {Available, InError};
    if MappingsOf(w.db, id) == {} {
      StatusPut(w.db.volumes, w.db.mappings, id, w'.db.volumes[id]);
    }
  }

  lemma ExtendVolumeStatus(w: World, id: Id, newSizeMb: int, wire: Wire)
    requires Inv(w) && StatusExact(w.db.volumes, w.db.mappings) && MappingsOf(w.db, id) == {}
    ensures var w' := ExtendVolume(w, id, newSizeMb, wire).w; StatusExact(w'.db.volumes, w'.db.mappings)
    ensures var w' := Committed(w, ExtendVolume(w, id, newSizeMb, wire)); StatusExact(w'.db.volumes, w'.db.mappings)
  {
    if id in w.db.volumes && newSizeMb > w.db.volumes[id].sizeMb {
      ExtendStatusIff(w, id, newSizeMb, wire);
    }
    hide Inv, StatusExact;
  }

  lemma CreateMappingStatus(w: World, a: MapArgs, wire: Wire)
    requires Inv(w) && StatusExact(w.db.volumes, w.db.mappings)
    ensures var w' := Committed(w, CreateMapping(w, a, wire)); StatusExact(w'.db.volumes, w'.db.mappings)
  {
    hide DbOk, StatusExact, WireUnderlay, ResolveEndpoints;
    var res := CreateMapping(w, a, wire);
    if res.r.Ok? {
      StatusAdded(w.db.volumes, w.db.mappings, w.serial, res.w.db.mappings[w.serial], res.w.db.volumes[a.volume]);
    }
  }

  lemma StatusAdded(volumes: map<Id, Volume>, mappings: map<Id, Mapping>, id: Id, m: Mapping, v: Volume)
    requires StatusExact(volumes, mappings) && id !in mappings && v.status == InUse
    ensures StatusExact(volumes[m.volume := v], mappings[id := m])
  {
    var after := mappings[id := m];
    MappedAfterAdd(mappings, id, m);
    forall u | Mapped(after, u) && u != m.volume
      ensures Mapped(mappings, u)
    {
      var k :| k in after && after[k].volume == u;
      assert k in mappings && mappings[k].volume == u;
    }
  }

  lemma DeleteMappingStatus(w: World, id: Id, wire: Wire)
    requires Inv(w) && StatusExact(w.db.volumes, w.db.mappings)
    ensures var w' := Committed(w, DeleteMapping(w, id, wire)); StatusExact(w'.db.volumes, w'.db.mappings)
  {
    hide Inv, StatusExact, Detach;
    var res := DeleteMapping(w, id, wire);
    if res.r.Ok? {
      var v := w.db.mappings[id].volume;
      UnmappedIff(w.db.(mappings := w.db.mappings - {id}), v);
      StatusRemoved(w.db.volumes, w.db.mappings, id, res.w.db.volumes[v]);
      assert w.db.volumes[v := w.db.volumes[v]] == w.db.volumes;
    }
  }

  lemma StatusRemoved(volumes: map<Id, Volume>, mappings: map<Id, Mapping>, id: Id, v: Volume)
    requires StatusExact(volumes, mappings) && id in mappings && mappings[id].volume in volumes
    requires if Mapped(mappings - {id},
                       mappings[id].volume) then v == volumes[mappings[id].volume] else v.status == Available
    ensures StatusExact(volumes[mappings[id].volume := v], mappings - {id})
  {
    var after := mappings - {id};
    MappedAfterRemove(mappings, id);
    forall u | Mapped(after, u)
      ensures Mapped(mappings, u)
    {
      var k :| k in after && after[k].volume == u;
      assert k in mappings && mappings[k].volume == u;
    }
  }
}
