/** Requests keep every exposed LUN and namespace explained by a mapping row. */
module ExportSteps {
  import opened Model
  import opened Ensure
  import opened Inventory
  import opened Volumes
  import opened Mappings
  import opened Alloc
  import opened Invariants
  import opened DbSteps

  // ---- Requests that leave all tables alone ------------------------------------------

  ghost predicate NewTargetOk(db: Db, id: Id, p: Protocol, target: string) {
    forall e :: e in db.endpoints && e != id && db.endpoints[e].protocol == p && db.endpoints[e].target == target ==>
        target == ""
  }

  /** Only rows no mapping refers to change; SPDK keeps its tables and all lvols. */
  lemma QuietStep(w: World, w': World)
    requires ExportInv(w) && KeepsBacking(w.db, w'.db) && SameTables(w.spdk, w'.spdk)
    requires w.spdk.lvols.Keys <= w'.spdk.lvols.Keys
    requires Distinct(w'.db.endpoints) && Claims(w'.db, w'.spdk)
    ensures ExportInv(w')
  {
    SoundFrame(w.db, w.spdk, w'.db, w'.spdk);
    forall p, t, n | n in Table(w'.spdk, p, t)
      ensures Table(w'.spdk, p, t)[n] in w'.spdk.lvols
    {
      assert Table(w'.spdk, p, t) == Table(w.spdk, p, t);
    }
  }

  lemma DistinctPut(endpoints: map<Id, Endpoint>, id: Id, ep: Endpoint)
    requires Distinct(endpoints)
    requires ep.target != "" ==>
      forall e :: e in endpoints && e != id ==> endpoints[e].protocol != ep.protocol || endpoints[e].target != ep.target
    ensures Distinct(endpoints[id := ep])
  {
  }

  lemma DistinctSame(endpoints: map<Id, Endpoint>, id: Id, ep: Endpoint)
    requires Distinct(endpoints) && id in endpoints
    requires ep.protocol == endpoints[id].protocol && ep.target == endpoints[id].target
    ensures Distinct(endpoints[id := ep])
  {
  }

  lemma ClaimsFrame(db: Db, s: Spdk, db': Db, s': Spdk)
    requires Claims(db, s) && db'.arrays == db.arrays && db'.pools == db.pools && s'.lvstores == s.lvstores
    ensures Claims(db', s')
  {
  }

  lemma BackingSame(db: Db, db': Db)
    requires db'.endpoints == db.endpoints && db'.volumes == db.volumes && db'.mappings == db.mappings
    ensures KeepsBacking(db, db')
  {
  }

  lemma CreateArrayExport(w: World, name: string)
    requires Inv(w) && ExportInv(w)
    ensures ExportInv(Committed(w, CreateArray(w, name)))
  {
    hide Sound, NoDangling, Distinct;
    QuietStep(w, Committed(w, CreateArray(w, name)));
  }

  lemma CreateEndpointExport(w: World, arr: Id, p: Protocol, target: string, listeners: seq<string>)
    requires Inv(w) && ExportInv(w) && NewTargetOk(w.db, w.serial, p, target)
    ensures ExportInv(Committed(w, CreateEndpoint(w, arr, p, target, listeners)))
  {
    hide DbOk, Sound, NoDangling, Claims, Distinct;
    var r := Committed(w, CreateEndpoint(w, arr, p, target, listeners));
    DistinctPut(w.db.endpoints, w.serial, Endpoint(arr, p, target, listeners));
    ClaimsFrame(w.db, w.spdk, r.db, r.spdk);
    QuietStep(w, Committed(w, CreateEndpoint(w, arr, p, target, listeners)));
  }

  lemma UpdateEndpointExport(w: World, id: Id, target: Option<string>, listeners: Option<seq<string>>)
    requires Inv(w) && ExportInv(w)
    requires target.Some? && id in w.db.endpoints && target.value != w.db.endpoints[id].target ==>
      Unreferenced(w.db, id) && NewTargetOk(w.db, id, w.db.endpoints[id].protocol, target.value)
    ensures ExportInv(Committed(w, UpdateEndpoint(w, id, target, listeners)))
  {
    hide DbOk, Sound, NoDangling, Claims, Distinct;
    var r := Committed(w, UpdateEndpoint(w, id, target, listeners));
    if id in w.db.endpoints {
      var row := r.db.endpoints[id];
      if row.target == w.db.endpoints[id].target {
        DistinctSame(w.db.endpoints, id, row);
      } else {
        DistinctPut(w.db.endpoints, id, row);
      }
    }
    ClaimsFrame(w.db, w.spdk, r.db, r.spdk);
    QuietStep(w, Committed(w, UpdateEndpoint(w, id, target, listeners)));
  }

  lemma DeleteEndpointExport(w: World, id: Id)
    requires Inv(w) && ExportInv(w) && Unreferenced(w.db, id)
    ensures ExportInv(Committed(w, DeleteEndpoint(w, id)))
  {
    hide DbOk, Sound, NoDangling, Claims;
    var r := Committed(w, DeleteEndpoint(w, id));
    ClaimsFrame(w.db, w.spdk, r.db, r.spdk);
    QuietStep(w, Committed(w, DeleteEndpoint(w, id)));
  }

  lemma CreatePoolExport(w: World, name: string, arr: Id, backend: PoolBackend, sizeMb: Option<int>, path: string,
                         wire: Wire)
    requires Inv(w) && ExportInv(w)
    ensures ExportInv(Committed(w, CreatePool(w, name, arr, backend, sizeMb, path, wire)))
  {
    hide Sound, NoDangling, Distinct, DbOk, KeepsBacking, PoolEnsured, LvsName;
    var r := Committed(w, CreatePool(w, name, arr, backend, sizeMb, path, wire));
    BackingSame(w.db, r.db);
    if arr in w.db.arrays {
      PoolEffect(w.spdk, w.serial, Pool(name, arr, backend, sizeMb, path), w.db.arrays[arr].name, wire);
    }
    QuietStep(w, Committed(w, CreatePool(w, name, arr, backend, sizeMb, path, wire)));
  }

  lemma DeletePoolExport(w: World, id: Id)
    requires ExportInv(w)
    ensures ExportInv(Committed(w, DeletePool(w, id)))
  {
    hide Sound, NoDangling, Distinct;
    QuietStep(w, Committed(w, DeletePool(w, id)));
  }

  lemma CreateVolumeExport(w: World, name: string, pool: Id, sizeMb: int, wire: Wire)
    requires Inv(w) && ExportInv(w)
    ensures ExportInv(CreateVolume(w, name, pool, sizeMb, wire).w)
  {
    hide Inv, Sound, NoDangling, Distinct, Claims, CreateVolume, VolumeOk;
    var r := CreateVolume(w, name, pool, sizeMb, wire).w;
    if r != w {
      CreatedVolume(w, name, pool, sizeMb, wire);
      ClaimsFrame(w.db, w.spdk, r.db, r.spdk);
      QuietStep(w, r);
    }
  }

  lemma ResizedOnly(s: Spdk, name: Option<Bdev>, sizeMb: int, wire: Wire)
    ensures var a := LvolResized(s, name, sizeMb, wire).s;
      a == s.(lvols := a.lvols) && a.lvols.Keys == s.lvols.Keys
      && SameTables(s, a)
  {
  }

  lemma ExtendVolumeExport(w: World, id: Id, newSizeMb: int, wire: Wire)
    requires ExportInv(w)
    ensures ExportInv(ExtendVolume(w, id, newSizeMb, wire).w)
    ensures ExportInv(Committed(w, ExtendVolume(w, id, newSizeMb, wire)))
  {
    hide Sound, NoDangling, Distinct, Claims, LvolResized;
    var r := ExtendVolume(w, id, newSizeMb, wire).w;
    if id in w.db.volumes {
      ResizedOnly(w.spdk, w.db.volumes[id].bdev, newSizeMb, wire);
    }
    ClaimsFrame(w.db, w.spdk, r.db, r.spdk);
    ClaimsFrame(w.db, w.spdk, w.db, r.spdk);
    QuietStep(w, ExtendVolume(w, id, newSizeMb, wire).w);
    QuietStep(w, Committed(w, ExtendVolume(w, id, newSizeMb, wire)));
  }

  // ---- Deleting a volume -----------------------------------------------------------------

  /** A bdev with no mapping row behind it is exposed nowhere. */
  lemma UnmappedUnexposed(db: Db, s: Spdk, id: Id)
    requires DbOk(db) && Sound(db, s)
    requires id in db.volumes && MappingsOf(db, id) == {}
    ensures forall p, t, n :: n in Table(s, p, t) ==> Some(Table(s, p, t)[n]) != db.volumes[id].bdev
  {
    forall p, t, n | n in Table(s, p, t)
      ensures Some(Table(s, p, t)[n]) != db.volumes[id].bdev
    {
      var m :| Backs(db, m, p, t, n, Table(s, p, t)[n]);
      var v := db.mappings[m].volume;
      Unfold(db, v);
      Unfold(db, id);
      assert v == id ==> m in MappingsOf(db, id);
    }
  }

  lemma DeleteVolumeExport(w: World, id: Id, wire: Wire)
    requires Inv(w) && ExportInv(w)
    ensures ExportInv(Committed(w, DeleteVolume(w, id, wire)))
  {
    var r := DeleteVolume(w, id, wire);
    var w' := Committed(w, r);
    hide DbOk, Distinct, Sound, Claims, NoDangling;
    ClaimsFrame(w.db, w.spdk, w'.db, w'.spdk);
    if r.r.Ok? {
      UnmappedUnexposed(w.db, w.spdk, id);
      assert forall m :: m in w.db.mappings ==> m !in MappingsOf(w.db, id);
      SoundFrame(w.db, w.spdk, w'.db, w'.spdk);
      NoDanglingDeleted(w.spdk, w'.spdk, w.db.volumes[id].bdev);
    }
  }

  lemma NoDanglingDeleted(s: Spdk, s': Spdk, bdev: Option<Bdev>)
    requires NoDangling(s) && SameTables(s, s')
    requires forall p, t, n :: n in Table(s, p, t) ==> Some(Table(s, p, t)[n]) != bdev
    requires forall b :: b in s.lvols && Some(b) != bdev ==> b in s'.lvols
    ensures NoDangling(s')
  {
  }

  // ---- Creating a mapping -----------------------------------------------------------------

  /** Every id in the table of a target is used by a row of its endpoint: an id that is fresh
      in the database is fresh in SPDK. */
  lemma FreshInSpdk(db: Db, s: Spdk, underlay: Id)
    requires Sound(db, s) && Distinct(db.endpoints)
    requires underlay in db.endpoints && Exports(db.endpoints[underlay])
    ensures Table(s, db.endpoints[underlay].protocol, db.endpoints[underlay].target).Keys <= UsedUnder(db, underlay)
  {
    var ep := db.endpoints[underlay];
    forall n | n in Table(s, ep.protocol, ep.target)
      ensures n in UsedUnder(db, underlay)
    {
      var m :| Backs(db, m, ep.protocol, ep.target, n, Table(s, ep.protocol, ep.target)[n]);
      assert db.mappings[m].underlay == underlay;
    }
  }

  /** Wiring as a change of tables: nothing, or one new entry that opens the volume's bdev. */
  lemma WireEffect(db: Db, s: Spdk, under: int, v: Volume, ep: Endpoint, wire: Wire)
    ensures var a := WireUnderlay(db, s, under, v, ep, wire);
      && SameStorage(s, a.s)
      && OnlyTable(s, a.s, ep.protocol, ep.target)
      && var before, after := Table(s, ep.protocol, ep.target), Table(a.s, ep.protocol, ep.target);
      && (after == before || (Opens(s, v.bdev) && under !in before && after == before[under := v.bdev.value]))
      && (a.ok && Exports(ep) ==> under in after)
      && (!a.ok || !Exports(ep) ==> after == before)
  {
    hide Exported, Attach;
    WiredStorage(db, s, under, v, ep, wire);
    OnlyTableRefl(s, ep.protocol, ep.target);
    var e := Exported(s, ep, wire);
    ExportedOnly(s, ep, wire);
    forall p, t
      ensures Table(e.s, p, t) == Table(s, p, t)
    {
      SameTable(s, e.s, p, t);
    }
    AttachEffect(e.s, under, v.bdev, ep, wire);
  }

  /** A new row and the entry it explains. */
  lemma EntryAdded(db: Db, s: Spdk, db': Db, s': Spdk, m: Id, b: Bdev)
    requires Sound(db, s) && KeepsBacking(db, db')
    requires m in db'.mappings && db'.mappings[m].underlay in db'.endpoints
    requires var ep := db'.endpoints[db'.mappings[m].underlay];
      && OnlyTable(s, s', ep.protocol, ep.target)
      && var before, after := Table(s, ep.protocol, ep.target), Table(s', ep.protocol, ep.target);
      && (after == before
          || (after == before[db'.mappings[m].under := b]
              && Backs(db', m, ep.protocol, ep.target, db'.mappings[m].under, b)))
    ensures Sound(db', s')
  {
    var ep := db'.endpoints[db'.mappings[m].underlay];
    forall p, t, n | n in Table(s', p, t)
      ensures exists k :: Backs(db', k, p, t, n, Table(s', p, t)[n])
    {
      if n in Table(s, p, t) && Table(s', p, t)[n] == Table(s, p, t)[n] {
        var k :| Backs(db, k, p, t, n, Table(s, p, t)[n]);
        assert Backs(db', k, p, t, n, Table(s', p, t)[n]);
      } else {
        assert p == ep.protocol && t == ep.target;
        assert Backs(db', m, p, t, n, Table(s', p, t)[n]);
      }
    }
  }

  lemma NoDanglingAdded(s: Spdk, s': Spdk, p: Protocol, t: string, under: int, bdev: Option<Bdev>)
    requires NoDangling(s) && s'.lvols == s.lvols && OnlyTable(s, s', p, t)
    requires Table(s', p, t) == Table(s, p, t)
        || (Opens(s, bdev) && Table(s', p, t) == Table(s, p, t)[under := bdev.value])
    ensures NoDangling(s')
  {
  }

  /** What a creation that gets as far as the wiring does: one row in the working copy, and at most
      the entry of that row in SPDK. */
  lemma CreateMappingEffect(w: World, a: MapArgs, wire: Wire)
    requires CreateMapping(w, a, wire).w != w
    ensures var res := CreateMapping(w, a, wire);
      && a.volume in w.db.volumes && w.serial in res.w.db.mappings
      && var m, v := res.w.db.mappings[w.serial], w.db.volumes[a.volume];
      && m.volume == a.volume && m.underlay in w.db.endpoints && m.under == NewUnder(w.db, m.underlay, a.base)
      && res.w.db == w.db.(mappings := w.db.mappings[w.serial := m],
                           volumes := if res.r.Ok? then w.db.volumes[a.volume := v.(status := InUse)] else w.db.volumes)
      && var ep := w.db.endpoints[m.underlay];
      && SameStorage(w.spdk, res.w.spdk)
      && OnlyTable(w.spdk, res.w.spdk, ep.protocol, ep.target)
      && var before, after := Table(w.spdk, ep.protocol, ep.target), Table(res.w.spdk, ep.protocol, ep.target);
      && (after == before || (Opens(w.spdk, v.bdev) && m.under !in before && after == before[m.under := v.bdev.value]))
      && (res.r.Ok? && Exports(ep) ==> m.under in after)
      && (res.r.Err? || !Exports(ep) ==> after == before)
  {
    hide WireUnderlay, ResolveEndpoints, OnlyTable, Table, NewUnder, UsedLuns, LeastFree;
    var m := CreateMapping(w, a, wire).w.db.mappings[w.serial];
    WireEffect(w.db.(mappings := w.db.mappings[w.serial := m]), w.spdk, m.under, w.db.volumes[a.volume],
               w.db.endpoints[m.underlay], wire);
  }

  lemma CreateMappingExport(w: World, a: MapArgs, wire: Wire)
    requires Inv(w) && ExportInv(w)
    ensures ExportInv(Committed(w, CreateMapping(w, a, wire)))
  {
    hide DbOk, Sound, NoDangling, Distinct, OnlyTable, CreateMapping, NewUnder, LeastFree, Table;
    var res := CreateMapping(w, a, wire);
    if res.w != w {
      CreateMappingEffect(w, a, wire);
      var m := res.w.db.mappings[w.serial];
      var v := w.db.volumes[a.volume];
      var ep := w.db.endpoints[m.underlay];
      NoDanglingAdded(w.spdk, res.w.spdk, ep.protocol, ep.target, m.under, v.bdev);
      if res.r.Ok? {
        assert KeepsBacking(w.db, res.w.db);
        var b := if v.bdev.Some? then v.bdev.value else Lvol("", 0);
        if Table(res.w.spdk, ep.protocol, ep.target) != Table(w.spdk, ep.protocol, ep.target) {
          assert Backs(res.w.db, w.serial, ep.protocol, ep.target, m.under, b);
        }
        EntryAdded(w.db, w.spdk, res.w.db, res.w.spdk, w.serial, b);
      } else {
        SameAll(w.spdk, res.w.spdk, ep.protocol, ep.target);
        SoundFrame(w.db, w.spdk, w.db, res.w.spdk);
      }
    }
  }

  lemma SameAll(s: Spdk, s': Spdk, p: Protocol, t: string)
    requires OnlyTable(s, s', p, t) && Table(s', p, t) == Table(s, p, t)
    ensures SameTables(s, s')
  {
  }

  // ---- Deleting a mapping -----------------------------------------------------------------

  predicate CleanUpServed(ep: Endpoint, wire: Wire) {
    match ep.protocol
    case Iscsi => ep.target == "" || wire.Up(DeleteTarget)
    case Nvme => ep.target == "" || wire.Up(RemoveNamespace)
    case _ => true
  }

  /** What the caller can see before the call: the clean-up call is served, or there is no entry. */
  predicate CleanDelete(w: World, id: Id, wire: Wire) {
    id in w.db.mappings && w.db.mappings[id].underlay in w.db.endpoints ==>
      var ep := w.db.endpoints[w.db.mappings[id].underlay];
      CleanUpServed(ep, wire) || w.db.mappings[id].under !in Table(w.spdk, ep.protocol, ep.target)
  }

  /** The tables after a deletion: a sub-map of the tables before; the deleted row's entry is gone
      when the deletion is clean, and everything is still there when it is not. */
  lemma DeleteEffect(w: World, id: Id, wire: Wire)
    requires id in w.db.mappings && w.db.mappings[id].underlay in w.db.endpoints
    ensures var m, s' := w.db.mappings[id], DeleteMapping(w, id, wire).w.spdk;
      var ep := w.db.endpoints[m.underlay];
      && SameStorage(w.spdk, s')
      && OnlyTable(w.spdk, s', ep.protocol, ep.target)
      && (forall n :: n in Table(s', ep.protocol, ep.target) ==>
            n in Table(w.spdk, ep.protocol, ep.target)
            && Table(s', ep.protocol, ep.target)[n] == Table(w.spdk, ep.protocol, ep.target)[n])
      && (CleanDelete(w, id, wire) && Exports(ep) ==> m.under !in Table(s', ep.protocol, ep.target))
      && (!CleanUpServed(ep, wire) ==> Table(s', ep.protocol, ep.target) == Table(w.spdk, ep.protocol, ep.target))
  {
    var m := w.db.mappings[id];
    var ep := w.db.endpoints[m.underlay];
    hide Detach, Table, OnlyTable;
    DetachedStorage(w.spdk, m.under, ep, wire);
    DetachEffect(w.spdk, m.under, ep, wire);
    assert DeleteMapping(w, id, wire).w.spdk == Detach(w.spdk, m.under, ep, wire).s;
  }

  lemma KeepsOthers(w: World, id: Id, wire: Wire, k: Id, p: Protocol, t: string, n: int, b: Bdev)
    requires id in w.db.mappings && w.db.mappings[id].underlay in w.db.endpoints
    requires DeleteMapping(w, id, wire).r.Ok?
    ensures k != id && Backs(w.db, k, p, t, n, b) <==> Backs(DeleteMapping(w, id, wire).w.db, k, p, t, n, b)
  {
  }

  /** The rows a mapping refers to exist, so deleting it does not crash. */
  lemma DeletionSucceeds(w: World, id: Id, wire: Wire)
    requires DbOk(w.db) && id in w.db.mappings
    ensures DeleteMapping(w, id, wire).r == Ok(id)
    ensures w.db.mappings[id].underlay in w.db.endpoints
  {
    BdevOfMapped(w.db, id);
    hide DbOk, Detach;
  }

  lemma DeleteRowsOnly(w: World, id: Id, wire: Wire)
    requires DeleteMapping(w, id, wire).r.Ok?
    ensures var r := DeleteMapping(w, id, wire).w;
      && id in w.db.mappings && w.db.mappings[id].underlay in w.db.endpoints && r.serial == w.serial
      && r.db.arrays == w.db.arrays && r.db.pools == w.db.pools && r.db.endpoints == w.db.endpoints
  {
  }

  lemma CleanDeleteSound(w: World, id: Id, wire: Wire)
    requires DbOk(w.db) && ExportInv(w) && id in w.db.mappings && CleanDelete(w, id, wire)
    ensures Sound(DeleteMapping(w, id, wire).w.db, DeleteMapping(w, id, wire).w.spdk)
  {
    DeletionSucceeds(w, id, wire);
    var w' := DeleteMapping(w, id, wire).w;
    var m := w.db.mappings[id];
    DeleteRowsOnly(w, id, wire);
    var ep := w.db.endpoints[m.underlay];
    hide DbOk, DeleteMapping, CleanDelete, NoDangling, Claims, Distinct, Table;
    DeleteEffect(w, id, wire);
    TableOnlyExports(w'.spdk, ep);
    forall p, t, n | n in Table(w'.spdk, p, t)
      ensures exists k :: Backs(w'.db, k, p, t, n, Table(w'.spdk, p, t)[n])
    {
      var b := Table(w'.spdk, p, t)[n];
      assert n in Table(w.spdk, p, t) && Table(w.spdk, p, t)[n] == b;
      var k :| Backs(w.db, k, p, t, n, b);
      KeepsOthers(w, id, wire, k, p, t, n, b);
    }
  }

  lemma TableOnlyExports(s: Spdk, ep: Endpoint)
    ensures ep.target != "" && Table(s, ep.protocol, ep.target) != map[] ==> Exports(ep)
  {
  }

  /** A swallowed clean-up failure leaves an entry that no row explains. */
  lemma FailedCleanUpUnsound(w: World, id: Id, wire: Wire)
    requires DbOk(w.db) && ExportInv(w) && id in w.db.mappings && !CleanDelete(w, id, wire)
    ensures !Sound(DeleteMapping(w, id, wire).w.db, DeleteMapping(w, id, wire).w.spdk)
  {
    DeletionSucceeds(w, id, wire);
    var w' := DeleteMapping(w, id, wire).w;
    var m := w.db.mappings[id];
    var ep := w.db.endpoints[m.underlay];
    DeleteEffect(w, id, wire);
    var p, t, n := ep.protocol, ep.target, m.under;
    var b := Table(w.spdk, p, t)[n];
    hide DeleteMapping, NoDangling, Claims, Table;
    var j :| Backs(w.db, j, p, t, n, b);
    assert w.db.mappings[j].underlay == m.underlay;
    assert j == id;
    forall k
      ensures !Backs(w'.db, k, p, t, n, b)
    {
      KeepsOthers(w, id, wire, k, p, t, n, b);
      if Backs(w.db, k, p, t, n, b) {
        BackerUnique(w.db, j, k, p, t, n, b, b);
      }
    }
    assert n in Table(w'.spdk, p, t) && Table(w'.spdk, p, t)[n] == b;
  }

  /** Deleting a mapping keeps the exports explained exactly when the deletion is clean. */
  lemma DeleteMappingSoundIff(w: World, id: Id, wire: Wire)
    requires DbOk(w.db) && ExportInv(w) && id in w.db.mappings
    ensures Sound(DeleteMapping(w, id, wire).w.db, DeleteMapping(w, id, wire).w.spdk) <==> CleanDelete(w, id, wire)
  {
    hide *;
    if CleanDelete(w, id, wire) {
      CleanDeleteSound(w, id, wire);
    } else {
      FailedCleanUpUnsound(w, id, wire);
    }
  }

  lemma DeleteMappingExport(w: World, id: Id, wire: Wire)
    requires Inv(w) && ExportInv(w) && CleanDelete(w, id, wire)
    ensures ExportInv(Committed(w, DeleteMapping(w, id, wire)))
  {
    var res := DeleteMapping(w, id, wire);
    if res.r.Ok? {
      var ep := w.db.endpoints[w.db.mappings[id].underlay];
      DeleteRowsOnly(w, id, wire);
      hide DbOk, Sound, Distinct, CleanDelete, NoDangling, OnlyTable, Claims, DeleteMapping, Table;
      CleanDeleteSound(w, id, wire);
      DeleteEffect(w, id, wire);
      ClaimsFrame(w.db, w.spdk, res.w.db, res.w.spdk);
      NoDanglingShrunk(w.spdk, res.w.spdk, ep.protocol, ep.target);
    } else {
      CrashOnly(w, id, wire);
    }
  }

  lemma CrashOnly(w: World, id: Id, wire: Wire)
    requires DbOk(w.db) && DeleteMapping(w, id, wire).r.Err?
    ensures DeleteMapping(w, id, wire).w == w
  {
    if id in w.db.mappings {
      BdevOfMapped(w.db, id);
    }
  }

  lemma NoDanglingShrunk(s: Spdk, s': Spdk, p: Protocol, t: string)
    requires NoDangling(s) && s'.lvols == s.lvols && OnlyTable(s, s', p, t)
    requires forall n :: n in Table(s', p, t) ==> n in Table(s, p, t) && Table(s', p, t)[n] == Table(s, p, t)[n]
    ensures NoDangling(s')
  {
  }
}
