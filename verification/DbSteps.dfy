/** Every request keeps the database invariant. */
module DbSteps {
  import opened Model
  import opened Ensure
  import opened Inventory
  import opened Volumes
  import opened Mappings
  import opened Alloc
  import opened Invariants

  /** A route that commits on success only: an error discards the working copy, not the SPDK calls. */
  function Committed(w: World, res: Res<Id>): World {
    if res.r.Ok? then res.w else res.w.(db := w.db)
  }

  lemma SerialFresh(w: World)
    requires Inv(w)
    ensures w.serial !in w.db.arrays && w.serial !in w.db.endpoints && w.serial !in w.db.pools
    ensures w.serial !in w.db.volumes && w.serial !in w.db.hosts && w.serial !in w.db.mappings
  {
  }

  lemma CreateArrayInv(w: World, name: string)
    requires Inv(w)
    ensures Inv(Committed(w, CreateArray(w, name)))
  {
    if ArraysNamed(w.db, name) == {} {
      assert forall a :: a in w.db.arrays ==> a !in ArraysNamed(w.db, name);
    }
  }

  lemma CreateEndpointInv(w: World, arr: Id, p: Protocol, target: string, listeners: seq<string>)
    requires Inv(w)
    ensures Inv(Committed(w, CreateEndpoint(w, arr, p, target, listeners)))
  {
    hide ArraysOk, PoolsOk, HostsOk, VolumesOk, LunsUnique, UnderUnique, InUseMapped;
  }

  lemma UpdateEndpointInv(w: World, id: Id, target: Option<string>, listeners: Option<seq<string>>)
    requires Inv(w)
    ensures Inv(Committed(w, UpdateEndpoint(w, id, target, listeners)))
  {
    hide ArraysOk, PoolsOk, HostsOk, VolumesOk, LunsUnique, UnderUnique, InUseMapped;
  }

  ghost predicate Unreferenced(db: Db, e: Id) {
    forall m :: m in db.mappings ==> db.mappings[m].persona != e && db.mappings[m].underlay != e
  }

  lemma DeleteEndpointInv(w: World, id: Id)
    requires Inv(w) && Unreferenced(w.db, id)
    ensures Inv(Committed(w, DeleteEndpoint(w, id)))
  {
    hide ArraysOk, PoolsOk, HostsOk, VolumesOk, LunsUnique, UnderUnique, InUseMapped;
  }

  lemma CreateHostInv(w: World, name: string, iqns: seq<string>, nqns: seq<string>, wwpns: seq<string>)
    requires Inv(w)
    ensures Inv(Committed(w, CreateHost(w, name, iqns, nqns, wwpns)))
  {
    if HostsNamed(w.db, name) == {} {
      assert forall h :: h in w.db.hosts ==> h !in HostsNamed(w.db, name);
    }
  }

  lemma AddHostPortInv(w: World, id: Id, kind: PortType, port: string)
    requires Inv(w)
    ensures Inv(Committed(w, AddHostPort(w, id, kind, port)))
  {
  }

  lemma DeleteHostInv(w: World, id: Id)
    requires Inv(w)
    ensures Inv(Committed(w, DeleteHost(w, id)))
  {
    hide ArraysOk, EndpointsOk, PoolsOk, VolumesOk, LunsUnique, UnderUnique, InUseMapped;
    if MappingsOfHost(w.db, id) == {} {
      assert forall m :: m in w.db.mappings ==> m !in MappingsOfHost(w.db, id);
    }
  }

  lemma CreatePoolInv(w: World, name: string, arr: Id, backend: PoolBackend, sizeMb: Option<int>, path: string,
                      wire: Wire)
    requires Inv(w)
    ensures Inv(Committed(w, CreatePool(w, name, arr, backend, sizeMb, path, wire)))
  {
    hide ArraysOk, EndpointsOk, PoolsOk, HostsOk, VolumesOk, MappingsOk, LunsUnique, UnderUnique, InUseMapped,
         PoolEnsured, LvsName;
    var r := CreatePool(w, name, arr, backend, sizeMb, path, wire);
    if r.w != w {
      PoolEffect(w.spdk, w.serial, Pool(name, arr, backend, sizeMb, path), w.db.arrays[arr].name, wire);
    }
    if r.r.Ok? {
      assert forall p :: p in w.db.pools ==> p !in PoolsNamed(w.db, arr, name);
      PoolPut(w.db.arrays, w.db.pools, w.serial, r.w.db.pools[w.serial]);
      VolumesPools(w.db.arrays, w.db.pools, r.w.db.pools, w.db.volumes);
    }
  }

  lemma DeletePoolInv(w: World, id: Id)
    requires Inv(w)
    ensures Inv(Committed(w, DeletePool(w, id)))
  {
    hide ArraysOk, EndpointsOk, HostsOk, MappingsOk, LunsUnique, UnderUnique, InUseMapped;
    if VolumesIn(w.db, id) == {} {
      assert forall v :: v in w.db.volumes ==> v !in VolumesIn(w.db, id);
    }
  }

  lemma AttachPoolInv(w: World, arr: Id, id: Id)
    requires Inv(w) && VolumesIn(w.db, id) == {}
    ensures Inv(Committed(w, AttachPool(w, arr, id)))
  {
    hide ArraysOk, EndpointsOk, HostsOk, VolumesOk, MappingsOk, LunsUnique, UnderUnique, InUseMapped;
    var r := AttachPool(w, arr, id);
    if r.r.Ok? {
      assert forall v :: v in w.db.volumes ==> v !in VolumesIn(w.db, id);
      assert forall p :: p in w.db.pools && w.db.pools[p].arr == arr && w.db.pools[p].name == w.db.pools[id].name ==>
        p in PoolsNamed(w.db, arr, w.db.pools[id].name);
      PoolPut(w.db.arrays, w.db.pools, id, r.w.db.pools[id]);
      VolumesPools(w.db.arrays, w.db.pools, r.w.db.pools, w.db.volumes);
    }
  }

  // ---- Volumes --------------------------------------------------------------------

  /** The one row a creation adds. */
  lemma CreatedVolume(w: World, name: string, pool: Id, sizeMb: int, wire: Wire)
    requires Inv(w) && CreateVolume(w, name, pool, sizeMb, wire).w != w
    ensures var r := CreateVolume(w, name, pool, sizeMb, wire).w;
      && pool in w.db.pools && w.db.pools[pool].arr in w.db.arrays
      && w.serial !in w.db.volumes && w.serial in r.db.volumes
          && r.db == w.db.(volumes := w.db.volumes[w.serial := r.db.volumes[w.serial]])
      && r.serial == w.serial + 1 && r.spdk == w.spdk.(lvols := r.spdk.lvols)
      && (forall b :: b in r.spdk.lvols ==> b in w.spdk.lvols || b.volume == w.serial)
      && (forall b :: b in w.spdk.lvols ==> b in r.spdk.lvols && r.spdk.lvols[b] == w.spdk.lvols[b])
      && (var v := r.db.volumes[w.serial]; v.bdev.Some? ==>
            v.bdev.value in r.spdk.lvols && r.spdk.lvols[v.bdev.value] == v.sizeMb)
      && VolumeOk(w.db.arrays, w.db.pools, w.serial, r.db.volumes[w.serial]) && r.db.volumes[w.serial].status != InUse
      && forall v :: v in w.db.volumes ==>
          w.db.volumes[v].arr != r.db.volumes[w.serial].arr || w.db.volumes[v].name != r.db.volumes[w.serial].name
  {
    hide LvsName, DbOk;
    assert forall v :: v in w.db.volumes ==> v !in VolumesNamed(w.db, w.db.pools[pool].arr, name);
  }

  lemma VolumeAdded(db: Db, id: Id, v: Volume)
    requires DbOk(db) && id !in db.volumes && VolumeOk(db.arrays, db.pools, id, v) && v.status != InUse
    requires forall u :: u in db.volumes ==> db.volumes[u].arr != v.arr || db.volumes[u].name != v.name
    ensures DbOk(db.(volumes := db.volumes[id := v]))
  {
    hide ArraysOk, EndpointsOk, PoolsOk, HostsOk, VolumesOk, MappingsOk, LunsUnique, UnderUnique, VolumeOk, Mapped;
    VolumePut(db.arrays, db.pools, db.volumes, id, v);
    MappingsVolumes(db.endpoints, db.volumes, db.volumes[id := v], db.hosts, db.mappings);
  }

  /** The route commits the row of a failed creation too. */
  lemma CreateVolumeInv(w: World, name: string, pool: Id, sizeMb: int, wire: Wire)
    requires Inv(w)
    ensures Inv(CreateVolume(w, name, pool, sizeMb, wire).w)
  {
    hide DbOk, CreateVolume, VolumeOk;
    var r := CreateVolume(w, name, pool, sizeMb, wire).w;
    if r != w {
      CreatedVolume(w, name, pool, sizeMb, wire);
      VolumeAdded(w.db, w.serial, r.db.volumes[w.serial]);
    }
  }

  lemma DeleteVolumeInv(w: World, id: Id, wire: Wire)
    requires Inv(w)
    ensures Inv(Committed(w, DeleteVolume(w, id, wire)))
  {
    hide ArraysOk, EndpointsOk, PoolsOk, HostsOk, MappingsOk, LunsUnique, UnderUnique;
    var r := DeleteVolume(w, id, wire);
    if r.r.Ok? {
      assert forall m :: m in w.db.mappings ==> m !in MappingsOf(w.db, id);
      MappingsVolumes(w.db.endpoints, w.db.volumes, r.w.db.volumes, w.db.hosts, w.db.mappings);
    }
  }

  /** The v1 route commits after an error too, the delta routes do not. */
  lemma ExtendVolumeInv(w: World, id: Id, newSizeMb: int, wire: Wire)
    requires Inv(w)
    ensures Inv(ExtendVolume(w, id, newSizeMb, wire).w)
    ensures Inv(Committed(w, ExtendVolume(w, id, newSizeMb, wire)))
  {
    hide ArraysOk, EndpointsOk, PoolsOk, HostsOk, VolumesOk, MappingsOk, LunsUnique, UnderUnique;
    var r := ExtendVolume(w, id, newSizeMb, wire).w;
    if r != w {
      VolumeChanged(w.db.arrays, w.db.pools, w.db.volumes, id, r.db.volumes[id]);
      MappingsVolumes(w.db.endpoints, w.db.volumes, r.db.volumes, w.db.hosts, w.db.mappings);
    }
  }

  // ---- Mappings -------------------------------------------------------------------

  /** The ids of `m` are used by no row of their group. */
  ghost predicate FreshIds(db: Db, m: Mapping) {
    && (forall n :: n in db.mappings && db.mappings[n].host == m.host && db.mappings[n].persona == m.persona ==>
          db.mappings[n].lun != m.lun)
    && (forall n :: n in db.mappings && db.mappings[n].underlay == m.underlay ==> db.mappings[n].under != m.under)
  }

  lemma AllocatedFresh(db: Db, m: Mapping, base: int)
    requires m.underlay in db.endpoints
    requires m.lun == LeastFree(UsedLuns(db, m.host, m.persona), 0) && m.under == NewUnder(db, m.underlay, base)
    ensures FreshIds(db, m) && m.lun >= 0 && (db.endpoints[m.underlay].protocol == Nvme ==> m.under >= 1)
  {
  }

  lemma WiredStorage(db: Db, s: Spdk, under: int, v: Volume, ep: Endpoint, wire: Wire)
    ensures SameStorage(s, WireUnderlay(db, s, under, v, ep, wire).s)
  {
    hide Exported, Attach;
    ExportedOnly(s, ep, wire);
    AttachedStorage(Exported(s, ep, wire).s, under, v.bdev, ep, wire);
  }

  /** The row a successful creation adds. */
  lemma CreatedMapping(w: World, a: MapArgs, wire: Wire)
    requires DbOk(w.db) && CreateMapping(w, a, wire).r.Ok?
    ensures var r := CreateMapping(w, a, wire).w;
      && w.serial in r.db.mappings && a.volume in w.db.volumes
      && var m := r.db.mappings[w.serial];
      && m.volume == a.volume && MappingOk(w.db.endpoints, w.db.volumes, w.db.hosts, m)
      && r.db == w.db.(mappings := w.db.mappings[w.serial := m],
                       volumes := w.db.volumes[a.volume := w.db.volumes[a.volume].(status := InUse)])
      && FreshIds(w.db, m)
  {
    var m := CreateMapping(w, a, wire).w.db.mappings[w.serial];
    Unfold(w.db, a.volume);
    hide DbOk, WireUnderlay, ResolveEndpoints, NewUnder, LeastFree, UsedLuns, FreshIds, LvsName;
    AllocatedFresh(w.db, m, a.base);
  }

  lemma MappingPut(db: Db, id: Id, m: Mapping)
    requires DbOk(db) && id !in db.mappings && MappingOk(db.endpoints, db.volumes, db.hosts, m)
    requires FreshIds(db, m)
    ensures DbOk(db.(mappings := db.mappings[id := m],
                     volumes := db.volumes[m.volume := db.volumes[m.volume].(status := InUse)]))
  {
    hide ArraysOk, EndpointsOk, PoolsOk, HostsOk, VolumesOk, MappingsOk, LunsUnique, UnderUnique, Mapped;
    var v := db.volumes[m.volume].(status := InUse);
    VolumeChanged(db.arrays, db.pools, db.volumes, m.volume, v);
    MappingsVolumes(db.endpoints, db.volumes, db.volumes[m.volume := v], db.hosts, db.mappings);
    MappingAdded(db.endpoints, db.volumes[m.volume := v], db.hosts, db.mappings, id, m);
    MappedAfterAdd(db.mappings, id, m);
  }

  /** Wiring touches no storage, whether it succeeds or fails. */
  lemma CreateMappingStorage(w: World, a: MapArgs, wire: Wire)
    ensures SameStorage(w.spdk, CreateMapping(w, a, wire).w.spdk)
    ensures CreateMapping(w, a, wire).w == w || CreateMapping(w, a, wire).w.serial == w.serial + 1
    ensures CreateMapping(w, a, wire).r.Ok? ==> CreateMapping(w, a, wire).w.serial == w.serial + 1
  {
    hide WireUnderlay, ResolveEndpoints, NewUnder;
    var res := CreateMapping(w, a, wire);
    if res.w != w {
      var m := res.w.db.mappings[w.serial];
      WiredStorage(w.db.(mappings := w.db.mappings[w.serial := m]), w.spdk, m.under, w.db.volumes[a.volume],
                   w.db.endpoints[m.underlay], wire);
    }
  }

  lemma CreateMappingInv(w: World, a: MapArgs, wire: Wire)
    requires Inv(w)
    ensures Inv(Committed(w, CreateMapping(w, a, wire)))
  {
    hide DbOk, CreateMapping, MappingOk, FreshIds;
    CreateMappingStorage(w, a, wire);
    if CreateMapping(w, a, wire).r.Ok? {
      CreatedMapping(w, a, wire);
      MappingPut(w.db, w.serial, CreateMapping(w, a, wire).w.db.mappings[w.serial]);
    }
  }

  lemma Unfold(db: Db, v: Id)
    requires VolumesOk(db.arrays, db.pools, db.volumes) && v in db.volumes
    ensures VolumeOk(db.arrays, db.pools, v, db.volumes[v])
  {
  }

  lemma MappedAfterAdd(mappings: map<Id, Mapping>, id: Id, m: Mapping)
    requires id !in mappings
    ensures forall v :: Mapped(mappings, v) ==> Mapped(mappings[id := m], v)
    ensures Mapped(mappings[id := m], m.volume)
  {
    var after := mappings[id := m];
    assert after[id] == m;
    forall v | Mapped(mappings, v)
      ensures Mapped(after, v)
    {
      var n :| n in mappings && mappings[n].volume == v;
      assert n in after && after[n].volume == v;
    }
  }

  lemma DeleteMappingInv(w: World, id: Id, wire: Wire)
    requires Inv(w)
    ensures Inv(Committed(w, DeleteMapping(w, id, wire)))
  {
    hide ArraysOk, EndpointsOk, PoolsOk, HostsOk, VolumesOk, MappingsOk, LunsUnique, UnderUnique, Detach;
    var res := DeleteMapping(w, id, wire);
    if id in w.db.mappings && w.db.mappings[id].underlay in w.db.endpoints {
      DetachedStorage(w.spdk, w.db.mappings[id].under, w.db.endpoints[w.db.mappings[id].underlay], wire);
    }
    if res.r.Ok? {
      var v := w.db.mappings[id].volume;
      var mappings := w.db.mappings - {id};
      var w1 := w.db.(mappings := mappings);
      assert res.w.db.mappings == mappings;
      MappingRemoved(w.db.endpoints, w.db.volumes, w.db.hosts, w.db.mappings, id);
      if MappingsOf(w1, v) == {} {
        BdevOfMapped(w.db, id);
        VolumeChanged(w.db.arrays, w.db.pools, w.db.volumes, v, res.w.db.volumes[v]);
        MappingsVolumes(w.db.endpoints, w.db.volumes, res.w.db.volumes, w.db.hosts, mappings);
      } else {
        var n :| n in MappingsOf(w1, v);
        assert mappings[n].volume == v;
      }
      MappedAfterRemove(w.db.mappings, id);
    }
  }

  lemma BdevOfMapped(db: Db, m: Id)
    requires MappingsOk(db.endpoints, db.volumes, db.hosts, db.mappings) && m in db.mappings
    ensures MappingOk(db.endpoints, db.volumes, db.hosts, db.mappings[m])
  {
  }

  lemma MappedAfterRemove(mappings: map<Id, Mapping>, id: Id)
    requires id in mappings
    ensures forall v :: v != mappings[id].volume && Mapped(mappings, v) ==> Mapped(mappings - {id}, v)
  {
    var after := mappings - {id};
    forall v | v != mappings[id].volume && Mapped(mappings, v)
      ensures Mapped(after, v)
    {
      var n :| n in mappings && mappings[n].volume == v;
      assert n in after && after[n].volume == v;
    }
  }
}
