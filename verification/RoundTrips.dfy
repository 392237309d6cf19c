/** What is created is found again, and what one request does another undoes. */
module RoundTrips {
  import opened Model
  import opened Ensure
  import opened Inventory
  import opened Volumes
  import opened Mappings
  import opened Alloc
  import opened Invariants
  import opened DbSteps
  import opened ExportSteps
  import opened MappingFailures

  lemma OnlyHit(hits: set<Id>, id: Id)
    requires id in hits && forall x :: x in hits ==> x == id
    ensures First(hits) == Some(id)
  {
  }

  // ---- Inventory ------------------------------------------------------------------------

  /** A name is taken exactly when creation is refused; a created array is what its name finds. */
  lemma ArrayFound(w: World, name: string)
    requires Inv(w)
    ensures var res := CreateArray(w, name);
      && (res.r == Err(AlreadyExists) <==> First(ArraysNamed(w.db, name)).Some?)
      && (res.r.Ok? ==> First(ArraysNamed(res.w.db, name)) == Some(res.r.value)
                        && res.w.db.arrays - {res.r.value} == w.db.arrays)
  {
    SerialFresh(w);
    hide Inv;
    var res := CreateArray(w, name);
    if res.r.Ok? {
      assert forall a :: a in w.db.arrays ==> a !in ArraysNamed(w.db, name);
      OnlyHit(ArraysNamed(res.w.db, name), w.serial);
    }
  }

  /** A created endpoint is what its id resolves to, and what its protocol resolves to exactly when
      the array had none of that protocol; deleting it restores the tables. */
  lemma EndpointRoundTrip(w: World, arr: Id, p: Protocol, target: string, listeners: seq<string>)
    requires Inv(w) && arr in w.db.arrays
    ensures var res := CreateEndpoint(w, arr, p, target, listeners);
      && res.r.Ok? && DeleteEndpoint(res.w, res.r.value).w.db == w.db
      && res.w.db.endpoints[res.r.value].target == target && res.w.db.endpoints[res.r.value].listeners == listeners
      && ResolveEndpoint(res.w.db, arr, p, Some(res.r.value)) == Ok(res.r.value)
      && (ResolveEndpoint(res.w.db, arr, p, None) == Ok(res.r.value) <==> EndpointsOf(w.db, arr, p) == {})
  {
    SerialFresh(w);
    hide Inv;
    var res := CreateEndpoint(w, arr, p, target, listeners);
    assert EndpointsOf(res.w.db, arr, p) == EndpointsOf(w.db, arr, p) + {w.serial};
    assert res.w.db.endpoints - {w.serial} == w.db.endpoints;
    if EndpointsOf(w.db, arr, p) == {} {
      OnlyHit(EndpointsOf(res.w.db, arr, p), w.serial);
    } else {
      OlderFirst(w, arr, p);
    }
  }

  lemma OlderFirst(w: World, arr: Id, p: Protocol)
    requires Inv(w) && EndpointsOf(w.db, arr, p) != {}
    ensures First(EndpointsOf(w.db, arr, p) + {w.serial}) != Some(w.serial)
  {
    hide DbOk;
    var e :| e in EndpointsOf(w.db, arr, p);
    assert e in EndpointsOf(w.db, arr, p) + {w.serial};
  }

  /** Writing the old values back undoes an update. */
  lemma UpdateRoundTrip(w: World, id: Id, target: Option<string>, listeners: Option<seq<string>>)
    requires id in w.db.endpoints
    ensures var was := w.db.endpoints[id];
      var res := UpdateEndpoint(w, id, target, listeners);
      && res.r == Ok(id)
      && (target.Some? ==> res.w.db.endpoints[id].target == target.value)
      && (listeners.Some? ==> res.w.db.endpoints[id].listeners == listeners.value)
      && UpdateEndpoint(res.w, id, Some(was.target), Some(was.listeners)).w == w
  {
    var was := w.db.endpoints[id];
    var res := UpdateEndpoint(w, id, target, listeners);
    assert res.w.db.endpoints[id := was] == w.db.endpoints;
  }

  /** A created pool is what its name finds on its array; deleting it restores the rows. */
  lemma PoolRoundTrip(w: World, name: string, arr: Id, backend: PoolBackend, sizeMb: Option<int>, path: string,
                      wire: Wire)
    requires Inv(w) && CreatePool(w, name, arr, backend, sizeMb, path, wire).r.Ok?
    ensures var res := CreatePool(w, name, arr, backend, sizeMb, path, wire);
      && First(PoolsNamed(res.w.db, arr, name)) == Some(res.r.value)
      && DeletePool(res.w, res.r.value).r.Ok? && DeletePool(res.w, res.r.value).w.db == w.db
  {
    SerialFresh(w);
    PoolsReferenced(w.db);
    hide Inv, PoolEnsured, LvsName;
    var res := CreatePool(w, name, arr, backend, sizeMb, path, wire);
    PoolEffect(w.spdk, w.serial, Pool(name, arr, backend, sizeMb, path), w.db.arrays[arr].name, wire);
    assert forall p :: p in w.db.pools ==> p !in PoolsNamed(w.db, arr, name);
    OnlyHit(PoolsNamed(res.w.db, arr, name), w.serial);
    assert res.w.db.pools - {w.serial} == w.db.pools;
    assert VolumesIn(res.w.db, w.serial) == {};
  }

  lemma PoolsReferenced(db: Db)
    requires DbOk(db)
    ensures forall v :: v in db.volumes ==> db.volumes[v].pool in db.pools
  {
    forall v | v in db.volumes
      ensures db.volumes[v].pool in db.pools
    {
      Unfold(db, v);
    }
  }

  /** Moving a pool back undoes the move. */
  lemma AttachRoundTrip(w: World, arr: Id, id: Id)
    requires Inv(w) && AttachPool(w, arr, id).r.Ok?
    ensures AttachPool(AttachPool(w, arr, id).w, w.db.pools[id].arr, id).w == w
    ensures AttachPool(w, arr, id).w.db.pools[id].arr == arr
  {
    var back := w.db.pools[id].arr;
    var w1 := AttachPool(w, arr, id).w;
    assert w1.db.pools[id := w.db.pools[id]] == w.db.pools;
    forall p | p in PoolsNamed(w1.db, back, w.db.pools[id].name)
      ensures p == id
    {
    }
  }

  /** A created host is what its name finds, with the ports it was given; deleting it restores the tables. */
  lemma HostRoundTrip(w: World, name: string, iqns: seq<string>, nqns: seq<string>, wwpns: seq<string>)
    requires Inv(w)
    ensures var res := CreateHost(w, name, iqns, nqns, wwpns);
      && (res.r == Err(AlreadyExists) <==> First(HostsNamed(w.db, name)).Some?)
      && (res.r.Ok? ==>
            && First(HostsNamed(res.w.db, name)) == Some(res.r.value)
            && (forall kind :: Ports(res.w.db.hosts[res.r.value], kind)
                               == match kind case IscsiPort => iqns case FcPort => wwpns case NvmePort => nqns)
            && DeleteHost(res.w, res.r.value).r.Ok? && DeleteHost(res.w, res.r.value).w.db == w.db)
  {
    SerialFresh(w);
    HostsReferenced(w.db);
    hide Inv;
    var res := CreateHost(w, name, iqns, nqns, wwpns);
    if res.r.Ok? {
      assert forall h :: h in w.db.hosts ==> h !in HostsNamed(w.db, name);
      OnlyHit(HostsNamed(res.w.db, name), w.serial);
      assert res.w.db.hosts - {w.serial} == w.db.hosts;
      assert MappingsOfHost(res.w.db, w.serial) == {};
    }
  }

  lemma HostsReferenced(db: Db)
    requires DbOk(db)
    ensures forall m :: m in db.mappings ==> db.mappings[m].host in db.hosts
  {
    forall m | m in db.mappings
      ensures db.mappings[m].host in db.hosts
    {
      BdevOfMapped(db, m);
    }
  }

  function Ports(h: Host, kind: PortType): seq<string> {
    match kind
    case IscsiPort => h.iqns
    case FcPort => h.wwpns
    case NvmePort => h.nqns
  }

  /** Adding a port adds it to its own list once, at the end, and changes no other list or row;
      adding it again changes nothing. */
  lemma PortAddedOnce(w: World, id: Id, kind: PortType, port: string, other: PortType)
    requires id in w.db.hosts
    ensures var w' := AddHostPort(w, id, kind, port).w;
      && id in w'.db.hosts && port in Ports(w'.db.hosts[id], kind)
      && Ports(w.db.hosts[id], other) <= Ports(w'.db.hosts[id], other)
      && (other != kind || port in Ports(w.db.hosts[id], kind) ==>
            Ports(w'.db.hosts[id], other) == Ports(w.db.hosts[id], other))
      && w'.db.hosts[id].name == w.db.hosts[id].name && w'.db.hosts - {id} == w.db.hosts - {id}
      && AddHostPort(w', id, kind, port).w == w'
  {
    var w' := AddHostPort(w, id, kind, port).w;
    assert w'.db.hosts[id := w'.db.hosts[id]] == w'.db.hosts;
  }

  // ---- Volumes ----------------------------------------------------------------------------

  /** A created volume has the requested size and an lvol of that size; deleting it, with the call
      served, restores both stores. */
  lemma VolumeRoundTrip(w: World, name: string, pool: Id, sizeMb: int, wire: Wire, wire': Wire)
    requires Inv(w) && CreateVolume(w, name, pool, sizeMb, wire).r.Ok? && wire'.Up(DeleteLvol)
    ensures var res := CreateVolume(w, name, pool, sizeMb, wire);
      var back := DeleteVolume(res.w, res.r.value, wire');
      && res.r.value in res.w.db.volumes
      && var v := res.w.db.volumes[res.r.value];
      && v.name == name && v.pool == pool && v.sizeMb == sizeMb && v.status == Available
      && v.bdev.Some? && v.bdev.value in res.w.spdk.lvols && res.w.spdk.lvols[v.bdev.value] == sizeMb
      && back.r.Ok? && back.w.db == w.db && back.w.spdk == w.spdk
  {
    SerialFresh(w);
    VolumesReferenced(w.db);
    hide DbOk, LvsName;
    var res := CreateVolume(w, name, pool, sizeMb, wire);
    assert res.w.db.volumes - {w.serial} == w.db.volumes;
    assert MappingsOf(res.w.db, w.serial) == {};
    var b := res.w.db.volumes[w.serial].bdev.value;
    assert b !in w.spdk.lvols;
    assert res.w.spdk.lvols - {b} == w.spdk.lvols;
  }

  lemma VolumesReferenced(db: Db)
    requires DbOk(db)
    ensures forall m :: m in db.mappings ==> db.mappings[m].volume in db.volumes
  {
    forall m | m in db.mappings
      ensures db.mappings[m].volume in db.volumes
    {
      BdevOfMapped(db, m);
    }
  }

  // ---- Mappings ------------------------------------------------------------------------------

  /** Mapping an unmapped available volume and unmapping it again, with the clean-up served, restores
      every row.  On an NVMe-oF endpoint with an NQN it restores every LUN and namespace table too; on
      an iSCSI endpoint with an IQN it does if and only if the target had no LUN before. */
  lemma MappingRoundTrip(w: World, a: MapArgs, wire: Wire, wire': Wire)
    requires Inv(w) && ExportInv(w) && CreateMapping(w, a, wire).r.Ok?
    requires a.volume in w.db.volumes && MappingsOf(w.db, a.volume) == {} && w.db.volumes[a.volume].status == Available
    ensures var w1 := CreateMapping(w, a, wire).w;
      var back := DeleteMapping(w1, w.serial, wire');
      && back.r.Ok? && back.w.db == w.db
      && w.serial in w1.db.mappings && w1.db.mappings[w.serial].underlay in w.db.endpoints
      && var ep := w.db.endpoints[w1.db.mappings[w.serial].underlay];
      && (ep.protocol == Nvme && ep.target != "" && wire'.Up(RemoveNamespace) ==> SameTables(w.spdk, back.w.spdk))
      && (ep.protocol == Iscsi && ep.target != "" && wire'.Up(DeleteTarget) ==>
            (SameTables(w.spdk, back.w.spdk) <==> Table(w.spdk, Iscsi, ep.target) == map[]))
  {
    var w1 := CreateMapping(w, a, wire).w;
    SerialFresh(w);
    Created(w, a, wire);
    hide Inv, ExportInv, CreateMapping, NewUnder, LeastFree, Table, OnlyTable, SameTables, MappingsOf;
    CreateMappingEffect(w, a, wire);
    RowsRestored(w.db, w1, w.serial, a.volume, wire');
    var m := w1.db.mappings[w.serial];
    var ep := w.db.endpoints[m.underlay];
    if ep.protocol == Nvme && ep.target != "" && wire'.Up(RemoveNamespace) {
      NotYetThere(w, m, a.base);
      DetachEffect(w1.spdk, m.under, ep, wire');
      TablesRestored(w.spdk, w1.spdk, Detach(w1.spdk, m.under, ep, wire').s, ep.target, m.under,
                     w.db.volumes[a.volume].bdev);
    }
    if ep.protocol == Iscsi && ep.target != "" && wire'.Up(DeleteTarget) {
      DetachEffect(w1.spdk, m.under, ep, wire');
      TargetEmptied(w.spdk, w1.spdk, Detach(w1.spdk, m.under, ep, wire').s, ep.target);
    }
  }

  lemma RowsRestored(db: Db, w1: World, id: Id, v: Id, wire: Wire)
    requires id !in db.mappings && id in w1.db.mappings && w1.db.mappings[id].volume == v
        && w1.db.mappings[id].underlay in db.endpoints
    requires v in db.volumes && MappingsOf(db, v) == {} && db.volumes[v].status == Available
    requires w1.db == db.(mappings := db.mappings[id := w1.db.mappings[id]],
                          volumes := db.volumes[v := db.volumes[v].(status := InUse)])
    ensures var back := DeleteMapping(w1, id, wire);
      && back.r.Ok? && back.w.db == db
      && back.w.spdk == Detach(w1.spdk, w1.db.mappings[id].under, db.endpoints[w1.db.mappings[id].underlay], wire).s
  {
    hide Detach;
    assert w1.db.mappings - {id} == db.mappings;
    assert MappingsOf(w1.db.(mappings := db.mappings), v) == MappingsOf(db, v);
    assert w1.db.volumes[v := w1.db.volumes[v].(status := Available)] == db.volumes;
  }

  lemma NotYetThere(w: World, m: Mapping, base: int)
    requires ExportInv(w) && m.underlay in w.db.endpoints && Exports(w.db.endpoints[m.underlay])
    requires m.under == NewUnder(w.db, m.underlay, base)
    ensures m.under !in Table(w.spdk, w.db.endpoints[m.underlay].protocol, w.db.endpoints[m.underlay].target)
  {
    FreshInSpdk(w.db, w.spdk, m.underlay);
    hide Sound, NoDangling, Claims, Distinct, Table;
  }

  lemma TargetEmptied(s: Spdk, t: Spdk, u: Spdk, iqn: string)
    requires OnlyTable(s, t, Iscsi, iqn) && OnlyTable(t, u, Iscsi, iqn) && Table(u, Iscsi, iqn) == map[]
    ensures SameTables(s, u) <==> Table(s, Iscsi, iqn) == map[]
  {
    hide Table;
    if Table(s, Iscsi, iqn) == map[] {
      forall p, q
        ensures Table(u, p, q) == Table(s, p, q)
      {
        if p != Iscsi || q != iqn {
          assert Table(t, p, q) == Table(s, p, q);
        }
      }
    } else {
      assert Table(u, Iscsi, iqn) != Table(s, Iscsi, iqn);
    }
  }

  lemma TablesRestored(s: Spdk, t: Spdk, u: Spdk, nqn: string, n: int, bdev: Option<Bdev>)
    requires OnlyTable(s, t, Nvme, nqn) && OnlyTable(t, u, Nvme, nqn) && n !in Table(s, Nvme, nqn)
    requires Table(t, Nvme, nqn) == Table(s, Nvme, nqn)
        || (bdev.Some? && Table(t, Nvme, nqn) == Table(s, Nvme, nqn)[n := bdev.value])
    requires Table(u, Nvme, nqn) == Table(t, Nvme, nqn) - {n}
    ensures SameTables(s, u)
  {
    hide Table;
    forall p, q
      ensures Table(u, p, q) == Table(s, p, q)
    {
      if p == Nvme && q == nqn {
        assert Table(u, p, q) == Table(s, p, q);
      } else {
        assert Table(t, p, q) == Table(s, p, q);
      }
    }
  }
}
