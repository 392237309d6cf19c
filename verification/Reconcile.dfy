/** The start-up reconciler: four dependent loops that replay the database into SPDK. */
module Reconcile {
  import opened Model
  import opened Ensure

  /** The guarded places of a pass; an error at one of them is logged and the pass goes on. */
  datatype Site =
    | GroupsSite | TransportSite
    | PoolSite(id: Id) | VolumeSite(id: Id) | EndpointSite(id: Id) | MappingSite(id: Id)

  type Wires = Site -> Wire

  /** The rows in the order the four queries return them, which SQL leaves open. */
  datatype RowOrder = RowOrder(pools: seq<Id>, volumes: seq<Id>, endpoints: seq<Id>, mappings: seq<Id>)

  function LiveVolumes(volumes: map<Id, Volume>): set<Id> { set v | v in volumes && volumes[v].status != InError }

  function AttachedMappings(mappings: map<Id, Mapping>): set<Id> {
    set m | m in mappings && mappings[m].state == Attached
  }

  ghost predicate Enumerates(order: seq<Id>, ids: set<Id>) { forall x :: x in order <==> x in ids }

  ghost predicate OrderOf(o: RowOrder, db: Db) {
    && Enumerates(o.pools, db.pools.Keys)
    && Enumerates(o.volumes, LiveVolumes(db.volumes))
    && Enumerates(o.endpoints, db.endpoints.Keys)
    && Enumerates(o.mappings, AttachedMappings(db.mappings))
  }

  function ArrayName(arrays: map<Id, Array>, arr: Id): string {
    if arr in arrays then arrays[arr].name else "default"
  }

  // ---- Pools -------------------------------------------------------------------

  datatype PoolState = PoolState(pools: map<Id, Pool>, s: Spdk)

  function PoolStep(arrays: map<Id, Array>, x: PoolState, id: Id, w: Wire): PoolState
    requires id in x.pools
  {
    var p := x.pools[id];
    var a := PoolEnsured(x.s, id, p, ArrayName(arrays, p.arr), w);
    PoolState(x.pools[id := a.pool], a.s)
  }

  function PoolPass(arrays: map<Id, Array>, x: PoolState, order: seq<Id>, wires: Wires): (r: PoolState)
    requires forall id :: id in order ==> id in x.pools
    ensures r.pools.Keys == x.pools.Keys
  {
    if order == [] then x
    else
      var k := |order| - 1;
      PoolStep(arrays, PoolPass(arrays, x, order[..k], wires), order[k], wires(PoolSite(order[k])))
  }

  // ---- Volumes -----------------------------------------------------------------

  datatype VolumeState = VolumeState(volumes: map<Id, Volume>, s: Spdk)

  function VolumeStep(arrays: map<Id, Array>, pools: map<Id, Pool>, x: VolumeState, id: Id, w: Wire): VolumeState
    requires id in x.volumes
  {
    var v := x.volumes[id];
    if v.pool !in pools then x
    else
      var name := Lvol(LvsName(ArrayName(arrays, v.arr), pools[v.pool].name), id);
      var a := LvolEnsured(x.s, name, v.sizeMb, w);
      if a.ok then VolumeState(x.volumes[id := v.(bdev := Some(name))], a.s) else x.(s := a.s)
  }

  function VolumePass(arrays: map<Id, Array>, pools: map<Id, Pool>, x: VolumeState, order: seq<Id>,
                      wires: Wires): (r: VolumeState)
    requires forall id :: id in order ==> id in x.volumes
    ensures r.volumes.Keys == x.volumes.Keys
  {
    if order == [] then x
    else
      var k := |order| - 1;
      VolumeStep(arrays, pools, VolumePass(arrays, pools, x, order[..k], wires), order[k], wires(VolumeSite(order[k])))
  }

  // ---- Endpoints and mappings -----------------------------------------------------

  function EndpointPass(endpoints: map<Id, Endpoint>, s: Spdk, order: seq<Id>, wires: Wires): Spdk
    requires forall id :: id in order ==> id in endpoints
  {
    if order == [] then s
    else
      var k := |order| - 1;
      Exported(EndpointPass(endpoints, s, order[..k], wires), endpoints[order[k]], wires(EndpointSite(order[k]))).s
  }

  /** The volumes looked up here are the non-error ones loaded by the volume loop. */
  function MappingStep(db: Db, s: Spdk, id: Id, w: Wire): Spdk
    requires id in db.mappings
  {
    var m := db.mappings[id];
    if m.volume !in LiveVolumes(db.volumes) || m.underlay !in db.endpoints then s
    else Attach(s, m.under, db.volumes[m.volume].bdev, db.endpoints[m.underlay], w).s
  }

  function MappingPass(db: Db, s: Spdk, order: seq<Id>, wires: Wires): Spdk
    requires forall id :: id in order ==> id in db.mappings
  {
    if order == [] then s
    else
      var k := |order| - 1;
      MappingStep(db, MappingPass(db, s, order[..k], wires), order[k], wires(MappingSite(order[k])))
  }

  // ---- The whole pass: shared groups, transport, then the four loops ----------------------

  function AfterShared(s: Spdk, wires: Wires): Spdk {
    Transport(IscsiExport(s, wires(GroupsSite)).s, wires(TransportSite)).s
  }

  function AfterPools(w: World, o: RowOrder, wires: Wires): (r: PoolState)
    requires OrderOf(o, w.db)
    ensures r.pools.Keys == w.db.pools.Keys
  {
    PoolPass(w.db.arrays, PoolState(w.db.pools, AfterShared(w.spdk, wires)), o.pools, wires)
  }

  function AfterVolumes(w: World, o: RowOrder, wires: Wires): (r: VolumeState)
    requires OrderOf(o, w.db)
    ensures r.volumes.Keys == w.db.volumes.Keys
  {
    var x := AfterPools(w, o, wires);
    VolumePass(w.db.arrays, x.pools, VolumeState(w.db.volumes, x.s), o.volumes, wires)
  }

  function AfterEndpoints(w: World, o: RowOrder, wires: Wires): Spdk
    requires OrderOf(o, w.db)
  {
    EndpointPass(w.db.endpoints, AfterVolumes(w, o, wires).s, o.endpoints, wires)
  }

  function DbAfter(w: World, o: RowOrder, wires: Wires): Db
    requires OrderOf(o, w.db)
  {
    w.db.(pools := AfterPools(w, o, wires).pools, volumes := AfterVolumes(w, o, wires).volumes)
  }

  function Reconciled(w: World, o: RowOrder, wires: Wires): World
    requires OrderOf(o, w.db)
  {
    var db := DbAfter(w, o, wires);
    w.(db := db, spdk := MappingPass(db, AfterEndpoints(w, o, wires), o.mappings, wires))
  }
}
