/** What holds of both stores between requests. */
module Invariants {
  import opened Model
  import opened Ensure

  // ---- The database ----------------------------------------------------------------

  ghost predicate ArraysOk(arrays: map<Id, Array>) {
    forall a, b :: a in arrays && b in arrays && arrays[a].name == arrays[b].name ==> a == b
  }

  ghost predicate EndpointsOk(arrays: map<Id, Array>, endpoints: map<Id, Endpoint>) {
    forall e :: e in endpoints ==> endpoints[e].arr in arrays
  }

  ghost predicate PoolsOk(arrays: map<Id, Array>, pools: map<Id, Pool>) {
    && (forall p :: p in pools ==> pools[p].arr in arrays && BackendUsable(pools[p]))
    && (forall p, q :: p in pools && q in pools && pools[p].arr == pools[q].arr && pools[p].name == pools[q].name ==>
          p == q)
  }

  ghost predicate HostsOk(hosts: map<Id, Host>) {
    forall g, h :: g in hosts && h in hosts && hosts[g].name == hosts[h].name ==> g == h
  }

  /** A committed volume is settled: available or in use with a bdev, or in error. */
  ghost predicate VolumeOk(arrays: map<Id, Array>, pools: map<Id, Pool>, id: Id, v: Volume) {
    && v.pool in pools && v.arr == pools[v.pool].arr && v.arr in arrays
    && v.status in {Available, InUse, InError}
    && (v.status != InError ==> v.bdev.Some?)
    && (v.bdev.Some? ==> v.bdev.value == Lvol(LvsName(arrays[v.arr].name, pools[v.pool].name), id))
  }

  ghost predicate VolumesOk(arrays: map<Id, Array>, pools: map<Id, Pool>, volumes: map<Id, Volume>) {
    && (forall v :: v in volumes ==> VolumeOk(arrays, pools, v, volumes[v]))
    && (forall u, v | u in volumes && v in volumes && volumes[u].arr == volumes[v].arr
                      && volumes[u].name == volumes[v].name :: u == v)
  }

  ghost predicate MappingOk(endpoints: map<Id, Endpoint>, volumes: map<Id, Volume>, hosts: map<Id, Host>, m: Mapping) {
    && m.volume in volumes && m.host in hosts && m.persona in endpoints && m.underlay in endpoints
    && endpoints[m.persona].arr == endpoints[m.underlay].arr == volumes[m.volume].arr
    && volumes[m.volume].bdev.Some?
    && m.state == Attached && m.revision == 1
    && m.lun >= 0 && (endpoints[m.underlay].protocol == Nvme ==> m.under >= 1)
  }

  ghost predicate MappingsOk(endpoints: map<Id, Endpoint>, volumes: map<Id, Volume>, hosts: map<Id, Host>,
                             mappings: map<Id, Mapping>) {
    forall m :: m in mappings ==> MappingOk(endpoints, volumes, hosts, mappings[m])
  }

  ghost predicate LunsUnique(mappings: map<Id, Mapping>) {
    forall m, n | m in mappings && n in mappings && mappings[m].host == mappings[n].host
      && mappings[m].persona == mappings[n].persona && mappings[m].lun == mappings[n].lun :: m == n
  }

  ghost predicate UnderUnique(mappings: map<Id, Mapping>) {
    forall m, n | m in mappings && n in mappings && mappings[m].underlay == mappings[n].underlay
      && mappings[m].under == mappings[n].under :: m == n
  }

  ghost predicate Mapped(mappings: map<Id, Mapping>, v: Id) {
    exists m :: m in mappings && mappings[m].volume == v
  }

  ghost predicate InUseMapped(volumes: map<Id, Volume>, mappings: map<Id, Mapping>) {
    forall v :: v in volumes && volumes[v].status == InUse ==> Mapped(mappings, v)
  }

  /** No id in either store has yet to be issued. */
  ghost predicate Issued(w: World) {
    && (forall i :: i in w.db.arrays ==> i < w.serial)
    && (forall i :: i in w.db.endpoints ==> i < w.serial)
    && (forall i :: i in w.db.pools ==> i < w.serial)
    && (forall i :: i in w.db.volumes ==> i < w.serial)
    && (forall i :: i in w.db.hosts ==> i < w.serial)
    && (forall i :: i in w.db.mappings ==> i < w.serial)
    && SpdkIssued(w.spdk, w.serial)
  }

  ghost predicate SpdkIssued(s: Spdk, serial: Id) {
    && (forall i :: i in s.backing ==> i < serial)
    && (forall b :: b in s.lvols ==> b.volume < serial)
    && (forall n :: n in s.lvstores ==> s.lvstores[n] < serial)
  }

  ghost predicate DbOk(db: Db) {
    && ArraysOk(db.arrays)
    && EndpointsOk(db.arrays, db.endpoints)
    && PoolsOk(db.arrays, db.pools)
    && HostsOk(db.hosts)
    && VolumesOk(db.arrays, db.pools, db.volumes)
    && MappingsOk(db.endpoints, db.volumes, db.hosts, db.mappings)
    && LunsUnique(db.mappings)
    && UnderUnique(db.mappings)
    && InUseMapped(db.volumes, db.mappings)
  }

  ghost predicate Inv(w: World) { DbOk(w.db) && Issued(w) }

  // ---- SPDK against the database ------------------------------------------------------

  /** Mapping row `m` explains that id `n` of target `t` exposes bdev `b`. */
  ghost predicate Backs(db: Db, m: Id, p: Protocol, t: string, n: int, b: Bdev) {
    && m in db.mappings
    && db.mappings[m].underlay in db.endpoints
    && db.endpoints[db.mappings[m].underlay].protocol == p
    && db.endpoints[db.mappings[m].underlay].target == t
    && t != ""
    && db.mappings[m].under == n
    && db.mappings[m].volume in db.volumes
    && db.volumes[db.mappings[m].volume].bdev == Some(b)
  }

  /** Every exposed LUN or namespace is explained by a mapping row. */
  ghost predicate Sound(db: Db, s: Spdk) {
    forall p, t, n :: n in Table(s, p, t) ==> exists m :: Backs(db, m, p, t, n, Table(s, p, t)[n])
  }

  /** Two endpoints of one protocol never name the same target. */
  ghost predicate Distinct(endpoints: map<Id, Endpoint>) {
    forall e, f | e in endpoints && f in endpoints && endpoints[e].protocol == endpoints[f].protocol
      && endpoints[e].target == endpoints[f].target && endpoints[e].target != "" :: e == f
  }

  /** No LUN or namespace exposes a bdev that is gone. */
  ghost predicate NoDangling(s: Spdk) {
    forall p, t, n :: n in Table(s, p, t) ==> Table(s, p, t)[n] in s.lvols
  }

  /** An lvol store on a pool's backing bdev carries that pool's name. */
  ghost predicate Claims(db: Db, s: Spdk) {
    forall n :: n in s.lvstores && s.lvstores[n] in db.pools && db.pools[s.lvstores[n]].arr in db.arrays ==>
      n == LvsName(db.arrays[db.pools[s.lvstores[n]].arr].name, db.pools[s.lvstores[n]].name)
  }

  ghost predicate ExportInv(w: World) {
    && Distinct(w.db.endpoints)
    && Sound(w.db, w.spdk)
    && NoDangling(w.spdk)
    && Claims(w.db, w.spdk)
  }

  /** The rows and fields that explain exports are carried over. */
  ghost predicate KeepsBacking(db: Db, db': Db) {
    forall m :: m in db.mappings ==>
      && m in db'.mappings && db'.mappings[m] == db.mappings[m]
      && (db.mappings[m].underlay in db.endpoints ==>
            && db.mappings[m].underlay in db'.endpoints
            && db'.endpoints[db.mappings[m].underlay].protocol == db.endpoints[db.mappings[m].underlay].protocol
            && db'.endpoints[db.mappings[m].underlay].target == db.endpoints[db.mappings[m].underlay].target)
      && (db.mappings[m].volume in db.volumes ==>
            && db.mappings[m].volume in db'.volumes
            && db'.volumes[db.mappings[m].volume].bdev == db.volumes[db.mappings[m].volume].bdev)
  }

  ghost predicate SameTables(s: Spdk, s': Spdk) {
    forall p, t {:trigger Table(s', p, t)} :: Table(s', p, t) == Table(s, p, t)
  }

  lemma SoundFrame(db: Db, s: Spdk, db': Db, s': Spdk)
    requires Sound(db, s) && KeepsBacking(db, db') && SameTables(s, s')
    ensures Sound(db', s')
  {
    forall p, t, n | n in Table(s', p, t)
      ensures exists m :: Backs(db', m, p, t, n, Table(s', p, t)[n])
    {
      assert Table(s', p, t) == Table(s, p, t);
      var m :| Backs(db, m, p, t, n, Table(s, p, t)[n]);
      assert Backs(db', m, p, t, n, Table(s', p, t)[n]);
    }
  }

  /** The row that explains an entry is the only one. */
  lemma BackerUnique(db: Db, m: Id, m': Id, p: Protocol, t: string, n: int, b: Bdev, b': Bdev)
    requires UnderUnique(db.mappings) && Distinct(db.endpoints)
    requires Backs(db, m, p, t, n, b) && Backs(db, m', p, t, n, b')
    ensures m == m' && b == b'
  {
  }

  // ---- One table changes ---------------------------------------------------------------

  lemma PoolPut(arrays: map<Id, Array>, pools: map<Id, Pool>, id: Id, p: Pool)
    requires PoolsOk(arrays, pools) && p.arr in arrays && BackendUsable(p)
    requires forall q :: q in pools && q != id ==> pools[q].arr != p.arr || pools[q].name != p.name
    ensures PoolsOk(arrays, pools[id := p])
  {
  }

  /** Volumes see only the array and the name of their pool. */
  lemma VolumesPools(arrays: map<Id, Array>, pools: map<Id, Pool>, pools': map<Id, Pool>, volumes: map<Id, Volume>)
    requires VolumesOk(arrays, pools, volumes)
    requires forall v :: v in volumes && volumes[v].pool in pools ==>
      volumes[v].pool in pools' && pools'[volumes[v].pool].arr == pools[volumes[v].pool].arr
      && pools'[volumes[v].pool].name == pools[volumes[v].pool].name
    ensures VolumesOk(arrays, pools', volumes)
  {
  }

  lemma VolumePut(arrays: map<Id, Array>, pools: map<Id, Pool>, volumes: map<Id, Volume>, id: Id, v: Volume)
    requires VolumesOk(arrays, pools, volumes) && VolumeOk(arrays, pools, id, v)
    requires forall u :: u in volumes && u != id ==> volumes[u].arr != v.arr || volumes[u].name != v.name
    ensures VolumesOk(arrays, pools, volumes[id := v])
  {
  }

  /** Only size and status of a volume change. */
  lemma VolumeChanged(arrays: map<Id, Array>, pools: map<Id, Pool>, volumes: map<Id, Volume>, id: Id, v: Volume)
    requires VolumesOk(arrays, pools, volumes) && id in volumes
    requires v.(sizeMb := volumes[id].sizeMb, status := volumes[id].status) == volumes[id]
    requires v.status in {Available, InUse, InError} && (v.status != InError ==> v.bdev.Some?)
    ensures VolumesOk(arrays, pools, volumes[id := v])
  {
  }

  /** Mappings see only the array and the bdev of their volume. */
  lemma MappingsVolumes(endpoints: map<Id, Endpoint>, volumes: map<Id, Volume>, volumes': map<Id, Volume>,
                        hosts: map<Id, Host>, mappings: map<Id, Mapping>)
    requires MappingsOk(endpoints, volumes, hosts, mappings)
    requires forall m :: m in mappings && mappings[m].volume in volumes ==>
      mappings[m].volume in volumes' && volumes'[mappings[m].volume].arr == volumes[mappings[m].volume].arr
      && volumes'[mappings[m].volume].bdev == volumes[mappings[m].volume].bdev
    ensures MappingsOk(endpoints, volumes', hosts, mappings)
  {
  }

  lemma MappingAdded(endpoints: map<Id, Endpoint>, volumes: map<Id, Volume>, hosts: map<Id, Host>,
                     mappings: map<Id, Mapping>, id: Id, m: Mapping)
    requires MappingsOk(endpoints, volumes, hosts, mappings) && MappingOk(endpoints, volumes, hosts, m)
    requires LunsUnique(mappings) && UnderUnique(mappings)
    requires forall n :: n in mappings ==> n != id
    requires forall n :: n in mappings && mappings[n].host == m.host && mappings[n].persona == m.persona ==>
        mappings[n].lun != m.lun
    requires forall n :: n in mappings && mappings[n].underlay == m.underlay ==> mappings[n].under != m.under
    ensures MappingsOk(endpoints, volumes, hosts, mappings[id := m])
    ensures LunsUnique(mappings[id := m]) && UnderUnique(mappings[id := m])
  {
  }

  lemma MappingRemoved(endpoints: map<Id, Endpoint>, volumes: map<Id, Volume>, hosts: map<Id, Host>,
                       mappings: map<Id, Mapping>, id: Id)
    requires MappingsOk(endpoints, volumes, hosts, mappings) && LunsUnique(mappings) && UnderUnique(mappings)
    ensures MappingsOk(endpoints, volumes, hosts, mappings - {id})
    ensures LunsUnique(mappings - {id}) && UnderUnique(mappings - {id})
  {
  }

  lemma Initially()
    ensures Inv(World(EMPTY_DB, EMPTY_SPDK, 0)) && ExportInv(World(EMPTY_DB, EMPTY_SPDK, 0))
  {
  }
}
