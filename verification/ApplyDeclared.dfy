/** After a successful apply the specification is there: what is new is declared, and what is declared and
    was not there has its declared fields. */
module ApplyDeclared {
  import opened Model
  import opened Ensure
  import opened Inventory
  import opened Topology
  import opened Apply
  import opened Invariants
  import opened DbSteps
  import opened GoodSteps
  import opened EndpointChoice
  import opened ApplyGood
  import opened ApplyAgain
  import opened ApplyWires
  import opened ApplyCounts
  import opened ApplyRows

  /** What the later phases leave of the tables of the earlier ones. */
  lemma Stages(w: World, spec: TopologySpec, base: int, wires: Item -> Wire)
    requires Inv(w) && ApplyTopology(w, spec, base, wires).1.Ok?
    ensures var a, p, h, v := Arrays(w, spec), Pools(w, spec, wires), Hosts(w, spec, wires), VolumesOf(w, spec, wires);
      var db := ApplyTopology(w, spec, base, wires).0.db;
      && Good(w, ANY_RUN) && Good(a.w, ANY_RUN) && Good(p.w, ANY_RUN) && Good(h.w, ANY_RUN) && Good(v.w, ANY_RUN)
      && PoolObjs(h.w.db, a.objs, p.objs)
      && a.w.db == w.db.(arrays := db.arrays, endpoints := db.endpoints)
      && p.w.db == a.w.db.(pools := db.pools) && h.w.db == p.w.db.(hosts := db.hosts)
      && v.w.db == h.w.db.(volumes := v.w.db.volumes)
      && db == v.w.db.(volumes := db.volumes, mappings := db.mappings) && SameVolumes(v.w.db.volumes, db.volumes)
  {
    var a, p, h, v := Arrays(w, spec), Pools(w, spec, wires), Hosts(w, spec, wires), VolumesOf(w, spec, wires);
    assert Good(w, ANY_RUN);
    hide Inv, Good, Extends, ArrayPhase, PoolPhase, HostPhase, VolumePhase, MappingPhase, PoolObjs, SameVolumes;
    ApplyLater(w, ANY_RUN, spec, base, wires);
    StagesLater(w, ANY_RUN, spec, base, wires);
    ArrayPhaseOnly(w, spec.arrays);
    PoolPhaseOnly(a.w, a.objs, spec.pools, wires);
    HostPhaseOnly(p.w, spec.hosts);
    VolumePhaseOnly(h.w, a.objs, p.objs, spec.volumes, wires);
    MappingPhaseOnly(v.w, h.objs, v.objs, spec.mappings, base, wires);
    PoolPhaseObjs(a.w, a.objs, spec.pools, wires);
    PoolObjsLater(p.w.db, h.w.db, a.objs, p.objs);
  }

  lemma AllMade(w: World, spec: TopologySpec, base: int, wires: Item -> Wire)
    requires Inv(w) && ApplyTopology(w, spec, base, wires).1.Ok?
    ensures var a, p, h, v := Arrays(w, spec), Pools(w, spec, wires), Hosts(w, spec, wires), VolumesOf(w, spec, wires);
      var m := MappingsPart(w, spec, base, wires);
      && ArraysMade(w, a, spec.arrays) && PoolsMade(a.w, p, a.objs, spec.pools, wires)
      && HostsMade(p.w, h, spec.hosts) && VolumesMade(h.w, v, p.objs, spec.volumes)
      && MappingsMade(v.w.db, m, h.objs, v.objs, spec.mappings, base)
      && forall d :: d in spec.mappings && d.host in h.objs && d.volume in v.objs ==>
           OneMapping(m.w.db, h.objs[d.host], v.objs[d.volume])
  {
    var a, p, h, v := Arrays(w, spec), Pools(w, spec, wires), Hosts(w, spec, wires), VolumesOf(w, spec, wires);
    hide Inv, Good, Extends, ArrayPhase, PoolPhase, HostPhase, VolumePhase, MappingPhase, PoolObjs, SameVolumes,
         ArraysMade, PoolsMade, HostsMade, VolumesMade, MappingsMade, OneMapping;
    Stages(w, spec, base, wires);
    ArrayRows(w, spec.arrays);
    PoolRows(a.w, a.objs, spec.pools, wires);
    HostRows(p.w, spec.hosts);
    VolumeRows(h.w, a.objs, p.objs, spec.volumes, wires);
    MappingRows(v.w, h.objs, v.objs, spec.mappings, base, wires);
    MappingPhaseOne(v.w, h.objs, v.objs, spec.mappings, base, wires);
  }

  // ---- What is new is declared, and what is declared is there ------------------------------------

  lemma ApplyMakesArrays(w: World, spec: TopologySpec, base: int, wires: Item -> Wire)
    requires Inv(w) && ApplyTopology(w, spec, base, wires).1.Ok?
    ensures var db := ApplyTopology(w, spec, base, wires).0.db;
      && (forall k :: k in db.arrays && k !in w.db.arrays ==>
            exists a :: a in spec.arrays && a.name == db.arrays[k].name)
      && (forall e :: e in db.endpoints && e !in w.db.endpoints ==>
            EndpointDeclared(db.arrays, db.endpoints[e], spec.arrays))
      && (forall a :: a in spec.arrays ==>
            exists k :: k in db.arrays && db.arrays[k].name == a.name
                        && forall e :: e in a.endpoints ==> HasProtocol(db, k, e.protocol))
  {
    var x, db := Arrays(w, spec), ApplyTopology(w, spec, base, wires).0.db;
    hide Inv, Good, Arrays, Pools, Hosts, VolumesOf, MappingsPart, ApplyTopology, PoolObjs, PoolsMade, HostsMade,
         VolumesMade, MappingsMade, EndpointDeclared;
    Stages(w, spec, base, wires);
    AllMade(w, spec, base, wires);
    forall a | a in spec.arrays
      ensures exists k :: k in db.arrays && db.arrays[k].name == a.name
                          && forall e :: e in a.endpoints ==> HasProtocol(db, k, e.protocol)
    {
      var k := x.objs[a.name];
      forall e | e in a.endpoints
        ensures HasProtocol(db, k, e.protocol)
      {
        assert HasProtocol(x.w.db, k, e.protocol);
      }
      assert k in db.arrays && db.arrays[k].name == a.name;
    }
  }

  /** The pool's row has what its item declares, on the array the item names. */
  ghost predicate PoolAs(db: Db, row: Pool, p: PoolSpec, wire: Wire) {
    && row.arr in db.arrays && db.arrays[row.arr].name == p.arr && row.name == p.name && row.aioPath == p.aioPath
    && row.backend == (if p.malloc then Malloc else AioFile)
    && row.sizeMb == Some(if p.malloc then p.sizeMb else wire.aioBlocks * 512 / 1048576)
  }

  ghost predicate PoolThere(db: Db, arr: string, name: string) {
    exists k :: k in db.pools && db.pools[k].name == name && db.pools[k].arr in db.arrays
                && db.arrays[db.pools[k].arr].name == arr
  }

  /** The array objects are the rows of their names. */
  ghost predicate Named(db: Db, objs: map<string, Id>) {
    forall n :: n in objs ==> objs[n] in db.arrays && db.arrays[objs[n]].name == n
  }

  lemma ApplyMakesPools(w: World, spec: TopologySpec, base: int, wires: Item -> Wire)
    requires Inv(w) && ApplyTopology(w, spec, base, wires).1.Ok?
    ensures var db := ApplyTopology(w, spec, base, wires).0.db;
      && (forall k :: k in db.pools && k !in w.db.pools ==>
            exists i: nat :: i < |spec.pools| && PoolAs(db, db.pools[k], spec.pools[i], wires(PoolItem(i))))
      && (forall p, a :: p in spec.pools && a in spec.arrays && a.name == p.arr ==> PoolThere(db, p.arr, p.name))
  {
    var a, x, db := Arrays(w, spec), Pools(w, spec, wires), ApplyTopology(w, spec, base, wires).0.db;
    hide Inv, Good, Arrays, Pools, Hosts, VolumesOf, MappingsPart, ApplyTopology, PoolObjs, HostsMade, VolumesMade,
         MappingsMade, EndpointDeclared, HasProtocol, LastPool;
    Stages(w, spec, base, wires);
    AllMade(w, spec, base, wires);
    assert Named(db, a.objs);
    forall k | k in db.pools && k !in w.db.pools
      ensures exists i: nat :: i < |spec.pools| && PoolAs(db, db.pools[k], spec.pools[i], wires(PoolItem(i)))
    {
      var i: nat :| i < |spec.pools| && PoolOf(a.objs, db.pools[k], spec.pools[i], wires(PoolItem(i)));
      assert PoolAs(db, db.pools[k], spec.pools[i], wires(PoolItem(i)));
    }
    forall p, d | p in spec.pools && d in spec.arrays && d.name == p.arr
      ensures PoolThere(db, p.arr, p.name)
    {
      assert p.arr in a.objs && OnArrayNamed(x.w.db, a.objs[p.arr], p.name);
    }
  }

  lemma ApplyMakesHosts(w: World, spec: TopologySpec, base: int, wires: Item -> Wire)
    requires Inv(w) && ApplyTopology(w, spec, base, wires).1.Ok?
    ensures var db := ApplyTopology(w, spec, base, wires).0.db;
      && (forall k :: k in db.hosts && k !in w.db.hosts ==> exists d :: d in spec.hosts && HostOf(db.hosts[k], d))
      && (forall d :: d in spec.hosts ==> exists k :: k in db.hosts && db.hosts[k].name == d.name)
  {
    var x, db := Hosts(w, spec, wires), ApplyTopology(w, spec, base, wires).0.db;
    hide Inv, Good, Arrays, Pools, Hosts, VolumesOf, MappingsPart, ApplyTopology, PoolObjs, ArraysMade, PoolsMade,
         VolumesMade, MappingsMade, HostOf;
    Stages(w, spec, base, wires);
    AllMade(w, spec, base, wires);
    forall d | d in spec.hosts
      ensures exists k :: k in db.hosts && db.hosts[k].name == d.name
    {
      assert x.objs[d.name] in db.hosts;
    }
  }

  /** The volume's row has the declared name and size, and lies in a pool of the declared name: of several
      such pools, that of the last item on a declared array. */
  ghost predicate VolumeAs(db: Db, spec: TopologySpec, row: Volume, v: VolumeSpec) {
    && row.name == v.name && row.sizeMb == v.sizeMb
    && row.pool in db.pools && db.pools[row.pool].name == v.pool && row.arr == db.pools[row.pool].arr
    && row.arr in db.arrays
    && exists j :: 0 <= j < |spec.pools| && spec.pools[j].name == v.pool && spec.pools[j].arr == db.arrays[row.arr].name
                   && forall k :: j < k < |spec.pools| && spec.pools[k].name == v.pool ==>
                        spec.pools[k].arr !in ArrayNames(spec.arrays)
  }

  lemma LastOnArray(db: Db, arrays: map<string, Id>, spec: TopologySpec, name: string, id: Id)
    requires Named(db, arrays) && arrays.Keys == ArrayNames(spec.arrays) && LastPool(db, arrays, spec.pools, name, id)
    ensures db.pools[id].arr in db.arrays
    ensures exists j :: 0 <= j < |spec.pools| && spec.pools[j].name == name
                        && spec.pools[j].arr == db.arrays[db.pools[id].arr].name
                        && forall k :: j < k < |spec.pools| && spec.pools[k].name == name ==>
                             spec.pools[k].arr !in ArrayNames(spec.arrays)
  {
    var xs := spec.pools;
    var j :| 0 <= j < |xs| && xs[j].name == name && xs[j].arr in arrays && db.pools[id].arr == arrays[xs[j].arr]
      && forall k :: j < k < |xs| ==> xs[k].name != name || xs[k].arr !in arrays;
    assert db.arrays[arrays[xs[j].arr]].name == xs[j].arr;
    hide ArrayNames;
  }

  /** The pool a volume item means: the last of that name on a declared array. */
  ghost predicate PoolMeant(spec: TopologySpec, v: VolumeSpec) {
    exists p :: p in spec.pools && p.name == v.pool && p.arr in ArrayNames(spec.arrays)
  }

  lemma MeantPool(x: World, p: Phase, arrays: map<string, Id>, spec: TopologySpec, wires: Item -> Wire, v: VolumeSpec)
    requires PoolsMade(x, p, arrays, spec.pools, wires) && arrays.Keys == ArrayNames(spec.arrays) && PoolMeant(spec, v)
    ensures v.pool in p.objs && p.objs[v.pool] in p.w.db.pools
  {
    hide PoolDeclared, OnArrayNamed, ArrayNames;
    var d :| d in spec.pools && d.name == v.pool && d.arr in ArrayNames(spec.arrays);
  }

  lemma ArrayObjs(w: World, spec: TopologySpec, base: int, wires: Item -> Wire)
    requires ApplyTopology(w, spec, base, wires).1.Ok?
    ensures Arrays(w, spec).objs.Keys == ArrayNames(spec.arrays)
  {
    hide ArrayPhase, PoolPhase, HostPhase, VolumePhase, MappingPhase, ArrayNames;
    ArraysCounted(w, spec.arrays);
  }

  lemma MeantInObjs(w: World, spec: TopologySpec, base: int, wires: Item -> Wire, v: VolumeSpec)
    requires Inv(w) && ApplyTopology(w, spec, base, wires).1.Ok? && PoolMeant(spec, v)
    ensures Arrays(w, spec).objs.Keys == ArrayNames(spec.arrays)
    ensures var p := Pools(w, spec, wires); v.pool in p.objs && p.objs[v.pool] in p.w.db.pools
  {
    hide Inv, Pools, Hosts, VolumesOf, MappingsPart, ApplyTopology, ArraysMade, PoolsMade, HostsMade, VolumesMade,
         MappingsMade, ArrayNames, PoolMeant, Arrays, OneMapping;
    AllMade(w, spec, base, wires);
    ArrayObjs(w, spec, base, wires);
    MeantPool(Arrays(w, spec).w, Pools(w, spec, wires), Arrays(w, spec).objs, spec, wires, v);
  }

  lemma NewVolumeAs(x: World, p: Phase, y: Db, db: Db, arrays: map<string, Id>, spec: TopologySpec,
                    wires: Item -> Wire, k: Id, row: Volume, v: VolumeSpec)
    requires PoolsMade(x, p, arrays, spec.pools, wires) && p.w.db.pools == y.pools == db.pools
    requires Named(db, arrays) && arrays.Keys == ArrayNames(spec.arrays)
    requires VolumeOf(y, p.objs, row, v) && k in db.volumes && db.volumes[k] == row.(status := db.volumes[k].status)
    ensures VolumeAs(db, spec, db.volumes[k], v)
  {
    assert LastPool(p.w.db, arrays, spec.pools, v.pool, p.objs[v.pool]);
    assert LastPool(db, arrays, spec.pools, v.pool, p.objs[v.pool]);
    hide PoolsMade, LastPool, Named, ArrayNames;
    LastOnArray(db, arrays, spec, v.pool, p.objs[v.pool]);
  }

  lemma NewVolumes(w: World, spec: TopologySpec, base: int, wires: Item -> Wire, k: Id) returns (v: VolumeSpec)
    requires Inv(w) && ApplyTopology(w, spec, base, wires).1.Ok?
    requires var db := ApplyTopology(w, spec, base, wires).0.db; k in db.volumes && k !in w.db.volumes
    ensures var db := ApplyTopology(w, spec, base, wires).0.db;
      v in spec.volumes && VolumeAs(db, spec, db.volumes[k], v)
  {
    var a, p, h, x, db := Arrays(w, spec), Pools(w, spec, wires), Hosts(w, spec, wires), VolumesOf(w, spec, wires),
                          ApplyTopology(w, spec, base, wires).0.db;
    hide Inv, Good, Arrays, Pools, Hosts, VolumesOf, MappingsPart, ApplyTopology, PoolObjs, PoolsMade, HostsMade,
         MappingsMade, EndpointDeclared, HasProtocol, ArrayNames, VolumeOf, VolumeAs, OneMapping;
    Stages(w, spec, base, wires);
    AllMade(w, spec, base, wires);
    ArrayObjs(w, spec, base, wires);
    assert Named(db, a.objs);
    hide Named, ArraysMade;
    v :| v in spec.volumes && VolumeOf(h.w.db, p.objs, x.w.db.volumes[k], v);
    NewVolumeAs(a.w, p, h.w.db, db, a.objs, spec, wires, k, x.w.db.volumes[k], v);
  }

  lemma ApplyMakesVolumes(w: World, spec: TopologySpec, base: int, wires: Item -> Wire)
    requires Inv(w) && ApplyTopology(w, spec, base, wires).1.Ok?
    ensures var db := ApplyTopology(w, spec, base, wires).0.db;
      && (forall k :: k in db.volumes && k !in w.db.volumes ==>
            exists v :: v in spec.volumes && VolumeAs(db, spec, db.volumes[k], v))
      && (forall v :: v in spec.volumes && PoolMeant(spec, v) ==>
            exists k :: k in db.volumes && db.volumes[k].name == v.name)
  {
    var x, db := VolumesOf(w, spec, wires), ApplyTopology(w, spec, base, wires).0.db;
    hide Inv, Good, Arrays, Pools, Hosts, VolumesOf, MappingsPart, ApplyTopology, PoolObjs, ArraysMade, PoolsMade,
         HostsMade, MappingsMade, ArrayNames, VolumeOf, VolumeAs, PoolMeant, OneMapping;
    forall k | k in db.volumes && k !in w.db.volumes
      ensures exists v :: v in spec.volumes && VolumeAs(db, spec, db.volumes[k], v)
    {
      var v := NewVolumes(w, spec, base, wires, k);
    }
    forall v | v in spec.volumes && PoolMeant(spec, v)
      ensures exists k :: k in db.volumes && db.volumes[k].name == v.name
    {
      Stages(w, spec, base, wires);
      AllMade(w, spec, base, wires);
      MeantInObjs(w, spec, base, wires, v);
      assert x.objs[v.name] in db.volumes;
    }
  }

  /** The mapping joins the named host and volume through the oldest endpoint of the declared protocol, and
      is exported through the oldest iSCSI endpoint from the base up, both of the volume's array. */
  ghost predicate MappingAs(db: Db, row: Mapping, m: MappingSpec, base: int) {
    && row.under >= base
    && row.host in db.hosts && db.hosts[row.host].name == m.host
    && row.volume in db.volumes && db.volumes[row.volume].name == m.volume
    && Oldest(db, db.volumes[row.volume].arr, m.protocol, row.persona)
    && Oldest(db, db.volumes[row.volume].arr, Iscsi, row.underlay)
  }

  ghost predicate MappingThere(db: Db, host: string, volume: string) {
    exists k :: k in db.mappings && db.mappings[k].host in db.hosts && db.hosts[db.mappings[k].host].name == host
                && db.mappings[k].volume in db.volumes && db.volumes[db.mappings[k].volume].name == volume
  }

  lemma MappingAsFrom(db: Db, db': Db, hosts: map<string, Id>, volumes: map<string, Id>, row: Mapping, m: MappingSpec,
                     base: int)
    requires MappingOf(db, hosts, volumes, row, m, base)
    requires db'.endpoints == db.endpoints && SameVolumes(db.volumes, db'.volumes)
    requires hosts[m.host] in db'.hosts && db'.hosts[hosts[m.host]].name == m.host
    requires volumes[m.volume] in db.volumes && db.volumes[volumes[m.volume]].name == m.volume
    ensures MappingAs(db', row, m, base)
  {
    OldestSame(db', db, db.volumes[row.volume].arr, m.protocol, row.persona);
    OldestSame(db', db, db.volumes[row.volume].arr, Iscsi, row.underlay);
    hide Oldest;
  }

  lemma ApplyMakesMappings(w: World, spec: TopologySpec, base: int, wires: Item -> Wire)
    requires Inv(w) && ApplyTopology(w, spec, base, wires).1.Ok?
    ensures var db := ApplyTopology(w, spec, base, wires).0.db;
      && (forall k :: k in db.mappings && k !in w.db.mappings ==>
            exists m :: m in spec.mappings && MappingAs(db, db.mappings[k], m, base))
      && (forall m, h, v :: m in spec.mappings && h in spec.hosts && h.name == m.host
                            && v in spec.volumes && v.name == m.volume && PoolMeant(spec, v) ==>
            MappingThere(db, m.host, m.volume))
  {
    var h, x, db := Hosts(w, spec, wires), VolumesOf(w, spec, wires), ApplyTopology(w, spec, base, wires).0.db;
    var section := MappingsPart(w, spec, base, wires);
    assert section.w.db == db;
    Stages(w, spec, base, wires);
    AllMade(w, spec, base, wires);
    hide Inv, Good, Arrays, Pools, Hosts, VolumesOf, MappingsPart, ApplyTopology, PoolObjs, ArraysMade, PoolsMade,
         PoolMeant, SameVolumes, HostOf, VolumeOf, MappingOf, MappingAs, MapsOnly;
    forall k | k in db.mappings && k !in w.db.mappings
      ensures exists m :: m in spec.mappings && MappingAs(db, db.mappings[k], m, base)
    {
      var m :| m in spec.mappings && MappingOf(x.w.db, h.objs, x.objs, db.mappings[k], m, base);
      MappingNames(x.w.db, h.objs, x.objs, db.mappings[k], m, base);
      MappingAsFrom(x.w.db, db, h.objs, x.objs, db.mappings[k], m, base);
    }
    forall m, host, v | m in spec.mappings && host in spec.hosts && host.name == m.host
        && v in spec.volumes && v.name == m.volume && PoolMeant(spec, v)
      ensures MappingThere(db, m.host, m.volume)
    {
      MeantInObjs(w, spec, base, wires, v);
      assert OneMapping(section.w.db, h.objs[m.host], x.objs[m.volume]);
      OneIsThere(db, x.w.db.volumes, h.objs[m.host], x.objs[m.volume]);
    }
  }

  lemma MappingNames(db: Db, hosts: map<string, Id>, volumes: map<string, Id>, row: Mapping, m: MappingSpec,
                     base: int)
    requires MappingOf(db, hosts, volumes, row, m, base)
    ensures m.host in hosts && m.volume in volumes
  {
  }

  lemma OneIsThere(db: Db, volumes: map<Id, Volume>, host: Id, volume: Id)
    requires OneMapping(db, host, volume) && host in db.hosts && volume in volumes && SameVolumes(volumes, db.volumes)
    ensures MappingThere(db, db.hosts[host].name, volumes[volume].name)
  {
    var k :| k in MappingsBetween(db, host, volume);
  }

  // ---- A declared item that was not there ----------------------------------------------------------

  lemma RowsKept(w: World, spec: TopologySpec, base: int, wires: Item -> Wire)
    requires Inv(w) && ApplyTopology(w, spec, base, wires).1.Ok?
    ensures Extends(w.db, ApplyTopology(w, spec, base, wires).0.db)
  {
    assert Good(w, ANY_RUN);
    hide Inv, Good, ApplyTopology, Extends;
    ApplyLater(w, ANY_RUN, spec, base, wires);
  }

  lemma OneHost(spec: TopologySpec, d: HostSpec, i: nat)
    requires WellFormed(spec) && i < |spec.hosts| && d in spec.hosts && d.name == spec.hosts[i].name
    ensures d == spec.hosts[i]
  {
  }

  /** Hosts get their ports, each list in its own field. */
  lemma HostAsDeclared(w: World, spec: TopologySpec, base: int, wires: Item -> Wire, i: nat) returns (id: Id)
    requires Inv(w) && WellFormed(spec) && ApplyTopology(w, spec, base, wires).1.Ok? && i < |spec.hosts|
    requires forall h :: h in w.db.hosts ==> w.db.hosts[h].name != spec.hosts[i].name
    ensures var db := ApplyTopology(w, spec, base, wires).0.db; id in db.hosts && HostOf(db.hosts[id], spec.hosts[i])
  {
    var db := ApplyTopology(w, spec, base, wires).0.db;
    hide Inv, ApplyTopology, WellFormed;
    RowsKept(w, spec, base, wires);
    ApplyMakesHosts(w, spec, base, wires);
    assert spec.hosts[i] in spec.hosts;
    id :| id in db.hosts && db.hosts[id].name == spec.hosts[i].name;
    assert id !in w.db.hosts;
    var d :| d in spec.hosts && HostOf(db.hosts[id], d);
    OneHost(spec, d, i);
  }

  lemma OnePool(spec: TopologySpec, j: nat, i: nat)
    requires WellFormed(spec) && i < |spec.pools| && j < |spec.pools|
    requires spec.pools[j].name == spec.pools[i].name && spec.pools[j].arr == spec.pools[i].arr
    ensures j == i
  {
  }

  lemma ArrayMeant(spec: TopologySpec, i: nat) returns (a: ArraySpec)
    requires WellFormed(spec) && i < |spec.pools|
    ensures a in spec.arrays && a.name == spec.pools[i].arr
  {
    var k: nat :| k < |spec.arrays| && spec.arrays[k].name == spec.pools[i].arr;
    a := spec.arrays[k];
  }

  lemma PoolArraysKnown(db: Db)
    requires DbOk(db)
    ensures forall p :: p in db.pools ==> db.pools[p].arr in db.arrays
  {
  }

  /** Pools get their backend, size and path, on the array they name. */
  lemma PoolAsDeclared(w: World, spec: TopologySpec, base: int, wires: Item -> Wire, i: nat) returns (id: Id)
    requires Inv(w) && WellFormed(spec) && ApplyTopology(w, spec, base, wires).1.Ok? && i < |spec.pools|
    requires forall p :: p in w.db.pools && w.db.pools[p].arr in w.db.arrays ==>
      w.db.pools[p].name != spec.pools[i].name || w.db.arrays[w.db.pools[p].arr].name != spec.pools[i].arr
    ensures var db := ApplyTopology(w, spec, base, wires).0.db;
      id in db.pools && PoolAs(db, db.pools[id], spec.pools[i], wires(PoolItem(i)))
  {
    var db, p := ApplyTopology(w, spec, base, wires).0.db, spec.pools[i];
    PoolArraysKnown(w.db);
    hide DbOk, Issued, ApplyTopology, WellFormed;
    RowsKept(w, spec, base, wires);
    ApplyMakesPools(w, spec, base, wires);
    var a := ArrayMeant(spec, i);
    assert p in spec.pools && PoolThere(db, p.arr, p.name);
    id :| id in db.pools && db.pools[id].name == p.name && db.pools[id].arr in db.arrays
      && db.arrays[db.pools[id].arr].name == p.arr;
    assert id !in w.db.pools;
    var j: nat :| j < |spec.pools| && PoolAs(db, db.pools[id], spec.pools[j], wires(PoolItem(j)));
    OnePool(spec, j, i);
  }

  lemma OneVolume(spec: TopologySpec, d: VolumeSpec, i: nat)
    requires WellFormed(spec) && i < |spec.volumes| && d in spec.volumes && d.name == spec.volumes[i].name
    ensures d == spec.volumes[i]
  {
  }

  lemma AllMeant(spec: TopologySpec, v: VolumeSpec)
    requires WellFormed(spec) && v in spec.volumes
    ensures PoolMeant(spec, v)
  {
    var j: nat :| j < |spec.pools| && spec.pools[j].name == v.pool;
    assert spec.pools[j] in spec.pools && spec.pools[j].arr in ArrayNames(spec.arrays);
  }

  /** Volumes get their size, in the pool they name. */
  lemma VolumeAsDeclared(w: World, spec: TopologySpec, base: int, wires: Item -> Wire, i: nat) returns (id: Id)
    requires Inv(w) && WellFormed(spec) && ApplyTopology(w, spec, base, wires).1.Ok? && i < |spec.volumes|
    requires forall v :: v in w.db.volumes ==> w.db.volumes[v].name != spec.volumes[i].name
    ensures var db := ApplyTopology(w, spec, base, wires).0.db;
      id in db.volumes && VolumeAs(db, spec, db.volumes[id], spec.volumes[i])
  {
    var db, v := ApplyTopology(w, spec, base, wires).0.db, spec.volumes[i];
    hide Inv, ApplyTopology, WellFormed, PoolMeant;
    RowsKept(w, spec, base, wires);
    ApplyMakesVolumes(w, spec, base, wires);
    assert v in spec.volumes;
    AllMeant(spec, v);
    id :| id in db.volumes && db.volumes[id].name == v.name;
    assert id !in w.db.volumes;
    var d :| d in spec.volumes && VolumeAs(db, spec, db.volumes[id], d);
    OneVolume(spec, d, i);
  }

  lemma OneArraySpec(spec: TopologySpec, b: ArraySpec, i: nat)
    requires WellFormed(spec) && i < |spec.arrays| && b in spec.arrays && b.name == spec.arrays[i].name
    ensures b == spec.arrays[i]
  {
  }

  /** Endpoints get their target and listeners: the first of each protocol declared for an array that had
      none of that protocol. */
  lemma EndpointAsDeclared(w: World, spec: TopologySpec, base: int, wires: Item -> Wire, i: nat, k: nat)
    returns (id: Id)
    requires Inv(w) && WellFormed(spec) && ApplyTopology(w, spec, base, wires).1.Ok?
    requires i < |spec.arrays| && k < |spec.arrays[i].endpoints|
    requires forall j :: 0 <= j < k ==> spec.arrays[i].endpoints[j].protocol != spec.arrays[i].endpoints[k].protocol
    requires forall f :: f in w.db.endpoints && w.db.endpoints[f].protocol == spec.arrays[i].endpoints[k].protocol
                         && w.db.endpoints[f].arr in w.db.arrays ==>
                           w.db.arrays[w.db.endpoints[f].arr].name != spec.arrays[i].name
    ensures var db, e := ApplyTopology(w, spec, base, wires).0.db, spec.arrays[i].endpoints[k];
      && id in db.endpoints && db.endpoints[id].arr in db.arrays
      && db.arrays[db.endpoints[id].arr].name == spec.arrays[i].name
      && db.endpoints[id].protocol == e.protocol && db.endpoints[id].target == e.target
      && db.endpoints[id].listeners == e.listeners
  {
    var db, a := ApplyTopology(w, spec, base, wires).0.db, spec.arrays[i];
    var e := a.endpoints[k];
    EndpointArraysKnown(w.db);
    hide DbOk, Issued, ApplyTopology, WellFormed;
    RowsKept(w, spec, base, wires);
    ApplyMakesArrays(w, spec, base, wires);
    assert a in spec.arrays && e in a.endpoints;
    var arr :| arr in db.arrays && db.arrays[arr].name == a.name
      && forall f :: f in a.endpoints ==> HasProtocol(db, arr, f.protocol);
    assert HasProtocol(db, arr, e.protocol);
    id :| id in EndpointsOf(db, arr, e.protocol);
    assert id !in w.db.endpoints;
    var b :| b in spec.arrays && b.name == db.arrays[arr].name && EndpointOf(db.endpoints[id], b.endpoints);
    OneArraySpec(spec, b, i);
    FirstOfProtocol(db.endpoints[id], a.endpoints, k);
  }

  lemma EndpointArraysKnown(db: Db)
    requires DbOk(db)
    ensures forall e :: e in db.endpoints ==> db.endpoints[e].arr in db.arrays
  {
  }

  lemma FirstOfProtocol(row: Endpoint, es: seq<EndpointSpec>, k: nat)
    requires EndpointOf(row, es) && k < |es| && row.protocol == es[k].protocol
    requires forall j :: 0 <= j < k ==> es[j].protocol != es[k].protocol
    ensures row.target == es[k].target && row.listeners == es[k].listeners
  {
  }

  /** Mappings join what they name: a declared pair that had no row has one with the declared persona. */
  lemma MappingAsDeclared(w: World, spec: TopologySpec, base: int, wires: Item -> Wire, i: nat) returns (id: Id)
    requires Inv(w) && WellFormed(spec) && ApplyTopology(w, spec, base, wires).1.Ok? && i < |spec.mappings|
    requires forall m :: m in w.db.mappings && w.db.mappings[m].host in w.db.hosts
                         && w.db.mappings[m].volume in w.db.volumes ==>
      w.db.hosts[w.db.mappings[m].host].name != spec.mappings[i].host
      || w.db.volumes[w.db.mappings[m].volume].name != spec.mappings[i].volume
    requires forall d :: d in spec.mappings ==>
      d.host != spec.mappings[i].host || d.volume != spec.mappings[i].volume || d == spec.mappings[i]
    ensures var db := ApplyTopology(w, spec, base, wires).0.db;
      id in db.mappings && MappingAs(db, db.mappings[id], spec.mappings[i], base)
  {
    var db, m := ApplyTopology(w, spec, base, wires).0.db, spec.mappings[i];
    MappedRowsKnown(w.db);
    hide DbOk, Issued, ApplyTopology, WellFormed, PoolMeant, Oldest;
    RowsKept(w, spec, base, wires);
    ApplyMakesMappings(w, spec, base, wires);
    var h, v := EndsMeant(spec, i);
    AllMeant(spec, v);
    assert m in spec.mappings && MappingThere(db, m.host, m.volume);
    id :| id in db.mappings && db.mappings[id].host in db.hosts && db.hosts[db.mappings[id].host].name == m.host
      && db.mappings[id].volume in db.volumes && db.volumes[db.mappings[id].volume].name == m.volume;
    assert id !in w.db.mappings;
    var d :| d in spec.mappings && MappingAs(db, db.mappings[id], d, base);
  }

  lemma MappedRowsKnown(db: Db)
    requires DbOk(db)
    ensures forall m :: m in db.mappings ==> db.mappings[m].host in db.hosts && db.mappings[m].volume in db.volumes
  {
    forall m | m in db.mappings
      ensures db.mappings[m].host in db.hosts && db.mappings[m].volume in db.volumes
    {
      BdevOfMapped(db, m);
    }
  }

  lemma EndsMeant(spec: TopologySpec, i: nat) returns (h: HostSpec, v: VolumeSpec)
    requires WellFormed(spec) && i < |spec.mappings|
    ensures h in spec.hosts && h.name == spec.mappings[i].host && v in spec.volumes && v.name == spec.mappings[i].volume
  {
    var j: nat :| j < |spec.hosts| && spec.hosts[j].name == spec.mappings[i].host;
    var k: nat :| k < |spec.volumes| && spec.volumes[k].name == spec.mappings[i].volume;
    h, v := spec.hosts[j], spec.volumes[k];
  }
}
