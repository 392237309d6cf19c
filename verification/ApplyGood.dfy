/** A successful apply is a sequence of service steps: it keeps the invariants and only adds rows. */
module ApplyGood {
  import opened Model
  import opened Ensure
  import opened Inventory
  import opened Volumes
  import opened Mappings
  import opened Topology
  import opened Apply
  import opened Invariants
  import opened DbSteps
  import opened ExportSteps
  import opened SteadySteps
  import opened GoodSteps

  ghost predicate Sub<T>(m: map<Id, T>, m': map<Id, T>) {
    forall k :: k in m ==> k in m' && m'[k] == m[k]
  }

  ghost predicate SubVolumes(m: map<Id, Volume>, m': map<Id, Volume>) {
    forall k :: k in m ==> k in m' && m'[k] == m[k].(status := m'[k].status)
  }

  /** Every row is still there, as it was but for the status of volumes. */
  ghost predicate Extends(db: Db, db': Db) {
    && Sub(db.arrays, db'.arrays) && Sub(db.endpoints, db'.endpoints) && Sub(db.pools, db'.pools)
    && Sub(db.hosts, db'.hosts) && SubVolumes(db.volumes, db'.volumes) && Sub(db.mappings, db'.mappings)
  }

  lemma ExtendsTrans(a: Db, b: Db, c: Db)
    requires Extends(a, b) && Extends(b, c)
    ensures Extends(a, c)
  {
  }

  /** `w'` is a later good state of the working copy. */
  ghost predicate Later(w: World, w': World, h: Hyp) {
    Good(w', h) && Extends(w.db, w'.db)
  }

  lemma LaterTrans(a: World, b: World, c: World, h: Hyp)
    requires Later(a, b, h) && Later(b, c, h)
    ensures Later(a, c, h)
  {
    hide Good, Extends;
    ExtendsTrans(a.db, b.db, c.db);
  }

  lemma CreateArrayLater(w: World, h: Hyp, name: string)
    requires Good(w, h) && CreateArray(w, name).r.Ok?
    ensures Later(w, CreateArray(w, name).w, h)
  {
    SerialFresh(w);
    hide Good, Inv;
    CreateArrayGood(w, h, name);
  }

  lemma CreateHostLater(w: World, h: Hyp, name: string, iqns: seq<string>, nqns: seq<string>, wwpns: seq<string>)
    requires Good(w, h) && CreateHost(w, name, iqns, nqns, wwpns).r.Ok?
    ensures Later(w, CreateHost(w, name, iqns, nqns, wwpns).w, h)
  {
    SerialFresh(w);
    hide Good, Inv;
    CreateHostGood(w, h, name, iqns, nqns, wwpns);
  }

  lemma CreatePoolLater(w: World, h: Hyp, name: string, arr: Id, backend: PoolBackend, sizeMb: Option<int>,
                        path: string, wire: Wire)
    requires Good(w, h) && CreatePool(w, name, arr, backend, sizeMb, path, wire).r.Ok?
    ensures Later(w, CreatePool(w, name, arr, backend, sizeMb, path, wire).w, h)
  {
    SerialFresh(w);
    hide Good, Inv, PoolEnsured;
    CreatePoolGood(w, h, name, arr, backend, sizeMb, path, wire);
  }

  lemma CreatedVolumeOk(w: World, name: string, pool: Id, sizeMb: int, wire: Wire)
    requires CreateVolume(w, name, pool, sizeMb, wire).r.Ok?
    ensures CreateVolume(w, name, pool, sizeMb, wire).w.serial != w.serial
  {
  }

  lemma CreateVolumeLater(w: World, h: Hyp, name: string, pool: Id, sizeMb: int, wire: Wire)
    requires Good(w, h) && CreateVolume(w, name, pool, sizeMb, wire).r.Ok?
    ensures Later(w, CreateVolume(w, name, pool, sizeMb, wire).w, h)
  {
    hide Inv, CreateVolume, VolumeOk, ExportInv, SizeAgree, NvmeComplete, StatusExact;
    CreatedVolumeOk(w, name, pool, sizeMb, wire);
    CreatedVolume(w, name, pool, sizeMb, wire);
    CreateVolumeGood(w, h, name, pool, sizeMb, wire);
  }

  lemma CreateMappingLater(w: World, h: Hyp, a: MapArgs, wire: Wire)
    requires Good(w, h) && CreateMapping(w, a, wire).r.Ok?
    ensures Later(w, CreateMapping(w, a, wire).w, h)
  {
    hide Good, Inv, CreateMapping, Extends;
    GoodFresh(w, h);
    CreateMappingRows(w, a, wire);
    CreateMappingGood(w, h, a, wire);
    ExtendsMapping(w.db, w.serial, CreateMapping(w, a, wire).w.db.mappings[w.serial], a.volume);
  }

  lemma GoodFresh(w: World, h: Hyp)
    requires Good(w, h)
    ensures Inv(w) && w.serial !in w.db.mappings && w.serial !in w.db.endpoints
    ensures Good(w, Hyp(false, false, false))
  {
  }

  lemma ExtendsMapping(db: Db, id: Id, m: Mapping, v: Id)
    requires id !in db.mappings && v in db.volumes
    ensures Extends(db, db.(mappings := db.mappings[id := m],
                            volumes := db.volumes[v := db.volumes[v].(status := InUse)]))
  {
  }

  lemma CreateMappingRows(w: World, a: MapArgs, wire: Wire)
    requires CreateMapping(w, a, wire).r.Ok?
    ensures var w' := CreateMapping(w, a, wire).w;
      && a.volume in w.db.volumes && w.serial in w'.db.mappings && CreateMapping(w, a, wire).r.value == w.serial
      && w'.db.mappings[w.serial].host == a.host && w'.db.mappings[w.serial].volume == a.volume
      && w'.db == w.db.(mappings := w.db.mappings[w.serial := w'.db.mappings[w.serial]],
                        volumes := w.db.volumes[a.volume := w.db.volumes[a.volume].(status := InUse)])
  {
  }

  // ---- Endpoints ---------------------------------------------------------------------------

  lemma EndpointStepLater(w: World, h: Hyp, arr: Id, e: EndpointSpec)
    requires Good(w, h) && (h.exports ==> Distinct(EndpointStep(w, arr, e).db.endpoints))
    ensures Later(w, EndpointStep(w, arr, e), h)
  {
    SerialFresh(w);
    hide Good, Inv;
    CreateEndpointDistinct(w, h, arr, e);
    if EndpointsOf(w.db, arr, e.protocol) == {} && arr in w.db.arrays {
      CreateEndpointGood(w, h, arr, e.protocol, e.target, e.listeners);
    }
  }

  lemma CreateEndpointDistinct(w: World, h: Hyp, arr: Id, e: EndpointSpec)
    requires w.serial !in w.db.endpoints
    requires h.exports ==> Distinct(EndpointStep(w, arr, e).db.endpoints)
    ensures h.exports && EndpointsOf(w.db, arr, e.protocol) == {} && arr in w.db.arrays ==>
        NewTargetOk(w.db, w.serial, e.protocol, e.target)
  {
    var w' := EndpointStep(w, arr, e);
    if h.exports && EndpointsOf(w.db, arr, e.protocol) == {} && arr in w.db.arrays {
      forall f | f in w.db.endpoints && f != w.serial && w.db.endpoints[f].protocol == e.protocol
          && w.db.endpoints[f].target == e.target
        ensures e.target == ""
      {
        assert w'.db.endpoints[f] == w.db.endpoints[f] && w'.db.endpoints[w.serial].target == e.target;
      }
    }
  }

  lemma DistinctSub(endpoints: map<Id, Endpoint>, endpoints': map<Id, Endpoint>)
    requires Distinct(endpoints') && Sub(endpoints, endpoints')
    ensures Distinct(endpoints)
  {
  }

  /** Endpoints are only added, whatever the step does. */
  lemma EndpointStepAdds(w: World, arr: Id, e: EndpointSpec)
    requires w.serial !in w.db.endpoints
    ensures Sub(w.db.endpoints, EndpointStep(w, arr, e).db.endpoints)
  {
  }

  lemma {:induction false} EndpointPhaseLater(w: World, h: Hyp, arr: Id, es: seq<EndpointSpec>)
    requires Good(w, h) && (h.exports ==> Distinct(EndpointPhase(w, arr, es).db.endpoints))
    ensures Later(w, EndpointPhase(w, arr, es), h)
    decreases |es|
  {
    hide Good, Extends, EndpointStep;
    LaterRefl(w, h);
    if es != [] {
      var k := |es| - 1;
      var y := EndpointPhase(w, arr, es[..k]);
      EndpointsFresh(w, h, arr, es[..k]);
      EndpointStepAdds(y, arr, es[k]);
      if h.exports {
        DistinctSub(y.db.endpoints, EndpointPhase(w, arr, es).db.endpoints);
      }
      EndpointPhaseLater(w, h, arr, es[..k]);
      EndpointStepLater(y, h, arr, es[k]);
      LaterTrans(w, y, EndpointPhase(w, arr, es), h);
    }
  }

  lemma LaterRefl(w: World, h: Hyp)
    requires Good(w, h)
    ensures Later(w, w, h)
  {
  }

  /** The invariant alone needs no hypothesis on targets. */
  lemma {:induction false} EndpointsFresh(w: World, h: Hyp, arr: Id, es: seq<EndpointSpec>)
    requires Good(w, h)
    ensures Inv(EndpointPhase(w, arr, es))
        && EndpointPhase(w, arr, es).serial !in EndpointPhase(w, arr, es).db.endpoints
    ensures Sub(w.db.endpoints, EndpointPhase(w, arr, es).db.endpoints)
    decreases |es|
  {
    hide DbOk, Issued;
    if es != [] {
      var k := |es| - 1;
      var y := EndpointPhase(w, arr, es[..k]);
      EndpointsFresh(w, h, arr, es[..k]);
      CreateEndpointInv(y, arr, es[k].protocol, es[k].target, es[k].listeners);
      EndpointStepAdds(y, arr, es[k]);
    }
    SerialFresh(EndpointPhase(w, arr, es));
  }

  // ---- Arrays --------------------------------------------------------------------------------

  lemma ArrayStepLater(x: Phase, h: Hyp, a: ArraySpec)
    requires Good(x.w, h) && x.err.None? && ArrayStep(x, a).err.None?
    requires h.exports ==> Distinct(ArrayStep(x, a).w.db.endpoints)
    ensures Later(x.w, ArrayStep(x, a).w, h)
    ensures Sub(x.w.db.endpoints, ArrayStep(x, a).w.db.endpoints)
  {
    hide Good, Extends, Distinct;
    var y := if First(ArraysNamed(x.w.db, a.name)).Some? then x else Made(x, a.name, CreateArray(x.w, a.name));
    LaterRefl(x.w, h);
    if First(ArraysNamed(x.w.db, a.name)).None? {
      CreateArrayLater(x.w, h, a.name);
    }
    var arr := ArrayStep(x, a).objs[a.name];
    EndpointsFresh(y.w, h, arr, a.endpoints);
    EndpointPhaseLater(y.w, h, arr, a.endpoints);
    LaterTrans(x.w, y.w, ArrayStep(x, a).w, h);
  }

  lemma {:induction false} ArrayPhaseLater(w: World, h: Hyp, xs: seq<ArraySpec>)
    requires Good(w, h) && ArrayPhase(w, xs).err.None?
    requires h.exports ==> Distinct(ArrayPhase(w, xs).w.db.endpoints)
    ensures Later(w, ArrayPhase(w, xs).w, h)
    decreases |xs|, 1
  {
    hide Good, Extends, Distinct, ArrayStep;
    LaterRefl(w, h);
    if xs != [] {
      var k := |xs| - 1;
      var x := ArrayPhase(w, xs[..k]);
      ArrayPrefix(w, h, xs);
      ArrayPhaseLater(w, h, xs[..k]);
      ArrayStepLater(x, h, xs[k]);
      LaterTrans(w, x.w, ArrayPhase(w, xs).w, h);
    }
  }

  /** Targets that are distinct at the end were distinct before the last array. */
  lemma ArrayPrefix(w: World, h: Hyp, xs: seq<ArraySpec>)
    requires Good(w, h) && ArrayPhase(w, xs).err.None? && xs != []
    requires h.exports ==> Distinct(ArrayPhase(w, xs).w.db.endpoints)
    ensures ArrayPhase(w, xs[..|xs| - 1]).err.None?
    ensures h.exports ==> Distinct(ArrayPhase(w, xs[..|xs| - 1]).w.db.endpoints)
    decreases |xs|, 0
  {
    var k := |xs| - 1;
    var x := ArrayPhase(w, xs[..k]);
    var weak := Hyp(false, false, false);
    hide Good, Inv, Distinct, ArrayStep, Extends, Sub;
    GoodFresh(w, h);
    ArrayPhaseLater(w, weak, xs[..k]);
    ArrayStepLater(x, weak, xs[k]);
    if h.exports {
      DistinctSub(x.w.db.endpoints, ArrayPhase(w, xs).w.db.endpoints);
    }
  }

  // ---- Pools, hosts, volumes, mappings --------------------------------------------------------

  lemma PoolStepLater(x: Phase, h: Hyp, arrays: map<string, Id>, p: PoolSpec, wire: Wire)
    requires Good(x.w, h) && x.err.None? && PoolStep(x, arrays, p, wire).err.None?
    ensures Later(x.w, PoolStep(x, arrays, p, wire).w, h)
  {
    hide Good, Extends, CreatePool;
    LaterRefl(x.w, h);
    if p.arr in arrays && First(PoolsNamed(x.w.db, arrays[p.arr], p.name)).None? {
      CreatePoolLater(x.w, h, p.name, arrays[p.arr], if p.malloc then Malloc else AioFile,
                      if p.malloc then Some(p.sizeMb) else None, p.aioPath, wire);
    }
  }

  lemma {:induction false} PoolPhaseLater(w: World, h: Hyp, arrays: map<string, Id>, xs: seq<PoolSpec>,
          wires: Item -> Wire)
    requires Good(w, h) && PoolPhase(w, arrays, xs, wires).err.None?
    ensures Later(w, PoolPhase(w, arrays, xs, wires).w, h)
    decreases |xs|
  {
    hide Good, Extends, PoolStep;
    LaterRefl(w, h);
    if xs != [] {
      var k := |xs| - 1;
      var x := PoolPhase(w, arrays, xs[..k], wires);
      PoolPhaseLater(w, h, arrays, xs[..k], wires);
      PoolStepLater(x, h, arrays, xs[k], wires(PoolItem(k)));
      LaterTrans(w, x.w, PoolPhase(w, arrays, xs, wires).w, h);
    }
  }

  lemma HostStepLater(x: Phase, h: Hyp, s: HostSpec)
    requires Good(x.w, h) && x.err.None? && HostStep(x, s).err.None?
    ensures Later(x.w, HostStep(x, s).w, h)
  {
    hide Good, Extends, CreateHost;
    LaterRefl(x.w, h);
    if First(HostsNamed(x.w.db, s.name)).None? {
      CreateHostLater(x.w, h, s.name, s.iqns, s.nqns, s.wwpns);
    }
  }

  lemma {:induction false} HostPhaseLater(w: World, h: Hyp, xs: seq<HostSpec>)
    requires Good(w, h) && HostPhase(w, xs).err.None?
    ensures Later(w, HostPhase(w, xs).w, h)
    decreases |xs|
  {
    hide Good, Extends, HostStep;
    LaterRefl(w, h);
    if xs != [] {
      var k := |xs| - 1;
      var x := HostPhase(w, xs[..k]);
      HostPhaseLater(w, h, xs[..k]);
      HostStepLater(x, h, xs[k]);
      LaterTrans(w, x.w, HostPhase(w, xs).w, h);
    }
  }

  lemma VolumeStepLater(x: Phase, h: Hyp, arrays: map<string, Id>, pools: map<string, Id>, v: VolumeSpec, wire: Wire)
    requires Good(x.w, h) && x.err.None? && VolumeStep(x, arrays, pools, v, wire).err.None?
    ensures Later(x.w, VolumeStep(x, arrays, pools, v, wire).w, h)
  {
    hide Good, Extends, CreateVolume;
    LaterRefl(x.w, h);
    if VolumeStep(x, arrays, pools, v, wire).w != x.w {
      CreateVolumeLater(x.w, h, v.name, pools[v.pool], v.sizeMb, wire);
    }
  }

  lemma {:induction false} VolumePhaseLater(w: World, h: Hyp, arrays: map<string, Id>, pools: map<string, Id>,
          xs: seq<VolumeSpec>, wires: Item -> Wire)
    requires Good(w, h) && VolumePhase(w, arrays, pools, xs, wires).err.None?
    ensures Later(w, VolumePhase(w, arrays, pools, xs, wires).w, h)
    decreases |xs|
  {
    hide Good, Extends, VolumeStep;
    LaterRefl(w, h);
    if xs != [] {
      var k := |xs| - 1;
      var x := VolumePhase(w, arrays, pools, xs[..k], wires);
      VolumePhaseLater(w, h, arrays, pools, xs[..k], wires);
      VolumeStepLater(x, h, arrays, pools, xs[k], wires(VolumeItem(k)));
      LaterTrans(w, x.w, VolumePhase(w, arrays, pools, xs, wires).w, h);
    }
  }

  lemma MappingStepLater(x: Phase, h: Hyp, hosts: map<string, Id>, volumes: map<string, Id>, m: MappingSpec, base: int,
                         wire: Wire)
    requires Good(x.w, h) && x.err.None? && MappingStep(x, hosts, volumes, m, base, wire).err.None?
    ensures Later(x.w, MappingStep(x, hosts, volumes, m, base, wire).w, h)
  {
    hide Good, Extends, CreateMapping;
    LaterRefl(x.w, h);
    if MappingStep(x, hosts, volumes, m, base, wire).w != x.w {
      CreateMappingLater(x.w, h, Request(hosts[m.host], volumes[m.volume], m.protocol, base), wire);
    }
  }

  lemma {:induction false} MappingPhaseLater(w: World, h: Hyp, hosts: map<string, Id>, volumes: map<string, Id>,
          xs: seq<MappingSpec>, base: int, wires: Item -> Wire)
    requires Good(w, h) && MappingPhase(w, hosts, volumes, xs, base, wires).err.None?
    ensures Later(w, MappingPhase(w, hosts, volumes, xs, base, wires).w, h)
    decreases |xs|
  {
    hide Good, Extends, MappingStep;
    LaterRefl(w, h);
    if xs != [] {
      var k := |xs| - 1;
      var x := MappingPhase(w, hosts, volumes, xs[..k], base, wires);
      MappingPhaseLater(w, h, hosts, volumes, xs[..k], base, wires);
      MappingStepLater(x, h, hosts, volumes, xs[k], base, wires(MappingItem(k)));
      LaterTrans(w, x.w, MappingPhase(w, hosts, volumes, xs, base, wires).w, h);
    }
  }

  // ---- The whole apply --------------------------------------------------------------------------

  /** The phases after the arrays, one after the other. */
  lemma StagesLater(w: World, h: Hyp, spec: TopologySpec, base: int, wires: Item -> Wire)
    requires Good(Arrays(w, spec).w, h) && MappingsPart(w, spec, base, wires).err.None?
    ensures Later(Arrays(w, spec).w, Pools(w, spec, wires).w, h)
    ensures Later(Pools(w, spec, wires).w, Hosts(w, spec, wires).w, h)
    ensures Later(Hosts(w, spec, wires).w, VolumesOf(w, spec, wires).w, h)
    ensures Later(VolumesOf(w, spec, wires).w, MappingsPart(w, spec, base, wires).w, h)
    ensures Later(Arrays(w, spec).w, MappingsPart(w, spec, base, wires).w, h)
  {
    hide Good, Extends, ArrayPhase, PoolPhase, HostPhase, VolumePhase, MappingPhase;
    var a, p, s, v := Arrays(w, spec), Pools(w, spec, wires), Hosts(w, spec, wires), VolumesOf(w, spec, wires);
    PoolPhaseLater(a.w, h, a.objs, spec.pools, wires);
    HostPhaseLater(p.w, h, spec.hosts);
    VolumePhaseLater(s.w, h, a.objs, p.objs, spec.volumes, wires);
    MappingPhaseLater(v.w, h, s.objs, v.objs, spec.mappings, base, wires);
    LaterTrans(a.w, p.w, s.w, h);
    LaterTrans(a.w, s.w, v.w, h);
    LaterTrans(a.w, v.w, MappingsPart(w, spec, base, wires).w, h);
  }

  /** A successful apply keeps the invariants and only adds rows. */
  lemma ApplyLater(w: World, h: Hyp, spec: TopologySpec, base: int, wires: Item -> Wire)
    requires Good(w, h) && ApplyTopology(w, spec, base, wires).1.Ok?
    requires h.exports ==> Distinct(ApplyTopology(w, spec, base, wires).0.db.endpoints)
    ensures Later(w, Arrays(w, spec).w, h)
    ensures Later(w, ApplyTopology(w, spec, base, wires).0, h)
  {
    var weak := Hyp(false, false, false);
    var a, m := Arrays(w, spec), MappingsPart(w, spec, base, wires);
    hide Good, Inv, Extends, Distinct, ArrayPhase, PoolPhase, HostPhase, VolumePhase, MappingPhase, Sub;
    GoodFresh(w, h);
    ArrayPhaseLater(w, weak, spec.arrays);
    StagesLater(w, weak, spec, base, wires);
    EndpointsOfLater(a.w.db, m.w.db);
    if h.exports {
      DistinctSub(a.w.db.endpoints, m.w.db.endpoints);
    }
    ArrayPhaseLater(w, h, spec.arrays);
    StagesLater(w, h, spec, base, wires);
    LaterTrans(w, a.w, m.w, h);
  }

  lemma EndpointsOfLater(db: Db, db': Db)
    requires Extends(db, db')
    ensures Sub(db.endpoints, db'.endpoints)
  {
  }
}
