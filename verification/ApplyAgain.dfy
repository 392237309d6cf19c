/** Applying a topology again creates nothing; a well-formed one accounts for every item. */
module ApplyAgain {
  import opened Model
  import opened Ensure
  import opened Inventory
  import opened Volumes
  import opened Mappings
  import opened Topology
  import opened Apply
  import opened Invariants
  import opened GoodSteps
  import opened ApplyGood

  const ANY_RUN := Hyp(false, false, false)

  lemma OnlyOne(hits: set<Id>, id: Id)
    requires id in hits && forall x :: x in hits ==> x == id
    ensures First(hits) == Some(id) && hits == {id} && |hits| == 1
  {
  }

  // ---- Arrays ------------------------------------------------------------------------------

  ghost predicate HasProtocol(db: Db, arr: Id, p: Protocol) { EndpointsOf(db, arr, p) != {} }

  lemma HasProtocolLater(db: Db, db': Db, arr: Id, p: Protocol)
    requires HasProtocol(db, arr, p) && Extends(db, db')
    ensures HasProtocol(db', arr, p)
  {
  }

  lemma EndpointStepHas(w: World, arr: Id, e: EndpointSpec)
    requires arr in w.db.arrays && w.serial !in w.db.endpoints
    ensures HasProtocol(EndpointStep(w, arr, e).db, arr, e.protocol)
    ensures Extends(w.db, EndpointStep(w, arr, e).db) && arr in EndpointStep(w, arr, e).db.arrays
  {
    if !HasProtocol(w.db, arr, e.protocol) {
      assert w.serial in EndpointsOf(EndpointStep(w, arr, e).db, arr, e.protocol);
    }
  }

  lemma {:induction false} EndpointPhaseHas(w: World, arr: Id, es: seq<EndpointSpec>)
    requires Good(w, ANY_RUN) && arr in w.db.arrays
    ensures var w' := EndpointPhase(w, arr, es);
      arr in w'.db.arrays && forall e :: e in es ==> HasProtocol(w'.db, arr, e.protocol)
    decreases |es|
  {
    if es != [] {
      var k := |es| - 1;
      var y := EndpointPhase(w, arr, es[..k]);
      hide Good, EndpointStep, HasProtocol, Extends, Inv;
      EndpointPhaseHas(w, arr, es[..k]);
      EndpointsFresh(w, ANY_RUN, arr, es[..k]);
      EndpointStepHas(y, arr, es[k]);
      forall e | e in es
        ensures HasProtocol(EndpointPhase(w, arr, es).db, arr, e.protocol)
      {
        if e != es[k] {
          assert es == es[..k] + [es[k]];
          HasProtocolLater(y.db, EndpointPhase(w, arr, es).db, arr, e.protocol);
        }
      }
    }
  }

  lemma {:induction false} EndpointPhaseAgain(w: World, arr: Id, es: seq<EndpointSpec>)
    requires forall e :: e in es ==> HasProtocol(w.db, arr, e.protocol)
    ensures EndpointPhase(w, arr, es) == w
    decreases |es|
  {
    if es != [] {
      assert es == es[..|es| - 1] + [es[|es| - 1]];
      EndpointPhaseAgain(w, arr, es[..|es| - 1]);
    }
  }

  /** What the array step leaves: a row of that name, with all declared endpoints. */
  lemma ArrayStepMade(x: Phase, a: ArraySpec)
    requires Good(x.w, ANY_RUN) && x.err.None? && ArrayStep(x, a).err.None?
    ensures var y := ArrayStep(x, a);
      && y.objs == x.objs[a.name := y.objs[a.name]]
      && y.objs[a.name] in y.w.db.arrays && y.w.db.arrays[y.objs[a.name]].name == a.name
      && forall e :: e in a.endpoints ==> HasProtocol(y.w.db, y.objs[a.name], e.protocol)
  {
    var found := First(ArraysNamed(x.w.db, a.name));
    var y := if found.Some? then Skip(x, a.name, found.value) else Made(x, a.name, CreateArray(x.w, a.name));
    hide Good, Extends, HasProtocol;
    LaterRefl(x.w, ANY_RUN);
    if found.None? {
      CreateArrayLater(x.w, ANY_RUN, a.name);
    }
    var arr := y.objs[a.name];
    EndpointPhaseHas(y.w, arr, a.endpoints);
    EndpointPhaseLater(y.w, ANY_RUN, arr, a.endpoints);
    RowKept(y.w.db, ArrayStep(x, a).w.db, arr);
  }

  lemma RowKept(db: Db, db': Db, arr: Id)
    requires Extends(db, db') && arr in db.arrays
    ensures arr in db'.arrays && db'.arrays[arr] == db.arrays[arr]
  {
  }

  lemma ArrayStepAgain(x: Phase, a: ArraySpec, again: Phase)
    requires Good(x.w, ANY_RUN) && x.err.None? && ArrayStep(x, a).err.None?
    requires DbOk(again.w.db) && Extends(ArrayStep(x, a).w.db, again.w.db)
    requires again.err.None? && again.objs == x.objs
    ensures ArrayStep(again, a) == again.(objs := ArrayStep(x, a).objs, skipped := again.skipped + 1)
  {
    var y := ArrayStep(x, a);
    var id := y.objs[a.name];
    ArrayStepMade(x, a);
    RowKept(y.w.db, again.w.db, id);
    OnlyOne(ArraysNamed(again.w.db, a.name), id);
    hide Good, EndpointPhase, DbOk, HasProtocol;
    forall e | e in a.endpoints
      ensures HasProtocol(again.w.db, id, e.protocol)
    {
      HasProtocolLater(y.w.db, again.w.db, id, e.protocol);
    }
    EndpointPhaseAgain(again.w, id, a.endpoints);
  }

  lemma {:induction false} ArraysAgain(w: World, xs: seq<ArraySpec>, w': World)
    requires Good(w, ANY_RUN) && ArrayPhase(w, xs).err.None?
    requires DbOk(w'.db) && Extends(ArrayPhase(w, xs).w.db, w'.db)
    ensures ArrayPhase(w', xs) == Phase(w', ArrayPhase(w, xs).objs, 0, |xs|, None)
    decreases |xs|
  {
    if xs != [] {
      var k := |xs| - 1;
      var x := ArrayPhase(w, xs[..k]);
      hide Good, DbOk, Extends, ArrayStep;
      ArrayPrefix(w, ANY_RUN, xs);
      ArrayPhaseLater(w, ANY_RUN, xs[..k]);
      ArrayStepLater(x, ANY_RUN, xs[k]);
      ExtendsTrans(x.w.db, ArrayPhase(w, xs).w.db, w'.db);
      ArraysAgain(w, xs[..k], w');
      ArrayStepAgain(x, xs[k], ArrayPhase(w', xs[..k]));
    }
  }

  // ---- Pools --------------------------------------------------------------------------------

  lemma PoolStepAgain(x: Phase, arrays: map<string, Id>, p: PoolSpec, wire: Wire, again: Phase, wire': Wire)
    requires Good(x.w, ANY_RUN) && x.err.None? && PoolStep(x, arrays, p, wire).err.None?
    requires DbOk(again.w.db) && Extends(PoolStep(x, arrays, p, wire).w.db, again.w.db)
    requires again.err.None? && again.objs == x.objs
    ensures PoolStep(again, arrays, p, wire')
            == again.(objs := PoolStep(x, arrays, p, wire).objs,
                      skipped := again.skipped + (if p.arr in arrays then 1 else 0))
  {
    if p.arr in arrays {
      var y := PoolStep(x, arrays, p, wire);
      PoolStepMade(x, arrays, p, wire);
      var id := y.objs[p.name];
      assert id in again.w.db.pools && again.w.db.pools[id] == y.w.db.pools[id];
      OnlyOne(PoolsNamed(again.w.db, arrays[p.arr], p.name), id);
    }
  }

  lemma PoolStepMade(x: Phase, arrays: map<string, Id>, p: PoolSpec, wire: Wire)
    requires Good(x.w, ANY_RUN) && x.err.None? && PoolStep(x, arrays, p, wire).err.None? && p.arr in arrays
    ensures var y := PoolStep(x, arrays, p, wire);
      && y.objs == x.objs[p.name := y.objs[p.name]]
      && y.objs[p.name] in y.w.db.pools
      && y.w.db.pools[y.objs[p.name]].name == p.name && y.w.db.pools[y.objs[p.name]].arr == arrays[p.arr]
  {
    hide Good, PoolEnsured;
    var row := Pool(p.name, arrays[p.arr], if p.malloc then Malloc else AioFile,
                    if p.malloc then Some(p.sizeMb) else None, p.aioPath);
    PoolEffect(x.w.spdk, x.w.serial, row,
               if arrays[p.arr] in x.w.db.arrays then x.w.db.arrays[arrays[p.arr]].name else "", wire);
  }

  /** The pools found or made are rows of the array their section names. */
  ghost predicate PoolObjs(db: Db, arrays: map<string, Id>, objs: map<string, Id>) {
    forall n :: n in objs ==> objs[n] in db.pools && db.pools[objs[n]].arr in arrays.Values
  }

  lemma PoolObjsStep(x: Phase, arrays: map<string, Id>, p: PoolSpec, wire: Wire)
    requires Good(x.w, ANY_RUN) && x.err.None? && PoolStep(x, arrays, p, wire).err.None?
        && PoolObjs(x.w.db, arrays, x.objs)
    ensures PoolObjs(PoolStep(x, arrays, p, wire).w.db, arrays, PoolStep(x, arrays, p, wire).objs)
    ensures PoolStep(x, arrays, p, wire).objs.Keys == x.objs.Keys + (if p.arr in arrays then {p.name} else {})
  {
    hide Good, PoolStep, Extends;
    PoolStepLater(x, ANY_RUN, arrays, p, wire);
    if p.arr in arrays {
      PoolStepMade(x, arrays, p, wire);
      PoolRowsKept(x.w.db, PoolStep(x, arrays, p, wire).w.db);
      assert arrays[p.arr] in arrays.Values;
    } else {
      PoolStepNone(x, arrays, p, wire);
    }
  }

  lemma PoolStepNone(x: Phase, arrays: map<string, Id>, p: PoolSpec, wire: Wire)
    requires p.arr !in arrays
    ensures PoolStep(x, arrays, p, wire) == x
  {
  }

  lemma PoolRowsKept(db: Db, db': Db)
    requires Extends(db, db')
    ensures forall p :: p in db.pools ==> p in db'.pools && db'.pools[p] == db.pools[p]
  {
  }

  lemma {:induction false} PoolPhaseObjs(w: World, arrays: map<string, Id>, xs: seq<PoolSpec>, wires: Item -> Wire)
    requires Good(w, ANY_RUN) && PoolPhase(w, arrays, xs, wires).err.None?
    ensures PoolObjs(PoolPhase(w, arrays, xs, wires).w.db, arrays, PoolPhase(w, arrays, xs, wires).objs)
    decreases |xs|
  {
    if xs != [] {
      var k := |xs| - 1;
      hide Good, PoolStep, Extends, PoolObjs;
      PoolPhaseObjs(w, arrays, xs[..k], wires);
      PoolPhaseLater(w, ANY_RUN, arrays, xs[..k], wires);
      PoolObjsStep(PoolPhase(w, arrays, xs[..k], wires), arrays, xs[k], wires(PoolItem(k)));
    }
  }

  /** `y` is the phase of a second run: same objects, nothing created, nothing changed. */
  ghost predicate Idle(w: World, objs: map<string, Id>, y: Phase) {
    y == Phase(w, objs, 0, y.skipped, None)
  }

  lemma {:induction false} PoolsAgain(w: World, arrays: map<string, Id>, xs: seq<PoolSpec>, wires: Item -> Wire,
          w': World, wires': Item -> Wire)
    requires Good(w, ANY_RUN) && PoolPhase(w, arrays, xs, wires).err.None?
    requires DbOk(w'.db) && Extends(PoolPhase(w, arrays, xs, wires).w.db, w'.db)
    ensures Idle(w', PoolPhase(w, arrays, xs, wires).objs, PoolPhase(w', arrays, xs, wires'))
    decreases |xs|
  {
    if xs != [] {
      var k := |xs| - 1;
      var x := PoolPhase(w, arrays, xs[..k], wires);
      hide Good, DbOk, Extends, PoolStep;
      PoolPhaseLater(w, ANY_RUN, arrays, xs[..k], wires);
      PoolStepLater(x, ANY_RUN, arrays, xs[k], wires(PoolItem(k)));
      ExtendsTrans(x.w.db, PoolPhase(w, arrays, xs, wires).w.db, w'.db);
      PoolsAgain(w, arrays, xs[..k], wires, w', wires');
      PoolStepAgain(x, arrays, xs[k], wires(PoolItem(k)), PoolPhase(w', arrays, xs[..k], wires'), wires'(PoolItem(k)));
    }
  }

  // ---- Hosts --------------------------------------------------------------------------------

  lemma HostStepMade(x: Phase, h: HostSpec)
    requires x.err.None? && HostStep(x, h).err.None?
    ensures var y := HostStep(x, h);
      && y.objs == x.objs[h.name := y.objs[h.name]]
      && y.objs[h.name] in y.w.db.hosts && y.w.db.hosts[y.objs[h.name]].name == h.name
  {
  }

  lemma HostStepAgain(x: Phase, h: HostSpec, again: Phase)
    requires x.err.None? && HostStep(x, h).err.None?
    requires HostsOk(again.w.db.hosts) && Sub(HostStep(x, h).w.db.hosts, again.w.db.hosts)
    requires again.err.None? && again.objs == x.objs
    ensures HostStep(again, h) == again.(objs := HostStep(x, h).objs, skipped := again.skipped + 1)
  {
    HostStepMade(x, h);
    OnlyOne(HostsNamed(again.w.db, h.name), HostStep(x, h).objs[h.name]);
  }

  lemma {:induction false} HostsAgain(w: World, xs: seq<HostSpec>, w': World)
    requires Good(w, ANY_RUN) && HostPhase(w, xs).err.None?
    requires DbOk(w'.db) && Extends(HostPhase(w, xs).w.db, w'.db)
    ensures Idle(w', HostPhase(w, xs).objs, HostPhase(w', xs))
    decreases |xs|
  {
    if xs != [] {
      var k := |xs| - 1;
      var x := HostPhase(w, xs[..k]);
      HostsExtended(HostPhase(w, xs).w.db, w'.db);
      hide Good, DbOk, Extends, HostStep, HostsOk, Sub;
      HostPhaseLater(w, ANY_RUN, xs[..k]);
      HostStepLater(x, ANY_RUN, xs[k]);
      ExtendsTrans(x.w.db, HostPhase(w, xs).w.db, w'.db);
      HostsAgain(w, xs[..k], w');
      HostStepAgain(x, xs[k], HostPhase(w', xs[..k]));
    }
  }

  lemma HostsExtended(db: Db, db': Db)
    requires DbOk(db') && Extends(db, db')
    ensures HostsOk(db'.hosts) && Sub(db.hosts, db'.hosts)
  {
  }

  // ---- Volumes ------------------------------------------------------------------------------

  lemma VolumeStepMade(x: Phase, arrays: map<string, Id>, pools: map<string, Id>, v: VolumeSpec, wire: Wire)
    requires Good(x.w, ANY_RUN) && x.err.None? && VolumeStep(x, arrays, pools, v, wire).err.None?
    requires PoolObjs(x.w.db, arrays, pools) && v.pool in pools
    ensures var y := VolumeStep(x, arrays, pools, v, wire);
      && y.objs == x.objs[v.name := y.objs[v.name]]
      && y.objs[v.name] in y.w.db.volumes
      && y.w.db.volumes[y.objs[v.name]].name == v.name
      && y.w.db.volumes[y.objs[v.name]].arr == x.w.db.pools[pools[v.pool]].arr
  {
    hide Good, LvolEnsured, LvsName;
  }

  lemma VolumeStepAgain(x: Phase, arrays: map<string, Id>, pools: map<string, Id>, v: VolumeSpec, wire: Wire,
                        again: Phase, wire': Wire)
    requires Good(x.w, ANY_RUN) && x.err.None? && VolumeStep(x, arrays, pools, v, wire).err.None?
    requires PoolObjs(x.w.db, arrays, pools)
    requires DbOk(again.w.db) && Extends(VolumeStep(x, arrays, pools, v, wire).w.db, again.w.db)
        && Extends(x.w.db, again.w.db)
    requires again.err.None? && again.objs == x.objs
    ensures VolumeStep(again, arrays, pools, v, wire')
            == again.(objs := VolumeStep(x, arrays, pools, v, wire).objs,
                      skipped := again.skipped + (if v.pool in pools then 1 else 0))
  {
    if v.pool in pools {
      var y := VolumeStep(x, arrays, pools, v, wire);
      hide Good, VolumeStep, PoolObjs, Sub, SubVolumes, VolumesOk;
      VolumeStepMade(x, arrays, pools, v, wire);
      FoundAgain(x.w.db, y.w.db, again.w.db, arrays, pools, v, y.objs[v.name]);
      SkipsVolume(again, arrays, pools, v, wire', y.objs[v.name]);
    }
  }

  lemma FoundAgain(db: Db, db': Db, later: Db, arrays: map<string, Id>, pools: map<string, Id>, v: VolumeSpec, id: Id)
    requires PoolObjs(db, arrays, pools) && v.pool in pools && Sub(db.pools, later.pools)
        && SubVolumes(db'.volumes, later.volumes)
    requires VolumesOk(later.arrays, later.pools, later.volumes)
    requires id in db'.volumes && db'.volumes[id].name == v.name && db'.volumes[id].arr == db.pools[pools[v.pool]].arr
    ensures pools[v.pool] in later.pools && later.pools[pools[v.pool]].arr in arrays.Values
    ensures VolumesNamed(later, later.pools[pools[v.pool]].arr, v.name) == {id}
  {
    hide VolumeOk;
    OnlyOne(VolumesNamed(later, db.pools[pools[v.pool]].arr, v.name), id);
  }

  lemma SkipsVolume(x: Phase, arrays: map<string, Id>, pools: map<string, Id>, v: VolumeSpec, wire: Wire, id: Id)
    requires v.pool in pools && pools[v.pool] in x.w.db.pools && x.w.db.pools[pools[v.pool]].arr in arrays.Values
    requires VolumesNamed(x.w.db, x.w.db.pools[pools[v.pool]].arr, v.name) == {id}
    ensures VolumeStep(x, arrays, pools, v, wire) == Skip(x, v.name, id)
  {
  }

  lemma PoolObjsLater(db: Db, db': Db, arrays: map<string, Id>, objs: map<string, Id>)
    requires PoolObjs(db, arrays, objs) && Extends(db, db')
    ensures PoolObjs(db', arrays, objs)
  {
  }

  lemma {:induction false} VolumesAgain(w: World, arrays: map<string, Id>, pools: map<string, Id>,
          xs: seq<VolumeSpec>, wires: Item -> Wire, w': World, wires': Item -> Wire)
    requires Good(w, ANY_RUN) && VolumePhase(w, arrays, pools, xs, wires).err.None? && PoolObjs(w.db, arrays, pools)
    requires DbOk(w'.db) && Extends(VolumePhase(w, arrays, pools, xs, wires).w.db, w'.db)
    ensures Idle(w', VolumePhase(w, arrays, pools, xs, wires).objs, VolumePhase(w', arrays, pools, xs, wires'))
    decreases |xs|
  {
    if xs != [] {
      var k := |xs| - 1;
      var x := VolumePhase(w, arrays, pools, xs[..k], wires);
      hide Good, DbOk, Extends, VolumeStep, PoolObjs;
      VolumePhaseLater(w, ANY_RUN, arrays, pools, xs[..k], wires);
      VolumeStepLater(x, ANY_RUN, arrays, pools, xs[k], wires(VolumeItem(k)));
      ExtendsTrans(x.w.db, VolumePhase(w, arrays, pools, xs, wires).w.db, w'.db);
      PoolObjsLater(w.db, x.w.db, arrays, pools);
      VolumesAgain(w, arrays, pools, xs[..k], wires, w', wires');
      VolumeStepAgain(x, arrays, pools, xs[k], wires(VolumeItem(k)), VolumePhase(w', arrays, pools, xs[..k], wires'),
                      wires'(VolumeItem(k)));
    }
  }

  // ---- Mappings -----------------------------------------------------------------------------

  /** Exactly one row maps the volume to the host. */
  ghost predicate OneMapping(db: Db, host: Id, volume: Id) { |MappingsBetween(db, host, volume)| == 1 }

  lemma MappingStepOne(x: Phase, hosts: map<string, Id>, volumes: map<string, Id>, m: MappingSpec, base: int,
                       wire: Wire)
    requires Good(x.w, ANY_RUN) && x.err.None? && MappingStep(x, hosts, volumes, m, base, wire).err.None?
    ensures var db' := MappingStep(x, hosts, volumes, m, base, wire).w.db;
      && (m.host in hosts && m.volume in volumes ==> OneMapping(db', hosts[m.host], volumes[m.volume]))
      && (forall h, v :: OneMapping(x.w.db, h, v) ==> OneMapping(db', h, v))
  {
    hide Good, Inv, CreateMapping;
    var y := MappingStep(x, hosts, volumes, m, base, wire);
    if y.w != x.w {
      var a := Request(hosts[m.host], volumes[m.volume], m.protocol, base);
      GoodFresh(x.w, ANY_RUN);
      CreateMappingRows(x.w, a, wire);
      BetweenAdded(x.w.db, y.w.db, x.w.serial);
    } else if m.host in hosts && m.volume in volumes {
      CreatesRow(x, hosts, volumes, m, base, wire);
    }
  }

  lemma CreatesRow(x: Phase, hosts: map<string, Id>, volumes: map<string, Id>, m: MappingSpec, base: int, wire: Wire)
    requires Good(x.w, ANY_RUN) && x.err.None? && MappingStep(x, hosts, volumes, m, base, wire).err.None?
    requires m.host in hosts && m.volume in volumes && MappingStep(x, hosts, volumes, m, base, wire).w == x.w
    ensures OneMapping(x.w.db, hosts[m.host], volumes[m.volume])
  {
    hide Good, Inv, CreateMapping;
    if MappingsBetween(x.w.db, hosts[m.host], volumes[m.volume]) == {} {
      GoodFresh(x.w, ANY_RUN);
      CreateMappingRows(x.w, Request(hosts[m.host], volumes[m.volume], m.protocol, base), wire);
    }
  }

  lemma BetweenAdded(db: Db, db': Db, id: Id)
    requires id !in db.mappings && id in db'.mappings && db'.mappings == db.mappings[id := db'.mappings[id]]
    requires MappingsBetween(db, db'.mappings[id].host, db'.mappings[id].volume) == {}
    ensures OneMapping(db', db'.mappings[id].host, db'.mappings[id].volume)
    ensures forall h, v :: OneMapping(db, h, v) ==> OneMapping(db', h, v)
  {
    var m := db'.mappings[id];
    assert forall k :: k in db.mappings ==> k !in MappingsBetween(db, m.host, m.volume);
    OnlyOne(MappingsBetween(db', m.host, m.volume), id);
    forall h, v | OneMapping(db, h, v)
      ensures OneMapping(db', h, v)
    {
      if h != m.host || v != m.volume {
        assert MappingsBetween(db', h, v) == MappingsBetween(db, h, v);
      }
    }
  }

  lemma {:induction false} MappingPhaseOne(w: World, hosts: map<string, Id>, volumes: map<string, Id>,
          xs: seq<MappingSpec>, base: int, wires: Item -> Wire)
    requires Good(w, ANY_RUN) && MappingPhase(w, hosts, volumes, xs, base, wires).err.None?
    ensures forall m :: m in xs && m.host in hosts && m.volume in volumes ==>
      OneMapping(MappingPhase(w, hosts, volumes, xs, base, wires).w.db, hosts[m.host], volumes[m.volume])
    decreases |xs|
  {
    if xs != [] {
      var k := |xs| - 1;
      var x := MappingPhase(w, hosts, volumes, xs[..k], base, wires);
      hide Good, Extends, MappingStep, OneMapping;
      MappingPhaseOne(w, hosts, volumes, xs[..k], base, wires);
      MappingPhaseLater(w, ANY_RUN, hosts, volumes, xs[..k], base, wires);
      MappingStepOne(x, hosts, volumes, xs[k], base, wires(MappingItem(k)));
      assert xs == xs[..k] + [xs[k]];
    }
  }

  lemma {:induction false} MappingsAgain(w': World, hosts: map<string, Id>, volumes: map<string, Id>,
          xs: seq<MappingSpec>, base: int, wires: Item -> Wire)
    requires forall m :: m in xs && m.host in hosts && m.volume in volumes ==>
        OneMapping(w'.db, hosts[m.host], volumes[m.volume])
    ensures Idle(w', map[], MappingPhase(w', hosts, volumes, xs, base, wires))
    decreases |xs|
  {
    if xs != [] {
      var k := |xs| - 1;
      assert xs == xs[..k] + [xs[k]];
      MappingsAgain(w', hosts, volumes, xs[..k], base, wires);
      hide CreateMapping;
    }
  }

  // ---- Main results -------------------------------------------------------------------------

  /** Applying a specification a second time, with any base and whatever calls fail, succeeds,
      creates nothing and changes neither store. */
  lemma ApplyIdempotent(w: World, spec: TopologySpec, base: int, wires: Item -> Wire, base': int, wires': Item -> Wire)
    requires Inv(w) && ApplyTopology(w, spec, base, wires).1.Ok?
    ensures var w' := ApplyTopology(w, spec, base, wires).0;
      var second := ApplyTopology(w', spec, base', wires');
      && second.0 == w' && second.1.Ok?
      && second.1.value.arrays.created == 0 && second.1.value.pools.created == 0 && second.1.value.hosts.created == 0
      && second.1.value.volumes.created == 0 && second.1.value.mappings.created == 0
  {
    var w' := ApplyTopology(w, spec, base, wires).0;
    var a, p, h, v, m := Arrays(w, spec), Pools(w, spec, wires), Hosts(w, spec, wires), VolumesOf(w, spec, wires),
        MappingsPart(w, spec, base, wires);
    assert Good(w, ANY_RUN);
    hide Inv, Good, Extends, ArrayPhase, PoolPhase, HostPhase, VolumePhase, MappingPhase, PoolObjs, OneMapping;
    ApplyLater(w, ANY_RUN, spec, base, wires);
    StagesLater(w, ANY_RUN, spec, base, wires);
    GoodDb(w', ANY_RUN);
    ExtendsTrans(v.w.db, m.w.db, w'.db);
    ExtendsTrans(h.w.db, v.w.db, w'.db);
    ExtendsTrans(p.w.db, h.w.db, w'.db);
    ExtendsTrans(a.w.db, p.w.db, w'.db);
    ArraysAgain(w, spec.arrays, w');
    PoolsAgain(a.w, a.objs, spec.pools, wires, w', wires');
    HostsAgain(p.w, spec.hosts, w');
    PoolPhaseObjs(a.w, a.objs, spec.pools, wires);
    PoolObjsLater(p.w.db, h.w.db, a.objs, p.objs);
    VolumesAgain(h.w, a.objs, p.objs, spec.volumes, wires, w', wires');
    MappingPhaseOne(v.w, h.objs, v.objs, spec.mappings, base, wires);
    MappingsAgain(w', h.objs, v.objs, spec.mappings, base', wires');
  }

  lemma GoodDb(w: World, h: Hyp)
    requires Good(w, h)
    ensures DbOk(w.db) && Extends(w.db, w.db)
  {
  }
}
