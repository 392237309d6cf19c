/** Applying a topology: five phases that create what is missing and skip what is there. */
module Apply {
  import opened Model
  import opened Ensure
  import opened Inventory
  import opened Volumes
  import opened Mappings
  import opened Topology

  /** One phase: the working state, the rows found or made by name, the counters, and the error
      that ended it. */
  datatype Phase = Phase(w: World, objs: map<string, Id>, created: nat, skipped: nat, err: Option<Error>)

  function Start(w: World): Phase { Phase(w, map[], 0, 0, None) }

  function Skip(x: Phase, name: string, id: Id): Phase {
    x.(objs := x.objs[name := id], skipped := x.skipped + 1)
  }

  function Made(x: Phase, name: string, res: Res<Id>): Phase {
    match res.r
    case Ok(id) => Phase(res.w, x.objs[name := id], x.created + 1, x.skipped, None)
    case Err(e) => x.(w := res.w, err := Some(e))
  }

  /** The SPDK replies during the creation of the `index`-th item of a section. */
  datatype Item = PoolItem(index: nat) | VolumeItem(index: nat) | MappingItem(index: nat)

  // ---- Arrays and their endpoints ------------------------------------------------------

  function EndpointStep(w: World, arr: Id, e: EndpointSpec): World {
    if EndpointsOf(w.db, arr, e.protocol) != {} then w
    else CreateEndpoint(w, arr, e.protocol, e.target, e.listeners).w
  }

  function EndpointPhase(w: World, arr: Id, es: seq<EndpointSpec>): World {
    if es == [] then w
    else EndpointStep(EndpointPhase(w, arr, es[..|es| - 1]), arr, es[|es| - 1])
  }

  function ArrayStep(x: Phase, a: ArraySpec): Phase {
    var found := First(ArraysNamed(x.w.db, a.name));
    var y := if found.Some? then Skip(x, a.name, found.value) else Made(x, a.name, CreateArray(x.w, a.name));
    if y.err.Some? || a.name !in y.objs then y
    else y.(w := EndpointPhase(y.w, y.objs[a.name], a.endpoints))
  }

  function ArrayPhase(w: World, xs: seq<ArraySpec>): Phase {
    if xs == [] then Start(w)
    else
      var x := ArrayPhase(w, xs[..|xs| - 1]);
      if x.err.Some? then x else ArrayStep(x, xs[|xs| - 1])
  }

  // ---- Pools ------------------------------------------------------------------------------

  function PoolStep(x: Phase, arrays: map<string, Id>, p: PoolSpec, wire: Wire): Phase {
    if p.arr !in arrays then x
    else
      var found := First(PoolsNamed(x.w.db, arrays[p.arr], p.name));
      if found.Some? then Skip(x, p.name, found.value)
      else Made(x, p.name, CreatePool(x.w, p.name, arrays[p.arr], if p.malloc then Malloc else AioFile,
                                      if p.malloc then Some(p.sizeMb) else None, p.aioPath, wire))
  }

  function PoolPhase(w: World, arrays: map<string, Id>, xs: seq<PoolSpec>, wires: Item -> Wire): Phase {
    if xs == [] then Start(w)
    else
      var k := |xs| - 1;
      var x := PoolPhase(w, arrays, xs[..k], wires);
      if x.err.Some? then x else PoolStep(x, arrays, xs[k], wires(PoolItem(k)))
  }

  // ---- Hosts ------------------------------------------------------------------------------

  function HostStep(x: Phase, h: HostSpec): Phase {
    var found := First(HostsNamed(x.w.db, h.name));
    if found.Some? then Skip(x, h.name, found.value)
    else Made(x, h.name, CreateHost(x.w, h.name, h.iqns, h.nqns, h.wwpns))
  }

  function HostPhase(w: World, xs: seq<HostSpec>): Phase {
    if xs == [] then Start(w)
    else
      var x := HostPhase(w, xs[..|xs| - 1]);
      if x.err.Some? then x else HostStep(x, xs[|xs| - 1])
  }

  // ---- Volumes ----------------------------------------------------------------------------

  /** A volume names its pool only; the pool is the last one of that name, the array is the pool's. */
  function VolumeStep(x: Phase, arrays: map<string, Id>, pools: map<string, Id>, v: VolumeSpec, wire: Wire): Phase {
    if v.pool !in pools || pools[v.pool] !in x.w.db.pools || x.w.db.pools[pools[v.pool]].arr !in arrays.Values then x
    else
      var found := First(VolumesNamed(x.w.db, x.w.db.pools[pools[v.pool]].arr, v.name));
      if found.Some? then Skip(x, v.name, found.value)
      else Made(x, v.name, CreateVolume(x.w, v.name, pools[v.pool], v.sizeMb, wire))
  }

  function VolumePhase(w: World, arrays: map<string, Id>, pools: map<string, Id>, xs: seq<VolumeSpec>,
                       wires: Item -> Wire): Phase {
    if xs == [] then Start(w)
    else
      var k := |xs| - 1;
      var x := VolumePhase(w, arrays, pools, xs[..k], wires);
      if x.err.Some? then x else VolumeStep(x, arrays, pools, xs[k], wires(VolumeItem(k)))
  }

  // ---- Mappings ---------------------------------------------------------------------------

  function MappingsBetween(db: Db, host: Id, volume: Id): set<Id> {
    set m | m in db.mappings && db.mappings[m].host == host && db.mappings[m].volume == volume
  }

  function Request(host: Id, volume: Id, protocol: Protocol, base: int): MapArgs {
    MapArgs(host, volume, None, None, Some(protocol), None, base)
  }

  /** More than one row for the pair makes the look-up raise. */
  function MappingStep(x: Phase, hosts: map<string, Id>, volumes: map<string, Id>, m: MappingSpec, base: int,
                       wire: Wire): Phase {
    if m.host !in hosts || m.volume !in volumes then x
    else
      var found := MappingsBetween(x.w.db, hosts[m.host], volumes[m.volume]);
      if |found| > 1 then x.(err := Some(Crash))
      else if found != {} then x.(skipped := x.skipped + 1)
      else
        var res := CreateMapping(x.w, Request(hosts[m.host], volumes[m.volume], m.protocol, base), wire);
        Made(x, "", res).(objs := x.objs)
  }

  function MappingPhase(w: World, hosts: map<string, Id>, volumes: map<string, Id>, xs: seq<MappingSpec>, base: int,
                        wires: Item -> Wire): Phase {
    if xs == [] then Start(w)
    else
      var k := |xs| - 1;
      var x := MappingPhase(w, hosts, volumes, xs[..k], base, wires);
      if x.err.Some? then x else MappingStep(x, hosts, volumes, xs[k], base, wires(MappingItem(k)))
  }

  // ---- All phases -------------------------------------------------------------------------

  datatype Count = Count(created: nat, skipped: nat)

  datatype Summary = Summary(arrays: Count, pools: Count, hosts: Count, volumes: Count, mappings: Count)

  function Arrays(w: World, spec: TopologySpec): Phase { ArrayPhase(w, spec.arrays) }

  function Pools(w: World, spec: TopologySpec, wires: Item -> Wire): Phase {
    var a := Arrays(w, spec);
    if a.err.Some? then a else PoolPhase(a.w, a.objs, spec.pools, wires)
  }

  function Hosts(w: World, spec: TopologySpec, wires: Item -> Wire): Phase {
    var p := Pools(w, spec, wires);
    if p.err.Some? then p else HostPhase(p.w, spec.hosts)
  }

  function VolumesOf(w: World, spec: TopologySpec, wires: Item -> Wire): Phase {
    var h := Hosts(w, spec, wires);
    if h.err.Some? then h
    else VolumePhase(h.w, Arrays(w, spec).objs, Pools(w, spec, wires).objs, spec.volumes, wires)
  }

  function MappingsPart(w: World, spec: TopologySpec, base: int, wires: Item -> Wire): Phase {
    var v := VolumesOf(w, spec, wires);
    if v.err.Some? then v
    else MappingPhase(v.w, Hosts(w, spec, wires).objs, v.objs, spec.mappings, base, wires)
  }

  /** The working state at the end, and the summary or the first error. */
  function ApplyTopology(w: World, spec: TopologySpec, base: int, wires: Item -> Wire): (World, Result<Summary>) {
    var m := MappingsPart(w, spec, base, wires);
    match m.err
    case Some(e) => (m.w, Err(e))
    case None =>
      var a, p, h, v := Arrays(w, spec), Pools(w, spec, wires), Hosts(w, spec, wires), VolumesOf(w, spec, wires);
      (m.w, Ok(Summary(Count(a.created, a.skipped), Count(p.created, p.skipped), Count(h.created, h.skipped),
                       Count(v.created, v.skipped), Count(m.created, m.skipped))))
  }

  // ---- An error ends its phase ----------------------------------------------------------

  lemma {:induction false} PoolPhaseStops(w: World, arrays: map<string, Id>, xs: seq<PoolSpec>, wires: Item -> Wire,
          k: nat)
    requires k <= |xs| && PoolPhase(w, arrays, xs[..k], wires).err.Some?
    ensures PoolPhase(w, arrays, xs, wires) == PoolPhase(w, arrays, xs[..k], wires)
    decreases |xs|
  {
    if k < |xs| {
      assert xs[..|xs| - 1][..k] == xs[..k];
      PoolPhaseStops(w, arrays, xs[..|xs| - 1], wires, k);
    } else {
      assert xs[..k] == xs;
    }
  }

  lemma {:induction false} VolumePhaseStops(w: World, arrays: map<string, Id>, pools: map<string, Id>,
          xs: seq<VolumeSpec>, wires: Item -> Wire, k: nat)
    requires k <= |xs| && VolumePhase(w, arrays, pools, xs[..k], wires).err.Some?
    ensures VolumePhase(w, arrays, pools, xs, wires) == VolumePhase(w, arrays, pools, xs[..k], wires)
    decreases |xs|
  {
    if k < |xs| {
      assert xs[..|xs| - 1][..k] == xs[..k];
      VolumePhaseStops(w, arrays, pools, xs[..|xs| - 1], wires, k);
    } else {
      assert xs[..k] == xs;
    }
  }

  lemma {:induction false} MappingPhaseStops(w: World, hosts: map<string, Id>, volumes: map<string, Id>,
          xs: seq<MappingSpec>, base: int, wires: Item -> Wire, k: nat)
    requires k <= |xs| && MappingPhase(w, hosts, volumes, xs[..k], base, wires).err.Some?
    ensures MappingPhase(w, hosts, volumes, xs, base, wires) == MappingPhase(w, hosts, volumes, xs[..k], base, wires)
    decreases |xs|
  {
    if k < |xs| {
      assert xs[..|xs| - 1][..k] == xs[..k];
      MappingPhaseStops(w, hosts, volumes, xs[..|xs| - 1], base, wires, k);
    } else {
      assert xs[..k] == xs;
    }
  }
}
