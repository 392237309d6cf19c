/** Applying a topology with loops that fill the object tables and the counters. */
module ApplyService {
  import opened Model
  import opened Ensure
  import opened SpdkClient
  import opened DbSessions
  import opened Topology
  import opened Apply
  import Inv = Inventory
  import V = Volumes
  import M = Mappings
  import IS = InventoryService
  import VS = VolumeService
  import MS = MappingService

  // ---- The five loops ---------------------------------------------------------------------

  method ApplyEndpoints(session: DbSession, spdk: SpdkTarget, arr: Id, es: seq<EndpointSpec>)
    modifies session
    ensures WorldOf(session, spdk) == EndpointPhase(old(WorldOf(session, spdk)), arr, es)
    ensures session.committed == old(session.committed)
  {
    ghost var w := WorldOf(session, spdk);
    for i := 0 to |es|
      invariant WorldOf(session, spdk) == EndpointPhase(w, arr, es[..i])
      invariant session.committed == old(session.committed)
    {
      assert es[..i + 1][..i] == es[..i];
      if Inv.EndpointsOf(session.Working(), arr, es[i].protocol) == {} {
        var made := IS.CreateEndpoint(session, spdk, arr, es[i].protocol, es[i].target, es[i].listeners);
      }
    }
    assert es[..|es|] == es;
  }

  method ApplyArrays(session: DbSession, spdk: SpdkTarget, xs: seq<ArraySpec>)
    returns (objs: map<string, Id>, created: nat, skipped: nat)
    modifies session
    ensures Phase(WorldOf(session, spdk), objs, created, skipped, None) == ArrayPhase(old(WorldOf(session, spdk)), xs)
    ensures session.committed == old(session.committed)
  {
    ghost var w := WorldOf(session, spdk);
    hide EndpointPhase;
    objs, created, skipped := map[], 0, 0;
    for i := 0 to |xs|
      invariant Phase(WorldOf(session, spdk), objs, created, skipped, None) == ArrayPhase(w, xs[..i])
      invariant session.committed == old(session.committed)
    {
      assert xs[..i + 1][..i] == xs[..i];
      var found := First(Inv.ArraysNamed(session.Working(), xs[i].name));
      if found.Some? {
        objs, skipped := objs[xs[i].name := found.value], skipped + 1;
      } else {
        var made := IS.CreateArray(session, spdk, xs[i].name);
        objs, created := objs[xs[i].name := made.value], created + 1;
      }
      ApplyEndpoints(session, spdk, objs[xs[i].name], xs[i].endpoints);
    }
    assert xs[..|xs|] == xs;
  }

  method ApplyPools(session: DbSession, spdk: SpdkTarget, arrays: map<string, Id>, xs: seq<PoolSpec>,
                    wires: Item -> Wire)
    returns (objs: map<string, Id>, created: nat, skipped: nat, err: Option<Error>)
    modifies session, spdk
    ensures Phase(WorldOf(session, spdk), objs, created, skipped, err)
            == PoolPhase(old(WorldOf(session, spdk)), arrays, xs, wires)
    ensures session.committed == old(session.committed)
  {
    ghost var w := WorldOf(session, spdk);
    hide Inv.CreatePool;
    objs, created, skipped, err := map[], 0, 0, None;
    for i := 0 to |xs|
      invariant Phase(WorldOf(session, spdk), objs, created, skipped, None) == PoolPhase(w, arrays, xs[..i], wires)
      invariant err == None && session.committed == old(session.committed)
    {
      assert xs[..i + 1][..i] == xs[..i];
      if xs[i].arr in arrays {
        var found := First(Inv.PoolsNamed(session.Working(), arrays[xs[i].arr], xs[i].name));
        if found.Some? {
          objs, skipped := objs[xs[i].name := found.value], skipped + 1;
        } else {
          var made := IS.CreatePool(session, spdk, xs[i].name, arrays[xs[i].arr],
                                    if xs[i].malloc then Malloc else AioFile,
                                    if xs[i].malloc then Some(xs[i].sizeMb) else None, xs[i].aioPath,
                                    wires(PoolItem(i)));
          if made.Err? {
            err := Some(made.error);
            PoolPhaseStops(w, arrays, xs, wires, i + 1);
            return;
          }
          objs, created := objs[xs[i].name := made.value], created + 1;
        }
      }
    }
    assert xs[..|xs|] == xs;
  }

  method ApplyHosts(session: DbSession, spdk: SpdkTarget, xs: seq<HostSpec>)
    returns (objs: map<string, Id>, created: nat, skipped: nat)
    modifies session
    ensures Phase(WorldOf(session, spdk), objs, created, skipped, None) == HostPhase(old(WorldOf(session, spdk)), xs)
    ensures session.committed == old(session.committed)
  {
    ghost var w := WorldOf(session, spdk);
    objs, created, skipped := map[], 0, 0;
    for i := 0 to |xs|
      invariant Phase(WorldOf(session, spdk), objs, created, skipped, None) == HostPhase(w, xs[..i])
      invariant session.committed == old(session.committed)
    {
      assert xs[..i + 1][..i] == xs[..i];
      var found := First(Inv.HostsNamed(session.Working(), xs[i].name));
      if found.Some? {
        objs, skipped := objs[xs[i].name := found.value], skipped + 1;
      } else {
        var made := IS.CreateHost(session, spdk, xs[i].name, xs[i].iqns, xs[i].nqns, xs[i].wwpns);
        objs, created := objs[xs[i].name := made.value], created + 1;
      }
    }
    assert xs[..|xs|] == xs;
  }

  method ApplyVolumes(session: DbSession, spdk: SpdkTarget, arrays: map<string, Id>, pools: map<string, Id>,
                      xs: seq<VolumeSpec>, wires: Item -> Wire)
    returns (objs: map<string, Id>, created: nat, skipped: nat, err: Option<Error>)
    modifies session, spdk
    ensures Phase(WorldOf(session, spdk), objs, created, skipped, err)
            == VolumePhase(old(WorldOf(session, spdk)), arrays, pools, xs, wires)
    ensures session.committed == old(session.committed)
  {
    ghost var w := WorldOf(session, spdk);
    hide V.CreateVolume;
    objs, created, skipped, err := map[], 0, 0, None;
    for i := 0 to |xs|
      invariant Phase(WorldOf(session, spdk), objs, created, skipped, None)
                == VolumePhase(w, arrays, pools, xs[..i], wires)
      invariant err == None && session.committed == old(session.committed)
    {
      assert xs[..i + 1][..i] == xs[..i];
      if xs[i].pool in pools && pools[xs[i].pool] in session.pools
          && session.pools[pools[xs[i].pool]].arr in arrays.Values {
        var found := First(V.VolumesNamed(session.Working(), session.pools[pools[xs[i].pool]].arr, xs[i].name));
        if found.Some? {
          objs, skipped := objs[xs[i].name := found.value], skipped + 1;
        } else {
          var made := VS.CreateVolume(session, spdk, xs[i].name, pools[xs[i].pool], xs[i].sizeMb, wires(VolumeItem(i)));
          if made.Err? {
            err := Some(made.error);
            VolumePhaseStops(w, arrays, pools, xs, wires, i + 1);
            return;
          }
          objs, created := objs[xs[i].name := made.value], created + 1;
        }
      }
    }
    assert xs[..|xs|] == xs;
  }

  method ApplyMappings(session: DbSession, spdk: SpdkTarget, hosts: map<string, Id>, volumes: map<string, Id>,
                       xs: seq<MappingSpec>, base: int, wires: Item -> Wire)
    returns (created: nat, skipped: nat, err: Option<Error>)
    modifies session, spdk
    ensures Phase(WorldOf(session, spdk), map[], created, skipped, err)
            == MappingPhase(old(WorldOf(session, spdk)), hosts, volumes, xs, base, wires)
    ensures session.committed == old(session.committed)
  {
    ghost var w := WorldOf(session, spdk);
    hide M.CreateMapping;
    created, skipped, err := 0, 0, None;
    for i := 0 to |xs|
      invariant Phase(WorldOf(session, spdk), map[], created, skipped, None)
                == MappingPhase(w, hosts, volumes, xs[..i], base, wires)
      invariant err == None && session.committed == old(session.committed)
    {
      assert xs[..i + 1][..i] == xs[..i];
      if xs[i].host in hosts && xs[i].volume in volumes {
        var found := MappingsBetween(session.Working(), hosts[xs[i].host], volumes[xs[i].volume]);
        if |found| > 1 {
          err := Some(Crash);
          MappingPhaseStops(w, hosts, volumes, xs, base, wires, i + 1);
          return;
        } else if found != {} {
          skipped := skipped + 1;
        } else {
          var made := MS.CreateMapping(session, spdk,
                                       Request(hosts[xs[i].host], volumes[xs[i].volume], xs[i].protocol, base),
                                       wires(MappingItem(i)));
          if made.Err? {
            err := Some(made.error);
            MappingPhaseStops(w, hosts, volumes, xs, base, wires, i + 1);
            return;
          }
          created := created + 1;
        }
      }
    }
    assert xs[..|xs|] == xs;
  }

  /** Commits at the end; after an error the caller discards the working copy. */
  method ApplyTopology(session: DbSession, spdk: SpdkTarget, spec: TopologySpec, base: int, wires: Item -> Wire)
    returns (r: Result<Summary>)
    modifies session, spdk
    ensures (WorldOf(session, spdk), r) == Apply.ApplyTopology(old(WorldOf(session, spdk)), spec, base, wires)
    ensures session.committed == if r.Ok? then session.Working() else old(session.committed)
  {
    hide ArrayPhase, PoolPhase, HostPhase, VolumePhase, MappingPhase;
    var arrays, ac, ak := ApplyArrays(session, spdk, spec.arrays);
    var pools, pc, pk, poolError := ApplyPools(session, spdk, arrays, spec.pools, wires);
    if poolError.Some? { return Err(poolError.value); }
    var hosts, hc, hk := ApplyHosts(session, spdk, spec.hosts);
    var volumes, vc, vk, volumeError := ApplyVolumes(session, spdk, arrays, pools, spec.volumes, wires);
    if volumeError.Some? { return Err(volumeError.value); }
    var mc, mk, mappingError := ApplyMappings(session, spdk, hosts, volumes, spec.mappings, base, wires);
    if mappingError.Some? { return Err(mappingError.value); }
    session.Commit();
    r := Ok(Summary(Count(ac, ak), Count(pc, pk), Count(hc, hk), Count(vc, vk), Count(mc, mk)));
  }
}
