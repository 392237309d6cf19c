/** What an apply leaves behind, whether it succeeds or fails. */
module ApplyResidue {
  import opened Model
  import opened Ensure
  import opened Inventory
  import opened Volumes
  import opened Mappings
  import opened Topology
  import opened Apply
  import opened Invariants
  import opened DbSteps
  import opened SteadySteps
  import opened ApplyGood

  /** Every lvol a volume row names has the row's size. */
  ghost predicate SizeSound(volumes: map<Id, Volume>, lvols: map<Bdev, int>) {
    forall v :: v in volumes && volumes[v].bdev.Some? && volumes[v].bdev.value in lvols ==>
      lvols[volumes[v].bdev.value] == volumes[v].sizeMb
  }

  ghost predicate Sizes(w: World) {
    && SpdkIssued(w.spdk, w.serial) && (forall v :: v in w.db.volumes ==> v < w.serial)
    && OwnBdevs(w.db.volumes) && SizeSound(w.db.volumes, w.spdk.lvols)
  }

  /** Ids of new SPDK objects have been issued, lvols stay, no volume id is used again, and sizes
      keep agreeing. */
  ghost predicate Residue(w: World, w': World) {
    && w.serial <= w'.serial
    && (SpdkIssued(w.spdk, w.serial) ==> SpdkIssued(w'.spdk, w'.serial))
    && (forall b :: b in w.spdk.lvols ==> b in w'.spdk.lvols && w'.spdk.lvols[b] == w.spdk.lvols[b])
    && (forall b :: b in w'.spdk.lvols ==> b in w.spdk.lvols || w.serial <= b.volume)
    && (forall n :: n in w'.spdk.lvstores && w'.spdk.lvstores[n] < w.serial ==>
          n in w.spdk.lvstores && w.spdk.lvstores[n] == w'.spdk.lvstores[n])
    && (forall v :: v in w'.db.volumes ==> v in w.db.volumes || w.serial <= v)
    && (Sizes(w) ==> Sizes(w'))
  }

  ghost predicate EndpointsIssued(w: World) { forall e :: e in w.db.endpoints ==> e < w.serial }

  /** No mapping row and no table changes; endpoints are only added. */
  ghost predicate Unmapping(w: World, w': World) {
    && Residue(w, w') && w'.db.mappings == w.db.mappings
    && w'.spdk.targets == w.spdk.targets && w'.spdk.subsystems == w.spdk.subsystems
    && (EndpointsIssued(w) ==> EndpointsIssued(w') && Sub(w.db.endpoints, w'.db.endpoints))
  }

  lemma UnmappingTrans(a: World, b: World, c: World)
    requires Unmapping(a, b) && Unmapping(b, c)
    ensures Unmapping(a, c)
  {
  }

  lemma {:induction false} EndpointPhaseUnmapping(w: World, arr: Id, es: seq<EndpointSpec>)
    ensures Unmapping(w, EndpointPhase(w, arr, es))
    decreases |es|
  {
    if es != [] {
      EndpointPhaseUnmapping(w, arr, es[..|es| - 1]);
    }
  }

  lemma {:induction false} ArrayPhaseUnmapping(w: World, xs: seq<ArraySpec>)
    ensures Unmapping(w, ArrayPhase(w, xs).w) && ArrayPhase(w, xs).err.None?
    decreases |xs|
  {
    if xs != [] {
      var k := |xs| - 1;
      var x := ArrayPhase(w, xs[..k]);
      hide Residue, EndpointPhase;
      ArrayPhaseUnmapping(w, xs[..k]);
      ArrayStepUnmapping(x, xs[k]);
      UnmappingTrans(w, x.w, ArrayPhase(w, xs).w);
    }
  }

  lemma ArrayStepUnmapping(x: Phase, a: ArraySpec)
    requires x.err.None?
    ensures Unmapping(x.w, ArrayStep(x, a).w) && ArrayStep(x, a).err.None?
  {
    var found := First(ArraysNamed(x.w.db, a.name));
    var y := if found.Some? then Skip(x, a.name, found.value) else Made(x, a.name, CreateArray(x.w, a.name));
    assert Unmapping(x.w, y.w);
    hide EndpointPhase, Residue;
    EndpointPhaseUnmapping(y.w, y.objs[a.name], a.endpoints);
    UnmappingTrans(x.w, y.w, ArrayStep(x, a).w);
  }

  lemma PoolStepUnmapping(x: Phase, arrays: map<string, Id>, p: PoolSpec, wire: Wire)
    ensures Unmapping(x.w, PoolStep(x, arrays, p, wire).w)
  {
    if p.arr in arrays && arrays[p.arr] in x.w.db.arrays {
      var row := Pool(p.name, arrays[p.arr], if p.malloc then Malloc else AioFile,
                      if p.malloc then Some(p.sizeMb) else None, p.aioPath);
      PoolEffect(x.w.spdk, x.w.serial, row, x.w.db.arrays[arrays[p.arr]].name, wire);
    }
    hide PoolEnsured, LvsName;
  }

  lemma {:induction false} PoolPhaseUnmapping(w: World, arrays: map<string, Id>, xs: seq<PoolSpec>, wires: Item -> Wire)
    ensures Unmapping(w, PoolPhase(w, arrays, xs, wires).w)
    decreases |xs|
  {
    if xs != [] {
      var k := |xs| - 1;
      var x := PoolPhase(w, arrays, xs[..k], wires);
      PoolPhaseUnmapping(w, arrays, xs[..k], wires);
      hide Residue, PoolStep;
      PoolStepUnmapping(x, arrays, xs[k], wires(PoolItem(k)));
      UnmappingTrans(w, x.w, PoolStep(x, arrays, xs[k], wires(PoolItem(k))).w);
    }
  }

  lemma {:induction false} HostPhaseUnmapping(w: World, xs: seq<HostSpec>)
    ensures Unmapping(w, HostPhase(w, xs).w)
    decreases |xs|
  {
    if xs != [] {
      HostPhaseUnmapping(w, xs[..|xs| - 1]);
    }
  }

  lemma AddedVolume(w: World, name: string, pool: Id, sizeMb: int, wire: Wire)
    requires CreateVolume(w, name, pool, sizeMb, wire).w != w
    ensures var r := CreateVolume(w, name, pool, sizeMb, wire).w;
      && w.serial in r.db.volumes && r.serial == w.serial + 1
      && r.db == w.db.(volumes := w.db.volumes[w.serial := r.db.volumes[w.serial]])
      && r.spdk == w.spdk.(lvols := r.spdk.lvols)
      && (forall b :: b in w.spdk.lvols ==> b in r.spdk.lvols && r.spdk.lvols[b] == w.spdk.lvols[b])
      && (forall b :: b in r.spdk.lvols && b !in w.spdk.lvols ==>
            b.volume == w.serial && r.spdk.lvols[b] == r.db.volumes[w.serial].sizeMb)
      && (r.db.volumes[w.serial].bdev.Some? ==> r.db.volumes[w.serial].bdev.value.volume == w.serial)
  {
    hide LvsName;
  }

  lemma CreateVolumeSizes(w: World, name: string, pool: Id, sizeMb: int, wire: Wire)
    requires Sizes(w)
    ensures Sizes(CreateVolume(w, name, pool, sizeMb, wire).w)
  {
    hide CreateVolume;
    if CreateVolume(w, name, pool, sizeMb, wire).w != w {
      AddedVolume(w, name, pool, sizeMb, wire);
    }
  }

  lemma CreateVolumeUnmapping(w: World, name: string, pool: Id, sizeMb: int, wire: Wire)
    ensures Unmapping(w, CreateVolume(w, name, pool, sizeMb, wire).w)
  {
    hide CreateVolume, Sizes;
    if Sizes(w) {
      CreateVolumeSizes(w, name, pool, sizeMb, wire);
    }
    if CreateVolume(w, name, pool, sizeMb, wire).w != w {
      AddedVolume(w, name, pool, sizeMb, wire);
    }
  }

  lemma VolumeStepUnmapping(x: Phase, arrays: map<string, Id>, pools: map<string, Id>, v: VolumeSpec, wire: Wire)
    ensures Unmapping(x.w, VolumeStep(x, arrays, pools, v, wire).w)
  {
    if VolumeStep(x, arrays, pools, v, wire).w != x.w {
      hide CreateVolume, Residue;
      CreateVolumeUnmapping(x.w, v.name, pools[v.pool], v.sizeMb, wire);
    }
  }

  lemma {:induction false} VolumePhaseUnmapping(w: World, arrays: map<string, Id>, pools: map<string, Id>,
          xs: seq<VolumeSpec>, wires: Item -> Wire)
    ensures Unmapping(w, VolumePhase(w, arrays, pools, xs, wires).w)
    decreases |xs|
  {
    if xs != [] {
      var k := |xs| - 1;
      var x := VolumePhase(w, arrays, pools, xs[..k], wires);
      VolumePhaseUnmapping(w, arrays, pools, xs[..k], wires);
      hide Residue, VolumeStep;
      VolumeStepUnmapping(x, arrays, pools, xs[k], wires(VolumeItem(k)));
      UnmappingTrans(w, x.w, VolumeStep(x, arrays, pools, xs[k], wires(VolumeItem(k))).w);
    }
  }

  lemma CreateMappingResidue(w: World, a: MapArgs, wire: Wire)
    ensures Residue(w, CreateMapping(w, a, wire).w)
  {
    hide WireUnderlay, ResolveEndpoints, NewUnder;
    var res := CreateMapping(w, a, wire);
    if res.w != w {
      var m := res.w.db.mappings[w.serial];
      WiredStorage(w.db.(mappings := w.db.mappings[w.serial := m]), w.spdk, m.under, w.db.volumes[a.volume],
                   w.db.endpoints[m.underlay], wire);
    }
  }

  lemma {:induction false} MappingPhaseResidue(w: World, hosts: map<string, Id>, volumes: map<string, Id>,
          xs: seq<MappingSpec>, base: int, wires: Item -> Wire)
    ensures Residue(w, MappingPhase(w, hosts, volumes, xs, base, wires).w)
    decreases |xs|
  {
    if xs != [] {
      var k := |xs| - 1;
      var x := MappingPhase(w, hosts, volumes, xs[..k], base, wires);
      MappingPhaseResidue(w, hosts, volumes, xs[..k], base, wires);
      hide CreateMapping, SpdkIssued;
      if xs[k].host in hosts && xs[k].volume in volumes {
        CreateMappingResidue(x.w, Request(hosts[xs[k].host], volumes[xs[k].volume], xs[k].protocol, base),
                             wires(MappingItem(k)));
      }
    }
  }

  /** Up to the mapping section no mapping row changes. */
  lemma BeforeMappings(w: World, spec: TopologySpec, wires: Item -> Wire)
    ensures Unmapping(w, VolumesOf(w, spec, wires).w)
  {
    hide Residue, ArrayPhase, PoolPhase, HostPhase, VolumePhase;
    var a, p, h := Arrays(w, spec), Pools(w, spec, wires), Hosts(w, spec, wires);
    ArrayPhaseUnmapping(w, spec.arrays);
    PoolPhaseUnmapping(a.w, a.objs, spec.pools, wires);
    UnmappingTrans(w, a.w, p.w);
    HostPhaseUnmapping(p.w, spec.hosts);
    VolumePhaseUnmapping(h.w, a.objs, p.objs, spec.volumes, wires);
    if p.err.None? {
      UnmappingTrans(w, p.w, h.w);
      if h.err.None? {
        UnmappingTrans(w, h.w, VolumesOf(w, spec, wires).w);
      }
    }
  }

  lemma ApplyResidues(w: World, spec: TopologySpec, base: int, wires: Item -> Wire)
    ensures Residue(w, ApplyTopology(w, spec, base, wires).0)
  {
    hide Arrays, Pools, Hosts, VolumesOf, MappingPhase, SpdkIssued;
    BeforeMappings(w, spec, wires);
    MappingPhaseResidue(VolumesOf(w, spec, wires).w, Hosts(w, spec, wires).objs, VolumesOf(w, spec, wires).objs,
                        spec.mappings, base, wires);
  }
}
