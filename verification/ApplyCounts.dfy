/** A validated topology that applies accounts for every declared item. */
module ApplyCounts {
  import opened Model
  import opened Ensure
  import opened Mappings
  import opened Topology
  import opened Apply
  import opened Invariants
  import opened GoodSteps
  import opened ApplyGood
  import opened ApplyAgain

  ghost predicate Accounts(x: Phase, n: nat, names: set<string>) {
    x.created + x.skipped == n && x.objs.Keys == names
  }

  lemma {:induction false} ArraysCounted(w: World, xs: seq<ArraySpec>)
    requires ArrayPhase(w, xs).err.None?
    ensures Accounts(ArrayPhase(w, xs), |xs|, ArrayNames(xs))
    decreases |xs|
  {
    if xs != [] {
      var k := |xs| - 1;
      hide ArrayStep, ArrayNames, Accounts;
      ArraysCounted(w, xs[..k]);
      ArrayNamesGrow(xs);
      ArrayStepCounts(ArrayPhase(w, xs[..k]), xs[k], k, ArrayNames(xs[..k]));
    }
  }

  lemma ArrayNamesGrow(xs: seq<ArraySpec>)
    requires xs != []
    ensures ArrayNames(xs) == ArrayNames(xs[..|xs| - 1]) + {xs[|xs| - 1].name}
  {
  }

  lemma ArrayStepCounts(x: Phase, a: ArraySpec, n: nat, names: set<string>)
    requires x.err.None? && ArrayStep(x, a).err.None? && Accounts(x, n, names)
    ensures Accounts(ArrayStep(x, a), n + 1, names + {a.name})
  {
    hide EndpointPhase;
  }

  lemma {:induction false} PoolsCounted(w: World, arrays: map<string, Id>, xs: seq<PoolSpec>, wires: Item -> Wire)
    requires PoolPhase(w, arrays, xs, wires).err.None? && forall p :: p in xs ==> p.arr in arrays
    ensures Accounts(PoolPhase(w, arrays, xs, wires), |xs|, PoolNames(xs))
    decreases |xs|
  {
    if xs != [] {
      var k := |xs| - 1;
      assert xs == xs[..k] + [xs[k]];
      PoolsCounted(w, arrays, xs[..k], wires);
      assert PoolNames(xs) == PoolNames(xs[..k]) + {xs[k].name};
    }
  }

  lemma {:induction false} HostsCounted(w: World, xs: seq<HostSpec>)
    requires HostPhase(w, xs).err.None?
    ensures Accounts(HostPhase(w, xs), |xs|, HostNames(xs))
    decreases |xs|
  {
    if xs != [] {
      var k := |xs| - 1;
      HostsCounted(w, xs[..k]);
      assert xs == xs[..k] + [xs[k]];
      assert HostNames(xs) == HostNames(xs[..k]) + {xs[k].name};
    }
  }

  lemma {:induction false} VolumesCounted(w: World, arrays: map<string, Id>, pools: map<string, Id>,
          xs: seq<VolumeSpec>, wires: Item -> Wire)
    requires Good(w, ANY_RUN) && PoolObjs(w.db, arrays, pools)
    requires VolumePhase(w, arrays, pools, xs, wires).err.None? && forall v :: v in xs ==> v.pool in pools
    ensures Accounts(VolumePhase(w, arrays, pools, xs, wires), |xs|, VolumeNames(xs))
    decreases |xs|
  {
    if xs != [] {
      var k := |xs| - 1;
      var x := VolumePhase(w, arrays, pools, xs[..k], wires);
      assert forall v :: v in xs[..k] ==> v in xs;
      hide Good, Extends, PoolObjs, VolumeStep, VolumeNames, Accounts;
      VolumeNamesGrow(xs);
      VolumesCounted(w, arrays, pools, xs[..k], wires);
      VolumePhaseLater(w, ANY_RUN, arrays, pools, xs[..k], wires);
      PoolObjsLater(w.db, x.w.db, arrays, pools);
      VolumeStepCounts(x, arrays, pools, xs[k], wires(VolumeItem(k)), k, VolumeNames(xs[..k]));
    }
  }

  lemma VolumeNamesGrow(xs: seq<VolumeSpec>)
    requires xs != []
    ensures VolumeNames(xs) == VolumeNames(xs[..|xs| - 1]) + {xs[|xs| - 1].name}
  {
  }

  lemma VolumeStepCounts(x: Phase, arrays: map<string, Id>, pools: map<string, Id>, v: VolumeSpec, wire: Wire, n: nat,
                         names: set<string>)
    requires PoolObjs(x.w.db, arrays, pools) && v.pool in pools && x.err.None?
        && VolumeStep(x, arrays, pools, v, wire).err.None?
    requires Accounts(x, n, names)
    ensures Accounts(VolumeStep(x, arrays, pools, v, wire), n + 1, names + {v.name})
  {
  }

  lemma {:induction false} MappingsCounted(w: World, hosts: map<string, Id>, volumes: map<string, Id>,
          xs: seq<MappingSpec>, base: int, wires: Item -> Wire)
    requires MappingPhase(w, hosts, volumes, xs, base, wires).err.None?
    requires forall m :: m in xs ==> m.host in hosts && m.volume in volumes
    ensures var x := MappingPhase(w, hosts, volumes, xs, base, wires); x.created + x.skipped == |xs|
    decreases |xs|
  {
    if xs != [] {
      var k := |xs| - 1;
      assert xs == xs[..k] + [xs[k]];
      hide MappingStep;
      MappingsCounted(w, hosts, volumes, xs[..k], base, wires);
      MappingStepCounts(MappingPhase(w, hosts, volumes, xs[..k], base, wires), hosts, volumes, xs[k], base,
                        wires(MappingItem(k)));
    }
  }

  lemma MappingStepCounts(x: Phase, hosts: map<string, Id>, volumes: map<string, Id>, m: MappingSpec, base: int,
                          wire: Wire)
    requires m.host in hosts && m.volume in volumes && MappingStep(x, hosts, volumes, m, base, wire).err.None?
    ensures var y := MappingStep(x, hosts, volumes, m, base, wire); y.created + y.skipped == x.created + x.skipped + 1
  {
    hide CreateMapping;
  }

  ghost predicate AllCounted(s: Summary, spec: TopologySpec) {
    && s.arrays.created + s.arrays.skipped == |spec.arrays|
    && s.pools.created + s.pools.skipped == |spec.pools|
    && s.hosts.created + s.hosts.skipped == |spec.hosts|
    && s.volumes.created + s.volumes.skipped == |spec.volumes|
    && s.mappings.created + s.mappings.skipped == |spec.mappings|
  }

  /** The objects the later phases look up. */
  lemma ObjectsCounted(w: World, spec: TopologySpec, base: int, wires: Item -> Wire)
    requires Inv(w) && WellFormed(spec) && ApplyTopology(w, spec, base, wires).1.Ok?
    ensures Accounts(Arrays(w, spec), |spec.arrays|, ArrayNames(spec.arrays))
    ensures Accounts(Pools(w, spec, wires), |spec.pools|, PoolNames(spec.pools))
    ensures Accounts(Hosts(w, spec, wires), |spec.hosts|, HostNames(spec.hosts))
    ensures Good(Hosts(w, spec, wires).w, ANY_RUN)
        && PoolObjs(Hosts(w, spec, wires).w.db, Arrays(w, spec).objs, Pools(w, spec, wires).objs)
  {
    var a, p, h := Arrays(w, spec), Pools(w, spec, wires), Hosts(w, spec, wires);
    assert Good(w, ANY_RUN);
    WellFormedReferences(spec);
    hide Inv, Good, Extends, ArrayPhase, PoolPhase, HostPhase, VolumePhase, MappingPhase, PoolObjs, WellFormed,
         ArrayNames, PoolNames, HostNames, VolumeNames;
    ApplyLater(w, ANY_RUN, spec, base, wires);
    StagesLater(w, ANY_RUN, spec, base, wires);
    ArraysCounted(w, spec.arrays);
    PoolsCounted(a.w, a.objs, spec.pools, wires);
    HostsCounted(p.w, spec.hosts);
    PoolPhaseObjs(a.w, a.objs, spec.pools, wires);
    PoolObjsLater(p.w.db, h.w.db, a.objs, p.objs);
  }

  lemma VolumesAccounted(w: World, spec: TopologySpec, base: int, wires: Item -> Wire)
    requires Inv(w) && WellFormed(spec) && ApplyTopology(w, spec, base, wires).1.Ok?
    ensures Accounts(VolumesOf(w, spec, wires), |spec.volumes|, VolumeNames(spec.volumes))
  {
    var a, p, h := Arrays(w, spec), Pools(w, spec, wires), Hosts(w, spec, wires);
    hide Inv, Good, Arrays, Pools, Hosts, VolumePhase, MappingPhase, PoolObjs, WellFormed, ArrayNames, PoolNames,
         HostNames, VolumeNames;
    WellFormedReferences(spec);
    ObjectsCounted(w, spec, base, wires);
    VolumesCounted(h.w, a.objs, p.objs, spec.volumes, wires);
  }

  /** On a specification `Validate` passes, a successful apply created or skipped every item. */
  lemma ApplyCountsAll(w: World, spec: TopologySpec, base: int, wires: Item -> Wire)
    requires Inv(w) && WellFormed(spec) && ApplyTopology(w, spec, base, wires).1.Ok?
    ensures AllCounted(ApplyTopology(w, spec, base, wires).1.value, spec)
  {
    var h, v := Hosts(w, spec, wires), VolumesOf(w, spec, wires);
    hide Inv, Good, Arrays, Pools, Hosts, VolumesOf, MappingPhase, PoolObjs, WellFormed, ArrayNames, PoolNames,
         HostNames, VolumeNames;
    WellFormedReferences(spec);
    ObjectsCounted(w, spec, base, wires);
    VolumesAccounted(w, spec, base, wires);
    MappingsCounted(v.w, h.objs, v.objs, spec.mappings, base, wires);
  }

  lemma WellFormedReferences(spec: TopologySpec)
    requires WellFormed(spec)
    ensures forall p :: p in spec.pools ==> p.arr in ArrayNames(spec.arrays)
    ensures forall v :: v in spec.volumes ==> v.pool in PoolNames(spec.pools)
    ensures forall m :: m in spec.mappings ==> m.host in HostNames(spec.hosts) && m.volume in VolumeNames(spec.volumes)
  {
  }
}
