/** Topology specifications and their validation. */
module Topology {
  import opened Model

  datatype EndpointSpec = EndpointSpec(protocol: Protocol, target: string, listeners: seq<string>)

  datatype ArraySpec = ArraySpec(name: string, endpoints: seq<EndpointSpec>)

  /** Sizes are in MiB. */
  datatype PoolSpec = PoolSpec(name: string, arr: string, malloc: bool, sizeMb: int, aioPath: string)

  datatype HostSpec = HostSpec(name: string, iqns: seq<string>, nqns: seq<string>, wwpns: seq<string>)

  datatype VolumeSpec = VolumeSpec(name: string, sizeMb: int, pool: string)

  datatype MappingSpec = MappingSpec(host: string, volume: string, protocol: Protocol)

  datatype TopologySpec = TopologySpec(arrays: seq<ArraySpec>, pools: seq<PoolSpec>, hosts: seq<HostSpec>,
                                       volumes: seq<VolumeSpec>, mappings: seq<MappingSpec>)

  datatype TopologyError =
    | DuplicateArray(arr: string) | UnknownArray(pool: string, arr: string) | DuplicatePool(arr: string, pool: string)
    | DuplicateHost(host: string) | DuplicateVolume(volume: string) | UnknownPool(volume: string, pool: string)
    | UnknownHost(host: string) | UnknownVolume(volume: string)

  // ---- What is wrong with a specification, stated on the specification --------------------

  function ArrayNames(xs: seq<ArraySpec>): set<string> { set i | 0 <= i < |xs| :: xs[i].name }
  function PoolNames(xs: seq<PoolSpec>): set<string> { set i | 0 <= i < |xs| :: xs[i].name }
  function PoolKeys(xs: seq<PoolSpec>): set<(string, string)> { set i | 0 <= i < |xs| :: (xs[i].arr, xs[i].name) }
  function HostNames(xs: seq<HostSpec>): set<string> { set i | 0 <= i < |xs| :: xs[i].name }
  function VolumeNames(xs: seq<VolumeSpec>): set<string> { set i | 0 <= i < |xs| :: xs[i].name }

  /** `e` is the fault found at item `j`. */
  ghost predicate ArrayFault(xs: seq<ArraySpec>, j: nat, e: TopologyError)
    requires j < |xs|
  {
    e == DuplicateArray(xs[j].name) && xs[j].name in ArrayNames(xs[..j])
  }

  ghost predicate PoolFault(xs: seq<PoolSpec>, arrays: set<string>, j: nat, e: TopologyError)
    requires j < |xs|
  {
    || (e == UnknownArray(xs[j].name, xs[j].arr) && xs[j].arr !in arrays)
    || (e == DuplicatePool(xs[j].arr, xs[j].name) && (xs[j].arr, xs[j].name) in PoolKeys(xs[..j]))
  }

  ghost predicate HostFault(xs: seq<HostSpec>, j: nat, e: TopologyError)
    requires j < |xs|
  {
    e == DuplicateHost(xs[j].name) && xs[j].name in HostNames(xs[..j])
  }

  ghost predicate VolumeFault(xs: seq<VolumeSpec>, pools: set<string>, j: nat, e: TopologyError)
    requires j < |xs|
  {
    || (e == DuplicateVolume(xs[j].name) && xs[j].name in VolumeNames(xs[..j]))
    || (e == UnknownPool(xs[j].name, xs[j].pool) && xs[j].pool !in pools)
  }

  ghost predicate MappingFault(xs: seq<MappingSpec>, hosts: set<string>, volumes: set<string>, j: nat, e: TopologyError)
    requires j < |xs|
  {
    || (e == UnknownHost(xs[j].host) && xs[j].host !in hosts)
    || (e == UnknownVolume(xs[j].volume) && xs[j].volume !in volumes)
  }

  /** `e` names a real fault of the specification. */
  ghost predicate Fault(spec: TopologySpec, e: TopologyError) {
    || (exists j: nat :: j < |spec.arrays| && ArrayFault(spec.arrays, j, e))
    || (exists j: nat :: j < |spec.pools| && PoolFault(spec.pools, ArrayNames(spec.arrays), j, e))
    || (exists j: nat :: j < |spec.hosts| && HostFault(spec.hosts, j, e))
    || (exists j: nat :: j < |spec.volumes| && VolumeFault(spec.volumes, PoolNames(spec.pools), j, e))
    || (exists j: nat :: j < |spec.mappings|
          && MappingFault(spec.mappings, HostNames(spec.hosts), VolumeNames(spec.volumes), j, e))
  }

  /** Names are unique, pool names per array, and every reference resolves. */
  ghost predicate WellFormed(spec: TopologySpec) {
    && (forall i, j :: 0 <= i < j < |spec.arrays| ==> spec.arrays[i].name != spec.arrays[j].name)
    && (forall i, j :: 0 <= i < j < |spec.pools| ==>
          spec.pools[i].arr != spec.pools[j].arr || spec.pools[i].name != spec.pools[j].name)
    && (forall i, j :: 0 <= i < j < |spec.hosts| ==> spec.hosts[i].name != spec.hosts[j].name)
    && (forall i, j :: 0 <= i < j < |spec.volumes| ==> spec.volumes[i].name != spec.volumes[j].name)
    && (forall j :: 0 <= j < |spec.pools| ==> spec.pools[j].arr in ArrayNames(spec.arrays))
    && (forall j :: 0 <= j < |spec.volumes| ==> spec.volumes[j].pool in PoolNames(spec.pools))
    && (forall j :: 0 <= j < |spec.mappings| ==>
          spec.mappings[j].host in HostNames(spec.hosts) && spec.mappings[j].volume in VolumeNames(spec.volumes))
  }

  lemma WellFormedFaultless(spec: TopologySpec, e: TopologyError)
    requires WellFormed(spec)
    ensures !Fault(spec, e)
  {
    forall j: nat | j < |spec.arrays|
      ensures !ArrayFault(spec.arrays, j, e)
    {
    }
    forall j: nat | j < |spec.pools|
      ensures !PoolFault(spec.pools, ArrayNames(spec.arrays), j, e)
    {
    }
    forall j: nat | j < |spec.hosts|
      ensures !HostFault(spec.hosts, j, e)
    {
    }
    forall j: nat | j < |spec.volumes|
      ensures !VolumeFault(spec.volumes, PoolNames(spec.pools), j, e)
    {
    }
  }

  lemma FaultlessNames(spec: TopologySpec)
    requires forall e :: !Fault(spec, e)
    ensures forall i, j :: 0 <= i < j < |spec.arrays| ==> spec.arrays[i].name != spec.arrays[j].name
    ensures forall i, j :: 0 <= i < j < |spec.pools| ==>
        spec.pools[i].arr != spec.pools[j].arr || spec.pools[i].name != spec.pools[j].name
    ensures forall i, j :: 0 <= i < j < |spec.hosts| ==> spec.hosts[i].name != spec.hosts[j].name
    ensures forall i, j :: 0 <= i < j < |spec.volumes| ==> spec.volumes[i].name != spec.volumes[j].name
  {
    forall i, j | 0 <= i < j < |spec.arrays|
      ensures spec.arrays[i].name != spec.arrays[j].name
    {
      assert !Fault(spec, DuplicateArray(spec.arrays[j].name));
      assert !ArrayFault(spec.arrays, j, DuplicateArray(spec.arrays[j].name));
      assert spec.arrays[..j][i].name in ArrayNames(spec.arrays[..j]);
    }
    forall i, j | 0 <= i < j < |spec.pools|
      ensures spec.pools[i].arr != spec.pools[j].arr || spec.pools[i].name != spec.pools[j].name
    {
      assert !Fault(spec, DuplicatePool(spec.pools[j].arr, spec.pools[j].name));
      assert !PoolFault(spec.pools, ArrayNames(spec.arrays), j, DuplicatePool(spec.pools[j].arr, spec.pools[j].name));
      assert (spec.pools[..j][i].arr, spec.pools[..j][i].name) in PoolKeys(spec.pools[..j]);
    }
    forall i, j | 0 <= i < j < |spec.hosts|
      ensures spec.hosts[i].name != spec.hosts[j].name
    {
      assert !Fault(spec, DuplicateHost(spec.hosts[j].name));
      assert !HostFault(spec.hosts, j, DuplicateHost(spec.hosts[j].name));
      assert spec.hosts[..j][i].name in HostNames(spec.hosts[..j]);
    }
    forall i, j | 0 <= i < j < |spec.volumes|
      ensures spec.volumes[i].name != spec.volumes[j].name
    {
      assert !Fault(spec, DuplicateVolume(spec.volumes[j].name));
      assert !VolumeFault(spec.volumes, PoolNames(spec.pools), j, DuplicateVolume(spec.volumes[j].name));
      assert spec.volumes[..j][i].name in VolumeNames(spec.volumes[..j]);
    }
  }

  lemma FaultlessReferences(spec: TopologySpec)
    requires forall e :: !Fault(spec, e)
    ensures forall j :: 0 <= j < |spec.pools| ==> spec.pools[j].arr in ArrayNames(spec.arrays)
    ensures forall j :: 0 <= j < |spec.volumes| ==> spec.volumes[j].pool in PoolNames(spec.pools)
    ensures forall j :: 0 <= j < |spec.mappings| ==>
      spec.mappings[j].host in HostNames(spec.hosts) && spec.mappings[j].volume in VolumeNames(spec.volumes)
  {
    forall j: nat | j < |spec.pools|
      ensures spec.pools[j].arr in ArrayNames(spec.arrays)
    {
      assert !Fault(spec, UnknownArray(spec.pools[j].name, spec.pools[j].arr));
      assert !PoolFault(spec.pools, ArrayNames(spec.arrays), j, UnknownArray(spec.pools[j].name, spec.pools[j].arr));
    }
    forall j: nat | j < |spec.volumes|
      ensures spec.volumes[j].pool in PoolNames(spec.pools)
    {
      assert !Fault(spec, UnknownPool(spec.volumes[j].name, spec.volumes[j].pool));
      assert !VolumeFault(spec.volumes, PoolNames(spec.pools), j,
                          UnknownPool(spec.volumes[j].name, spec.volumes[j].pool));
    }
    forall j: nat | j < |spec.mappings|
      ensures spec.mappings[j].host in HostNames(spec.hosts) && spec.mappings[j].volume in VolumeNames(spec.volumes)
    {
      var hosts, volumes := HostNames(spec.hosts), VolumeNames(spec.volumes);
      assert !Fault(spec, UnknownHost(spec.mappings[j].host)) && !Fault(spec, UnknownVolume(spec.mappings[j].volume));
      assert !MappingFault(spec.mappings, hosts, volumes, j, UnknownHost(spec.mappings[j].host));
      assert !MappingFault(spec.mappings, hosts, volumes, j, UnknownVolume(spec.mappings[j].volume));
    }
  }

  /** A specification is well formed exactly when it has no fault. */
  lemma WellFormedIffFaultless(spec: TopologySpec)
    ensures WellFormed(spec) <==> forall e :: !Fault(spec, e)
  {
    if WellFormed(spec) {
      forall e
        ensures !Fault(spec, e)
      {
        WellFormedFaultless(spec, e);
      }
    }
    if forall e :: !Fault(spec, e) {
      FaultlessNames(spec);
      FaultlessReferences(spec);
      hide Fault;
    }
  }

  // ---- The one-pass checker ----------------------------------------------------------------

  /** The reported errors are exactly the faults: none is missed, none is made up. */
  method Validate(spec: TopologySpec) returns (errors: seq<TopologyError>)
    ensures forall e :: e in errors <==> Fault(spec, e)
    ensures errors == [] <==> WellFormed(spec)
  {
    var arrayErrors, seenArrays := CheckArrays(spec.arrays);
    var poolErrors, poolMap := CheckPools(spec.pools, seenArrays);
    var hostErrors, seenHosts := CheckHosts(spec.hosts);
    var volumeErrors, seenVolumes := CheckVolumes(spec.volumes, poolMap);
    var mappingErrors := CheckMappings(spec.mappings, seenHosts, seenVolumes);
    errors := arrayErrors + poolErrors + hostErrors + volumeErrors + mappingErrors;
    assert forall e :: e in errors <==> Fault(spec, e);
    WellFormedIffFaultless(spec);
    hide WellFormed, Fault;
    if errors != [] {
      assert errors[0] in errors;
    }
  }

  method CheckArrays(xs: seq<ArraySpec>) returns (errors: seq<TopologyError>, seen: set<string>)
    ensures seen == ArrayNames(xs)
    ensures forall e :: e in errors <==> exists j: nat :: j < |xs| && ArrayFault(xs, j, e)
  {
    errors, seen := [], {};
    for k := 0 to |xs|
      invariant seen == ArrayNames(xs[..k])
      invariant forall e :: e in errors <==> exists j: nat :: j < k && ArrayFault(xs, j, e)
    {
      if xs[k].name in seen {
        errors := errors + [DuplicateArray(xs[k].name)];
        assert ArrayFault(xs, k, DuplicateArray(xs[k].name));
      }
      seen := seen + {xs[k].name};
      assert xs[..k + 1] == xs[..k] + [xs[k]];
      assert xs[..k + 1][k] == xs[k];
    }
    assert xs[..|xs|] == xs;
  }

  method CheckPools(xs: seq<PoolSpec>, arrays: set<string>)
    returns (errors: seq<TopologyError>, poolMap: map<string, string>)
    ensures poolMap.Keys == PoolNames(xs)
    ensures forall e :: e in errors <==> exists j: nat :: j < |xs| && PoolFault(xs, arrays, j, e)
  {
    errors, poolMap := [], map[];
    var seen: set<(string, string)> := {};
    for k := 0 to |xs|
      invariant poolMap.Keys == PoolNames(xs[..k]) && seen == PoolKeys(xs[..k])
      invariant forall e :: e in errors <==> exists j: nat :: j < k && PoolFault(xs, arrays, j, e)
    {
      if xs[k].arr !in arrays {
        errors := errors + [UnknownArray(xs[k].name, xs[k].arr)];
        assert PoolFault(xs, arrays, k, UnknownArray(xs[k].name, xs[k].arr));
      }
      var key := (xs[k].arr, xs[k].name);
      if key in seen {
        errors := errors + [DuplicatePool(xs[k].arr, xs[k].name)];
        assert PoolFault(xs, arrays, k, DuplicatePool(xs[k].arr, xs[k].name));
      }
      seen := seen + {key};
      poolMap := poolMap[xs[k].name := xs[k].arr];
      assert xs[..k + 1] == xs[..k] + [xs[k]];
      assert xs[..k + 1][k] == xs[k];
    }
    assert xs[..|xs|] == xs;
  }

  method CheckHosts(xs: seq<HostSpec>) returns (errors: seq<TopologyError>, seen: set<string>)
    ensures seen == HostNames(xs)
    ensures forall e :: e in errors <==> exists j: nat :: j < |xs| && HostFault(xs, j, e)
  {
    errors, seen := [], {};
    for k := 0 to |xs|
      invariant seen == HostNames(xs[..k])
      invariant forall e :: e in errors <==> exists j: nat :: j < k && HostFault(xs, j, e)
    {
      if xs[k].name in seen {
        errors := errors + [DuplicateHost(xs[k].name)];
        assert HostFault(xs, k, DuplicateHost(xs[k].name));
      }
      seen := seen + {xs[k].name};
      assert xs[..k + 1] == xs[..k] + [xs[k]];
      assert xs[..k + 1][k] == xs[k];
    }
    assert xs[..|xs|] == xs;
  }

  method CheckVolumes(xs: seq<VolumeSpec>, poolMap: map<string, string>)
    returns (errors: seq<TopologyError>, seen: set<string>)
    ensures seen == VolumeNames(xs)
    ensures forall e :: e in errors <==> exists j: nat :: j < |xs| && VolumeFault(xs, poolMap.Keys, j, e)
  {
    errors, seen := [], {};
    for k := 0 to |xs|
      invariant seen == VolumeNames(xs[..k])
      invariant forall e :: e in errors <==> exists j: nat :: j < k && VolumeFault(xs, poolMap.Keys, j, e)
    {
      if xs[k].name in seen {
        errors := errors + [DuplicateVolume(xs[k].name)];
        assert VolumeFault(xs, poolMap.Keys, k, DuplicateVolume(xs[k].name));
      }
      seen := seen + {xs[k].name};
      if xs[k].pool !in poolMap {
        errors := errors + [UnknownPool(xs[k].name, xs[k].pool)];
        assert VolumeFault(xs, poolMap.Keys, k, UnknownPool(xs[k].name, xs[k].pool));
      }
      assert xs[..k + 1] == xs[..k] + [xs[k]];
      assert xs[..k + 1][k] == xs[k];
    }
    assert xs[..|xs|] == xs;
  }

  method CheckMappings(xs: seq<MappingSpec>, hosts: set<string>,
                       volumes: set<string>) returns (errors: seq<TopologyError>)
    ensures forall e :: e in errors <==> exists j: nat :: j < |xs| && MappingFault(xs, hosts, volumes, j, e)
  {
    errors := [];
    for k := 0 to |xs|
      invariant forall e :: e in errors <==> exists j: nat :: j < k && MappingFault(xs, hosts, volumes, j, e)
    {
      if xs[k].host !in hosts {
        errors := errors + [UnknownHost(xs[k].host)];
        assert MappingFault(xs, hosts, volumes, k, UnknownHost(xs[k].host));
      }
      if xs[k].volume !in volumes {
        errors := errors + [UnknownVolume(xs[k].volume)];
        assert MappingFault(xs, hosts, volumes, k, UnknownVolume(xs[k].volume));
      }
    }
  }
}
