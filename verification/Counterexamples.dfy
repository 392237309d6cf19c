/** Concrete runs that leave the hypotheses, or that the source's own intent does not foresee. */
module Counterexamples {
  import opened Model
  import opened Ensure
  import opened Alloc
  import opened Inventory
  import opened Volumes
  import opened Mappings
  import opened Topology
  import A = Apply
  import R = Reconcile
  import opened Invariants
  import opened DbSteps
  import opened EndpointChoice
  import opened GoodSteps
  import opened ReconcileExact
  import opened MappingFailures
  import opened Runs

  const REFUSES := Wire(c => Refused, 0)
  const SERVES := Wire(c => Served, 0)
  const ALL := Hyp(true, true, true)

  function BdevOf(arr: string, pool: string, v: Id): Bdev { Lvol(LvsName(arr, pool), v) }

  // ---- One array, one endpoint, one pool, two volumes, one host -----------------------------

  function Setup(p: Protocol, arr: string, pool: string, target: string): seq<Request> {
    [NewArray(arr)] + [NewEndpoint(0, p, target, [])] + [NewPool(pool, 0, Malloc, Some(64), "", SERVES)]
    + [NewVolume("a", 2, 8, SERVES)] + [NewVolume("b", 2, 8, SERVES)] + [NewHost("host", [], [], [])]
  }

  function WithPool(p: Protocol, arr: string, pool: string, target: string): World {
    World(EMPTY_DB.(arrays := map[0 := Array(arr)], endpoints := map[1 := Endpoint(0, p, target, [])],
                    pools := map[2 := Pool(pool, 0, Malloc, Some(64), "")]),
          EMPTY_SPDK.(backing := {2}, lvstores := map[LvsName(arr, pool) := 2]), 3)
  }

  function WithVolume(p: Protocol, arr: string, pool: string, target: string): World {
    var w := WithPool(p, arr, pool, target);
    World(w.db.(volumes := map[3 := Volume("a", 0, 2, 8, Available, Some(BdevOf(arr, pool, 3)))]),
          w.spdk.(lvols := map[BdevOf(arr, pool, 3) := 8]), 4)
  }

  function WithVolumes(p: Protocol, arr: string, pool: string, target: string): World {
    var w := WithVolume(p, arr, pool, target);
    World(w.db.(volumes := w.db.volumes[4 := Volume("b", 0, 2, 8, Available, Some(BdevOf(arr, pool, 4)))]),
          w.spdk.(lvols := w.spdk.lvols[BdevOf(arr, pool, 4) := 8]), 5)
  }

  function Ready(p: Protocol, arr: string, pool: string, target: string): World {
    var w := WithVolumes(p, arr, pool, target);
    World(w.db.(hosts := map[5 := Host("host", [], [], [])]), w.spdk, 6)
  }

  lemma OneMore(w: World, rs: seq<Request>, r: Request)
    requires AllowedRun(w, rs, ALL) && Allowed(Run(w, rs), r, ALL)
    ensures Run(w, rs + [r]) == Step(Run(w, rs), r) && AllowedRun(w, rs + [r], ALL)
  {
    var longer := rs + [r];
    assert longer[..|rs|] == rs;
    hide Allowed, Step;
    forall k | 0 <= k < |longer|
      ensures Allowed(Run(w, longer[..k]), longer[k], ALL)
    {
      if k < |rs| {
        assert longer[..k] == rs[..k];
      }
    }
  }

  lemma PoolSetUp(p: Protocol, arr: string, pool: string, target: string)
    ensures var w1 := Step(START, NewArray(arr));
      var w2 := Step(w1, NewEndpoint(0, p, target, []));
      && Allowed(w1, NewEndpoint(0, p, target, []), ALL)
      && Step(w2, NewPool(pool, 0, Malloc, Some(64), "", SERVES)) == WithPool(p, arr, pool, target)
  {
    hide LvsName;
    assert ArraysNamed(EMPTY_DB, arr) == {};
    var db := EMPTY_DB.(arrays := map[0 := Array(arr)], endpoints := map[1 := Endpoint(0, p, target, [])]);
    assert PoolsNamed(db, 0, pool) == {};
  }

  lemma VolumesSetUp(p: Protocol, arr: string, pool: string, target: string)
    ensures Step(WithPool(p, arr, pool, target), NewVolume("a", 2, 8, SERVES)) == WithVolume(p, arr, pool, target)
    ensures Step(WithVolume(p, arr, pool, target), NewVolume("b", 2, 8, SERVES)) == WithVolumes(p, arr, pool, target)
    ensures Step(WithVolumes(p, arr, pool, target), NewHost("host", [], [], [])) == Ready(p, arr, pool, target)
  {
    hide LvsName;
    assert VolumesNamed(WithPool(p, arr, pool, target).db, 0, "a") == {};
    assert "a" != "b";
    assert VolumesNamed(WithVolume(p, arr, pool, target).db, 0, "b") == {};
    assert HostsNamed(WithVolumes(p, arr, pool, target).db, "host") == {};
  }

  lemma ReadyReached(p: Protocol, arr: string, pool: string, target: string)
    ensures AllowedRun(START, Setup(p, arr, pool, target), ALL)
        && Run(START, Setup(p, arr, pool, target)) == Ready(p, arr, pool, target)
  {
    hide Step, AllowedRun, Run, WithPool, WithVolume, WithVolumes, Ready;
    PoolSetUp(p, arr, pool, target);
    VolumesSetUp(p, arr, pool, target);
    EmptyRun();
    OneMore(START, [], NewArray(arr));
    var rs1 := [] + [NewArray(arr)];
    OneMore(START, rs1, NewEndpoint(0, p, target, []));
    var rs2 := rs1 + [NewEndpoint(0, p, target, [])];
    OneMore(START, rs2, NewPool(pool, 0, Malloc, Some(64), "", SERVES));
    var rs3 := rs2 + [NewPool(pool, 0, Malloc, Some(64), "", SERVES)];
    OneMore(START, rs3, NewVolume("a", 2, 8, SERVES));
    var rs4 := rs3 + [NewVolume("a", 2, 8, SERVES)];
    OneMore(START, rs4, NewVolume("b", 2, 8, SERVES));
    var rs5 := rs4 + [NewVolume("b", 2, 8, SERVES)];
    OneMore(START, rs5, NewHost("host", [], [], []));
    assert [] + [NewArray(arr)] == [NewArray(arr)];
  }

  lemma EmptyRun()
    ensures AllowedRun(START, [], ALL) && Run(START, []) == START
  {
  }

  // ---- A stale namespace -----------------------------------------------------------------------

  function MapVolume(v: Id, p: Protocol): Request { Map(MapArgsOf(v, p), SERVES) }

  lemma MapAllowed(w: World, v: Id, p: Protocol)
    ensures Allowed(w, MapVolume(v, p), ALL)
  {
  }

  /** A creation put together from its choice, its ids and its wiring. */
  lemma MappingMade(w: World, a: MapArgs, row: Mapping, s: Spdk)
    requires a.volume in w.db.volumes && w.db.volumes[a.volume].status == Available && a.host in w.db.hosts
    requires ResolveEndpoints(w.db, w.db.volumes[a.volume].arr, w.db.hosts[a.host], a)
             == Ok((row.persona, row.underlay))
    requires row.underlay in w.db.endpoints
    requires row == Mapping(a.volume, a.host, row.persona, row.underlay,
                            LeastFree(UsedLuns(w.db, a.host, row.persona), 0),
                            NewUnder(w.db, row.underlay, a.base), Attached, 1)
    requires WireUnderlay(w.db.(mappings := w.db.mappings[w.serial := row]), w.spdk, row.under, w.db.volumes[a.volume],
                          w.db.endpoints[row.underlay], SERVES) == Act(s, true)
    ensures var db := w.db.(mappings := w.db.mappings[w.serial := row],
                            volumes := w.db.volumes[a.volume := w.db.volumes[a.volume].(status := InUse)]);
      && CreateMapping(w, a, SERVES) == Res(World(db, s, w.serial + 1), Ok(w.serial))
      && Step(w, Map(a, SERVES)) == World(db, s, w.serial + 1)
  {
    hide ResolveEndpoints, LeastFree, NewUnder, UsedLuns, WireUnderlay;
  }

  function MapArgsOf(v: Id, p: Protocol): MapArgs { MapArgs(5, v, Some(1), Some(1), Some(p), Some(p), 0) }

  /** Volume 3 mapped through the NVMe-oF endpoint, volume 4 not mapped. */
  function Before(arr: string, pool: string, nqn: string): World {
    var w := Ready(Nvme, arr, pool, nqn);
    World(w.db.(volumes := w.db.volumes[3 := w.db.volumes[3].(status := InUse)],
                mappings := map[6 := Mapping(3, 5, 1, 1, 0, 1, Attached, 1)]),
          w.spdk.(transport := true, subsystems := map[nqn := Subsystem([], map[1 := BdevOf(arr, pool, 3)])]), 7)
  }

  /** That state is reached by an allowed run under all hypotheses, so every invariant holds of it. */
  lemma BeforeReached(arr: string, pool: string, nqn: string)
    requires nqn != ""
    ensures var rs := Setup(Nvme, arr, pool, nqn) + [MapVolume(3, Nvme)];
      AllowedRun(START, rs, ALL) && Run(START, rs) == Before(arr, pool, nqn) && Good(Before(arr, pool, nqn), ALL)
  {
    var rs := Setup(Nvme, arr, pool, nqn) + [MapVolume(3, Nvme)];
    FirstMapped(arr, pool, nqn);
    MapAllowed(Ready(Nvme, arr, pool, nqn), 3, Nvme);
    hide Setup, Step, AllowedRun, Allowed, Run, Ready, Before, Good, MapVolume;
    ReadyReached(Nvme, arr, pool, nqn);
    OneMore(START, Setup(Nvme, arr, pool, nqn), MapVolume(3, Nvme));
    RunGood(rs, ALL);
  }

  lemma FirstMapped(arr: string, pool: string, nqn: string)
    requires nqn != ""
    ensures Step(Ready(Nvme, arr, pool, nqn), MapVolume(3, Nvme)) == Before(arr, pool, nqn)
  {
    var w, db := Ready(Nvme, arr, pool, nqn), Ready(Nvme, arr, pool, nqn).db;
    var row := Mapping(3, 5, 1, 1, 0, 1, Attached, 1);
    hide LvsName, ResolveEndpoints, LeastFree, Step;
    BothIdsHonouredIff(db, 0, db.hosts[5], MapArgsOf(3, Nvme));
    assert UsedUnder(db, 1) == {} && UsedLuns(db, 5, 1) == {};
    LeastFreeUnique({}, 0, 0);
    LeastFreeUnique({}, 1, 1);
    MappingMade(w, MapArgsOf(3, Nvme), row, Before(arr, pool, nqn).spdk);
  }

  /** The clean-up of the deletion fails and is ignored; mapping volume 4 then succeeds, and its
      namespace exposes volume 3. */
  lemma StaleEntryExposesOtherVolume(arr: string, pool: string, nqn: string)
    requires nqn != ""
    ensures var w := Before(arr, pool, nqn);
      var w1 := DeleteMapping(w, 6, REFUSES);
      && w1.r.Ok?
      && var w2 := CreateMapping(w1.w, MapArgs(5, 4, Some(1), Some(1), Some(Nvme), Some(Nvme), 0), SERVES);
      && w2.r.Ok? && 7 in w2.w.db.mappings
      && w2.w.db.mappings[7].volume == 4 && w2.w.db.mappings[7].under == 1
      && Exposed(w2.w.spdk, w.db.endpoints[1], 1) == Some(BdevOf(arr, pool, 3))
  {
    var w := Before(arr, pool, nqn);
    var w1 := DeleteMapping(w, 6, REFUSES).w;
    hide LvsName;
    assert w1.spdk == w.spdk && w1.db.mappings == map[];
    assert MappingsOf(w1.db, 3) == {};
    assert UsedUnder(w1.db, 1) == {} && UsedLuns(w1.db, 5, 1) == {};
  }

  function Deleted(arr: string, pool: string, nqn: string): World {
    var w := Before(arr, pool, nqn);
    w.(db := w.db.(volumes := w.db.volumes[3 := w.db.volumes[3].(status := Available)], mappings := map[]))
  }

  /** The state after those two requests. */
  function Stale(arr: string, pool: string, nqn: string): World {
    var w := Deleted(arr, pool, nqn);
    World(w.db.(volumes := w.db.volumes[4 := w.db.volumes[4].(status := InUse)],
                mappings := map[7 := Mapping(4, 5, 1, 1, 0, 1, Attached, 1)]), w.spdk, 8)
  }

  lemma UncleanDeletion(arr: string, pool: string, nqn: string)
    requires nqn != ""
    ensures Step(Before(arr, pool, nqn), Unmap(6, REFUSES)) == Deleted(arr, pool, nqn)
  {
    hide LvsName;
    var w := Before(arr, pool, nqn);
    assert w.db.mappings - {6} == map[];
    assert MappingsOf(w.db.(mappings := map[]), 3) == {};
  }

  lemma SecondMapped(arr: string, pool: string, nqn: string)
    requires nqn != ""
    ensures Step(Deleted(arr, pool, nqn), MapVolume(4, Nvme)) == Stale(arr, pool, nqn)
  {
    var w, db := Deleted(arr, pool, nqn), Deleted(arr, pool, nqn).db;
    hide LvsName, ResolveEndpoints, LeastFree, Step;
    BothIdsHonouredIff(db, 0, db.hosts[5], MapArgsOf(4, Nvme));
    assert UsedUnder(db, 1) == {} && UsedLuns(db, 5, 1) == {};
    LeastFreeUnique({}, 0, 0);
    LeastFreeUnique({}, 1, 1);
    MappingMade(w, MapArgsOf(4, Nvme), Mapping(4, 5, 1, 1, 0, 1, Attached, 1), w.spdk);
  }

  lemma PassStep(w: World, o: R.RowOrder, wires: R.Wires)
    requires R.OrderOf(o, w.db)
    ensures var w' := Step(w, Reconcile(o, wires));
      w' == R.Reconciled(w, o, wires) && w'.db.mappings == w.db.mappings && w'.db.endpoints == w.db.endpoints
  {
    hide R.OrderOf, R.AfterPools, R.AfterVolumes, R.AfterEndpoints, R.MappingPass;
  }

  /** A reconcile pass over any row order, with any replies, leaves that namespace as it is: it still
      exposes volume 3 under the id of volume 4's mapping, also when every call is served. */
  lemma StaleEntrySurvivesPass(arr: string, pool: string, nqn: string, o: R.RowOrder, wires: R.Wires)
    requires nqn != "" && R.OrderOf(o, Stale(arr, pool, nqn).db)
    ensures Step(Step(Before(arr, pool, nqn), Unmap(6, REFUSES)), MapVolume(4, Nvme)) == Stale(arr, pool, nqn)
    ensures var w := Step(Stale(arr, pool, nqn), Reconcile(o, wires));
      && w.db.mappings == map[7 := Mapping(4, 5, 1, 1, 0, 1, Attached, 1)]
      && w.db.endpoints == map[1 := Endpoint(0, Nvme, nqn, [])]
      && Exposed(w.spdk, w.db.endpoints[1], 1) == Some(BdevOf(arr, pool, 3))
  {
    UncleanDeletion(arr, pool, nqn);
    SecondMapped(arr, pool, nqn);
    assert 1 in Table(Stale(arr, pool, nqn).spdk, Nvme, nqn);
    hide Step, R.OrderOf, R.Reconciled, MapVolume, LvsName;
    PassStep(Stale(arr, pool, nqn), o, wires);
    OldEntry(Stale(arr, pool, nqn), o, wires, Nvme, nqn, 1);
  }

  /** Extending the mapped volume 3 leaves it `available`, though its mapping is still there; only
      the mapping table keeps it from being deleted. */
  lemma ExtensionForgetsMapping(arr: string, pool: string, nqn: string)
    ensures var res := ExtendVolume(Before(arr, pool, nqn), 3, 16, SERVES);
      && res.r.Ok? && res.w.db.volumes[3].status == Available && 6 in MappingsOf(res.w.db, 3)
      && DeleteVolume(res.w, 3, SERVES) == Res(res.w, Err(ResourceInUse))
  {
    hide LvsName;
    var w := ExtendVolume(Before(arr, pool, nqn), 3, 16, SERVES).w;
    assert 6 in MappingsOf(w.db, 3);
  }

  // ---- A lost LUN ------------------------------------------------------------------------------

  /** Both volumes mapped through one iSCSI endpoint: LUNs 0 and 1 of one target. */
  function Shared(arr: string, pool: string, iqn: string): World {
    var w := Ready(Iscsi, arr, pool, iqn);
    World(w.db.(volumes := w.db.volumes[3 := w.db.volumes[3].(status := InUse)][4 := w.db.volumes[4].(status := InUse)],
                mappings := map[6 := Mapping(3, 5, 1, 1, 0, 0, Attached, 1),
                                7 := Mapping(4, 5, 1, 1, 1, 1, Attached, 1)]),
          w.spdk.(portalGroup := true, initiatorGroup := true,
                  targets := map[iqn := map[0 := BdevOf(arr, pool, 3), 1 := BdevOf(arr, pool, 4)]]), 8)
  }

  function HalfShared(arr: string, pool: string, iqn: string): World {
    var w := Ready(Iscsi, arr, pool, iqn);
    World(w.db.(volumes := w.db.volumes[3 := w.db.volumes[3].(status := InUse)],
                mappings := map[6 := Mapping(3, 5, 1, 1, 0, 0, Attached, 1)]),
          w.spdk.(portalGroup := true, initiatorGroup := true,
                  targets := map[iqn := map[0 := BdevOf(arr, pool, 3)]]), 7)
  }

  lemma FirstShared(arr: string, pool: string, iqn: string)
    requires iqn != ""
    ensures Step(Ready(Iscsi, arr, pool, iqn), MapVolume(3, Iscsi)) == HalfShared(arr, pool, iqn)
  {
    var w, db := Ready(Iscsi, arr, pool, iqn), Ready(Iscsi, arr, pool, iqn).db;
    hide LvsName, ResolveEndpoints, LeastFree, Step;
    BothIdsHonouredIff(db, 0, db.hosts[5], MapArgsOf(3, Iscsi));
    assert UsedUnder(db, 1) == {} && UsedLuns(db, 5, 1) == {};
    LeastFreeUnique({}, 0, 0);
    MappingMade(w, MapArgsOf(3, Iscsi), Mapping(3, 5, 1, 1, 0, 0, Attached, 1), HalfShared(arr, pool, iqn).spdk);
  }

  lemma SecondShared(arr: string, pool: string, iqn: string)
    requires iqn != ""
    ensures Step(HalfShared(arr, pool, iqn), MapVolume(4, Iscsi)) == Shared(arr, pool, iqn)
  {
    var w, db := HalfShared(arr, pool, iqn), HalfShared(arr, pool, iqn).db;
    hide LvsName, ResolveEndpoints, LeastFree, Step;
    BothIdsHonouredIff(db, 0, db.hosts[5], MapArgsOf(4, Iscsi));
    assert 6 in db.mappings && db.mappings[6].under == 0 && db.mappings[6].lun == 0;
    assert UsedUnder(db, 1) == {0} && UsedLuns(db, 5, 1) == {0};
    LeastFreeUnique({0}, 0, 1);
    MappingMade(w, MapArgsOf(4, Iscsi), Mapping(4, 5, 1, 1, 1, 1, Attached, 1), Shared(arr, pool, iqn).spdk);
  }

  lemma SharedReached(arr: string, pool: string, iqn: string)
    requires iqn != ""
    ensures var rs := Setup(Iscsi, arr, pool, iqn) + [MapVolume(3, Iscsi)] + [MapVolume(4, Iscsi)];
      AllowedRun(START, rs, ALL) && Run(START, rs) == Shared(arr, pool, iqn)
  {
    FirstShared(arr, pool, iqn);
    SecondShared(arr, pool, iqn);
    hide Setup, Step, AllowedRun, Run, Ready, HalfShared, Shared, MapVolume;
    ReadyReached(Iscsi, arr, pool, iqn);
    assert Allowed(Ready(Iscsi, arr, pool, iqn), MapVolume(3, Iscsi), ALL) by {
      MapAllowed(Ready(Iscsi, arr, pool, iqn), 3, Iscsi);
    }
    OneMore(START, Setup(Iscsi, arr, pool, iqn), MapVolume(3, Iscsi));
    assert Allowed(HalfShared(arr, pool, iqn), MapVolume(4, Iscsi), ALL) by {
      MapAllowed(HalfShared(arr, pool, iqn), 4, Iscsi);
    }
    OneMore(START, Setup(Iscsi, arr, pool, iqn) + [MapVolume(3, Iscsi)], MapVolume(4, Iscsi));
  }

  /** Deleting the first of the two mappings, with every call served, takes the LUN of the second
      away, though its row stays attached and its volume in use. */
  lemma DeletionDropsSibling(arr: string, pool: string, iqn: string)
    requires iqn != ""
    ensures var w' := Step(Shared(arr, pool, iqn), Unmap(6, SERVES));
      && w'.db.mappings == map[7 := Mapping(4, 5, 1, 1, 1, 1, Attached, 1)] && w'.db.volumes[4].status == InUse
      && 1 in w'.db.endpoints
      && Exposed(Shared(arr, pool, iqn).spdk, w'.db.endpoints[1], 1) == Some(BdevOf(arr, pool, 4))
      && Exposed(w'.spdk, w'.db.endpoints[1], 1) == None
  {
    hide LvsName;
    var w := Shared(arr, pool, iqn);
    assert w.db.mappings - {6} == map[7 := Mapping(4, 5, 1, 1, 1, 1, Attached, 1)];
    assert MappingsOf(w.db.(mappings := w.db.mappings - {6}), 3) == {};
  }

  // ---- A LUN without a row --------------------------------------------------------------------------

  /** The rows of `Ready` again, and each volume mapped to the host. */
  function Declared(arr: string, pool: string): TopologySpec {
    TopologySpec([ArraySpec(arr, [])], [PoolSpec(pool, arr, true, 64, "")], [HostSpec("host", [], [], [])],
                 [VolumeSpec("a", 8, pool), VolumeSpec("b", 8, pool)],
                 [MappingSpec("host", "a", Iscsi), MappingSpec("host", "b", Iscsi)])
  }

  /** Only the calls of the second mapping are refused. */
  function SecondRefused(item: A.Item): Wire { if item == A.MappingItem(1) then REFUSES else SERVES }

  lemma FirstOf(hits: set<Id>, id: Id)
    requires hits == {id}
    ensures First(hits) == Some(id)
  {
  }

  /** Everything before the mappings is there. */
  lemma AllDeclaredFound(arr: string, pool: string, iqn: string)
    ensures var w := Ready(Iscsi, arr, pool, iqn);
      && A.Hosts(w, Declared(arr, pool), SecondRefused).objs == map["host" := 5]
      && A.VolumesOf(w, Declared(arr, pool), SecondRefused) == A.Phase(w, map["a" := 3, "b" := 4], 0, 2, None)
  {
    var w, spec := Ready(Iscsi, arr, pool, iqn), Declared(arr, pool);
    hide LvsName;
    assert ArraysNamed(w.db, arr) == {0} && PoolsNamed(w.db, 0, pool) == {2} && HostsNamed(w.db, "host") == {5};
    assert A.ArrayPhase(w, []) == A.Start(w) && A.PoolPhase(w, map[arr := 0], [], SecondRefused) == A.Start(w);
    assert A.HostPhase(w, []) == A.Start(w) && spec.hosts[..0] == [];
    assert A.VolumePhase(w, map[arr := 0], map[pool := 2], [], SecondRefused) == A.Start(w);
    assert A.Arrays(w, spec) == A.Phase(w, map[arr := 0], 0, 1, None);
    assert A.Pools(w, spec, SecondRefused) == A.Phase(w, map[pool := 2], 0, 1, None);
    assert A.Hosts(w, spec, SecondRefused) == A.Phase(w, map["host" := 5], 0, 1, None);
    assert VolumesNamed(w.db, 0, "a") == {3} && VolumesNamed(w.db, 0, "b") == {4};
    var one := A.VolumePhase(w, map[arr := 0], map[pool := 2], spec.volumes[..1], SecondRefused);
    assert spec.volumes[..1] == [VolumeSpec("a", 8, pool)];
    assert one == A.Phase(w, map["a" := 3], 0, 1, None);
  }

  /** The first item takes the first iSCSI endpoint and gets LUN 0. */
  lemma FirstItem(arr: string, pool: string, iqn: string)
    requires iqn != ""
    ensures CreateMapping(Ready(Iscsi, arr, pool, iqn), A.Request(5, 3, Iscsi, 0), SERVES)
            == Res(HalfShared(arr, pool, iqn), Ok(6))
  {
    var w, db := Ready(Iscsi, arr, pool, iqn), Ready(Iscsi, arr, pool, iqn).db;
    hide LvsName, LeastFree, Step, CreateMapping;
    FirstOf(EndpointsOf(db, 0, Iscsi), 1);
    assert UsedUnder(db, 1) == {} && UsedLuns(db, 5, 1) == {};
    LeastFreeUnique({}, 0, 0);
    MappingMade(w, A.Request(5, 3, Iscsi, 0), Mapping(3, 5, 1, 1, 0, 0, Attached, 1), HalfShared(arr, pool, iqn).spdk);
  }

  lemma SecondItem(arr: string, pool: string, iqn: string)
    ensures var res := CreateMapping(HalfShared(arr, pool, iqn), A.Request(5, 4, Iscsi, 0), REFUSES);
      res.r == Err(BackendFailure) && res.w.spdk == HalfShared(arr, pool, iqn).spdk
  {
    var w, db := HalfShared(arr, pool, iqn), HalfShared(arr, pool, iqn).db;
    hide LvsName, LeastFree;
    FirstOf(EndpointsOf(db, 0, Iscsi), 1);
  }

  lemma BothItems(arr: string, pool: string, iqn: string)
    requires iqn != ""
    ensures var out := A.MappingPhase(Ready(Iscsi, arr, pool, iqn), map["host" := 5], map["a" := 3, "b" := 4],
                                      Declared(arr, pool).mappings, 0, SecondRefused);
      out.err == Some(BackendFailure) && out.w.spdk == HalfShared(arr, pool, iqn).spdk
  {
    var w, h, v := Ready(Iscsi, arr, pool, iqn), map["host" := 5], map["a" := 3, "b" := 4];
    var items := Declared(arr, pool).mappings;
    hide CreateMapping, LvsName;
    FirstItem(arr, pool, iqn);
    SecondItem(arr, pool, iqn);
    assert A.MappingsBetween(w.db, 5, 3) == {} && A.MappingsBetween(HalfShared(arr, pool, iqn).db, 5, 4) == {};
    assert items[..1] == [MappingSpec("host", "a", Iscsi)] && items[..1][..0] == [];
    assert A.MappingPhase(w, h, v, [], 0, SecondRefused) == A.Start(w);
    var one := A.MappingPhase(w, h, v, items[..1], 0, SecondRefused);
    assert one == A.Phase(HalfShared(arr, pool, iqn), map[], 1, 0, None);
  }

  lemma SectionFails(w: World, spec: TopologySpec, base: int, wires: A.Item -> Wire, e: Error)
    requires A.VolumesOf(w, spec, wires).err.None?
    requires A.MappingPhase(A.VolumesOf(w, spec, wires).w, A.Hosts(w, spec, wires).objs,
                            A.VolumesOf(w, spec, wires).objs, spec.mappings, base, wires).err == Some(e)
    ensures A.ApplyTopology(w, spec, base, wires).1 == Err(e)
    ensures Step(w, ApplySpec(spec, base, wires)) == A.MappingsPart(w, spec, base, wires).w.(db := w.db)
  {
    hide A.VolumesOf, A.Hosts, A.MappingPhase;
  }

  lemma ApplyFails(arr: string, pool: string, iqn: string)
    requires iqn != ""
    ensures var w := Ready(Iscsi, arr, pool, iqn);
      && A.ApplyTopology(w, Declared(arr, pool), 0, SecondRefused).1 == Err(BackendFailure)
      && Step(w, ApplySpec(Declared(arr, pool), 0, SecondRefused)).db == w.db
      && Step(w, ApplySpec(Declared(arr, pool), 0, SecondRefused)).spdk == HalfShared(arr, pool, iqn).spdk
  {
    AllDeclaredFound(arr, pool, iqn);
    BothItems(arr, pool, iqn);
    hide Ready, HalfShared, Declared, Step, A.VolumesOf, A.Hosts, A.MappingPhase, A.ApplyTopology;
    SectionFails(Ready(Iscsi, arr, pool, iqn), Declared(arr, pool), 0, SecondRefused, BackendFailure);
  }

  lemma LunWithoutRow(arr: string, pool: string, iqn: string)
    requires iqn != ""
    ensures Exposed(HalfShared(arr, pool, iqn).spdk, Ready(Iscsi, arr, pool, iqn).db.endpoints[1], 0)
            == Some(BdevOf(arr, pool, 3))
    ensures !Sound(Ready(Iscsi, arr, pool, iqn).db, HalfShared(arr, pool, iqn).spdk)
  {
    hide LvsName;
    var s := HalfShared(arr, pool, iqn).spdk;
    assert 0 in Table(s, Iscsi, iqn);
    assert forall m :: !Backs(Ready(Iscsi, arr, pool, iqn).db, m, Iscsi, iqn, 0, Table(s, Iscsi, iqn)[0]);
  }

  /** A run from the empty gateway whose last request is a topology that declares what is there and two
      mappings, the second of which fails: no mapping row is left, and LUN 0 exposes volume 3. */
  lemma FailedApplyLeavesLun(arr: string, pool: string, iqn: string)
    requires iqn != ""
    ensures var last := ApplySpec(Declared(arr, pool), 0, SecondRefused);
      var w := Run(START, Setup(Iscsi, arr, pool, iqn) + [last]);
      && AllowedRun(START, Setup(Iscsi, arr, pool, iqn), ALL)
      && A.ApplyTopology(Run(START, Setup(Iscsi, arr, pool, iqn)), Declared(arr, pool), 0, SecondRefused).1
         == Err(BackendFailure)
      && w.db.mappings == map[] && w.db.endpoints == map[1 := Endpoint(0, Iscsi, iqn, [])]
      && Exposed(w.spdk, w.db.endpoints[1], 0) == Some(BdevOf(arr, pool, 3)) && !Sound(w.db, w.spdk)
  {
    var last := ApplySpec(Declared(arr, pool), 0, SecondRefused);
    var rs := Setup(Iscsi, arr, pool, iqn);
    assert Ready(Iscsi, arr, pool, iqn).db.endpoints == map[1 := Endpoint(0, Iscsi, iqn, [])];
    assert Ready(Iscsi, arr, pool, iqn).db.mappings == map[];
    hide Setup, Step, AllowedRun, Ready, HalfShared, Exposed, Sound, A.ApplyTopology, BdevOf, Declared;
    ReadyReached(Iscsi, arr, pool, iqn);
    ApplyFails(arr, pool, iqn);
    LunWithoutRow(arr, pool, iqn);
    assert (rs + [last])[..|rs|] == rs;
  }

  // ---- A pool without its store -----------------------------------------------------------------------

  function TwoArrays(a: string, b: string, pool: string): World {
    World(EMPTY_DB.(arrays := map[0 := Array(a), 1 := Array(b)],
                    pools := map[2 := Pool(pool, 0, Malloc, Some(64), "")]),
          EMPTY_SPDK.(backing := {2}, lvstores := map[LvsName(a, pool) := 2]), 3)
  }

  /** The pool moved to the second array: its store keeps the name it got on the first. */
  function Moved(a: string, b: string, pool: string): World {
    var w := TwoArrays(a, b, pool);
    w.(db := w.db.(pools := map[2 := Pool(pool, 1, Malloc, Some(64), "")]))
  }

  lemma NamesDiffer(a: string, b: string, pool: string)
    requires a != b
    ensures LvsName(a, pool) != LvsName(b, pool)
  {
    var x, y := LvsName(a, pool), LvsName(b, pool);
    if |a| == |b| {
      assert x[..|a|] == a && y[..|a|] == b;
    } else {
      assert |x| != |y|;
    }
  }

  lemma MovedReached(a: string, b: string, pool: string)
    requires a != b
    ensures Step(Step(Step(Step(START, NewArray(a)), NewArray(b)), NewPool(pool, 0, Malloc, Some(64), "", SERVES)),
                 MovePool(1, 2)) == Moved(a, b, pool)
  {
    hide LvsName;
    assert ArraysNamed(EMPTY_DB, a) == {};
    assert ArraysNamed(EMPTY_DB.(arrays := map[0 := Array(a)]), b) == {};
    assert PoolsNamed(EMPTY_DB.(arrays := map[0 := Array(a), 1 := Array(b)]), 0, pool) == {};
    assert PoolsNamed(TwoArrays(a, b, pool).db, 1, pool) == {};
  }

  lemma MovedPlace(a: string, b: string, pool: string)
    requires a != b
    ensures var w := Moved(a, b, pool);
      Inv(w) && StoreOf(w.db, 2) == LvsName(b, pool) && OwnStoreName(w.db, 2) && !StoreFree(w.db, w.spdk, 2)
  {
    NamesDiffer(a, b, pool);
    hide LvsName;
    var s := Moved(a, b, pool).spdk;
    assert LvsName(a, pool) in s.lvstores && s.lvstores[LvsName(a, pool)] == 2;
  }

  /** An empty pool moved to another array never gets its lvol store from a pass, whatever the replies: the
      store on its backing bdev carries the old name.  After the pass it is as far from it as before. */
  lemma MovedPoolGetsNoStore(a: string, b: string, pool: string, o: R.RowOrder, wires: R.Wires)
    requires a != b && R.OrderOf(o, Moved(a, b, pool).db)
    ensures var w := Moved(a, b, pool);
      && Step(Step(Step(Step(START, NewArray(a)), NewArray(b)), NewPool(pool, 0, Malloc, Some(64), "", SERVES)),
              MovePool(1, 2)) == w
      && 2 in w.db.pools && StoreOf(w.db, 2) == LvsName(b, pool)
      && LvsName(b, pool) !in Step(w, Reconcile(o, wires)).spdk.lvstores
      && !StoreFree(w.db, Step(w, Reconcile(o, wires)).spdk, 2)
  {
    MovedReached(a, b, pool);
    MovedPlace(a, b, pool);
    assert 2 in Moved(a, b, pool).db.pools;
    hide LvsName, Step, R.OrderOf, R.Reconciled, Moved, Inv, OwnStoreName, StoreOf;
    PassStep(Moved(a, b, pool), o, wires);
    KeptOut(Moved(a, b, pool), o, wires, 2);
  }

  // ---- An overridden choice ----------------------------------------------------------------------

  /** The caller names iSCSI endpoint 2 as persona, the host has a WWPN, and gets FC endpoint 1. */
  lemma NamedPersonaOverridden(host: Host, base: int)
    requires host.wwpns != []
    ensures var db := EMPTY_DB.(arrays := map[0 := Array("array")],
                                endpoints := map[1 := Endpoint(0, Fc, "", []), 2 := Endpoint(0, Iscsi, "iqn", [])]);
      ResolveEndpoints(db, 0, host, MapArgs(5, 3, Some(2), None, None, None, base)) == Ok((1, 2))
  {
    var db := EMPTY_DB.(arrays := map[0 := Array("array")],
                        endpoints := map[1 := Endpoint(0, Fc, "", []), 2 := Endpoint(0, Iscsi, "iqn", [])]);
    assert EndpointsOf(db, 0, Fc) == {1} && EndpointsOf(db, 0, Iscsi) == {2};
  }
}
