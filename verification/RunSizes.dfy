/** Sizes of lvols through SPDK restarts and reconcile passes. */
module RunSizes {
  import opened Model
  import opened Ensure
  import opened Volumes
  import opened Mappings
  import opened Reconcile
  import A = Apply
  import opened Invariants
  import opened DbSteps
  import opened SteadySteps
  import opened GoodSteps
  import opened ReconcileProofs
  import opened ReconcileSound
  import opened ReconcileExact
  import opened ApplyResidue
  import opened Replies
  import opened Runs

  // ---- A pass -----------------------------------------------------------------------------

  /** An lvol the volume loop creates has the size of its volume's row. */
  lemma {:induction false} VolumePassSizes(arrays: map<Id, Array>, pools: map<Id, Pool>, volumes: map<Id, Volume>,
          s: Spdk, order: seq<Id>, wires: Wires, serial: Id, b: Bdev)
    requires VolumesOk(arrays, pools, volumes) && SpdkIssued(s, serial)
    requires forall id :: id in order ==> id in volumes && volumes[id].status != InError && id < serial
    requires b in VolumePass(arrays, pools, VolumeState(volumes, s), order, wires).s.lvols && b !in s.lvols
    ensures b.volume in volumes
            && VolumePass(arrays, pools, VolumeState(volumes, s), order, wires).s.lvols[b] == volumes[b.volume].sizeMb
    decreases |order|
  {
    assert order != [];
    var k := |order| - 1;
    hide VolumesOk, VolumeStep, SpdkIssued;
    assert forall id :: id in order[..k] ==> id in order;
    VolumePassOk(arrays, pools, volumes, s, order[..k], wires, serial);
    var y := VolumePass(arrays, pools, VolumeState(volumes, s), order[..k], wires);
    VolumeStepSizes(arrays, pools, y, order[k], wires(VolumeSite(order[k])), b);
    if b in y.s.lvols {
      VolumePassSizes(arrays, pools, volumes, s, order[..k], wires, serial, b);
    }
  }

  lemma VolumeStepSizes(arrays: map<Id, Array>, pools: map<Id, Pool>, x: VolumeState, id: Id, w: Wire, b: Bdev)
    requires id in x.volumes && b in VolumeStep(arrays, pools, x, id, w).s.lvols
    ensures var r := VolumeStep(arrays, pools, x, id, w);
      if b in x.s.lvols then r.s.lvols[b] == x.s.lvols[b] else b.volume == id && r.s.lvols[b] == x.volumes[id].sizeMb
  {
    hide LvsName;
  }

  /** An lvol a pass adds, from any SPDK state and for any failing calls, has the size of its row. */
  lemma AddedSize(w: World, o: RowOrder, wires: Wires, b: Bdev)
    requires Inv(w) && OrderOf(o, w.db)
    requires b in Reconciled(w, o, wires).spdk.lvols && b !in w.spdk.lvols
    ensures b.volume in w.db.volumes && Reconciled(w, o, wires).spdk.lvols[b] == w.db.volumes[b.volume].sizeMb
  {
    ListedMappings(o, w.db);
    LiveOrder(o, w.db, w.serial);
    hide DbOk, Issued, AfterPools, VolumePass, EndpointPass, MappingPass, SamePools, SpdkIssued, Claims, VolumesOk,
         SameNamespaces;
    AfterPoolsOk(w, o, wires);
    AfterVolumesOk(w, o, wires);
    var x := AfterPools(w, o, wires);
    EndpointPassOnly(w.db.endpoints, AfterVolumes(w, o, wires).s, o.endpoints, wires);
    MappingPassStorage(DbAfter(w, o, wires), AfterEndpoints(w, o, wires), o.mappings, wires);
    VolumePassSizes(w.db.arrays, x.pools, w.db.volumes, x.s, o.volumes, wires, w.serial, b);
  }

  /** A volume that is not in error, has an lvol or a pool whose store no other keeps out, and whose pool and
      volume calls are served, has an lvol of exactly its size after the pass if and only if it had none
      before, or one of that size. */
  lemma ReconcileSizeIff(w: World, o: RowOrder, wires: Wires, v: Id)
    requires Inv(w) && OrderOf(o, w.db) && v in LiveVolumes(w.db.volumes) && Provided(w.db, w.spdk, v)
    requires wires(VolumeSite(v)).Clean() && wires(PoolSite(w.db.volumes[v].pool)).Clean()
    ensures var s := Reconciled(w, o, wires).spdk;
      && Opens(s, w.db.volumes[v].bdev)
      && var b := w.db.volumes[v].bdev.value;
      (s.lvols[b] == w.db.volumes[v].sizeMb <==> b !in w.spdk.lvols || w.spdk.lvols[b] == w.db.volumes[v].sizeMb)
  {
    Unfold(w.db, v);
    OwnBdevsOk(w.db);
    hide Inv, AfterPools, AfterVolumes, AfterEndpoints, Reconciled, Provided, OrderOf, LvsName, TablesGrow;
    ReachesVolume(w, o, wires, v);
    PassGrows(w, o, wires);
    ReconcileMonotone(w, o, wires);
    var b := w.db.volumes[v].bdev.value;
    if b !in w.spdk.lvols {
      AddedSize(w, o, wires, b);
    }
  }

  /** Whole MiB of an AIO backing file of 512-byte blocks. */
  function FileMb(w: Wire): int { w.aioBlocks * 512 / 1048576 }

  lemma OtherPoolStep(arrays: map<Id, Array>, y: PoolState, j: Id, w: Wire, p: Id)
    requires j in y.pools && p in y.pools && j != p
    ensures var z := PoolStep(arrays, y, j, w); z.pools[p] == y.pools[p] && (p in z.s.backing <==> p in y.s.backing)
  {
    PoolEffect(y.s, j, y.pools[j], ArrayName(arrays, y.pools[j].arr), w);
    hide PoolEnsured;
  }

  lemma OwnPoolStep(arrays: map<Id, Array>, y: PoolState, p: Id, w: Wire)
    requires p in y.pools && y.pools[p].backend == AioFile && y.pools[p].aioPath != "" && w.Clean()
    ensures var z := PoolStep(arrays, y, p, w);
      && p in z.s.backing
      && z.pools[p] == if p in y.s.backing then y.pools[p] else y.pools[p].(sizeMb := Some(FileMb(w)))
  {
    assert w.Up(GetBackingBdev) && w.Up(CreateBacking) && w.Up(ReadBackingSize);
    PoolByReplies(y.s, p, y.pools[p], ArrayName(arrays, y.pools[p].arr), w);
    hide PoolEnsured;
  }

  lemma {:induction false} PoolPassSize(arrays: map<Id, Array>, pools: map<Id, Pool>, s: Spdk, order: seq<Id>,
          wires: Wires, p: Id)
    requires p in pools && pools[p].backend == AioFile && pools[p].aioPath != "" && wires(PoolSite(p)).Clean()
    requires forall i :: i in order ==> i in pools
    ensures var z := PoolPass(arrays, PoolState(pools, s), order, wires);
      && (p in z.s.backing <==> p in s.backing || p in order)
      && z.pools[p] == if p in s.backing || p !in order then pools[p]
                       else pools[p].(sizeMb := Some(FileMb(wires(PoolSite(p)))))
    decreases |order|
  {
    if order != [] {
      var k := |order| - 1;
      var y := PoolPass(arrays, PoolState(pools, s), order[..k], wires);
      assert order == order[..k] + [order[k]];
      hide PoolStep;
      PoolPassSize(arrays, pools, s, order[..k], wires, p);
      if order[k] == p {
        OwnPoolStep(arrays, y, p, wires(PoolSite(p)));
      } else {
        OtherPoolStep(arrays, y, order[k], wires(PoolSite(order[k])), p);
      }
    }
  }

  /** An AIO pool whose calls are served has, after a pass, the size of its file if the pass made its
      backing bdev, and the size it had otherwise. */
  lemma PassPoolSize(w: World, o: RowOrder, wires: Wires, p: Id)
    requires Inv(w) && OrderOf(o, w.db) && p in w.db.pools && w.db.pools[p].backend == AioFile
    requires wires(PoolSite(p)).Clean()
    ensures p in Reconciled(w, o, wires).db.pools
    ensures Reconciled(w, o, wires).db.pools[p].sizeMb
            == if p in w.spdk.backing then w.db.pools[p].sizeMb else Some(FileMb(wires(PoolSite(p))))
  {
    SharedOnly(w.spdk, wires);
    assert p in o.pools && BackendUsable(w.db.pools[p]);
    hide Inv, AfterShared, PoolPass, FileMb;
    PoolPassSize(w.db.arrays, w.db.pools, AfterShared(w.spdk, wires), o.pools, wires, p);
  }

  // ---- Runs ---------------------------------------------------------------------------------

  lemma SizesFrame(w: World, w': World)
    requires Sizes(w) && Inv(w')
    requires forall v :: v in w'.db.volumes ==>
      v in w.db.volumes && w'.db.volumes[v].bdev == w.db.volumes[v].bdev
      && w'.db.volumes[v].sizeMb == w.db.volumes[v].sizeMb
    requires forall b :: b in w'.spdk.lvols ==> b in w.spdk.lvols && w'.spdk.lvols[b] == w.spdk.lvols[b]
    ensures Sizes(w')
  {
    hide DbOk;
  }

  lemma QuietSizes(w: World, r: Request)
    requires !r.NewVolume? && !r.RemoveVolume? && !r.Extend? && !r.Expand? && !r.Map? && !r.Unmap? && !r.ApplySpec?
        && !r.Reconcile?
    ensures Step(w, r).db.volumes == w.db.volumes
    ensures Step(w, r).spdk.lvols == if r.RestartSpdk? then map[] else w.spdk.lvols
  {
    hide PoolEnsured, LvsName;
    match r
    case NewPool(name, arr, backend, sizeMb, path, wire) =>
      if arr in w.db.arrays {
        PoolEffect(w.spdk, w.serial, Pool(name, arr, backend, sizeMb, path), w.db.arrays[arr].name, wire);
      }
    case _ =>
  }

  lemma ExtendSizes(w: World, id: Id, newSizeMb: int, wire: Wire)
    requires Sizes(w)
    ensures Sizes(ExtendVolume(w, id, newSizeMb, wire).w) && Sizes(Committed(w, ExtendVolume(w, id, newSizeMb, wire)))
  {
    var res := ExtendVolume(w, id, newSizeMb, wire);
    ExtendKeeps(w, id, newSizeMb, wire);
    hide ExtendVolume;
    if res.r.Ok? {
      ExtendedRow(w, id, newSizeMb, wire);
    } else {
      FailedExtension(w, id, newSizeMb, wire);
    }
  }

  lemma ExtendKeeps(w: World, id: Id, newSizeMb: int, wire: Wire)
    ensures var r := ExtendVolume(w, id, newSizeMb, wire).w;
      r.serial == w.serial && r.spdk == w.spdk.(lvols := r.spdk.lvols) && r.spdk.lvols.Keys == w.spdk.lvols.Keys
  {
  }

  lemma VolumeSizes(w: World, r: Request)
    requires Sizes(w) && (r.NewVolume? || r.RemoveVolume? || r.Extend? || r.Expand?)
    ensures Sizes(Step(w, r))
  {
    hide CreateVolume, ExtendVolume, DeleteVolume, Sizes;
    match r
    case NewVolume(name, pool, sizeMb, wire) => CreateVolumeSizes(w, name, pool, sizeMb, wire);
    case RemoveVolume(id, wire) => DeleteSizes(w, id, wire);
    case Extend(id, newSizeMb, wire) => ExtendSizes(w, id, newSizeMb, wire);
    case Expand(id, deltaMb, wire) =>
      if id in w.db.volumes {
        ExtendSizes(w, id, w.db.volumes[id].sizeMb + deltaMb, wire);
      }
  }

  lemma DeleteSizes(w: World, id: Id, wire: Wire)
    requires Sizes(w)
    ensures Sizes(Committed(w, DeleteVolume(w, id, wire)))
  {
  }

  lemma MapSizes(w: World, r: Request)
    requires Sizes(w) && Inv(Step(w, r)) && r.Map?
    ensures Sizes(Step(w, r))
  {
    hide Inv, Sizes, WireUnderlay, ResolveEndpoints, NewUnder;
    CreateMappingStorage(w, r.args, r.wire);
    SizesFrame(w, Step(w, r));
  }

  lemma UnmapSizes(w: World, r: Request)
    requires Sizes(w) && Inv(Step(w, r)) && r.Unmap?
    ensures Sizes(Step(w, r))
  {
    hide Inv, Sizes, Detach;
    if r.id in w.db.mappings && w.db.mappings[r.id].underlay in w.db.endpoints {
      DetachedStorage(w.spdk, w.db.mappings[r.id].under, w.db.endpoints[w.db.mappings[r.id].underlay], r.wire);
    }
    SizesFrame(w, Step(w, r));
  }

  lemma ApplySizes(w: World, r: Request)
    requires Sizes(w) && r.ApplySpec?
    ensures Sizes(Step(w, r))
  {
    hide A.ApplyTopology;
    ApplyResidues(w, r.spec, r.base, r.itemWires);
  }

  lemma ReconcileSizes(w: World, o: RowOrder, wires: Wires)
    requires Sizes(w) && Inv(w) && OrderOf(o, w.db)
    ensures Sizes(Reconciled(w, o, wires))
  {
    var w' := Reconciled(w, o, wires);
    hide DbOk, Reconciled, OrderOf, SamePools, TablesGrow;
    ReconcileInv(w, o, wires);
    ReconcileMonotone(w, o, wires);
    forall v | v in w.db.volumes && w.db.volumes[v].bdev.Some? && w.db.volumes[v].bdev.value in w'.spdk.lvols
      ensures w'.spdk.lvols[w.db.volumes[v].bdev.value] == w.db.volumes[v].sizeMb
    {
      if w.db.volumes[v].bdev.value !in w.spdk.lvols {
        AddedSize(w, o, wires, w.db.volumes[v].bdev.value);
      }
    }
  }

  lemma PassSizes(w: World, r: Request)
    requires Sizes(w) && Inv(w) && r.Reconcile?
    ensures Sizes(Step(w, r))
  {
    hide Sizes, Inv, OrderOf, Reconciled;
    if OrderOf(r.order, w.db) {
      ReconcileSizes(w, r.order, r.wires);
    }
  }

  lemma OtherSizes(w: World, r: Request)
    requires Sizes(w) && Inv(Step(w, r))
    requires !r.NewVolume? && !r.RemoveVolume? && !r.Extend? && !r.Expand? && !r.Map? && !r.Unmap? && !r.ApplySpec?
        && !r.Reconcile?
    ensures Sizes(Step(w, r))
  {
    hide Inv, Sizes, Step;
    QuietSizes(w, r);
    SizesFrame(w, Step(w, r));
  }

  lemma StepSizes(w: World, r: Request, h: Hyp)
    requires Good(w, h) && Allowed(w, r, h) && Sizes(w)
    ensures Sizes(Step(w, r))
  {
    hide Inv, Sizes, Allowed, Step, ExportInv, SizeAgree, NvmeComplete, StatusExact;
    StepGood(w, r, h);
    if r.NewVolume? || r.RemoveVolume? || r.Extend? || r.Expand? {
      VolumeSizes(w, r);
    } else if r.Map? {
      MapSizes(w, r);
    } else if r.Unmap? {
      UnmapSizes(w, r);
    } else if r.ApplySpec? {
      ApplySizes(w, r);
    } else if r.Reconcile? {
      PassSizes(w, r);
    } else {
      OtherSizes(w, r);
    }
  }

  /** In every run, restarts included, an lvol a volume row names has exactly the row's size. */
  lemma {:induction false} SizesThroughRun(rs: seq<Request>, h: Hyp)
    requires AllowedRun(START, rs, h)
    ensures Sizes(Run(START, rs))
    decreases |rs|
  {
    if rs != [] {
      var k := |rs| - 1;
      hide Good, Step, Allowed, AllowedRun, Sizes;
      AllowedPrefix(START, rs, h);
      SizesThroughRun(rs[..k], h);
      RunGood(rs[..k], h);
      StepSizes(Run(START, rs[..k]), rs[k], h);
    }
  }

  /** After any export-sound run, restarts included, and a pass whose calls for the volume and its pool
      are served, a volume that is not in error has an lvol of exactly its size. */
  lemma PassRestoresSizes(rs: seq<Request>, h: Hyp, o: RowOrder, wires: Wires, v: Id)
    requires AllowedRun(START, rs, h) && h.exports && OrderOf(o, Run(START, rs).db)
    requires v in LiveVolumes(Run(START, rs).db.volumes)
    requires wires(VolumeSite(v)).Clean() && wires(PoolSite(Run(START, rs).db.volumes[v].pool)).Clean()
    ensures var w := Run(START, rs);
      var s := Reconciled(w, o, wires).spdk;
      Opens(s, w.db.volumes[v].bdev) && s.lvols[w.db.volumes[v].bdev.value] == w.db.volumes[v].sizeMb
  {
    hide Run, AllowedRun, DbOk, Sound, NoDangling, Distinct, Claims, Provided, Reconciled, OrderOf, SpdkIssued;
    RunGood(rs, h);
    SizesThroughRun(rs, h);
    ClaimsProvide(Run(START, rs).db, Run(START, rs).spdk, v);
    ReconcileSizeIff(Run(START, rs), o, wires, v);
  }
}
