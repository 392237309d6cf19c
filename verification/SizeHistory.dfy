/** Volume sizes over a run. */
module SizeHistory {
  import opened Model
  import opened Ensure
  import opened Volumes
  import opened Mappings
  import A = Apply
  import R = Reconcile
  import opened Invariants
  import opened DbSteps
  import opened GoodSteps
  import opened ReconcileSound
  import opened ApplyGood
  import opened ApplyResidue
  import opened Runs

  /** What a request asks a volume to grow by, counted when the request succeeds. */
  function Growth(w: World, r: Request, v: Id): int {
    match r
    case Extend(id, newSizeMb, wire) =>
      if id == v && v in w.db.volumes
          && ExtendVolume(w, id, newSizeMb, wire).r.Ok? then newSizeMb - w.db.volumes[v].sizeMb else 0
    case Expand(id, deltaMb, wire) =>
      if id == v && ExpandVolume(w, id, deltaMb, wire).r.Ok? then deltaMb else 0
    case _ => 0
  }

  ghost function TotalGrowth(w: World, rs: seq<Request>, v: Id): int {
    if rs == [] then 0
    else TotalGrowth(w, rs[..|rs| - 1], v) + Growth(Run(w, rs[..|rs| - 1]), rs[|rs| - 1], v)
  }

  /** Between two states: a volume that is in both changed its size by `growth`, and a volume that
      is new has a new id. */
  ghost predicate Sized(w: World, w': World, v: Id, growth: int) {
    && w.serial <= w'.serial && growth >= 0
    && (v in w.db.volumes && v in w'.db.volumes ==> w'.db.volumes[v].sizeMb == w.db.volumes[v].sizeMb + growth)
    && (v in w'.db.volumes ==> v in w.db.volumes || w.serial <= v)
  }

  lemma ExtendSized(w: World, id: Id, newSizeMb: int, wire: Wire, v: Id)
    ensures var res := ExtendVolume(w, id, newSizeMb, wire);
      var growth := if id == v && v in w.db.volumes && res.r.Ok? then newSizeMb - w.db.volumes[v].sizeMb else 0;
      Sized(w, res.w, v, growth) && Sized(w, Committed(w, res), v, growth)
  {
    hide LvolResized;
  }

  lemma VolumeSized(w: World, r: Request, v: Id)
    requires r.NewVolume? || r.RemoveVolume? || r.Extend? || r.Expand?
    requires w.serial !in w.db.volumes
    ensures Sized(w, Step(w, r), v, Growth(w, r, v))
  {
    hide Sized, CreateVolume, DeleteVolume, ExtendVolume, Committed;
    match r
    case NewVolume(name, pool, sizeMb, wire) => CreateSized(w, name, pool, sizeMb, wire, v);
    case RemoveVolume(id, wire) => DeleteSized(w, id, wire, v);
    case Extend(id, newSizeMb, wire) => ExtendSized(w, id, newSizeMb, wire, v);
    case Expand(id, deltaMb, wire) =>
      if id in w.db.volumes {
        ExtendSized(w, id, w.db.volumes[id].sizeMb + deltaMb, wire, v);
      } else {
        FailedSized(w, r, v);
      }
  }

  lemma CreateSized(w: World, name: string, pool: Id, sizeMb: int, wire: Wire, v: Id)
    requires w.serial !in w.db.volumes
    ensures Sized(w, CreateVolume(w, name, pool, sizeMb, wire).w, v, 0)
  {
    hide LvsName, LvolEnsured;
  }

  lemma DeleteSized(w: World, id: Id, wire: Wire, v: Id)
    ensures Sized(w, Committed(w, DeleteVolume(w, id, wire)), v, 0)
  {
  }

  lemma FailedSized(w: World, r: Request, v: Id)
    requires r.Expand? && r.id !in w.db.volumes
    ensures Sized(w, Step(w, r), v, 0)
  {
  }

  lemma MappingSized(w: World, r: Request, v: Id)
    requires r.Map? || r.Unmap?
    ensures Sized(w, Step(w, r), v, 0)
  {
    hide WireUnderlay, ResolveEndpoints, Detach, NewUnder;
    match r
    case Map(a, wire) =>
    case Unmap(id, wire) =>
  }

  lemma ApplySized(w: World, r: Request, h: Hyp, v: Id)
    requires r.ApplySpec? && Good(w, h)
    ensures Sized(w, Step(w, r), v, 0)
  {
    var weak := Hyp(false, false, false);
    hide Inv, A.ApplyTopology, SpdkIssued;
    GoodFresh(w, h);
    ApplyResidues(w, r.spec, r.base, r.itemWires);
    if A.ApplyTopology(w, r.spec, r.base, r.itemWires).1.Ok? {
      ApplyLater(w, weak, r.spec, r.base, r.itemWires);
    }
  }

  lemma OtherSized(w: World, r: Request, v: Id)
    requires Inv(w) && !r.NewVolume? && !r.RemoveVolume? && !r.Extend? && !r.Expand? && !r.Map? && !r.Unmap?
        && !r.ApplySpec?
    ensures Sized(w, Step(w, r), v, 0)
  {
    hide Inv, R.Reconciled, SamePools, R.OrderOf, PoolEnsured;
    match r
    case Reconcile(o, wires) =>
      if R.OrderOf(o, w.db) {
        ReconcileInv(w, o, wires);
        ReconcileSerial(w, o, wires);
      }
    case _ =>
  }

  lemma ReconcileSerial(w: World, o: R.RowOrder, wires: R.Wires)
    requires R.OrderOf(o, w.db)
    ensures R.Reconciled(w, o, wires).serial == w.serial
  {
  }

  lemma StepSized(w: World, r: Request, h: Hyp, v: Id)
    requires Good(w, h)
    ensures Sized(w, Step(w, r), v, Growth(w, r, v))
  {
    assert Inv(w);
    SerialFresh(w);
    hide Good, Inv, Step, Sized, ExtendVolume, ExpandVolume;
    if r.NewVolume? || r.RemoveVolume? || r.Extend? || r.Expand? {
      VolumeSized(w, r, v);
    } else if r.Map? || r.Unmap? {
      MappingSized(w, r, v);
    } else if r.ApplySpec? {
      ApplySized(w, r, h, v);
    } else {
      OtherSized(w, r, v);
    }
  }

  lemma SizedTrans(a: World, b: World, c: World, v: Id, g: int, g': int)
    requires Sized(a, b, v, g) && Sized(b, c, v, g') && v < a.serial
    ensures Sized(a, c, v, g + g')
  {
  }

  /** Sizes never shrink: whatever happens in between, a volume that is still there has its earlier
      size plus the sum of the growths that were asked for and succeeded; its id was not reused. */
  lemma {:induction false} SizeIsSum(w: World, rs: seq<Request>, h: Hyp, v: Id)
    requires Good(w, h) && AllowedRun(w, rs, h) && v in w.db.volumes
    ensures TotalGrowth(w, rs, v) >= 0
    ensures v in Run(w, rs).db.volumes ==>
        Run(w, rs).db.volumes[v].sizeMb == w.db.volumes[v].sizeMb + TotalGrowth(w, rs, v)
  {
    assert v < w.serial;
    hide Good, AllowedRun, Run, TotalGrowth;
    SizedForever(w, rs, h, v);
  }

  lemma Unrolled(w: World, rs: seq<Request>, v: Id)
    requires rs != []
    ensures var k := |rs| - 1;
      && Run(w, rs) == Step(Run(w, rs[..k]), rs[k])
      && TotalGrowth(w, rs, v) == TotalGrowth(w, rs[..k], v) + Growth(Run(w, rs[..k]), rs[k], v)
  {
    hide Step, Growth;
  }

  lemma SizedRefl(w: World, v: Id)
    ensures Sized(w, Run(w, []), v, TotalGrowth(w, [], v))
  {
  }

  lemma {:induction false} SizedForever(w: World, rs: seq<Request>, h: Hyp, v: Id)
    requires Good(w, h) && AllowedRun(w, rs, h) && v < w.serial
    ensures Sized(w, Run(w, rs), v, TotalGrowth(w, rs, v))
    decreases |rs|
  {
    hide Good, AllowedRun, Step, Allowed, Growth, Sized, Run, TotalGrowth;
    if rs == [] {
      SizedRefl(w, v);
    } else {
      var k := |rs| - 1;
      var x := Run(w, rs[..k]);
      Unrolled(w, rs, v);
      AllowedPrefix(w, rs, h);
      SizedForever(w, rs[..k], h, v);
      GoodForever(w, rs[..k], h);
      StepSized(x, rs[k], h, v);
      SizedTrans(w, x, Step(x, rs[k]), v, TotalGrowth(w, rs[..k], v), Growth(x, rs[k], v));
    }
  }
}
