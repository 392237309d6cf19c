/** No id in use exceeds its start value by the peak number of simultaneous mappings of its group. */
module TightIds {
  import opened Model
  import opened Ensure
  import opened Volumes
  import opened Mappings
  import opened Alloc
  import opened Topology
  import A = Apply
  import R = Reconcile
  import opened Invariants
  import opened DbSteps
  import opened SteadySteps
  import opened GoodSteps
  import opened ReconcileSound
  import opened ApplyGood
  import opened ApplyResidue
  import opened Runs

  /** The rows that draw ids from one pool of numbers: the LUNs a host sees on a persona endpoint,
      or the LUNs or NSIDs of an underlay endpoint. */
  datatype Group = AtHost(host: Id, persona: Id) | OnUnderlay(endpoint: Id)

  function Rows(db: Db, g: Group): set<Id> {
    match g
    case AtHost(h, p) => set m | m in db.mappings && db.mappings[m].host == h && db.mappings[m].persona == p
    case OnUnderlay(e) => set m | m in db.mappings && db.mappings[m].underlay == e
  }

  function IdIn(g: Group, m: Mapping): int { if g.AtHost? then m.lun else m.under }

  function StartIn(db: Db, g: Group, base: int): int {
    match g
    case AtHost(_, _) => 0
    case OnUnderlay(e) => if e in db.endpoints then StartOf(db.endpoints[e].protocol, base) else base
  }

  function Used(db: Db, g: Group): set<int> {
    match g
    case AtHost(h, p) => UsedLuns(db, h, p)
    case OnUnderlay(e) => UsedUnder(db, e)
  }

  ghost predicate Tight(db: Db, g: Group, base: int, peak: nat) {
    forall m :: m in Rows(db, g) ==> IdIn(g, db.mappings[m]) < StartIn(db, g, base) + peak
  }

  function Image(rows: set<Id>, ids: map<Id, int>): set<int>
    requires rows <= ids.Keys
  {
    set m | m in rows :: ids[m]
  }

  lemma {:induction false} ImageSize(rows: set<Id>, ids: map<Id, int>)
    requires rows <= ids.Keys
    ensures |Image(rows, ids)| <= |rows|
    decreases rows
  {
    if rows != {} {
      var m :| m in rows;
      ImageSize(rows - {m}, ids);
      assert Image(rows, ids) == Image(rows - {m}, ids) + {ids[m]};
    }
  }

  lemma SubsetSize<T>(a: set<T>, b: set<T>)
    requires a <= b
    ensures |a| <= |b|
  {
    assert b == a + (b - a);
  }

  lemma UsedSize(db: Db, g: Group)
    ensures |Used(db, g)| <= |Rows(db, g)|
  {
    var ids := map m | m in db.mappings :: IdIn(g, db.mappings[m]);
    forall x | x in Used(db, g)
      ensures x in Image(Rows(db, g), ids)
    {
      var m :| m in Rows(db, g) && IdIn(g, db.mappings[m]) == x;
    }
    assert Used(db, g) <= Image(Rows(db, g), ids);
    SubsetSize(Used(db, g), Image(Rows(db, g), ids));
    ImageSize(Rows(db, g), ids);
  }

  // ---- One new row --------------------------------------------------------------------------

  /** The new row takes the least free id of each of its groups. */
  lemma NewRow(w: World, a: MapArgs, wire: Wire, g: Group)
    requires Inv(w) && CreateMapping(w, a, wire).r.Ok?
    ensures var w' := CreateMapping(w, a, wire).w;
      && w.serial !in w.db.mappings && w.serial in w'.db.mappings && w'.db.endpoints == w.db.endpoints
      && w'.db.mappings == w.db.mappings[w.serial := w'.db.mappings[w.serial]]
      && (w.serial in Rows(w'.db, g) ==>
            IdIn(g, w'.db.mappings[w.serial]) == LeastFree(Used(w.db, g), StartIn(w.db, g, a.base)))
  {
    SerialFresh(w);
    hide Inv, WireUnderlay, LeastFree;
  }

  lemma RowAdded(db: Db, db': Db, id: Id, g: Group, base: int, peak: nat)
    requires id !in db.mappings && id in db'.mappings && db'.endpoints == db.endpoints
    requires db'.mappings == db.mappings[id := db'.mappings[id]]
    requires id in Rows(db', g) ==> IdIn(g, db'.mappings[id]) == LeastFree(Used(db, g), StartIn(db, g, base))
    requires Tight(db, g, base, peak) && |Rows(db', g)| <= peak
    ensures Tight(db', g, base, peak)
  {
    MoreRows(db, db', id, g);
    assert StartIn(db', g, base) == StartIn(db, g, base);
    hide Used, StartIn, LeastFree, Rows;
    if id in Rows(db', g) {
      UsedSize(db, g);
      LeastFreeTight(Used(db, g), StartIn(db, g, base));
    }
  }

  lemma MoreRows(db: Db, db': Db, id: Id, g: Group)
    requires id !in db.mappings && id in db'.mappings && db'.mappings == db.mappings[id := db'.mappings[id]]
    ensures id !in Rows(db, g) && Rows(db', g) == Rows(db, g) + (if id in Rows(db', g) then {id} else {})
    ensures forall m :: m in Rows(db, g) ==> m in db.mappings && db'.mappings[m] == db.mappings[m]
  {
  }

  lemma RowsRemoved(db: Db, db': Db, id: Id, g: Group, base: int, peak: nat)
    requires db'.mappings == db.mappings - {id} && db'.endpoints == db.endpoints && Tight(db, g, base, peak)
    ensures Tight(db', g, base, peak)
  {
  }

  /** The rows stay and their endpoints keep their protocol. */
  lemma RowsKept(db: Db, db': Db, g: Group, base: int, peak: nat)
    requires MappingsOk(db.endpoints, db.volumes, db.hosts, db.mappings) && Tight(db, g, base, peak)
        && db'.mappings == db.mappings
    requires forall e :: e in db.endpoints && !Unreferenced(db, e) ==>
        e in db'.endpoints && db'.endpoints[e].protocol == db.endpoints[e].protocol
    ensures Tight(db', g, base, peak)
  {
  }

  // ---- One request ----------------------------------------------------------------------------

  predicate ChangesMappings(r: Request) { r.Map? || r.Unmap? || r.ApplySpec? }

  predicate ChangesEndpoints(r: Request) { r.NewEndpoint? || r.ChangeEndpoint? || r.RemoveEndpoint? }

  lemma OtherRequests(w: World, r: Request, h: Hyp)
    requires Good(w, h) && Allowed(w, r, h) && !ChangesMappings(r)
    ensures Step(w, r).db.mappings == w.db.mappings
    ensures forall e :: e in w.db.endpoints && !Unreferenced(w.db, e) ==>
      e in Step(w, r).db.endpoints && Step(w, r).db.endpoints[e].protocol == w.db.endpoints[e].protocol
  {
    assert Inv(w);
    SerialFresh(w);
    hide Good, Inv, Unreferenced, Step;
    if ChangesEndpoints(r) {
      EndpointRequests(w, r);
    } else if r.NewVolume? || r.RemoveVolume? || r.Extend? || r.Expand? {
      VolumeRequests(w, r);
    } else {
      InventoryRequests(w, r);
    }
  }

  lemma EndpointRequests(w: World, r: Request)
    requires ChangesEndpoints(r) && w.serial !in w.db.endpoints && (r.RemoveEndpoint? ==> Unreferenced(w.db, r.id))
    ensures Step(w, r).db.mappings == w.db.mappings
    ensures forall e :: e in w.db.endpoints && !Unreferenced(w.db, e) ==>
      e in Step(w, r).db.endpoints && Step(w, r).db.endpoints[e].protocol == w.db.endpoints[e].protocol
  {
    hide Unreferenced;
    match r
    case NewEndpoint(arr, p, target, listeners) =>
    case ChangeEndpoint(id, target, listeners) =>
    case RemoveEndpoint(id) =>
  }

  lemma VolumeRequests(w: World, r: Request)
    requires r.NewVolume? || r.RemoveVolume? || r.Extend? || r.Expand?
    ensures Step(w, r).db.mappings == w.db.mappings && Step(w, r).db.endpoints == w.db.endpoints
  {
    hide CreateVolume, DeleteVolume, ExtendVolume;
    match r
    case NewVolume(name, pool, sizeMb, wire) => CreateKeeps(w, name, pool, sizeMb, wire);
    case RemoveVolume(id, wire) => DeleteKeeps(w, id, wire);
    case Extend(id, newSizeMb, wire) => ExtendKeeps(w, id, newSizeMb, wire);
    case Expand(id, deltaMb, wire) =>
      if id in w.db.volumes {
        ExtendKeeps(w, id, w.db.volumes[id].sizeMb + deltaMb, wire);
      }
  }

  lemma CreateKeeps(w: World, name: string, pool: Id, sizeMb: int, wire: Wire)
    ensures var r := CreateVolume(w, name, pool, sizeMb, wire).w; r.db == w.db.(volumes := r.db.volumes)
  {
  }

  lemma DeleteKeeps(w: World, id: Id, wire: Wire)
    ensures var r := DeleteVolume(w, id, wire).w; r.db == w.db.(volumes := r.db.volumes)
  {
    hide LvolDeleted;
  }

  lemma ExtendKeeps(w: World, id: Id, newSizeMb: int, wire: Wire)
    ensures var r := ExtendVolume(w, id, newSizeMb, wire).w; r.db == w.db.(volumes := r.db.volumes)
  {
  }

  lemma InventoryRequests(w: World, r: Request)
    requires Inv(w) && !ChangesMappings(r) && !ChangesEndpoints(r) && !r.NewVolume? && !r.RemoveVolume? && !r.Extend?
        && !r.Expand?
    ensures Step(w, r).db.mappings == w.db.mappings && Step(w, r).db.endpoints == w.db.endpoints
  {
    hide Inv, R.Reconciled, SamePools, R.OrderOf, PoolEnsured;
    match r
    case Reconcile(o, wires) => if R.OrderOf(o, w.db) { ReconcileInv(w, o, wires); }
    case _ =>
  }

  lemma {:induction false} PhaseTight(w: World, hosts: map<string, Id>, volumes: map<string, Id>,
          xs: seq<MappingSpec>, base: int, wires: A.Item -> Wire, g: Group, peak: nat)
    requires Good(w, Hyp(false, false, false)) && A.MappingPhase(w, hosts, volumes, xs, base, wires).err.None?
    requires Tight(w.db, g, base, peak) && |Rows(A.MappingPhase(w, hosts, volumes, xs, base, wires).w.db, g)| <= peak
    ensures Tight(A.MappingPhase(w, hosts, volumes, xs, base, wires).w.db, g, base, peak)
    decreases |xs|
  {
    if xs != [] {
      var k := |xs| - 1;
      var weak := Hyp(false, false, false);
      var x := A.MappingPhase(w, hosts, volumes, xs[..k], base, wires);
      hide Good, Extends, A.MappingStep, Tight, Rows;
      MappingPhaseLater(w, weak, hosts, volumes, xs[..k], base, wires);
      MappingStepLater(x, weak, hosts, volumes, xs[k], base, wires(A.MappingItem(k)));
      FewerRows(x.w.db, A.MappingPhase(w, hosts, volumes, xs, base, wires).w.db, g);
      PhaseTight(w, hosts, volumes, xs[..k], base, wires, g, peak);
      MappingStepTight(x, hosts, volumes, xs[k], base, wires(A.MappingItem(k)), g, peak);
    }
  }

  lemma FewerRows(db: Db, db': Db, g: Group)
    requires Extends(db, db')
    ensures |Rows(db, g)| <= |Rows(db', g)|
  {
    SubsetSize(Rows(db, g), Rows(db', g));
  }

  lemma MappingStepTight(x: A.Phase, hosts: map<string, Id>, volumes: map<string, Id>, m: MappingSpec, base: int,
                         wire: Wire, g: Group, peak: nat)
    requires Good(x.w, Hyp(false, false, false)) && x.err.None?
        && A.MappingStep(x, hosts, volumes, m, base, wire).err.None?
    requires Tight(x.w.db, g, base, peak) && |Rows(A.MappingStep(x, hosts, volumes, m, base, wire).w.db, g)| <= peak
    ensures Tight(A.MappingStep(x, hosts, volumes, m, base, wire).w.db, g, base, peak)
  {
    hide Inv, CreateMapping, Tight, Rows, LeastFree, Used, StartIn;
    if A.MappingStep(x, hosts, volumes, m, base, wire).w != x.w {
      var a := A.Request(hosts[m.host], volumes[m.volume], m.protocol, base);
      NewRow(x.w, a, wire, g);
      RowAdded(x.w.db, CreateMapping(x.w, a, wire).w.db, x.w.serial, g, base, peak);
    }
  }

  lemma ApplyTight(w: World, h: Hyp, spec: TopologySpec, base: int, wires: A.Item -> Wire, g: Group, peak: nat)
    requires Good(w, h) && A.ApplyTopology(w, spec, base, wires).1.Ok?
    requires Tight(w.db, g, base, peak) && |Rows(A.ApplyTopology(w, spec, base, wires).0.db, g)| <= peak
    ensures Tight(A.ApplyTopology(w, spec, base, wires).0.db, g, base, peak)
  {
    var weak := Hyp(false, false, false);
    var v := A.VolumesOf(w, spec, wires);
    hide Good, Inv, Extends, A.Arrays, A.Pools, A.Hosts, A.VolumesOf, A.MappingPhase, Tight, Rows, Residue, DbOk;
    GoodFresh(w, h);
    ApplyLater(w, weak, spec, base, wires);
    StagesLater(w, weak, spec, base, wires);
    LaterTrans(w, A.Arrays(w, spec).w, A.Pools(w, spec, wires).w, weak);
    LaterTrans(w, A.Pools(w, spec, wires).w, A.Hosts(w, spec, wires).w, weak);
    LaterTrans(w, A.Hosts(w, spec, wires).w, v.w, weak);
    BeforeMappings(w, spec, wires);
    GoodRows(w, h);
    KeptByExtends(w.db, v.w.db, g, base, peak);
    PhaseTight(v.w, A.Hosts(w, spec, wires).objs, v.objs, spec.mappings, base, wires, g, peak);
  }

  lemma GoodRows(w: World, h: Hyp)
    requires Good(w, h)
    ensures DbOk(w.db)
  {
  }

  lemma KeptByExtends(db: Db, db': Db, g: Group, base: int, peak: nat)
    requires Extends(db, db') && db'.mappings == db.mappings && Tight(db, g, base, peak)
    requires DbOk(db)
    ensures Tight(db', g, base, peak)
  {
  }

  predicate BaseIs(r: Request, base: int) {
    (r.Map? ==> r.args.base == base) && (r.ApplySpec? ==> r.base == base)
  }

  lemma StepTight(w: World, r: Request, h: Hyp, g: Group, base: int, peak: nat)
    requires Good(w, h) && Allowed(w, r, h) && BaseIs(r, base)
    requires Tight(w.db, g, base, peak) && |Rows(Step(w, r).db, g)| <= peak
    ensures Tight(Step(w, r).db, g, base, peak)
  {
    hide DbOk, ExportInv, SizeAgree, NvmeComplete, StatusExact, Issued, Allowed, CreateMapping, DeleteMapping,
         A.ApplyTopology, Tight, Rows, Used, StartIn, LeastFree;
    if !ChangesMappings(r) {
      OtherRequests(w, r, h);
      hide Step;
      KeptRows(w.db, Step(w, r).db, g, base, peak);
    } else {
      match r
      case Map(a, wire) =>
        if CreateMapping(w, a, wire).r.Ok? {
          NewRow(w, a, wire, g);
          RowAdded(w.db, CreateMapping(w, a, wire).w.db, w.serial, g, base, peak);
        }
      case Unmap(id, wire) =>
        if DeleteMapping(w, id, wire).r.Ok? {
          RowsGone(w, id, wire);
          RowsRemoved(w.db, DeleteMapping(w, id, wire).w.db, id, g, base, peak);
        }
      case ApplySpec(spec, b, wires) =>
        if A.ApplyTopology(w, spec, base, wires).1.Ok? {
          ApplyTight(w, h, spec, base, wires, g, peak);
        }
    }
  }

  lemma RowsGone(w: World, id: Id, wire: Wire)
    requires DeleteMapping(w, id, wire).r.Ok?
    ensures DeleteMapping(w, id, wire).w.db.mappings == w.db.mappings - {id}
    ensures DeleteMapping(w, id, wire).w.db.endpoints == w.db.endpoints
  {
  }

  lemma KeptRows(db: Db, db': Db, g: Group, base: int, peak: nat)
    requires DbOk(db) && Tight(db, g, base, peak) && db'.mappings == db.mappings
    requires forall e :: e in db.endpoints && !Unreferenced(db, e) ==>
        e in db'.endpoints && db'.endpoints[e].protocol == db.endpoints[e].protocol
    ensures Tight(db', g, base, peak)
  {
    hide Tight, MappingsOk, Unreferenced;
    RowsKept(db, db', g, base, peak);
  }

  // ---- All requests -----------------------------------------------------------------------------

  /** `peak` bounds the group after every request of the run. */
  ghost predicate PeakOf(w: World, rs: seq<Request>, g: Group, peak: nat) {
    forall k :: 0 <= k <= |rs| ==> |Rows(Run(w, rs[..k]).db, g)| <= peak
  }

  lemma {:induction false} RunTight(rs: seq<Request>, h: Hyp, g: Group, base: int, peak: nat)
    requires AllowedRun(START, rs, h) && PeakOf(START, rs, g, peak) && forall k :: 0 <= k < |rs| ==> BaseIs(rs[k], base)
    ensures Tight(Run(START, rs).db, g, base, peak)
    decreases |rs|
  {
    if rs != [] {
      var k := |rs| - 1;
      PeakPrefix(rs, g, peak);
      hide Good, Step, Allowed, AllowedRun, Tight, Rows, PeakOf;
      AllowedPrefix(START, rs, h);
      RunTight(rs[..k], h, g, base, peak);
      RunGood(rs[..k], h);
      StepTight(Run(START, rs[..k]), rs[k], h, g, base, peak);
    }
  }

  lemma PeakPrefix(rs: seq<Request>, g: Group, peak: nat)
    requires PeakOf(START, rs, g, peak) && rs != []
    ensures PeakOf(START, rs[..|rs| - 1], g, peak) && |Rows(Run(START, rs).db, g)| <= peak
  {
    hide Run, Rows;
    var before := rs[..|rs| - 1];
    forall j | 0 <= j <= |before|
      ensures |Rows(Run(START, before[..j]).db, g)| <= peak
    {
      assert before[..j] == rs[..j];
    }
    assert rs[..|rs|] == rs;
  }

  /** With a fixed base, every LUN, underlay LUN and NSID lies below its start value (0, the base,
      or 1) plus the largest number of mappings its group ever had at one time. */
  lemma IdsStayLow(rs: seq<Request>, h: Hyp, g: Group, base: int, peak: nat, m: Id)
    requires AllowedRun(START, rs, h) && PeakOf(START, rs, g, peak) && forall k :: 0 <= k < |rs| ==> BaseIs(rs[k], base)
    requires m in Rows(Run(START, rs).db, g)
    ensures IdIn(g, Run(START, rs).db.mappings[m]) < StartIn(Run(START, rs).db, g, base) + peak
  {
    RunTight(rs, h, g, base, peak);
    hide Run, AllowedRun, PeakOf;
  }
}
