/** Runs of the gateway: any sequence of requests, and what holds after each of them. */
module Runs {
  import opened Model
  import opened Ensure
  import opened Inventory
  import opened Volumes
  import opened Mappings
  import opened Topology
  import A = Apply
  import R = Reconcile
  import opened Invariants
  import opened DbSteps
  import opened ExportSteps
  import opened GoodSteps
  import opened ApplyGood
  import opened ApplyFailure
  import opened ApplyWires

  datatype Request =
    | NewArray(name: string)
    | NewEndpoint(arr: Id, protocol: Protocol, target: string, listeners: seq<string>)
    | ChangeEndpoint(id: Id, newTarget: Option<string>, newListeners: Option<seq<string>>)
    | RemoveEndpoint(id: Id)
    | NewPool(name: string, arr: Id, backend: PoolBackend, poolMb: Option<int>, path: string, wire: Wire)
    | RemovePool(id: Id)
    | MovePool(arr: Id, id: Id)
    | NewHost(name: string, iqns: seq<string>, nqns: seq<string>, wwpns: seq<string>)
    | NewPort(id: Id, kind: PortType, port: string)
    | RemoveHost(id: Id)
    | NewVolume(name: string, pool: Id, sizeMb: int, wire: Wire)
    | RemoveVolume(id: Id, wire: Wire)
    | Extend(id: Id, newSizeMb: int, wire: Wire)
    | Expand(id: Id, deltaMb: int, wire: Wire)
    | Map(args: MapArgs, wire: Wire)
    | Unmap(id: Id, wire: Wire)
    | ApplySpec(spec: TopologySpec, base: int, itemWires: A.Item -> Wire)
    | RestartSpdk
    | Reconcile(order: R.RowOrder, wires: R.Wires)

  const START := World(EMPTY_DB, EMPTY_SPDK, 0)

  /** A failed apply discards its rows, not its SPDK calls. */
  function Applied(w: World, out: (World, Result<A.Summary>)): World {
    if out.1.Ok? then out.0 else out.0.(db := w.db)
  }

  /** The committed state after one request.  Creating and extending a volume commit after an
      error too; every other request commits on success only. */
  ghost function Step(w: World, r: Request): World {
    match r
    case NewArray(name) => Committed(w, CreateArray(w, name))
    case NewEndpoint(arr, p, target, listeners) => Committed(w, CreateEndpoint(w, arr, p, target, listeners))
    case ChangeEndpoint(id, target, listeners) => Committed(w, UpdateEndpoint(w, id, target, listeners))
    case RemoveEndpoint(id) => Committed(w, DeleteEndpoint(w, id))
    case NewPool(name, arr, backend, sizeMb, path, wire) =>
      Committed(w, CreatePool(w, name, arr, backend, sizeMb, path, wire))
    case RemovePool(id) => Committed(w, DeletePool(w, id))
    case MovePool(arr, id) => Committed(w, AttachPool(w, arr, id))
    case NewHost(name, iqns, nqns, wwpns) => Committed(w, CreateHost(w, name, iqns, nqns, wwpns))
    case NewPort(id, kind, port) => Committed(w, AddHostPort(w, id, kind, port))
    case RemoveHost(id) => Committed(w, DeleteHost(w, id))
    case NewVolume(name, pool, sizeMb, wire) => CreateVolume(w, name, pool, sizeMb, wire).w
    case RemoveVolume(id, wire) => Committed(w, DeleteVolume(w, id, wire))
    case Extend(id, newSizeMb, wire) => ExtendVolume(w, id, newSizeMb, wire).w
    case Expand(id, deltaMb, wire) => Committed(w, ExpandVolume(w, id, deltaMb, wire))
    case Map(args, wire) => Committed(w, CreateMapping(w, args, wire))
    case Unmap(id, wire) => Committed(w, DeleteMapping(w, id, wire))
    case ApplySpec(spec, base, wires) => Applied(w, A.ApplyTopology(w, spec, base, wires))
    case RestartSpdk => w.(spdk := EMPTY_SPDK)
    case Reconcile(order, wires) => if R.OrderOf(order, w.db) then R.Reconciled(w, order, wires) else w
  }

  /** The steps a run with hypotheses `h` may take: endpoints are removed only when unreferenced and
      pools moved only when empty; `h` rules out the requests its claims do not survive. */
  ghost predicate Allowed(w: World, r: Request, h: Hyp) {
    match r
    case NewEndpoint(arr, p, target, listeners) => h.exports ==> NewTargetOk(w.db, w.serial, p, target)
    case ChangeEndpoint(id, target, listeners) => h.exports ==> TargetFixed(w.db, id, target)
    case RemoveEndpoint(id) => Unreferenced(w.db, id)
    case MovePool(arr, id) => VolumesIn(w.db, id) == {} && !h.exports
    case Extend(id, newSizeMb, wire) => h.exact ==> MappingsOf(w.db, id) == {}
    case Expand(id, deltaMb, wire) => h.exact ==> MappingsOf(w.db, id) == {}
    case Unmap(id, wire) => h.exports ==> CleanDelete(w, id, wire)
    case ApplySpec(spec, base, wires) =>
      var out := A.ApplyTopology(w, spec, base, wires);
      h.exports ==> if out.1.Ok? then Distinct(out.0.db.endpoints) else LeavesNoLun(w, spec, base, wires)
    case RestartSpdk => !h.steady
    case _ => true
  }

  ghost function Run(w: World, rs: seq<Request>): World {
    if rs == [] then w else Step(Run(w, rs[..|rs| - 1]), rs[|rs| - 1])
  }

  ghost predicate AllowedRun(w: World, rs: seq<Request>, h: Hyp) {
    forall k :: 0 <= k < |rs| ==> Allowed(Run(w, rs[..k]), rs[k], h)
  }

  // ---- One request ------------------------------------------------------------------------

  lemma ApplyGoodStep(w: World, h: Hyp, spec: TopologySpec, base: int, wires: A.Item -> Wire)
    requires Good(w, h) && Allowed(w, ApplySpec(spec, base, wires), h)
    ensures Good(Applied(w, A.ApplyTopology(w, spec, base, wires)), h)
  {
    var out := A.ApplyTopology(w, spec, base, wires);
    hide A.ApplyTopology, Good, Inv, Distinct, Extends, LeavesNoLun, SameTables;
    if out.1.Ok? {
      ApplyLater(w, h, spec, base, wires);
    } else {
      GoodFresh(w, h);
      if h.exports {
        FailedApplyQuiet(w, spec, base, wires);
      }
      FailedApplyGood(w, h, spec, base, wires);
    }
  }

  lemma StepGood(w: World, r: Request, h: Hyp)
    requires Good(w, h) && Allowed(w, r, h)
    ensures Good(Step(w, r), h)
  {
    hide Good, Committed, CreateArray, CreateEndpoint, UpdateEndpoint, DeleteEndpoint, CreatePool, DeletePool,
         AttachPool, CreateHost, AddHostPort, DeleteHost, CreateVolume, DeleteVolume, ExtendVolume, CreateMapping,
         DeleteMapping, Applied, R.Reconciled, NewTargetOk, TargetFixed, Unreferenced, CleanDelete, Distinct,
         LeavesNoLun, A.ApplyTopology, R.OrderOf, VolumesIn, MappingsOf;
    match r
    case NewArray(name) => CreateArrayGood(w, h, name);
    case NewEndpoint(arr, p, target, listeners) => CreateEndpointGood(w, h, arr, p, target, listeners);
    case ChangeEndpoint(id, target, listeners) => UpdateEndpointGood(w, h, id, target, listeners);
    case RemoveEndpoint(id) => DeleteEndpointGood(w, h, id);
    case NewPool(name, arr, backend, sizeMb, path, wire) =>
      CreatePoolGood(w, h, name, arr, backend, sizeMb, path, wire);
    case RemovePool(id) => DeletePoolGood(w, h, id);
    case MovePool(arr, id) => AttachPoolGood(w, h, arr, id);
    case NewHost(name, iqns, nqns, wwpns) => CreateHostGood(w, h, name, iqns, nqns, wwpns);
    case NewPort(id, kind, port) => AddHostPortGood(w, h, id, kind, port);
    case RemoveHost(id) => DeleteHostGood(w, h, id);
    case NewVolume(name, pool, sizeMb, wire) => CreateVolumeGood(w, h, name, pool, sizeMb, wire);
    case RemoveVolume(id, wire) => DeleteVolumeGood(w, h, id, wire);
    case Extend(id, newSizeMb, wire) => ExtendVolumeGood(w, h, id, newSizeMb, wire);
    case Expand(id, deltaMb, wire) => ExpandVolumeGood(w, h, id, deltaMb, wire);
    case Map(args, wire) => CreateMappingGood(w, h, args, wire);
    case Unmap(id, wire) => DeleteMappingGood(w, h, id, wire);
    case ApplySpec(spec, base, wires) => ApplyGoodStep(w, h, spec, base, wires);
    case RestartSpdk => RestartGood(w, h);
    case Reconcile(order, wires) => if R.OrderOf(order, w.db) { ReconcileGood(w, h, order, wires); }
  }

  lemma ExpandVolumeGood(w: World, h: Hyp, id: Id, deltaMb: int, wire: Wire)
    requires Good(w, h) && (h.exact ==> MappingsOf(w.db, id) == {})
    ensures Good(Committed(w, ExpandVolume(w, id, deltaMb, wire)), h)
  {
    hide Good, ExtendVolume, MappingsOf;
    if id in w.db.volumes {
      ExtendVolumeGood(w, h, id, w.db.volumes[id].sizeMb + deltaMb, wire);
    }
  }

  // ---- All requests -------------------------------------------------------------------------

  lemma AllowedPrefix(w: World, rs: seq<Request>, h: Hyp)
    requires AllowedRun(w, rs, h) && rs != []
    ensures AllowedRun(w, rs[..|rs| - 1], h) && Allowed(Run(w, rs[..|rs| - 1]), rs[|rs| - 1], h)
  {
    hide Allowed, Run;
    assert forall j :: 0 <= j < |rs| - 1 ==> rs[..|rs| - 1][..j] == rs[..j];
  }

  lemma {:induction false} GoodForever(w: World, rs: seq<Request>, h: Hyp)
    requires Good(w, h) && AllowedRun(w, rs, h)
    ensures Good(Run(w, rs), h)
    decreases |rs|
  {
    if rs != [] {
      var k := |rs| - 1;
      hide Good, Step, Allowed, AllowedRun;
      AllowedPrefix(w, rs, h);
      GoodForever(w, rs[..k], h);
      StepGood(Run(w, rs[..k]), rs[k], h);
    }
  }

  /** Every state of every allowed run from the empty gateway satisfies the invariants. */
  lemma RunGood(rs: seq<Request>, h: Hyp)
    requires AllowedRun(START, rs, h)
    ensures Good(Run(START, rs), h)
  {
    Initially();
    assert Good(START, h);
    hide Good, AllowedRun;
    GoodForever(START, rs, h);
  }
}
