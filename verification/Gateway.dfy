/** The gateway: one session per request, and the boundary between commit and discard. */
module Gateway {
  import opened Model
  import opened SpdkClient
  import opened DbSessions
  import opened Runs
  import opened GoodSteps
  import I = Inventory
  import V = Volumes
  import M = Mappings
  import R = Reconcile
  import A = Apply
  import IS = InventoryService
  import VS = VolumeService
  import MS = MappingService
  import RS = ReconcileService
  import AS = ApplyService

  /** Commit on success; an error leaves the request without a commit. */
  method Finish(session: DbSession, r: Result<Id>)
    modifies session
    ensures session.committed == (if r.Ok? then old(session.Working()) else old(session.committed))
    ensures session.Working() == session.committed && session.serial == old(session.serial)
  {
    if r.Ok? { session.Commit(); } else { session.Rollback(); }
  }

  method ServeInventory(session: DbSession, spdk: SpdkTarget, request: Request) returns (r: Result<Id>)
    requires session.Working() == session.committed
    requires !request.NewVolume? && !request.RemoveVolume? && !request.Extend? && !request.Expand? && !request.Map?
        && !request.Unmap?
    requires !request.ApplySpec? && !request.RestartSpdk? && !request.Reconcile?
    modifies session, spdk
    ensures CommittedWorld(session, spdk) == Step(old(CommittedWorld(session, spdk)), request)
    ensures session.Working() == session.committed
  {
    hide I.CreateArray, I.CreateEndpoint, I.UpdateEndpoint, I.DeleteEndpoint, I.CreatePool, I.DeletePool,
         I.AttachPool, I.CreateHost, I.AddHostPort, I.DeleteHost;
    match request {
      case NewArray(name) => r := IS.CreateArray(session, spdk, name);
      case NewEndpoint(arr, p, target, listeners) => r := IS.CreateEndpoint(session, spdk, arr, p, target, listeners);
      case ChangeEndpoint(id, target, listeners) => r := IS.UpdateEndpoint(session, spdk, id, target, listeners);
      case RemoveEndpoint(id) => r := IS.DeleteEndpoint(session, spdk, id);
      case NewPool(name, arr, backend, poolMb, path, wire) =>
        r := IS.CreatePool(session, spdk, name, arr, backend, poolMb, path, wire);
      case RemovePool(id) => r := IS.DeletePool(session, spdk, id);
      case MovePool(arr, id) => r := IS.AttachPool(session, spdk, arr, id);
      case NewHost(name, iqns, nqns, wwpns) => r := IS.CreateHost(session, spdk, name, iqns, nqns, wwpns);
      case NewPort(id, kind, port) => r := IS.AddHostPort(session, spdk, id, kind, port);
      case RemoveHost(id) => r := IS.DeleteHost(session, spdk, id);
    }
    Finish(session, r);
  }

  /** Creating and extending commit after an error too, to keep the row in error. */
  method ServeVolumes(session: DbSession, spdk: SpdkTarget, request: Request) returns (r: Result<Id>)
    requires session.Working() == session.committed
    requires request.NewVolume? || request.RemoveVolume? || request.Extend? || request.Expand?
    modifies session, spdk
    ensures CommittedWorld(session, spdk) == Step(old(CommittedWorld(session, spdk)), request)
    ensures session.Working() == session.committed
  {
    hide V.CreateVolume, V.DeleteVolume, V.ExtendVolume, V.ExpandVolume;
    match request {
      case NewVolume(name, pool, sizeMb, wire) =>
        r := VS.CreateVolume(session, spdk, name, pool, sizeMb, wire);
        session.Commit();
      case RemoveVolume(id, wire) =>
        r := VS.DeleteVolume(session, spdk, id, wire);
        Finish(session, r);
      case Extend(id, newSizeMb, wire) =>
        r := VS.ExtendVolume(session, spdk, id, newSizeMb, wire);
        session.Commit();
      case Expand(id, deltaMb, wire) =>
        r := VS.ExpandVolume(session, spdk, id, deltaMb, wire);
        Finish(session, r);
    }
  }

  method ServeMappings(session: DbSession, spdk: SpdkTarget, request: Request) returns (r: Result<Id>)
    requires session.Working() == session.committed
    requires request.Map? || request.Unmap?
    modifies session, spdk
    ensures CommittedWorld(session, spdk) == Step(old(CommittedWorld(session, spdk)), request)
    ensures session.Working() == session.committed
  {
    hide M.CreateMapping, M.DeleteMapping;
    match request {
      case Map(args, wire) =>
        r := MS.CreateMapping(session, spdk, args, wire);
        Finish(session, r);
      case Unmap(id, wire) =>
        r := MS.DeleteMapping(session, spdk, id, wire);
        Finish(session, r);
    }
  }

  method Serve(session: DbSession, spdk: SpdkTarget, request: Request)
    requires session.Working() == session.committed
    requires request.Reconcile? ==> R.OrderOf(request.order, session.Working())
    modifies session, spdk
    ensures CommittedWorld(session, spdk) == Step(old(CommittedWorld(session, spdk)), request)
    ensures session.Working() == session.committed
  {
    hide I.CreateArray, I.CreateEndpoint, I.UpdateEndpoint, I.DeleteEndpoint, I.CreatePool, I.DeletePool,
         I.AttachPool, I.CreateHost, I.AddHostPort, I.DeleteHost, V.CreateVolume, V.DeleteVolume, V.ExtendVolume,
         V.ExpandVolume, M.CreateMapping, M.DeleteMapping, R.Reconciled, A.ApplyTopology, R.OrderOf;
    if request.ApplySpec? {
      var summary := AS.ApplyTopology(session, spdk, request.spec, request.base, request.itemWires);
      if summary.Err? { session.Rollback(); }
    } else if request.RestartSpdk? {
      spdk.Restart();
    } else if request.Reconcile? {
      RS.Reconcile(session, spdk, request.order, request.wires);
    } else if request.NewVolume? || request.RemoveVolume? || request.Extend? || request.Expand? {
      var r := ServeVolumes(session, spdk, request);
    } else if request.Map? || request.Unmap? {
      var r := ServeMappings(session, spdk, request);
    } else {
      var r := ServeInventory(session, spdk, request);
    }
  }

  /** Row orders given to the reconciler list the rows of their time. */
  ghost predicate OrdersListed(w: World, requests: seq<Request>) {
    forall k :: 0 <= k < |requests| && requests[k].Reconcile? ==> R.OrderOf(requests[k].order, Run(w, requests[..k]).db)
  }

  /** Serving requests one after the other from the empty gateway is a run, so every invariant of
      allowed runs holds of the committed tables and the SPDK target. */
  method ServeAll(requests: seq<Request>, ghost h: Hyp) returns (session: DbSession, spdk: SpdkTarget)
    requires AllowedRun(START, requests, h) && OrdersListed(START, requests)
    ensures CommittedWorld(session, spdk) == Run(START, requests)
    ensures Good(CommittedWorld(session, spdk), h)
  {
    session := new DbSession();
    spdk := new SpdkTarget();
    hide Good, Step, AllowedRun;
    for k := 0 to |requests|
      invariant fresh(session) && fresh(spdk)
      invariant CommittedWorld(session, spdk) == Run(START, requests[..k])
      invariant session.Working() == session.committed
    {
      assert requests[..k + 1][..k] == requests[..k];
      Serve(session, spdk, requests[k]);
    }
    assert requests[..|requests|] == requests;
    RunGood(requests, h);
  }
}
