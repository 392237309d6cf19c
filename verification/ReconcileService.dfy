/** The reconciler as four loops over a session; an error in one item is logged and the loop goes on. */
module ReconcileService {
  import opened Model
  import opened Ensure
  import opened SpdkClient
  import opened DbSessions
  import R = Reconcile

  method ReconcileShared(spdk: SpdkTarget, wires: R.Wires)
    modifies spdk
    ensures spdk.State() == R.AfterShared(old(spdk.State()), wires)
  {
    var groups := spdk.EnsureIscsiExport(wires(R.GroupsSite));
    var transport := spdk.EnsureTransport(wires(R.TransportSite));
  }

  method ReconcilePools(session: DbSession, spdk: SpdkTarget, order: seq<Id>, wires: R.Wires)
    requires forall id :: id in order ==> id in session.pools
    modifies session`pools, spdk
    ensures R.PoolState(session.pools, spdk.State())
            == R.PoolPass(session.arrays, old(R.PoolState(session.pools, spdk.State())), order, wires)
  {
    ghost var start := R.PoolState(session.pools, spdk.State());
    for i := 0 to |order|
      invariant session.pools.Keys == start.pools.Keys
      invariant R.PoolState(session.pools, spdk.State()) == R.PoolPass(session.arrays, start, order[..i], wires)
    {
      assert order[..i + 1][..i] == order[..i];
      var pool := session.pools[order[i]];
      var row, ok := spdk.EnsurePool(order[i], pool, R.ArrayName(session.arrays, pool.arr),
                                     wires(R.PoolSite(order[i])));
      session.pools := session.pools[order[i] := row];
    }
    assert order[..|order|] == order;
  }

  method ReconcileVolumes(session: DbSession, spdk: SpdkTarget, order: seq<Id>, wires: R.Wires)
    requires forall id :: id in order ==> id in session.volumes
    modifies session`volumes, spdk
    ensures R.VolumeState(session.volumes, spdk.State())
            == R.VolumePass(session.arrays, session.pools, old(R.VolumeState(session.volumes, spdk.State())), order,
                            wires)
  {
    ghost var start := R.VolumeState(session.volumes, spdk.State());
    for i := 0 to |order|
      invariant session.volumes.Keys == start.volumes.Keys
      invariant R.VolumeState(session.volumes, spdk.State())
                == R.VolumePass(session.arrays, session.pools, start, order[..i], wires)
    {
      assert order[..i + 1][..i] == order[..i];
      var volume := session.volumes[order[i]];
      if volume.pool in session.pools {
        var bdev := Lvol(LvsName(R.ArrayName(session.arrays, volume.arr), session.pools[volume.pool].name), order[i]);
        var ok := spdk.EnsureLvol(bdev, volume.sizeMb, wires(R.VolumeSite(order[i])));
        if ok { session.volumes := session.volumes[order[i] := volume.(bdev := Some(bdev))]; }
      }
    }
    assert order[..|order|] == order;
  }

  method EnsureExported(spdk: SpdkTarget, ep: Endpoint, wire: Wire) returns (ok: bool)
    modifies spdk
    ensures Act(spdk.State(), ok) == Exported(old(spdk.State()), ep, wire)
  {
    ok := true;
    if ep.protocol == Iscsi {
      ok := spdk.EnsureIscsiExport(wire);
    } else if ep.protocol == Nvme {
      ok := spdk.EnsureNvmeExport(ep, wire);
    }
  }

  method EnsureAttached(spdk: SpdkTarget, under: int, bdev: Option<Bdev>, ep: Endpoint, wire: Wire) returns (ok: bool)
    modifies spdk
    ensures Act(spdk.State(), ok) == Attach(old(spdk.State()), under, bdev, ep, wire)
  {
    ok := true;
    if ep.protocol == Iscsi {
      ok := spdk.EnsureIscsiMapping(under, bdev, ep.target, wire);
    } else if ep.protocol == Nvme {
      ok := spdk.EnsureNvmeMapping(under, bdev, ep.target, wire);
    }
  }

  method ReconcileEndpoints(session: DbSession, spdk: SpdkTarget, order: seq<Id>, wires: R.Wires)
    requires forall id :: id in order ==> id in session.endpoints
    modifies spdk
    ensures spdk.State() == R.EndpointPass(session.endpoints, old(spdk.State()), order, wires)
  {
    ghost var start := spdk.State();
    for i := 0 to |order|
      invariant spdk.State() == R.EndpointPass(session.endpoints, start, order[..i], wires)
    {
      assert order[..i + 1][..i] == order[..i];
      var ok := EnsureExported(spdk, session.endpoints[order[i]], wires(R.EndpointSite(order[i])));
    }
    assert order[..|order|] == order;
  }

  method ReconcileMappings(session: DbSession, spdk: SpdkTarget, order: seq<Id>, wires: R.Wires)
    requires forall id :: id in order ==> id in session.mappings
    modifies spdk
    ensures spdk.State() == R.MappingPass(session.Working(), old(spdk.State()), order, wires)
  {
    ghost var start := spdk.State();
    for i := 0 to |order|
      invariant spdk.State() == R.MappingPass(session.Working(), start, order[..i], wires)
    {
      assert order[..i + 1][..i] == order[..i];
      var m := session.mappings[order[i]];
      if m.volume in R.LiveVolumes(session.volumes) && m.underlay in session.endpoints {
        var ok := EnsureAttached(spdk, m.under, session.volumes[m.volume].bdev, session.endpoints[m.underlay],
                                 wires(R.MappingSite(order[i])));
      }
    }
    assert order[..|order|] == order;
  }

  /** The pass ends with a commit, whatever failed on the way. */
  method Reconcile(session: DbSession, spdk: SpdkTarget, o: R.RowOrder, wires: R.Wires)
    requires R.OrderOf(o, session.Working())
    modifies session, spdk
    ensures WorldOf(session, spdk) == R.Reconciled(old(WorldOf(session, spdk)), o, wires)
    ensures session.committed == session.Working()
  {
    ghost var w := WorldOf(session, spdk);
    hide R.AfterShared, R.PoolPass, R.VolumePass, R.EndpointPass, R.MappingPass;
    ReconcileShared(spdk, wires);
    ReconcilePools(session, spdk, o.pools, wires);
    ReconcileVolumes(session, spdk, o.volumes, wires);
    ReconcileEndpoints(session, spdk, o.endpoints, wires);
    assert session.Working() == R.DbAfter(w, o, wires);
    ReconcileMappings(session, spdk, o.mappings, wires);
    session.Commit();
  }
}
