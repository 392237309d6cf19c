/** The mapping service: allocate ids, add the row, wire SPDK; and the way back. */
module MappingService {
  import opened Model
  import opened Ensure
  import opened Alloc
  import opened SpdkClient
  import opened DbSessions
  import V = Volumes
  import M = Mappings

  /** The LUNs of the rows of one host and persona endpoint. */
  method LunsInUse(session: DbSession, host: Id, persona: Id) returns (used: seq<int>)
    ensures ToSet(used) == M.UsedLuns(session.Working(), host, persona)
  {
    var rows := set m | m in session.mappings && session.mappings[m].host == host
        && session.mappings[m].persona == persona;
    ghost var all, done: set<Id> := rows, {};
    used := [];
    while rows != {}
      invariant rows + done == all && rows !! done
      invariant ToSet(used) == set m | m in done :: session.mappings[m].lun
      decreases rows
    {
      var m :| m in rows;
      Appended(used, session.mappings[m].lun);
      used := used + [session.mappings[m].lun];
      rows, done := rows - {m}, done + {m};
    }
    assert done == all;
  }

  /** The underlay ids of the rows of one underlay endpoint. */
  method UnderlayIdsInUse(session: DbSession, underlay: Id) returns (used: seq<int>)
    ensures ToSet(used) == M.UsedUnder(session.Working(), underlay)
  {
    var rows := set m | m in session.mappings && session.mappings[m].underlay == underlay;
    ghost var all, done: set<Id> := rows, {};
    used := [];
    while rows != {}
      invariant rows + done == all && rows !! done
      invariant ToSet(used) == set m | m in done :: session.mappings[m].under
      decreases rows
    {
      var m :| m in rows;
      Appended(used, session.mappings[m].under);
      used := used + [session.mappings[m].under];
      rows, done := rows - {m}, done + {m};
    }
    assert done == all;
  }

  lemma Appended(used: seq<int>, x: int)
    ensures ToSet(used + [x]) == ToSet(used) + {x}
  {
  }

  method AllocateUnderlayId(session: DbSession, underlay: Id, base: int) returns (under: int)
    requires underlay in session.endpoints
    ensures under == M.NewUnder(session.Working(), underlay, base)
  {
    var used := UnderlayIdsInUse(session, underlay);
    if session.endpoints[underlay].protocol == Nvme {
      under := AllocateNsid(used);
    } else {
      under := AllocateLunFromBase(used, base);
    }
  }

  method WireSpdkUnderlay(session: DbSession, spdk: SpdkTarget, under: int, volume: Volume, ep: Endpoint,
                          wire: Wire) returns (ok: bool)
    modifies spdk
    ensures Act(spdk.State(), ok) == M.WireUnderlay(session.Working(), old(spdk.State()), under, volume, ep, wire)
  {
    hide IscsiExport, NvmeExport, IscsiMapping, NvmeMapping;
    if ep.protocol == Iscsi {
      ok := spdk.EnsureIscsiExport(wire);
      if ok { ok := spdk.EnsureIscsiMapping(under, volume.bdev, ep.target, wire); }
    } else if ep.protocol == Nvme {
      if volume.arr !in session.arrays { return false; }
      ok := spdk.EnsureNvmeExport(ep, wire);
      if ok { ok := spdk.EnsureNvmeMapping(under, volume.bdev, ep.target, wire); }
    } else {
      ok := true;
    }
  }

  method CreateMapping(session: DbSession, spdk: SpdkTarget, a: M.MapArgs, wire: Wire) returns (r: Result<Id>)
    modifies session, spdk
    ensures Res(WorldOf(session, spdk), r) == M.CreateMapping(old(WorldOf(session, spdk)), a, wire)
    ensures session.committed == old(session.committed)
  {
    hide M.WireUnderlay, M.ResolveEndpoints, M.NewUnder, LeastFree;
    if a.volume !in session.volumes { return Err(NotFound); }
    var volume := session.volumes[a.volume];
    if volume.status != Available && volume.status != InUse { return Err(InvalidState); }
    if a.host !in session.hosts { return Err(NotFound); }
    var resolved := M.ResolveEndpoints(session.Working(), volume.arr, session.hosts[a.host], a);
    if resolved.Err? { return Err(resolved.error); }
    var (persona, underlay) := resolved.value;
    var usedLuns := LunsInUse(session, a.host, persona);
    var lun := AllocateLun(usedLuns);
    var under := AllocateUnderlayId(session, underlay, a.base);
    var id := session.NextId();
    session.mappings := session.mappings[id := Mapping(a.volume, a.host, persona, underlay, lun, under, Attached, 1)];
    var ok := WireSpdkUnderlay(session, spdk, under, volume, session.endpoints[underlay], wire);
    if !ok { return Err(BackendFailure); }
    session.volumes := session.volumes[a.volume := volume.(status := InUse)];
    return Ok(id);
  }

  method CleanUp(spdk: SpdkTarget, under: int, ep: Endpoint, wire: Wire) returns (ok: bool)
    modifies spdk
    ensures Act(spdk.State(), ok) == Detach(old(spdk.State()), under, ep, wire)
  {
    ok := true;
    if ep.protocol == Iscsi {
      if ep.target != "" { ok := spdk.DeleteTargetNode(ep.target, wire); }
    } else if ep.protocol == Nvme {
      if ep.target != "" { ok := spdk.RemoveNamespaceOf(ep.target, under, wire); }
    }
  }

  method DeleteMapping(session: DbSession, spdk: SpdkTarget, id: Id, wire: Wire) returns (r: Result<Id>)
    modifies session, spdk
    ensures Res(WorldOf(session, spdk), r) == M.DeleteMapping(old(WorldOf(session, spdk)), id, wire)
    ensures session.committed == old(session.committed)
  {
    hide Detach;
    if id !in session.mappings { return Err(NotFound); }
    var m := session.mappings[id];
    session.mappings := session.mappings[id := m.(state := Detached, revision := m.revision + 1)];
    if m.underlay !in session.endpoints { return Err(Crash); }
    var cleaned := CleanUp(spdk, m.under, session.endpoints[m.underlay], wire);
    session.mappings := session.mappings - {id};
    assert session.mappings == old(session.mappings) - {id};
    if m.volume !in session.volumes { return Err(Crash); }
    if V.MappingsOf(session.Working(), m.volume) == {} {
      session.volumes := session.volumes[m.volume := session.volumes[m.volume].(status := Available)];
    }
    return Ok(id);
  }
}
