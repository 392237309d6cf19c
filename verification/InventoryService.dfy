/** Arrays, endpoints, pools and hosts as methods on a session. */
module InventoryService {
  import opened Model
  import opened Ensure
  import opened SpdkClient
  import opened DbSessions
  import I = Inventory

  // ---- Arrays and endpoints ------------------------------------------------------------

  method CreateArray(session: DbSession, spdk: SpdkTarget, name: string) returns (r: Result<Id>)
    modifies session
    ensures Res(WorldOf(session, spdk), r) == I.CreateArray(old(WorldOf(session, spdk)), name)
    ensures session.committed == old(session.committed)
  {
    if I.ArraysNamed(session.Working(), name) != {} { return Err(AlreadyExists); }
    var id := session.NextId();
    session.arrays := session.arrays[id := Array(name)];
    return Ok(id);
  }

  method CreateEndpoint(session: DbSession, spdk: SpdkTarget, arr: Id, protocol: Protocol, target: string,
                        listeners: seq<string>)
    returns (r: Result<Id>)
    modifies session
    ensures Res(WorldOf(session, spdk), r)
            == I.CreateEndpoint(old(WorldOf(session, spdk)), arr, protocol, target, listeners)
    ensures session.committed == old(session.committed)
  {
    if arr !in session.arrays { return Err(NotFound); }
    var id := session.NextId();
    session.endpoints := session.endpoints[id := Endpoint(arr, protocol, target, listeners)];
    return Ok(id);
  }

  method UpdateEndpoint(session: DbSession, spdk: SpdkTarget, id: Id, target: Option<string>,
                        listeners: Option<seq<string>>)
    returns (r: Result<Id>)
    modifies session
    ensures Res(WorldOf(session, spdk), r) == I.UpdateEndpoint(old(WorldOf(session, spdk)), id, target, listeners)
    ensures session.committed == old(session.committed)
  {
    if id !in session.endpoints { return Err(NotFound); }
    var row := session.endpoints[id];
    if target.Some? { row := row.(target := target.value); }
    if listeners.Some? { row := row.(listeners := listeners.value); }
    session.endpoints := session.endpoints[id := row];
    return Ok(id);
  }

  method DeleteEndpoint(session: DbSession, spdk: SpdkTarget, id: Id) returns (r: Result<Id>)
    modifies session
    ensures Res(WorldOf(session, spdk), r) == I.DeleteEndpoint(old(WorldOf(session, spdk)), id)
    ensures session.committed == old(session.committed)
  {
    if id !in session.endpoints { return Err(NotFound); }
    session.endpoints := session.endpoints - {id};
    return Ok(id);
  }

  // ---- Pools ---------------------------------------------------------------------------

  method CreatePool(session: DbSession, spdk: SpdkTarget, name: string, arr: Id, backend: PoolBackend,
                    sizeMb: Option<int>, aioPath: string, wire: Wire) returns (r: Result<Id>)
    modifies session, spdk
    ensures Res(WorldOf(session, spdk), r)
            == I.CreatePool(old(WorldOf(session, spdk)), name, arr, backend, sizeMb, aioPath, wire)
    ensures session.committed == old(session.committed)
  {
    hide PoolEnsured, LvsName;
    ghost var before := WorldOf(session, spdk);
    if backend == Malloc && sizeMb == None { return Err(Invalid); }
    if backend == AioFile && aioPath == "" { return Err(Invalid); }
    if arr !in session.arrays { return Err(NotFound); }
    if I.PoolsNamed(session.Working(), arr, name) != {} { return Err(AlreadyExists); }
    var id := session.NextId();
    var row := Pool(name, arr, backend, sizeMb, aioPath);
    session.pools := session.pools[id := row];
    var ensured, ok := spdk.EnsurePool(id, row, session.arrays[arr].name, wire);
    session.pools := session.pools[id := ensured];
    assert session.pools == before.db.pools[id := ensured];
    return if ok then Ok(id) else Err(BackendFailure);
  }

  method DeletePool(session: DbSession, spdk: SpdkTarget, id: Id) returns (r: Result<Id>)
    modifies session
    ensures Res(WorldOf(session, spdk), r) == I.DeletePool(old(WorldOf(session, spdk)), id)
    ensures session.committed == old(session.committed)
  {
    if id !in session.pools { return Err(NotFound); }
    if I.VolumesIn(session.Working(), id) != {} { return Err(ResourceInUse); }
    session.pools := session.pools - {id};
    return Ok(id);
  }

  method AttachPool(session: DbSession, spdk: SpdkTarget, arr: Id, id: Id) returns (r: Result<Id>)
    modifies session
    ensures Res(WorldOf(session, spdk), r) == I.AttachPool(old(WorldOf(session, spdk)), arr, id)
    ensures session.committed == old(session.committed)
  {
    if arr !in session.arrays || id !in session.pools { return Err(NotFound); }
    var row := session.pools[id];
    if I.PoolsNamed(session.Working(), arr, row.name) != {} && row.arr != arr { return Err(AlreadyExists); }
    session.pools := session.pools[id := row.(arr := arr)];
    return Ok(id);
  }

  // ---- Hosts ---------------------------------------------------------------------------

  method CreateHost(session: DbSession, spdk: SpdkTarget, name: string, iqns: seq<string>, nqns: seq<string>,
                    wwpns: seq<string>)
    returns (r: Result<Id>)
    modifies session
    ensures Res(WorldOf(session, spdk), r) == I.CreateHost(old(WorldOf(session, spdk)), name, iqns, nqns, wwpns)
    ensures session.committed == old(session.committed)
  {
    if I.HostsNamed(session.Working(), name) != {} { return Err(AlreadyExists); }
    var id := session.NextId();
    session.hosts := session.hosts[id := Host(name, iqns, nqns, wwpns)];
    return Ok(id);
  }

  method AddHostPort(session: DbSession, spdk: SpdkTarget, id: Id, kind: I.PortType,
                     port: string) returns (r: Result<Id>)
    modifies session
    ensures Res(WorldOf(session, spdk), r) == I.AddHostPort(old(WorldOf(session, spdk)), id, kind, port)
    ensures session.committed == old(session.committed)
  {
    if id !in session.hosts { return Err(NotFound); }
    var row := session.hosts[id];
    match kind {
      case IscsiPort => if port !in row.iqns { row := row.(iqns := row.iqns + [port]); }
      case FcPort => if port !in row.wwpns { row := row.(wwpns := row.wwpns + [port]); }
      case NvmePort => if port !in row.nqns { row := row.(nqns := row.nqns + [port]); }
    }
    session.hosts := session.hosts[id := row];
    return Ok(id);
  }

  method DeleteHost(session: DbSession, spdk: SpdkTarget, id: Id) returns (r: Result<Id>)
    modifies session
    ensures Res(WorldOf(session, spdk), r) == I.DeleteHost(old(WorldOf(session, spdk)), id)
    ensures session.committed == old(session.committed)
  {
    if id !in session.hosts { return Err(NotFound); }
    if I.MappingsOfHost(session.Working(), id) != {} { return Err(ResourceInUse); }
    session.hosts := session.hosts - {id};
    return Ok(id);
  }
}
