/** Arrays, endpoints, pools and hosts. */
module Inventory {
  import opened Model
  import opened Ensure

  // ---- Arrays ------------------------------------------------------------------

  function ArraysNamed(db: Db, name: string): set<Id> { set a | a in db.arrays && db.arrays[a].name == name }

  function CreateArray(w: World, name: string): Res<Id> {
    if ArraysNamed(w.db, name) != {} then Res(w, Err(AlreadyExists))
    else
      var db := w.db.(arrays := w.db.arrays[w.serial := Array(name)]);
      Res(w.(db := db, serial := w.serial + 1), Ok(w.serial))
  }

  // ---- Endpoints -----------------------------------------------------------------

  function EndpointsOf(db: Db, arr: Id, protocol: Protocol): set<Id> {
    set e | e in db.endpoints && db.endpoints[e].arr == arr && db.endpoints[e].protocol == protocol
  }

  function CreateEndpoint(w: World, arr: Id, protocol: Protocol, target: string, listeners: seq<string>): Res<Id> {
    if arr !in w.db.arrays then Res(w, Err(NotFound))
    else
      var row := Endpoint(arr, protocol, target, listeners);
      Res(w.(db := w.db.(endpoints := w.db.endpoints[w.serial := row]), serial := w.serial + 1), Ok(w.serial))
  }

  function UpdateEndpoint(w: World, id: Id, target: Option<string>, listeners: Option<seq<string>>): Res<Id> {
    if id !in w.db.endpoints then Res(w, Err(NotFound))
    else
      var was := w.db.endpoints[id];
      var row := was.(target := if target.Some? then target.value else was.target,
                      listeners := if listeners.Some? then listeners.value else was.listeners);
      Res(w.(db := w.db.(endpoints := w.db.endpoints[id := row])), Ok(id))
  }

  /** No guard: mappings may still refer to the endpoint. */
  function DeleteEndpoint(w: World, id: Id): Res<Id> {
    if id !in w.db.endpoints then Res(w, Err(NotFound))
    else Res(w.(db := w.db.(endpoints := w.db.endpoints - {id})), Ok(id))
  }

  predicate OnArray(db: Db, arr: Id, e: Id) { e in db.endpoints && db.endpoints[e].arr == arr }

  function ResolveEndpoint(db: Db, arr: Id, protocol: Protocol, id: Option<Id>): (r: Result<Id>)
    ensures r.Ok? ==> OnArray(db, arr, r.value)
  {
    if id.Some? then
      if id.value !in db.endpoints then Err(NotFound)
      else if db.endpoints[id.value].arr != arr then Err(Invalid)
      else Ok(id.value)
    else
      match First(EndpointsOf(db, arr, protocol))
      case None => Err(NotFound)
      case Some(e) => Ok(e)
  }

  // ---- Pools ---------------------------------------------------------------------

  function PoolsNamed(db: Db, arr: Id, name: string): set<Id> {
    set p | p in db.pools && db.pools[p].arr == arr && db.pools[p].name == name
  }

  /** On failure the new row is still in the working copy, for the caller to discard. */
  function CreatePool(w: World, name: string, arr: Id, backend: PoolBackend, sizeMb: Option<int>, aioPath: string,
                      wire: Wire): Res<Id> {
    if backend == Malloc && sizeMb == None then Res(w, Err(Invalid))
    else if backend == AioFile && aioPath == "" then Res(w, Err(Invalid))
    else if arr !in w.db.arrays then Res(w, Err(NotFound))
    else if PoolsNamed(w.db, arr, name) != {} then Res(w, Err(AlreadyExists))
    else
      var a := PoolEnsured(w.spdk, w.serial, Pool(name, arr, backend, sizeMb, aioPath), w.db.arrays[arr].name, wire);
      var db := w.db.(pools := w.db.pools[w.serial := a.pool]);
      Res(World(db, a.s, w.serial + 1), if a.ok then Ok(w.serial) else Err(BackendFailure))
  }

  function VolumesIn(db: Db, pool: Id): set<Id> { set v | v in db.volumes && db.volumes[v].pool == pool }

  function DeletePool(w: World, id: Id): Res<Id> {
    if id !in w.db.pools then Res(w, Err(NotFound))
    else if VolumesIn(w.db, id) != {} then Res(w, Err(ResourceInUse))
    else Res(w.(db := w.db.(pools := w.db.pools - {id})), Ok(id))
  }

  /** Re-attachment checks the pool name only, not the pool's volumes. */
  function AttachPool(w: World, arr: Id, id: Id): Res<Id> {
    if arr !in w.db.arrays || id !in w.db.pools then Res(w, Err(NotFound))
    else
      var row := w.db.pools[id];
      if PoolsNamed(w.db, arr, row.name) != {} && row.arr != arr then Res(w, Err(AlreadyExists))
      else Res(w.(db := w.db.(pools := w.db.pools[id := row.(arr := arr)])), Ok(id))
  }

  // ---- Hosts -----------------------------------------------------------------------

  function HostsNamed(db: Db, name: string): set<Id> { set h | h in db.hosts && db.hosts[h].name == name }

  function CreateHost(w: World, name: string, iqns: seq<string>, nqns: seq<string>, wwpns: seq<string>): Res<Id> {
    if HostsNamed(w.db, name) != {} then Res(w, Err(AlreadyExists))
    else
      var row := Host(name, iqns, nqns, wwpns);
      Res(w.(db := w.db.(hosts := w.db.hosts[w.serial := row]), serial := w.serial + 1), Ok(w.serial))
  }

  datatype PortType = IscsiPort | FcPort | NvmePort

  function Appended(ports: seq<string>, port: string): seq<string> {
    if port in ports then ports else ports + [port]
  }

  function AddHostPort(w: World, id: Id, kind: PortType, port: string): Res<Id> {
    if id !in w.db.hosts then Res(w, Err(NotFound))
    else
      var h := w.db.hosts[id];
      var row := match kind
        case IscsiPort => h.(iqns := Appended(h.iqns, port))
        case FcPort => h.(wwpns := Appended(h.wwpns, port))
        case NvmePort => h.(nqns := Appended(h.nqns, port));
      Res(w.(db := w.db.(hosts := w.db.hosts[id := row])), Ok(id))
  }

  function MappingsOfHost(db: Db, host: Id): set<Id> { set m | m in db.mappings && db.mappings[m].host == host }

  function DeleteHost(w: World, id: Id): Res<Id> {
    if id !in w.db.hosts then Res(w, Err(NotFound))
    else if MappingsOfHost(w.db, id) != {} then Res(w, Err(ResourceInUse))
    else Res(w.(db := w.db.(hosts := w.db.hosts - {id})), Ok(id))
  }
}
