/** The mapping life cycle: endpoint choice, id allocation, SPDK wiring and clean-up. */
module Mappings {
  import opened Model
  import opened Ensure
  import opened Inventory
  import opened Volumes
  import opened Alloc

  /** What a caller may choose; `base` is the configured iSCSI underlay LUN base. */
  datatype MapArgs = MapArgs(host: Id, volume: Id, personaId: Option<Id>, underlayId: Option<Id>,
                             personaProtocol: Option<Protocol>, underlayProtocol: Option<Protocol>, base: int)

  function Or(p: Option<Protocol>, default: Protocol): Protocol {
    if p.Some? then p.value else default
  }

  function ResolvePair(db: Db, arr: Id, personaProtocol: Protocol, personaId: Option<Id>,
                       underlayProtocol: Protocol, underlayId: Option<Id>): (r: Result<(Id, Id)>)
    ensures r.Ok? ==> OnArray(db, arr, r.value.0) && OnArray(db, arr, r.value.1)
  {
    match ResolveEndpoint(db, arr, personaProtocol, personaId)
    case Err(e) => Err(e)
    case Ok(p) =>
      match ResolveEndpoint(db, arr, underlayProtocol, underlayId)
      case Err(e) => Err(e)
      case Ok(u) => Ok((p, u))
  }

  /** Explicit ids count only when both are given, or on the path without FC.  An FC host without
      a protocol choice gets the FC endpoint, unless some endpoint of that pair is not found. */
  function ResolveEndpoints(db: Db, arr: Id, host: Host, a: MapArgs): (r: Result<(Id, Id)>)
    ensures r.Ok? ==> OnArray(db, arr, r.value.0) && OnArray(db, arr, r.value.1)
  {
    var underlayProtocol := Or(a.underlayProtocol, Iscsi);
    if a.personaId.Some? && a.underlayId.Some? then
      ResolvePair(db, arr, Or(a.personaProtocol, Fc), a.personaId, underlayProtocol, a.underlayId)
    else
      var plain := ResolvePair(db, arr, Or(a.personaProtocol, Iscsi), a.personaId, underlayProtocol, a.underlayId);
      if host.wwpns != [] && a.personaProtocol.None? then
        var fc := ResolvePair(db, arr, Fc, None, underlayProtocol, a.underlayId);
        if fc == Err(NotFound) then plain else fc
      else plain
  }

  function UsedLuns(db: Db, host: Id, persona: Id): set<int> {
    set m | m in db.mappings && db.mappings[m].host == host && db.mappings[m].persona == persona :: db.mappings[m].lun
  }

  function UsedUnder(db: Db, underlay: Id): set<int> {
    set m | m in db.mappings && db.mappings[m].underlay == underlay :: db.mappings[m].under
  }

  function StartOf(p: Protocol, base: int): int { if p == Nvme then 1 else base }

  function NewUnder(db: Db, underlay: Id, base: int): int
    requires underlay in db.endpoints
  {
    LeastFree(UsedUnder(db, underlay), StartOf(db.endpoints[underlay].protocol, base))
  }

  /** The NVMe-oF path also needs the row of the volume's array. */
  function WireUnderlay(db: Db, s: Spdk, under: int, v: Volume, ep: Endpoint, wire: Wire): Act {
    if ep.protocol == Nvme && v.arr !in db.arrays then Act(s, false)
    else
      var a := Exported(s, ep, wire);
      if !a.ok then a else Attach(a.s, under, v.bdev, ep, wire)
  }

  function CreateMapping(w: World, a: MapArgs, wire: Wire): Res<Id> {
    var db := w.db;
    if a.volume !in db.volumes then Res(w, Err(NotFound))
    else if db.volumes[a.volume].status !in {Available, InUse} then Res(w, Err(InvalidState))
    else if a.host !in db.hosts then Res(w, Err(NotFound))
    else
      var v := db.volumes[a.volume];
      match ResolveEndpoints(db, v.arr, db.hosts[a.host], a)
      case Err(e) => Res(w, Err(e))
      case Ok((persona, underlay)) =>
          var row := Mapping(a.volume, a.host, persona, underlay, LeastFree(UsedLuns(db, a.host, persona), 0),
                             NewUnder(db, underlay, a.base), Attached, 1);
          var db1 := db.(mappings := db.mappings[w.serial := row]);
          var act := WireUnderlay(db1, w.spdk, row.under, v, db.endpoints[underlay], wire);
          var w1 := World(db1, act.s, w.serial + 1);
          if act.ok then Res(PutVolume(w1, a.volume, v.(status := InUse)), Ok(w.serial))
          else Res(w1, Err(BackendFailure))
  }

  /** Errors of the SPDK clean-up are logged and dropped. */
  function DeleteMapping(w: World, id: Id, wire: Wire): Res<Id> {
    if id !in w.db.mappings then Res(w, Err(NotFound))
    else
      var m := w.db.mappings[id];
      if m.underlay !in w.db.endpoints then
        Res(w.(db := w.db.(mappings := w.db.mappings[id := m.(state := Detached, revision := m.revision + 1)])),
            Err(Crash))
      else
        var act := Detach(w.spdk, m.under, w.db.endpoints[m.underlay], wire);
        var w1 := w.(spdk := act.s, db := w.db.(mappings := w.db.mappings - {id}));
        if m.volume !in w.db.volumes then Res(w1, Err(Crash))
        else if MappingsOf(w1.db, m.volume) != {} then Res(w1, Ok(id))
        else Res(PutVolume(w1, m.volume, w.db.volumes[m.volume].(status := Available)), Ok(id))
  }

  /** The listing of one array joins a mapping to its volume's array. */
  function ListMappings(db: Db, arr: Id): set<Id> {
    set m | m in db.mappings && db.mappings[m].volume in db.volumes && db.volumes[db.mappings[m].volume].arr == arr
  }
}
