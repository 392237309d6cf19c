/** Each request of the API: exactly when it succeeds, with which error it fails, and what is committed
    and left in SPDK either way. */
module Outcomes {
  import opened Model
  import opened Ensure
  import opened Inventory
  import opened Volumes
  import opened Mappings
  import opened Alloc
  import opened Topology
  import A = Apply
  import opened EndpointChoice
  import opened Replies
  import opened Runs

  // ---- Arrays, endpoints, pools, hosts ------------------------------------------------------------

  lemma ArrayOutcome(w: World, name: string)
    ensures var taken := exists a :: a in w.db.arrays && w.db.arrays[a].name == name;
      && CreateArray(w, name).r == (if taken then Err(AlreadyExists) else Ok(w.serial))
      && Step(w, NewArray(name))
         == if taken then w
            else w.(serial := w.serial + 1, db := w.db.(arrays := w.db.arrays[w.serial := Array(name)]))
  {
    if a :| a in w.db.arrays && w.db.arrays[a].name == name {
      assert a in ArraysNamed(w.db, name);
    }
  }

  lemma EndpointOutcome(w: World, arr: Id, p: Protocol, target: string, listeners: seq<string>)
    ensures var found := arr in w.db.arrays;
      var row := Endpoint(arr, p, target, listeners);
      && CreateEndpoint(w, arr, p, target, listeners).r == (if found then Ok(w.serial) else Err(NotFound))
      && Step(w, NewEndpoint(arr, p, target, listeners))
         == if !found then w
            else w.(serial := w.serial + 1, db := w.db.(endpoints := w.db.endpoints[w.serial := row]))
  {
  }

  /** Target and listeners are what was given, or what they were; protocol and array stay. */
  lemma EndpointChangeOutcome(w: World, id: Id, target: Option<string>, listeners: Option<seq<string>>)
    ensures var w' := Step(w, ChangeEndpoint(id, target, listeners));
      && UpdateEndpoint(w, id, target, listeners).r == (if id in w.db.endpoints then Ok(id) else Err(NotFound))
      && (id !in w.db.endpoints ==> w' == w)
      && (id in w.db.endpoints ==>
            && id in w'.db.endpoints && w' == w.(db := w.db.(endpoints := w.db.endpoints[id := w'.db.endpoints[id]]))
            && var was, row := w.db.endpoints[id], w'.db.endpoints[id];
            && row.arr == was.arr && row.protocol == was.protocol
            && Some(row.target) == (if target.Some? then target else Some(was.target))
            && Some(row.listeners) == (if listeners.Some? then listeners else Some(was.listeners)))
  {
  }

  lemma EndpointRemovalOutcome(w: World, id: Id)
    ensures DeleteEndpoint(w, id).r == (if id in w.db.endpoints then Ok(id) else Err(NotFound))
    ensures Step(w, RemoveEndpoint(id)) == w.(db := w.db.(endpoints := w.db.endpoints - {id}))
  {
    assert id !in w.db.endpoints ==> w.db.endpoints - {id} == w.db.endpoints;
  }

  predicate NameTaken(db: Db, arr: Id, name: string) {
    exists p :: p in db.pools && db.pools[p].arr == arr && db.pools[p].name == name
  }

  /** Why a pool is refused before SPDK is asked. */
  function PoolRefusal(db: Db, name: string, arr: Id, backend: PoolBackend, sizeMb: Option<int>, path: string):
    Option<Error>
  {
    if (backend == Malloc && sizeMb.None?) || (backend == AioFile && path == "") then Some(Invalid)
    else if arr !in db.arrays then Some(NotFound)
    else if NameTaken(db, arr, name) then Some(AlreadyExists)
    else None
  }

  /** A pool the backend fails for is not committed, but what SPDK did for it stays. */
  lemma PoolOutcome(w: World, name: string, arr: Id, backend: PoolBackend, sizeMb: Option<int>, path: string,
                    wire: Wire)
    ensures var refusal := PoolRefusal(w.db, name, arr, backend, sizeMb, path);
      var r, w' := CreatePool(w, name, arr, backend, sizeMb, path, wire).r,
                   Step(w, NewPool(name, arr, backend, sizeMb, path, wire));
      if refusal.Some? then r == Err(refusal.value) && w' == w
      else
        var a := PoolEnsured(w.spdk, w.serial, Pool(name, arr, backend, sizeMb, path), w.db.arrays[arr].name, wire);
        && r == (if a.ok then Ok(w.serial) else Err(BackendFailure))
        && w' == World(if a.ok then w.db.(pools := w.db.pools[w.serial := a.pool]) else w.db, a.s, w.serial + 1)
  {
    hide PoolEnsured;
    if p :| p in w.db.pools && w.db.pools[p].arr == arr && w.db.pools[p].name == name {
      assert p in PoolsNamed(w.db, arr, name);
    }
  }

  lemma PoolRemovalOutcome(w: World, id: Id)
    ensures var filled := exists v :: v in w.db.volumes && w.db.volumes[v].pool == id;
      && DeletePool(w, id).r == (if id !in w.db.pools then Err(NotFound)
                                 else if filled then Err(ResourceInUse) else Ok(id))
      && Step(w, RemovePool(id)) == if filled then w else w.(db := w.db.(pools := w.db.pools - {id}))
  {
    if v :| v in w.db.volumes && w.db.volumes[v].pool == id {
      assert v in VolumesIn(w.db, id);
    }
    assert id !in w.db.pools ==> w.db.pools - {id} == w.db.pools;
  }

  /** A move is refused for the name only, and only on another array. */
  lemma PoolMoveOutcome(w: World, arr: Id, id: Id)
    ensures var known := arr in w.db.arrays && id in w.db.pools;
      var clash := known && w.db.pools[id].arr != arr && NameTaken(w.db, arr, w.db.pools[id].name);
      && AttachPool(w, arr, id).r == (if !known then Err(NotFound) else if clash then Err(AlreadyExists) else Ok(id))
      && Step(w, MovePool(arr, id))
         == if !known || clash then w else w.(db := w.db.(pools := w.db.pools[id := w.db.pools[id].(arr := arr)]))
  {
    if arr in w.db.arrays && id in w.db.pools {
      if p :| p in w.db.pools && w.db.pools[p].arr == arr && w.db.pools[p].name == w.db.pools[id].name {
        assert p in PoolsNamed(w.db, arr, w.db.pools[id].name);
      }
      assert NameTaken(w.db, arr, w.db.pools[id].name) <==> PoolsNamed(w.db, arr, w.db.pools[id].name) != {};
    }
  }

  lemma HostOutcome(w: World, name: string, iqns: seq<string>, nqns: seq<string>, wwpns: seq<string>)
    ensures var taken := exists h :: h in w.db.hosts && w.db.hosts[h].name == name;
      && CreateHost(w, name, iqns, nqns, wwpns).r == (if taken then Err(AlreadyExists) else Ok(w.serial))
      && Step(w, NewHost(name, iqns, nqns, wwpns))
         == if taken then w
            else w.(serial := w.serial + 1, db := w.db.(hosts := w.db.hosts[w.serial := Host(name, iqns, nqns, wwpns)]))
  {
    if h :| h in w.db.hosts && w.db.hosts[h].name == name {
      assert h in HostsNamed(w.db, name);
    }
  }

  /** The ports of a kind after `port` was given. */
  predicate Gains(was: seq<string>, now: seq<string>, port: string) {
    now == if port in was then was else was + [port]
  }

  lemma PortOutcome(w: World, id: Id, kind: PortType, port: string)
    ensures var w' := Step(w, NewPort(id, kind, port));
      && AddHostPort(w, id, kind, port).r == (if id in w.db.hosts then Ok(id) else Err(NotFound))
      && (id !in w.db.hosts ==> w' == w)
      && (id in w.db.hosts ==>
            && id in w'.db.hosts && w' == w.(db := w.db.(hosts := w.db.hosts[id := w'.db.hosts[id]]))
            && var was, row := w.db.hosts[id], w'.db.hosts[id];
            match kind
            case IscsiPort => Gains(was.iqns, row.iqns, port) && row == was.(iqns := row.iqns)
            case FcPort => Gains(was.wwpns, row.wwpns, port) && row == was.(wwpns := row.wwpns)
            case NvmePort => Gains(was.nqns, row.nqns, port) && row == was.(nqns := row.nqns))
  {
  }

  lemma HostRemovalOutcome(w: World, id: Id)
    ensures var mapped := exists m :: m in w.db.mappings && w.db.mappings[m].host == id;
      && DeleteHost(w, id).r == (if id !in w.db.hosts then Err(NotFound)
                                 else if mapped then Err(ResourceInUse) else Ok(id))
      && Step(w, RemoveHost(id)) == if mapped then w else w.(db := w.db.(hosts := w.db.hosts - {id}))
  {
    if m :| m in w.db.mappings && w.db.mappings[m].host == id {
      assert m in MappingsOfHost(w.db, id);
    }
    assert id !in w.db.hosts ==> w.db.hosts - {id} == w.db.hosts;
  }

  // ---- Volumes --------------------------------------------------------------------------------------

  /** A new volume lies in its pool's array; its row is committed with its lvol, or in error without. */
  lemma VolumeOutcome(w: World, name: string, pool: Id, sizeMb: int, wire: Wire)
    ensures var r, w' := CreateVolume(w, name, pool, sizeMb, wire).r, Step(w, NewVolume(name, pool, sizeMb, wire));
      if pool !in w.db.pools || w.db.pools[pool].arr !in w.db.arrays then r == Err(NotFound) && w' == w
      else
        var arr := w.db.pools[pool].arr;
        if exists v :: v in w.db.volumes && w.db.volumes[v].arr == arr && w.db.volumes[v].name == name then
          r == Err(AlreadyExists) && w' == w
        else
          var bdev := Lvol(w.db.arrays[arr].name + "." + w.db.pools[pool].name, w.serial);
          var made := LvolMade(w.spdk, bdev, wire);
          var ok := made || (bdev in w.spdk.lvols && wire.reply(GetLvolBdev) == Served);
          var row := if ok then Volume(name, arr, pool, sizeMb, Available, Some(bdev))
                     else Volume(name, arr, pool, sizeMb, InError, None);
          && r == (if ok then Ok(w.serial) else Err(BackendFailure))
          && w' == World(w.db.(volumes := w.db.volumes[w.serial := row]),
                         w.spdk.(lvols := if made then w.spdk.lvols[bdev := sizeMb] else w.spdk.lvols), w.serial + 1)
  {
    if pool in w.db.pools {
      var arr := w.db.pools[pool].arr;
      if v :| v in w.db.volumes && w.db.volumes[v].arr == arr && w.db.volumes[v].name == name {
        assert v in VolumesNamed(w.db, arr, name);
      }
      if arr in w.db.arrays {
        LvolByReplies(w.spdk, BdevName(w.db, arr, pool, w.serial), sizeMb, wire);
        hide LvolEnsured;
      }
    }
  }

  ghost predicate MappedTo(db: Db, v: Id) { exists m :: m in db.mappings && db.mappings[m].volume == v }

  lemma UnmappedHasNone(db: Db, v: Id)
    ensures MappingsOf(db, v) == {} <==> !MappedTo(db, v)
  {
    if m :| m in db.mappings && db.mappings[m].volume == v {
      assert m in MappingsOf(db, v);
    }
  }

  /** A volume is deleted exactly when no mapping refers to it and SPDK serves the deletion of its bdev, if
      it has one, whatever its status: then exactly its row and its lvol are gone.  A failed deletion
      commits nothing; an SPDK error leaves the working copy with the row in error. */
  lemma VolumeRemovalOutcome(w: World, id: Id, wire: Wire)
    ensures var res, w' := DeleteVolume(w, id, wire), Step(w, RemoveVolume(id, wire));
      if id !in w.db.volumes then res.r == Err(NotFound) && w' == w
      else if MappedTo(w.db, id) then res.r == Err(ResourceInUse) && w' == w
      else if w.db.volumes[id].bdev.Some? && wire.reply(DeleteLvol) != Served then
        && res.r == Err(BackendFailure) && w' == w
        && res.w == w.(db := w.db.(volumes := w.db.volumes[id := w.db.volumes[id].(status := InError)]))
      else
        var gone := if w.db.volumes[id].bdev.Some? then {w.db.volumes[id].bdev.value} else {};
        && res.r == Ok(id)
        && w' == w.(db := w.db.(volumes := w.db.volumes - {id}), spdk := w.spdk.(lvols := w.spdk.lvols - gone))
  {
    UnmappedHasNone(w.db, id);
    hide MappingsOf, MappedTo;
    assert w.spdk.lvols - {} == w.spdk.lvols;
  }

  /** A volume grows exactly when the new size is larger, it has an lvol and SPDK serves the call, whatever
      its status: row and lvol get the new size, and the status is `available`.  An SPDK error is
      committed as status `error`. */
  lemma VolumeGrowthOutcome(w: World, id: Id, newSizeMb: int, wire: Wire)
    ensures var r, w' := ExtendVolume(w, id, newSizeMb, wire).r, Step(w, Extend(id, newSizeMb, wire));
      if id !in w.db.volumes then r == Err(NotFound) && w' == w
      else
        var v := w.db.volumes[id];
        if newSizeMb <= v.sizeMb then r == Err(Invalid) && w' == w
        else if wire.reply(ResizeLvol) != Served || v.bdev.None? || v.bdev.value !in w.spdk.lvols then
          && r == Err(BackendFailure)
          && w' == w.(db := w.db.(volumes := w.db.volumes[id := v.(status := InError)]))
        else
          && r == Ok(id)
          && w' == w.(db := w.db.(volumes := w.db.volumes[id := v.(sizeMb := newSizeMb, status := Available)]),
                      spdk := w.spdk.(lvols := w.spdk.lvols[v.bdev.value := newSizeMb]))
  {
  }

  /** Expanding is growing by a positive amount; an SPDK error is not committed. */
  lemma VolumeExpansionOutcome(w: World, id: Id, deltaMb: int, wire: Wire)
    ensures var r, w' := ExpandVolume(w, id, deltaMb, wire).r, Step(w, Expand(id, deltaMb, wire));
      if id !in w.db.volumes then r == Err(NotFound) && w' == w
      else
        var v := w.db.volumes[id];
        if deltaMb <= 0 then r == Err(Invalid) && w' == w
        else if wire.reply(ResizeLvol) != Served || v.bdev.None? || v.bdev.value !in w.spdk.lvols then
          r == Err(BackendFailure) && w' == w
        else
          && r == Ok(id)
          && w' == w.(db := w.db.(volumes := w.db.volumes[id := v.(sizeMb := v.sizeMb + deltaMb, status := Available)]),
                      spdk := w.spdk.(lvols := w.spdk.lvols[v.bdev.value := v.sizeMb + deltaMb]))
  {
  }

  // ---- Topologies, restarts ---------------------------------------------------------------------------

  /** A topology commits all its rows or none; what it did in SPDK stays either way. */
  lemma ApplyOutcome(w: World, spec: TopologySpec, base: int, wires: A.Item -> Wire)
    ensures var out, w' := A.ApplyTopology(w, spec, base, wires), Step(w, ApplySpec(spec, base, wires));
      && w'.db == (if out.1.Ok? then out.0.db else w.db) && w'.spdk == out.0.spdk && w'.serial == out.0.serial
  {
    hide A.ApplyTopology;
  }

  /** A restart loses everything SPDK held, and nothing else. */
  lemma RestartOutcome(w: World)
    ensures var w' := Step(w, RestartSpdk);
      && w'.db == w.db && w'.serial == w.serial
      && w'.spdk == Spdk(false, false, false, {}, map[], map[], map[], map[])
  {
  }

  // ---- Mappings ---------------------------------------------------------------------------------------

  ghost predicate HasLun(db: Db, host: Id, persona: Id, n: int) {
    exists m :: m in db.mappings && db.mappings[m].host == host && db.mappings[m].persona == persona
                && db.mappings[m].lun == n
  }

  ghost predicate HasUnder(db: Db, underlay: Id, n: int) {
    exists m :: m in db.mappings && db.mappings[m].underlay == underlay && db.mappings[m].under == n
  }

  /** The least host LUN from 0 up that no mapping of the host has on the persona endpoint. */
  ghost predicate NewLun(db: Db, host: Id, persona: Id, n: int) {
    n >= 0 && !HasLun(db, host, persona, n) && forall x :: 0 <= x < n ==> HasLun(db, host, persona, x)
  }

  /** The least id that no mapping has on the underlay endpoint: from 1 up on NVMe-oF, else from the
      configured base up. */
  ghost predicate NewUnderlayId(db: Db, underlay: Id, base: int, n: int)
    requires underlay in db.endpoints
  {
    var start := if db.endpoints[underlay].protocol == Nvme then 1 else base;
    n >= start && !HasUnder(db, underlay, n) && forall x :: start <= x < n ==> HasUnder(db, underlay, x)
  }

  lemma IdsAreLeast(db: Db, host: Id, persona: Id, underlay: Id, base: int)
    requires underlay in db.endpoints
    ensures NewLun(db, host, persona, LeastFree(UsedLuns(db, host, persona), 0))
    ensures NewUnderlayId(db, underlay, base, NewUnder(db, underlay, base))
  {
    assert forall n :: n in UsedLuns(db, host, persona) <==> HasLun(db, host, persona, n);
    assert forall n :: n in UsedUnder(db, underlay) <==> HasUnder(db, underlay, n);
    hide LeastFree;
  }

  /** Exporting the endpoint and attaching the volume, for the protocols that need it. */
  ghost predicate Wires(db: Db, s: Spdk, under: int, v: Volume, ep: Endpoint, wire: Wire) {
    && (ep.protocol == Nvme ==> v.arr in db.arrays)
    && Exported(s, ep, wire).ok && Attach(Exported(s, ep, wire).s, under, v.bdev, ep, wire).ok
  }

  ghost predicate GroupsServed(s: Spdk, w: Wire) {
    && w.reply(GetPortalGroups) == Served && (s.portalGroup || w.reply(CreatePortalGroup) == Served)
    && w.reply(GetInitiatorGroups) == Served && (s.initiatorGroup || w.reply(CreateInitiatorGroup) == Served)
  }

  ghost predicate SubsystemServed(s: Spdk, ep: Endpoint, w: Wire) {
    && w.reply(CreateTransport) in {Served, BadParams} && w.reply(FindSubsystem) == Served
    && (ep.target in s.subsystems
        || (w.reply(CreateSubsystem) == Served
            && (ep.listeners == []
                || ((s.transport || w.reply(CreateTransport) == Served) && AllListenersServed(|ep.listeners|, w)))))
  }

  /** SPDK is wired through iSCSI with both groups and a LUN found or made, through NVMe-oF with the
      subsystem and a namespace found or made, and through any other protocol without a call; an
      endpoint without a target needs no LUN or namespace. */
  lemma WiresIff(db: Db, s: Spdk, under: int, v: Volume, ep: Endpoint, wire: Wire)
    ensures Wires(db, s, under, v, ep, wire) <==>
      match ep.protocol
      case Iscsi =>
        var t := s.(portalGroup := true, initiatorGroup := true);
        && GroupsServed(s, wire)
        && (ep.target == "" || LunFound(t, under, ep.target, wire) || LunMade(t, under, v.bdev, ep.target, wire))
      case Nvme =>
        && v.arr in db.arrays
        && (ep.target == ""
            || (&& SubsystemServed(s, ep, wire) && wire.reply(ListNamespaces) == Served
                && ((ep.target in s.subsystems && under in s.subsystems[ep.target].namespaces)
                    || (wire.reply(AddNamespace) == Served && v.bdev.Some? && v.bdev.value in s.lvols))))
      case _ => true
  {
    var t := Exported(s, ep, wire).s;
    match ep.protocol
    case Iscsi =>
      GroupsByReplies(s, wire);
      if ep.target != "" {
        LunByReplies(t, under, v.bdev, ep.target, wire);
        hide IscsiExport, IscsiMapping;
      }
    case Nvme =>
      if ep.target != "" {
        SubsystemByReplies(s, ep, wire);
        NamespaceByReplies(t, under, v.bdev, ep.target, wire);
        hide NvmeExport, NvmeMapping, AllListenersServed;
      }
    case _ =>
  }

  /** A volume is mapped exactly when it is `available` or `in_use`, the host is there, the choice of
      endpoints succeeds and SPDK is wired.  The new row has the least free ids and the volume becomes
      `in_use`.  After a failure nothing is committed, but what the export did stays in SPDK. */
  lemma MappingOutcome(w: World, a: MapArgs, wire: Wire)
    ensures var r, w' := CreateMapping(w, a, wire).r, Step(w, Map(a, wire));
      if a.volume !in w.db.volumes then r == Err(NotFound) && w' == w
      else
        var v := w.db.volumes[a.volume];
        if v.status !in {Available, InUse} then r == Err(InvalidState) && w' == w
        else if a.host !in w.db.hosts then r == Err(NotFound) && w' == w
        else
          var choice := ResolveEndpoints(w.db, v.arr, w.db.hosts[a.host], a);
          if choice.Err? then r == Err(choice.error) && w' == w
          else
            var (persona, underlay) := choice.value;
            var ep := w.db.endpoints[underlay];
            exists lun, under ::
              && NewLun(w.db, a.host, persona, lun) && NewUnderlayId(w.db, underlay, a.base, under)
              && var exported := Exported(w.spdk, ep, wire);
              && w'.serial == w.serial + 1
              && if Wires(w.db, w.spdk, under, v, ep, wire) then
                && r == Ok(w.serial) && w'.spdk == Attach(exported.s, under, v.bdev, ep, wire).s
                && var row := Mapping(a.volume, a.host, persona, underlay, lun, under, Attached, 1);
                w'.db == w.db.(mappings := w.db.mappings[w.serial := row],
                               volumes := w.db.volumes[a.volume := v.(status := InUse)])
              else
                && r == Err(BackendFailure) && w'.db == w.db
  {
    if a.volume in w.db.volumes && a.host in w.db.hosts {
      var v := w.db.volumes[a.volume];
      var choice := ResolveEndpoints(w.db, v.arr, w.db.hosts[a.host], a);
      if choice.Ok? {
        var (persona, underlay) := choice.value;
        IdsAreLeast(w.db, a.host, persona, underlay, a.base);
        var lun, under := LeastFree(UsedLuns(w.db, a.host, persona), 0), NewUnder(w.db, underlay, a.base);
        hide LeastFree, UsedLuns, NewUnder, ResolveEndpoints, Exported, Attach, NewLun, NewUnderlayId;
        assert NewLun(w.db, a.host, persona, lun) && NewUnderlayId(w.db, underlay, a.base, under);
      }
    }
  }

  /** A mapping that is there is always unmapped, whatever SPDK answers: its row goes, and its volume, in
      whatever status, becomes `available` when it was the last one and stays as it was otherwise. */
  lemma UnmappingOutcome(w: World, id: Id, wire: Wire)
    requires id in w.db.mappings ==>
      w.db.mappings[id].underlay in w.db.endpoints && w.db.mappings[id].volume in w.db.volumes
    ensures var r, w' := DeleteMapping(w, id, wire).r, Step(w, Unmap(id, wire));
      if id !in w.db.mappings then r == Err(NotFound) && w' == w
      else
        var m := w.db.mappings[id];
        var left := exists k :: k in w.db.mappings && k != id && w.db.mappings[k].volume == m.volume;
        var volumes := if left then w.db.volumes
                       else w.db.volumes[m.volume := w.db.volumes[m.volume].(status := Available)];
        && r == Ok(id)
        && w' == w.(db := w.db.(mappings := w.db.mappings - {id}, volumes := volumes),
                    spdk := Detach(w.spdk, m.under, w.db.endpoints[m.underlay], wire).s)
  {
    hide Detach;
    if id in w.db.mappings {
      var v, db := w.db.mappings[id].volume, w.db.(mappings := w.db.mappings - {id});
      assert forall k :: k in MappingsOf(db, v) <==>
          k in w.db.mappings && k != id && w.db.mappings[k].volume == v;
      if MappingsOf(db, v) != {} {
        var k :| k in MappingsOf(db, v);
      }
    }
  }
}
