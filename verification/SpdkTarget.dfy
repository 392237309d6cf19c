/** The SPDK client operations as methods that change the target in place. */
module SpdkClient {
  import opened Model
  import opened Ensure

  class SpdkTarget {
    var portalGroup: bool
    var initiatorGroup: bool
    var transport: bool
    var backing: set<Id>
    var lvstores: map<string, Id>
    var lvols: map<Bdev, int>
    var targets: map<string, map<int, Bdev>>
    var subsystems: map<string, Subsystem>

    ghost function State(): Spdk
      reads this
    {
      Spdk(portalGroup, initiatorGroup, transport, backing, lvstores, lvols, targets, subsystems)
    }

    /** SPDK as it is right after it starts. */
    constructor ()
      ensures State() == EMPTY_SPDK
    {
      portalGroup, initiatorGroup, transport := false, false, false;
      backing, lvstores, lvols, targets, subsystems := {}, map[], map[], map[], map[];
    }

    method Restart()
      modifies this
      ensures State() == EMPTY_SPDK
    {
      portalGroup, initiatorGroup, transport := false, false, false;
      backing, lvstores, lvols, targets, subsystems := {}, map[], map[], map[], map[];
    }

    // ---- iSCSI groups ---------------------------------------------------------

    method EnsurePortalGroup(w: Wire) returns (ok: bool)
      modifies this
      ensures Act(State(), ok) == PortalGroup(old(State()), w)
    {
      if !w.Up(GetPortalGroups) { return false; }
      if portalGroup { return true; }
      if !w.Up(CreatePortalGroup) { return false; }
      portalGroup := true;
      return true;
    }

    method EnsureInitiatorGroup(w: Wire) returns (ok: bool)
      modifies this
      ensures Act(State(), ok) == InitiatorGroup(old(State()), w)
    {
      if !w.Up(GetInitiatorGroups) { return false; }
      if initiatorGroup { return true; }
      if !w.Up(CreateInitiatorGroup) { return false; }
      initiatorGroup := true;
      return true;
    }

    method EnsureIscsiExport(w: Wire) returns (ok: bool)
      modifies this
      ensures Act(State(), ok) == IscsiExport(old(State()), w)
    {
      ok := EnsurePortalGroup(w);
      if ok { ok := EnsureInitiatorGroup(w); }
    }

    // ---- NVMe-oF transport and subsystem -----------------------------------------

    method EnsureTransport(w: Wire) returns (ok: bool)
      modifies this
      ensures Act(State(), ok) == Transport(old(State()), w)
    {
      match w.reply(CreateTransport)
      case Served => transport := true; return true;
      case BadParams => return true;
      case _ => return false;
    }

    method EnsureNvmeExport(ep: Endpoint, w: Wire) returns (ok: bool)
      modifies this
      ensures Act(State(), ok) == NvmeExport(old(State()), ep, w)
    {
      if ep.target == "" { return true; }
      ok := EnsureTransport(w);
      if !ok || !w.Up(FindSubsystem) { return false; }
      if ep.target in subsystems { return true; }
      if !w.Up(CreateSubsystem) { return false; }
      subsystems := subsystems[ep.target := Subsystem([], map[])];
      ghost var made := State();
      var i := 0;
      while i < |ep.listeners|
        invariant 0 <= i <= |ep.listeners|
        invariant Act(State(), true) == Listeners(made, ep.target, ep.listeners, i, w)
      {
        if !w.Up(AddListener(i)) || !transport {
          ListenerFails(made, ep.target, ep.listeners, i + 1, |ep.listeners|, w);
          return false;
        }
        var sub := subsystems[ep.target];
        subsystems := subsystems[ep.target := sub.(listeners := sub.listeners + [ep.listeners[i]])];
        i := i + 1;
      }
    }

    // ---- Pools and lvols -----------------------------------------------------------

    method EnsurePool(id: Id, p: Pool, arrayName: string, w: Wire) returns (row: Pool, ok: bool)
      modifies this
      ensures PoolAct(State(), row, ok) == PoolEnsured(old(State()), id, p, arrayName, w)
    {
      row := p;
      var lvs := LvsName(arrayName, p.name);
      var found := ProbeOf(id in backing, w.reply(GetBackingBdev));
      if found == Raised { return row, false; }
      if found == Absent {
        if p.backend == Malloc {
          if !HasSize(p) || !w.Up(CreateBacking) || id in backing { return row, false; }
          backing := backing + {id};
        } else if p.backend == AioFile {
          if p.aioPath == "" || !w.Up(CreateBacking) || id in backing { return row, false; }
          backing := backing + {id};
          if !w.Up(ReadBackingSize) { return row, false; }
          row := row.(sizeMb := Some(w.aioBlocks * 512 / 1048576));
        } else {
          return row, false;
        }
      }
      var store := ProbeOf(lvs in lvstores, w.reply(GetLvstore));
      if store == Raised { return row, false; }
      if store == Absent {
        if !w.Up(CreateLvstore) || lvs in lvstores || id !in backing || id in lvstores.Values { return row, false; }
        lvstores := lvstores[lvs := id];
      }
      ok := true;
    }

    method EnsureLvol(name: Bdev, sizeMb: int, w: Wire) returns (ok: bool)
      modifies this
      ensures Act(State(), ok) == LvolEnsured(old(State()), name, sizeMb, w)
    {
      var found := ProbeOf(name in lvols, w.reply(GetLvolBdev));
      if found == Raised { return false; }
      if found == Absent {
        if !w.Up(CreateLvol) || name in lvols || name.lvstore !in lvstores { return false; }
        lvols := lvols[name := sizeMb];
      }
      ok := true;
    }

    method DeleteLvolBdev(name: Bdev, w: Wire) returns (ok: bool)
      modifies this
      ensures Act(State(), ok) == LvolDeleted(old(State()), name, w)
    {
      if !w.Up(DeleteLvol) { return false; }
      lvols := lvols - {name};
      return true;
    }

    method ResizeLvolBdev(name: Option<Bdev>, sizeMb: int, w: Wire) returns (ok: bool)
      modifies this
      ensures Act(State(), ok) == LvolResized(old(State()), name, sizeMb, w)
    {
      if !w.Up(ResizeLvol) || name.None? || name.value !in lvols { return false; }
      lvols := lvols[name.value := sizeMb];
      return true;
    }

    // ---- LUNs and namespaces ---------------------------------------------------------

    method EnsureIscsiMapping(lun: int, bdev: Option<Bdev>, iqn: string, w: Wire) returns (ok: bool)
      modifies this
      ensures Act(State(), ok) == IscsiMapping(old(State()), lun, bdev, iqn, w)
    {
      if iqn == "" { return true; }
      if !w.Up(FindTarget) { return false; }
      if iqn !in targets {
        if !w.Up(CreateTarget) || !portalGroup || !initiatorGroup || bdev.None?
            || bdev.value !in lvols { return false; }
        targets := targets[iqn := map[lun := bdev.value]];
        return true;
      }
      if !w.Up(ListLuns) { return false; }
      if lun !in targets[iqn] {
        if !w.Up(AddLun) || bdev.None? || bdev.value !in lvols { return false; }
        targets := targets[iqn := targets[iqn][lun := bdev.value]];
      }
      return true;
    }

    method EnsureNvmeMapping(nsid: int, bdev: Option<Bdev>, nqn: string, w: Wire) returns (ok: bool)
      modifies this
      ensures Act(State(), ok) == NvmeMapping(old(State()), nsid, bdev, nqn, w)
    {
      if nqn == "" { return true; }
      if !w.Up(ListNamespaces) { return false; }
      if nqn in subsystems && nsid in subsystems[nqn].namespaces { return true; }
      if !w.Up(AddNamespace) || nqn !in subsystems || bdev.None? || bdev.value !in lvols { return false; }
      var sub := subsystems[nqn];
      subsystems := subsystems[nqn := sub.(namespaces := sub.namespaces[nsid := bdev.value])];
      return true;
    }

    method DeleteTargetNode(iqn: string, w: Wire) returns (ok: bool)
      modifies this
      ensures Act(State(), ok) == TargetDeleted(old(State()), iqn, w)
    {
      match w.reply(DeleteTarget)
      case Served => targets := targets - {iqn}; return true;
      case BadParams => return true;
      case _ => return false;
    }

    method RemoveNamespaceOf(nqn: string, nsid: int, w: Wire) returns (ok: bool)
      modifies this
      ensures Act(State(), ok) == NamespaceRemoved(old(State()), nqn, nsid, w)
    {
      if !w.Up(RemoveNamespace) { return false; }
      if nqn in subsystems {
        var sub := subsystems[nqn];
        subsystems := subsystems[nqn := sub.(namespaces := sub.namespaces - {nsid})];
      }
      return true;
    }
  }

  /** After a listener failed the remaining ones are not attempted. */
  lemma {:induction false} ListenerFails(s: Spdk, nqn: string, listeners: seq<string>, i: nat, n: nat, w: Wire)
    requires i <= n <= |listeners|
    requires nqn in s.subsystems
    requires !Listeners(s, nqn, listeners, i, w).ok
    ensures Listeners(s, nqn, listeners, n, w) == Listeners(s, nqn, listeners, i, w)
    decreases n
  {
    if i < n {
      ListenerFails(s, nqn, listeners, i, n - 1, w);
    }
  }
}
