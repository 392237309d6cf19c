/** What the ensure functions do to the SPDK target, as functions of its state and of the
    replies their calls receive. */
module Ensure {
  import opened Model

  /** How one call is answered.  `Served`: carried out, unless its own precondition fails, in
      which case the target answers with an error.  `Refused`: an error reply.  `BadParams`: an
      error reply with code -32602.  `Lost`: the socket fails.  Only `Served` has an effect. */
  datatype Reply = Served | Refused | BadParams | Lost

  /** The call sites an operation on one item passes through, each at most once. */
  datatype Call =
    | GetPortalGroups | CreatePortalGroup | GetInitiatorGroups | CreateInitiatorGroup
    | GetBackingBdev | CreateBacking | ReadBackingSize | GetLvstore | CreateLvstore
    | GetLvolBdev | CreateLvol | DeleteLvol | ResizeLvol
    | FindTarget | CreateTarget | ListLuns | AddLun | DeleteTarget
    | CreateTransport | FindSubsystem | CreateSubsystem | AddListener(index: nat)
    | ListNamespaces | AddNamespace | RemoveNamespace

  /** The replies to the calls of one operation, and the block count of the file an AIO bdev opens. */
  datatype Wire = Wire(reply: Call -> Reply, aioBlocks: nat) {
    predicate Up(c: Call) { reply(c) == Served }
    ghost predicate Clean() { forall c :: Up(c) }
  }

  /** State after an operation, and whether it returned rather than raised. */
  datatype Act = Act(s: Spdk, ok: bool)

  // ---- Existence checks that turn an error reply into "absent" --------------

  datatype Probe = Present | Absent | Raised

  function ProbeOf(there: bool, r: Reply): Probe {
    match r
    case Served => if there then Present else Absent
    case Lost => Raised
    case _ => Absent
  }

  // ---- iSCSI groups ----------------------------------------------------------

  function PortalGroup(s: Spdk, w: Wire): Act {
    if !w.Up(GetPortalGroups) then Act(s, false)
    else if s.portalGroup then Act(s, true)
    else if !w.Up(CreatePortalGroup) then Act(s, false)
    else Act(s.(portalGroup := true), true)
  }

  function InitiatorGroup(s: Spdk, w: Wire): Act {
    if !w.Up(GetInitiatorGroups) then Act(s, false)
    else if s.initiatorGroup then Act(s, true)
    else if !w.Up(CreateInitiatorGroup) then Act(s, false)
    else Act(s.(initiatorGroup := true), true)
  }

  function IscsiExport(s: Spdk, w: Wire): Act {
    var a := PortalGroup(s, w);
    if !a.ok then a else InitiatorGroup(a.s, w)
  }

  // ---- NVMe-oF transport and subsystem ---------------------------------------

  /** An "already exists" answer and any -32602 answer count as success. */
  function Transport(s: Spdk, w: Wire): Act {
    match w.reply(CreateTransport)
    case Served => Act(s.(transport := true), true)
    case BadParams => Act(s, true)
    case _ => Act(s, false)
  }

  function Listeners(s: Spdk, nqn: string, listeners: seq<string>, n: nat, w: Wire): Act
    requires n <= |listeners|
    requires nqn in s.subsystems
    ensures nqn in Listeners(s, nqn, listeners, n, w).s.subsystems
    decreases n
  {
    if n == 0 then Act(s, true)
    else
      var a := Listeners(s, nqn, listeners, n - 1, w);
      if !a.ok || !w.Up(AddListener(n - 1)) || !a.s.transport then Act(a.s, false)
      else
        var sub := a.s.subsystems[nqn];
        Act(a.s.(subsystems := a.s.subsystems[nqn := sub.(listeners := sub.listeners + [listeners[n - 1]])]), true)
  }

  function NvmeExport(s: Spdk, ep: Endpoint, w: Wire): Act {
    if ep.target == "" then Act(s, true)
    else
      var a := Transport(s, w);
      if !a.ok || !w.Up(FindSubsystem) then Act(a.s, false)
      else if ep.target in s.subsystems then a
      else if !w.Up(CreateSubsystem) then Act(a.s, false)
      else
        var made := a.s.(subsystems := a.s.subsystems[ep.target := Subsystem([], map[])]);
        Listeners(made, ep.target, ep.listeners, |ep.listeners|, w)
  }

  // ---- Pools and lvols --------------------------------------------------------

  /** `size_mb` as the source reads it: 0 and None both mean "not given". */
  predicate HasSize(p: Pool) { p.sizeMb.Some? && p.sizeMb.value != 0 }

  predicate BackendUsable(p: Pool) {
    match p.backend
    case Malloc => HasSize(p)
    case AioFile => p.aioPath != ""
    case UnknownBackend => false
  }

  datatype PoolAct = PoolAct(s: Spdk, pool: Pool, ok: bool)

  /** The backing bdev; creating an AIO bdev also reads the pool size back. */
  function BackingBdev(s: Spdk, id: Id, p: Pool, w: Wire): PoolAct {
    match ProbeOf(id in s.backing, w.reply(GetBackingBdev))
    case Raised => PoolAct(s, p, false)
    case Present => PoolAct(s, p, true)
    case Absent =>
      if !BackendUsable(p) || !w.Up(CreateBacking) || id in s.backing then PoolAct(s, p, false)
      else
        var made := s.(backing := s.backing + {id});
        if p.backend == Malloc then PoolAct(made, p, true)
        else if !w.Up(ReadBackingSize) then PoolAct(made, p, false)
        else PoolAct(made, p.(sizeMb := Some(w.aioBlocks * 512 / 1048576)), true)
  }

  /** SPDK refuses a second lvol store on one bdev. */
  function Lvstore(s: Spdk, id: Id, lvs: string, w: Wire): Act {
    match ProbeOf(lvs in s.lvstores, w.reply(GetLvstore))
    case Raised => Act(s, false)
    case Present => Act(s, true)
    case Absent =>
      if !w.Up(CreateLvstore) || lvs in s.lvstores || id !in s.backing || id in s.lvstores.Values then Act(s, false)
      else Act(s.(lvstores := s.lvstores[lvs := id]), true)
  }

  function PoolEnsured(s: Spdk, id: Id, p: Pool, arrayName: string, w: Wire): PoolAct {
    var b := BackingBdev(s, id, p, w);
    if !b.ok then b
    else
      var l := Lvstore(b.s, id, LvsName(arrayName, p.name), w);
      PoolAct(l.s, b.pool, l.ok)
  }

  function LvolEnsured(s: Spdk, name: Bdev, sizeMb: int, w: Wire): Act {
    match ProbeOf(name in s.lvols, w.reply(GetLvolBdev))
    case Raised => Act(s, false)
    case Present => Act(s, true)
    case Absent =>
      if !w.Up(CreateLvol) || name in s.lvols || name.lvstore !in s.lvstores then Act(s, false)
      else Act(s.(lvols := s.lvols[name := sizeMb]), true)
  }

  /** A "not found" answer counts as success. */
  function LvolDeleted(s: Spdk, name: Bdev, w: Wire): Act {
    if w.Up(DeleteLvol) then Act(s.(lvols := s.lvols - {name}), true) else Act(s, false)
  }

  function LvolResized(s: Spdk, name: Option<Bdev>, sizeMb: int, w: Wire): Act {
    if !w.Up(ResizeLvol) || name.None? || name.value !in s.lvols then Act(s, false)
    else Act(s.(lvols := s.lvols[name.value := sizeMb]), true)
  }

  // ---- Attaching a LUN or a namespace ------------------------------------------

  predicate Opens(s: Spdk, bdev: Option<Bdev>) { bdev.Some? && bdev.value in s.lvols }

  function IscsiMapping(s: Spdk, lun: int, bdev: Option<Bdev>, iqn: string, w: Wire): Act {
    if iqn == "" then Act(s, true)
    else if !w.Up(FindTarget) then Act(s, false)
    else if iqn !in s.targets then
      if !w.Up(CreateTarget) || !s.portalGroup || !s.initiatorGroup || !Opens(s, bdev) then Act(s, false)
      else Act(s.(targets := s.targets[iqn := map[lun := bdev.value]]), true)
    else if !w.Up(ListLuns) then Act(s, false)
    else if lun in s.targets[iqn] then Act(s, true)
    else if !w.Up(AddLun) || !Opens(s, bdev) then Act(s, false)
    else Act(s.(targets := s.targets[iqn := s.targets[iqn][lun := bdev.value]]), true)
  }

  function NvmeMapping(s: Spdk, nsid: int, bdev: Option<Bdev>, nqn: string, w: Wire): Act {
    if nqn == "" then Act(s, true)
    else if !w.Up(ListNamespaces) then Act(s, false)
    else if nsid in Table(s, Nvme, nqn) then Act(s, true)
    else if !w.Up(AddNamespace) || nqn !in s.subsystems || !Opens(s, bdev) then Act(s, false)
    else
      var sub := s.subsystems[nqn];
      Act(s.(subsystems := s.subsystems[nqn := sub.(namespaces := sub.namespaces[nsid := bdev.value])]), true)
  }

  function Exported(s: Spdk, ep: Endpoint, w: Wire): Act {
    match ep.protocol
    case Iscsi => IscsiExport(s, w)
    case Nvme => NvmeExport(s, ep, w)
    case _ => Act(s, true)
  }

  function Attach(s: Spdk, under: int, bdev: Option<Bdev>, ep: Endpoint, w: Wire): Act {
    match ep.protocol
    case Iscsi => IscsiMapping(s, under, bdev, ep.target, w)
    case Nvme => NvmeMapping(s, under, bdev, ep.target, w)
    case _ => Act(s, true)
  }

  predicate SameStorage(s: Spdk, s': Spdk) {
    s'.backing == s.backing && s'.lvstores == s.lvstores && s'.lvols == s.lvols
  }

  // ---- Detaching ------------------------------------------------------------------

  /** The iSCSI clean-up removes the whole target, not one LUN. */
  function TargetDeleted(s: Spdk, iqn: string, w: Wire): Act {
    match w.reply(DeleteTarget)
    case Served => Act(s.(targets := s.targets - {iqn}), true)
    case BadParams => Act(s, true)
    case _ => Act(s, false)
  }

  function NamespaceRemoved(s: Spdk, nqn: string, nsid: int, w: Wire): Act {
    if !w.Up(RemoveNamespace) then Act(s, false)
    else if nqn !in s.subsystems then Act(s, true)
    else
      var sub := s.subsystems[nqn];
      Act(s.(subsystems := s.subsystems[nqn := sub.(namespaces := sub.namespaces - {nsid})]), true)
  }

  function Detach(s: Spdk, under: int, ep: Endpoint, w: Wire): Act {
    if ep.target == "" then Act(s, true)
    else
      match ep.protocol
      case Iscsi => TargetDeleted(s, ep.target, w)
      case Nvme => NamespaceRemoved(s, ep.target, under, w)
      case _ => Act(s, true)
  }

  lemma {:induction false} ListenersOnly(s: Spdk, nqn: string, listeners: seq<string>, n: nat, w: Wire)
    requires n <= |listeners| && nqn in s.subsystems
    ensures var a := Listeners(s, nqn, listeners, n, w);
      && a.s.subsystems.Keys == s.subsystems.Keys
      && a.s.subsystems[nqn].namespaces == s.subsystems[nqn].namespaces
      && a.s == s.(subsystems := a.s.subsystems)
      && forall q :: q in s.subsystems && q != nqn ==> a.s.subsystems[q] == s.subsystems[q]
    decreases n
  {
    if n > 0 {
      ListenersOnly(s, nqn, listeners, n - 1, w);
    }
  }

  /** Subsystems may appear, empty; existing ones keep their namespaces. */
  ghost predicate SameNamespaces(s: Spdk, s': Spdk) {
    && (forall q :: q in s.subsystems ==>
          q in s'.subsystems && s'.subsystems[q].namespaces == s.subsystems[q].namespaces)
    && (forall q :: q in s'.subsystems && q !in s.subsystems ==> s'.subsystems[q].namespaces == map[])
  }

  lemma ListenersMade(s: Spdk, t: Spdk, nqn: string, listeners: seq<string>, w: Wire)
    requires t == s.(transport := t.transport) && nqn !in s.subsystems
    ensures var r := Listeners(t.(subsystems := s.subsystems[nqn := Subsystem([], map[])]), nqn, listeners, |listeners|,
                               w).s;
      r == s.(transport := r.transport, subsystems := r.subsystems) && SameNamespaces(s, r)
  {
    hide Listeners;
    ListenersOnly(t.(subsystems := s.subsystems[nqn := Subsystem([], map[])]), nqn, listeners, |listeners|, w);
  }

  lemma SameSubsystems(s: Spdk, s': Spdk)
    requires s'.subsystems == s.subsystems
    ensures SameNamespaces(s, s')
  {
  }

  lemma NvmeExported(s: Spdk, ep: Endpoint, w: Wire)
    ensures var r := NvmeExport(s, ep, w).s;
      r == s.(transport := r.transport, subsystems := r.subsystems) && SameNamespaces(s, r)
  {
    var t := Transport(s, w).s;
    hide SameNamespaces, Listeners;
    SameSubsystems(s, s);
    SameSubsystems(s, t);
    if ep.target !in s.subsystems {
      ListenersMade(s, t, ep.target, ep.listeners, w);
    }
  }

  /** Exporting an endpoint changes no LUN table, no namespace and no storage. */
  lemma ExportedOnly(s: Spdk, ep: Endpoint, w: Wire)
    ensures var r := Exported(s, ep, w).s; SameStorage(s, r) && r.targets == s.targets && SameNamespaces(s, r)
  {
    if ep.protocol == Nvme {
      NvmeExported(s, ep, w);
    }
  }

  lemma AttachedStorage(s: Spdk, under: int, bdev: Option<Bdev>, ep: Endpoint, w: Wire)
    ensures SameStorage(s, Attach(s, under, bdev, ep, w).s)
  {
  }

  lemma DetachedStorage(s: Spdk, under: int, ep: Endpoint, w: Wire)
    ensures SameStorage(s, Detach(s, under, ep, w).s)
  {
  }

  lemma SameTable(s: Spdk, s': Spdk, p: Protocol, t: string)
    requires s'.targets == s.targets && SameNamespaces(s, s')
    ensures Table(s', p, t) == Table(s, p, t)
  {
  }

  predicate Exports(ep: Endpoint) { ep.protocol in {Iscsi, Nvme} && ep.target != "" }

  /** All tables but the one of target `t` are the same. */
  ghost predicate OnlyTable(s: Spdk, s': Spdk, p: Protocol, t: string) {
    forall q, u {:trigger Table(s', q, u)} :: q != p || u != t ==> Table(s', q, u) == Table(s, q, u)
  }

  lemma PutTarget(s: Spdk, iqn: string, luns: map<int, Bdev>)
    ensures var s' := s.(targets := s.targets[iqn := luns]);
      OnlyTable(s, s', Iscsi, iqn)
      && Table(s', Iscsi, iqn) == luns
  {
  }

  lemma DropTarget(s: Spdk, iqn: string)
    ensures var s' := s.(targets := s.targets - {iqn}); OnlyTable(s, s', Iscsi, iqn) && Table(s', Iscsi, iqn) == map[]
  {
  }

  lemma PutSubsystem(s: Spdk, nqn: string, sub: Subsystem)
    ensures var s' := s.(subsystems := s.subsystems[nqn := sub]);
      OnlyTable(s, s', Nvme, nqn) && Table(s', Nvme, nqn) == sub.namespaces
  {
  }

  lemma OnlyTableRefl(s: Spdk, p: Protocol, t: string)
    ensures OnlyTable(s, s, p, t)
  {
  }

  /** Attaching adds at most the given id to the table of the endpoint's target; an id already
      there is left as it is, whatever it exposes. */
  lemma AttachEffect(s: Spdk, under: int, bdev: Option<Bdev>, ep: Endpoint, w: Wire)
    ensures var a := Attach(s, under, bdev, ep, w);
      && OnlyTable(s, a.s, ep.protocol, ep.target)
      && var before, after := Table(s, ep.protocol, ep.target), Table(a.s, ep.protocol, ep.target);
      && (after == before || (Opens(s, bdev) && under !in before && after == before[under := bdev.value]))
      && (a.ok && Exports(ep) ==> under in after)
      && (!a.ok || !Exports(ep) ==> after == before)
  {
    OnlyTableRefl(s, ep.protocol, ep.target);
    var a := Attach(s, under, bdev, ep, w);
    if a.s != s {
      var b := bdev.value;
      hide OnlyTable;
      match ep.protocol
      case Iscsi =>
        assert Table(s, Iscsi, ep.target) == if ep.target in s.targets then s.targets[ep.target] else map[];
        PutTarget(s, ep.target, if ep.target in s.targets then s.targets[ep.target][under := b] else map[under := b]);
      case Nvme =>
        var sub := s.subsystems[ep.target];
        PutSubsystem(s, ep.target, sub.(namespaces := sub.namespaces[under := b]));
    }
  }

  lemma DetachEffect(s: Spdk, under: int, ep: Endpoint, w: Wire)
    ensures var a := Detach(s, under, ep, w);
      && OnlyTable(s, a.s, ep.protocol, ep.target)
      && var before, after := Table(s, ep.protocol, ep.target), Table(a.s, ep.protocol, ep.target);
      && (ep.protocol == Iscsi && ep.target != "" && w.Up(DeleteTarget) ==> after == map[])
      && (ep.protocol == Nvme && ep.target != "" && w.Up(RemoveNamespace) ==> after == before - {under})
      && (ep.protocol == Iscsi && !w.Up(DeleteTarget) ==> after == before)
      && (ep.protocol == Nvme && !w.Up(RemoveNamespace) ==> after == before)
      && (!Exports(ep) ==> after == before)
  {
    OnlyTableRefl(s, ep.protocol, ep.target);
    hide OnlyTable;
    if Exports(ep) {
      if ep.protocol == Iscsi {
        DropTarget(s, ep.target);
      } else if ep.target in s.subsystems {
        var sub := s.subsystems[ep.target];
        PutSubsystem(s, ep.target, sub.(namespaces := sub.namespaces - {under}));
      }
    }
  }

  lemma BackingEffect(s: Spdk, id: Id, p: Pool, w: Wire)
    ensures var a := BackingBdev(s, id, p, w);
      && a.s == s.(backing := a.s.backing)
      && s.backing <= a.s.backing <= s.backing + {id}
      && a.pool == p.(sizeMb := a.pool.sizeMb) && (p.backend != AioFile ==> a.pool == p)
      && (a.ok ==> id in a.s.backing && (id in s.backing || BackendUsable(p)))
      && (id in s.backing ==> a.pool == p)
  {
  }

  lemma LvstoreEffect(s: Spdk, id: Id, lvs: string, w: Wire)
    ensures var a := Lvstore(s, id, lvs, w);
      && a.s == s.(lvstores := a.s.lvstores)
      && (a.s.lvstores == s.lvstores || (a.ok && lvs !in s.lvstores && a.s.lvstores == s.lvstores[lvs := id]))
      && (a.ok ==> lvs in a.s.lvstores)
  {
  }

  /** A pool step adds the backing bdev and, last, the store; it re-points neither. */
  lemma PoolEffect(s: Spdk, id: Id, p: Pool, arrayName: string, w: Wire)
    ensures var a := PoolEnsured(s, id, p, arrayName, w);
      && a.s == s.(backing := a.s.backing, lvstores := a.s.lvstores)
      && s.backing <= a.s.backing <= s.backing + {id}
      && (a.s.lvstores == s.lvstores
          || (a.ok && LvsName(arrayName, p.name) !in s.lvstores
              && a.s.lvstores == s.lvstores[LvsName(arrayName, p.name) := id]))
      && a.pool == p.(sizeMb := a.pool.sizeMb) && (p.backend != AioFile ==> a.pool == p)
      && (a.ok ==> LvsName(arrayName, p.name) in a.s.lvstores && id in a.s.backing
                   && (id in s.backing || BackendUsable(p)))
      && (BackendUsable(p) ==> BackendUsable(a.pool))
      && (id in s.backing ==> a.pool == p)
  {
    BackingEffect(s, id, p, w);
    LvstoreEffect(BackingBdev(s, id, p, w).s, id, LvsName(arrayName, p.name), w);
    hide BackingBdev, Lvstore, LvsName;
  }
}
