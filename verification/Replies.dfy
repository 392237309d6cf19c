/** Which replies make an SPDK operation succeed, and what it then leaves. */
module Replies {
  import opened Model
  import opened Ensure
  import opened NvmeListeners

  // ---- Shared groups and transport --------------------------------------------------------------

  /** A group is there afterwards exactly when it was, or both its calls are served. */
  lemma GroupsByReplies(s: Spdk, w: Wire)
    ensures var a := IscsiExport(s, w);
      var portal := w.reply(GetPortalGroups) == Served && (s.portalGroup || w.reply(CreatePortalGroup) == Served);
      var initiator := w.reply(GetInitiatorGroups) == Served
                       && (s.initiatorGroup || w.reply(CreateInitiatorGroup) == Served);
      && (a.ok <==> portal && initiator)
      && a.s == s.(portalGroup := s.portalGroup || portal, initiatorGroup := s.initiatorGroup || (portal && initiator))
  {
  }

  /** Code -32602 counts as success and makes no transport. */
  lemma TransportByReply(s: Spdk, w: Wire)
    ensures Transport(s, w).ok <==> w.reply(CreateTransport) in {Served, BadParams}
    ensures Transport(s, w).s == s.(transport := s.transport || w.reply(CreateTransport) == Served)
  {
  }

  ghost predicate AllListenersServed(n: nat, w: Wire) { forall i: nat :: i < n ==> w.reply(AddListener(i)) == Served }

  lemma NewSubsystem(t: Spdk, nqn: string, listeners: seq<string>, w: Wire)
    requires nqn !in t.subsystems
    ensures var made := t.(subsystems := t.subsystems[nqn := Subsystem([], map[])]);
      var a := Listeners(made, nqn, listeners, |listeners|, w);
      && (a.ok <==> listeners == [] || (t.transport && AllListenersServed(|listeners|, w)))
      && (a.ok ==> ListenersOf(a.s, nqn) == listeners)
      && a.s == t.(subsystems := t.subsystems[nqn := Subsystem(ListenersOf(a.s, nqn), map[])])
      && ListenersOf(a.s, nqn) <= listeners
  {
    var made := t.(subsystems := t.subsystems[nqn := Subsystem([], map[])]);
    var done := ListenersPrefix(made, nqn, listeners, |listeners|, w);
    ListenersOnly(made, nqn, listeners, |listeners|, w);
    var a := Listeners(made, nqn, listeners, |listeners|, w);
    hide Listeners;
    assert listeners[..|listeners|] == listeners;
    assert a.s.subsystems == t.subsystems[nqn := Subsystem(ListenersOf(a.s, nqn), map[])];
  }

  /** An NVMe-oF export succeeds exactly when the transport call is tolerated, the look-up is served, and
      the subsystem is there or is made with all its listeners.  A subsystem that is there stays as it is;
      a new one gets the endpoint's listeners, up to the first that fails, and nothing else changes. */
  lemma SubsystemByReplies(s: Spdk, ep: Endpoint, w: Wire)
    requires ep.target != ""
    ensures var a := NvmeExport(s, ep, w);
      var t := s.(transport := s.transport || w.reply(CreateTransport) == Served);
      var reached := w.reply(CreateTransport) in {Served, BadParams} && w.reply(FindSubsystem) == Served;
      var made := reached && ep.target !in s.subsystems && w.reply(CreateSubsystem) == Served;
      && (a.ok <==>
            (reached && ep.target in s.subsystems)
            || (made && (ep.listeners == [] || (t.transport && AllListenersServed(|ep.listeners|, w)))))
      && (!made ==> a.s == t)
      && (made ==> a.s == t.(subsystems := s.subsystems[ep.target := Subsystem(ListenersOf(a.s, ep.target), map[])])
                   && ListenersOf(a.s, ep.target) <= ep.listeners)
      && (made && a.ok ==> ListenersOf(a.s, ep.target) == ep.listeners)
  {
    TransportByReply(s, w);
    hide Listeners, Transport, AllListenersServed;
    if ep.target !in s.subsystems {
      NewSubsystem(Transport(s, w).s, ep.target, ep.listeners, w);
    }
  }

  // ---- Pools and lvols ----------------------------------------------------------------------------

  /** A backing bdev can be made of the pool's row: a Malloc size, or an AIO path. */
  predicate Makeable(p: Pool) {
    (p.backend == Malloc && p.sizeMb !in {None, Some(0)}) || (p.backend == AioFile && p.aioPath != "")
  }

  predicate BackingFound(s: Spdk, id: Id, w: Wire) { id in s.backing && w.reply(GetBackingBdev) == Served }

  /** An error reply to the look-up counts as absent; a lost connection does not. */
  predicate BackingMade(s: Spdk, id: Id, p: Pool, w: Wire) {
    id !in s.backing && w.reply(GetBackingBdev) != Lost && Makeable(p) && w.reply(CreateBacking) == Served
  }

  /** The file size is read back whenever an AIO bdev is made: 512-byte blocks as whole MiB. */
  lemma BackingByReplies(s: Spdk, id: Id, p: Pool, w: Wire)
    ensures var a := BackingBdev(s, id, p, w);
      var made := BackingMade(s, id, p, w);
      && (a.ok <==> BackingFound(s, id, w)
                    || (made && (p.backend == Malloc || w.reply(ReadBackingSize) == Served)))
      && a.s == s.(backing := if made then s.backing + {id} else s.backing)
      && a.pool == p.(sizeMb := if made && p.backend == AioFile && w.reply(ReadBackingSize) == Served
                                then Some(w.aioBlocks * 512 / 1048576) else p.sizeMb)
  {
  }

  /** The store is found, or it is made on the pool's own bdev, which may carry no other. */
  predicate StoreFound(s: Spdk, lvs: string, w: Wire) { lvs in s.lvstores && w.reply(GetLvstore) == Served }

  ghost predicate StoreMade(s: Spdk, id: Id, lvs: string, w: Wire) {
    && lvs !in s.lvstores && w.reply(GetLvstore) != Lost && w.reply(CreateLvstore) == Served
    && id in s.backing && forall n :: n in s.lvstores ==> s.lvstores[n] != id
  }

  lemma StoreByReplies(s: Spdk, id: Id, lvs: string, w: Wire)
    ensures var a := Lvstore(s, id, lvs, w);
      && (a.ok <==> StoreFound(s, lvs, w) || StoreMade(s, id, lvs, w))
      && a.s == s.(lvstores := if StoreMade(s, id, lvs, w) then s.lvstores[lvs := id] else s.lvstores)
  {
    assert id in s.lvstores.Values <==> exists n :: n in s.lvstores && s.lvstores[n] == id;
  }

  /** A pool is ensured exactly when its backing bdev and then its store `array.pool` are found or made. */
  lemma PoolByReplies(s: Spdk, id: Id, p: Pool, arrayName: string, w: Wire)
    ensures var a, lvs := PoolEnsured(s, id, p, arrayName, w), arrayName + "." + p.name;
      var made := BackingMade(s, id, p, w);
      var t := s.(backing := if made then s.backing + {id} else s.backing);
      && (a.ok <==> (BackingFound(s, id, w) || (made && (p.backend == Malloc || w.reply(ReadBackingSize) == Served)))
                    && (StoreFound(s, lvs, w) || StoreMade(t, id, lvs, w)))
      && a.pool == p.(sizeMb := if made && p.backend == AioFile && w.reply(ReadBackingSize) == Served
                                then Some(w.aioBlocks * 512 / 1048576) else p.sizeMb)
      && a.s.(lvstores := s.lvstores) == t
      && (a.ok ==> a.s.lvstores == if lvs in s.lvstores then s.lvstores else s.lvstores[lvs := id])
      && (!a.ok ==> a.s.lvstores == s.lvstores)
  {
    BackingByReplies(s, id, p, w);
    StoreByReplies(BackingBdev(s, id, p, w).s, id, LvsName(arrayName, p.name), w);
    hide BackingBdev, Lvstore, Makeable;
  }

  predicate LvolMade(s: Spdk, name: Bdev, w: Wire) {
    && name !in s.lvols && name.lvstore in s.lvstores
    && w.reply(GetLvolBdev) != Lost && w.reply(CreateLvol) == Served
  }

  lemma LvolByReplies(s: Spdk, name: Bdev, sizeMb: int, w: Wire)
    ensures var a := LvolEnsured(s, name, sizeMb, w);
      && (a.ok <==> (name in s.lvols && w.reply(GetLvolBdev) == Served) || LvolMade(s, name, w))
      && a.s == s.(lvols := if LvolMade(s, name, w) then s.lvols[name := sizeMb] else s.lvols)
  {
  }

  // ---- LUNs and namespaces --------------------------------------------------------------------------

  ghost predicate LunFound(s: Spdk, lun: int, iqn: string, w: Wire) {
    w.reply(FindTarget) == Served && iqn in s.targets && w.reply(ListLuns) == Served && lun in s.targets[iqn]
  }

  /** A LUN is added to the target that is there, or made with the target. */
  ghost predicate LunMade(s: Spdk, lun: int, bdev: Option<Bdev>, iqn: string, w: Wire) {
    && w.reply(FindTarget) == Served && bdev.Some? && bdev.value in s.lvols
    && if iqn in s.targets then w.reply(ListLuns) == Served && lun !in s.targets[iqn] && w.reply(AddLun) == Served
       else w.reply(CreateTarget) == Served && s.portalGroup && s.initiatorGroup
  }

  lemma LunByReplies(s: Spdk, lun: int, bdev: Option<Bdev>, iqn: string, w: Wire)
    requires iqn != ""
    ensures var a := IscsiMapping(s, lun, bdev, iqn, w);
      && (a.ok <==> LunFound(s, lun, iqn, w) || LunMade(s, lun, bdev, iqn, w))
      && a.s == s.(targets := if LunMade(s, lun, bdev, iqn, w)
                              then s.targets[iqn := Table(s, Iscsi, iqn)[lun := bdev.value]] else s.targets)
  {
  }

  ghost predicate NamespaceFound(s: Spdk, nsid: int, nqn: string, w: Wire) {
    w.reply(ListNamespaces) == Served && nqn in s.subsystems && nsid in s.subsystems[nqn].namespaces
  }

  ghost predicate NamespaceMade(s: Spdk, nsid: int, bdev: Option<Bdev>, nqn: string, w: Wire) {
    && w.reply(ListNamespaces) == Served && nqn in s.subsystems && nsid !in s.subsystems[nqn].namespaces
    && w.reply(AddNamespace) == Served && bdev.Some? && bdev.value in s.lvols
  }

  lemma NamespaceByReplies(s: Spdk, nsid: int, bdev: Option<Bdev>, nqn: string, w: Wire)
    requires nqn != ""
    ensures var a := NvmeMapping(s, nsid, bdev, nqn, w);
      && (a.ok <==> NamespaceFound(s, nsid, nqn, w) || NamespaceMade(s, nsid, bdev, nqn, w))
      && (!NamespaceMade(s, nsid, bdev, nqn, w) ==> a.s == s)
      && (NamespaceMade(s, nsid, bdev, nqn, w) ==>
            var sub := s.subsystems[nqn];
            a.s == s.(subsystems := s.subsystems[nqn := Subsystem(sub.listeners, sub.namespaces[nsid := bdev.value])]))
  {
  }

  /** Clean-up: a served iSCSI deletion takes the target with all its LUNs, a served NVMe-oF one only the
      namespace; any other reply changes nothing, and code -32602 to the iSCSI deletion is no error. */
  lemma DetachByReply(s: Spdk, under: int, ep: Endpoint, w: Wire)
    ensures Detach(s, under, ep, w).ok <==>
      || ep.target == "" || ep.protocol !in {Iscsi, Nvme}
      || (ep.protocol == Iscsi && w.reply(DeleteTarget) in {Served, BadParams})
      || (ep.protocol == Nvme && w.reply(RemoveNamespace) == Served)
    ensures var after := Detach(s, under, ep, w).s;
      && after == s.(targets := after.targets, subsystems := after.subsystems)
      && after.targets == (if ep.protocol == Iscsi && ep.target != "" && w.reply(DeleteTarget) == Served
                           then s.targets - {ep.target} else s.targets)
      && (ep.protocol == Nvme && ep.target in s.subsystems && ep.target != "" && w.reply(RemoveNamespace) == Served ==>
            var sub := s.subsystems[ep.target];
            after.subsystems == s.subsystems[ep.target := Subsystem(sub.listeners, sub.namespaces - {under})])
      && (ep.protocol != Nvme || ep.target !in s.subsystems || ep.target == "" || w.reply(RemoveNamespace) != Served ==>
            after.subsystems == s.subsystems)
  {
  }
}
