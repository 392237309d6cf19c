/** The shared parts of SPDK and the listeners of NVMe-oF subsystems after a reconcile pass. */
module ReconcileListeners {
  import opened Model
  import opened Ensure
  import opened Reconcile
  import opened Invariants
  import opened NvmeListeners
  import opened Replies
  import opened ReconcileProofs
  import opened ReconcileSound

  /** From any SPDK state: a pass whose own calls for them are served leaves both iSCSI groups and the
      NVMe-oF transport, also when no endpoint needs them. */
  lemma PassShares(w: World, o: RowOrder, wires: Wires)
    requires OrderOf(o, w.db)
    ensures var s, g := Reconciled(w, o, wires).spdk, wires(GroupsSite);
      var portal := g.reply(GetPortalGroups) == Served && (w.spdk.portalGroup || g.reply(CreatePortalGroup) == Served);
      && (portal ==> s.portalGroup)
      && (portal && g.reply(GetInitiatorGroups) == Served && g.reply(CreateInitiatorGroup) == Served ==>
            s.initiatorGroup)
      && (wires(TransportSite).reply(CreateTransport) == Served ==> s.transport)
  {
    GroupsByReplies(w.spdk, wires(GroupsSite));
    TransportByReply(IscsiExport(w.spdk, wires(GroupsSite)).s, wires(TransportSite));
    PassGrows(w, o, wires);
    hide IscsiExport, Transport, TablesGrow, AfterPools, AfterVolumes, AfterEndpoints, Reconciled, OrderOf;
  }

  /** Endpoint `e` is the only NVMe-oF endpoint that names its NQN. */
  ghost predicate SoleNqn(endpoints: map<Id, Endpoint>, e: Id) {
    && e in endpoints && endpoints[e].protocol == Nvme && endpoints[e].target != ""
    && forall f :: f in endpoints && endpoints[f].protocol == Nvme && endpoints[f].target == endpoints[e].target ==>
      f == e
  }

  /** An export through any other target leaves the subsystem alone, and makes none of its name. */
  lemma OtherExport(s: Spdk, ep: Endpoint, w: Wire, nqn: string)
    requires ep.protocol != Nvme || ep.target != nqn
    ensures var t := Exported(s, ep, w).s;
      (nqn in t.subsystems <==> nqn in s.subsystems) && ListenersOf(t, nqn) == ListenersOf(s, nqn)
  {
    if ep.protocol == Nvme && ep.target != "" {
      SubsystemByReplies(s, ep, w);
      hide NvmeExport, AllListenersServed;
    }
  }

  /** The subsystem is there with the endpoint's listeners. */
  ghost predicate Listens(s: Spdk, ep: Endpoint) {
    ep.target in s.subsystems && s.subsystems[ep.target].listeners == ep.listeners
  }

  lemma OwnExport(s: Spdk, ep: Endpoint, w: Wire)
    requires ep.protocol == Nvme && ep.target != "" && w.Clean() && (ep.target in s.subsystems ==> Listens(s, ep))
    ensures Listens(Exported(s, ep, w).s, ep)
  {
    assert w.Up(CreateTransport) && w.Up(FindSubsystem) && w.Up(CreateSubsystem);
    assert forall i: nat :: w.Up(AddListener(i));
    SubsystemByReplies(s, ep, w);
    hide NvmeExport;
  }

  /** Through the endpoint loop a missing subsystem gets its endpoint's listeners, whatever fails elsewhere. */
  lemma {:induction false} LoopListens(endpoints: map<Id, Endpoint>, s: Spdk, order: seq<Id>, wires: Wires, e: Id)
    requires forall i :: i in order ==> i in endpoints
    requires SoleNqn(endpoints, e) && wires(EndpointSite(e)).Clean() && endpoints[e].target !in s.subsystems
    ensures var t := EndpointPass(endpoints, s, order, wires);
      && (e in order ==> Listens(t, endpoints[e]))
      && (endpoints[e].target in t.subsystems ==> Listens(t, endpoints[e]))
    decreases |order|
  {
    if order != [] {
      var k := |order| - 1;
      var y := EndpointPass(endpoints, s, order[..k], wires);
      assert order == order[..k] + [order[k]];
      hide Exported;
      LoopListens(endpoints, s, order[..k], wires, e);
      if order[k] == e {
        OwnExport(y, endpoints[e], wires(EndpointSite(e)));
      } else {
        OtherExport(y, endpoints[order[k]], wires(EndpointSite(order[k])), endpoints[e].target);
      }
    }
  }

  /** A subsystem that is there keeps its listeners. */
  lemma KeepsListeners(s: Spdk, s': Spdk, ep: Endpoint)
    requires Grows(s, s') && ep.target in s.subsystems
    ensures ep.target in s'.subsystems && s'.subsystems[ep.target].listeners == s.subsystems[ep.target].listeners
  {
  }

  lemma BeforeEndpoints(w: World, o: RowOrder, wires: Wires)
    requires Inv(w) && OrderOf(o, w.db)
    ensures AfterVolumes(w, o, wires).s.subsystems == w.spdk.subsystems
  {
    hide Inv, OrderOf, AfterPools, AfterVolumes, VolumesOk, SamePools, SpdkIssued, Claims;
    AfterPoolsOk(w, o, wires);
    AfterVolumesOk(w, o, wires);
  }

  /** From any SPDK state: after a pass that serves the calls of an NVMe-oF endpoint with an NQN of its own,
      the subsystem has exactly the endpoint's listeners if and only if it did not exist before, or had
      them; whatever fails for other items and the shared parts. */
  lemma PassListensIff(w: World, o: RowOrder, wires: Wires, e: Id)
    requires Inv(w) && OrderOf(o, w.db) && SoleNqn(w.db.endpoints, e) && wires(EndpointSite(e)).Clean()
    ensures var ep := w.db.endpoints[e];
      Listens(Reconciled(w, o, wires).spdk, ep) <==> ep.target !in w.spdk.subsystems || Listens(w.spdk, ep)
  {
    var ep := w.db.endpoints[e];
    assert e in o.endpoints;
    BeforeEndpoints(w, o, wires);
    ReconcileMonotone(w, o, wires);
    PassGrows(w, o, wires);
    hide Inv, AfterPools, AfterVolumes, Reconciled, EndpointPass, Grows, SoleNqn;
    if ep.target in w.spdk.subsystems {
      KeepsListeners(w.spdk, Reconciled(w, o, wires).spdk, ep);
    } else {
      LoopListens(w.db.endpoints, AfterVolumes(w, o, wires).s, o.endpoints, wires, e);
      KeepsListeners(AfterEndpoints(w, o, wires), Reconciled(w, o, wires).spdk, ep);
    }
  }
}
