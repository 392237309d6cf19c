/** What single mapping requests do when calls fail or when SPDK holds more than the database says. */
module MappingFailures {
  import opened Model
  import opened Ensure
  import opened Mappings
  import opened Alloc
  import opened Invariants
  import opened DbSteps
  import opened ExportSteps
  import opened ReconcileProofs

  // ---- Creation fails ----------------------------------------------------------------------

  lemma AttachAllOrNothing(s: Spdk, under: int, bdev: Option<Bdev>, ep: Endpoint, wire: Wire)
    requires !Attach(s, under, bdev, ep, wire).ok
    ensures Attach(s, under, bdev, ep, wire).s == s
  {
  }

  /** Whichever call fails, a failed creation leaves every row and every LUN and namespace entry as
      it was; at most a shared group, the transport, or an empty subsystem with listeners is new, and
      nothing is removed. */
  lemma FailedMappingLeavesNothing(w: World, a: MapArgs, wire: Wire)
    requires CreateMapping(w, a, wire).r.Err?
    ensures var w' := Committed(w, CreateMapping(w, a, wire));
      && w'.db == w.db
      && w'.spdk == w.spdk.(portalGroup := w'.spdk.portalGroup, initiatorGroup := w'.spdk.initiatorGroup,
                            transport := w'.spdk.transport, subsystems := w'.spdk.subsystems)
      && Grows(w.spdk, w'.spdk) && SameNamespaces(w.spdk, w'.spdk) && SameTables(w.spdk, w'.spdk)
      && forall q :: q in w.spdk.subsystems ==> w'.spdk.subsystems[q] == w.spdk.subsystems[q]
  {
    var res := CreateMapping(w, a, wire);
    if res.w != w {
      var m := res.w.db.mappings[w.serial];
      WireGrows(w.db.(mappings := w.db.mappings[w.serial := m]), w.spdk, m.under, w.db.volumes[a.volume],
                w.db.endpoints[m.underlay], wire);
      WireFails(w.db.(mappings := w.db.mappings[w.serial := m]), w.spdk, m.under, w.db.volumes[a.volume],
                w.db.endpoints[m.underlay], wire);
    }
    hide CreateMapping;
    forall p, t
      ensures Table(res.w.spdk, p, t) == Table(w.spdk, p, t)
    {
      SameTable(w.spdk, res.w.spdk, p, t);
    }
  }

  lemma WireGrows(db: Db, s: Spdk, under: int, v: Volume, ep: Endpoint, wire: Wire)
    ensures Grows(s, WireUnderlay(db, s, under, v, ep, wire).s)
  {
    assert Grows(s, s);
    hide Exported, Attach, Grows;
    var e := Exported(s, ep, wire).s;
    ExportGrows(s, ep, wire);
    AttachGrows(e, under, v.bdev, ep, wire);
    GrowsTrans(s, e, Attach(e, under, v.bdev, ep, wire).s);
  }

  lemma WireFails(db: Db, s: Spdk, under: int, v: Volume, ep: Endpoint, wire: Wire)
    requires !WireUnderlay(db, s, under, v, ep, wire).ok
    ensures var r := WireUnderlay(db, s, under, v, ep, wire).s;
      && r == s.(portalGroup := r.portalGroup, initiatorGroup := r.initiatorGroup, transport := r.transport,
                 subsystems := r.subsystems)
      && SameNamespaces(s, r) && forall q :: q in s.subsystems ==> r.subsystems[q] == s.subsystems[q]
  {
    ExportedOnly(s, ep, wire);
    NvmeExportListeners(s, ep, wire);
    var e := Exported(s, ep, wire);
    assert forall q :: q in s.subsystems ==> e.s.subsystems[q] == s.subsystems[q];
    hide Exported, Attach;
    if e.ok && (ep.protocol != Nvme || v.arr in db.arrays) {
      AttachAllOrNothing(e.s, under, v.bdev, ep, wire);
    }
  }

  // ---- Creation succeeds ---------------------------------------------------------------------

  /** The bdev an id of an endpoint's target exposes. */
  function Exposed(s: Spdk, ep: Endpoint, n: int): Option<Bdev> {
    if n in Table(s, ep.protocol, ep.target) then Some(Table(s, ep.protocol, ep.target)[n]) else None
  }

  /** From any SPDK state: a successful creation exposes the volume's own bdev if and only if the
      target's table did not hold the allocated id, or held it for that bdev already. */
  lemma CreationExposesOwnIff(w: World, a: MapArgs, wire: Wire)
    requires Inv(w) && CreateMapping(w, a, wire).r.Ok?
    ensures var w' := CreateMapping(w, a, wire).w;
      && w.serial in w'.db.mappings && w'.db.mappings[w.serial].underlay in w.db.endpoints && a.volume in w.db.volumes
      && var m := w'.db.mappings[w.serial];
      var ep, n := w.db.endpoints[m.underlay], NewUnder(w.db, m.underlay, a.base);
      && m.under == n
      && (Exports(ep) ==>
            (Exposed(w'.spdk, ep, n) == w.db.volumes[a.volume].bdev <==>
             Exposed(w.spdk, ep, n) in {None, w.db.volumes[a.volume].bdev}))
  {
    Created(w, a, wire);
    hide Inv, CreateMapping, NewUnder, Table;
    CreateMappingEffect(w, a, wire);
  }

  lemma Created(w: World, a: MapArgs, wire: Wire)
    requires CreateMapping(w, a, wire).r.Ok?
    ensures CreateMapping(w, a, wire).w != w && w.serial in CreateMapping(w, a, wire).w.db.mappings
  {
  }

  /** When SPDK holds no more than the database explains, the condition above is met. */
  lemma SoundCreationExposesOwn(w: World, a: MapArgs, wire: Wire)
    requires Inv(w) && ExportInv(w) && CreateMapping(w, a, wire).r.Ok?
    ensures var w' := CreateMapping(w, a, wire).w;
      && w.serial in w'.db.mappings && w'.db.mappings[w.serial].underlay in w.db.endpoints && a.volume in w.db.volumes
      && var ep := w.db.endpoints[w'.db.mappings[w.serial].underlay];
      Exports(ep) ==> Exposed(w'.spdk, ep, w'.db.mappings[w.serial].under) == w.db.volumes[a.volume].bdev
  {
    hide Inv, CreateMapping, Sound, NoDangling, Claims, Distinct, LeastFree, Table;
    CreationExposesOwnIff(w, a, wire);
    var m := CreateMapping(w, a, wire).w.db.mappings[w.serial];
    if Exports(w.db.endpoints[m.underlay]) {
      FreshInSpdk(w.db, w.spdk, m.underlay);
    }
  }

  // ---- Deletion --------------------------------------------------------------------------------

  /** Deleting one mapping takes another mapping's entry away if and only if both use one iSCSI
      endpoint and the target deletion is served: the clean-up removes the whole target. */
  lemma DeletionKeepsSiblingIff(w: World, id: Id, wire: Wire, k: Id)
    requires DbOk(w.db) && Distinct(w.db.endpoints) && id in w.db.mappings && k in w.db.mappings && k != id
    requires w.db.mappings[id].underlay in w.db.endpoints && w.db.mappings[k].underlay in w.db.endpoints
    requires Exports(w.db.endpoints[w.db.mappings[k].underlay])
    requires Exposed(w.spdk, w.db.endpoints[w.db.mappings[k].underlay], w.db.mappings[k].under).Some?
    ensures var ep, n := w.db.endpoints[w.db.mappings[k].underlay], w.db.mappings[k].under;
      Exposed(DeleteMapping(w, id, wire).w.spdk, ep, n) == Exposed(w.spdk, ep, n) <==>
        !(w.db.mappings[id].underlay == w.db.mappings[k].underlay && ep.protocol == Iscsi && wire.Up(DeleteTarget))
  {
    var m, row := w.db.mappings[id], w.db.mappings[k];
    var ep, e := w.db.endpoints[m.underlay], w.db.endpoints[row.underlay];
    DeletionDetaches(w, id, wire);
    assert e.protocol == ep.protocol && e.target == ep.target <==> row.underlay == m.underlay;
    assert row.underlay == m.underlay ==> row.under != m.under;
    hide Detach, DeleteMapping, Exposed, DbOk, Distinct;
    DetachKeepsIff(w.spdk, m.under, ep, wire, e, row.under);
  }

  lemma DeletionDetaches(w: World, id: Id, wire: Wire)
    requires id in w.db.mappings && w.db.mappings[id].underlay in w.db.endpoints
    ensures var m := w.db.mappings[id];
      DeleteMapping(w, id, wire).w.spdk == Detach(w.spdk, m.under, w.db.endpoints[m.underlay], wire).s
  {
  }

  lemma DetachKeepsIff(s: Spdk, under: int, ep: Endpoint, wire: Wire, e: Endpoint, n: int)
    requires Exports(e) && Exposed(s, e, n).Some?
    requires e.protocol == ep.protocol && e.target == ep.target ==> n != under
    ensures Exposed(Detach(s, under, ep, wire).s, e, n) == Exposed(s, e, n) <==>
      !(e.protocol == ep.protocol && e.target == ep.target && e.protocol == Iscsi && wire.Up(DeleteTarget))
  {
  }
}
