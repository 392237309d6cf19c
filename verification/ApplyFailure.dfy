/** When an apply that fails, whose rows are discarded, leaves the exports explained. */
module ApplyFailure {
  import opened Model
  import opened Ensure
  import opened Mappings
  import opened Alloc
  import opened Topology
  import opened Apply
  import opened Invariants
  import opened DbSteps
  import opened ExportSteps
  import opened ReconcileProofs
  import opened SteadySteps
  import opened GoodSteps
  import opened ApplyGood
  import opened ApplyResidue

  /** Id `n` of target `t` is that of mapping row `m`. */
  ghost predicate EntryOf(db: Db, m: Id, p: Protocol, t: string, n: int) {
    && m in db.mappings && db.mappings[m].underlay in db.endpoints && db.mappings[m].under == n
    && db.endpoints[db.mappings[m].underlay].protocol == p && db.endpoints[db.mappings[m].underlay].target == t
        && t != ""
  }

  ghost predicate NewEntry(db: Db, db': Db, m: Id, p: Protocol, t: string, n: int) {
    m !in db.mappings && EntryOf(db', m, p, t, n)
  }

  lemma OneEntry(db: Db, m: Id, k: Id, p: Protocol, t: string, n: int)
    requires UnderUnique(db.mappings) && Distinct(db.endpoints) && EntryOf(db, m, p, t, n) && EntryOf(db, k, p, t, n)
    ensures m == k
  {
    assert db.mappings[m].underlay == db.mappings[k].underlay;
  }

  /** What the working state of an apply has added so far: every new entry is that of a new row. */
  ghost predicate Trace(w: World, w': World) {
    && Sub(w.db.mappings, w'.db.mappings) && Sub(w.db.endpoints, w'.db.endpoints) && UnderUnique(w'.db.mappings)
    && TablesGrow(w.spdk, w'.spdk)
    && forall p, t, n :: n in Table(w'.spdk, p, t) && n !in Table(w.spdk, p, t) ==>
        exists m :: NewEntry(w.db, w'.db, m, p, t, n)
  }

  lemma TraceTrans(a: World, b: World, c: World)
    requires Trace(a, b) && Trace(b, c)
    ensures Trace(a, c)
  {
    hide Table;
    forall p, t, n | n in Table(c.spdk, p, t) && n !in Table(a.spdk, p, t)
      ensures exists m :: NewEntry(a.db, c.db, m, p, t, n)
    {
      if n in Table(b.spdk, p, t) {
        var m :| NewEntry(a.db, b.db, m, p, t, n);
        assert NewEntry(a.db, c.db, m, p, t, n);
      } else {
        var m :| NewEntry(b.db, c.db, m, p, t, n);
        assert NewEntry(a.db, c.db, m, p, t, n);
      }
    }
  }

  lemma QuietTrace(w: World, w': World)
    requires Inv(w) && Unmapping(w, w')
    ensures Trace(w, w')
  {
    hide Residue;
    TablesGrowSame(w.spdk, w'.spdk);
    assert forall p, t :: Table(w'.spdk, p, t) == Table(w.spdk, p, t);
  }

  lemma CreateMappingTrace(w: World, a: MapArgs, wire: Wire)
    requires Inv(w)
    ensures Trace(w, CreateMapping(w, a, wire).w)
  {
    var res := CreateMapping(w, a, wire);
    if res.w != w {
      SerialFresh(w);
      assert UnderUnique(w.db.mappings);
      hide Inv, CreateMapping, NewUnder, LeastFree, Table, OnlyTable, TablesGrow, UnderUnique;
      CreateMappingEffect(w, a, wire);
      var m, v := res.w.db.mappings[w.serial], w.db.volumes[a.volume];
      var ep := w.db.endpoints[m.underlay];
      OneMore(w.spdk, res.w.spdk, ep.protocol, ep.target, m.under, v.bdev);
      UnderFresh(w.db, m, w.serial, a.base);
      forall p, t, n | n in Table(res.w.spdk, p, t) && n !in Table(w.spdk, p, t)
        ensures exists k :: NewEntry(w.db, res.w.db, k, p, t, n)
      {
        OnlyThere(w.spdk, res.w.spdk, ep.protocol, ep.target, p, t, n);
        assert NewEntry(w.db, res.w.db, w.serial, p, t, n);
      }
    } else {
      TablesGrowSame(w.spdk, w.spdk);
    }
  }

  lemma UnderFresh(db: Db, m: Mapping, id: Id, base: int)
    requires UnderUnique(db.mappings) && m.underlay in db.endpoints && m.under == NewUnder(db, m.underlay, base)
    ensures UnderUnique(db.mappings[id := m])
  {
    forall n | n in db.mappings && db.mappings[n].underlay == m.underlay
      ensures db.mappings[n].under in UsedUnder(db, m.underlay)
    {
    }
    hide LeastFree;
  }

  lemma OnlyThere(s: Spdk, s': Spdk, p: Protocol, t: string, q: Protocol, u: string, n: int)
    requires OnlyTable(s, s', p, t) && n in Table(s', q, u) && n !in Table(s, q, u)
    ensures q == p && u == t
  {
    hide Table;
  }

  lemma MappingStepTrace(x: Phase, hosts: map<string, Id>, volumes: map<string, Id>, m: MappingSpec, base: int,
                         wire: Wire)
    requires Inv(x.w)
    ensures Trace(x.w, MappingStep(x, hosts, volumes, m, base, wire).w)
  {
    assert UnderUnique(x.w.db.mappings);
    hide Inv, CreateMapping, Trace;
    TraceRefl(x.w);
    if m.host in hosts && m.volume in volumes {
      CreateMappingTrace(x.w, Request(hosts[m.host], volumes[m.volume], m.protocol, base), wire);
    }
  }

  lemma TraceRefl(w: World)
    requires UnderUnique(w.db.mappings)
    ensures Trace(w, w)
  {
  }

  lemma {:induction false} MappingPhaseTrace(w: World, hosts: map<string, Id>, volumes: map<string, Id>,
          xs: seq<MappingSpec>, base: int, wires: Item -> Wire)
    requires Good(w, Hyp(false, false, false))
    ensures Trace(w, MappingPhase(w, hosts, volumes, xs, base, wires).w)
    decreases |xs|
  {
    GoodFresh(w, Hyp(false, false, false));
    assert UnderUnique(w.db.mappings);
    hide Good, Inv, Extends, MappingStep, Trace;
    TraceRefl(w);
    if xs != [] {
      var k := |xs| - 1;
      var x := MappingPhase(w, hosts, volumes, xs[..k], base, wires);
      MappingPhaseTrace(w, hosts, volumes, xs[..k], base, wires);
      if x.err.None? {
        MappingPhaseLater(w, Hyp(false, false, false), hosts, volumes, xs[..k], base, wires);
        GoodFresh(x.w, Hyp(false, false, false));
        MappingStepTrace(x, hosts, volumes, xs[k], base, wires(MappingItem(k)));
        TraceTrans(w, x.w, MappingPhase(w, hosts, volumes, xs, base, wires).w);
      }
    }
  }

  lemma BeforeMappingsLater(w: World, spec: TopologySpec, wires: Item -> Wire)
    requires Inv(w) && VolumesOf(w, spec, wires).err.None?
    ensures Good(VolumesOf(w, spec, wires).w, Hyp(false, false, false))
  {
    var weak := Hyp(false, false, false);
    assert Good(w, weak);
    hide Good, Inv, Extends, ArrayPhase, PoolPhase, HostPhase, VolumePhase, Distinct;
    var a, p, h := Arrays(w, spec), Pools(w, spec, wires), Hosts(w, spec, wires);
    ArrayPhaseLater(w, weak, spec.arrays);
    PoolPhaseLater(a.w, weak, a.objs, spec.pools, wires);
    HostPhaseLater(p.w, weak, spec.hosts);
    VolumePhaseLater(h.w, weak, a.objs, p.objs, spec.volumes, wires);
  }

  lemma ApplyTrace(w: World, spec: TopologySpec, base: int, wires: Item -> Wire)
    requires Inv(w)
    ensures Trace(w, ApplyTopology(w, spec, base, wires).0)
    ensures VolumesOf(w, spec, wires).err.Some? ==> Unmapping(w, ApplyTopology(w, spec, base, wires).0)
  {
    var v := VolumesOf(w, spec, wires);
    hide Inv, Good, Arrays, Pools, Hosts, VolumesOf, MappingPhase, Unmapping, Trace;
    BeforeMappings(w, spec, wires);
    QuietTrace(w, v.w);
    if v.err.None? {
      BeforeMappingsLater(w, spec, wires);
      MappingPhaseTrace(v.w, Hosts(w, spec, wires).objs, v.objs, spec.mappings, base, wires);
      TraceTrans(w, v.w, ApplyTopology(w, spec, base, wires).0);
    }
  }

  // ---- The condition -------------------------------------------------------------------------

  /** No mapping row the working copy has gained has its entry in SPDK. */
  ghost predicate NothingWired(w: World, w': World) {
    forall m, p, t, n :: NewEntry(w.db, w'.db, m, p, t, n) ==> n !in Table(w'.spdk, p, t)
  }

  lemma NothingAdded(w: World, w': World)
    requires Trace(w, w') && NothingWired(w, w')
    ensures SameTables(w.spdk, w'.spdk)
  {
    hide Table;
    forall p, t
      ensures Table(w'.spdk, p, t) == Table(w.spdk, p, t)
    {
      var before, after := Table(w.spdk, p, t), Table(w'.spdk, p, t);
      forall n | n in after
        ensures n in before
      {
        assert forall m :: !NewEntry(w.db, w'.db, m, p, t, n);
      }
      assert forall n :: n in before ==> n in after && after[n] == before[n];
      assert after.Keys == before.Keys;
    }
  }

  lemma WiredUnsound(w: World, w': World, m: Id, p: Protocol, t: string, n: int)
    requires Trace(w, w') && Distinct(w'.db.endpoints)
    requires NewEntry(w.db, w'.db, m, p, t, n) && n in Table(w'.spdk, p, t)
    ensures !Sound(w.db, w'.spdk)
  {
    hide Table, TablesGrow;
    var b := Table(w'.spdk, p, t)[n];
    forall k
      ensures !Backs(w.db, k, p, t, n, b)
    {
      if Backs(w.db, k, p, t, n, b) {
        OneEntry(w'.db, m, k, p, t, n);
      }
    }
  }

  /** The exports stay explained after the rows are discarded if and only if no mapping row the working
      copy had gained has its LUN or namespace. */
  lemma DiscardSoundIff(w: World, spec: TopologySpec, base: int, wires: Item -> Wire)
    requires Inv(w) && Sound(w.db, w.spdk) && Distinct(ApplyTopology(w, spec, base, wires).0.db.endpoints)
    ensures Sound(w.db, ApplyTopology(w, spec, base, wires).0.spdk) <==>
        NothingWired(w, ApplyTopology(w, spec, base, wires).0)
  {
    var w' := ApplyTopology(w, spec, base, wires).0;
    hide Inv, ApplyTopology, Trace, Sound, Distinct, SameTables, KeepsBacking, NewEntry, Table;
    ApplyTrace(w, spec, base, wires);
    if NothingWired(w, w') {
      NothingAdded(w, w');
      BackingSame(w.db, w.db);
      SoundFrame(w.db, w.spdk, w.db, w'.spdk);
    } else {
      var m, p, t, n :| NewEntry(w.db, w'.db, m, p, t, n) && n in Table(w'.spdk, p, t);
      WiredUnsound(w, w', m, p, t, n);
    }
  }

  /** In particular an apply that fails in any section before the mappings leaves them explained. */
  lemma EarlyFailureWiresNothing(w: World, spec: TopologySpec, base: int, wires: Item -> Wire)
    requires Inv(w) && VolumesOf(w, spec, wires).err.Some?
    ensures NothingWired(w, ApplyTopology(w, spec, base, wires).0)
  {
    hide Inv, ApplyTopology, VolumesOf, Residue;
    ApplyTrace(w, spec, base, wires);
  }

  /** What the next request finds after a failed apply. */
  lemma FailedApplyGood(w: World, h: Hyp, spec: TopologySpec, base: int, wires: Item -> Wire)
    requires Good(w, h) && (h.exports ==> SameTables(w.spdk, ApplyTopology(w, spec, base, wires).0.spdk))
    ensures Good(ApplyTopology(w, spec, base, wires).0.(db := w.db), h)
  {
    var w' := ApplyTopology(w, spec, base, wires).0;
    MappingRefs(w.db);
    hide ApplyTopology, DbOk, Sound, NoDangling, Distinct, NvmeComplete, StatusExact, SizeAgree, SpdkIssued,
         SameTables, KeepsBacking, LvsName, Sizes;
    ApplyResidues(w, spec, base, wires);
    if h.steady {
      SizeFrame(w.db.volumes, w.spdk.lvols, w.db.volumes, w'.spdk.lvols);
    }
    if h.exports {
      BackingSame(w.db, w.db);
      QuietStep(w, w'.(db := w.db));
      if h.steady {
        SameGrow(w.spdk, w'.spdk);
        NvmeFrame(w.db, w.spdk, w.db, w'.spdk);
      }
    }
  }

  lemma SameGrow(s: Spdk, s': Spdk)
    requires SameTables(s, s')
    ensures TablesGrow(s, s')
  {
    forall p, t, n | n in Table(s, p, t)
      ensures n in Table(s', p, t) && Table(s', p, t)[n] == Table(s, p, t)[n]
    {
      assert Table(s', p, t) == Table(s, p, t);
    }
  }
}
