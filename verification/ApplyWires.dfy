/** Which failed applies leave a LUN without a row, told from the items and the database before the
    mapping section. */
module ApplyWires {
  import opened Model
  import opened Ensure
  import opened Inventory
  import opened Mappings
  import opened Alloc
  import opened Topology
  import opened Apply
  import opened Invariants
  import opened DbSteps
  import opened ExportSteps
  import opened ReconcileProofs
  import opened SteadySteps
  import opened GoodSteps
  import opened ApplyGood
  import opened ApplyAgain
  import opened ApplyResidue
  import opened ApplyFailure

  /** The endpoint an apply exports a volume through: the array's first iSCSI endpoint, whatever protocol
      the item names. */
  function UnderlayOf(db: Db, arr: Id): Option<Id> { First(EndpointsOf(db, arr, Iscsi)) }

  /** Applying the item puts a LUN: host and volume are there, no row maps the one to the other, and the
      underlay endpoint names a target. */
  predicate ItemUnwired(db: Db, hosts: map<string, Id>, volumes: map<string, Id>, m: MappingSpec) {
    && m.host in hosts && m.volume in volumes && volumes[m.volume] in db.volumes
    && MappingsBetween(db, hosts[m.host], volumes[m.volume]) == {}
    && var underlay := UnderlayOf(db, db.volumes[volumes[m.volume]].arr);
    underlay.Some? && underlay.value in db.endpoints && db.endpoints[underlay.value].target != ""
  }

  // ---- What the mapping section leaves alone ----------------------------------------------------

  ghost predicate MapsOnly(db: Db, db': Db) {
    && db'.endpoints == db.endpoints && Sub(db.mappings, db'.mappings)
    && db'.volumes.Keys == db.volumes.Keys && forall v :: v in db.volumes ==> db'.volumes[v].arr == db.volumes[v].arr
  }

  /** A row an apply adds is that of the array's first iSCSI endpoint. */
  lemma AddedRow(w: World, host: Id, volume: Id, protocol: Protocol, base: int, wire: Wire)
    requires w.serial !in w.db.mappings && CreateMapping(w, Request(host, volume, protocol, base), wire).w != w
    ensures var w' := CreateMapping(w, Request(host, volume, protocol, base), wire).w;
      && MapsOnly(w.db, w'.db) && volume in w.db.volumes && w.serial in w'.db.mappings
      && w'.db.mappings == w.db.mappings[w.serial := w'.db.mappings[w.serial]]
      && w'.db.mappings[w.serial].volume == volume && w'.db.mappings[w.serial].underlay in w.db.endpoints
      && UnderlayOf(w.db, w.db.volumes[volume].arr) == Some(w'.db.mappings[w.serial].underlay)
      && w.db.endpoints[w'.db.mappings[w.serial].underlay].protocol == Iscsi
  {
    hide LeastFree, NewUnder, UsedLuns, WireUnderlay;
  }

  /** One item, passed or refused: a row is added only for a pair that had none, through its array's
      first iSCSI endpoint; a passed row has its LUN, and nothing else changes a table. */
  lemma StepRow(x: Phase, hosts: map<string, Id>, volumes: map<string, Id>, m: MappingSpec, base: int, wire: Wire)
    requires Inv(x.w) && x.err.None?
    ensures var y := MappingStep(x, hosts, volumes, m, base, wire);
      && MapsOnly(x.w.db, y.w.db)
      && if y.w == x.w then SameTables(x.w.spdk, y.w.spdk)
         else
           && m.host in hosts && m.volume in volumes && volumes[m.volume] in x.w.db.volumes
           && MappingsBetween(x.w.db, hosts[m.host], volumes[m.volume]) == {}
           && x.w.serial !in x.w.db.mappings && x.w.serial in y.w.db.mappings
           && var row := y.w.db.mappings[x.w.serial];
           && y.w.db.mappings == x.w.db.mappings[x.w.serial := row] && row.volume == volumes[m.volume]
           && UnderlayOf(x.w.db, x.w.db.volumes[row.volume].arr) == Some(row.underlay)
           && row.underlay in x.w.db.endpoints && x.w.db.endpoints[row.underlay].protocol == Iscsi
           && var target := x.w.db.endpoints[row.underlay].target;
           && (y.err.None? && target != "" ==> row.under in Table(y.w.spdk, Iscsi, target))
           && (y.err.Some? || target == "" ==> SameTables(x.w.spdk, y.w.spdk))
  {
    var y := MappingStep(x, hosts, volumes, m, base, wire);
    if y.w != x.w {
      SerialFresh(x.w);
      hide Inv, CreateMapping, UnderlayOf, MappingsBetween, SameTables, OnlyTable, Table, NewUnder;
      var a := Request(hosts[m.host], volumes[m.volume], m.protocol, base);
      AddedRow(x.w, a.host, a.volume, m.protocol, base, wire);
      CreateMappingEffect(x.w, a, wire);
      var ep := x.w.db.endpoints[y.w.db.mappings[x.w.serial].underlay];
      if y.err.Some? || ep.target == "" {
        SameAll(x.w.spdk, y.w.spdk, ep.protocol, ep.target);
      }
    }
  }

  lemma MapsOnlyTrans(a: Db, b: Db, c: Db)
    requires MapsOnly(a, b) && MapsOnly(b, c)
    ensures MapsOnly(a, c)
  {
  }

  lemma SameTablesTrans(a: Spdk, b: Spdk, c: Spdk)
    requires SameTables(a, b) && SameTables(b, c)
    ensures SameTables(a, c)
  {
    hide Table;
    forall p, t
      ensures Table(c, p, t) == Table(a, p, t)
    {
      assert Table(b, p, t) == Table(a, p, t);
    }
  }

  /** What an item finds is decided before the section starts. */
  lemma UnwiredBefore(db: Db, db': Db, hosts: map<string, Id>, volumes: map<string, Id>, m: MappingSpec)
    requires MapsOnly(db, db') && ItemUnwired(db', hosts, volumes, m)
    ensures ItemUnwired(db, hosts, volumes, m)
  {
    assert MappingsBetween(db, hosts[m.host], volumes[m.volume])
           <= MappingsBetween(db', hosts[m.host], volumes[m.volume]);
  }

  // ---- No unwired item: no table changes ----------------------------------------------------------

  lemma StepQuiet(db: Db, x: Phase, hosts: map<string, Id>, volumes: map<string, Id>, m: MappingSpec, base: int,
                  wire: Wire)
    requires Inv(x.w) && x.err.None? && MapsOnly(db, x.w.db)
    requires MappingStep(x, hosts, volumes, m, base, wire).err.Some? || !ItemUnwired(db, hosts, volumes, m)
    ensures MapsOnly(db, MappingStep(x, hosts, volumes, m, base, wire).w.db)
    ensures SameTables(x.w.spdk, MappingStep(x, hosts, volumes, m, base, wire).w.spdk)
  {
    StepRow(x, hosts, volumes, m, base, wire);
    var y := MappingStep(x, hosts, volumes, m, base, wire);
    hide Inv, MappingStep, MapsOnly, UnderlayOf, MappingsBetween, SameTables, Table;
    MapsOnlyTrans(db, x.w.db, y.w.db);
    if ItemUnwired(x.w.db, hosts, volumes, m) {
      UnwiredBefore(db, x.w.db, hosts, volumes, m);
    }
  }

  lemma {:induction false} SectionQuiet(w: World, hosts: map<string, Id>, volumes: map<string, Id>,
          xs: seq<MappingSpec>, base: int, wires: Item -> Wire)
    requires Good(w, ANY_RUN) && MappingPhase(w, hosts, volumes, xs, base, wires).err.None?
    requires forall i :: 0 <= i < |xs| ==> !ItemUnwired(w.db, hosts, volumes, xs[i])
    ensures MapsOnly(w.db, MappingPhase(w, hosts, volumes, xs, base, wires).w.db)
    ensures SameTables(w.spdk, MappingPhase(w, hosts, volumes, xs, base, wires).w.spdk)
    decreases |xs|
  {
    if xs != [] {
      var k := |xs| - 1;
      var x := MappingPhase(w, hosts, volumes, xs[..k], base, wires);
      hide Good, Inv, Extends, MappingStep, ItemUnwired, MapsOnly, SameTables;
      SectionQuiet(w, hosts, volumes, xs[..k], base, wires);
      MappingPhaseLater(w, ANY_RUN, hosts, volumes, xs[..k], base, wires);
      GoodFresh(x.w, ANY_RUN);
      StepQuiet(w.db, x, hosts, volumes, xs[k], base, wires(MappingItem(k)));
      SameTablesTrans(w.spdk, x.w.spdk, MappingPhase(w, hosts, volumes, xs, base, wires).w.spdk);
    }
  }

  // ---- An unwired item: its LUN is there ------------------------------------------------------------

  /** The row took its array's first iSCSI endpoint, and has its LUN if that names a target. */
  ghost predicate RowWired(db: Db, s: Spdk, row: Mapping) {
    && row.volume in db.volumes && UnderlayOf(db, db.volumes[row.volume].arr) == Some(row.underlay)
    && row.underlay in db.endpoints && db.endpoints[row.underlay].protocol == Iscsi
    && (db.endpoints[row.underlay].target != "" ==> row.under in Table(s, Iscsi, db.endpoints[row.underlay].target))
  }

  ghost predicate AddedWired(db: Db, w: World) {
    forall m :: m in w.db.mappings && m !in db.mappings ==> RowWired(db, w.spdk, w.db.mappings[m])
  }

  lemma RowWiredLater(db: Db, s: Spdk, s': Spdk, row: Mapping)
    requires RowWired(db, s, row) && TablesGrow(s, s')
    ensures RowWired(db, s', row)
  {
  }

  lemma StepWired(db: Db, x: Phase, hosts: map<string, Id>, volumes: map<string, Id>, m: MappingSpec, base: int,
                  wire: Wire)
    requires Inv(x.w) && x.err.None? && MapsOnly(db, x.w.db) && AddedWired(db, x.w)
    requires MappingStep(x, hosts, volumes, m, base, wire).err.None?
    ensures var y := MappingStep(x, hosts, volumes, m, base, wire); MapsOnly(db, y.w.db) && AddedWired(db, y.w)
  {
    var y := MappingStep(x, hosts, volumes, m, base, wire);
    StepRow(x, hosts, volumes, m, base, wire);
    MappingStepTrace(x, hosts, volumes, m, base, wire);
    MapsOnlyTrans(db, x.w.db, y.w.db);
    hide Inv, MappingStep, MappingsBetween, SameTables, Table, UnderUnique;
    forall k | k in y.w.db.mappings && k !in db.mappings
      ensures RowWired(db, y.w.spdk, y.w.db.mappings[k])
    {
      if k in x.w.db.mappings {
        RowWiredLater(db, x.w.spdk, y.w.spdk, x.w.db.mappings[k]);
      }
    }
  }

  lemma {:induction false} SectionWired(w: World, hosts: map<string, Id>, volumes: map<string, Id>,
          xs: seq<MappingSpec>, base: int, wires: Item -> Wire)
    requires Good(w, ANY_RUN) && MappingPhase(w, hosts, volumes, xs, base, wires).err.None?
    ensures MapsOnly(w.db, MappingPhase(w, hosts, volumes, xs, base, wires).w.db)
    ensures AddedWired(w.db, MappingPhase(w, hosts, volumes, xs, base, wires).w)
    decreases |xs|
  {
    if xs != [] {
      var k := |xs| - 1;
      var x := MappingPhase(w, hosts, volumes, xs[..k], base, wires);
      hide Good, Inv, Extends, MappingStep, MapsOnly, AddedWired;
      SectionWired(w, hosts, volumes, xs[..k], base, wires);
      MappingPhaseLater(w, ANY_RUN, hosts, volumes, xs[..k], base, wires);
      GoodFresh(x.w, ANY_RUN);
      StepWired(w.db, x, hosts, volumes, xs[k], base, wires(MappingItem(k)));
    }
  }

  lemma NoneBefore(db: Db, db': Db, host: Id, volume: Id)
    requires MapsOnly(db, db') && MappingsBetween(db, host, volume) == {}
    ensures forall m :: m in MappingsBetween(db', host, volume) ==> m !in db.mappings
  {
    forall m | m in db.mappings
      ensures m !in MappingsBetween(db', host, volume)
    {
      assert m !in MappingsBetween(db, host, volume);
    }
  }

  /** The row that a passed item leaves is new and has its LUN. */
  lemma ItemWired(w: World, hosts: map<string, Id>, volumes: map<string, Id>, xs: seq<MappingSpec>, base: int,
                  wires: Item -> Wire, i: nat)
    returns (m: Id, t: string, n: int)
    requires Good(w, ANY_RUN) && MappingPhase(w, hosts, volumes, xs, base, wires).err.None?
    requires i < |xs| && ItemUnwired(w.db, hosts, volumes, xs[i])
    ensures var x := MappingPhase(w, hosts, volumes, xs, base, wires);
      NewEntry(w.db, x.w.db, m, Iscsi, t, n) && n in Table(x.w.spdk, Iscsi, t)
  {
    var x := MappingPhase(w, hosts, volumes, xs, base, wires);
    var host, volume := hosts[xs[i].host], volumes[xs[i].volume];
    hide Good, MappingPhase, Table, UnderlayOf;
    SectionWired(w, hosts, volumes, xs, base, wires);
    MappingPhaseOne(w, hosts, volumes, xs, base, wires);
    assert xs[i] in xs && OneMapping(x.w.db, host, volume);
    m :| m in MappingsBetween(x.w.db, host, volume);
    NoneBefore(w.db, x.w.db, host, volume);
    assert RowWired(w.db, x.w.spdk, x.w.db.mappings[m]);
    t, n := w.db.endpoints[x.w.db.mappings[m].underlay].target, x.w.db.mappings[m].under;
  }

  // ---- The failed apply -------------------------------------------------------------------------------

  /** The mapping section up to item `k`. */
  function Section(w: World, spec: TopologySpec, base: int, wires: Item -> Wire, k: nat): Phase
    requires k <= |spec.mappings|
  {
    var v := VolumesOf(w, spec, wires);
    MappingPhase(v.w, Hosts(w, spec, wires).objs, v.objs, spec.mappings[..k], base, wires)
  }

  /** The apply passes the sections before the mappings and the items before `k`, and fails at item `k`. */
  predicate FailsAt(w: World, spec: TopologySpec, base: int, wires: Item -> Wire, k: nat) {
    && VolumesOf(w, spec, wires).err.None? && k < |spec.mappings|
    && Section(w, spec, base, wires, k).err.None? && Section(w, spec, base, wires, k + 1).err.Some?
  }

  /** No item before the failing one finds its pair without a row and an endpoint with a target. */
  ghost predicate LeavesNoLun(w: World, spec: TopologySpec, base: int, wires: Item -> Wire) {
    var v := VolumesOf(w, spec, wires);
    forall k: nat, i: nat | FailsAt(w, spec, base, wires, k) && i < k ::
      !ItemUnwired(v.w.db, Hosts(w, spec, wires).objs, v.objs, spec.mappings[i])
  }

  /** The state at the end is that of the failing item. */
  lemma FailedStep(w: World, spec: TopologySpec, base: int, wires: Item -> Wire, k: nat)
    requires FailsAt(w, spec, base, wires, k)
    ensures var y := MappingStep(Section(w, spec, base, wires, k), Hosts(w, spec, wires).objs,
                                 VolumesOf(w, spec, wires).objs, spec.mappings[k], base, wires(MappingItem(k)));
      y.err.Some? && ApplyTopology(w, spec, base, wires).0 == y.w
  {
    hide MappingStep, VolumesOf, Hosts;
    var v := VolumesOf(w, spec, wires);
    assert spec.mappings[..k + 1][..k] == spec.mappings[..k];
    MappingPhaseStops(v.w, Hosts(w, spec, wires).objs, v.objs, spec.mappings, base, wires, k + 1);
  }

  lemma {:induction false} FailingItem(w: World, spec: TopologySpec, base: int, wires: Item -> Wire, n: nat)
    returns (k: nat)
    requires VolumesOf(w, spec, wires).err.None? && n <= |spec.mappings| && Section(w, spec, base, wires, n).err.Some?
    ensures FailsAt(w, spec, base, wires, k)
    decreases n
  {
    assert n > 0;
    if Section(w, spec, base, wires, n - 1).err.Some? {
      k := FailingItem(w, spec, base, wires, n - 1);
    } else {
      k := n - 1;
    }
  }

  lemma QuietFailure(w: World, spec: TopologySpec, base: int, wires: Item -> Wire, k: nat)
    requires Inv(w) && FailsAt(w, spec, base, wires, k)
    requires forall i :: 0 <= i < k ==>
      !ItemUnwired(VolumesOf(w, spec, wires).w.db, Hosts(w, spec, wires).objs, VolumesOf(w, spec, wires).objs,
                   spec.mappings[i])
    ensures SameTables(w.spdk, ApplyTopology(w, spec, base, wires).0.spdk)
  {
    var h, v := Hosts(w, spec, wires), VolumesOf(w, spec, wires);
    var x := Section(w, spec, base, wires, k);
    var w' := ApplyTopology(w, spec, base, wires).0;
    FailedStep(w, spec, base, wires, k);
    hide Inv, Good, Extends, VolumesOf, Hosts, MappingPhase, MappingStep, ApplyTopology, ItemUnwired, MapsOnly,
         SameTables, Residue;
    BeforeMappings(w, spec, wires);
    BeforeMappingsLater(w, spec, wires);
    SameTargets(w.spdk, v.w.spdk);
    SectionQuiet(v.w, h.objs, v.objs, spec.mappings[..k], base, wires);
    MappingPhaseLater(v.w, ANY_RUN, h.objs, v.objs, spec.mappings[..k], base, wires);
    GoodFresh(x.w, ANY_RUN);
    StepQuiet(v.w.db, x, h.objs, v.objs, spec.mappings[k], base, wires(MappingItem(k)));
    SameTablesTrans(w.spdk, v.w.spdk, x.w.spdk);
    SameTablesTrans(w.spdk, x.w.spdk, w'.spdk);
  }

  lemma SameTargets(s: Spdk, s': Spdk)
    requires s'.targets == s.targets && s'.subsystems == s.subsystems
    ensures SameTables(s, s')
  {
  }

  /** The LUN of a passed item stays when the row behind it is discarded. */
  lemma WiredFailure(w: World, spec: TopologySpec, base: int, wires: Item -> Wire, k: nat, i: nat)
    requires Inv(w) && FailsAt(w, spec, base, wires, k) && i < k
    requires Distinct(ApplyTopology(w, spec, base, wires).0.db.endpoints)
    requires ItemUnwired(VolumesOf(w, spec, wires).w.db, Hosts(w, spec, wires).objs, VolumesOf(w, spec, wires).objs,
                         spec.mappings[i])
    ensures !Sound(w.db, ApplyTopology(w, spec, base, wires).0.spdk)
  {
    var h, v := Hosts(w, spec, wires), VolumesOf(w, spec, wires);
    var x := Section(w, spec, base, wires, k);
    var w' := ApplyTopology(w, spec, base, wires).0;
    FailedStep(w, spec, base, wires, k);
    hide Inv, Good, Extends, VolumesOf, Hosts, MappingPhase, MappingStep, ApplyTopology, ItemUnwired, Table, Residue,
         Distinct, Sound;
    BeforeMappings(w, spec, wires);
    BeforeMappingsLater(w, spec, wires);
    MappingPhaseLater(v.w, ANY_RUN, h.objs, v.objs, spec.mappings[..k], base, wires);
    GoodFresh(x.w, ANY_RUN);
    var m, t, n := ItemWired(v.w, h.objs, v.objs, spec.mappings[..k], base, wires, i);
    MappingStepTrace(x, h.objs, v.objs, spec.mappings[k], base, wires(MappingItem(k)));
    ApplyTrace(w, spec, base, wires);
    WiredUnsound(w, w', m, Iscsi, t, n);
  }

  /** When no item put a LUN, the failed apply has changed no table at all. */
  lemma FailedApplyQuiet(w: World, spec: TopologySpec, base: int, wires: Item -> Wire)
    requires Inv(w) && ApplyTopology(w, spec, base, wires).1.Err? && LeavesNoLun(w, spec, base, wires)
    ensures SameTables(w.spdk, ApplyTopology(w, spec, base, wires).0.spdk)
  {
    if VolumesOf(w, spec, wires).err.Some? {
      hide Inv, VolumesOf, ApplyTopology, Residue, LeavesNoLun;
      ApplyTrace(w, spec, base, wires);
      SameTargets(w.spdk, ApplyTopology(w, spec, base, wires).0.spdk);
    } else {
      assert spec.mappings[..|spec.mappings|] == spec.mappings;
      hide Inv, VolumesOf, Hosts, MappingPhase, FailsAt, ItemUnwired;
      var k := FailingItem(w, spec, base, wires, |spec.mappings|);
      QuietFailure(w, spec, base, wires, k);
    }
  }

  /** A failed apply leaves the exports explained by the rows that remain if and only if no item before the
      failing one found its pair without a row and an iSCSI endpoint with a target. */
  lemma FailedApplySoundIff(w: World, spec: TopologySpec, base: int, wires: Item -> Wire)
    requires Inv(w) && Sound(w.db, w.spdk) && ApplyTopology(w, spec, base, wires).1.Err?
    requires Distinct(ApplyTopology(w, spec, base, wires).0.db.endpoints)
    ensures Sound(w.db, ApplyTopology(w, spec, base, wires).0.spdk) <==> LeavesNoLun(w, spec, base, wires)
  {
    var w' := ApplyTopology(w, spec, base, wires).0;
    if LeavesNoLun(w, spec, base, wires) {
      FailedApplyQuiet(w, spec, base, wires);
      hide Inv, ApplyTopology, LeavesNoLun, SameTables, KeepsBacking, Sound;
      BackingSame(w.db, w.db);
      SoundFrame(w.db, w.spdk, w.db, w'.spdk);
    } else {
      hide Inv, ApplyTopology, FailsAt, VolumesOf, Hosts, Sound, Distinct, ItemUnwired;
      var k: nat, i: nat :| FailsAt(w, spec, base, wires, k) && i < k
        && ItemUnwired(VolumesOf(w, spec, wires).w.db, Hosts(w, spec, wires).objs, VolumesOf(w, spec, wires).objs,
                       spec.mappings[i]);
      WiredFailure(w, spec, base, wires, k, i);
    }
  }
}
