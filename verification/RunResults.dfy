/** What every state of every run satisfies. */
module RunResults {
  import opened Model
  import opened Ensure
  import opened Volumes
  import opened Mappings
  import opened Invariants
  import opened DbSteps
  import opened ExportSteps
  import opened SteadySteps
  import opened GoodSteps
  import opened Runs

  // ---- Exports ----------------------------------------------------------------------------

  /** Every exposed LUN and namespace belongs to exactly one mapping row: that row's endpoint names
      the target, its `under` is the id, its volume's bdev is what is exposed, and that lvol exists. */
  lemma ExposedByOneRow(rs: seq<Request>, h: Hyp, p: Protocol, t: string, n: int) returns (m: Id)
    requires AllowedRun(START, rs, h) && h.exports
    requires n in Table(Run(START, rs).spdk, p, t)
    ensures Backs(Run(START, rs).db, m, p, t, n, Table(Run(START, rs).spdk, p, t)[n])
    ensures forall k, b :: Backs(Run(START, rs).db, k, p, t, n, b) ==> k == m
    ensures Table(Run(START, rs).spdk, p, t)[n] in Run(START, rs).spdk.lvols
  {
    var w := Run(START, rs);
    RunGood(rs, h);
    hide Run, AllowedRun, Table, Backs;
    m :| Backs(w.db, m, p, t, n, Table(w.spdk, p, t)[n]);
    forall k, b | Backs(w.db, k, p, t, n, b)
      ensures k == m
    {
      BackerUnique(w.db, k, m, p, t, n, b, Table(w.spdk, p, t)[n]);
    }
  }

  lemma HeldExposes(db: Db, s: Spdk, m: Id, t: string, n: int, b: Bdev)
    requires m in db.mappings && NvmeHeld(db, s, m) && Backs(db, m, Nvme, t, n, b)
    ensures n in Table(s, Nvme, t) && Table(s, Nvme, t)[n] == b
  {
  }

  /** Without SPDK restarts the namespace table of every NQN is exactly what the mapping rows say. */
  lemma NamespacesAreRows(rs: seq<Request>, h: Hyp, nqn: string, n: int, b: Bdev)
    requires AllowedRun(START, rs, h) && h.exports && h.steady
    ensures var w := Run(START, rs);
      n in Table(w.spdk, Nvme, nqn) && Table(w.spdk, Nvme, nqn)[n] == b <==> exists m :: Backs(w.db, m, Nvme, nqn, n, b)
  {
    var w := Run(START, rs);
    RunGood(rs, h);
    hide Run, AllowedRun, Table, Backs, DbOk, Issued, NoDangling, Claims, Distinct, SizeAgree, StatusExact, NvmeHeld;
    if m :| Backs(w.db, m, Nvme, nqn, n, b) {
      assert m in w.db.mappings by { BackerMapped(w.db, m, Nvme, nqn, n, b); }
      HeldExposes(w.db, w.spdk, m, nqn, n, b);
    }
  }

  lemma BackerMapped(db: Db, m: Id, p: Protocol, t: string, n: int, b: Bdev)
    requires Backs(db, m, p, t, n, b)
    ensures m in db.mappings
  {
  }

  /** A deletion removes at most the lvol of an unmapped volume. */
  lemma DeletedLvol(w: World, id: Id, wire: Wire, b: Bdev)
    requires b in w.spdk.lvols && b !in DeleteVolume(w, id, wire).w.spdk.lvols
    ensures id in w.db.volumes && MappingsOf(w.db, id) == {} && w.db.volumes[id].bdev == Some(b)
  {
  }

  /** Safe deletion: an exposed lvol is there after any request to delete a volume, whatever the replies. */
  lemma DeletionIsSafe(rs: seq<Request>, h: Hyp, id: Id, wire: Wire, p: Protocol, t: string, n: int)
    requires AllowedRun(START, rs, h) && h.exports
    requires n in Table(Run(START, rs).spdk, p, t)
    ensures var w := Run(START, rs);
      var b := Table(w.spdk, p, t)[n];
      b in w.spdk.lvols && b in DeleteVolume(w, id, wire).w.spdk.lvols
  {
    var w := Run(START, rs);
    RunGood(rs, h);
    hide Run, AllowedRun, Table, DbOk, Sound, MappingsOf, DeleteVolume;
    var b := Table(w.spdk, p, t)[n];
    if b !in DeleteVolume(w, id, wire).w.spdk.lvols {
      DeletedLvol(w, id, wire, b);
      UnmappedUnexposed(w.db, w.spdk, id);
    }
  }

  // ---- The database -------------------------------------------------------------------------

  /** Between requests every volume is settled and every mapping attached with revision 1. */
  lemma CommittedIsSettled(rs: seq<Request>, h: Hyp)
    requires AllowedRun(START, rs, h)
    ensures var db := Run(START, rs).db;
      && (forall v :: v in db.volumes ==>
            && db.volumes[v].status in {Available, InUse, InError}
            && (db.volumes[v].status in {Available, InUse} ==> db.volumes[v].bdev.Some?))
      && (forall m :: m in db.mappings ==> db.mappings[m].state == Attached && db.mappings[m].revision == 1)
  {
    var db := Run(START, rs).db;
    RunGood(rs, h);
    hide Run, AllowedRun;
    forall v | v in db.volumes
      ensures db.volumes[v].status in {Available, InUse, InError}
          && (db.volumes[v].status in {Available, InUse} ==> db.volumes[v].bdev.Some?)
    {
      Unfold(db, v);
    }
    forall m | m in db.mappings
      ensures db.mappings[m].state == Attached && db.mappings[m].revision == 1
    {
      BdevOfMapped(db, m);
    }
  }

  /** `in_use` implies a mapping; it is equivalent to one when only unmapped volumes are extended. */
  lemma StatusFollowsMappings(rs: seq<Request>, h: Hyp, v: Id)
    requires AllowedRun(START, rs, h) && v in Run(START, rs).db.volumes
    ensures var db := Run(START, rs).db;
      && (db.volumes[v].status == InUse ==> MappingsOf(db, v) != {})
      && (h.exact ==> (db.volumes[v].status == InUse <==> MappingsOf(db, v) != {}))
  {
    RunGood(rs, h);
    hide Run, AllowedRun, MappingsOf, Mapped;
    UnmappedIff(Run(START, rs).db, v);
  }

  /** Every row a mapping refers to exists, and all of them lie in one array. */
  lemma OneArray(rs: seq<Request>, h: Hyp, m: Id)
    requires AllowedRun(START, rs, h) && m in Run(START, rs).db.mappings
    ensures var db := Run(START, rs).db;
      && var row := db.mappings[m];
      && row.volume in db.volumes && row.host in db.hosts && row.persona in db.endpoints && row.underlay in db.endpoints
      && db.volumes[row.volume].pool in db.pools
      && var arr := db.volumes[row.volume].arr;
      && arr in db.arrays && db.endpoints[row.persona].arr == arr && db.endpoints[row.underlay].arr == arr
      && db.pools[db.volumes[row.volume].pool].arr == arr
  {
    var db := Run(START, rs).db;
    RunGood(rs, h);
    hide Run, AllowedRun;
    BdevOfMapped(db, m);
    Unfold(db, db.mappings[m].volume);
  }

  /** The per-array listings partition the mapping table: every row is in the listing of exactly
      one array, that of its volume. */
  lemma ListingsPartition(rs: seq<Request>, h: Hyp, m: Id) returns (arr: Id)
    requires AllowedRun(START, rs, h) && m in Run(START, rs).db.mappings
    ensures var db := Run(START, rs).db;
      arr in db.arrays && db.mappings[m].volume in db.volumes && db.volumes[db.mappings[m].volume].arr == arr
    ensures forall a :: m in ListMappings(Run(START, rs).db, a) <==> a == arr
  {
    OneArray(rs, h, m);
    hide Run, AllowedRun;
    var db := Run(START, rs).db;
    arr := db.volumes[db.mappings[m].volume].arr;
  }

  /** LUNs are unique per host and persona endpoint, and underlay ids per underlay endpoint. */
  lemma IdsAreUnique(rs: seq<Request>, h: Hyp, m: Id, n: Id)
    requires AllowedRun(START, rs, h)
    requires m in Run(START, rs).db.mappings && n in Run(START, rs).db.mappings && m != n
    ensures var rows := Run(START, rs).db.mappings;
      && (rows[m].host == rows[n].host && rows[m].persona == rows[n].persona ==> rows[m].lun != rows[n].lun)
      && (rows[m].underlay == rows[n].underlay ==> rows[m].under != rows[n].under)
  {
    RunGood(rs, h);
    hide Run, AllowedRun;
  }

  /** No mapping has the reserved NSID 0, and no host LUN is negative. */
  lemma NsidsStartAtOne(rs: seq<Request>, h: Hyp, m: Id)
    requires AllowedRun(START, rs, h) && m in Run(START, rs).db.mappings
    ensures var db := Run(START, rs).db;
      && db.mappings[m].underlay in db.endpoints && db.mappings[m].lun >= 0
      && (db.endpoints[db.mappings[m].underlay].protocol == Nvme ==> db.mappings[m].under >= 1)
  {
    RunGood(rs, h);
    hide Run, AllowedRun;
    BdevOfMapped(Run(START, rs).db, m);
  }

  /** Without SPDK restarts a volume with a bdev name has an lvol of exactly its size. */
  lemma SizesAgree(rs: seq<Request>, h: Hyp, v: Id)
    requires AllowedRun(START, rs, h) && h.steady
    requires v in Run(START, rs).db.volumes && Run(START, rs).db.volumes[v].bdev.Some?
    ensures var w := Run(START, rs);
      w.db.volumes[v].bdev.value in w.spdk.lvols && w.spdk.lvols[w.db.volumes[v].bdev.value] == w.db.volumes[v].sizeMb
  {
    RunGood(rs, h);
    hide Run, AllowedRun;
  }
}
