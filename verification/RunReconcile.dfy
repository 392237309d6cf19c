/** A run followed by a reconcile pass with no failing call. */
module RunReconcile {
  import opened Model
  import opened Reconcile
  import opened Invariants
  import opened GoodSteps
  import opened ReconcileExact
  import Runs

  /** After any export-sound run and one pass with no failing call, the LUN table of every IQN and the
      namespace table of every NQN is exactly what the mapping rows say, but for rows whose volume is
      in error: those are exposed just when they were before the pass.  The pass has restored what
      deletions of iSCSI targets and SPDK restarts took away. */
  lemma PassRestoresTables(rs: seq<Runs.Request>, h: Hyp, o: RowOrder, wires: Wires, p: Protocol, t: string, n: int,
                           b: Bdev)
    requires Runs.AllowedRun(Runs.START, rs, h) && h.exports && p in {Iscsi, Nvme}
    requires OrderOf(o, Runs.Run(Runs.START, rs).db) && AllClean(wires)
    ensures var w := Runs.Run(Runs.START, rs);
      var s := Reconciled(w, o, wires).spdk;
      n in Table(s, p, t) && Table(s, p, t)[n] == b <==>
      exists m :: Backs(w.db, m, p, t, n, b)
                  && (w.db.volumes[w.db.mappings[m].volume].status != InError || n in Table(w.spdk, p, t))
  {
    var w := Runs.Run(Runs.START, rs);
    Runs.RunGood(rs, h);
    hide Runs.Run, Runs.AllowedRun, Reconciled, OrderOf, DbOk, Issued, Backs, Wanted, Table, AllClean, Sound,
         NoDangling, Claims, Distinct;
    ReconcileExactFromSound(w, o, wires, p, t, n, b);
    forall m | Backs(w.db, m, p, t, n, b)
      ensures m in w.db.mappings && w.db.mappings[m].volume in w.db.volumes
      ensures Wanted(w.db, m) <==> w.db.volumes[w.db.mappings[m].volume].status != InError
    {
      BackedWanted(w.db, m, p, t, n, b);
    }
  }

  lemma BackedWanted(db: Db, m: Id, p: Protocol, t: string, n: int, b: Bdev)
    requires Backs(db, m, p, t, n, b) && p in {Iscsi, Nvme}
    ensures m in db.mappings && db.mappings[m].volume in db.volumes
    ensures Wanted(db, m) <==> db.volumes[db.mappings[m].volume].status != InError
  {
  }
}
