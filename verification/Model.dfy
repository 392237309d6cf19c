/** The two stores of the gateway as values: the database tables and the SPDK target.

    A row id stands for a UUID.  Ids are drawn from a counter that a rollback does not
    rewind, so an id is never issued twice and a smaller id means an older row.
  */
module Model {

  type Id = nat

  datatype Option<+T> = None | Some(value: T)

  /** The exceptions of the service layer; `Crash` is any other Python exception. */
  datatype Error = NotFound | AlreadyExists | InvalidState | ResourceInUse | Invalid | BackendFailure | Crash

  datatype Result<+T> = Ok(value: T) | Err(error: Error)

  datatype Protocol = Iscsi | Nvme | Fc | Other(name: string)

  datatype PoolBackend = Malloc | AioFile | UnknownBackend

  datatype Status = Creating | Available | InUse | Deleting | Extending | InError

  datatype DesiredState = Attached | Detached

  /** Full name of an lvol bdev, `{lvstore}/strix-vol-{volume id}`. */
  datatype Bdev = Lvol(lvstore: string, volume: Id)

  /** Name of the lvol store of a pool, `{array}.{pool}`. */
  function LvsName(arrayName: string, poolName: string): string {
    arrayName + "." + poolName
  }

  // ---- Database rows -------------------------------------------------------

  datatype Array = Array(name: string)

  /** `target` is the IQN (iSCSI) or NQN (NVMe-oF) in the targets field, "" when absent. */
  datatype Endpoint = Endpoint(arr: Id, protocol: Protocol, target: string, listeners: seq<string>)

  datatype Pool = Pool(name: string, arr: Id, backend: PoolBackend, sizeMb: Option<int>, aioPath: string)

  datatype Volume = Volume(name: string, arr: Id, pool: Id, sizeMb: int, status: Status, bdev: Option<Bdev>)

  datatype Host = Host(name: string, iqns: seq<string>, nqns: seq<string>, wwpns: seq<string>)

  datatype Mapping = Mapping(volume: Id, host: Id, persona: Id, underlay: Id, lun: int, under: int,
                             state: DesiredState, revision: nat)

  datatype Db = Db(arrays: map<Id, Array>, endpoints: map<Id, Endpoint>, pools: map<Id, Pool>,
                   volumes: map<Id, Volume>, hosts: map<Id, Host>, mappings: map<Id, Mapping>)

  const EMPTY_DB := Db(map[], map[], map[], map[], map[], map[])

  // ---- SPDK ----------------------------------------------------------------

  datatype Subsystem = Subsystem(listeners: seq<string>, namespaces: map<int, Bdev>)

  /** `backing` holds the bdevs `strix-pool-{pool id}`; `lvstores` maps a store to the pool
      whose backing bdev carries it; `targets` maps an IQN to its LUN table. */
  datatype Spdk = Spdk(portalGroup: bool, initiatorGroup: bool, transport: bool,
                       backing: set<Id>, lvstores: map<string, Id>, lvols: map<Bdev, int>,
                       targets: map<string, map<int, Bdev>>, subsystems: map<string, Subsystem>)

  const EMPTY_SPDK := Spdk(false, false, false, {}, map[], map[], map[], map[])

  /** The LUN table of an iSCSI target or the namespace table of a subsystem. */
  function Table(s: Spdk, p: Protocol, target: string): map<int, Bdev> {
    match p
    case Iscsi => if target in s.targets then s.targets[target] else map[]
    case Nvme => if target in s.subsystems then s.subsystems[target].namespaces else map[]
    case _ => map[]
  }

  /** Both stores, and the next row id. */
  datatype World = World(db: Db, spdk: Spdk, serial: Id)

  /** What a service function returns: the working state it leaves, and a value or an error. */
  datatype Res<+T> = Res(w: World, r: Result<T>)

  // ---- Row selection -------------------------------------------------------

  predicate IsLeast(m: Id, s: set<Id>) {
    m in s && forall x :: x in s ==> m <= x
  }

  lemma {:induction false} HasLeast(s: set<Id>)
    requires s != {}
    ensures exists m :: IsLeast(m, s)
  {
    var x :| x in s;
    var rest := s - {x};
    if rest == {} {
      assert s == {x};
      assert IsLeast(x, s);
    } else {
      HasLeast(rest);
      var m :| IsLeast(m, rest);
      assert forall y :: y in s ==> y == x || y in rest;
      assert IsLeast(if m <= x then m else x, s);
    }
  }

  /** The row a query returns first: the oldest one. */
  function First(hits: set<Id>): (r: Option<Id>)
    ensures r.None? <==> hits == {}
    ensures r.Some? ==> IsLeast(r.value, hits)
  {
    if hits == {} then None
    else
      HasLeast(hits);
      var m :| IsLeast(m, hits);
      Some(m)
  }
}
