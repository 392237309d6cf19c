/** A database session: a working copy of the tables that a request commits or discards. */
module DbSessions {
  import opened Model
  import opened SpdkClient

  class DbSession {
    var arrays: map<Id, Array>
    var endpoints: map<Id, Endpoint>
    var pools: map<Id, Pool>
    var volumes: map<Id, Volume>
    var hosts: map<Id, Host>
    var mappings: map<Id, Mapping>
    /** Supply of row ids; a rollback does not rewind it. */
    var serial: Id
    /** What other sessions see. */
    var committed: Db

    function Working(): Db
      reads this
    {
      Db(arrays, endpoints, pools, volumes, hosts, mappings)
    }

    constructor ()
      ensures Working() == EMPTY_DB && committed == EMPTY_DB && serial == 0
    {
      arrays, endpoints, pools, volumes, hosts, mappings := map[], map[], map[], map[], map[], map[];
      serial, committed := 0, EMPTY_DB;
    }

    method NextId() returns (id: Id)
      modifies this`serial
      ensures id == old(serial) && serial == id + 1
    {
      id := serial;
      serial := serial + 1;
    }

    method Commit()
      modifies this`committed
      ensures committed == Working()
    {
      committed := Working();
    }

    method Rollback()
      modifies this
      ensures Working() == committed == old(committed) && serial == old(serial)
    {
      arrays, endpoints, pools := committed.arrays, committed.endpoints, committed.pools;
      volumes, hosts, mappings := committed.volumes, committed.hosts, committed.mappings;
    }
  }

  /** What a service function works on. */
  ghost function WorldOf(session: DbSession, spdk: SpdkTarget): World
    reads session, spdk
  {
    World(session.Working(), spdk.State(), session.serial)
  }

  /** What is left for the next request. */
  ghost function CommittedWorld(session: DbSession, spdk: SpdkTarget): World
    reads session, spdk
  {
    World(session.committed, spdk.State(), session.serial)
  }
}
