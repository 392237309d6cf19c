/** The LDEV half of the Hitachi id mapper, and the routes that change it. */
module HitachiMapper {
  import opened Model
  import opened Ensure
  import opened SpdkClient
  import opened DbSessions
  import opened DbSteps
  import opened LdevIndex
  import V = Volumes
  import VS = VolumeService

  class HitachiIdMapper {
    var ldevToVol: map<int, Id>
    var volToLdev: map<Id, int>

    ghost function Index(): Maps
      reads this
    {
      Maps(ldevToVol, volToLdev)
    }

    constructor ()
      ensures Index() == NO_MAPS
    {
      ldevToVol, volToLdev := map[], map[];
    }

    /** The maps are cleared before the rows are queried.  Rows come in creation order; those without
        a number get one, which is stored back. */
    method RebuildVolumes(rows: seq<Row>, ok: bool) returns (stored: seq<Row>)
      modifies this
      ensures if ok then Index() == MapsOf(rows) && stored == Persisted(rows) else Index() == NO_MAPS && stored == rows
    {
      ldevToVol, volToLdev := map[], map[];
      if !ok { return rows; }
      stored := [];
      var nextLdev := 0;
      for k := 0 to |rows|
        invariant Index() == MapsOf(rows[..k]) && stored == Persisted(rows[..k]) && nextLdev == Next(rows[..k])
      {
        assert rows[..k + 1][..k] == rows[..k];
        var ldev := if rows[k].ldev.Some? then rows[k].ldev.value else nextLdev;
        stored := stored + [Row(rows[k].id, Some(ldev))];
        ldevToVol := ldevToVol[ldev := rows[k].id];
        volToLdev := volToLdev[rows[k].id := ldev];
        nextLdev := (if nextLdev < ldev then ldev else nextLdev) + 1;
      }
      assert rows[..|rows|] == rows;
    }

    method NextLdevId() returns (n: int)
      ensures n == NextLdev(Index())
    {
      if |ldevToVol| == 0 { return 0; }
      ghost var some := Pick(ldevToVol.Keys);
      var largest :| largest in ldevToVol.Keys;
      var rest := ldevToVol.Keys - {largest};
      while rest != {}
        invariant rest <= ldevToVol.Keys
        invariant largest in ldevToVol.Keys && forall y :: y in ldevToVol.Keys && y !in rest ==> y <= largest
        decreases rest
      {
        ghost var other := Pick(rest);
        var x :| x in rest;
        if largest < x { largest := x; }
        rest := rest - {x};
      }
      MaxUnique(ldevToVol.Keys);
      assert IsMax(largest, ldevToVol.Keys);
      return largest + 1;
    }

    method RegisterLdev(ldev: int, volume: Id)
      modifies this
      ensures Index() == Registered(old(Index()), ldev, volume)
    {
      ldevToVol := ldevToVol[ldev := volume];
      volToLdev := volToLdev[volume := ldev];
    }

    method UnregisterLdev(volume: Id)
      modifies this
      ensures Index() == Unregistered(old(Index()), volume)
    {
      if volume in volToLdev {
        var ldev := volToLdev[volume];
        volToLdev := volToLdev - {volume};
        ldevToVol := ldevToVol - {ldev};
      }
    }
  }

  /** Index and rows agree, and the rows are exactly the committed volumes. */
  ghost predicate Matches(s: State, w: World) {
    && Agrees(s)
    && (forall v :: v in w.db.volumes ==> v < w.serial && exists i :: 0 <= i < |s.rows| && s.rows[i].id == v)
    && (forall i :: 0 <= i < |s.rows| ==> s.rows[i].id in w.db.volumes)
  }

  lemma CreationMatches(s: State, w: World, number: Option<int>, name: string, pool: Id, sizeMb: int, wire: Wire)
    requires Matches(s, w) && (number.Some? ==> number.value !in s.maps.vol)
    ensures var res := V.CreateVolume(w, name, pool, sizeMb, wire);
      Matches(Stepped(s, Create(number, if res.r.Ok? then Some(res.r.value) else None)), Committed(w, res))
  {
    var res := V.CreateVolume(w, name, pool, sizeMb, wire);
    CreatedOnly(w, name, pool, sizeMb, wire);
    hide V.CreateVolume, NoStoredClash, MapsOf;
    var made := if res.r.Ok? then Some(res.r.value) else None;
    StepAgrees(s, Create(number, made));
    if res.r.Ok? {
      var rows := Stepped(s, Create(number, made)).rows;
      forall v | v in res.w.db.volumes
        ensures exists i :: 0 <= i < |rows| && rows[i].id == v
      {
        if v != w.serial {
          var i :| 0 <= i < |s.rows| && s.rows[i].id == v;
          assert rows[i].id == v;
        } else {
          assert rows[|s.rows|].id == v;
        }
      }
    }
  }

  lemma CreatedStep(s: State, number: Option<int>, id: Id, n: int)
    requires n == Chosen(s, number)
    ensures Stepped(s, Create(number, Some(id)))
            == State(s.rows + [Row(id, Some(n))], Maps(s.maps.vol[n := id], s.maps.ldev[id := n]))
  {
  }

  lemma FailedStep(s: State, number: Option<int>)
    ensures Stepped(s, Create(number, None)) == s
  {
  }

  /** The requested number, else 0 on an empty index and one above the largest number otherwise. */
  ghost predicate NumberFor(vol: map<int, Id>, number: Option<int>, n: int) {
    if number.Some? then n == number.value
    else if vol == map[] then n == 0
    else n - 1 in vol && forall k :: k in vol ==> k < n
  }

  lemma ChosenNumber(s: State, number: Option<int>)
    ensures NumberFor(s.maps.vol, number, Chosen(s, number))
  {
  }

  lemma CreatedOnly(w: World, name: string, pool: Id, sizeMb: int, wire: Wire)
    ensures var res := V.CreateVolume(w, name, pool, sizeMb, wire);
      && w.serial <= res.w.serial
      && (res.r.Ok? ==> res.r.value == w.serial < res.w.serial
                        && res.w.db.volumes.Keys == w.db.volumes.Keys + {w.serial}
                        && res.w.db.volumes[w.serial].name == name && res.w.db.volumes[w.serial].sizeMb == sizeMb)
  {
    hide LvsName;
  }

  lemma DeletionMatches(s: State, w: World, ldev: int, wire: Wire)
    requires Matches(s, w) && ldev in s.maps.vol
    ensures var res := V.DeleteVolume(w, s.maps.vol[ldev], wire);
      Matches(Stepped(s, Delete(ldev, res.r.Ok?)), Committed(w, res))
  {
    var id := s.maps.vol[ldev];
    var res := V.DeleteVolume(w, id, wire);
    DeletedOnly(w, id, wire);
    hide V.DeleteVolume, NoStoredClash, MapsOf;
    StepAgrees(s, Delete(ldev, res.r.Ok?));
    if res.r.Ok? {
      WithoutRows(s.rows, id);
      var rows := Without(s.rows, id);
      forall v | v in res.w.db.volumes
        ensures exists i :: 0 <= i < |rows| && rows[i].id == v
      {
        var i :| 0 <= i < |s.rows| && s.rows[i].id == v;
        assert s.rows[i] in rows;
      }
      forall i | 0 <= i < |rows|
        ensures rows[i].id in res.w.db.volumes
      {
        assert rows[i] in s.rows;
      }
    }
  }

  lemma DeletedOnly(w: World, id: Id, wire: Wire)
    ensures var res := V.DeleteVolume(w, id, wire);
      && w.serial == res.w.serial
      && (res.r.Ok? ==> res.r.value == id && res.w.db.volumes == w.db.volumes - {id})
  {
  }

  /** The routes of an array that owns all volumes: the two stores, the LDEV numbers in the volumes'
      metadata, in creation order, and the mapper. */
  class LdevService {
    const session: DbSession
    const spdk: SpdkTarget
    const mapper: HitachiIdMapper
    var rows: seq<Row>

    ghost function View(): State
      reads this, mapper
    {
      State(rows, mapper.Index())
    }

    /** What the next request finds. */
    ghost function Stores(): World
      reads session, spdk
    {
      CommittedWorld(session, spdk)
    }

    ghost predicate Valid()
      reads this, mapper, session, spdk
    {
      session.Working() == session.committed && Matches(View(), Stores())
    }

    constructor ()
      ensures fresh(session) && fresh(spdk) && fresh(mapper) && Valid()
      ensures View() == State([], NO_MAPS) && Stores() == World(EMPTY_DB, EMPTY_SPDK, 0)
    {
      session := new DbSession();
      spdk := new SpdkTarget();
      mapper := new HitachiIdMapper();
      rows := [];
    }

    /** The volume first, then the index, then the commit; a refused creation reaches neither. */
    method CreateLdev(pool: Option<Id>, number: Option<int>, name: int -> string, sizeMb: int, wire: Wire)
      returns (r: Result<int>)
      requires session.Working() == session.committed
      modifies this`rows, mapper, session, spdk
      ensures session.Working() == session.committed
      ensures var w, s := old(Stores()), old(View());
        if pool.None? || sizeMb <= 0 then
          r == Err(if pool.None? then NotFound else Invalid) && Stores() == w && View() == s
        else
          var res := V.CreateVolume(w, name(Chosen(s, number)), pool.value, sizeMb, wire);
          && Stores() == Committed(w, res)
          && View() == Stepped(s, Create(number, if res.r.Ok? then Some(res.r.value) else None))
          && r == if res.r.Ok? then Ok(Chosen(s, number)) else Err(res.r.error)
      ensures r.Ok? ==>
        && NumberFor(old(mapper.ldevToVol), number, r.value)
        && session.committed.volumes.Keys == old(session.committed.volumes.Keys) + {old(session.serial)}
        && session.committed.volumes[old(session.serial)].name == name(r.value)
        && session.committed.volumes[old(session.serial)].sizeMb == sizeMb
        && mapper.ldevToVol == old(mapper.ldevToVol)[r.value := old(session.serial)]
        && mapper.volToLdev == old(mapper.volToLdev)[old(session.serial) := r.value]
        && rows == old(rows) + [Row(old(session.serial), Some(r.value))]
      ensures r.Err? ==> session.committed == old(session.committed) && View() == old(View())
      ensures old(Valid() && (number.Some? ==> number.value !in mapper.ldevToVol)) ==> Valid() && Inverse(View().maps)
    {
      ghost var s, w, unused := View(), Stores(), Valid() && (number.Some? ==> number.value !in mapper.ldevToVol);
      hide V.CreateVolume, Matches, Agrees, Inverse, Stepped, IsMax;
      var n := if number.Some? then number.value else 0;
      if number.None? { n := mapper.NextLdevId(); }
      ChosenNumber(s, number);
      if pool.None? {
        r := Err(NotFound);
      } else if sizeMb <= 0 {
        r := Err(Invalid);
      } else {
        var made := VS.CreateVolume(session, spdk, name(n), pool.value, sizeMb, wire);
        CreatedOnly(w, name(n), pool.value, sizeMb, wire);
        if made.Ok? {
          CreatedStep(s, number, made.value, n);
          rows := rows + [Row(made.value, Some(n))];
          mapper.RegisterLdev(n, made.value);
          session.Commit();
          r := Ok(n);
        } else {
          session.Rollback();
          FailedStep(s, number);
          r := Err(made.error);
        }
        if unused {
          CreationMatches(s, w, number, name(n), pool.value, sizeMb, wire);
        }
      }
      if unused {
        MatchesInverse(View(), Stores());
      }
    }

    method DeleteLdev(ldev: int, wire: Wire) returns (r: Result<Id>)
      requires session.Working() == session.committed
      modifies this`rows, mapper, session, spdk
      ensures session.Working() == session.committed
      ensures var w, s := old(Stores()), old(View());
        if ldev !in s.maps.vol then
          r == Err(NotFound) && Stores() == w && View() == s
        else
          var res := V.DeleteVolume(w, s.maps.vol[ldev], wire);
          r == res.r && Stores() == Committed(w, res) && View() == Stepped(s, Delete(ldev, res.r.Ok?))
      ensures r.Err? ==> session.committed == old(session.committed) && View() == old(View())
      ensures old(Valid()) && r.Ok? ==>
        && ldev in old(mapper.ldevToVol) && r.value == old(mapper.ldevToVol)[ldev]
        && session.committed.volumes == old(session.committed.volumes) - {r.value}
        && mapper.ldevToVol == old(mapper.ldevToVol) - {ldev} && mapper.volToLdev == old(mapper.volToLdev) - {r.value}
        && forall row :: row in rows <==> row in old(rows) && row.id != r.value
      ensures old(Valid()) ==> Valid() && Inverse(View().maps)
    {
      ghost var s, w, valid := View(), Stores(), Valid();
      hide V.DeleteVolume, Matches, Agrees, Inverse;
      if ldev !in mapper.ldevToVol {
        r := Err(NotFound);
      } else {
        var volume := mapper.ldevToVol[ldev];
        r := VS.DeleteVolume(session, spdk, volume, wire);
        if r.Ok? {
          rows := Without(rows, volume);
          mapper.UnregisterLdev(volume);
          session.Commit();
        } else {
          session.Rollback();
        }
        DeletedOnly(w, volume, wire);
        if valid {
          assert Agrees(s) by { MatchesAgrees(s, w); }
          DeletedNumber(s, ldev);
          DeletionMatches(s, w, ldev, wire);
        }
      }
      if valid {
        MatchesInverse(View(), Stores());
      }
    }

    /** The periodic refresh; an error of its queries is logged. */
    method RefreshMapper(ok: bool)
      modifies this`rows, mapper
      ensures View() == Stepped(old(View()), Refresh(ok))
      ensures old(Valid()) && ok ==> View() == old(View())
    {
      ghost var before, valid := View(), Valid();
      rows := mapper.RebuildVolumes(rows, ok);
      if valid {
        AgreesInverse(before);
      }
    }
  }

  lemma MatchesAgrees(s: State, w: World)
    requires Matches(s, w)
    ensures Agrees(s)
  {
  }

  lemma MatchesInverse(s: State, w: World)
    requires Matches(s, w)
    ensures Inverse(s.maps)
  {
    AgreesInverse(s);
  }
}
