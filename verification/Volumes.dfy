/** The volume life cycle. */
module Volumes {
  import opened Model
  import opened Ensure

  function VolumesNamed(db: Db, arr: Id, name: string): set<Id> {
    set v | v in db.volumes && db.volumes[v].arr == arr && db.volumes[v].name == name
  }

  function MappingsOf(db: Db, volume: Id): set<Id> { set m | m in db.mappings && db.mappings[m].volume == volume }

  function PutVolume(w: World, id: Id, v: Volume): World {
    w.(db := w.db.(volumes := w.db.volumes[id := v]))
  }

  function BdevName(db: Db, arr: Id, pool: Id, id: Id): Bdev
    requires arr in db.arrays && pool in db.pools
  {
    Lvol(LvsName(db.arrays[arr].name, db.pools[pool].name), id)
  }

  /** On a backend failure the row stays in the working copy with status error. */
  function CreateVolume(w: World, name: string, pool: Id, sizeMb: int, wire: Wire): Res<Id> {
    if pool !in w.db.pools then Res(w, Err(NotFound))
    else
      var arr := w.db.pools[pool].arr;
      if arr !in w.db.arrays then Res(w, Err(NotFound))
      else if VolumesNamed(w.db, arr, name) != {} then Res(w, Err(AlreadyExists))
      else
        var id := w.serial;
        var bdev := BdevName(w.db, arr, pool, id);
        var a := LvolEnsured(w.spdk, bdev, sizeMb, wire);
        var w1 := w.(spdk := a.s, serial := w.serial + 1);
        if a.ok then Res(PutVolume(w1, id, Volume(name, arr, pool, sizeMb, Available, Some(bdev))), Ok(id))
        else Res(PutVolume(w1, id, Volume(name, arr, pool, sizeMb, InError, None)), Err(BackendFailure))
  }

  function DeleteVolume(w: World, id: Id, wire: Wire): Res<Id> {
    if id !in w.db.volumes then Res(w, Err(NotFound))
    else if MappingsOf(w.db, id) != {} then Res(w, Err(ResourceInUse))
    else
      var v := w.db.volumes[id];
      var a := if v.bdev.Some? then LvolDeleted(w.spdk, v.bdev.value, wire) else Act(w.spdk, true);
      var w1 := w.(spdk := a.s);
      if a.ok then Res(w1.(db := w1.db.(volumes := w1.db.volumes - {id})), Ok(id))
      else Res(PutVolume(w1, id, v.(status := InError)), Err(BackendFailure))
  }

  /** The current status is not looked at: success always ends in `Available`. */
  function ExtendVolume(w: World, id: Id, newSizeMb: int, wire: Wire): Res<Id> {
    if id !in w.db.volumes then Res(w, Err(NotFound))
    else
      var v := w.db.volumes[id];
      if newSizeMb <= v.sizeMb then Res(w, Err(Invalid))
      else
        var a := LvolResized(w.spdk, v.bdev, newSizeMb, wire);
        var w1 := w.(spdk := a.s);
        if a.ok then Res(PutVolume(w1, id, v.(sizeMb := newSizeMb, status := Available)), Ok(id))
        else Res(PutVolume(w1, id, v.(status := InError)), Err(BackendFailure))
  }

  function ExpandVolume(w: World, id: Id, deltaMb: int, wire: Wire): Res<Id> {
    if id !in w.db.volumes then Res(w, Err(NotFound))
    else ExtendVolume(w, id, w.db.volumes[id].sizeMb + deltaMb, wire)
  }
}
