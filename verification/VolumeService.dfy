/** The volume service: status fields change step by step around the SPDK calls. */
module VolumeService {
  import opened Model
  import opened Ensure
  import opened SpdkClient
  import opened DbSessions
  import V = Volumes

  method CreateVolume(session: DbSession, spdk: SpdkTarget, name: string, pool: Id, sizeMb: int,
                      wire: Wire) returns (r: Result<Id>)
    modifies session, spdk
    ensures Res(WorldOf(session, spdk), r) == V.CreateVolume(old(WorldOf(session, spdk)), name, pool, sizeMb, wire)
    ensures session.committed == old(session.committed)
  {
    if pool !in session.pools { return Err(NotFound); }
    var arr := session.pools[pool].arr;
    if arr !in session.arrays { return Err(NotFound); }
    if V.VolumesNamed(session.Working(), arr, name) != {} { return Err(AlreadyExists); }
    var id := session.NextId();
    var volume := Volume(name, arr, pool, sizeMb, Creating, None);
    session.volumes := session.volumes[id := volume];
    var bdev := Lvol(LvsName(session.arrays[arr].name, session.pools[pool].name), id);
    var ok := spdk.EnsureLvol(bdev, sizeMb, wire);
    if ok {
      session.volumes := session.volumes[id := volume.(bdev := Some(bdev), status := Available)];
      return Ok(id);
    }
    session.volumes := session.volumes[id := volume.(status := InError)];
    return Err(BackendFailure);
  }

  method DeleteVolume(session: DbSession, spdk: SpdkTarget, id: Id, wire: Wire) returns (r: Result<Id>)
    modifies session, spdk
    ensures Res(WorldOf(session, spdk), r) == V.DeleteVolume(old(WorldOf(session, spdk)), id, wire)
    ensures session.committed == old(session.committed)
  {
    if id !in session.volumes { return Err(NotFound); }
    if V.MappingsOf(session.Working(), id) != {} { return Err(ResourceInUse); }
    var volume := session.volumes[id];
    session.volumes := session.volumes[id := volume.(status := Deleting)];
    if volume.bdev.Some? {
      var ok := spdk.DeleteLvolBdev(volume.bdev.value, wire);
      if !ok {
        session.volumes := session.volumes[id := volume.(status := InError)];
        return Err(BackendFailure);
      }
    }
    session.volumes := session.volumes - {id};
    return Ok(id);
  }

  method ExtendVolume(session: DbSession, spdk: SpdkTarget, id: Id, newSizeMb: int, wire: Wire) returns (r: Result<Id>)
    modifies session, spdk
    ensures Res(WorldOf(session, spdk), r) == V.ExtendVolume(old(WorldOf(session, spdk)), id, newSizeMb, wire)
    ensures session.committed == old(session.committed)
  {
    if id !in session.volumes { return Err(NotFound); }
    var volume := session.volumes[id];
    if newSizeMb <= volume.sizeMb { return Err(Invalid); }
    session.volumes := session.volumes[id := volume.(status := Extending)];
    var ok := spdk.ResizeLvolBdev(volume.bdev, newSizeMb, wire);
    if ok {
      session.volumes := session.volumes[id := volume.(sizeMb := newSizeMb, status := Available)];
      return Ok(id);
    }
    session.volumes := session.volumes[id := volume.(status := InError)];
    return Err(BackendFailure);
  }

  method ExpandVolume(session: DbSession, spdk: SpdkTarget, id: Id, deltaMb: int, wire: Wire) returns (r: Result<Id>)
    modifies session, spdk
    ensures Res(WorldOf(session, spdk), r) == V.ExpandVolume(old(WorldOf(session, spdk)), id, deltaMb, wire)
    ensures session.committed == old(session.committed)
  {
    if id !in session.volumes { return Err(NotFound); }
    r := ExtendVolume(session, spdk, id, session.volumes[id].sizeMb + deltaMb, wire);
  }
}
