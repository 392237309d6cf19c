/** A successful apply makes exactly the rows its specification declares, with the declared fields. */
module ApplyRows {
  import opened Model
  import opened Ensure
  import opened Inventory
  import opened Volumes
  import opened Mappings
  import opened Alloc
  import opened Topology
  import opened Apply
  import opened Invariants
  import opened DbSteps
  import opened GoodSteps
  import opened EndpointChoice
  import opened Replies
  import opened ApplyGood
  import opened ApplyAgain
  import opened ApplyWires

  // ---- What each phase leaves alone -------------------------------------------------------------

  lemma {:induction false} EndpointPhaseOnly(w: World, arr: Id, es: seq<EndpointSpec>)
    ensures EndpointPhase(w, arr, es).db == w.db.(endpoints := EndpointPhase(w, arr, es).db.endpoints)
    decreases |es|
  {
    if es != [] {
      EndpointPhaseOnly(w, arr, es[..|es| - 1]);
    }
  }

  lemma {:induction false} ArrayPhaseOnly(w: World, xs: seq<ArraySpec>)
    ensures var db := ArrayPhase(w, xs).w.db; db == w.db.(arrays := db.arrays, endpoints := db.endpoints)
    decreases |xs|
  {
    if xs != [] {
      var x := ArrayPhase(w, xs[..|xs| - 1]);
      ArrayPhaseOnly(w, xs[..|xs| - 1]);
      if x.err.None? {
        ArrayStepOnly(x, xs[|xs| - 1]);
        hide ArrayStep;
      }
    }
  }

  lemma ArrayStepOnly(x: Phase, a: ArraySpec)
    ensures var db := ArrayStep(x, a).w.db; db == x.w.db.(arrays := db.arrays, endpoints := db.endpoints)
  {
    var found := First(ArraysNamed(x.w.db, a.name));
    var y := if found.Some? then Skip(x, a.name, found.value) else Made(x, a.name, CreateArray(x.w, a.name));
    if y.err.None? && a.name in y.objs {
      EndpointPhaseOnly(y.w, y.objs[a.name], a.endpoints);
    }
    hide EndpointPhase;
  }

  lemma {:induction false} PoolPhaseOnly(w: World, arrays: map<string, Id>, xs: seq<PoolSpec>, wires: Item -> Wire)
    ensures var db := PoolPhase(w, arrays, xs, wires).w.db; db == w.db.(pools := db.pools)
    decreases |xs|
  {
    hide PoolEnsured;
    if xs != [] {
      PoolPhaseOnly(w, arrays, xs[..|xs| - 1], wires);
    }
  }

  lemma {:induction false} HostPhaseOnly(w: World, xs: seq<HostSpec>)
    ensures var db := HostPhase(w, xs).w.db; db == w.db.(hosts := db.hosts)
    decreases |xs|
  {
    if xs != [] {
      HostPhaseOnly(w, xs[..|xs| - 1]);
    }
  }

  lemma {:induction false} VolumePhaseOnly(w: World, arrays: map<string, Id>, pools: map<string, Id>,
          xs: seq<VolumeSpec>, wires: Item -> Wire)
    ensures var db := VolumePhase(w, arrays, pools, xs, wires).w.db; db == w.db.(volumes := db.volumes)
    decreases |xs|
  {
    hide LvolEnsured, LvsName;
    if xs != [] {
      VolumePhaseOnly(w, arrays, pools, xs[..|xs| - 1], wires);
    }
  }

  /** Of the volumes, mappings change the status only. */
  ghost predicate SameVolumes(volumes: map<Id, Volume>, volumes': map<Id, Volume>) {
    && volumes'.Keys == volumes.Keys
    && forall v :: v in volumes ==> volumes'[v] == volumes[v].(status := volumes'[v].status)
  }

  lemma MappingStepOnly(x: Phase, hosts: map<string, Id>, volumes: map<string, Id>, m: MappingSpec, base: int,
                        wire: Wire)
    ensures var db := MappingStep(x, hosts, volumes, m, base, wire).w.db;
      db == x.w.db.(volumes := db.volumes, mappings := db.mappings) && SameVolumes(x.w.db.volumes, db.volumes)
  {
    hide ResolveEndpoints, WireUnderlay, NewUnder, UsedLuns;
  }

  lemma {:induction false} MappingPhaseOnly(w: World, hosts: map<string, Id>, volumes: map<string, Id>,
          xs: seq<MappingSpec>, base: int, wires: Item -> Wire)
    ensures var db := MappingPhase(w, hosts, volumes, xs, base, wires).w.db;
      db == w.db.(volumes := db.volumes, mappings := db.mappings) && SameVolumes(w.db.volumes, db.volumes)
    decreases |xs|
  {
    if xs != [] {
      var k := |xs| - 1;
      MappingPhaseOnly(w, hosts, volumes, xs[..k], base, wires);
      MappingStepOnly(MappingPhase(w, hosts, volumes, xs[..k], base, wires), hosts, volumes, xs[k], base,
                      wires(MappingItem(k)));
      hide MappingStep;
    }
  }

  // ---- Arrays and their endpoints -----------------------------------------------------------------

  /** The row is that of the first declared endpoint of its protocol. */
  ghost predicate EndpointOf(row: Endpoint, es: seq<EndpointSpec>) {
    exists i :: 0 <= i < |es| && row.protocol == es[i].protocol && row.target == es[i].target
                && row.listeners == es[i].listeners && forall j :: 0 <= j < i ==> es[j].protocol != es[i].protocol
  }

  ghost predicate EndpointsMade(endpoints: map<Id, Endpoint>, endpoints': map<Id, Endpoint>, arr: Id,
                                es: seq<EndpointSpec>) {
    forall e :: e in endpoints' && e !in endpoints ==> endpoints'[e].arr == arr && EndpointOf(endpoints'[e], es)
  }

  lemma EndpointOfMore(row: Endpoint, es: seq<EndpointSpec>, e: EndpointSpec)
    requires EndpointOf(row, es)
    ensures EndpointOf(row, es + [e])
  {
    var i :| 0 <= i < |es| && row.protocol == es[i].protocol && row.target == es[i].target
      && row.listeners == es[i].listeners && forall j :: 0 <= j < i ==> es[j].protocol != es[i].protocol;
    assert (es + [e])[i] == es[i] && forall j :: 0 <= j < i ==> (es + [e])[j] == es[j];
  }

  lemma EndpointsMadeKept(endpoints: map<Id, Endpoint>, endpoints': map<Id, Endpoint>, arr: Id,
                          es: seq<EndpointSpec>, e: EndpointSpec)
    requires EndpointsMade(endpoints, endpoints', arr, es)
    ensures EndpointsMade(endpoints, endpoints', arr, es + [e])
  {
    hide EndpointOf;
    forall k | k in endpoints' && k !in endpoints
      ensures EndpointOf(endpoints'[k], es + [e])
    {
      EndpointOfMore(endpoints'[k], es, e);
    }
  }

  lemma EndpointsMadeMore(endpoints: map<Id, Endpoint>, endpoints': map<Id, Endpoint>, arr: Id,
                          es: seq<EndpointSpec>, e: EndpointSpec, id: Id)
    requires EndpointsMade(endpoints, endpoints', arr, es) && forall f :: f in es ==> f.protocol != e.protocol
    ensures EndpointsMade(endpoints, endpoints'[id := Endpoint(arr, e.protocol, e.target, e.listeners)], arr, es + [e])
  {
    EndpointsMadeKept(endpoints, endpoints', arr, es, e);
    var all := es + [e];
    assert forall j :: 0 <= j < |es| ==> all[j] in es;
    assert EndpointOf(Endpoint(arr, e.protocol, e.target, e.listeners), all) by {
      assert all[|es|] == e;
    }
    hide EndpointOf;
  }

  lemma {:induction false} EndpointRows(w: World, arr: Id, es: seq<EndpointSpec>)
    requires Good(w, ANY_RUN) && arr in w.db.arrays
    ensures EndpointsMade(w.db.endpoints, EndpointPhase(w, arr, es).db.endpoints, arr, es)
    decreases |es|
  {
    if es != [] {
      var k := |es| - 1;
      var y := EndpointPhase(w, arr, es[..k]);
      hide Good, Inv, Extends, EndpointsMade, EndpointOf;
      EndpointRows(w, arr, es[..k]);
      EndpointPhaseHas(w, arr, es[..k]);
      assert es == es[..k] + [es[k]];
      if EndpointsOf(y.db, arr, es[k].protocol) == {} && arr in y.db.arrays {
        EndpointsMadeMore(w.db.endpoints, y.db.endpoints, arr, es[..k], es[k], y.serial);
      } else {
        EndpointsMadeKept(w.db.endpoints, y.db.endpoints, arr, es[..k], es[k]);
      }
    }
  }

  ghost predicate EndpointDeclared(arrays: map<Id, Array>, row: Endpoint, xs: seq<ArraySpec>) {
    row.arr in arrays && exists a :: a in xs && a.name == arrays[row.arr].name && EndpointOf(row, a.endpoints)
  }

  /** New arrays and endpoints are declared; every declared name has its array, with an endpoint of each
      protocol declared for it. */
  ghost predicate ArraysMade(w: World, x: Phase, xs: seq<ArraySpec>) {
    && (forall k :: k in x.w.db.arrays && k !in w.db.arrays ==> exists a :: a in xs && a.name == x.w.db.arrays[k].name)
    && (forall e :: e in x.w.db.endpoints && e !in w.db.endpoints ==>
          EndpointDeclared(x.w.db.arrays, x.w.db.endpoints[e], xs))
    && (forall a :: a in xs ==> a.name in x.objs && forall e :: e in a.endpoints ==>
          HasProtocol(x.w.db, x.objs[a.name], e.protocol))
    && (forall n :: n in x.objs ==> x.objs[n] in x.w.db.arrays && x.w.db.arrays[x.objs[n]].name == n)
  }

  lemma ArrayStepNew(x: Phase, a: ArraySpec)
    requires Good(x.w, ANY_RUN) && x.err.None? && ArrayStep(x, a).err.None?
    ensures var y := ArrayStep(x, a);
      && a.name in y.objs
      && (forall k :: k in y.w.db.arrays && k !in x.w.db.arrays ==> y.w.db.arrays[k].name == a.name)
      && EndpointsMade(x.w.db.endpoints, y.w.db.endpoints, y.objs[a.name], a.endpoints)
  {
    var found := First(ArraysNamed(x.w.db, a.name));
    var y := if found.Some? then Skip(x, a.name, found.value) else Made(x, a.name, CreateArray(x.w, a.name));
    hide Good, Extends, EndpointsMade;
    LaterRefl(x.w, ANY_RUN);
    if found.None? {
      CreateArrayLater(x.w, ANY_RUN, a.name);
    }
    EndpointRows(y.w, y.objs[a.name], a.endpoints);
    EndpointPhaseOnly(y.w, y.objs[a.name], a.endpoints);
    hide EndpointPhase;
  }

  lemma ArraysMadeMore(w: World, x: Phase, y: Phase, xs: seq<ArraySpec>, a: ArraySpec)
    requires ArraysMade(w, x, xs) && Extends(x.w.db, y.w.db) && a.name in y.objs
    requires y.objs == x.objs[a.name := y.objs[a.name]] && (a.name in x.objs ==> y.objs[a.name] == x.objs[a.name])
    requires y.objs[a.name] in y.w.db.arrays && y.w.db.arrays[y.objs[a.name]].name == a.name
    requires forall k :: k in y.w.db.arrays && k !in x.w.db.arrays ==> y.w.db.arrays[k].name == a.name
    requires EndpointsMade(x.w.db.endpoints, y.w.db.endpoints, y.objs[a.name], a.endpoints)
    requires forall e :: e in a.endpoints ==> HasProtocol(y.w.db, y.objs[a.name], e.protocol)
    ensures ArraysMade(w, y, xs + [a])
  {
    hide EndpointOf, HasProtocol;
    var all := xs + [a];
    forall k | k in y.w.db.arrays && k !in w.db.arrays
      ensures exists b :: b in all && b.name == y.w.db.arrays[k].name
    {
      if k in x.w.db.arrays {
        var b :| b in xs && b.name == x.w.db.arrays[k].name;
        assert b in all;
      } else {
        assert a in all;
      }
    }
    forall e | e in y.w.db.endpoints && e !in w.db.endpoints
      ensures EndpointDeclared(y.w.db.arrays, y.w.db.endpoints[e], all)
    {
      if e in x.w.db.endpoints {
        var b :| b in xs && b.name == x.w.db.arrays[x.w.db.endpoints[e].arr].name
          && EndpointOf(x.w.db.endpoints[e], b.endpoints);
        assert b in all;
      } else {
        assert a in all;
      }
    }
    forall b, e | b in all && e in b.endpoints
      ensures b.name in y.objs && HasProtocol(y.w.db, y.objs[b.name], e.protocol)
    {
      if b in xs {
        HasProtocolLater(x.w.db, y.w.db, x.objs[b.name], e.protocol);
      }
    }
  }

  lemma ArrayStepRows(w: World, x: Phase, xs: seq<ArraySpec>, a: ArraySpec)
    requires Good(x.w, ANY_RUN) && x.err.None? && ArrayStep(x, a).err.None? && ArraysMade(w, x, xs)
    ensures ArraysMade(w, ArrayStep(x, a), xs + [a])
  {
    var y := ArrayStep(x, a);
    if a.name in x.objs {
      FoundAgainArray(w, x, xs, a);
    }
    hide Good, Extends, ArrayStep, ArraysMade, EndpointsMade, HasProtocol;
    ArrayStepNew(x, a);
    ArrayStepMade(x, a);
    ArrayStepLater(x, ANY_RUN, a);
    ArraysMadeMore(w, x, y, xs, a);
  }

  /** A name declared twice finds the array of the first time. */
  lemma FoundAgainArray(w: World, x: Phase, xs: seq<ArraySpec>, a: ArraySpec)
    requires Inv(x.w) && x.err.None? && ArraysMade(w, x, xs) && a.name in x.objs && ArrayStep(x, a).err.None?
    ensures ArrayStep(x, a).objs == x.objs[a.name := x.objs[a.name]]
  {
    OnlyOne(ArraysNamed(x.w.db, a.name), x.objs[a.name]);
    hide EndpointPhase;
  }

  lemma {:induction false} ArrayRows(w: World, xs: seq<ArraySpec>)
    requires Good(w, ANY_RUN) && ArrayPhase(w, xs).err.None?
    ensures ArraysMade(w, ArrayPhase(w, xs), xs)
    decreases |xs|
  {
    if xs == [] {
      hide Good, Extends;
    } else {
      var k := |xs| - 1;
      hide Good, Extends, ArrayStep, ArraysMade;
      ArrayPrefix(w, ANY_RUN, xs);
      ArrayRows(w, xs[..k]);
      ArrayPhaseLater(w, ANY_RUN, xs[..k]);
      ArrayStepRows(w, ArrayPhase(w, xs[..k]), xs[..k], xs[k]);
      assert xs == xs[..k] + [xs[k]];
    }
  }

  // ---- Pools --------------------------------------------------------------------------------------

  /** A Malloc pool has the declared size, an AIO pool that of its file. */
  predicate PoolOf(arrays: map<string, Id>, row: Pool, p: PoolSpec, wire: Wire) {
    && p.arr in arrays && row.arr == arrays[p.arr] && row.name == p.name && row.aioPath == p.aioPath
    && row.backend == (if p.malloc then Malloc else AioFile)
    && row.sizeMb == Some(if p.malloc then p.sizeMb else wire.aioBlocks * 512 / 1048576)
  }

  /** The name stands for the pool of the last item of that name whose array is declared. */
  ghost predicate LastPool(db: Db, arrays: map<string, Id>, xs: seq<PoolSpec>, name: string, id: Id) {
    && id in db.pools && db.pools[id].name == name
    && exists j :: 0 <= j < |xs| && xs[j].name == name && xs[j].arr in arrays && db.pools[id].arr == arrays[xs[j].arr]
                   && forall k :: j < k < |xs| ==> xs[k].name != name || xs[k].arr !in arrays
  }

  ghost predicate PoolDeclared(arrays: map<string, Id>, row: Pool, xs: seq<PoolSpec>, wires: Item -> Wire) {
    exists i: nat :: i < |xs| && PoolOf(arrays, row, xs[i], wires(PoolItem(i)))
  }

  ghost predicate OnArrayNamed(db: Db, arr: Id, name: string) {
    exists k :: k in db.pools && db.pools[k].arr == arr && db.pools[k].name == name
  }

  ghost predicate PoolsMade(w: World, x: Phase, arrays: map<string, Id>, xs: seq<PoolSpec>, wires: Item -> Wire) {
    && (forall p :: p in x.w.db.pools && p !in w.db.pools ==> PoolDeclared(arrays, x.w.db.pools[p], xs, wires))
    && (forall p :: p in xs && p.arr in arrays ==> p.name in x.objs && OnArrayNamed(x.w.db, arrays[p.arr], p.name))
    && (forall n :: n in x.objs ==> LastPool(x.w.db, arrays, xs, n, x.objs[n]))
  }

  lemma PoolStepNew(x: Phase, arrays: map<string, Id>, p: PoolSpec, wire: Wire)
    requires Inv(x.w) && x.err.None? && PoolStep(x, arrays, p, wire).err.None?
    ensures var y := PoolStep(x, arrays, p, wire);
      && Sub(x.w.db.pools, y.w.db.pools)
      && (forall k :: k in y.w.db.pools && k !in x.w.db.pools ==> PoolOf(arrays, y.w.db.pools[k], p, wire))
  {
    var y := PoolStep(x, arrays, p, wire);
    SerialFresh(x.w);
    assert x.w.serial !in x.w.spdk.backing;
    hide Inv, PoolEnsured;
    if y.w.db.pools != x.w.db.pools {
      var row := Pool(p.name, arrays[p.arr], if p.malloc then Malloc else AioFile,
                      if p.malloc then Some(p.sizeMb) else None, p.aioPath);
      PoolByReplies(x.w.spdk, x.w.serial, row, x.w.db.arrays[arrays[p.arr]].name, wire);
    }
  }

  lemma PoolDeclaredMore(arrays: map<string, Id>, row: Pool, xs: seq<PoolSpec>, p: PoolSpec, wires: Item -> Wire)
    requires PoolDeclared(arrays, row, xs, wires) || PoolOf(arrays, row, p, wires(PoolItem(|xs|)))
    ensures PoolDeclared(arrays, row, xs + [p], wires)
  {
    hide PoolOf;
    if PoolDeclared(arrays, row, xs, wires) {
      var i: nat :| i < |xs| && PoolOf(arrays, row, xs[i], wires(PoolItem(i)));
      assert (xs + [p])[i] == xs[i];
    } else {
      assert (xs + [p])[|xs|] == p;
    }
  }

  lemma LastPoolMore(db: Db, db': Db, arrays: map<string, Id>, xs: seq<PoolSpec>, p: PoolSpec, name: string, id: Id)
    requires Sub(db.pools, db'.pools)
    requires if p.arr in arrays && name == p.name
             then id in db'.pools && db'.pools[id].name == name && db'.pools[id].arr == arrays[p.arr]
             else LastPool(db, arrays, xs, name, id)
    ensures LastPool(db', arrays, xs + [p], name, id)
  {
    var all := xs + [p];
    if p.arr in arrays && name == p.name {
      assert all[|xs|] == p;
    } else {
      var j :| 0 <= j < |xs| && xs[j].name == name && xs[j].arr in arrays && db.pools[id].arr == arrays[xs[j].arr]
        && forall k :: j < k < |xs| ==> xs[k].name != name || xs[k].arr !in arrays;
      assert all[j] == xs[j];
    }
  }

  lemma PoolsMadeMore(w: World, x: Phase, y: Phase, arrays: map<string, Id>, xs: seq<PoolSpec>, p: PoolSpec,
                      wires: Item -> Wire)
    requires PoolsMade(w, x, arrays, xs, wires) && Sub(x.w.db.pools, y.w.db.pools)
    requires forall k :: k in y.w.db.pools && k !in x.w.db.pools ==>
      PoolOf(arrays, y.w.db.pools[k], p, wires(PoolItem(|xs|)))
    requires if p.arr !in arrays then y.objs == x.objs
             else p.name in y.objs && y.objs == x.objs[p.name := y.objs[p.name]] && y.objs[p.name] in y.w.db.pools
                  && y.w.db.pools[y.objs[p.name]].name == p.name
                  && y.w.db.pools[y.objs[p.name]].arr == arrays[p.arr]
    ensures PoolsMade(w, y, arrays, xs + [p], wires)
  {
    hide PoolOf, PoolDeclared, LastPool;
    forall k | k in y.w.db.pools && k !in w.db.pools
      ensures PoolDeclared(arrays, y.w.db.pools[k], xs + [p], wires)
    {
      PoolDeclaredMore(arrays, y.w.db.pools[k], xs, p, wires);
    }
    forall d | d in xs + [p] && d.arr in arrays
      ensures d.name in y.objs && OnArrayNamed(y.w.db, arrays[d.arr], d.name)
    {
      if d in xs {
        var k :| k in x.w.db.pools && x.w.db.pools[k].arr == arrays[d.arr] && x.w.db.pools[k].name == d.name;
        assert y.w.db.pools[k] == x.w.db.pools[k];
      }
    }
    forall n | n in y.objs
      ensures LastPool(y.w.db, arrays, xs + [p], n, y.objs[n])
    {
      LastPoolMore(x.w.db, y.w.db, arrays, xs, p, n, y.objs[n]);
    }
  }

  lemma PoolStepRows(w: World, x: Phase, arrays: map<string, Id>, xs: seq<PoolSpec>, p: PoolSpec, wires: Item -> Wire)
    requires Good(x.w, ANY_RUN) && x.err.None? && PoolStep(x, arrays, p, wires(PoolItem(|xs|))).err.None?
    requires PoolsMade(w, x, arrays, xs, wires)
    ensures PoolsMade(w, PoolStep(x, arrays, p, wires(PoolItem(|xs|))), arrays, xs + [p], wires)
  {
    var wire := wires(PoolItem(|xs|));
    GoodFresh(x.w, ANY_RUN);
    hide Good, Inv, PoolStep, PoolsMade, PoolOf, Sub;
    PoolStepNew(x, arrays, p, wire);
    if p.arr in arrays {
      PoolStepMade(x, arrays, p, wire);
    } else {
      PoolStepNone(x, arrays, p, wire);
    }
    PoolsMadeMore(w, x, PoolStep(x, arrays, p, wire), arrays, xs, p, wires);
  }

  lemma {:induction false} PoolRows(w: World, arrays: map<string, Id>, xs: seq<PoolSpec>, wires: Item -> Wire)
    requires Good(w, ANY_RUN) && PoolPhase(w, arrays, xs, wires).err.None?
    ensures PoolsMade(w, PoolPhase(w, arrays, xs, wires), arrays, xs, wires)
    decreases |xs|
  {
    if xs == [] {
      hide Good, Extends;
    } else {
      var k := |xs| - 1;
      hide Good, Extends, PoolStep, PoolsMade;
      PoolRows(w, arrays, xs[..k], wires);
      PoolPhaseLater(w, ANY_RUN, arrays, xs[..k], wires);
      PoolStepRows(w, PoolPhase(w, arrays, xs[..k], wires), arrays, xs[..k], xs[k], wires);
      assert xs == xs[..k] + [xs[k]];
    }
  }

  // ---- Hosts ------------------------------------------------------------------------------------

  predicate HostOf(row: Host, h: HostSpec) {
    row.name == h.name && row.iqns == h.iqns && row.nqns == h.nqns && row.wwpns == h.wwpns
  }

  /** Rows that are new are declared, and every declared name has its row. */
  ghost predicate HostsMade(w: World, x: Phase, xs: seq<HostSpec>) {
    && (forall h :: h in x.w.db.hosts && h !in w.db.hosts ==> exists d :: d in xs && HostOf(x.w.db.hosts[h], d))
    && (forall h :: h in xs ==> h.name in x.objs)
    && (forall n :: n in x.objs ==> x.objs[n] in x.w.db.hosts && x.w.db.hosts[x.objs[n]].name == n)
  }

  lemma HostStepNew(x: Phase, h: HostSpec)
    requires Inv(x.w) && x.err.None? && HostStep(x, h).err.None?
    ensures var y := HostStep(x, h);
      && Sub(x.w.db.hosts, y.w.db.hosts)
      && (forall k :: k in y.w.db.hosts && k !in x.w.db.hosts ==> HostOf(y.w.db.hosts[k], h))
  {
    SerialFresh(x.w);
    hide Inv;
  }

  lemma HostsMadeMore(w: World, x: Phase, y: Phase, xs: seq<HostSpec>, h: HostSpec)
    requires HostsMade(w, x, xs) && Sub(x.w.db.hosts, y.w.db.hosts)
    requires forall k :: k in y.w.db.hosts && k !in x.w.db.hosts ==> HostOf(y.w.db.hosts[k], h)
    requires h.name in y.objs && y.objs == x.objs[h.name := y.objs[h.name]]
    requires y.objs[h.name] in y.w.db.hosts && y.w.db.hosts[y.objs[h.name]].name == h.name
    ensures HostsMade(w, y, xs + [h])
  {
    hide HostOf;
    forall k | k in y.w.db.hosts && k !in w.db.hosts
      ensures exists d :: d in xs + [h] && HostOf(y.w.db.hosts[k], d)
    {
      if k in x.w.db.hosts {
        var d :| d in xs && HostOf(x.w.db.hosts[k], d);
        assert d in xs + [h];
      } else {
        assert h in xs + [h];
      }
    }
  }

  lemma HostStepRows(w: World, x: Phase, xs: seq<HostSpec>, h: HostSpec)
    requires Inv(x.w) && x.err.None? && HostStep(x, h).err.None? && HostsMade(w, x, xs)
    ensures HostsMade(w, HostStep(x, h), xs + [h])
  {
    hide Inv, HostsMade, HostOf, Sub;
    HostStepNew(x, h);
    HostStepMade(x, h);
    hide HostStep;
    HostsMadeMore(w, x, HostStep(x, h), xs, h);
  }

  lemma NoHostsMade(w: World)
    ensures HostsMade(w, Start(w), [])
  {
  }

  lemma {:induction false} HostRows(w: World, xs: seq<HostSpec>)
    requires Good(w, ANY_RUN) && HostPhase(w, xs).err.None?
    ensures HostsMade(w, HostPhase(w, xs), xs)
    decreases |xs|
  {
    hide Good, Inv, Extends, HostStep, HostsMade;
    if xs == [] {
      NoHostsMade(w);
    } else {
      var k := |xs| - 1;
      HostRows(w, xs[..k]);
      HostPhaseLater(w, ANY_RUN, xs[..k]);
      GoodFresh(HostPhase(w, xs[..k]).w, ANY_RUN);
      HostStepRows(w, HostPhase(w, xs[..k]), xs[..k], xs[k]);
      assert xs == xs[..k] + [xs[k]];
    }
  }

  // ---- Volumes --------------------------------------------------------------------------------------

  /** A volume lies in the pool its pool name stands for, and in that pool's array. */
  predicate VolumeOf(db: Db, pools: map<string, Id>, row: Volume, v: VolumeSpec) {
    && row.name == v.name && row.sizeMb == v.sizeMb && v.pool in pools && row.pool == pools[v.pool]
    && row.pool in db.pools && row.arr == db.pools[row.pool].arr
  }

  ghost predicate VolumeNamed(db: Db, arr: Id, name: string) {
    exists k :: k in db.volumes && db.volumes[k].arr == arr && db.volumes[k].name == name
  }

  ghost predicate VolumesMade(w: World, x: Phase, pools: map<string, Id>, xs: seq<VolumeSpec>) {
    && x.w.db.pools == w.db.pools
    && (forall k :: k in x.w.db.volumes && k !in w.db.volumes ==>
          exists v :: v in xs && VolumeOf(w.db, pools, x.w.db.volumes[k], v))
    && (forall v :: v in xs && v.pool in pools && pools[v.pool] in w.db.pools ==>
          v.name in x.objs && VolumeNamed(x.w.db, w.db.pools[pools[v.pool]].arr, v.name))
    && (forall n :: n in x.objs ==> x.objs[n] in x.w.db.volumes && x.w.db.volumes[x.objs[n]].name == n)
  }

  lemma VolumeStepNew(x: Phase, arrays: map<string, Id>, pools: map<string, Id>, v: VolumeSpec, wire: Wire)
    requires Inv(x.w) && x.err.None? && VolumeStep(x, arrays, pools, v, wire).err.None?
    ensures var y := VolumeStep(x, arrays, pools, v, wire);
      && Sub(x.w.db.volumes, y.w.db.volumes) && y.w.db.pools == x.w.db.pools
      && (forall k :: k in y.w.db.volumes && k !in x.w.db.volumes ==>
            VolumeOf(x.w.db, pools, y.w.db.volumes[k], v))
  {
    SerialFresh(x.w);
    hide Inv, LvolEnsured, LvsName;
  }

  lemma VolumesMadeMore(w: World, x: Phase, y: Phase, pools: map<string, Id>, xs: seq<VolumeSpec>, v: VolumeSpec)
    requires VolumesMade(w, x, pools, xs) && Sub(x.w.db.volumes, y.w.db.volumes) && y.w.db.pools == w.db.pools
    requires forall k :: k in y.w.db.volumes && k !in x.w.db.volumes ==> VolumeOf(w.db, pools, y.w.db.volumes[k], v)
    requires if v.pool !in pools then y.objs == x.objs
             else v.name in y.objs && y.objs == x.objs[v.name := y.objs[v.name]]
                  && y.objs[v.name] in y.w.db.volumes && y.w.db.volumes[y.objs[v.name]].name == v.name
                  && (pools[v.pool] in w.db.pools ==>
                        y.w.db.volumes[y.objs[v.name]].arr == w.db.pools[pools[v.pool]].arr)
    ensures VolumesMade(w, y, pools, xs + [v])
  {
    hide VolumeOf;
    forall d | d in xs + [v] && d.pool in pools && pools[d.pool] in w.db.pools
      ensures d.name in y.objs && VolumeNamed(y.w.db, w.db.pools[pools[d.pool]].arr, d.name)
    {
      if d in xs {
        var k :| k in x.w.db.volumes && x.w.db.volumes[k].arr == w.db.pools[pools[d.pool]].arr
          && x.w.db.volumes[k].name == d.name;
        assert y.w.db.volumes[k] == x.w.db.volumes[k];
      }
    }
    forall k | k in y.w.db.volumes && k !in w.db.volumes
      ensures exists d :: d in xs + [v] && VolumeOf(w.db, pools, y.w.db.volumes[k], d)
    {
      if k in x.w.db.volumes {
        var d :| d in xs && VolumeOf(w.db, pools, x.w.db.volumes[k], d);
        assert d in xs + [v];
      } else {
        assert v in xs + [v];
      }
    }
  }

  lemma VolumeStepNone(x: Phase, arrays: map<string, Id>, pools: map<string, Id>, v: VolumeSpec, wire: Wire)
    requires v.pool !in pools
    ensures VolumeStep(x, arrays, pools, v, wire) == x
  {
  }

  lemma VolumeStepRows(w: World, x: Phase, arrays: map<string, Id>, pools: map<string, Id>, xs: seq<VolumeSpec>,
                       v: VolumeSpec, wire: Wire)
    requires Good(x.w, ANY_RUN) && x.err.None? && VolumeStep(x, arrays, pools, v, wire).err.None?
    requires VolumesMade(w, x, pools, xs) && PoolObjs(x.w.db, arrays, pools)
    ensures VolumesMade(w, VolumeStep(x, arrays, pools, v, wire), pools, xs + [v])
  {
    GoodFresh(x.w, ANY_RUN);
    assert x.w.db.pools == w.db.pools;
    VolumeStepNew(x, arrays, pools, v, wire);
    hide Good, Inv, VolumeStep, VolumesMade, PoolObjs, Sub;
    if v.pool in pools {
      VolumeStepMade(x, arrays, pools, v, wire);
    } else {
      VolumeStepNone(x, arrays, pools, v, wire);
    }
    VolumesMadeMore(w, x, VolumeStep(x, arrays, pools, v, wire), pools, xs, v);
  }

  lemma {:induction false} VolumeRows(w: World, arrays: map<string, Id>, pools: map<string, Id>, xs: seq<VolumeSpec>,
          wires: Item -> Wire)
    requires Good(w, ANY_RUN) && VolumePhase(w, arrays, pools, xs, wires).err.None? && PoolObjs(w.db, arrays, pools)
    ensures VolumesMade(w, VolumePhase(w, arrays, pools, xs, wires), pools, xs)
    decreases |xs|
  {
    if xs == [] {
      hide Good, Extends, PoolObjs;
    } else {
      var k := |xs| - 1;
      var x := VolumePhase(w, arrays, pools, xs[..k], wires);
      hide Good, Extends, VolumeStep, VolumesMade, PoolObjs;
      VolumeRows(w, arrays, pools, xs[..k], wires);
      VolumePhaseLater(w, ANY_RUN, arrays, pools, xs[..k], wires);
      PoolObjsLater(w.db, x.w.db, arrays, pools);
      VolumeStepRows(w, x, arrays, pools, xs[..k], xs[k], wires(VolumeItem(k)));
      assert xs == xs[..k] + [xs[k]];
    }
  }

  // ---- Mappings ---------------------------------------------------------------------------------------

  /** A mapping joins the named host and volume through the oldest endpoint of the declared protocol, and is
      exported through the oldest iSCSI endpoint from the base up, both of the volume's array. */
  ghost predicate MappingOf(db: Db, hosts: map<string, Id>, volumes: map<string, Id>, row: Mapping, m: MappingSpec,
                            base: int)
  {
    && row.under >= base
    && m.host in hosts && row.host == hosts[m.host] && m.volume in volumes && row.volume == volumes[m.volume]
    && row.volume in db.volumes
    && Oldest(db, db.volumes[row.volume].arr, m.protocol, row.persona)
    && Oldest(db, db.volumes[row.volume].arr, Iscsi, row.underlay)
  }

  ghost predicate MappingsMade(db: Db, x: Phase, hosts: map<string, Id>, volumes: map<string, Id>,
                               xs: seq<MappingSpec>, base: int)
  {
    && MapsOnly(db, x.w.db)
    && forall k :: k in x.w.db.mappings && k !in db.mappings ==>
         exists m :: m in xs && MappingOf(db, hosts, volumes, x.w.db.mappings[k], m, base)
  }

  lemma OldestSame(db: Db, db': Db, arr: Id, p: Protocol, e: Id)
    requires db'.endpoints == db.endpoints && Oldest(db', arr, p, e)
    ensures Oldest(db, arr, p, e)
  {
  }

  lemma RequestMakes(w: World, host: Id, volume: Id, protocol: Protocol, base: int, wire: Wire)
    requires w.serial !in w.db.mappings && CreateMapping(w, Request(host, volume, protocol, base), wire).r.Ok?
    ensures var w' := CreateMapping(w, Request(host, volume, protocol, base), wire).w;
      && w.serial in w'.db.mappings && w'.db.mappings == w.db.mappings[w.serial := w'.db.mappings[w.serial]]
      && var row := w'.db.mappings[w.serial];
      && row.host == host && row.volume == volume && volume in w.db.volumes && row.under >= base
      && Oldest(w.db, w.db.volumes[volume].arr, protocol, row.persona)
      && Oldest(w.db, w.db.volumes[volume].arr, Iscsi, row.underlay)
  {
    AutomaticChoice(w.db, w.db.volumes[volume].arr, w.db.hosts[host], Request(host, volume, protocol, base));
    hide LeastFree, UsedLuns, WireUnderlay, ResolveEndpoints;
  }

  lemma MappingStepRows(db: Db, x: Phase, hosts: map<string, Id>, volumes: map<string, Id>, xs: seq<MappingSpec>,
                        m: MappingSpec, base: int, wire: Wire)
    requires Inv(x.w) && x.err.None? && MappingStep(x, hosts, volumes, m, base, wire).err.None?
    requires MappingsMade(db, x, hosts, volumes, xs, base)
    ensures MappingsMade(db, MappingStep(x, hosts, volumes, m, base, wire), hosts, volumes, xs + [m], base)
  {
    var y := MappingStep(x, hosts, volumes, m, base, wire);
    SerialFresh(x.w);
    StepRow(x, hosts, volumes, m, base, wire);
    MapsOnlyTrans(db, x.w.db, y.w.db);
    if y.w != x.w {
      RequestMakes(x.w, hosts[m.host], volumes[m.volume], m.protocol, base, wire);
      var row := y.w.db.mappings[x.w.serial];
      OldestSame(db, x.w.db, x.w.db.volumes[row.volume].arr, m.protocol, row.persona);
      OldestSame(db, x.w.db, x.w.db.volumes[row.volume].arr, Iscsi, row.underlay);
    }
    hide Inv, CreateMapping, Oldest, UnderlayOf, MappingsBetween, SameTables, Table;
    forall k | k in y.w.db.mappings && k !in db.mappings
      ensures exists d :: d in xs + [m] && MappingOf(db, hosts, volumes, y.w.db.mappings[k], d, base)
    {
      if k in x.w.db.mappings {
        var d :| d in xs && MappingOf(db, hosts, volumes, x.w.db.mappings[k], d, base);
        assert d in xs + [m];
      } else {
        assert m in xs + [m];
      }
    }
  }

  lemma {:induction false} MappingRows(w: World, hosts: map<string, Id>, volumes: map<string, Id>,
          xs: seq<MappingSpec>, base: int, wires: Item -> Wire)
    requires Good(w, ANY_RUN) && MappingPhase(w, hosts, volumes, xs, base, wires).err.None?
    ensures MappingsMade(w.db, MappingPhase(w, hosts, volumes, xs, base, wires), hosts, volumes, xs, base)
    decreases |xs|
  {
    if xs == [] {
      hide Good, Extends;
    } else {
      var k := |xs| - 1;
      var x := MappingPhase(w, hosts, volumes, xs[..k], base, wires);
      hide Good, Inv, Extends, MappingStep, MappingsMade;
      MappingRows(w, hosts, volumes, xs[..k], base, wires);
      MappingPhaseLater(w, ANY_RUN, hosts, volumes, xs[..k], base, wires);
      GoodFresh(x.w, ANY_RUN);
      MappingStepRows(w.db, x, hosts, volumes, xs[..k], xs[k], base, wires(MappingItem(k)));
      assert xs == xs[..k] + [xs[k]];
    }
  }
}
