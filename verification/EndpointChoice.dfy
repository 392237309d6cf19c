/** When an endpoint a caller names is the one a mapping gets. */
module EndpointChoice {
  import opened Model
  import opened Inventory
  import opened Mappings

  /** Two explicit ids are honoured if and only if both endpoints are of the volume's array. */
  lemma BothIdsHonouredIff(db: Db, arr: Id, host: Host, a: MapArgs)
    requires a.personaId.Some? && a.underlayId.Some?
    ensures ResolveEndpoints(db, arr, host, a) == Ok((a.personaId.value, a.underlayId.value)) <==>
      OnArray(db, arr, a.personaId.value) && OnArray(db, arr, a.underlayId.value)
    ensures ResolveEndpoints(db, arr, host, a).Ok? ==>
        ResolveEndpoints(db, arr, host, a).value == (a.personaId.value, a.underlayId.value)
  {
  }

  /** A persona id on its own is overridden exactly when the host has WWPNs, no persona protocol is
      chosen, and the array has an FC endpoint whose oldest one is another. */
  lemma LonePersonaHonouredIff(db: Db, arr: Id, host: Host, a: MapArgs)
    requires a.personaId.Some? && a.underlayId.None? && ResolveEndpoints(db, arr, host, a).Ok?
    ensures ResolveEndpoints(db, arr, host, a).value.0 == a.personaId.value <==>
      host.wwpns == [] || a.personaProtocol.Some? || First(EndpointsOf(db, arr, Fc)) in {None, a.personaId}
  {
  }

  /** An underlay id is honoured whenever the choice succeeds. */
  lemma UnderlayHonoured(db: Db, arr: Id, host: Host, a: MapArgs)
    requires a.underlayId.Some? && ResolveEndpoints(db, arr, host, a).Ok?
    ensures ResolveEndpoints(db, arr, host, a).value.1 == a.underlayId.value
  {
  }

  // ---- The whole choice --------------------------------------------------------------------------

  /** The array's oldest endpoint of a protocol. */
  ghost predicate Oldest(db: Db, arr: Id, p: Protocol, e: Id) {
    && e in db.endpoints && db.endpoints[e].arr == arr && db.endpoints[e].protocol == p
    && forall f :: f in db.endpoints && db.endpoints[f].arr == arr && db.endpoints[f].protocol == p ==> e <= f
  }

  /** What an optional id and a protocol stand for: the endpoint of the id if it is of the array,
      whatever its protocol, or without an id the oldest endpoint of the protocol. */
  ghost predicate Designated(db: Db, arr: Id, p: Protocol, id: Option<Id>, e: Id) {
    if id.Some? then e == id.value && e in db.endpoints && db.endpoints[e].arr == arr else Oldest(db, arr, p, e)
  }

  /** The host speaks FC, the caller chose neither a persona protocol nor both endpoints, and the array
      has an FC endpoint. */
  ghost predicate PrefersFc(db: Db, arr: Id, host: Host, a: MapArgs) {
    && host.wwpns != [] && a.personaProtocol.None? && (a.personaId.None? || a.underlayId.None?)
    && exists f :: f in db.endpoints && db.endpoints[f].arr == arr && db.endpoints[f].protocol == Fc
  }

  function Default(p: Option<Protocol>): Protocol { if p.Some? then p.value else Iscsi }

  lemma FirstIsOldest(db: Db, arr: Id, p: Protocol, e: Id)
    ensures First(EndpointsOf(db, arr, p)) == Some(e) <==> Oldest(db, arr, p, e)
    ensures First(EndpointsOf(db, arr, p)).None? <==>
      forall f :: f in db.endpoints && db.endpoints[f].arr == arr ==> db.endpoints[f].protocol != p
  {
    var hits := EndpointsOf(db, arr, p);
    assert forall f :: f in hits <==> f in db.endpoints && db.endpoints[f].arr == arr && db.endpoints[f].protocol == p;
    if hits != {} {
      var f :| f in hits;
    }
  }

  lemma ResolvesTo(db: Db, arr: Id, p: Protocol, id: Option<Id>, e: Id)
    ensures ResolveEndpoint(db, arr, p, id) == Ok(e) <==> Designated(db, arr, p, id, e)
  {
    FirstIsOldest(db, arr, p, e);
    hide EndpointsOf;
  }

  /** A mapping gets persona `p` and underlay `u` if and only if `u` is what the caller's underlay choice
      stands for, and `p` is the oldest FC endpoint where FC is preferred, and what the caller's persona
      choice stands for otherwise; both protocols default to iSCSI. */
  lemma ChoiceIff(db: Db, arr: Id, host: Host, a: MapArgs, p: Id, u: Id)
    ensures ResolveEndpoints(db, arr, host, a) == Ok((p, u)) <==>
      && Designated(db, arr, Default(a.underlayProtocol), a.underlayId, u)
      && if PrefersFc(db, arr, host, a) then Oldest(db, arr, Fc, p)
         else Designated(db, arr, Default(a.personaProtocol), a.personaId, p)
  {
    ResolvesTo(db, arr, Default(a.underlayProtocol), a.underlayId, u);
    ResolvesTo(db, arr, Default(a.personaProtocol), a.personaId, p);
    ResolvesTo(db, arr, Or(a.personaProtocol, Fc), a.personaId, p);
    ResolvesTo(db, arr, Fc, None, p);
    FirstIsOldest(db, arr, Fc, p);
    hide Oldest, EndpointsOf, First;
  }

  /** With neither id given: FC for an FC host on an array with FC, else the chosen protocols, each through
      its oldest endpoint. */
  lemma AutomaticChoice(db: Db, arr: Id, host: Host, a: MapArgs)
    requires a.personaId.None? && a.underlayId.None? && ResolveEndpoints(db, arr, host, a).Ok?
    ensures var (p, u) := ResolveEndpoints(db, arr, host, a).value;
      && Oldest(db, arr, if PrefersFc(db, arr, host, a) then Fc else Default(a.personaProtocol), p)
      && Oldest(db, arr, Default(a.underlayProtocol), u)
  {
    var (p, u) := ResolveEndpoints(db, arr, host, a).value;
    hide ResolveEndpoints, Oldest, PrefersFc;
    ChoiceIff(db, arr, host, a, p, u);
  }

  /** Why a designation fails: an endpoint that is not there, or one of another array. */
  function FailureOf(db: Db, arr: Id, p: Protocol, id: Option<Id>): Option<Error> {
    if id.Some? then
      if id.value !in db.endpoints then Some(NotFound)
      else if db.endpoints[id.value].arr != arr then Some(Invalid) else None
    else if exists f :: f in db.endpoints && db.endpoints[f].arr == arr && db.endpoints[f].protocol == p then None
    else Some(NotFound)
  }

  lemma FailsWith(db: Db, arr: Id, p: Protocol, id: Option<Id>)
    ensures var r := ResolveEndpoint(db, arr, p, id);
      (if r.Ok? then None else Some(r.error)) == FailureOf(db, arr, p, id)
  {
    FirstIsOldest(db, arr, p, 0);
  }

  /** A choice fails exactly when its underlay does, or its persona where FC does not replace it; the
      persona's error comes first, but for an underlay of another array on the FC path. */
  lemma ChoiceError(db: Db, arr: Id, host: Host, a: MapArgs)
    ensures var persona := FailureOf(db, arr, Default(a.personaProtocol), a.personaId);
      var underlay := FailureOf(db, arr, Default(a.underlayProtocol), a.underlayId);
      var fc := PrefersFc(db, arr, host, a);
      && (ResolveEndpoints(db, arr, host, a).Ok? <==> underlay.None? && (fc || persona.None?))
      && (ResolveEndpoints(db, arr, host, a).Err? ==>
            ResolveEndpoints(db, arr, host, a).error
            == if persona.None? || (fc && underlay == Some(Invalid)) then underlay.value else persona.value)
  {
    FailsWith(db, arr, Default(a.underlayProtocol), a.underlayId);
    FailsWith(db, arr, Default(a.personaProtocol), a.personaId);
    FailsWith(db, arr, Or(a.personaProtocol, Fc), a.personaId);
    FailsWith(db, arr, Fc, None);
    hide EndpointsOf, First, ResolveEndpoint;
  }
}
