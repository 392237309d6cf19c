/** The session store as a class that updates its dictionaries in place. */
module HitachiSessions {
  import opened Model
  import opened Sessions

  class SessionStore {
    var sessions: map<nat, Info>
    var tokens: map<string, nat>
    var nextId: nat
    const ttl: real

    ghost function State(): Store
      reads this
    {
      Store(sessions, tokens, nextId, ttl)
    }

    constructor (ttl: real)
      ensures State() == NewStore(ttl) && Consistent(State())
    {
      sessions, tokens, nextId := map[], map[], 1;
      this.ttl := ttl;
    }

    method Create(evictAt: real, now: real, token: string) returns (info: Info)
      modifies this
      ensures State() == Created(old(State()), evictAt, now, token)
      ensures info == Info(old(nextId), token, now, ttl)
      ensures old(Consistent(State()) && token !in tokens) ==> Consistent(State())
    {
      ghost var before := State();
      EvictExpired(evictAt);
      var sid := nextId;
      nextId := nextId + 1;
      info := Info(sid, token, now, ttl);
      sessions := sessions[sid := info];
      tokens := tokens[token := sid];
      if Consistent(before) && token !in before.tokens {
        CreatedConsistent(before, evictAt, now, token);
      }
    }

    method Validate(token: string, now: real) returns (info: Option<Info>)
      modifies this
      ensures (State(), info) == Validated(old(State()), token, now)
      ensures old(Consistent(State())) ==> Consistent(State())
    {
      if Consistent(State()) {
        ValidatedConsistent(State(), token, now);
      }
      if token !in tokens { return None; }
      var sid := tokens[token];
      if sid !in sessions {
        tokens := tokens - {token};
        return None;
      }
      if Expired(sessions[sid], now) {
        var removed := Remove(sid);
        return None;
      }
      return Some(sessions[sid]);
    }

    method Delete(id: nat) returns (existed: bool)
      modifies this
      ensures State() == WithoutIds(old(State()), {id}) && existed == (id in old(sessions))
      ensures old(Consistent(State())) ==> Consistent(State())
    {
      if Consistent(State()) {
        WithoutConsistent(State(), {id});
      }
      existed := Remove(id);
    }

    method Remove(id: nat) returns (existed: bool)
      modifies this
      ensures State() == WithoutIds(old(State()), {id}) && existed == (id in old(sessions))
    {
      existed := id in sessions;
      if existed {
        var info := sessions[id];
        sessions := sessions - {id};
        tokens := tokens - {info.token};
        assert TokensOf(old(State()), {id}) == {info.token};
      } else {
        assert TokensOf(State(), {id}) == {};
      }
    }

    /** First the list of expired ids, then one removal after the other. */
    method EvictExpired(now: real)
      modifies this
      ensures State() == WithoutIds(old(State()), ExpiredIds(old(State()), now))
    {
      ghost var before := State();
      var expired := set s | s in sessions && Expired(sessions[s], now);
      ghost var gone: set<nat> := {};
      while expired != {}
        invariant expired <= before.sessions.Keys && expired + gone == ExpiredIds(before, now) && expired !! gone
        invariant State() == WithoutIds(before, gone)
        decreases expired
      {
        var sid :| sid in expired;
        var removed := Remove(sid);
        RemovedOneMore(before, gone, sid);
        expired := expired - {sid};
        gone := gone + {sid};
      }
      assert gone == ExpiredIds(before, now);
    }
  }

  lemma RemovedOneMore(st: Store, ids: set<nat>, id: nat)
    requires id !in ids
    ensures WithoutIds(WithoutIds(st, ids), {id}) == WithoutIds(st, ids + {id})
  {
  }
}
