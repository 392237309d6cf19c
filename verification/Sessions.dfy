/** The session store of the Hitachi personality: two dictionaries, with expired sessions removed late. */
module Sessions {
  import opened Model

  datatype Info = Info(id: nat, token: string, createdAt: real, ttl: real)

  predicate Expired(info: Info, now: real) { now - info.createdAt > info.ttl }

  datatype Store = Store(sessions: map<nat, Info>, tokens: map<string, nat>, nextId: nat, ttl: real)

  function NewStore(ttl: real): Store { Store(map[], map[], 1, ttl) }

  function TokensOf(st: Store, ids: set<nat>): set<string> {
    set s | s in ids && s in st.sessions :: st.sessions[s].token
  }

  function WithoutIds(st: Store, ids: set<nat>): Store {
    st.(sessions := st.sessions - ids, tokens := st.tokens - TokensOf(st, ids))
  }

  function ExpiredIds(st: Store, now: real): set<nat> { set s | s in st.sessions && Expired(st.sessions[s], now) }

  function Entered(e: Store, now: real, token: string): Store {
    e.(sessions := e.sessions[e.nextId := Info(e.nextId, token, now, e.ttl)], tokens := e.tokens[token := e.nextId],
       nextId := e.nextId + 1)
  }

  /** The clock is read twice: for the eviction and for the new session. */
  function Created(st: Store, evictAt: real, now: real, token: string): Store {
    Entered(WithoutIds(st, ExpiredIds(st, evictAt)), now, token)
  }

  function Validated(st: Store, token: string, now: real): (Store, Option<Info>) {
    if token !in st.tokens then (st, None)
    else if st.tokens[token] !in st.sessions then (st.(tokens := st.tokens - {token}), None)
    else if Expired(st.sessions[st.tokens[token]], now) then (WithoutIds(st, {st.tokens[token]}), None)
    else (st, Some(st.sessions[st.tokens[token]]))
  }

  /** The dictionaries are inverse to each other, and ids have been issued. */
  ghost predicate Consistent(st: Store) {
    && (forall t :: t in st.tokens ==> st.tokens[t] in st.sessions && st.sessions[st.tokens[t]].token == t)
    && (forall s :: s in st.sessions ==> st.sessions[s].token in st.tokens && st.tokens[st.sessions[s].token] == s)
    && (forall s :: s in st.sessions ==> st.sessions[s].id == s && s < st.nextId && st.sessions[s].ttl == st.ttl)
  }

  lemma WithoutConsistent(st: Store, ids: set<nat>)
    requires Consistent(st)
    ensures Consistent(WithoutIds(st, ids))
    ensures forall t :: t in WithoutIds(st, ids).tokens <==> t in st.tokens && st.tokens[t] !in ids
  {
  }

  lemma CreatedConsistent(st: Store, evictAt: real, now: real, token: string)
    requires Consistent(st) && token !in st.tokens
    ensures Consistent(Created(st, evictAt, now, token))
  {
  }

  lemma ValidatedConsistent(st: Store, token: string, now: real)
    requires Consistent(st)
    ensures Consistent(Validated(st, token, now).0)
  {
  }

  // ---- Runs -----------------------------------------------------------------------------------

  datatype Op = Login(evictAt: real, now: real, token: string) | Check(token: string, now: real) | Logout(id: nat)

  function Stepped(st: Store, op: Op): Store {
    match op
    case Login(evictAt, now, token) => Created(st, evictAt, now, token)
    case Check(token, now) => Validated(st, token, now).0
    case Logout(id) => WithoutIds(st, {id})
  }

  function Ran(ttl: real, ops: seq<Op>): Store {
    if ops == [] then NewStore(ttl) else Stepped(Ran(ttl, ops[..|ops| - 1]), ops[|ops| - 1])
  }

  /** The clock after some operations, from `t0`. */
  function Clock(t0: real, ops: seq<Op>): real {
    if ops == [] then t0
    else if ops[|ops| - 1].Logout? then Clock(t0, ops[..|ops| - 1])
    else ops[|ops| - 1].now
  }

  ghost predicate InTime(before: real, op: Op) {
    match op
    case Login(evictAt, now, _) => before <= evictAt <= now
    case Check(_, now) => before <= now
    case Logout(_) => true
  }

  ghost predicate NewToken(ops: seq<Op>, token: string) {
    forall j :: 0 <= j < |ops| && ops[j].Login? ==> ops[j].token != token
  }

  /** The clock never goes back and no token is generated twice. */
  ghost predicate Plausible(t0: real, ops: seq<Op>) {
    forall k :: 0 <= k < |ops| ==>
        InTime(Clock(t0, ops[..k]), ops[k]) && (ops[k].Login? ==> NewToken(ops[..k], ops[k].token))
  }

  // ---- The store without eviction ---------------------------------------------------------------

  /** All sessions that were created and not logged out, expired or not. */
  datatype Log = Log(live: map<string, Info>, nextId: nat)

  function Logged(ttl: real, ops: seq<Op>): Log {
    if ops == [] then Log(map[], 1)
    else
      var l := Logged(ttl, ops[..|ops| - 1]);
      match ops[|ops| - 1]
      case Login(_, now, token) => Log(l.live[token := Info(l.nextId, token, now, ttl)], l.nextId + 1)
      case Check(_, _) => l
      case Logout(id) => l.(live := map t | t in l.live && l.live[t].id != id :: l.live[t])
  }

  function Answer(l: Log, token: string, now: real): Option<Info> {
    if token in l.live && !Expired(l.live[token], now) then Some(l.live[token]) else None
  }

  /** The store holds the logged sessions, less some that have expired. */
  ghost predicate Refines(st: Store, l: Log, ttl: real, now: real) {
    && Consistent(st) && st.nextId == l.nextId && st.ttl == ttl
    && (forall t :: t in st.tokens ==> t in l.live && l.live[t] == st.sessions[st.tokens[t]])
    && (forall t :: t in l.live && t !in st.tokens ==> Expired(l.live[t], now))
    && (forall t :: t in l.live ==> l.live[t].id < l.nextId)
    && (forall t, u :: t in l.live && u in l.live && l.live[t].id == l.live[u].id ==> t == u)
  }

  lemma EvictionRefines(st: Store, l: Log, ttl: real, before: real, now: real, ids: set<nat>)
    requires Refines(st, l, ttl, before) && before <= now && ids <= ExpiredIds(st, now)
    ensures Refines(WithoutIds(st, ids), l, ttl, now)
  {
    WithoutConsistent(st, ids);
  }

  lemma LoginRefines(st: Store, l: Log, ttl: real, before: real, evictAt: real, now: real, token: string)
    requires Refines(st, l, ttl, before) && before <= evictAt <= now && token !in l.live
    ensures Refines(Created(st, evictAt, now, token),
                    Log(l.live[token := Info(l.nextId, token, now, ttl)], l.nextId + 1), ttl, now)
  {
    var ids := ExpiredIds(st, evictAt);
    EvictionRefines(st, l, ttl, before, evictAt, ids);
    AddRefines(WithoutIds(st, ids), l, ttl, evictAt, now, token);
  }

  lemma AddRefines(e: Store, l: Log, ttl: real, before: real, now: real, token: string)
    requires Refines(e, l, ttl, before) && before <= now && token !in l.live
    ensures Refines(Entered(e, now, token), Log(l.live[token := Info(l.nextId, token, now, ttl)], l.nextId + 1), ttl,
                    now)
  {
    EnteredConsistent(e, now, token);
    EnteredTokens(e, now, token);
    hide Entered, ExpiredIds, TokensOf;
  }

  lemma EnteredConsistent(e: Store, now: real, token: string)
    requires Consistent(e) && token !in e.tokens
    ensures Consistent(Entered(e, now, token))
  {
  }

  /** The new token leads to the new session, every other one to the session it led to. */
  lemma EnteredTokens(e: Store, now: real, token: string)
    requires Consistent(e) && token !in e.tokens
    ensures var st := Entered(e, now, token);
      && st.nextId == e.nextId + 1 && st.ttl == e.ttl
      && (forall t :: t in st.tokens <==> t == token || t in e.tokens)
      && (forall t :: t in st.tokens ==> st.tokens[t] in st.sessions
                                         && st.sessions[st.tokens[t]]
                                            == if t == token then Info(e.nextId, token, now, e.ttl)
                                               else e.sessions[e.tokens[t]])
  {
  }

  lemma CheckAnswers(st: Store, l: Log, ttl: real, before: real, token: string, now: real)
    requires Refines(st, l, ttl, before) && before <= now
    ensures Validated(st, token, now).1 == Answer(l, token, now)
  {
    hide WithoutIds;
  }

  lemma CheckRefines(st: Store, l: Log, ttl: real, before: real, token: string, now: real)
    requires Refines(st, l, ttl, before) && before <= now
    ensures Refines(Validated(st, token, now).0, l, ttl, now)
    ensures Validated(st, token, now).1 == Answer(l, token, now)
  {
    CheckAnswers(st, l, ttl, before, token, now);
    assert token in st.tokens ==> st.tokens[token] in st.sessions;
    hide Refines, Answer;
    if token in st.tokens && Expired(st.sessions[st.tokens[token]], now) {
      EvictionRefines(st, l, ttl, before, now, {st.tokens[token]});
    } else {
      EvictionRefines(st, l, ttl, before, now, {});
      assert WithoutIds(st, {}) == st;
    }
  }

  lemma LogoutRefines(st: Store, l: Log, ttl: real, now: real, id: nat)
    requires Refines(st, l, ttl, now)
    ensures Refines(WithoutIds(st, {id}), l.(live := map t | t in l.live && l.live[t].id != id :: l.live[t]), ttl, now)
  {
    WithoutConsistent(st, {id});
  }

  lemma {:induction false} LiveTokens(ttl: real, ops: seq<Op>, token: string)
    requires NewToken(ops, token)
    ensures token !in Logged(ttl, ops).live
    decreases |ops|
  {
    if ops != [] {
      LiveTokens(ttl, ops[..|ops| - 1], token);
    }
  }

  lemma PlausiblePrefix(t0: real, ops: seq<Op>)
    requires Plausible(t0, ops) && ops != []
    ensures Plausible(t0, ops[..|ops| - 1]) && InTime(Clock(t0, ops[..|ops| - 1]), ops[|ops| - 1])
    ensures ops[|ops| - 1].Login? ==> NewToken(ops[..|ops| - 1], ops[|ops| - 1].token)
  {
    hide InTime, Clock, NewToken;
    var before := ops[..|ops| - 1];
    forall k | 0 <= k < |before|
      ensures InTime(Clock(t0, before[..k]), before[k]) && (before[k].Login? ==> NewToken(before[..k], before[k].token))
    {
      assert before[..k] == ops[..k];
    }
  }

  lemma {:induction false} RunRefines(ttl: real, t0: real, ops: seq<Op>)
    requires Plausible(t0, ops)
    ensures Refines(Ran(ttl, ops), Logged(ttl, ops), ttl, Clock(t0, ops))
    decreases |ops|
  {
    if ops != [] {
      var k := |ops| - 1;
      var st, l, before := Ran(ttl, ops[..k]), Logged(ttl, ops[..k]), Clock(t0, ops[..k]);
      PlausiblePrefix(t0, ops);
      hide Refines, Plausible, NewToken, Created, WithoutIds, Validated;
      RunRefines(ttl, t0, ops[..k]);
      match ops[k]
      case Login(evictAt, now, token) =>
        LiveTokens(ttl, ops[..k], token);
        LoginRefines(st, l, ttl, before, evictAt, now, token);
      case Check(token, now) => CheckRefines(st, l, ttl, before, token, now);
      case Logout(id) => LogoutRefines(st, l, ttl, before, id);
    }
  }

  /** Late removal cannot be observed: in every plausible run the dictionaries stay inverse to each
      other, and a token validates exactly when the store that never evicts says it is alive. */
  lemma LateEvictionUnobservable(ttl: real, t0: real, ops: seq<Op>, token: string, now: real)
    requires Plausible(t0, ops) && Clock(t0, ops) <= now
    ensures Consistent(Ran(ttl, ops))
    ensures Validated(Ran(ttl, ops), token, now).1 == Answer(Logged(ttl, ops), token, now)
  {
    RunRefines(ttl, t0, ops);
    assert Consistent(Ran(ttl, ops));
    hide Ran, Logged, Plausible, Validated, Answer, Refines;
    CheckRefines(Ran(ttl, ops), Logged(ttl, ops), ttl, Clock(t0, ops), token, now);
  }

  // ---- How long a session lives ---------------------------------------------------------------------

  /** Session `id` was deleted after operation `j`. */
  ghost predicate LoggedOut(ops: seq<Op>, j: nat, id: nat) {
    exists k :: j < k < |ops| && ops[k] == Logout(id)
  }

  /** The session that operation `j` created. */
  function SessionOf(ttl: real, ops: seq<Op>, j: nat): Info
    requires j < |ops| && ops[j].Login?
  {
    Info(Ran(ttl, ops[..j]).nextId, ops[j].token, ops[j].now, ttl)
  }

  lemma LoggedOutMore(ops: seq<Op>, j: nat, id: nat)
    requires j < |ops| - 1
    ensures LoggedOut(ops, j, id) <==> LoggedOut(ops[..|ops| - 1], j, id) || ops[|ops| - 1] == Logout(id)
  {
    var k := |ops| - 1;
    if i :| j < i < |ops| && ops[i] == Logout(id) {
      assert i < k ==> ops[..k][i] == ops[i];
    }
    if i :| j < i < k && ops[..k][i] == Logout(id) {
      assert ops[i] == Logout(id);
    }
  }

  lemma JustLogged(ttl: real, t0: real, ops: seq<Op>)
    requires Plausible(t0, ops) && ops != [] && ops[|ops| - 1].Login?
    ensures var l, info := Logged(ttl, ops).live, SessionOf(ttl, ops, |ops| - 1);
      info.token in l && l[info.token] == info
  {
    var k := |ops| - 1;
    PlausiblePrefix(t0, ops);
    RunRefines(ttl, t0, ops[..k]);
    assert Ran(ttl, ops[..k]).nextId == Logged(ttl, ops[..k]).nextId;
    hide Refines, Plausible, Ran;
  }

  lemma {:induction false} LoggedSession(ttl: real, t0: real, ops: seq<Op>, j: nat)
    requires Plausible(t0, ops) && j < |ops| && ops[j].Login?
    ensures var l, info := Logged(ttl, ops).live, SessionOf(ttl, ops, j);
      && (info.token in l <==> !LoggedOut(ops, j, info.id))
      && (info.token in l ==> l[info.token] == info)
    decreases |ops|
  {
    var k := |ops| - 1;
    var info := SessionOf(ttl, ops, j);
    PlausiblePrefix(t0, ops);
    hide Plausible, Ran, InTime, Clock;
    if j == k {
      JustLogged(ttl, t0, ops);
    } else {
      assert ops[..k][..j] == ops[..j] && ops[..k][j] == ops[j];
      LoggedSession(ttl, t0, ops[..k], j);
      assert ops[k].Login? ==> ops[k].token != info.token;
      LoggedOutMore(ops, j, info.id);
      hide LoggedOut, NewToken;
    }
  }

  /** In every plausible run the token of a session validates, with the data of its creation, exactly until
      its age exceeds the time to live or the session is deleted. */
  lemma SessionLifetime(ttl: real, t0: real, ops: seq<Op>, j: nat, now: real)
    requires Plausible(t0, ops) && Clock(t0, ops) <= now && j < |ops| && ops[j].Login?
    ensures var info := SessionOf(ttl, ops, j);
      Validated(Ran(ttl, ops), ops[j].token, now).1
      == if now - ops[j].now > ttl || LoggedOut(ops, j, info.id) then None else Some(info)
  {
    LateEvictionUnobservable(ttl, t0, ops, ops[j].token, now);
    hide Ran, Logged, Plausible, Validated, Clock;
    LoggedSession(ttl, t0, ops, j);
  }

  /** A token that no login issued never validates. */
  lemma UnissuedFails(ttl: real, t0: real, ops: seq<Op>, token: string, now: real)
    requires Plausible(t0, ops) && Clock(t0, ops) <= now && NewToken(ops, token)
    ensures Validated(Ran(ttl, ops), token, now).1 == None
  {
    LiveTokens(ttl, ops, token);
    LateEvictionUnobservable(ttl, t0, ops, token, now);
    hide Ran, Logged, Plausible, Validated, Clock, NewToken;
  }

  // ---- Tokens fail for good, ids increase -------------------------------------------------------

  ghost predicate Extends(ops: seq<Op>, ops': seq<Op>) { |ops| <= |ops'| && ops'[..|ops|] == ops }

  /** No generated token equals `token` after the first `n` operations. */
  ghost predicate NotIssuedAfter(ops: seq<Op>, n: nat, token: string) {
    forall j :: n <= j < |ops| && ops[j].Login? ==> ops[j].token != token
  }

  lemma {:induction false} LogShrinks(ttl: real, ops: seq<Op>, ops': seq<Op>, token: string)
    requires Extends(ops, ops') && NotIssuedAfter(ops', |ops|, token)
    ensures token in Logged(ttl, ops').live ==>
      token in Logged(ttl, ops).live && Logged(ttl, ops').live[token] == Logged(ttl, ops).live[token]
    decreases |ops'|
  {
    if |ops| < |ops'| {
      var k := |ops'| - 1;
      assert ops'[..k][..|ops|] == ops'[..|ops|];
      LogShrinks(ttl, ops, ops'[..k], token);
    } else {
      assert ops' == ops;
    }
  }

  /** A token that fails once fails at every later time, unless it is generated in between. */
  lemma FailsForever(ttl: real, t0: real, ops: seq<Op>, ops': seq<Op>, token: string, now: real, now': real)
    requires Plausible(t0, ops) && Plausible(t0, ops') && Extends(ops, ops') && NotIssuedAfter(ops', |ops|, token)
    requires Clock(t0, ops) <= now <= now' && Clock(t0, ops') <= now'
    requires Validated(Ran(ttl, ops), token, now).1 == None
    ensures Validated(Ran(ttl, ops'), token, now').1 == None
  {
    hide Ran, Logged, Plausible, Validated, Clock;
    LateEvictionUnobservable(ttl, t0, ops, token, now);
    LateEvictionUnobservable(ttl, t0, ops', token, now');
    LogShrinks(ttl, ops, ops', token);
  }

  function Logins(ops: seq<Op>): nat {
    if ops == [] then 0 else Logins(ops[..|ops| - 1]) + if ops[|ops| - 1].Login? then 1 else 0
  }

  /** Sessions are numbered from 1 in the order of their logins. */
  lemma {:induction false} IdsCount(ttl: real, ops: seq<Op>)
    ensures Ran(ttl, ops).nextId == Logins(ops) + 1
    decreases |ops|
  {
    if ops != [] {
      IdsCount(ttl, ops[..|ops| - 1]);
    }
    hide ExpiredIds, TokensOf;
  }

  lemma {:induction false} IdsIncrease(ttl: real, ops: seq<Op>, j: nat, k: nat)
    requires j < k <= |ops| && ops[j].Login?
    ensures Ran(ttl, ops[..j]).nextId < Ran(ttl, ops[..k]).nextId
    decreases k
  {
    assert ops[..k][..k - 1] == ops[..k - 1];
    if j < k - 1 {
      IdsIncrease(ttl, ops, j, k - 1);
    }
    hide ExpiredIds, TokensOf;
  }
}
