/** The in-memory token store of the unit tests, and how far it agrees with the
    Redis store: it never expires anything, names no user in `access_jtis`, keeps
    empty user sets, consumes the old token before it looks for the session, and
    deletes a user's set last.

    Answers are compared by what they say. The two stores write a user id
    differently: the fake's get_session returns the UUID itself, where Redis returns
    its text. */
module FakeStore {
  import opened Wrappers
  import opened SessionStore
  import opened SessionTable

  datatype Session = Session(user: UserId, jti: Jti, refresh: RefreshToken)

  datatype Fake = Fake(
    sessions: map<SessionId, Session>,
    access: map<Jti, SessionId>,
    refresh: map<RefreshToken, Owner>,
    members: map<UserId, set<SessionId>>)

  const EmptyFake := Fake(map[], map[], map[], map[])

  function MembersIn(f: Fake, user: UserId): set<SessionId> {
    if user in f.members then f.members[user] else {}
  }

  // ------------------------------------------------------------------------
  // The operations
  // ------------------------------------------------------------------------

  function FakeCreate(f: Fake, session: SessionId, user: UserId, jti: Jti, token: RefreshToken): Fake {
    Fake(f.sessions[session := Session(user, jti, token)],
         f.access[jti := session],
         f.refresh[token := Owner(user, session)],
         f.members[user := MembersIn(f, user) + {session}])
  }

  function FakeGetDel(f: Fake, token: RefreshToken): Fake {
    f.(refresh := f.refresh - {token})
  }

  /** The old token goes even when the session is missing. */
  function FakeRotate(f: Fake, session: SessionId, spent: RefreshToken, jti: Jti, token: RefreshToken): (Fake, bool) {
    if session !in f.sessions then (FakeGetDel(f, spent), false)
    else
      var d := f.sessions[session];
      (f.(sessions := f.sessions[session := d.(jti := jti, refresh := token)],
          access := (f.access - {d.jti})[jti := session],
          refresh := (f.refresh - {spent})[token := Owner(d.user, session)]), true)
  }

  function FakeRefresh(f: Fake, spent: RefreshToken, jti: Jti, token: RefreshToken): (Fake, Result<Owner, TokenError>) {
    if spent !in f.refresh then (f, Err(InvalidToken))
    else
      var g := f.refresh[spent];
      var (f', ok) := FakeRotate(FakeGetDel(f, spent), g.session, spent, jti, token);
      (f', if ok then Ok(g) else Err(InvalidToken))
  }

  function FakeRevoke(f: Fake, session: SessionId): Fake {
    if session !in f.sessions then f
    else
      var d := f.sessions[session];
      Fake(f.sessions - {session}, f.access - {d.jti}, f.refresh - {d.refresh},
           if d.user in f.members then f.members[d.user := f.members[d.user] - {session}] else f.members)
  }

  /** All of `ids` revoked, in whatever order. */
  function FakeWithout(f: Fake, ids: set<SessionId>): Fake {
    Fake(f.sessions - ids,
         f.access - (set s | s in ids && s in f.sessions :: f.sessions[s].jti),
         f.refresh - (set s | s in ids && s in f.sessions :: f.sessions[s].refresh),
         map u | u in f.members ::
             set s | s in f.members[u] && !(s in ids && s in f.sessions && f.sessions[s].user == u))
  }

  function FakePurge(f: Fake, user: UserId): Fake {
    var f' := FakeWithout(f, MembersIn(f, user));
    f'.(members := f'.members - {user})
  }

  lemma FakeWithoutNone(f: Fake)
    ensures FakeWithout(f, {}) == f
  {
    var f' := FakeWithout(f, {});
    forall u | u in f.members ensures f'.members[u] == f.members[u] {
    }
    assert f'.members == f.members;
  }

  lemma FakeRevokeIsWithoutMembers(f: Fake, ids: set<SessionId>, s: SessionId, u: UserId)
    requires s !in ids && u in f.members
    ensures FakeRevoke(FakeWithout(f, ids), s).members[u] == FakeWithout(f, ids + {s}).members[u]
  {
  }

  /** Revoking one session more: what the loop of revoke_all_user_sessions keeps. */
  lemma FakeRevokeIsWithout(f: Fake, ids: set<SessionId>, s: SessionId)
    requires s !in ids
    ensures FakeRevoke(FakeWithout(f, ids), s) == FakeWithout(f, ids + {s})
  {
    var a, b := FakeRevoke(FakeWithout(f, ids), s), FakeWithout(f, ids + {s});
    assert a.members == b.members by {
      forall u | u in f.members ensures a.members[u] == b.members[u] { FakeRevokeIsWithoutMembers(f, ids, s, u); }
      assert a.members.Keys == f.members.Keys == b.members.Keys;
    }
    FakeRevokeIsWithoutKeys(f, ids, s);
  }

  lemma FakeRevokeIsWithoutKeys(f: Fake, ids: set<SessionId>, s: SessionId)
    requires s !in ids
    ensures
      var a, b := FakeRevoke(FakeWithout(f, ids), s), FakeWithout(f, ids + {s});
      a.sessions == b.sessions && a.access == b.access && a.refresh == b.refresh
  {
    assert f.sessions - ids - {s} == f.sessions - (ids + {s});
  }

  class FakeTokenStore {
    var sessions: map<SessionId, Session>
    var accessJtis: map<Jti, SessionId>
    var refreshTokens: map<RefreshToken, Owner>
    var userSessions: map<UserId, set<SessionId>>

    function Contents(): Fake
      reads this
    {
      Fake(sessions, accessJtis, refreshTokens, userSessions)
    }

    constructor ()
      ensures Contents() == EmptyFake
    {
      sessions, accessJtis, refreshTokens, userSessions := map[], map[], map[], map[];
    }

    method CreateSession(session: SessionId, user: UserId, jti: Jti, token: RefreshToken)
      modifies this
      ensures Contents() == FakeCreate(old(Contents()), session, user, jti, token)
    {
      sessions := sessions[session := Session(user, jti, token)];
      accessJtis := accessJtis[jti := session];
      refreshTokens := refreshTokens[token := Owner(user, session)];
      if user !in userSessions {
        userSessions := userSessions[user := {}];
      }
      userSessions := userSessions[user := userSessions[user] + {session}];
    }

    method GetSession(session: SessionId) returns (data: Option<Session>)
      ensures data.Some? <==> session in sessions
      ensures data.Some? ==> data.value == sessions[session]
    {
      data := if session in sessions then Some(sessions[session]) else None;
    }

    method IsAccessJtiValid(jti: Jti) returns (valid: bool)
      ensures valid <==> jti in accessJtis
    {
      valid := jti in accessJtis;
    }

    method GetSessionByRefreshToken(token: RefreshToken) returns (owner: Option<Owner>)
      modifies this`refreshTokens
      ensures Contents() == FakeGetDel(old(Contents()), token)
      ensures owner == if token in old(refreshTokens) then Some(old(refreshTokens)[token]) else None
    {
      owner := if token in refreshTokens then Some(refreshTokens[token]) else None;
      refreshTokens := refreshTokens - {token};
    }

    method RotateSession(session: SessionId, spent: RefreshToken, jti: Jti, token: RefreshToken) returns (ok: bool)
      modifies this
      ensures (Contents(), ok) == FakeRotate(old(Contents()), session, spent, jti, token)
    {
      refreshTokens := refreshTokens - {spent};
      if session !in sessions {
        return false;
      }
      var d := sessions[session];
      accessJtis := accessJtis - {d.jti};
      sessions := sessions[session := d.(jti := jti, refresh := token)];
      accessJtis := accessJtis[jti := session];
      refreshTokens := refreshTokens[token := Owner(d.user, session)];
      ok := true;
    }

    method RevokeSession(session: SessionId)
      modifies this
      ensures Contents() == FakeRevoke(old(Contents()), session)
    {
      if session !in sessions {
        return;
      }
      var d := sessions[session];
      sessions := sessions - {session};
      accessJtis := accessJtis - {d.jti};
      refreshTokens := refreshTokens - {d.refresh};
      if d.user in userSessions {
        userSessions := userSessions[d.user := userSessions[d.user] - {session}];
      }
    }

    method RevokeAllUserSessions(user: UserId)
      modifies this
      ensures Contents() == FakePurge(old(Contents()), user)
    {
      var todo := if user in userSessions then userSessions[user] else {};
      ghost var start := Contents();
      ghost var done: set<SessionId> := {};
      FakeWithoutNone(start);
      while todo != {}
        invariant done + todo == MembersIn(start, user) && done !! todo
        invariant Contents() == FakeWithout(start, done)
        decreases |todo|
      {
        var session :| session in todo;
        FakeRevokeIsWithout(start, done, session);
        RevokeSession(session);
        todo, done := todo - {session}, done + {session};
      }
      assert done == MembersIn(start, user);
      userSessions := userSessions - {user};
    }
  }

  // ------------------------------------------------------------------------
  // Agreement with the Redis store
  // ------------------------------------------------------------------------

  ghost predicate SameSessions(f: Fake, st: Store) {
    && f.sessions.Keys == st.sessions.Keys
    && forall s | s in f.sessions ::
         st.sessions[s].user == Some(f.sessions[s].user)
         && st.sessions[s].jti == Some(f.sessions[s].jti)
         && st.sessions[s].refresh == Some(f.sessions[s].refresh)
  }

  ghost predicate SameAccess(f: Fake, st: Store) {
    && f.access.Keys == st.access.Keys
    && forall j | j in f.access :: f.access[j] == st.access[j].session
  }

  ghost predicate SameRefresh(f: Fake, st: Store) {
    && f.refresh.Keys == st.refresh.Keys
    && forall t | t in f.refresh :: f.refresh[t] == Owner(st.refresh[t].user, st.refresh[t].session)
  }

  ghost predicate SameMembers(f: Fake, st: Store) {
    forall u :: MembersIn(f, u) == MembersOf(st.index, u)
  }

  ghost predicate Matches(f: Fake, st: Store) {
    SameSessions(f, st) && SameAccess(f, st) && SameRefresh(f, st) && SameMembers(f, st)
  }

  /** What the handlers ask of a token store: they change it, look up a jti, or look
      up a session for its user. */
  datatype Call = Issue(op: Op) | AskJti(jti: Jti) | AskSession(session: SessionId)

  datatype Answer =
    | Done
    | Refreshed(result: Result<Owner, TokenError>)
    | Valid(valid: bool)
    | Found(found: bool, user: Option<UserId>)

  predicate Instant(call: Call) {
    call.Issue? ==> !call.op.Wait?
  }

  function RedisCall(ttl: Ttl, sys: System, call: Call): (System, Answer) {
    match call
    case Issue(op) =>
      (Exec(ttl, sys, op),
       if op.Renew? then Refreshed(Refresh(ttl, sys.store, op.spent, op.jti, op.token).1) else Done)
    case AskJti(j) => (sys, Valid(j in sys.store.access))
    case AskSession(s) =>
      (sys, if s in sys.store.sessions then Found(true, sys.store.sessions[s].user) else Found(false, None))
  }

  function FakeCall(f: Fake, call: Call): (Fake, Answer) {
    match call
    case Issue(Login(u, s, j, t)) => (FakeCreate(f, s, u, j, t), Done)
    case Issue(Renew(spent, j, t)) => var (f', r) := FakeRefresh(f, spent, j, t); (f', Refreshed(r))
    case Issue(Logout(s)) => (FakeRevoke(f, s), Done)
    case Issue(LogoutAll(u)) => (FakePurge(f, u), Done)
    case Issue(Wait(_)) => (f, Done)
    case AskJti(j) => (f, Valid(j in f.access))
    case AskSession(s) => (f, if s in f.sessions then Found(true, Some(f.sessions[s].user)) else Found(false, None))
  }

  ghost predicate AllPossible(ttl: Ttl, sys: System, calls: seq<Call>)
    decreases |calls|
  {
    calls == [] ||
    (Instant(calls[0]) && (calls[0].Issue? ==> Allowed(sys, calls[0].op))
     && AllPossible(ttl, RedisCall(ttl, sys, calls[0]).0, calls[1..]))
  }

  function RedisAnswers(ttl: Ttl, sys: System, calls: seq<Call>): seq<Answer>
    decreases |calls|
  {
    if calls == [] then []
    else
      var (sys', a) := RedisCall(ttl, sys, calls[0]);
      [a] + RedisAnswers(ttl, sys', calls[1..])
  }

  function FakeAnswers(f: Fake, calls: seq<Call>): seq<Answer>
    decreases |calls|
  {
    if calls == [] then []
    else
      var (f', a) := FakeCall(f, calls[0]);
      [a] + FakeAnswers(f', calls[1..])
  }

  lemma LoginMatches(ttl: Ttl, f: Fake, st: Store, session: SessionId, user: UserId, jti: Jti, token: RefreshToken)
    requires Matches(f, st)
    ensures Matches(FakeCreate(f, session, user, jti, token), Create(ttl, st, session, user, jti, token))
  {
    var f', st' := FakeCreate(f, session, user, jti, token), Create(ttl, st, session, user, jti, token);
    forall u ensures MembersIn(f', u) == MembersOf(st'.index, u) {
      assert MembersIn(f, u) == MembersOf(st.index, u);
    }
  }

  lemma RotateMatches(ttl: Ttl, f: Fake, st: Store, s: SessionId, spent: RefreshToken, jti: Jti, token: RefreshToken)
    requires Matches(f, st) && s in st.sessions && st.sessions[s].user.Some?
    ensures
      Matches(FakeRotate(f, s, spent, jti, token).0,
              Rotate(ttl, st, s, st.sessions[s].user.value, st.sessions[s].jti, spent, jti, token))
  {
    var f' := FakeRotate(f, s, spent, jti, token).0;
    var st' := Rotate(ttl, st, s, st.sessions[s].user.value, st.sessions[s].jti, spent, jti, token);
    assert SameMembers(f', st') by {
      forall u ensures MembersIn(f', u) == MembersOf(st'.index, u) {
        assert MembersIn(f, u) == MembersOf(st.index, u);
      }
    }
  }

  lemma GetDelMatches(f: Fake, st: Store, token: RefreshToken)
    requires Matches(f, st)
    ensures Matches(FakeGetDel(f, token), GetDel(st, token))
  {
    forall u ensures MembersIn(FakeGetDel(f, token), u) == MembersOf(GetDel(st, token).index, u) {
      assert MembersIn(f, u) == MembersOf(st.index, u);
    }
  }

  lemma RenewMatches(ttl: Ttl, sys: System, f: Fake, op: Op)
    requires Sensible(ttl) && Sound(ttl, sys) && op.Renew? && Allowed(sys, op) && Matches(f, sys.store)
    ensures
      var r, g := Refresh(ttl, sys.store, op.spent, op.jti, op.token), FakeRefresh(f, op.spent, op.jti, op.token);
      Matches(g.0, r.0) && g.1 == r.1
  {
    if op.spent in sys.store.refresh {
      var s, h := RenewRotates(ttl, sys, op);
      GetDelMatches(f, sys.store, op.spent);
      RotateMatches(ttl, FakeGetDel(f, op.spent), GetDel(sys.store, op.spent), s, op.spent, op.jti, op.token);
    }
  }

  lemma LogoutMatches(f: Fake, st: Store, s: SessionId)
    requires Matches(f, st)
    ensures Matches(FakeRevoke(f, s), RevokeSession(st, s))
  {
    var f', st' := FakeRevoke(f, s), RevokeSession(st, s);
    assert SameMembers(f', st') by {
      forall u ensures MembersIn(f', u) == MembersOf(st'.index, u) {
        assert MembersIn(f, u) == MembersOf(st.index, u);
      }
    }
  }

  /** Both revoke the members of the set, whatever they are and in whatever order. */
  lemma LogoutAllMatches(f: Fake, st: Store, user: UserId)
    requires Matches(f, st)
    ensures Matches(FakePurge(f, user), RevokeAll(st, user))
  {
    var f', st' := FakePurge(f, user), RevokeAll(st, user);
    assert MembersIn(f, user) == MembersOf(st.index, user);
    assert SameMembers(f', st') by { PurgedMembers(f, st, user); }
  }

  lemma PurgedMembers(f: Fake, st: Store, user: UserId)
    requires Matches(f, st)
    ensures SameMembers(FakePurge(f, user), RevokeAll(st, user))
  {
    var ids := MembersIn(f, user);
    var dropped := DropIndex(st, user);
    assert ids == MembersOf(st.index, user);
    forall u ensures MembersIn(FakePurge(f, user), u) == MembersOf(RevokeAll(st, user).index, u) {
      assert MembersIn(f, u) == MembersOf(st.index, u);
      assert forall s :: s in OfUser(dropped, ids, u) <==> s in ids && s in f.sessions && f.sessions[s].user == u;
    }
  }

  /** One call: the same answer from both, and they still agree. */
  lemma CallMatches(ttl: Ttl, sys: System, f: Fake, call: Call)
    requires Sensible(ttl) && Sound(ttl, sys) && Matches(f, sys.store)
    requires Instant(call) && (call.Issue? ==> Allowed(sys, call.op))
    ensures Matches(FakeCall(f, call).0, RedisCall(ttl, sys, call).0.store)
    ensures FakeCall(f, call).1 == RedisCall(ttl, sys, call).1
  {
    hide Matches;
    hide Linked;
    match call {
      case Issue(Login(u, s, j, t)) => LoginMatches(ttl, f, sys.store, s, u, j, t);
      case Issue(Renew(_, _, _)) => RenewMatches(ttl, sys, f, call.op);
      case Issue(Logout(s)) => LogoutMatches(f, sys.store, s);
      case Issue(LogoutAll(u)) => LogoutAllMatches(f, sys.store, u);
      case AskJti(j) => assert SameAccess(f, sys.store) by { MatchesFamilies(f, sys.store); }
      case AskSession(s) => assert SameSessions(f, sys.store) by { MatchesFamilies(f, sys.store); }
    }
  }

  lemma MatchesFamilies(f: Fake, st: Store)
    requires Matches(f, st)
    ensures SameSessions(f, st) && SameAccess(f, st)
  {
  }

  /** While no time passes, no sequence of calls tells the two stores apart. */
  lemma {:induction false} SameAnswers(ttl: Ttl, sys: System, f: Fake, calls: seq<Call>)
    requires Sensible(ttl) && Sound(ttl, sys) && Matches(f, sys.store) && AllPossible(ttl, sys, calls)
    ensures FakeAnswers(f, calls) == RedisAnswers(ttl, sys, calls)
    decreases |calls|
  {
    hide Matches;
    hide Sound;
    hide Exec;
    hide FakeCall;
    if calls != [] {
      CallMatches(ttl, sys, f, calls[0]);
      if calls[0].Issue? { ExecKeepsSound(ttl, sys, calls[0].op); }
      SameAnswers(ttl, RedisCall(ttl, sys, calls[0]).0, FakeCall(f, calls[0]).0, calls[1..]);
    }
  }

  /** The two agree from the start. */
  lemma SameAnswersFromEmpty(ttl: Ttl, calls: seq<Call>)
    requires Sensible(ttl) && AllPossible(ttl, Empty, calls)
    ensures FakeAnswers(EmptyFake, calls) == RedisAnswers(ttl, Empty, calls)
  {
    EmptyIsSound(ttl);
    SameAnswers(ttl, Empty, EmptyFake, calls);
  }

  /** No key of the store ends within the next `seconds`. */
  ghost predicate NothingEnds(st: Store, seconds: nat) {
    && (forall j | j in st.access :: st.now + seconds < st.access[j].expires)
    && (forall t | t in st.refresh :: st.now + seconds < st.refresh[t].expires)
    && (forall s | s in st.sessions :: st.now + seconds < st.sessions[s].expires)
    && (forall u | u in st.index && st.index[u].ids != {} :: st.now + seconds < st.index[u].expires)
  }

  lemma NothingEndsIsNoChange(f: Fake, st: Store, seconds: nat)
    requires Matches(f, st) && NothingEnds(st, seconds)
    ensures Matches(f, Advance(st, seconds))
  {
    var st' := Advance(st, seconds);
    assert st'.access == st.access && st'.refresh == st.refresh && st'.sessions == st.sessions;
    forall u ensures MembersIn(f, u) == MembersOf(st'.index, u) {
      assert MembersIn(f, u) == MembersOf(st.index, u);
    }
  }

  /** The agreement survives a wait exactly when nothing expires in it. */
  lemma WaitMatchesIff(f: Fake, st: Store, seconds: nat)
    requires Matches(f, st)
    ensures Matches(f, Advance(st, seconds)) <==> NothingEnds(st, seconds)
  {
    var st' := Advance(st, seconds);
    if NothingEnds(st, seconds) {
      NothingEndsIsNoChange(f, st, seconds);
    }
    if Matches(f, st') {
      assert st'.access.Keys == st.access.Keys && st'.refresh.Keys == st.refresh.Keys
          && st'.sessions.Keys == st.sessions.Keys;
      forall u ensures MembersOf(st.index, u) == MembersOf(st'.index, u) {
        assert MembersIn(f, u) == MembersOf(st.index, u);
      }
      SameKeysEndLater(st, seconds);
    }
  }

  lemma SameKeysEndLater(st: Store, seconds: nat)
    requires
      var st' := Advance(st, seconds);
      st'.access.Keys == st.access.Keys && st'.refresh.Keys == st.refresh.Keys && st'.sessions.Keys == st.sessions.Keys
    requires forall u :: MembersOf(st.index, u) == MembersOf(Advance(st, seconds).index, u)
    ensures NothingEnds(st, seconds)
  {
    var st' := Advance(st, seconds);
    forall j | j in st.access ensures st.now + seconds < st.access[j].expires { assert j in st'.access; }
    forall t | t in st.refresh ensures st.now + seconds < st.refresh[t].expires { assert t in st'.refresh; }
    forall s | s in st.sessions ensures st.now + seconds < st.sessions[s].expires { assert s in st'.sessions; }
    forall u | u in st.index && st.index[u].ids != {} ensures st.now + seconds < st.index[u].expires {
      assert MembersOf(st.index, u) == MembersOf(st'.index, u);
    }
  }
}
