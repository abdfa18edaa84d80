/** RedisTokenStore and the handlers that drive it, with Redis's four key
    families as mutable maps. A method runs the commands of its pipeline one by
    one; its effect is the operation of `SessionTable`. */
module TokenStore {
  import opened Wrappers
  import opened SessionStore
  import SessionTable

  class RedisTokenStore {
    var now: int
    var access: map<Jti, Grant>
    var refresh: map<RefreshToken, Grant>
    var sessions: map<SessionId, Hash>
    var index: map<UserId, Members>

    function Contents(): Store
      reads this
    {
      Store(now, access, refresh, sessions, index)
    }

    constructor (now: int)
      ensures Contents() == EmptyStore.(now := now)
    {
      this.now := now;
      access, refresh, sessions, index := map[], map[], map[], map[];
    }

    method CreateSession(session: SessionId, user: UserId, jti: Jti, token: RefreshToken, ttl: Ttl)
      requires ValidTtl(ttl)
      modifies this
      ensures Contents() == Create(ttl, old(Contents()), session, user, jti, token)
    {
      access := access[jti := Grant(user, session, now + ttl.access)];
      refresh := refresh[token := Grant(user, session, now + ttl.refresh)];
      sessions := sessions[session := Hash(Some(user), Some(jti), Some(token), now + ttl.refresh)];
      var members := Members(MembersOf(index, user) + {session}, now + ttl.refresh);
      index := index[user := members];
    }

    method GetSession(session: SessionId) returns (data: Option<Hash>)
      ensures data.Some? <==> session in sessions
      ensures data.Some? ==> data.value == sessions[session]
    {
      if session in sessions {
        data := Some(sessions[session]);
      } else {
        data := None;
      }
    }

    method IsAccessJtiValid(jti: Jti) returns (valid: bool)
      ensures valid <==> jti in access
    {
      valid := jti in access;
    }

    /** GETDEL: the token resolves at most once. */
    method GetSessionByRefreshToken(token: RefreshToken) returns (owner: Option<SessionTable.Owner>)
      modifies this`refresh
      ensures Contents() == GetDel(old(Contents()), token)
      ensures owner.Some? <==> token in old(refresh)
      ensures owner.Some? ==>
                owner.value == SessionTable.Owner(old(refresh)[token].user, old(refresh)[token].session)
    {
      if token in refresh {
        owner := Some(SessionTable.Owner(refresh[token].user, refresh[token].session));
      } else {
        owner := None;
      }
      refresh := refresh - {token};
    }

    method RotateSession(session: SessionId, spent: RefreshToken, jti: Jti, token: RefreshToken, ttl: Ttl)
      returns (failure: Option<SessionTable.TokenError>)
      requires ValidTtl(ttl)
      modifies this
      ensures
        match SessionTable.RotateSession(ttl, old(Contents()), session, spent, jti, token)
        case Ok(st) => failure.None? && Contents() == st
        case Err(e) => failure == Some(e) && Contents() == old(Contents())
    {
      var data := GetSession(session);
      if data.None? {
        return Some(SessionTable.InvalidToken);
      }
      if data.value.user.None? {
        return Some(SessionTable.MissingUser);
      }
      var user := data.value.user.value;
      ghost var goal := Rotate(ttl, Contents(), session, user, data.value.jti, spent, jti, token);
      refresh := refresh - {spent};
      if data.value.jti.Some? {
        access := access - {data.value.jti.value};
      }
      access := access[jti := Grant(user, session, now + ttl.access)];
      assert access == goal.access;
      refresh := refresh[token := Grant(user, session, now + ttl.refresh)];
      assert refresh == goal.refresh;
      var hash := sessions[session].(jti := Some(jti), refresh := Some(token));
      sessions := sessions[session := hash.(expires := now + ttl.refresh)];
      assert sessions == goal.sessions;
      if user in index {
        index := index[user := index[user].(expires := now + ttl.refresh)];
      }
      assert Contents() == goal;
      failure := None;
    }

    method RevokeSession(session: SessionId)
      modifies this
      ensures Contents() == SessionTable.RevokeSession(old(Contents()), session)
    {
      var data := GetSession(session);
      if data.None? {
        return;
      }
      if data.value.jti.Some? {
        access := access - {data.value.jti.value};
      }
      if data.value.refresh.Some? {
        refresh := refresh - {data.value.refresh.value};
      }
      sessions := sessions - {session};
      if data.value.user.Some? {
        index := Srem(index, data.value.user.value, session);
      }
    }

    /** The set is deleted first. While the four families agree, a live session of
        the user is always in the part of the snapshot still to be revoked, so that
        nothing of the user is left at the end; and nothing of anyone else is
        touched. */
    method RevokeAllUserSessions(user: UserId)
      modifies this
      ensures Contents() == SessionTable.RevokeAll(old(Contents()), user)
      ensures
        SessionTable.Linked(old(Contents())) && SessionTable.Indexed(old(Contents())) ==>
          Contents() == SessionTable.Purge(old(Contents()), user)
    {
      hide SessionTable.RevokeMany;
      hide SessionTable.RevokeSession;
      hide SessionTable.Linked;
      hide SessionTable.Indexed;
      hide SessionTable.Purge;
      hide Srem;
      var todo := MembersOf(index, user);
      ghost var start := Contents();
      ghost var done: set<SessionId> := {};
      ghost var consistent := SessionTable.Linked(start) && SessionTable.Indexed(start);
      index := index - {user};
      ghost var dropped := Contents();
      SessionTable.RevokeNone(dropped);
      if consistent { SessionTable.LiveAreStillMembers(start, user, {}); }
      while todo != {}
        invariant done + todo == MembersOf(start.index, user) && done !! todo
        invariant Contents() == SessionTable.RevokeMany(dropped, done)
        invariant consistent ==> forall s | s in sessions && sessions[s].user == Some(user) :: s in todo
        decreases |todo|
      {
        var session :| session in todo;
        SessionTable.RevokeOneMore(dropped, done, session);
        RevokeSession(session);
        todo, done := todo - {session}, done + {session};
        if consistent { SessionTable.LiveAreStillMembers(start, user, done); }
      }
      assert done == MembersOf(start.index, user);
      if consistent { SessionTable.RevokeAllIsPurge(start, user); }
    }

    /** Redis drops the keys whose expiry has come. */
    method Tick(seconds: nat)
      modifies this
      ensures Contents() == Advance(old(Contents()), seconds)
    {
      var later := Advance(Contents(), seconds);
      now, access, refresh := later.now, later.access, later.refresh;
      sessions, index := later.sessions, later.index;
    }
  }

  class RefreshTokenHandler {
    const store: RedisTokenStore
    const ttl: Ttl

    constructor (store: RedisTokenStore, ttl: Ttl)
      ensures this.store == store && this.ttl == ttl
    {
      this.store := store;
      this.ttl := ttl;
    }

    /** `jti` and `token` are what the token service generates. A token that has been
        consumed is not restored when the rotation fails. */
    method Handle(spent: RefreshToken, jti: Jti, token: RefreshToken)
      returns (result: Result<SessionTable.Owner, SessionTable.TokenError>)
      requires ValidTtl(ttl)
      modifies store
      ensures (store.Contents(), result) == SessionTable.Refresh(ttl, old(store.Contents()), spent, jti, token)
    {
      var owner := store.GetSessionByRefreshToken(spent);
      if owner.None? {
        assert store.Contents().refresh == old(store.Contents()).refresh;
        return Err(SessionTable.InvalidToken);
      }
      var failure := store.RotateSession(owner.value.session, spent, jti, token, ttl);
      if failure.Some? {
        return Err(failure.value);
      }
      result := Ok(owner.value);
    }
  }

  class RevokeSessionHandler {
    const store: RedisTokenStore

    constructor (store: RedisTokenStore)
      ensures this.store == store
    {
      this.store := store;
    }

    /** The handler reads the session a first time only to name its user in the audit
        event. */
    method Handle(session: SessionId) returns (audited: Option<UserId>)
      modifies store
      ensures store.Contents() == SessionTable.RevokeSession(old(store.Contents()), session)
      ensures audited == if session in old(store.sessions) then old(store.sessions)[session].user else None
    {
      var data := store.GetSession(session);
      audited := if data.Some? then data.value.user else None;
      store.RevokeSession(session);
    }
  }

  /** What decode_access_token returns for a valid JWT. */
  datatype Bearer = Bearer(sub: UserId, jti: Jti)

  datatype RevokeAnswer = AuthenticationRequired | SessionNotFound | NotAuthorised | SessionRevoked

  class AuthMutation {
    const store: RedisTokenStore
    const handler: RevokeSessionHandler

    constructor (store: RedisTokenStore, handler: RevokeSessionHandler)
      ensures this.store == store && this.handler == handler
    {
      this.store := store;
      this.handler := handler;
    }

    /** A session is revoked only for a caller whose own jti is on the allowlist and
        who owns it; in every other case nothing changes. */
    method RevokeSession(bearer: Option<Bearer>, session: SessionId) returns (answer: RevokeAnswer)
      requires handler.store == store
      modifies store
      ensures
        answer == SessionRevoked <==>
        && bearer.Some? && bearer.value.jti in old(store.access)
        && session in old(store.sessions) && old(store.sessions)[session].user == Some(bearer.value.sub)
      ensures answer == AuthenticationRequired <==> bearer.None? || bearer.value.jti !in old(store.access)
      ensures
        answer == SessionNotFound <==>
        && bearer.Some? && bearer.value.jti in old(store.access) && session !in old(store.sessions)
      ensures
        answer == NotAuthorised <==>
        && bearer.Some? && bearer.value.jti in old(store.access)
        && session in old(store.sessions) && old(store.sessions)[session].user != Some(bearer.value.sub)
      ensures
        store.Contents() ==
        if answer == SessionRevoked then SessionTable.RevokeSession(old(store.Contents()), session)
        else old(store.Contents())
      ensures
        SessionTable.Linked(old(store.Contents())) && bearer.Some? ==>
          forall other | other != bearer.value.sub ::
            SessionTable.ViewOf(store.Contents(), other) == SessionTable.ViewOf(old(store.Contents()), other)
    {
      if bearer.None? {
        return AuthenticationRequired;
      }
      var valid := store.IsAccessJtiValid(bearer.value.jti);
      if !valid {
        return AuthenticationRequired;
      }
      var data := store.GetSession(session);
      if data.None? {
        return SessionNotFound;
      }
      if data.value.user != Some(bearer.value.sub) {
        return NotAuthorised;
      }
      ghost var before := store.Contents();
      var _ := handler.Handle(session);
      if SessionTable.Linked(before) {
        forall other | other != bearer.value.sub
          ensures SessionTable.ViewOf(store.Contents(), other) == SessionTable.ViewOf(before, other)
        {
          SessionTable.LogoutKeepsOthers(before, session, bearer.value.sub, other);
          SessionTable.SameViewIsEqual(before, store.Contents(), other);
        }
      }
      answer := SessionRevoked;
    }
  }
}
