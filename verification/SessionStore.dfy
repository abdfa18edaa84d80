/** The four Redis key families behind one login session, and each Redis
    transaction on them as a function from store to store.

      access:{jti}     -> "user:session"      expires after the access TTL
      refresh:{token}  -> "user:session"      expires after the refresh TTL
      session:{sid}    -> hash of fields      expires after the refresh TTL
      sessions:{uid}   -> set of session ids  expires after the refresh TTL

    A key whose expiry has come does not exist, so `Advance` removes it. Times
    are whole seconds. */
module SessionStore {
  import opened Wrappers

  datatype UserId = UserId(text: string)
  datatype SessionId = SessionId(text: string)
  datatype Jti = Jti(text: string)
  datatype RefreshToken = RefreshToken(text: string)

  datatype Ttl = Ttl(access: int, refresh: int)

  /** SETEX refuses a TTL that is not positive. */
  predicate ValidTtl(ttl: Ttl) {
    0 < ttl.access && 0 < ttl.refresh
  }

  datatype Grant = Grant(user: UserId, session: SessionId, expires: int)

  /** The fields of session:{sid} that the code reads back. HSET adds fields to
      whatever is there, so any of them can be missing. */
  datatype Hash = Hash(user: Option<UserId>, jti: Option<Jti>, refresh: Option<RefreshToken>, expires: int)

  datatype Members = Members(ids: set<SessionId>, expires: int)

  datatype Store = Store(
    now: int,
    access: map<Jti, Grant>,
    refresh: map<RefreshToken, Grant>,
    sessions: map<SessionId, Hash>,
    index: map<UserId, Members>)

  const EmptyStore := Store(0, map[], map[], map[], map[])

  /** SMEMBERS: a missing key is the empty set. */
  function MembersOf(index: map<UserId, Members>, user: UserId): set<SessionId> {
    if user in index then index[user].ids else {}
  }

  /** SREM: a set that becomes empty is removed with its key. */
  function Srem(index: map<UserId, Members>, user: UserId, session: SessionId): map<UserId, Members> {
    if user !in index then index
    else if index[user].ids <= {session} then index - {user}
    else index[user := index[user].(ids := index[user].ids - {session})]
  }

  /** EXPIRE on the user's set: no effect when the key is missing. */
  function Touch(index: map<UserId, Members>, user: UserId, expires: int): map<UserId, Members> {
    if user in index then index[user := index[user].(expires := expires)] else index
  }

  /** The MULTI transaction of create_session. */
  function Create(ttl: Ttl, st: Store, session: SessionId, user: UserId, jti: Jti, token: RefreshToken): Store {
    st.(access := st.access[jti := Grant(user, session, st.now + ttl.access)],
        refresh := st.refresh[token := Grant(user, session, st.now + ttl.refresh)],
        sessions := st.sessions[session := Hash(Some(user), Some(jti), Some(token), st.now + ttl.refresh)],
        index := st.index[user := Members(MembersOf(st.index, user) + {session}, st.now + ttl.refresh)])
  }

  /** GETDEL refresh:{token}; the value it returns is looked up beforehand. */
  function GetDel(st: Store, token: RefreshToken): Store {
    st.(refresh := st.refresh - {token})
  }

  /** The MULTI transaction of rotate_session, with the user and the old jti that
      the preceding HGETALL returned. HSET on a hash that has gone meanwhile makes
      a new one, without user_id. */
  function Rotate(ttl: Ttl, st: Store, session: SessionId, user: UserId, oldJti: Option<Jti>,
                  spent: RefreshToken, jti: Jti, token: RefreshToken): Store
  {
    var owner := if session in st.sessions then st.sessions[session].user else None;
    st.(access := (st.access - Just(oldJti))[jti := Grant(user, session, st.now + ttl.access)],
        refresh := (st.refresh - {spent})[token := Grant(user, session, st.now + ttl.refresh)],
        sessions := st.sessions[session := Hash(owner, Some(jti), Some(token), st.now + ttl.refresh)],
        index := Touch(st.index, user, st.now + ttl.refresh))
  }

  /** The MULTI transaction of revoke_session, with the fields that the preceding
      HGETALL returned. */
  function Revoke(st: Store, session: SessionId, read: Hash): Store {
    st.(access := st.access - Just(read.jti),
        refresh := st.refresh - Just(read.refresh),
        sessions := st.sessions - {session},
        index := if read.user.Some? then Srem(st.index, read.user.value, session) else st.index)
  }

  /** DEL sessions:{uid}. */
  function DropIndex(st: Store, user: UserId): Store {
    st.(index := st.index - {user})
  }

  /** `seconds` pass: every key whose expiry has come is gone. */
  function Advance(st: Store, seconds: nat): Store {
    var now := st.now + seconds;
    Store(now,
          map j | j in st.access && now < st.access[j].expires :: st.access[j],
          map t | t in st.refresh && now < st.refresh[t].expires :: st.refresh[t],
          map s | s in st.sessions && now < st.sessions[s].expires :: st.sessions[s],
          map u | u in st.index && now < st.index[u].expires :: st.index[u])
  }
}
