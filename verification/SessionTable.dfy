/** The session store with every store operation as one step, against a single
    table of sessions.

    Under the invariant `Coherent` the four key families hold exactly what one
    table, session id -> row, holds; each operation on them is the obvious
    operation on the table. */
module SessionTable {
  import opened Wrappers
  import opened SessionStore

  // ------------------------------------------------------------------------
  // Store operations
  // ------------------------------------------------------------------------

  datatype TokenError =
    | InvalidToken   // InvalidTokenError
    | MissingUser    // KeyError: the hash has no user_id

  datatype Owner = Owner(user: UserId, session: SessionId)

  /** rotate_session: HGETALL, then the transaction. */
  function RotateSession(ttl: Ttl, st: Store, session: SessionId, spent: RefreshToken, jti: Jti, token: RefreshToken)
    : Result<Store, TokenError>
  {
    if session !in st.sessions then Err(InvalidToken)
    else
      var h := st.sessions[session];
      if h.user.None? then Err(MissingUser)
      else Ok(Rotate(ttl, st, session, h.user.value, h.jti, spent, jti, token))
  }

  /** The refresh handler: GETDEL, then rotate_session. */
  function Refresh(ttl: Ttl, st: Store, spent: RefreshToken, jti: Jti, token: RefreshToken)
    : (Store, Result<Owner, TokenError>)
  {
    if spent !in st.refresh then (st, Err(InvalidToken))
    else
      var g := st.refresh[spent];
      match RotateSession(ttl, GetDel(st, spent), g.session, spent, jti, token)
      case Ok(st') => (st', Ok(Owner(g.user, g.session)))
      case Err(e) => (GetDel(st, spent), Err(e))
  }

  /** revoke_session: HGETALL, then the transaction. */
  function RevokeSession(st: Store, session: SessionId): Store {
    if session in st.sessions then Revoke(st, session, st.sessions[session]) else st
  }

  /** Those of `ids` whose hash names `user`. */
  function OfUser(st: Store, ids: set<SessionId>, user: UserId): set<SessionId> {
    set s | s in ids && s in st.sessions && st.sessions[s].user == Some(user)
  }

  /** An SREM of `ids` has left the user's set empty. */
  predicate Emptied(st: Store, ids: set<SessionId>, user: UserId) {
    user in st.index && OfUser(st, ids, user) != {} && st.index[user].ids <= OfUser(st, ids, user)
  }

  /** All of `ids` revoked, in whatever order. */
  function RevokeMany(st: Store, ids: set<SessionId>): Store {
    st.(access := st.access
          - (set s | s in ids && s in st.sessions && st.sessions[s].jti.Some? :: st.sessions[s].jti.value),
        refresh := st.refresh
          - (set s | s in ids && s in st.sessions && st.sessions[s].refresh.Some? :: st.sessions[s].refresh.value),
        sessions := st.sessions - ids,
        index := map u | u in st.index && !Emptied(st, ids, u) ::
          st.index[u].(ids := st.index[u].ids - OfUser(st, ids, u)))
  }

  /** revoke_all_user_sessions: SMEMBERS, DEL, and the loop over the snapshot. */
  function RevokeAll(st: Store, user: UserId): Store {
    RevokeMany(DropIndex(st, user), MembersOf(st.index, user))
  }

  /** The store without anything of `user`. */
  function Purge(st: Store, user: UserId): Store {
    st.(access := map j | j in st.access && st.access[j].user != user :: st.access[j],
        refresh := map t | t in st.refresh && st.refresh[t].user != user :: st.refresh[t],
        sessions := map s | s in st.sessions && st.sessions[s].user != Some(user) :: st.sessions[s],
        index := st.index - {user})
  }

  // ------------------------------------------------------------------------
  // The invariant of the four families
  // ------------------------------------------------------------------------

  predicate Complete(h: Hash) {
    h.user.Some? && h.jti.Some? && h.refresh.Some?
  }

  ghost predicate AccessLinked(st: Store, j: Jti) {
    j in st.access ==>
      && st.access[j].session in st.sessions
      && var h := st.sessions[st.access[j].session];
      h.user == Some(st.access[j].user) && h.jti == Some(j) && st.access[j].expires <= h.expires
  }

  ghost predicate RefreshLinked(st: Store, t: RefreshToken) {
    t in st.refresh ==>
      && st.refresh[t].session in st.sessions
      && var h := st.sessions[st.refresh[t].session];
      h.user == Some(st.refresh[t].user) && h.refresh == Some(t) && st.refresh[t].expires == h.expires
  }

  /** Every live jti and refresh token is its session's current one, and no two
      sessions share one. */
  ghost predicate Linked(st: Store) {
    && (forall j :: AccessLinked(st, j))
    && (forall t :: RefreshLinked(st, t))
    && (forall s | s in st.sessions :: Complete(st.sessions[s]))
    && (forall r, s | r in st.sessions && s in st.sessions && r != s ::
          st.sessions[r].jti != st.sessions[s].jti && st.sessions[r].refresh != st.sessions[s].refresh)
    && (forall u, s | s in MembersOf(st.index, u) && s in st.sessions :: st.sessions[s].user == Some(u))
  }

  /** Every live session is in its owner's set, which lasts at least as long. The
      set may hold more: sessions that have expired. */
  ghost predicate Indexed(st: Store) {
    forall s | s in st.sessions && st.sessions[s].user.Some? ::
      var u := st.sessions[s].user.value;
      u in st.index && s in st.index[u].ids && st.sessions[s].expires <= st.index[u].expires
  }

  ghost predicate Timely(ttl: Ttl, st: Store) {
    && (forall j | j in st.access :: st.now < st.access[j].expires)
    && (forall t | t in st.refresh :: st.now < st.refresh[t].expires)
    && (forall s | s in st.sessions :: st.now < st.sessions[s].expires <= st.now + ttl.refresh)
    && (forall u | u in st.index :: st.now < st.index[u].expires <= st.now + ttl.refresh)
  }

  ghost predicate Coherent(ttl: Ttl, st: Store) {
    Linked(st) && Indexed(st) && Timely(ttl, st)
  }

  // ------------------------------------------------------------------------
  // revoke_all_user_sessions
  // ------------------------------------------------------------------------

  /** A live jti is current for its session, and for no other. */
  lemma JtiLeadsToSession(st: Store, j: Jti, s: SessionId)
    requires Linked(st) && j in st.access
    ensures st.access[j].session == s <==> s in st.sessions && st.sessions[s].jti == Some(j)
  {
    assert AccessLinked(st, j);
  }

  lemma TokenLeadsToSession(st: Store, t: RefreshToken, s: SessionId)
    requires Linked(st) && t in st.refresh
    ensures st.refresh[t].session == s <==> s in st.sessions && st.sessions[s].refresh == Some(t)
  {
    assert RefreshLinked(st, t);
  }

  lemma SessionIsComplete(st: Store, s: SessionId)
    requires Linked(st) && s in st.sessions
    ensures Complete(st.sessions[s])
  {
  }

  lemma RevokeNone(st: Store)
    ensures RevokeMany(st, {}) == st
  {
    var st' := RevokeMany(st, {});
    forall u | u in st.index ensures u in st'.index && st'.index[u] == st.index[u] {
      assert OfUser(st, {}, u) == {};
    }
    assert st'.index == st.index;
  }

  lemma RevokeOneMoreIndex(st: Store, ids: set<SessionId>, s: SessionId, u: UserId)
    requires s !in ids
    ensures
      var a, b := RevokeSession(RevokeMany(st, ids), s).index, RevokeMany(st, ids + {s}).index;
      (u in a <==> u in b) && (u in a ==> a[u] == b[u])
  {
    var own := s in st.sessions && st.sessions[s].user == Some(u);
    assert OfUser(st, ids + {s}, u) == if own then OfUser(st, ids, u) + {s} else OfUser(st, ids, u);
  }

  lemma RevokeOneMoreKeys(st: Store, ids: set<SessionId>, s: SessionId)
    requires s !in ids
    ensures
      var a, b := RevokeSession(RevokeMany(st, ids), s), RevokeMany(st, ids + {s});
      a.access == b.access && a.refresh == b.refresh && a.sessions == b.sessions && a.now == b.now
  {
    assert st.sessions - ids - {s} == st.sessions - (ids + {s});
  }

  /** Revoking one session more: what the loop of revoke_all_user_sessions keeps. */
  lemma RevokeOneMore(st: Store, ids: set<SessionId>, s: SessionId)
    requires s !in ids
    ensures RevokeSession(RevokeMany(st, ids), s) == RevokeMany(st, ids + {s})
  {
    RevokeOneMoreKeys(st, ids, s);
    var a, b := RevokeSession(RevokeMany(st, ids), s), RevokeMany(st, ids + {s});
    assert a.index == b.index by {
      hide RevokeMany;
      hide RevokeSession;
      forall u { RevokeOneMoreIndex(st, ids, s, u); }
    }
  }

  /** The current jti (token) of a revoked session is not that of another. */
  lemma KeysOfMembers(st: Store, user: UserId)
    requires Linked(st) && Indexed(st)
    ensures RevokeAll(st, user).access == Purge(st, user).access
    ensures RevokeAll(st, user).refresh == Purge(st, user).refresh
  {
    hide Linked;
    hide Indexed;
    var ids := MembersOf(st.index, user);
    forall j | j in st.access
      ensures st.access[j].user == user <==> exists s :: s in ids && s in st.sessions && st.sessions[s].jti == Some(j)
    {
      OwnerOfJti(st, j);
      var own := st.access[j].session;
      MembersAreOwn(st, user, own);
      JtiLeadsToSession(st, j, own);
      forall s | s in ids && s in st.sessions && st.sessions[s].jti == Some(j) ensures s == own {
        JtiLeadsToSession(st, j, s);
      }
    }
    forall t | t in st.refresh
      ensures st.refresh[t].user == user <==> exists s ::
          s in ids && s in st.sessions && st.sessions[s].refresh == Some(t)
    {
      OwnerOfToken(st, t);
      var own := st.refresh[t].session;
      MembersAreOwn(st, user, own);
      TokenLeadsToSession(st, t, own);
      forall s | s in ids && s in st.sessions && st.sessions[s].refresh == Some(t) ensures s == own {
        TokenLeadsToSession(st, t, s);
      }
    }
  }

  /** revoke_all_user_sessions leaves nothing of the user, although it deletes the
      user's set first, and touches nothing of anyone else: all of the user's live
      sessions were members, and all members that live are the user's. */
  lemma RevokeAllIsPurge(st: Store, user: UserId)
    requires Linked(st) && Indexed(st)
    ensures RevokeAll(st, user) == Purge(st, user)
  {
    KeysOfMembers(st, user);
    hide Linked;
    hide Indexed;
    var ids := MembersOf(st.index, user);
    var a, b := RevokeAll(st, user), Purge(st, user);
    forall s | s in st.sessions ensures s in ids <==> st.sessions[s].user == Some(user) {
      MembersAreOwn(st, user, s);
    }
    assert a.sessions == b.sessions;
    assert a.index == b.index by {
      var dropped := DropIndex(st, user);
      forall u | u in b.index ensures u in a.index && a.index[u] == b.index[u] {
        assert OfUser(dropped, ids, u) == {};
      }
    }
  }

  /** While a revoke-all has revoked the members `done`, the user's live sessions are
      among the others. */
  lemma LiveAreStillMembers(st: Store, user: UserId, done: set<SessionId>)
    requires Linked(st) && Indexed(st)
    ensures
      var now := RevokeMany(DropIndex(st, user), done).sessions;
      forall s | s in now && now[s].user == Some(user) :: s in MembersOf(st.index, user) - done
  {
    hide Linked;
    hide Indexed;
    forall s | s in st.sessions { MembersAreOwn(st, user, s); }
  }

  lemma MembersAreOwn(st: Store, user: UserId, s: SessionId)
    requires Linked(st) && Indexed(st) && s in st.sessions
    ensures s in MembersOf(st.index, user) <==> st.sessions[s].user == Some(user)
  {
    assert Complete(st.sessions[s]);
  }

  lemma OwnerOfJti(st: Store, j: Jti)
    requires Linked(st) && j in st.access
    ensures st.access[j].session in st.sessions && st.sessions[st.access[j].session].user == Some(st.access[j].user)
  {
    assert AccessLinked(st, j);
  }

  lemma OwnerOfToken(st: Store, t: RefreshToken)
    requires Linked(st) && t in st.refresh
    ensures st.refresh[t].session in st.sessions && st.sessions[st.refresh[t].session].user == Some(st.refresh[t].user)
  {
    assert RefreshLinked(st, t);
  }

  // ------------------------------------------------------------------------
  // Runs of atomic operations
  // ------------------------------------------------------------------------

  /** The store, with everything ever generated. */
  datatype System = System(store: Store, jtis: set<Jti>, tokens: set<RefreshToken>, sids: set<SessionId>)

  const Empty := System(EmptyStore, {}, {}, {})

  datatype Op =
    | Login(user: UserId, session: SessionId, jti: Jti, token: RefreshToken)
    | Renew(spent: RefreshToken, jti: Jti, token: RefreshToken)
    | Logout(session: SessionId)
    | LogoutAll(user: UserId)
    | Wait(seconds: nat)

  predicate Allowed(sys: System, op: Op) {
    match op
    case Login(_, s, j, t) => s !in sys.sids && j !in sys.jtis && t !in sys.tokens
    case Renew(_, j, t) => j !in sys.jtis && t !in sys.tokens
    case _ => true
  }

  function Exec(ttl: Ttl, sys: System, op: Op): System {
    match op
    case Login(u, s, j, t) =>
      System(Create(ttl, sys.store, s, u, j, t), sys.jtis + {j}, sys.tokens + {t}, sys.sids + {s})
    case Renew(spent, j, t) =>
      System(Refresh(ttl, sys.store, spent, j, t).0, sys.jtis + {j}, sys.tokens + {t}, sys.sids)
    case Logout(s) => sys.(store := RevokeSession(sys.store, s))
    case LogoutAll(u) => sys.(store := RevokeAll(sys.store, u))
    case Wait(d) => sys.(store := Advance(sys.store, d))
  }

  ghost predicate Issued(sys: System) {
    && sys.store.access.Keys <= sys.jtis
    && sys.store.refresh.Keys <= sys.tokens
    && (forall s | s in sys.store.sessions ::
          && s in sys.sids
          && (sys.store.sessions[s].jti.Some? ==> sys.store.sessions[s].jti.value in sys.jtis)
          && (sys.store.sessions[s].refresh.Some? ==> sys.store.sessions[s].refresh.value in sys.tokens))
    && (forall u, s | s in MembersOf(sys.store.index, u) :: s in sys.sids)
  }

  ghost predicate Sound(ttl: Ttl, sys: System) {
    Coherent(ttl, sys.store) && Issued(sys)
  }

  predicate Sensible(ttl: Ttl) {
    ValidTtl(ttl) && ttl.access <= ttl.refresh
  }

  // ------------------------------------------------------------------------
  // The table
  // ------------------------------------------------------------------------

  datatype Timed = Timed(jti: Jti, expires: int)

  /** A live session: its owner, its jti while that is on the allowlist, its
      refresh token until consumed, and when the session and the token end. */
  datatype Row = Row(user: UserId, access: Option<Timed>, refresh: Option<RefreshToken>, expires: int)

  type Table = map<SessionId, Row>

  function RowOf(st: Store, h: Hash): Row
    requires Complete(h)
  {
    Row(h.user.value,
        if h.jti.value in st.access then Some(Timed(h.jti.value, st.access[h.jti.value].expires)) else None,
        if h.refresh.value in st.refresh then Some(h.refresh.value) else None,
        h.expires)
  }

  function Abs(st: Store): Table {
    map s | s in st.sessions && Complete(st.sessions[s]) :: RowOf(st, st.sessions[s])
  }

  function Expire(row: Row, now: int): Row {
    row.(access := if row.access.Some? && row.access.value.expires <= now then None else row.access)
  }

  /** What each operation means on the table. */
  ghost function TableExec(ttl: Ttl, now: int, table: Table, op: Op): Table {
    match op
    case Login(u, s, j, t) => table[s := Row(u, Some(Timed(j, now + ttl.access)), Some(t), now + ttl.refresh)]
    case Renew(spent, j, t) =>
      if exists s :: s in table && table[s].refresh == Some(spent) then
        var s :| s in table && table[s].refresh == Some(spent);
        table[s := Row(table[s].user, Some(Timed(j, now + ttl.access)), Some(t), now + ttl.refresh)]
      else table
    case Logout(s) => table - {s}
    case LogoutAll(u) => map s | s in table && table[s].user != u :: table[s]
    case Wait(d) => map s | s in table && now + d < table[s].expires :: Expire(table[s], now + d)
  }

  lemma JtiShows(st: Store, j: Jti)
    requires Linked(st) && j in st.access
    ensures
      var s := st.access[j].session;
      s in Abs(st) && Abs(st)[s].access == Some(Timed(j, st.access[j].expires)) && Abs(st)[s].user == st.access[j].user
  {
    assert AccessLinked(st, j);
  }

  lemma TokenShows(st: Store, t: RefreshToken)
    requires Linked(st) && t in st.refresh
    ensures
      var s := st.refresh[t].session;
      s in Abs(st) && Abs(st)[s].refresh == Some(t) && Abs(st)[s].user == st.refresh[t].user
  {
    assert RefreshLinked(st, t);
  }

  lemma RowShowsLive(st: Store, s: SessionId)
    requires s in Abs(st)
    ensures Abs(st)[s].access.Some? ==> Abs(st)[s].access.value.jti in st.access
    ensures Abs(st)[s].refresh.Some? ==> Abs(st)[s].refresh.value in st.refresh
  {
  }

  /** A jti is on the allowlist exactly when it is the current, unexpired jti of a
      live session; a refresh token resolves exactly when it is the current,
      unconsumed token of a live session; and both name that session's owner. */
  lemma StoreShowsTable(ttl: Ttl, st: Store)
    requires Coherent(ttl, st)
    ensures forall j :: j in st.access <==>
              exists s :: s in Abs(st) && Abs(st)[s].access.Some? && Abs(st)[s].access.value.jti == j
    ensures forall t :: t in st.refresh <==> exists s :: s in Abs(st) && Abs(st)[s].refresh == Some(t)
    ensures forall j | j in st.access ::
              var s := st.access[j].session;
              s in Abs(st) && Abs(st)[s].access == Some(Timed(j, st.access[j].expires))
                  && Abs(st)[s].user == st.access[j].user
    ensures forall t | t in st.refresh ::
              var s := st.refresh[t].session;
              s in Abs(st) && Abs(st)[s].refresh == Some(t) && Abs(st)[s].user == st.refresh[t].user
  {
    hide Linked;
    hide Abs;
    forall j | j in st.access { JtiShows(st, j); }
    forall t | t in st.refresh { TokenShows(st, t); }
    forall s | s in Abs(st) { RowShowsLive(st, s); }
  }

  // ------------------------------------------------------------------------
  // Each operation keeps the invariant
  // ------------------------------------------------------------------------

  lemma LoginKeepsLinked(ttl: Ttl, sys: System, op: Op)
    requires Sensible(ttl) && Sound(ttl, sys) && op.Login? && Allowed(sys, op)
    ensures Linked(Exec(ttl, sys, op).store)
  {
    var st, st' := sys.store, Exec(ttl, sys, op).store;
    forall j ensures AccessLinked(st', j) { assert AccessLinked(st, j); }
    forall t ensures RefreshLinked(st', t) { assert RefreshLinked(st, t); }
    forall u, s | s in MembersOf(st'.index, u) && s in st'.sessions ensures st'.sessions[s].user == Some(u) {
      if s in MembersOf(st.index, u) { assert s in sys.sids; }
    }
  }

  /** The session and the hash that a live refresh token leads to. */
  lemma RenewRotates(ttl: Ttl, sys: System, op: Op) returns (s: SessionId, h: Hash)
    requires Sensible(ttl) && Sound(ttl, sys) && op.Renew? && Allowed(sys, op) && op.spent in sys.store.refresh
    ensures s == sys.store.refresh[op.spent].session && s in sys.store.sessions && h == sys.store.sessions[s]
    ensures Complete(h) && h.refresh == Some(op.spent) && h.user.value == sys.store.refresh[op.spent].user
    ensures
      Refresh(ttl, sys.store, op.spent, op.jti, op.token) ==
      (Rotate(ttl, GetDel(sys.store, op.spent), s, h.user.value, h.jti, op.spent, op.jti, op.token),
       Result.Ok(Owner(h.user.value, s)))
  {
    s := sys.store.refresh[op.spent].session;
    assert RefreshLinked(sys.store, op.spent);
    h := sys.store.sessions[s];
  }

  lemma RenewKeepsLinked(ttl: Ttl, sys: System, op: Op)
    requires Sensible(ttl) && Sound(ttl, sys) && op.Renew? && Allowed(sys, op) && op.spent in sys.store.refresh
    ensures Linked(Exec(ttl, sys, op).store)
  {
    var st, st' := sys.store, Exec(ttl, sys, op).store;
    var s, h := RenewRotates(ttl, sys, op);
    forall j ensures AccessLinked(st', j) { assert AccessLinked(st, j); }
    forall t ensures RefreshLinked(st', t) { assert RefreshLinked(st, t); }
    forall u, r | r in MembersOf(st'.index, u) && r in st'.sessions ensures st'.sessions[r].user == Some(u) {
      assert r in MembersOf(st.index, u) && r in st.sessions;
    }
  }

  lemma LogoutKeepsLinked(st: Store, s: SessionId)
    requires Linked(st)
    ensures Linked(RevokeSession(st, s))
  {
    var st' := RevokeSession(st, s);
    forall j ensures AccessLinked(st', j) { assert AccessLinked(st, j); }
    forall t ensures RefreshLinked(st', t) { assert RefreshLinked(st, t); }
    forall u, r | r in MembersOf(st'.index, u) && r in st'.sessions ensures st'.sessions[r].user == Some(u) {
      assert r in MembersOf(st.index, u) && r in st.sessions;
    }
  }

  lemma PurgeKeepsLinked(st: Store, user: UserId)
    requires Linked(st)
    ensures Linked(Purge(st, user))
  {
    var st' := Purge(st, user);
    forall j ensures AccessLinked(st', j) { assert AccessLinked(st, j); }
    forall t ensures RefreshLinked(st', t) { assert RefreshLinked(st, t); }
    forall u, r | r in MembersOf(st'.index, u) && r in st'.sessions ensures st'.sessions[r].user == Some(u) {
      assert r in MembersOf(st.index, u) && r in st.sessions;
    }
  }

  lemma WaitKeepsLinked(st: Store, d: nat)
    requires Linked(st)
    ensures Linked(Advance(st, d))
  {
    var st' := Advance(st, d);
    forall j ensures AccessLinked(st', j) { assert AccessLinked(st, j); }
    forall t ensures RefreshLinked(st', t) { assert RefreshLinked(st, t); }
    forall u, r | r in MembersOf(st'.index, u) && r in st'.sessions ensures st'.sessions[r].user == Some(u) {
      assert r in MembersOf(st.index, u) && r in st.sessions;
    }
  }

  lemma RenewKeepsIndexed(ttl: Ttl, sys: System, op: Op)
    requires Sensible(ttl) && Sound(ttl, sys) && op.Renew? && Allowed(sys, op) && op.spent in sys.store.refresh
    ensures Indexed(Exec(ttl, sys, op).store) && Timely(ttl, Exec(ttl, sys, op).store)
  {
    var s, h := RenewRotates(ttl, sys, op);
  }

  lemma LogoutKeepsIndexed(ttl: Ttl, st: Store, s: SessionId)
    requires Coherent(ttl, st)
    ensures Indexed(RevokeSession(st, s)) && Timely(ttl, RevokeSession(st, s))
  {
    var st' := RevokeSession(st, s);
    forall r | r in st'.sessions
      ensures
        var u := st'.sessions[r].user.value;
        st'.sessions[r].user.Some? && u in st'.index && r in st'.index[u].ids
            && st'.sessions[r].expires <= st'.index[u].expires
    {
      assert r in st.sessions && Complete(st.sessions[r]);
    }
  }

  lemma LoginKeepsIndexed(ttl: Ttl, sys: System, op: Op)
    requires Sensible(ttl) && Sound(ttl, sys) && op.Login? && Allowed(sys, op)
    ensures Indexed(Exec(ttl, sys, op).store) && Timely(ttl, Exec(ttl, sys, op).store)
  {
  }

  lemma PurgeKeepsIndexed(ttl: Ttl, st: Store, user: UserId)
    requires Coherent(ttl, st)
    ensures Indexed(Purge(st, user)) && Timely(ttl, Purge(st, user))
  {
  }

  lemma WaitKeepsIndexed(ttl: Ttl, st: Store, d: nat)
    requires Coherent(ttl, st)
    ensures Indexed(Advance(st, d)) && Timely(ttl, Advance(st, d))
  {
  }

  lemma ExecKeepsIssued(ttl: Ttl, sys: System, op: Op)
    requires Sensible(ttl) && Sound(ttl, sys) && Allowed(sys, op)
    ensures Issued(Exec(ttl, sys, op))
  {
    var sys' := Exec(ttl, sys, op);
    if op.Renew? && op.spent in sys.store.refresh { var s, h := RenewRotates(ttl, sys, op); }
    if op.LogoutAll? { RevokeAllIsPurge(sys.store, op.user); }
    forall u, s | s in MembersOf(sys'.store.index, u) ensures s in sys'.sids {
      if !op.Login? || s != op.session { assert s in MembersOf(sys.store.index, u); }
    }
  }

  lemma ExecKeepsSound(ttl: Ttl, sys: System, op: Op)
    requires Sensible(ttl) && Sound(ttl, sys) && Allowed(sys, op)
    ensures Sound(ttl, Exec(ttl, sys, op))
  {
    ExecKeepsIssued(ttl, sys, op);
    match op
    case Login(_, _, _, _) =>
      LoginKeepsLinked(ttl, sys, op);
      LoginKeepsIndexed(ttl, sys, op);
    case Renew(spent, _, _) =>
      if spent in sys.store.refresh {
        RenewKeepsLinked(ttl, sys, op);
        RenewKeepsIndexed(ttl, sys, op);
      }
    case Logout(s) =>
      LogoutKeepsLinked(sys.store, s);
      LogoutKeepsIndexed(ttl, sys.store, s);
    case LogoutAll(u) =>
      RevokeAllIsPurge(sys.store, u);
      PurgeKeepsLinked(sys.store, u);
      PurgeKeepsIndexed(ttl, sys.store, u);
    case Wait(d) =>
      WaitKeepsLinked(sys.store, d);
      WaitKeepsIndexed(ttl, sys.store, d);
  }

  // ------------------------------------------------------------------------
  // Each operation is the table's operation
  // ------------------------------------------------------------------------

  /** Two tables with the same sessions and the same rows are one. */
  lemma SameRows(a: Table, b: Table)
    requires forall s :: s in a <==> s in b
    requires forall s | s in a :: a[s] == b[s]
    ensures a == b
  {
  }

  lemma LoginRefines(ttl: Ttl, sys: System, op: Op)
    requires Sensible(ttl) && Sound(ttl, sys) && op.Login? && Allowed(sys, op)
    ensures Abs(Exec(ttl, sys, op).store) == TableExec(ttl, sys.store.now, Abs(sys.store), op)
  {
    var st, st' := sys.store, Exec(ttl, sys, op).store;
    var goal := TableExec(ttl, st.now, Abs(st), op);
    forall s | s in st'.sessions ensures s in Abs(st') && s in goal && Abs(st')[s] == goal[s] {
      if s != op.session { assert s in st.sessions && Complete(st.sessions[s]); }
    }
    SameRows(Abs(st'), goal);
  }

  /** The row of a session that an operation does not touch. */
  lemma SameRow(st: Store, st': Store, s: SessionId)
    requires s in st.sessions && Complete(st.sessions[s]) && s in st'.sessions && st'.sessions[s] == st.sessions[s]
    requires
      var j := st.sessions[s].jti.value;
      (j in st'.access <==> j in st.access) && (j in st.access ==> st'.access[j] == st.access[j])
    requires
      var t := st.sessions[s].refresh.value;
      t in st'.refresh <==> t in st.refresh
    ensures s in Abs(st) && s in Abs(st') && Abs(st')[s] == Abs(st)[s]
  {
  }

  lemma OthersKeepRow(ttl: Ttl, sys: System, op: Op, s: SessionId, h: Hash, r: SessionId)
    requires Sound(ttl, sys) && op.Renew? && Allowed(sys, op)
    requires s in sys.store.sessions && h == sys.store.sessions[s] && Complete(h) && h.refresh == Some(op.spent)
    requires r != s && r in sys.store.sessions
    ensures
      var st' := Rotate(ttl, GetDel(sys.store, op.spent), s, h.user.value, h.jti, op.spent, op.jti, op.token);
      r in Abs(st') && r in Abs(sys.store) && Abs(st')[r] == Abs(sys.store)[r]
  {
    hide Abs;
    var st' := Rotate(ttl, GetDel(sys.store, op.spent), s, h.user.value, h.jti, op.spent, op.jti, op.token);
    SessionIsComplete(sys.store, r);
    SameRow(sys.store, st', r);
  }

  /** The row that a renewal writes. */
  lemma RenewedRow(ttl: Ttl, sys: System, op: Op, s: SessionId, h: Hash)
    requires Sound(ttl, sys) && op.Renew? && Allowed(sys, op)
    requires s in sys.store.sessions && h == sys.store.sessions[s] && Complete(h) && h.refresh == Some(op.spent)
    ensures
      var now := sys.store.now;
      Abs(Rotate(ttl, GetDel(sys.store, op.spent), s, h.user.value, h.jti, op.spent, op.jti, op.token)) ==
      Abs(sys.store)[s := Row(h.user.value, Some(Timed(op.jti, now + ttl.access)), Some(op.token), now + ttl.refresh)]
  {
    hide Sound;
    var st := sys.store;
    var st' := Rotate(ttl, GetDel(st, op.spent), s, h.user.value, h.jti, op.spent, op.jti, op.token);
    var row := Row(h.user.value, Some(Timed(op.jti, st.now + ttl.access)), Some(op.token), st.now + ttl.refresh);
    var goal := Abs(st)[s := row];
    forall r | r in st'.sessions ensures r in Abs(st') && r in goal && Abs(st')[r] == goal[r] {
      if r != s { OthersKeepRow(ttl, sys, op, s, h, r); }
    }
    SameRows(Abs(st'), goal);
  }

  /** A live refresh token always renews its session. */
  lemma RenewRefines(ttl: Ttl, sys: System, op: Op)
    requires Sensible(ttl) && Sound(ttl, sys) && op.Renew? && Allowed(sys, op)
    ensures Abs(Exec(ttl, sys, op).store) == TableExec(ttl, sys.store.now, Abs(sys.store), op)
    ensures Refresh(ttl, sys.store, op.spent, op.jti, op.token).1.Ok? <==> op.spent in sys.store.refresh
  {
    hide Abs;
    var table := Abs(sys.store);
    StoreShowsTable(ttl, sys.store);
    if op.spent in sys.store.refresh {
      var s, h := RenewRotates(ttl, sys, op);
      RenewedRow(ttl, sys, op, s, h);
      assert s in table && table[s].refresh == Some(op.spent);
      forall r | r in table && table[r].refresh == Some(op.spent) ensures r == s {
        RowHasOwnToken(sys.store, r);
        assert sys.store.sessions[r].refresh == Some(op.spent);
      }
      assert table[s].user == h.user.value;
    }
  }

  lemma RowHasOwnToken(st: Store, s: SessionId)
    requires s in Abs(st)
    ensures s in st.sessions
    ensures Abs(st)[s].refresh.Some? ==> st.sessions[s].refresh == Abs(st)[s].refresh
  {
  }

  lemma LogoutRefines(ttl: Ttl, st: Store, s: SessionId)
    requires Linked(st)
    ensures Abs(RevokeSession(st, s)) == Abs(st) - {s}
  {
    hide Abs;
    var st' := RevokeSession(st, s);
    RowKeys(st);
    RowKeys(st');
    forall r | r in st'.sessions ensures r in Abs(st') && r in Abs(st) && Abs(st')[r] == Abs(st)[r] {
      assert Complete(st.sessions[r]);
      if s in st.sessions { assert Complete(st.sessions[s]); }
      SameRow(st, st', r);
    }
    SameRows(Abs(st'), Abs(st) - {s});
  }

  lemma RowKeys(st: Store)
    ensures forall s :: s in Abs(st) <==> s in st.sessions && Complete(st.sessions[s])
  {
  }

  lemma LogoutAllRefines(ttl: Ttl, st: Store, user: UserId)
    requires Linked(st) && Indexed(st)
    ensures Abs(RevokeAll(st, user)) == map s | s in Abs(st) && Abs(st)[s].user != user :: Abs(st)[s]
  {
    RevokeAllIsPurge(st, user);
    PurgeRefines(st, user);
  }

  lemma PurgeRefines(st: Store, user: UserId)
    requires Linked(st)
    ensures Abs(Purge(st, user)) == map s | s in Abs(st) && Abs(st)[s].user != user :: Abs(st)[s]
  {
    var st' := Purge(st, user);
    RowKeys(st);
    RowKeys(st');
    forall r | r in st'.sessions ensures r in Abs(st') && r in Abs(st) && Abs(st')[r] == Abs(st)[r] {
      var h := st.sessions[r];
      assert Complete(h) && AccessLinked(st, h.jti.value) && RefreshLinked(st, h.refresh.value);
      SameRow(st, st', r);
    }
    forall r | r in Abs(st) ensures Some(Abs(st)[r].user) == st.sessions[r].user { RowUser(st, r); }
    hide Linked;
    hide Abs;
    SameRows(Abs(st'), map s | s in Abs(st) && Abs(st)[s].user != user :: Abs(st)[s]);
  }

  lemma RowUser(st: Store, s: SessionId)
    requires s in Abs(st)
    ensures s in st.sessions && Some(Abs(st)[s].user) == st.sessions[s].user
  {
  }

  lemma WaitedRow(ttl: Ttl, st: Store, d: nat, s: SessionId)
    requires Coherent(ttl, st) && s in Advance(st, d).sessions
    ensures s in Abs(Advance(st, d)) && s in Abs(st) && Abs(Advance(st, d))[s] == Expire(Abs(st)[s], st.now + d)
  {
    hide Coherent;
    hide Advance;
    AdvanceShows(st, d, s);
    WaitedKeys(ttl, st, d, s);
  }

  lemma AdvanceShows(st: Store, d: nat, s: SessionId)
    requires s in Advance(st, d).sessions
    ensures s in st.sessions && Advance(st, d).sessions[s] == st.sessions[s] && st.now + d < st.sessions[s].expires
  {
  }

  /** What is left of a live session's jti and refresh token after a wait. */
  lemma WaitedKeys(ttl: Ttl, st: Store, d: nat, s: SessionId)
    requires Coherent(ttl, st) && s in st.sessions && st.now + d < st.sessions[s].expires
    ensures Complete(st.sessions[s])
    ensures
      var h, st' := st.sessions[s], Advance(st, d);
      var j, t := h.jti.value, h.refresh.value;
      && (j in st'.access <==> j in st.access && st.now + d < st.access[j].expires)
      && (j in st'.access ==> st'.access[j] == st.access[j])
      && (t in st'.refresh <==> t in st.refresh)
  {
    SessionIsComplete(st, s);
    var t := st.sessions[s].refresh.value;
    if t in st.refresh { TokenLeadsToSession(st, t, s); assert RefreshLinked(st, t); }
  }

  lemma WaitRefines(ttl: Ttl, st: Store, d: nat)
    requires Coherent(ttl, st)
    ensures
      Abs(Advance(st, d)) ==
      map s | s in Abs(st) && st.now + d < Abs(st)[s].expires :: Expire(Abs(st)[s], st.now + d)
  {
    var goal := map s | s in Abs(st) && st.now + d < Abs(st)[s].expires :: Expire(Abs(st)[s], st.now + d);
    forall s | s in Advance(st, d).sessions { WaitedRow(ttl, st, d, s); }
    SameRows(Abs(Advance(st, d)), goal);
  }

  /** One step of refinement, for every operation. */
  lemma ExecRefines(ttl: Ttl, sys: System, op: Op)
    requires Sensible(ttl) && Sound(ttl, sys) && Allowed(sys, op)
    ensures Abs(Exec(ttl, sys, op).store) == TableExec(ttl, sys.store.now, Abs(sys.store), op)
  {
    hide Abs;
    hide Linked;
    match op
    case Login(_, _, _, _) => LoginRefines(ttl, sys, op);
    case Renew(_, _, _) => RenewRefines(ttl, sys, op);
    case Logout(s) => LogoutRefines(ttl, sys.store, s);
    case LogoutAll(u) => LogoutAllRefines(ttl, sys.store, u);
    case Wait(d) => WaitRefines(ttl, sys.store, d);
  }

  predicate AllAllowed(ttl: Ttl, sys: System, ops: seq<Op>)
    decreases |ops|
  {
    ops == [] || (Allowed(sys, ops[0]) && AllAllowed(ttl, Exec(ttl, sys, ops[0]), ops[1..]))
  }

  function ExecAll(ttl: Ttl, sys: System, ops: seq<Op>): System
    decreases |ops|
  {
    if ops == [] then sys else ExecAll(ttl, Exec(ttl, sys, ops[0]), ops[1..])
  }

  ghost function TableExecAll(ttl: Ttl, now: int, table: Table, ops: seq<Op>): Table
    decreases |ops|
  {
    if ops == [] then table
    else
      var later := now + if ops[0].Wait? then ops[0].seconds else 0;
      TableExecAll(ttl, later, TableExec(ttl, now, table, ops[0]), ops[1..])
  }

  lemma ExecTime(ttl: Ttl, sys: System, op: Op)
    ensures Exec(ttl, sys, op).store.now == sys.store.now + if op.Wait? then op.seconds else 0
  {
  }

  /** Over every run, the four key families are the table. */
  lemma {:induction false} RunRefines(ttl: Ttl, sys: System, ops: seq<Op>)
    requires Sensible(ttl) && Sound(ttl, sys) && AllAllowed(ttl, sys, ops)
    ensures Sound(ttl, ExecAll(ttl, sys, ops))
    ensures Abs(ExecAll(ttl, sys, ops).store) == TableExecAll(ttl, sys.store.now, Abs(sys.store), ops)
    decreases |ops|
  {
    hide Abs;
    hide Sound;
    hide Exec;
    hide TableExec;
    if ops != [] {
      ExecKeepsSound(ttl, sys, ops[0]);
      ExecRefines(ttl, sys, ops[0]);
      ExecTime(ttl, sys, ops[0]);
      RunRefines(ttl, Exec(ttl, sys, ops[0]), ops[1..]);
    }
  }

  lemma EmptyIsSound(ttl: Ttl)
    ensures Sound(ttl, Empty) && Abs(Empty.store) == map[]
  {
  }

  // ------------------------------------------------------------------------
  // Lifetimes
  // ------------------------------------------------------------------------

  /** Every allowlisted jti ends no later than its session. */
  ghost predicate AccessEndsFirst(st: Store) {
    forall j | j in st.access ::
      st.access[j].session in st.sessions && st.access[j].expires <= st.sessions[st.access[j].session].expires
  }

  /** The container takes the two TTLs from the environment, unchecked. An access
      token never outlives its session, in any run, exactly when the access TTL
      does not exceed the refresh TTL. */
  lemma AccessEndsFirstIff(ttl: Ttl)
    requires ValidTtl(ttl)
    ensures
      (forall ops | AllAllowed(ttl, Empty, ops) :: AccessEndsFirst(ExecAll(ttl, Empty, ops).store))
      <==> ttl.access <= ttl.refresh
  {
    if ttl.access <= ttl.refresh {
      forall ops | AllAllowed(ttl, Empty, ops) ensures AccessEndsFirst(ExecAll(ttl, Empty, ops).store) {
        EmptyIsSound(ttl);
        RunRefines(ttl, Empty, ops);
        var st := ExecAll(ttl, Empty, ops).store;
        forall j | j in st.access
          ensures st.access[j].session in st.sessions
              && st.access[j].expires <= st.sessions[st.access[j].session].expires
        {
          assert AccessLinked(st, j);
        }
      }
    } else {
      var s, j := SessionId("session"), Jti("jti");
      var login := Login(UserId("user"), s, j, RefreshToken("token"));
      var ops := [login];
      assert AllAllowed(ttl, Empty, ops) by { assert ops[1..] == []; }
      var st := ExecAll(ttl, Empty, ops).store;
      var after := Exec(ttl, Empty, login);
      assert ExecAll(ttl, Empty, ops) == ExecAll(ttl, after, []) by { assert ops[1..] == []; }
      assert st == after.store && j in st.access && st.access[j].expires == ttl.access;
      assert st.sessions[s].expires == ttl.refresh;
    }
  }

  // ------------------------------------------------------------------------
  // Other users
  // ------------------------------------------------------------------------

  /** Everything in the store that is `user`'s. */
  datatype View = View(access: map<Jti, Grant>, refresh: map<RefreshToken, Grant>,
                       sessions: map<SessionId, Hash>, members: set<SessionId>)

  function ViewOf(st: Store, user: UserId): View {
    View(map j | j in st.access && st.access[j].user == user :: st.access[j],
         map t | t in st.refresh && st.refresh[t].user == user :: st.refresh[t],
         map s | s in st.sessions && st.sessions[s].user == Some(user) :: st.sessions[s],
         MembersOf(st.index, user))
  }

  /** `user` logs in, presents a token of their own, revokes a session that passes
      the owner check, or has all of theirs revoked. */
  predicate ActsFor(st: Store, op: Op, user: UserId) {
    match op
    case Login(u, _, _, _) => u == user
    case Renew(spent, _, _) => spent in st.refresh ==> st.refresh[spent].user == user
    case Logout(s) => s in st.sessions ==> st.sessions[s].user == Some(user)
    case LogoutAll(u) => u == user
    case Wait(_) => false
  }

  ghost predicate SameView(a: Store, b: Store, user: UserId) {
    && (forall j :: (j in a.access && a.access[j].user == user) <==> (j in b.access && b.access[j].user == user))
    && (forall j | j in a.access && a.access[j].user == user :: b.access[j] == a.access[j])
    && (forall t :: (t in a.refresh && a.refresh[t].user == user) <==> (t in b.refresh && b.refresh[t].user == user))
    && (forall t | t in a.refresh && a.refresh[t].user == user :: b.refresh[t] == a.refresh[t])
    && (forall s :: (s in a.sessions && a.sessions[s].user == Some(user)) <==>
        (s in b.sessions && b.sessions[s].user == Some(user)))
    && (forall s | s in a.sessions && a.sessions[s].user == Some(user) :: b.sessions[s] == a.sessions[s])
    && MembersOf(a.index, user) == MembersOf(b.index, user)
  }

  lemma SameViewIsEqual(a: Store, b: Store, user: UserId)
    requires SameView(a, b, user)
    ensures ViewOf(b, user) == ViewOf(a, user)
  {
    assert ViewOf(b, user).access == ViewOf(a, user).access;
    assert ViewOf(b, user).refresh == ViewOf(a, user).refresh;
    assert ViewOf(b, user).sessions == ViewOf(a, user).sessions;
  }

  lemma RenewKeepsOthers(ttl: Ttl, sys: System, op: Op, user: UserId, other: UserId)
    requires Sensible(ttl) && Sound(ttl, sys) && op.Renew? && Allowed(sys, op) && op.spent in sys.store.refresh
    requires ActsFor(sys.store, op, user) && other != user
    ensures SameView(sys.store, Exec(ttl, sys, op).store, other)
  {
    var s, h := RenewRotates(ttl, sys, op);
    var st := sys.store;
    assert op.jti !in st.access && op.token !in st.refresh;
    assert AccessLinked(st, h.jti.value) && RefreshLinked(st, op.spent);
    assert h.jti.value in st.access ==> st.access[h.jti.value].user == user by {
      CurrentJtiNamesOwner(st, h.jti.value, s);
    }
    RotateKeepsOthers(ttl, st, s, h, op, user, other);
  }

  lemma CurrentJtiNamesOwner(st: Store, j: Jti, s: SessionId)
    requires Linked(st) && s in st.sessions && st.sessions[s].jti == Some(j)
    ensures j in st.access ==> st.sessions[s].user == Some(st.access[j].user)
  {
    if j in st.access { JtiLeadsToSession(st, j, s); assert AccessLinked(st, j); }
  }

  lemma RotateKeepsOthers(ttl: Ttl, st: Store, s: SessionId, h: Hash, op: Op, user: UserId, other: UserId)
    requires op.Renew? && s in st.sessions && st.sessions[s] == h && h.user == Some(user) && h.jti.Some?
        && other != user
    requires op.jti !in st.access && op.token !in st.refresh
    requires h.jti.value in st.access ==> st.access[h.jti.value].user == user
    requires op.spent in st.refresh && st.refresh[op.spent].user == user
    ensures SameView(st, Rotate(ttl, GetDel(st, op.spent), s, user, h.jti, op.spent, op.jti, op.token), other)
  {
  }

  lemma LogoutKeepsOthers(st: Store, s: SessionId, user: UserId, other: UserId)
    requires Linked(st) && s in st.sessions && st.sessions[s].user == Some(user) && other != user
    ensures SameView(st, RevokeSession(st, s), other)
  {
    hide Linked;
    var h := st.sessions[s];
    SessionIsComplete(st, s);
    CurrentJtiNamesOwner(st, h.jti.value, s);
    if h.refresh.value in st.refresh { TokenLeadsToSession(st, h.refresh.value, s); OwnerOfToken(st, h.refresh.value); }
  }

  lemma LoginKeepsOthers(ttl: Ttl, sys: System, op: Op, other: UserId)
    requires Issued(sys) && op.Login? && Allowed(sys, op) && op.user != other
    ensures SameView(sys.store, Exec(ttl, sys, op).store, other)
  {
    assert op.jti !in sys.store.access && op.token !in sys.store.refresh && op.session !in sys.store.sessions;
  }

  /** Nothing that acts for one user changes anything of another. */
  lemma OtherUsersUnaffected(ttl: Ttl, sys: System, op: Op, user: UserId, other: UserId)
    requires Sensible(ttl) && Sound(ttl, sys) && Allowed(sys, op) && ActsFor(sys.store, op, user) && other != user
    ensures ViewOf(Exec(ttl, sys, op).store, other) == ViewOf(sys.store, other)
  {
    hide ViewOf;
    hide SameView;
    var st := sys.store;
    match op {
      case Login(_, _, _, _) => LoginKeepsOthers(ttl, sys, op, other);
      case Renew(spent, _, _) =>
        if spent in st.refresh { RenewKeepsOthers(ttl, sys, op, user, other); } else { SameViewOfSelf(st, other); }
      case Logout(s) =>
        if s in st.sessions { LogoutKeepsOthers(st, s, user, other); } else { SameViewOfSelf(st, other); }
      case LogoutAll(u) =>
        RevokeAllIsPurge(st, u);
        PurgeKeepsOthers(st, u, other);
    }
    SameViewIsEqual(st, Exec(ttl, sys, op).store, other);
  }

  lemma SameViewOfSelf(st: Store, user: UserId)
    ensures SameView(st, st, user)
  {
  }

  lemma PurgeKeepsOthers(st: Store, user: UserId, other: UserId)
    requires other != user
    ensures SameView(st, Purge(st, user), other)
  {
  }
}
