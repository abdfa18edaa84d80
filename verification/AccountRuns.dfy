/** Runs of serialised requests: registration, login, refresh, logout, reset
    request, password reset, deactivation and the passing of time. */
module AccountRuns {
  import opened Wrappers
  import opened SessionStore
  import opened Accounts
  import SessionTable
  import TokenStore

  /** What was emailed: to whom, and until when it is good. */
  datatype Mail = Mail(user: UserId, expires: int)

  datatype Realm = Realm(
    users: Users,
    rows: Rows,
    sys: SessionTable.System,
    mailed: map<string, Mail>,      // every raw token ever emailed
    latest: map<UserId, string>,    // the latest one emailed to each user
    spent: set<string>)             // those that have changed a password

  const Start := Realm(Users(map[], map[]), map[], SessionTable.Empty, map[], map[], {})

  datatype Act =
    | SignUp(email: string, password: string, id: UserId, hashed: string)
    | SignIn(email: string, password: string, session: SessionId, jti: Jti, token: RefreshToken)
    | AskReset(email: string, row: RowId, raw: string)
    | Reset(raw: string, password: string, hashed: string)
    | Deactivate(user: UserId)
    | Session(op: SessionTable.Op)

  /** Generated values are new, and a hash verifies against its password. The raw
      token of a Reset comes from the client and can be anything. */
  predicate Possible(cfg: Config, w: Realm, a: Act) {
    match a
    case SignUp(_, password, id, hashed) => id !in w.users.byId && cfg.verify(password, hashed)
    case SignIn(_, _, s, j, t) => s !in w.sys.sids && j !in w.sys.jtis && t !in w.sys.tokens
    case AskReset(_, id, raw) => id !in w.rows && raw !in w.mailed
    case Reset(_, password, hashed) => cfg.verify(password, hashed)
    case Deactivate(_) => true
    case Session(op) => !op.Login? && SessionTable.Allowed(w.sys, op)
  }

  ghost function ResetResult(cfg: Config, w: Realm, a: Act): Result<Changed, Failure>
    requires a.Reset?
  {
    ResetPassword(cfg, w.users, w.rows, a.raw, a.password, a.hashed, w.sys.store.now)
  }

  ghost function Do(cfg: Config, w: Realm, a: Act): Realm {
    match a
    case SignUp(email, password, id, hashed) =>
      (match Register(cfg, w.users, email, password, id, hashed)
       case Ok(users) => w.(users := users)
       case Err(_) => w)
    case SignIn(email, password, s, j, t) =>
      (match Authenticate(cfg, w.users, email, password)
       case Ok(user) => w.(sys := SessionTable.Exec(cfg.ttl, w.sys, SessionTable.Login(user, s, j, t)))
       case Err(_) => w)
    case AskReset(email, id, raw) =>
      var now := w.sys.store.now;
      (match RequestReset(cfg, w.users, w.rows, email, id, raw, now)
       case Ok((user, rows)) =>
         w.(rows := rows, mailed := w.mailed[raw := Mail(user, now + cfg.expireSeconds)],
            latest := w.latest[user := raw])
       case Err(_) => w)
    case Reset(raw, _, _) =>
      (match ResetResult(cfg, w, a)
       case Ok(done) =>
         w.(users := done.users, rows := done.rows, spent := w.spent + {raw},
            sys := SessionTable.Exec(cfg.ttl, w.sys, SessionTable.LogoutAll(done.user)))
       case Err(_) => w)
    case Deactivate(user) => w.(users := DeactivateUser(w.users, user))
    case Session(op) => w.(sys := SessionTable.Exec(cfg.ttl, w.sys, op))
  }

  // ------------------------------------------------------------------------
  // The invariant
  // ------------------------------------------------------------------------

  /** SHA-256 is taken to be injective. */
  ghost predicate Collisionless(cfg: Config) {
    forall a, b | cfg.sha(a) == cfg.sha(b) :: a == b
  }

  /** A row holds the digest, the expiry and the use of the latest token emailed to
      its user. */
  ghost predicate RowOk(cfg: Config, w: Realm, row: Row) {
    && row.user in w.users.byId
    && row.user in w.latest
    && var raw := w.latest[row.user];
    && raw in w.mailed && w.mailed[raw] == Mail(row.user, row.expires)
    && row.digest == cfg.sha(raw)
    && (row.used <==> raw in w.spent)
  }

  ghost predicate RowsOk(cfg: Config, w: Realm) {
    && OneRowPerUser(w.rows)
    && (forall id | id in w.rows :: RowOk(cfg, w, w.rows[id]))
    && (forall user | user in w.latest :: HasRow(w.rows, user))
    && w.spent <= w.mailed.Keys
  }

  ghost predicate Inv(cfg: Config, w: Realm) {
    UsersOk(w.users) && RowsOk(cfg, w) && SessionTable.Sound(cfg.ttl, w.sys)
  }

  lemma RowsHaveUniqueDigests(cfg: Config, w: Realm)
    requires Collisionless(cfg) && RowsOk(cfg, w)
    ensures UniqueDigests(w.rows)
  {
    forall a, b | a in w.rows && b in w.rows && w.rows[a].digest == w.rows[b].digest ensures a == b {
      assert RowOk(cfg, w, w.rows[a]) && RowOk(cfg, w, w.rows[b]);
    }
  }

  /** A row found for a raw token is the row of the user to whom that token was the
      latest emailed. */
  lemma FoundRow(cfg: Config, w: Realm, raw: string) returns (id: RowId)
    requires Collisionless(cfg) && RowsOk(cfg, w) && FindByDigest(w.rows, cfg.sha(raw)).Some?
    ensures FindByDigest(w.rows, cfg.sha(raw)) == Some(id) && id in w.rows
    ensures RowOk(cfg, w, w.rows[id]) && w.latest[w.rows[id].user] == raw
  {
    id := FindByDigest(w.rows, cfg.sha(raw)).value;
    assert RowOk(cfg, w, w.rows[id]);
  }

  lemma AskResetShows(cfg: Config, w: Realm, a: Act, user: UserId, rows: Rows)
    requires a.AskReset? && UsersOk(w.users)
    requires RequestReset(cfg, w.users, w.rows, a.email, a.row, a.raw, w.sys.store.now) == Ok((user, rows))
    ensures user in w.users.byId
    ensures
      var expires := w.sys.store.now + cfg.expireSeconds;
      && rows == SaveRow(DeleteAllByUser(w.rows, user), a.row, Row(user, cfg.sha(a.raw), expires, false))
      && Do(cfg, w, a) == Mailed(w, rows, user, a.raw, expires)
  {
  }

  /** The world after a reset has been requested. */
  ghost function Mailed(w: Realm, rows: Rows, user: UserId, raw: string, expires: int): Realm {
    w.(rows := rows, mailed := w.mailed[raw := Mail(user, expires)], latest := w.latest[user := raw])
  }

  lemma MailKeepsOtherRow(cfg: Config, w: Realm, rows: Rows, user: UserId, raw: string, expires: int, row: Row)
    requires RowOk(cfg, w, row) && row.user != user && raw !in w.mailed
    ensures RowOk(cfg, Mailed(w, rows, user, raw, expires), row)
  {
  }

  lemma MailMakesRow(cfg: Config, w: Realm, rows: Rows, user: UserId, raw: string, expires: int)
    requires user in w.users.byId && raw !in w.mailed && w.spent <= w.mailed.Keys
    ensures RowOk(cfg, Mailed(w, rows, user, raw, expires), Row(user, cfg.sha(raw), expires, false))
  {
  }

  lemma SaveKeepsHasRow(rows: Rows, id: RowId, row: Row, user: UserId)
    requires id !in rows && (user == row.user || HasRow(rows, user))
    ensures HasRow(SaveRow(DeleteAllByUser(rows, row.user), id, row), user)
  {
    var rows' := SaveRow(DeleteAllByUser(rows, row.user), id, row);
    assert id in rows' && rows'[id] == row;
    if user != row.user {
      var other :| other in rows && rows[other].user == user;
      assert other in rows' && rows'[other] == rows[other];
    }
  }

  lemma MailKeepsRows(cfg: Config, w: Realm, user: UserId, id: RowId, raw: string, expires: int)
    requires RowsOk(cfg, w) && user in w.users.byId && raw !in w.mailed && id !in w.rows
    ensures
      var rows := SaveRow(DeleteAllByUser(w.rows, user), id, Row(user, cfg.sha(raw), expires, false));
      RowsOk(cfg, Mailed(w, rows, user, raw, expires))
  {
    hide RowOk;
    var deleted := DeleteAllByUser(w.rows, user);
    var row := Row(user, cfg.sha(raw), expires, false);
    var rows := SaveRow(deleted, id, row);
    assert DeleteAllByUser(deleted, user) == deleted;
    InsertKeepsOneRowIff(deleted, id, row);
    MailMakesRow(cfg, w, rows, user, raw, expires);
    forall other | other in deleted ensures RowOk(cfg, Mailed(w, rows, user, raw, expires), rows[other]) {
      MailKeepsOtherRow(cfg, w, rows, user, raw, expires, w.rows[other]);
    }
    forall u | u == user || u in w.latest ensures HasRow(rows, u) { SaveKeepsHasRow(w.rows, id, row, u); }
  }

  lemma AskResetKeepsRows(cfg: Config, w: Realm, a: Act)
    requires Inv(cfg, w) && a.AskReset? && Possible(cfg, w, a)
    ensures RowsOk(cfg, Do(cfg, w, a))
  {
    hide SessionTable.Sound;
    hide RowsOk;
    var now := w.sys.store.now;
    var result := RequestReset(cfg, w.users, w.rows, a.email, a.row, a.raw, now);
    if result.Ok? {
      var (user, rows) := result.value;
      AskResetShows(cfg, w, a, user, rows);
      MailKeepsRows(cfg, w, user, a.row, a.raw, now + cfg.expireSeconds);
    }
  }

  lemma ResetShows(cfg: Config, w: Realm, a: Act) returns (id: RowId)
    requires Collisionless(cfg) && Inv(cfg, w) && a.Reset? && ResetResult(cfg, w, a).Ok?
    ensures id in w.rows && RowOk(cfg, w, w.rows[id]) && w.latest[w.rows[id].user] == a.raw
    ensures
      var w' := Do(cfg, w, a);
      && UsersOk(w'.users) && w'.users.byId.Keys == w.users.byId.Keys
      && w'.rows == SaveRow(w.rows, id, w.rows[id].(used := true))
      && w'.mailed == w.mailed && w'.latest == w.latest && w'.spent == w.spent + {a.raw}
  {
    hide SessionTable.Sound;
    hide SessionTable.Exec;
    id := FoundRow(cfg, w, a.raw);
  }

  lemma RedeemKeepsRow(cfg: Config, w: Realm, w': Realm, id: RowId, raw: string, r: RowId)
    requires RowsOk(cfg, w) && id in w.rows && RowOk(cfg, w, w.rows[id])
    requires w.latest[w.rows[id].user] == raw && r in w.rows
    requires w'.users.byId.Keys == w.users.byId.Keys && w'.rows == SaveRow(w.rows, id, w.rows[id].(used := true))
    requires w'.mailed == w.mailed && w'.latest == w.latest && w'.spent == w.spent + {raw}
    ensures RowOk(cfg, w', w'.rows[r]) && w'.rows[r].user == w.rows[r].user
  {
    assert RowOk(cfg, w, w.rows[r]);
  }

  lemma RedeemKeepsRows(cfg: Config, w: Realm, w': Realm, id: RowId, raw: string)
    requires RowsOk(cfg, w) && id in w.rows && RowOk(cfg, w, w.rows[id]) && w.latest[w.rows[id].user] == raw
    requires w'.users.byId.Keys == w.users.byId.Keys && w'.rows == SaveRow(w.rows, id, w.rows[id].(used := true))
    requires w'.mailed == w.mailed && w'.latest == w.latest && w'.spent == w.spent + {raw}
    ensures RowsOk(cfg, w')
  {
    forall r | r in w.rows { RedeemKeepsRow(cfg, w, w', id, raw, r); }
    hide RowOk;
    assert w'.rows.Keys == w.rows.Keys;
    forall user | user in w.latest ensures HasRow(w'.rows, user) {
      var r :| r in w.rows && w.rows[r].user == user;
      assert w'.rows[r].user == user;
    }
    assert RowOk(cfg, w, w.rows[id]);
    RawIsMailed(cfg, w, w.rows[id]);
  }

  lemma RawIsMailed(cfg: Config, w: Realm, row: Row)
    requires RowOk(cfg, w, row)
    ensures w.latest[row.user] in w.mailed
  {
  }

  lemma ResetKeepsRows(cfg: Config, w: Realm, a: Act)
    requires Collisionless(cfg) && Inv(cfg, w) && a.Reset? && Possible(cfg, w, a)
    ensures RowsOk(cfg, Do(cfg, w, a)) && UsersOk(Do(cfg, w, a).users)
  {
    if ResetResult(cfg, w, a).Ok? {
      var id := ResetShows(cfg, w, a);
      hide Do;
      RedeemKeepsRows(cfg, w, Do(cfg, w, a), id, a.raw);
    }
  }

  lemma StepKeepsInv(cfg: Config, w: Realm, a: Act)
    requires Collisionless(cfg) && SessionTable.Sensible(cfg.ttl) && Inv(cfg, w) && Possible(cfg, w, a)
    ensures Inv(cfg, Do(cfg, w, a))
  {
    hide SessionTable.Sound;
    hide SessionTable.Exec;
    match a
    case SignUp(_, _, _, _) => SignUpKeepsRows(cfg, w, a);
    case SignIn(email, password, s, j, t) =>
      OtherActKeepsRows(cfg, w, a);
      var user := Authenticate(cfg, w.users, email, password);
      if user.Ok? { SessionTable.ExecKeepsSound(cfg.ttl, w.sys, SessionTable.Login(user.value, s, j, t)); }
    case AskReset(_, _, _) => AskResetKeepsRows(cfg, w, a);
    case Reset(_, _, _) =>
      ResetKeepsRows(cfg, w, a);
      var done := ResetResult(cfg, w, a);
      if done.Ok? { SessionTable.ExecKeepsSound(cfg.ttl, w.sys, SessionTable.LogoutAll(done.value.user)); }
    case Deactivate(user) =>
      DeactivateChangesOnlyFlag(w.users, user);
      UsersKeepRows(cfg, w, DeactivateUser(w.users, user));
    case Session(op) =>
      OtherActKeepsRows(cfg, w, a);
      SessionTable.ExecKeepsSound(cfg.ttl, w.sys, op);
  }

  /** The rows do not depend on the users, as long as no user disappears. */
  lemma UsersKeepRows(cfg: Config, w: Realm, users: Users)
    requires RowsOk(cfg, w) && w.users.byId.Keys <= users.byId.Keys
    ensures RowsOk(cfg, w.(users := users))
  {
    var w' := w.(users := users);
    forall id | id in w'.rows ensures RowOk(cfg, w', w'.rows[id]) {
      assert RowOk(cfg, w, w.rows[id]);
    }
  }

  lemma RegisterKeepsUsers(cfg: Config, users: Users, email: string, password: string, id: UserId, hashed: string)
    requires UsersOk(users) && id !in users.byId
    ensures
      match Register(cfg, users, email, password, id, hashed)
      case Ok(users') => UsersOk(users') && users.byId.Keys <= users'.byId.Keys
      case Err(_) => true
  {
  }

  lemma SignUpKeepsRows(cfg: Config, w: Realm, a: Act)
    requires Inv(cfg, w) && Possible(cfg, w, a) && a.SignUp?
    ensures RowsOk(cfg, Do(cfg, w, a)) && UsersOk(Do(cfg, w, a).users)
  {
    RegisterKeepsUsers(cfg, w.users, a.email, a.password, a.id, a.hashed);
    hide SessionTable.Sound;
    hide Register;
    hide UsersOk;
    var w' := Do(cfg, w, a);
    assert w' == w.(users := w'.users) && w.users.byId.Keys <= w'.users.byId.Keys;
    UsersKeepRows(cfg, w, w'.users);
  }

  lemma OtherActKeepsRows(cfg: Config, w: Realm, a: Act)
    requires Inv(cfg, w) && Possible(cfg, w, a) && (a.SignIn? || a.Session?)
    ensures RowsOk(cfg, Do(cfg, w, a)) && UsersOk(Do(cfg, w, a).users)
  {
    hide SessionTable.Sound;
    hide SessionTable.Exec;
    var w' := Do(cfg, w, a);
    assert w' == w.(sys := w'.sys);
    forall id | id in w'.rows ensures RowOk(cfg, w', w'.rows[id]) {
      assert RowOk(cfg, w, w.rows[id]);
    }
  }

  // ------------------------------------------------------------------------
  // Runs
  // ------------------------------------------------------------------------

  datatype Run = Run(realms: seq<Realm>, acts: seq<Act>)

  ghost predicate ValidRun(cfg: Config, r: Run) {
    && Collisionless(cfg) && SessionTable.Sensible(cfg.ttl)
    && |r.realms| == |r.acts| + 1
    && r.realms[0] == Start
    && forall i | 0 <= i < |r.acts| ::
         Possible(cfg, r.realms[i], r.acts[i]) && r.realms[i + 1] == Do(cfg, r.realms[i], r.acts[i])
  }

  lemma {:induction false} RunKeepsInv(cfg: Config, r: Run, i: nat)
    requires ValidRun(cfg, r) && i <= |r.acts|
    ensures Inv(cfg, r.realms[i])
  {
    hide Do;
    hide Inv;
    if i > 0 {
      RunKeepsInv(cfg, r, i - 1);
      StepKeepsInv(cfg, r.realms[i - 1], r.acts[i - 1]);
    } else {
      StartIsInv(cfg);
    }
  }

  lemma StartIsInv(cfg: Config)
    ensures Inv(cfg, Start)
  {
    SessionTable.EmptyIsSound(cfg.ttl);
    hide SessionTable.Sound;
  }

  /** Step `i` of the run is a reset that changes the password of `user`. */
  ghost predicate Changes(cfg: Config, r: Run, i: nat, user: UserId)
    requires i < |r.acts| < |r.realms|
  {
    r.acts[i].Reset? && ResetResult(cfg, r.realms[i], r.acts[i]).Ok? &&
    ResetResult(cfg, r.realms[i], r.acts[i]).value.user == user
  }

  /** Between requests there is at most one token row per user, and the token of a
      request leads to at most one row. */
  lemma RowsAreSingleValued(cfg: Config, r: Run, i: nat)
    requires ValidRun(cfg, r) && i <= |r.acts|
    ensures OneRowPerUser(r.realms[i].rows) && UniqueDigests(r.realms[i].rows)
  {
    RunKeepsInv(cfg, r, i);
    RowsHaveUniqueDigests(cfg, r.realms[i]);
  }

  /** A password changes only by an emailed token, only for the user it was emailed
      to, only strictly before it expires, only if it is the latest emailed to that
      user, and only if it has not changed a password before. */
  lemma ResetNeedsLatestToken(cfg: Config, r: Run, i: nat, user: UserId)
    requires ValidRun(cfg, r) && i < |r.acts| && Changes(cfg, r, i, user)
    ensures
      var w, raw := r.realms[i], r.acts[i].raw;
      && raw in w.mailed && w.mailed[raw].user == user && w.sys.store.now < w.mailed[raw].expires
      && user in w.latest && w.latest[user] == raw
      && raw !in w.spent && raw in r.realms[i + 1].spent
  {
    RunKeepsInv(cfg, r, i);
    var id := FoundRow(cfg, r.realms[i], r.acts[i].raw);
  }

  lemma {:induction false} SpentStaysSpent(cfg: Config, r: Run, i: nat, k: nat)
    requires ValidRun(cfg, r) && i <= k <= |r.acts|
    ensures r.realms[i].spent <= r.realms[k].spent
  {
    hide Do;
    if i < k {
      SpentStaysSpent(cfg, r, i, k - 1);
      MailStep(cfg, r.realms[k - 1], r.acts[k - 1]);
    }
  }

  lemma MailStep(cfg: Config, w: Realm, a: Act)
    requires Possible(cfg, w, a)
    ensures w.spent <= Do(cfg, w, a).spent
    ensures forall raw | raw in w.mailed :: raw in Do(cfg, w, a).mailed && Do(cfg, w, a).mailed[raw] == w.mailed[raw]
    ensures forall raw | raw !in w.mailed && raw in Do(cfg, w, a).mailed ::
              Do(cfg, w, a).mailed[raw].expires == w.sys.store.now + cfg.expireSeconds
  {
    hide SessionTable.Exec;
  }

  /** Each emailed token causes at most one password change, over the whole run. */
  lemma TokenChangesOnePassword(cfg: Config, r: Run, i: nat, k: nat, user: UserId, other: UserId)
    requires ValidRun(cfg, r) && i < |r.acts| && k < |r.acts|
    requires Changes(cfg, r, i, user) && Changes(cfg, r, k, other) && r.acts[i].raw == r.acts[k].raw
    ensures i == k
  {
    ResetNeedsLatestToken(cfg, r, i, user);
    ResetNeedsLatestToken(cfg, r, k, other);
    if i < k { SpentStaysSpent(cfg, r, i + 1, k); }
    if k < i { SpentStaysSpent(cfg, r, k + 1, i); }
  }

  /** The expiry of an emailed token is fixed when it is emailed. */
  lemma {:induction false} MailIsFixed(cfg: Config, r: Run, i: nat, k: nat, raw: string)
    requires ValidRun(cfg, r) && i < k <= |r.acts|
    requires raw !in r.realms[i].mailed && raw in r.realms[i + 1].mailed
    ensures raw in r.realms[k].mailed
        && r.realms[k].mailed[raw].expires == r.realms[i].sys.store.now + cfg.expireSeconds
  {
    hide Do;
    if i + 1 < k { MailIsFixed(cfg, r, i, k - 1, raw); }
    MailStep(cfg, r.realms[k - 1], r.acts[k - 1]);
  }

  // ------------------------------------------------------------------------
  // After a reset
  // ------------------------------------------------------------------------

  /** What was generated by `a` and is valid in `b` was valid in `a`, for the same
      user and session. */
  ghost predicate Aged(a: SessionTable.System, b: SessionTable.System) {
    && a.jtis <= b.jtis && a.tokens <= b.tokens
    && (forall j | j in a.jtis && j in b.store.access ::
          && j in a.store.access && b.store.access[j] == a.store.access[j])
    && (forall t | t in a.tokens && t in b.store.refresh ::
          && t in a.store.refresh && b.store.refresh[t] == a.store.refresh[t])
  }

  lemma ExecAges(ttl: Ttl, sys: SessionTable.System, op: SessionTable.Op)
    requires SessionTable.Allowed(sys, op)
    ensures Aged(sys, SessionTable.Exec(ttl, sys, op))
  {
  }

  lemma StepAges(cfg: Config, w: Realm, a: Act)
    requires Possible(cfg, w, a)
    ensures Aged(w.sys, Do(cfg, w, a).sys)
  {
    hide SessionTable.Exec;
    match a
    case SignIn(email, password, s, j, t) =>
      var user := Authenticate(cfg, w.users, email, password);
      if user.Ok? { ExecAges(cfg.ttl, w.sys, SessionTable.Login(user.value, s, j, t)); }
    case Reset(_, _, _) =>
      var done := ResetResult(cfg, w, a);
      if done.Ok? { ExecAges(cfg.ttl, w.sys, SessionTable.LogoutAll(done.value.user)); }
    case Session(op) => ExecAges(cfg.ttl, w.sys, op);
    case _ =>
  }

  lemma {:induction false} RunAges(cfg: Config, r: Run, i: nat, k: nat)
    requires ValidRun(cfg, r) && i <= k <= |r.acts|
    ensures Aged(r.realms[i].sys, r.realms[k].sys)
  {
    hide Do;
    if i < k {
      RunAges(cfg, r, i, k - 1);
      StepAges(cfg, r.realms[k - 1], r.acts[k - 1]);
    }
  }

  lemma ResetPurges(cfg: Config, r: Run, i: nat, user: UserId)
    requires ValidRun(cfg, r) && i < |r.acts| && Changes(cfg, r, i, user)
    ensures r.realms[i + 1].sys == r.realms[i].sys.(store := SessionTable.Purge(r.realms[i].sys.store, user))
  {
    RunKeepsInv(cfg, r, i);
    SessionTable.RevokeAllIsPurge(r.realms[i].sys.store, user);
  }

  /** After a successful reset for `user`, no jti and no refresh token that had been
      issued to `user` is accepted again, in any continuation. */
  lemma ResetEndsEarlierSessions(cfg: Config, r: Run, h: nat, i: nat, k: nat, user: UserId)
    requires ValidRun(cfg, r) && h <= i < k <= |r.acts| && Changes(cfg, r, i, user)
    ensures forall j | j in r.realms[h].sys.store.access && r.realms[h].sys.store.access[j].user == user ::
              j !in r.realms[k].sys.store.access
    ensures forall t | t in r.realms[h].sys.store.refresh && r.realms[h].sys.store.refresh[t].user == user ::
              t !in r.realms[k].sys.store.refresh
    ensures forall bearer: TokenStore.Bearer |
              bearer.jti in r.realms[h].sys.store.access && r.realms[h].sys.store.access[bearer.jti].user == user ::
              Me(Some(bearer), r.realms[k].sys.store, r.realms[k].users) == None
  {
    hide Do;
    RunKeepsInv(cfg, r, h);
    ResetPurges(cfg, r, i, user);
    RunAges(cfg, r, h, i + 1);
    RunAges(cfg, r, i + 1, k);
    assert r.realms[h].sys.store.access.Keys <= r.realms[h].sys.jtis;
    assert r.realms[h].sys.store.refresh.Keys <= r.realms[h].sys.tokens;
  }

  lemma {:induction false} HashIsKept(cfg: Config, r: Run, i: nat, k: nat, user: UserId)
    requires ValidRun(cfg, r) && i <= k <= |r.acts| && user in r.realms[i].users.byId
    requires forall m | i <= m < k :: !Changes(cfg, r, m, user)
    ensures user in r.realms[k].users.byId
    ensures r.realms[k].users.byId[user].hashed == r.realms[i].users.byId[user].hashed
  {
    hide Do;
    if i < k {
      HashIsKept(cfg, r, i, k - 1, user);
      assert !Changes(cfg, r, k - 1, user);
      UserStep(cfg, r.realms[k - 1], r.acts[k - 1], user);
    }
  }

  /** Only a reset for the user changes the hash of a user, once registered. */
  lemma UserStep(cfg: Config, w: Realm, a: Act, user: UserId)
    requires Possible(cfg, w, a) && user in w.users.byId
    requires a.Reset? && ResetResult(cfg, w, a).Ok? ==> ResetResult(cfg, w, a).value.user != user
    ensures user in Do(cfg, w, a).users.byId && Do(cfg, w, a).users.byId[user].hashed == w.users.byId[user].hashed
  {
    hide SessionTable.Exec;
  }

  /** After a successful reset for `user`, and until the next one, a login as `user`
      succeeds only with a password that verifies against the new hash. */
  lemma LoginNeedsNewPassword(cfg: Config, r: Run, i: nat, k: nat, user: UserId, email: string, password: string)
    requires ValidRun(cfg, r) && i < k <= |r.acts| && Changes(cfg, r, i, user)
    requires forall m | i < m < k :: !Changes(cfg, r, m, user)
    requires Authenticate(cfg, r.realms[k].users, email, password) == Ok(user)
    ensures cfg.verify(password, r.acts[i].hashed)
  {
    ResetSetsHash(cfg, r, i, user);
    HashIsKept(cfg, r, i + 1, k, user);
  }

  lemma ResetSetsHash(cfg: Config, r: Run, i: nat, user: UserId)
    requires ValidRun(cfg, r) && i < |r.acts| && Changes(cfg, r, i, user)
    ensures user in r.realms[i + 1].users.byId && r.realms[i + 1].users.byId[user].hashed == r.acts[i].hashed
  {
  }

  /** The user can log in again: a reset never locks an active account out. */
  lemma NewPasswordWorks(cfg: Config, r: Run, i: nat, user: UserId, email: string)
    requires ValidRun(cfg, r) && i < |r.acts| && Changes(cfg, r, i, user)
    requires user in r.realms[i].users.byId && r.realms[i].users.byId[user].active
    requires ParseEmail(cfg, email) == Some(r.realms[i].users.byId[user].email)
    ensures Authenticate(cfg, r.realms[i + 1].users, email, r.acts[i].password) == Ok(user)
  {
    RunKeepsInv(cfg, r, i);
    ResetSetsHash(cfg, r, i, user);
  }

  // ------------------------------------------------------------------------
  // When a request mails, a reset changes, and a login adds
  // ------------------------------------------------------------------------

  lemma RequestResetIff(cfg: Config, users: Users, rows: Rows, email: string, id: RowId, raw: string, now: int)
    ensures
      match RequestReset(cfg, users, rows, email, id, raw, now)
      case Ok((user, _)) => LeadsTo(cfg, users, email, user)
      case Err(_) => forall u :: !LeadsTo(cfg, users, email, u)
  {
  }

  /** A request for the address of a user mails the token to that user, as the latest;
      for any other address it does nothing. */
  lemma AskResetMailsIff(cfg: Config, r: Run, i: nat, user: UserId)
    requires ValidRun(cfg, r) && i < |r.acts| && r.acts[i].AskReset?
    ensures
      var w, w', raw := r.realms[i], r.realms[i + 1], r.acts[i].raw;
      && (LeadsTo(cfg, w.users, r.acts[i].email, user) <==>
            raw in w'.mailed && w'.mailed[raw] == Mail(user, w.sys.store.now + cfg.expireSeconds)
            && w'.latest == w.latest[user := raw])
      && ((forall u :: !LeadsTo(cfg, w.users, r.acts[i].email, u)) ==> w' == w)
  {
    RunKeepsInv(cfg, r, i);
    var w, a := r.realms[i], r.acts[i];
    var result := RequestReset(cfg, w.users, w.rows, a.email, a.row, a.raw, w.sys.store.now);
    RequestResetIff(cfg, w.users, w.rows, a.email, a.row, a.raw, w.sys.store.now);
    assert Possible(cfg, w, a);
    if result.Ok? {
      AskResetShows(cfg, w, a, result.value.0, result.value.1);
    }
    hide Inv;
    hide RequestReset;
  }

  /** At this moment the raw token is the latest emailed to `user`, has not expired, and
      has not changed a password. */
  predicate Usable(w: Realm, raw: string, user: UserId) {
    && user in w.latest && w.latest[user] == raw
    && raw in w.mailed && w.mailed[raw].user == user && w.sys.store.now < w.mailed[raw].expires
    && raw !in w.spent
  }

  lemma UsableIff(cfg: Config, w: Realm, raw: string, user: UserId)
    requires Collisionless(cfg) && RowsOk(cfg, w)
    ensures
      Usable(w, raw, user) <==>
      exists id :: Redeems(cfg, w.users, w.rows, raw, w.sys.store.now, id) && w.rows[id].user == user
  {
    if Usable(w, raw, user) {
      var id :| id in w.rows && w.rows[id].user == user;
      assert RowOk(cfg, w, w.rows[id]);
      assert Redeems(cfg, w.users, w.rows, raw, w.sys.store.now, id);
    }
    if id :| Redeems(cfg, w.users, w.rows, raw, w.sys.store.now, id) && w.rows[id].user == user {
      assert RowOk(cfg, w, w.rows[id]);
    }
  }

  lemma RedeemerIff(cfg: Config, w: Realm, a: Act, user: UserId)
    requires a.Reset? && UniqueDigests(w.rows)
    ensures
      ResetResult(cfg, w, a).Ok? && ResetResult(cfg, w, a).value.user == user <==>
      && cfg.strong(a.password)
      && exists id :: Redeems(cfg, w.users, w.rows, a.raw, w.sys.store.now, id) && w.rows[id].user == user
  {
    ResetPasswordIff(cfg, w.users, w.rows, a.raw, a.password, a.hashed, w.sys.store.now);
    hide ResetPassword;
    hide Redeemed;
    if ResetResult(cfg, w, a).Ok? {
      var id :| Redeems(cfg, w.users, w.rows, a.raw, w.sys.store.now, id);
      assert w.rows[id].user == ResetResult(cfg, w, a).value.user;
    }
  }

  /** A reset changes the password of `user` if and only if the new password is strong
      and the token is the latest emailed to that user, unexpired and unspent. */
  lemma ChangesIff(cfg: Config, r: Run, i: nat, user: UserId)
    requires ValidRun(cfg, r) && i < |r.acts| && r.acts[i].Reset?
    ensures Changes(cfg, r, i, user) <==> cfg.strong(r.acts[i].password) && Usable(r.realms[i], r.acts[i].raw, user)
  {
    hide Do;
    hide ResetResult;
    hide Usable;
    hide Redeems;
    RunKeepsInv(cfg, r, i);
    RowsHaveUniqueDigests(cfg, r.realms[i]);
    RedeemerIff(cfg, r.realms[i], r.acts[i], user);
    UsableIff(cfg, r.realms[i], r.acts[i].raw, user);
  }

  /** End to end: a reset with the token that the request before it has mailed, and a
      strong password, changes the password of the user with that address, and the user,
      if active, signs in with it. */
  lemma FreshTokenResets(cfg: Config, r: Run, i: nat, user: UserId)
    requires ValidRun(cfg, r) && i + 1 < |r.acts| && 0 < cfg.expireSeconds
    requires r.acts[i].AskReset? && LeadsTo(cfg, r.realms[i].users, r.acts[i].email, user)
    requires r.acts[i + 1].Reset? && r.acts[i + 1].raw == r.acts[i].raw && cfg.strong(r.acts[i + 1].password)
    ensures Changes(cfg, r, i + 1, user)
    ensures
      user in r.realms[i].users.byId && r.realms[i].users.byId[user].active ==>
        MaySignIn(cfg, r.realms[i + 2].users, r.acts[i].email, r.acts[i + 1].password, user)
  {
    RunKeepsInv(cfg, r, i);
    AskResetMailsIff(cfg, r, i, user);
    MailIsNotSpent(cfg, r, i);
    AskResetKeepsUsers(cfg, r, i);
    ChangesIff(cfg, r, i + 1, user);
    if user in r.realms[i].users.byId && r.realms[i].users.byId[user].active {
      AddressIsOwn(cfg, r.realms[i], r.acts[i].email, user);
      NewPasswordWorks(cfg, r, i + 1, user, r.acts[i].email);
      AuthenticateIff(cfg, r.realms[i + 2].users, r.acts[i].email, r.acts[i + 1].password, user);
    }
  }

  lemma AddressIsOwn(cfg: Config, w: Realm, email: string, user: UserId)
    requires Inv(cfg, w) && LeadsTo(cfg, w.users, email, user) && user in w.users.byId
    ensures ParseEmail(cfg, email) == Some(w.users.byId[user].email)
  {
  }

  lemma AskResetKeepsUsers(cfg: Config, r: Run, i: nat)
    requires ValidRun(cfg, r) && i < |r.acts| && r.acts[i].AskReset?
    ensures r.realms[i + 1].users == r.realms[i].users && r.realms[i + 1].sys == r.realms[i].sys
  {
  }

  lemma MailIsNotSpent(cfg: Config, r: Run, i: nat)
    requires ValidRun(cfg, r) && i < |r.acts| && r.acts[i].AskReset?
    ensures r.acts[i].raw !in r.realms[i + 1].spent
  {
    RunKeepsInv(cfg, r, i);
    hide SessionTable.Sound;
  }

  /** A sign-in changes something exactly when the address is of an existing, active
      user whose hash accepts the password, and then logs in that user. */
  lemma SignInIff(cfg: Config, r: Run, i: nat, user: UserId)
    requires ValidRun(cfg, r) && i < |r.acts| && r.acts[i].SignIn?
    ensures
      var w, a := r.realms[i], r.acts[i];
      && (MaySignIn(cfg, w.users, a.email, a.password, user) ==>
            r.realms[i + 1] ==
            w.(sys := SessionTable.Exec(cfg.ttl, w.sys, SessionTable.Login(user, a.session, a.jti, a.token))))
      && ((forall u :: !MaySignIn(cfg, w.users, a.email, a.password, u)) ==> r.realms[i + 1] == w)
  {
    hide SessionTable.Exec;
    var w, a := r.realms[i], r.acts[i];
    forall u { AuthenticateIff(cfg, w.users, a.email, a.password, u); }
  }

  // ------------------------------------------------------------------------
  // Deactivated users
  // ------------------------------------------------------------------------

  predicate Inactive(w: Realm, user: UserId) {
    user in w.users.byId && !w.users.byId[user].active
  }

  lemma InactiveStep(cfg: Config, w: Realm, a: Act, user: UserId)
    requires Possible(cfg, w, a) && Inactive(w, user)
    ensures Inactive(Do(cfg, w, a), user)
  {
    hide SessionTable.Exec;
  }

  /** The sessions that the store has for `user`. */
  function SessionsOf(sys: SessionTable.System, user: UserId): set<SessionId> {
    set s | s in sys.store.sessions && sys.store.sessions[s].user == Some(user)
  }

  lemma ExecAddsNoSession(ttl: Ttl, sys: SessionTable.System, op: SessionTable.Op, user: UserId)
    requires op.Login? ==> op.user != user
    ensures SessionsOf(SessionTable.Exec(ttl, sys, op), user) <= SessionsOf(sys, user)
  {
  }

  lemma NoSignInAddsNoSession(cfg: Config, w: Realm, a: Act, user: UserId)
    requires Possible(cfg, w, a) && Inactive(w, user)
    ensures SessionsOf(Do(cfg, w, a).sys, user) <= SessionsOf(w.sys, user)
  {
    hide SessionTable.Exec;
    hide SessionsOf;
    match a
    case SignIn(email, password, s, j, t) =>
      AuthenticateIff(cfg, w.users, email, password, user);
      var id := Authenticate(cfg, w.users, email, password);
      if id.Ok? { ExecAddsNoSession(cfg.ttl, w.sys, SessionTable.Login(id.value, s, j, t), user); }
    case Reset(_, _, _) =>
      var done := ResetResult(cfg, w, a);
      if done.Ok? { ExecAddsNoSession(cfg.ttl, w.sys, SessionTable.LogoutAll(done.value.user), user); }
    case Session(op) => ExecAddsNoSession(cfg.ttl, w.sys, op, user);
    case _ =>
  }

  /** Once a user is inactive, no act of any run gives them another session, and me
      answers None for them whatever jti is presented. */
  lemma {:induction false} InactiveGetsNoSession(cfg: Config, r: Run, i: nat, k: nat, user: UserId)
    requires ValidRun(cfg, r) && i <= k <= |r.acts| && Inactive(r.realms[i], user)
    ensures Inactive(r.realms[k], user) && SessionsOf(r.realms[k].sys, user) <= SessionsOf(r.realms[i].sys, user)
    ensures forall jti :: Me(Some(TokenStore.Bearer(user, jti)), r.realms[k].sys.store, r.realms[k].users) == None
    decreases k
  {
    hide Do;
    hide SessionsOf;
    if i < k {
      InactiveGetsNoSession(cfg, r, i, k - 1, user);
      InactiveStep(cfg, r.realms[k - 1], r.acts[k - 1], user);
      NoSignInAddsNoSession(cfg, r.realms[k - 1], r.acts[k - 1], user);
    }
  }
}
