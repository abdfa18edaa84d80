/** Users, password-reset tokens and the handlers that change them, as tables and as
    classes over them. */
module Accounts {
  import opened Wrappers
  import opened SessionStore
  import SessionTable
  import Emails
  import TokenStore

  type RowId = string
  type Email = string
  type Digest = string

  datatype User = User(email: Email, hashed: string, active: bool)

  /** The users table, with its unique index on email. */
  datatype Users = Users(byId: map<UserId, User>, byEmail: map<Email, UserId>)

  /** A row of password_reset_tokens. */
  datatype Row = Row(user: UserId, digest: Digest, expires: int, used: bool)

  type Rows = map<RowId, Row>

  datatype Failure =
    | InvalidEmail | WeakPassword | UserNotFound | UserAlreadyExists | InvalidCredentials
    | TokenNotFound | TokenExpired | TokenAlreadyUsed

  /** Library code and configuration: the email pattern, the password rules,
      SHA-256, bcrypt's check, and the lifetimes. */
  datatype Config = Config(
    isEmail: string -> bool,
    strong: string -> bool,
    sha: string -> Digest,
    verify: (string, string) -> bool,
    expireSeconds: int,
    ttl: Ttl)

  function ParseEmail(cfg: Config, raw: string): Option<Email> {
    var value := Emails.Normalise(raw);
    if cfg.isEmail(value) then Some(value) else None
  }

  function FindByEmail(users: Users, email: Email): Option<UserId> {
    if email in users.byEmail then Some(users.byEmail[email]) else None
  }

  /** An existing user's old address no longer leads to them. */
  function SaveUser(users: Users, id: UserId, user: User): Users {
    var former := if id in users.byId then {users.byId[id].email} else {};
    Users(users.byId[id := user], (users.byEmail - former)[user.email := id])
  }

  /** The unique index on email agrees with the rows. */
  ghost predicate UsersOk(users: Users) {
    && (forall e | e in users.byEmail :: users.byEmail[e] in users.byId && users.byId[users.byEmail[e]].email == e)
    && (forall u | u in users.byId :: users.byId[u].email in users.byEmail && users.byEmail[users.byId[u].email] == u)
  }

  /** Saving a user keeps the index exactly when no other user has the address. Then
      the user is found by that address, no longer by an old one, and everyone else as
      before. */
  lemma SaveKeepsIndexIff(users: Users, id: UserId, user: User)
    requires UsersOk(users)
    ensures
      UsersOk(SaveUser(users, id, user)) <==>
      FindByEmail(users, user.email) in {None, Some(id)}
    ensures
      UsersOk(SaveUser(users, id, user)) ==>
        forall e :: FindByEmail(SaveUser(users, id, user), e) ==
                    if e == user.email then Some(id)
                    else if FindByEmail(users, e) == Some(id) then None
                    else FindByEmail(users, e)
  {
    var users' := SaveUser(users, id, user);
    if user.email in users.byEmail && users.byEmail[user.email] != id {
      var other := users.byEmail[user.email];
      assert users'.byId[other].email == user.email && users'.byEmail[user.email] == id;
    }
  }

  // ------------------------------------------------------------------------
  // password_reset_tokens
  // ------------------------------------------------------------------------

  function DeleteAllByUser(rows: Rows, user: UserId): Rows {
    map id | id in rows && rows[id].user != user :: rows[id]
  }

  /** save: an existing row keeps its user. */
  function SaveRow(rows: Rows, id: RowId, row: Row): Rows {
    rows[id := if id in rows then row.(user := rows[id].user) else row]
  }

  ghost predicate OneRowPerUser(rows: Rows) {
    forall a, b | a in rows && b in rows && rows[a].user == rows[b].user :: a == b
  }

  ghost predicate HasRow(rows: Rows, user: UserId) {
    exists id :: id in rows && rows[id].user == user
  }

  ghost predicate UniqueDigests(rows: Rows) {
    forall a, b | a in rows && b in rows && rows[a].digest == rows[b].digest :: a == b
  }

  /** scalar_one_or_none. */
  ghost function FindByDigest(rows: Rows, digest: Digest): Option<RowId> {
    if exists id :: id in rows && rows[id].digest == digest then
      var id :| id in rows && rows[id].digest == digest;
      Some(id)
    else None
  }

  /** Inserting a token keeps one row per user exactly when the user's rows have
      been deleted before: the request handler's order is needed, and two requests
      for one user must not overlap. */
  lemma InsertKeepsOneRowIff(rows: Rows, id: RowId, row: Row)
    requires OneRowPerUser(rows) && id !in rows
    ensures OneRowPerUser(SaveRow(rows, id, row)) <==> DeleteAllByUser(rows, row.user) == rows
  {
    var rows' := SaveRow(rows, id, row);
    if OneRowPerUser(rows') {
      forall a | a in rows ensures rows[a].user != row.user {
        assert a in rows' && id in rows' && rows'[a] == rows[a] && rows'[id] == row;
      }
    } else {
      var a, b :| a in rows' && b in rows' && rows'[a].user == rows'[b].user && a != b;
      var other := if a == id then b else a;
      assert other in rows && rows[other].user == row.user;
      assert other !in DeleteAllByUser(rows, row.user);
    }
  }

  // ------------------------------------------------------------------------
  // What each handler does
  // ------------------------------------------------------------------------

  function Register(cfg: Config, users: Users, email: string, password: string, id: UserId, hashed: string)
    : Result<Users, Failure>
  {
    match ParseEmail(cfg, email)
    case None => Err(InvalidEmail)
    case Some(value) =>
      if !cfg.strong(password) then Err(WeakPassword)
      else if FindByEmail(users, value).Some? then Err(UserAlreadyExists)
      else Ok(SaveUser(users, id, User(value, hashed, true)))
  }

  function Authenticate(cfg: Config, users: Users, email: string, password: string): Result<UserId, Failure> {
    match ParseEmail(cfg, email)
    case None => Err(InvalidEmail)
    case Some(value) =>
      match FindByEmail(users, value)
      case None => Err(InvalidCredentials)
      case Some(id) =>
        if id !in users.byId || !users.byId[id].active then Err(InvalidCredentials)
        else if !cfg.verify(password, users.byId[id].hashed) then Err(InvalidCredentials)
        else Ok(id)
  }

  function RequestReset(cfg: Config, users: Users, rows: Rows, email: string, id: RowId, raw: string, now: int)
    : Result<(UserId, Rows), Failure>
  {
    match ParseEmail(cfg, email)
    case None => Err(InvalidEmail)
    case Some(value) =>
      match FindByEmail(users, value)
      case None => Err(UserNotFound)
      case Some(user) =>
        var row := Row(user, cfg.sha(raw), now + cfg.expireSeconds, false);
        Ok((user, SaveRow(DeleteAllByUser(rows, user), id, row)))
  }

  /** deactivate() and save, for a user that exists. */
  function DeactivateUser(users: Users, id: UserId): Users {
    if id in users.byId then SaveUser(users, id, users.byId[id].(active := false)) else users
  }

  lemma DeactivateChangesOnlyFlag(users: Users, id: UserId)
    requires UsersOk(users)
    ensures
      var users' := DeactivateUser(users, id);
      && UsersOk(users') && users'.byId.Keys == users.byId.Keys && users'.byEmail == users.byEmail
      && (forall u | u in users.byId ::
            users'.byId[u] == if u == id then users.byId[u].(active := false) else users.byId[u])
  {
  }

  /** consume(): expiry is checked first, then single use. */
  function ConsumeFailure(expires: int, used: bool, now: int): Option<Failure> {
    if now >= expires then Some(TokenExpired)
    else if used then Some(TokenAlreadyUsed)
    else None
  }

  datatype Changed = Changed(user: UserId, users: Users, rows: Rows)

  ghost function ResetPassword(cfg: Config, users: Users, rows: Rows, raw: string, password: string, hashed: string,
                               now: int)
    : Result<Changed, Failure>
  {
    if !cfg.strong(password) then Err(WeakPassword)
    else
      match FindByDigest(rows, cfg.sha(raw))
      case None => Err(TokenNotFound)
      case Some(id) =>
        var row := rows[id];
        var failure := ConsumeFailure(row.expires, row.used, now);
        if failure.Some? then Err(failure.value)
        else if row.user !in users.byId then Err(UserNotFound)
        else
          var user := users.byId[row.user].(hashed := hashed);
          Ok(Changed(row.user, SaveUser(users, row.user, user), SaveRow(rows, id, row.(used := true))))
  }

  /** The me query: the JWT has been decoded to `bearer`, if it is valid. */
  function Me(bearer: Option<TokenStore.Bearer>, st: Store, users: Users): Option<User> {
    if bearer.None? || bearer.value.jti !in st.access then None
    else if bearer.value.sub !in users.byId || !users.byId[bearer.value.sub].active then None
    else Some(users.byId[bearer.value.sub])
  }

  // ------------------------------------------------------------------------
  // When each of them succeeds
  // ------------------------------------------------------------------------

  /** A valid address, in its normal form, leads to `id`. */
  predicate LeadsTo(cfg: Config, users: Users, email: string, id: UserId) {
    var value := Emails.Normalise(email);
    cfg.isEmail(value) && value in users.byEmail && users.byEmail[value] == id
  }

  /** The address is of an existing, active user whose hash accepts the password. */
  predicate MaySignIn(cfg: Config, users: Users, email: string, password: string, id: UserId) {
    && LeadsTo(cfg, users, email, id)
    && id in users.byId && users.byId[id].active && cfg.verify(password, users.byId[id].hashed)
  }

  lemma AuthenticateIff(cfg: Config, users: Users, email: string, password: string, id: UserId)
    ensures Authenticate(cfg, users, email, password) == Ok(id) <==> MaySignIn(cfg, users, email, password, id)
    ensures Authenticate(cfg, users, email, password) == Err(InvalidEmail) <==> !cfg.isEmail(Emails.Normalise(email))
  {
  }

  /** Registration succeeds exactly for a valid address that nobody has and a strong
      password; the new user is active, and signs in with a password that the hash
      accepts. */
  lemma RegisterIff(cfg: Config, users: Users, email: string, password: string, id: UserId, hashed: string)
    ensures
      var value := Emails.Normalise(email);
      var result := Register(cfg, users, email, password, id, hashed);
      && (result.Ok? <==> cfg.isEmail(value) && value !in users.byEmail && cfg.strong(password))
      && (result == Err(UserAlreadyExists) <==> cfg.isEmail(value) && cfg.strong(password) && value in users.byEmail)
      && (result.Ok? ==>
            && id in result.value.byId && result.value.byId[id] == User(value, hashed, true)
            && (cfg.verify(password, hashed) ==> MaySignIn(cfg, result.value, email, password, id)))
  {
  }

  /** The row that a raw token leads to, if it can still be used at `now`. */
  predicate Redeems(cfg: Config, users: Users, rows: Rows, raw: string, now: int, id: RowId) {
    && id in rows && rows[id].digest == cfg.sha(raw)
    && now < rows[id].expires && !rows[id].used && rows[id].user in users.byId
  }

  /** The users and the rows after the row `id` has been redeemed for `hashed`: one
      hash and one flag have changed. */
  ghost predicate Redeemed(users: Users, users': Users, rows: Rows, rows': Rows, id: RowId, hashed: string)
    requires id in rows
  {
    && users'.byId.Keys == users.byId.Keys && rows'.Keys == rows.Keys
    && (forall u | u in users.byId ::
          users'.byId[u] == if u == rows[id].user then users.byId[u].(hashed := hashed) else users.byId[u])
    && (forall r | r in rows :: rows'[r] == if r == id then rows[r].(used := true) else rows[r])
  }

  lemma FoundByDigest(rows: Rows, digest: Digest, id: RowId)
    requires UniqueDigests(rows) && id in rows && rows[id].digest == digest
    ensures FindByDigest(rows, digest) == Some(id)
  {
  }

  lemma ResetPasswordIff(cfg: Config, users: Users, rows: Rows, raw: string, password: string, hashed: string, now: int)
    requires UniqueDigests(rows)
    ensures
      ResetPassword(cfg, users, rows, raw, password, hashed, now) == Err(WeakPassword) <==> !cfg.strong(password)
    ensures
      ResetPassword(cfg, users, rows, raw, password, hashed, now) == Err(TokenNotFound) <==>
      cfg.strong(password) && forall id | id in rows :: rows[id].digest != cfg.sha(raw)
    ensures
      ResetPassword(cfg, users, rows, raw, password, hashed, now).Ok? <==>
      cfg.strong(password) && exists id :: Redeems(cfg, users, rows, raw, now, id)
    ensures
      var result := ResetPassword(cfg, users, rows, raw, password, hashed, now);
      forall id | result.Ok? && Redeems(cfg, users, rows, raw, now, id) ::
        result.value.user == rows[id].user
        && Redeemed(users, result.value.users, rows, result.value.rows, id, hashed)
  {
    if id :| id in rows && rows[id].digest == cfg.sha(raw) {
      FoundByDigest(rows, cfg.sha(raw), id);
      forall other | Redeems(cfg, users, rows, raw, now, other) ensures other == id {
        FoundByDigest(rows, cfg.sha(raw), other);
      }
      assert cfg.strong(password) && ResetPassword(cfg, users, rows, raw, password, hashed, now).Ok? ==>
             Redeems(cfg, users, rows, raw, now, id);
    }
  }

  /** The me query answers a user exactly for a jti on the allowlist and an existing,
      active user. */
  lemma MeIff(bearer: Option<TokenStore.Bearer>, st: Store, users: Users, user: User)
    ensures
      Me(bearer, st, users) == Some(user) <==>
      && bearer.Some? && bearer.value.jti in st.access
      && bearer.value.sub in users.byId && users.byId[bearer.value.sub] == user && user.active
  {
  }

  // ------------------------------------------------------------------------
  // The classes
  // ------------------------------------------------------------------------

  class PasswordResetToken {
    const id: RowId
    const userId: UserId
    const token: Digest
    const expiresAt: int
    var used: bool

    constructor (id: RowId, userId: UserId, token: Digest, expiresAt: int, used: bool)
      ensures this.id == id && this.userId == userId && this.token == token
      ensures this.expiresAt == expiresAt && this.used == used
    {
      this.id, this.userId, this.token, this.expiresAt, this.used := id, userId, token, expiresAt, used;
    }

    /** An expired token reports its expiry, even when it has been used. A token can
        be consumed once, and only strictly before it expires. */
    method Consume(now: int) returns (failure: Option<Failure>)
      modifies this`used
      ensures failure == ConsumeFailure(expiresAt, old(used), now)
      ensures failure.None? <==> now < expiresAt && !old(used)
      ensures failure == Some(TokenExpired) <==> expiresAt <= now
      ensures failure == Some(TokenAlreadyUsed) <==> now < expiresAt && old(used)
      ensures used <==> old(used) || failure.None?
    {
      if now >= expiresAt {
        return Some(TokenExpired);
      }
      if used {
        return Some(TokenAlreadyUsed);
      }
      used := true;
      failure := None;
    }
  }

  class SqlResetTokenRepository {
    var rows: Rows

    constructor ()
      ensures rows == map[]
    {
      rows := map[];
    }

    method Save(token: PasswordResetToken)
      modifies this
      ensures rows == SaveRow(old(rows), token.id, Row(token.userId, token.token, token.expiresAt, token.used))
    {
      if token.id in rows {
        var existing := rows[token.id];
        rows := rows[token.id := existing.(digest := token.token, expires := token.expiresAt, used := token.used)];
      } else {
        rows := rows[token.id := Row(token.userId, token.token, token.expiresAt, token.used)];
      }
    }

    method FindByToken(digest: Digest) returns (token: PasswordResetToken?)
      requires UniqueDigests(rows)
      ensures token == null <==> FindByDigest(rows, digest).None?
      ensures token != null ==>
                && fresh(token) && FindByDigest(rows, digest) == Some(token.id) && token.id in rows
                && rows[token.id] == Row(token.userId, token.token, token.expiresAt, token.used)
    {
      if id :| id in rows && rows[id].digest == digest {
        var row := rows[id];
        token := new PasswordResetToken(id, row.user, row.digest, row.expires, row.used);
      } else {
        token := null;
      }
    }

    method DeleteAllByUserId(user: UserId)
      modifies this
      ensures rows == DeleteAllByUser(old(rows), user)
    {
      rows := map id | id in rows && rows[id].user != user :: rows[id];
    }
  }

  class SqlUserRepository {
    var users: Users

    constructor ()
      ensures users == Users(map[], map[])
    {
      users := Users(map[], map[]);
    }

    method Save(id: UserId, user: User)
      modifies this
      ensures users == SaveUser(old(users), id, user)
    {
      var byEmail := users.byEmail;
      if id in users.byId {
        byEmail := byEmail - {users.byId[id].email};
      }
      users := Users(users.byId[id := user], byEmail[user.email := id]);
    }
  }

  class RequestPasswordResetHandler {
    const cfg: Config
    const userRepo: SqlUserRepository
    const tokenRepo: SqlResetTokenRepository

    constructor (cfg: Config, userRepo: SqlUserRepository, tokenRepo: SqlResetTokenRepository)
      ensures this.userRepo == userRepo && this.tokenRepo == tokenRepo
    {
      this.cfg, this.userRepo, this.tokenRepo := cfg, userRepo, tokenRepo;
    }

    /** `id` and `raw` are generated; `raw` is what the email carries. If no user has
        two rows before, none has after. */
    method Handle(email: string, id: RowId, raw: string, now: int) returns (mailed: Result<UserId, Failure>)
      requires id !in tokenRepo.rows
      modifies tokenRepo
      ensures
        match RequestReset(cfg, userRepo.users, old(tokenRepo.rows), email, id, raw, now)
        case Ok((user, rows)) => mailed == Ok(user) && tokenRepo.rows == rows
        case Err(e) => mailed == Err(e) && tokenRepo.rows == old(tokenRepo.rows)
      ensures OneRowPerUser(old(tokenRepo.rows)) ==> OneRowPerUser(tokenRepo.rows)
      ensures forall user :: mailed == Ok(user) <==> LeadsTo(cfg, userRepo.users, email, user)
      ensures mailed == Err(InvalidEmail) <==> !cfg.isEmail(Emails.Normalise(email))
      ensures mailed == Err(UserNotFound) <==>
                cfg.isEmail(Emails.Normalise(email)) && Emails.Normalise(email) !in userRepo.users.byEmail
      ensures mailed.Ok? ==>
                && id in tokenRepo.rows
                && tokenRepo.rows[id] == Row(mailed.value, cfg.sha(raw), now + cfg.expireSeconds, false)
      ensures mailed.Ok? ==>
                forall other | other != id ::
                  (other in tokenRepo.rows <==>
                     other in old(tokenRepo.rows) && old(tokenRepo.rows)[other].user != mailed.value)
                  && (other in tokenRepo.rows ==> tokenRepo.rows[other] == old(tokenRepo.rows)[other])
    {
      var value := ParseEmail(cfg, email);
      if value.None? {
        return Err(InvalidEmail);
      }
      var user := FindByEmail(userRepo.users, value.value);
      if user.None? {
        return Err(UserNotFound);
      }
      tokenRepo.DeleteAllByUserId(user.value);
      ghost var deleted := tokenRepo.rows;
      assert OneRowPerUser(old(tokenRepo.rows)) ==> OneRowPerUser(deleted);
      var token := new PasswordResetToken(id, user.value, cfg.sha(raw), now + cfg.expireSeconds, false);
      tokenRepo.Save(token);
      assert DeleteAllByUser(deleted, user.value) == deleted;
      if OneRowPerUser(deleted) { InsertKeepsOneRowIff(deleted, id, tokenRepo.rows[id]); }
      mailed := Ok(user.value);
    }
  }

  class ResetPasswordHandler {
    const cfg: Config
    const userRepo: SqlUserRepository
    const tokenRepo: SqlResetTokenRepository
    const store: TokenStore.RedisTokenStore

    constructor (cfg: Config, userRepo: SqlUserRepository, tokenRepo: SqlResetTokenRepository,
                 store: TokenStore.RedisTokenStore)
      ensures this.userRepo == userRepo && this.tokenRepo == tokenRepo && this.store == store
    {
      this.cfg, this.userRepo, this.tokenRepo, this.store := cfg, userRepo, tokenRepo, store;
    }

    /** `hashed` is what the hasher makes of the new password. A failed reset changes
        nothing; a successful one also revokes all of the user's sessions. */
    method Handle(raw: string, password: string, hashed: string, now: int) returns (failure: Option<Failure>)
      requires UniqueDigests(tokenRepo.rows)
      modifies userRepo, tokenRepo, store
      ensures
        match ResetPassword(cfg, old(userRepo.users), old(tokenRepo.rows), raw, password, hashed, now)
        case Ok(done) =>
          && failure.None? && userRepo.users == done.users && tokenRepo.rows == done.rows
          && store.Contents() == SessionTable.RevokeAll(old(store.Contents()), done.user)
        case Err(e) =>
          && failure == Some(e) && userRepo.users == old(userRepo.users) && tokenRepo.rows == old(tokenRepo.rows)
          && store.Contents() == old(store.Contents())
      ensures failure == Some(WeakPassword) <==> !cfg.strong(password)
      ensures
        failure.None? <==>
        && cfg.strong(password)
        && exists row :: Redeems(cfg, old(userRepo.users), old(tokenRepo.rows), raw, now, row)
      ensures
        forall row | failure.None? && Redeems(cfg, old(userRepo.users), old(tokenRepo.rows), raw, now, row) ::
          Redeemed(old(userRepo.users), userRepo.users, old(tokenRepo.rows), tokenRepo.rows, row, hashed)
    {
      hide SessionTable.RevokeAll;
      ResetPasswordIff(cfg, userRepo.users, tokenRepo.rows, raw, password, hashed, now);
      if !cfg.strong(password) {
        return Some(WeakPassword);
      }
      var token := tokenRepo.FindByToken(cfg.sha(raw));
      if token == null {
        return Some(TokenNotFound);
      }
      failure := token.Consume(now);
      if failure.Some? {
        return;
      }
      if token.userId !in userRepo.users.byId {
        return Some(UserNotFound);
      }
      var user := userRepo.users.byId[token.userId].(hashed := hashed);
      userRepo.Save(token.userId, user);
      tokenRepo.Save(token);
      store.RevokeAllUserSessions(token.userId);
    }
  }

  class AuthenticateUserHandler {
    const cfg: Config
    const userRepo: SqlUserRepository
    const store: TokenStore.RedisTokenStore

    constructor (cfg: Config, userRepo: SqlUserRepository, store: TokenStore.RedisTokenStore)
      ensures this.userRepo == userRepo && this.store == store
    {
      this.cfg, this.userRepo, this.store := cfg, userRepo, store;
    }

    /** `session`, `jti` and `token` are generated. */
    method Handle(email: string, password: string, session: SessionId, jti: Jti, token: RefreshToken)
      returns (user: Result<UserId, Failure>)
      requires ValidTtl(cfg.ttl)
      modifies store
      ensures user == Authenticate(cfg, userRepo.users, email, password)
      ensures
        store.Contents() ==
        if user.Ok? then Create(cfg.ttl, old(store.Contents()), session, user.value, jti, token)
        else old(store.Contents())
      ensures forall id :: user == Ok(id) <==> MaySignIn(cfg, userRepo.users, email, password, id)
      ensures user == Err(InvalidEmail) <==> !cfg.isEmail(Emails.Normalise(email))
    {
      forall id { AuthenticateIff(cfg, userRepo.users, email, password, id); }
      var value := ParseEmail(cfg, email);
      if value.None? {
        return Err(InvalidEmail);
      }
      var id := FindByEmail(userRepo.users, value.value);
      if id.None? || id.value !in userRepo.users.byId {
        return Err(InvalidCredentials);
      }
      var found := userRepo.users.byId[id.value];
      if !found.active {
        return Err(InvalidCredentials);
      }
      if !cfg.verify(password, found.hashed) {
        return Err(InvalidCredentials);
      }
      store.CreateSession(session, id.value, jti, token, cfg.ttl);
      user := Ok(id.value);
    }
  }
}
