/** Session handlers as interleaved Redis round trips.

    Each in-flight handler is a process: its program counter with the values it
    has read or generated. One event is one round trip (GETDEL, HGETALL,
    SMEMBERS, DEL, one MULTI transaction), the passing of time, or the death of
    a handler. Any number of handlers run at once, in any order.

    `lineage`, `jtiOf`, `tokenOf`, `claims`, `tokens` and `sids` only record what
    has happened: no event's effect on the store depends on them, except that
    generated identifiers are new. */
module Interleaving {
  import opened Wrappers
  import opened SessionStore

  datatype Process =
    // login: identifiers generated, create_session not yet sent
    | LoginReady(user: UserId, session: SessionId, jti: Jti, token: RefreshToken)
    // refresh: GETDEL returned a session, new identifiers generated
    | Consumed(session: SessionId, spent: RefreshToken, jti: Jti, token: RefreshToken)
    // refresh: HGETALL returned a user and a jti, transaction not yet sent
    | RotateReady(session: SessionId, user: UserId, oldJti: Option<Jti>, spent: RefreshToken,
                  jti: Jti, token: RefreshToken)
    // revoke: HGETALL returned a hash, transaction not yet sent
    | RevokeReady(session: SessionId, read: Hash)
    // revoke all: SMEMBERS returned, set not yet deleted
    | Snapshot(user: UserId, todo: set<SessionId>)
    // revoke all: set deleted, sessions still to be revoked
    | Sweeping(user: UserId, todo: set<SessionId>)
    // revoke all: HGETALL of one session returned a hash
    | SweepReady(user: UserId, todo: set<SessionId>, session: SessionId, read: Hash)

  /** One (jti, refresh token) pair written by a transaction at time `at`. */
  datatype Issue = Issue(jti: Jti, token: RefreshToken, at: int)

  /** The pairs ever written for a session, oldest first, and who logged in. */
  datatype Lineage = Lineage(user: UserId, past: seq<Issue>, last: Issue)

  /** The claims of a JWT that the code reads back, and its expiry. */
  datatype Claims = Claims(sub: UserId, sid: SessionId, exp: int)

  datatype World = World(
    store: Store,
    procs: map<nat, Process>,
    lineage: map<SessionId, Lineage>,
    jtiOf: map<Jti, SessionId>,             // jtis that a transaction has written
    tokenOf: map<RefreshToken, SessionId>,  // refresh tokens that a transaction has written
    claims: map<Jti, Claims>,               // generated jtis, each with its JWT's claims
    tokens: set<RefreshToken>,              // generated refresh tokens
    sids: set<SessionId>)                   // generated session ids

  const Start := World(EmptyStore, map[], map[], map[], map[], map[], {}, {})

  datatype Event =
    | Tick(seconds: nat)
    | LoginMint(pid: nat, user: UserId, session: SessionId, jti: Jti, token: RefreshToken)
    | LoginCommit(pid: nat)
    | Consume(pid: nat, spent: RefreshToken, jti: Jti, token: RefreshToken)
    | RotateRead(pid: nat)
    | RotateCommit(pid: nat)
    | RevokeRead(pid: nat, session: SessionId)
    | RevokeCommit(pid: nat)
    | SweepMembers(pid: nat, user: UserId)
    | SweepDrop(pid: nat)
    | SweepRead(pid: nat, session: SessionId)
    | SweepCommit(pid: nat)
    | Exit(pid: nat)

  predicate NewPair(w: World, jti: Jti, token: RefreshToken) {
    jti !in w.claims && token !in w.tokens
  }

  predicate Enabled(w: World, e: Event) {
    match e
    case Tick(_) => true
    case LoginMint(p, _, s, j, t) => p !in w.procs && s !in w.sids && NewPair(w, j, t)
    case LoginCommit(p) => p in w.procs && w.procs[p].LoginReady?
    case Consume(p, _, j, t) => p !in w.procs && NewPair(w, j, t)
    case RotateRead(p) => p in w.procs && w.procs[p].Consumed?
    case RotateCommit(p) => p in w.procs && w.procs[p].RotateReady?
    case RevokeRead(p, _) => p !in w.procs
    case RevokeCommit(p) => p in w.procs && w.procs[p].RevokeReady?
    case SweepMembers(p, _) => p !in w.procs
    case SweepDrop(p) => p in w.procs && w.procs[p].Snapshot?
    case SweepRead(p, s) => p in w.procs && w.procs[p].Sweeping? && s in w.procs[p].todo
    case SweepCommit(p) => p in w.procs && w.procs[p].SweepReady?
    case Exit(p) => p in w.procs
  }

  /** A handler that stops, with its answer or with an exception, leaves the
      store as it is. */
  function Stop(w: World, pid: nat): World {
    w.(procs := w.procs - {pid})
  }

  /** generate_access_token and generate_refresh_token. */
  function Mint(ttl: Ttl, w: World, sub: UserId, sid: SessionId, jti: Jti, token: RefreshToken): World {
    w.(claims := w.claims[jti := Claims(sub, sid, w.store.now + ttl.access)], tokens := w.tokens + {token})
  }

  /** The token is read and deleted at once; the caller then generates a new pair. */
  function AfterGetDel(ttl: Ttl, w: World, spent: RefreshToken, jti: Jti, token: RefreshToken): World
    requires spent in w.store.refresh
  {
    var g := w.store.refresh[spent];
    Mint(ttl, w.(store := GetDel(w.store, spent)), g.user, g.session, jti, token)
  }

  function Record(w: World, session: SessionId, line: Lineage): World {
    w.(lineage := w.lineage[session := line],
       jtiOf := w.jtiOf[line.last.jti := session],
       tokenOf := w.tokenOf[line.last.token := session])
  }

  function Apply(ttl: Ttl, w: World, e: Event): World
    requires Enabled(w, e)
  {
    match e
    case Tick(d) => w.(store := Advance(w.store, d))
    case LoginMint(p, u, s, j, t) =>
      Mint(ttl, w, u, s, j, t).(procs := w.procs[p := LoginReady(u, s, j, t)], sids := w.sids + {s})
    case LoginCommit(p) =>
      var LoginReady(u, s, j, t) := w.procs[p];
      Record(Stop(w, p), s, Lineage(u, [], Issue(j, t, w.store.now)))
        .(store := Create(ttl, w.store, s, u, j, t))
    case Consume(p, spent, j, t) =>
      if spent !in w.store.refresh then w
      else
        var me := Consumed(w.store.refresh[spent].session, spent, j, t);
        var w' := AfterGetDel(ttl, w, spent, j, t);
        w'.(procs := w'.procs[p := me])
    case RotateRead(p) =>
      var Consumed(s, spent, j, t) := w.procs[p];
      if s !in w.store.sessions || w.store.sessions[s].user.None? then Stop(w, p)
      else
        var h := w.store.sessions[s];
        w.(procs := w.procs[p := RotateReady(s, h.user.value, h.jti, spent, j, t)])
    case RotateCommit(p) =>
      var RotateReady(s, u, oldJti, spent, j, t) := w.procs[p];
      var line :=
        if s in w.lineage
        then Lineage(w.lineage[s].user, w.lineage[s].past + [w.lineage[s].last], Issue(j, t, w.store.now))
        else Lineage(u, [], Issue(j, t, w.store.now));
      Record(Stop(w, p), s, line).(store := Rotate(ttl, w.store, s, u, oldJti, spent, j, t))
    case RevokeRead(p, s) =>
      if s !in w.store.sessions then w
      else w.(procs := w.procs[p := RevokeReady(s, w.store.sessions[s])])
    case RevokeCommit(p) =>
      Stop(w, p).(store := Revoke(w.store, w.procs[p].session, w.procs[p].read))
    case SweepMembers(p, u) =>
      w.(procs := w.procs[p := Snapshot(u, MembersOf(w.store.index, u))])
    case SweepDrop(p) =>
      var Snapshot(u, todo) := w.procs[p];
      w.(procs := w.procs[p := Sweeping(u, todo)]).(store := DropIndex(w.store, u))
    case SweepRead(p, s) =>
      var Sweeping(u, todo) := w.procs[p];
      var next :=
        if s in w.store.sessions then SweepReady(u, todo - {s}, s, w.store.sessions[s])
        else Sweeping(u, todo - {s});
      w.(procs := w.procs[p := next])
    case SweepCommit(p) =>
      var SweepReady(u, todo, s, read) := w.procs[p];
      w.(procs := w.procs[p := Sweeping(u, todo)]).(store := Revoke(w.store, s, read))
    case Exit(p) => Stop(w, p)
  }

  // ------------------------------------------------------------------------
  // The invariant
  // ------------------------------------------------------------------------

  /** The session whose refresh token the process has consumed. */
  function Flight(p: Process): Option<SessionId> {
    if p.Consumed? || p.RotateReady? then Some(p.session) else None
  }

  predicate Minting(p: Process) {
    p.LoginReady? || p.Consumed? || p.RotateReady?
  }

  ghost predicate AccessOk(ttl: Ttl, w: World, j: Jti, g: Grant) {
    && g.session in w.lineage
    && var line := w.lineage[g.session];
    && line.last.jti == j
    && line.user == g.user
    && j in w.claims
    && w.claims[j].sub == g.user && w.claims[j].sid == g.session
    && w.claims[j].exp <= g.expires <= line.last.at + ttl.access
    && w.store.now < g.expires
  }

  ghost predicate RefreshOk(w: World, t: RefreshToken, g: Grant) {
    && g.session in w.lineage
    && w.lineage[g.session].last.token == t
    && w.lineage[g.session].user == g.user
  }

  ghost predicate HashOk(w: World, s: SessionId, h: Hash) {
    && s in w.lineage
    && h.jti == Some(w.lineage[s].last.jti)
    && h.refresh == Some(w.lineage[s].last.token)
    && (h.user.Some? ==> h.user.value == w.lineage[s].user)
  }

  ghost predicate IndexOk(w: World) {
    forall u, s | u in w.store.index && s in w.store.index[u].ids :: s in w.lineage && w.lineage[s].user == u
  }

  ghost predicate StoreOk(ttl: Ttl, w: World) {
    && (forall j | j in w.store.access :: AccessOk(ttl, w, j, w.store.access[j]))
    && (forall t | t in w.store.refresh :: RefreshOk(w, t, w.store.refresh[t]))
    && (forall s | s in w.store.sessions :: HashOk(w, s, w.store.sessions[s]))
    && IndexOk(w)
  }

  ghost predicate IssueOk(w: World, s: SessionId, i: Issue) {
    && i.jti in w.jtiOf && w.jtiOf[i.jti] == s
    && i.token in w.tokenOf && w.tokenOf[i.token] == s
  }

  ghost predicate Dead(w: World, i: Issue) {
    i.jti !in w.store.access && i.token !in w.store.refresh
  }

  ghost predicate LineageOk(w: World, s: SessionId, line: Lineage) {
    && s in w.sids
    && IssueOk(w, s, line.last)
    && line.last.at <= w.store.now
    && (forall i | 0 <= i < |line.past| :: IssueOk(w, s, line.past[i]) && Dead(w, line.past[i]))
  }

  ghost predicate RecordsOk(w: World) {
    && w.jtiOf.Keys <= w.claims.Keys
    && w.tokenOf.Keys <= w.tokens
    && (forall s | s in w.lineage :: LineageOk(w, s, w.lineage[s]))
  }

  /** A generated pair that no transaction has written yet. */
  ghost predicate Unwritten(ttl: Ttl, w: World, sub: UserId, sid: SessionId, jti: Jti, token: RefreshToken) {
    && jti in w.claims && jti !in w.jtiOf
    && w.claims[jti].sub == sub && w.claims[jti].sid == sid && w.claims[jti].exp <= w.store.now + ttl.access
    && token in w.tokens && token !in w.tokenOf
  }

  ghost predicate ReadOk(w: World, s: SessionId, read: Hash) {
    && s in w.lineage
    && (read.user.Some? ==> read.user.value == w.lineage[s].user)
    && (read.jti.Some? ==> read.jti.value in w.jtiOf && w.jtiOf[read.jti.value] == s)
    && (read.refresh.Some? ==> read.refresh.value in w.tokenOf && w.tokenOf[read.refresh.value] == s)
  }

  ghost predicate TodoOk(w: World, user: UserId, todo: set<SessionId>) {
    forall s | s in todo :: s in w.lineage && w.lineage[s].user == user
  }

  ghost predicate ProcessOk(ttl: Ttl, w: World, p: Process) {
    match p
    case LoginReady(u, s, j, t) =>
      s in w.sids && s !in w.lineage && Unwritten(ttl, w, u, s, j, t)
    case Consumed(s, spent, j, t) =>
      && s in w.lineage && w.lineage[s].last.token == spent && spent !in w.store.refresh
      && Unwritten(ttl, w, w.lineage[s].user, s, j, t)
    case RotateReady(s, u, oldJti, spent, j, t) =>
      && s in w.lineage && w.lineage[s].last.token == spent && spent !in w.store.refresh
      && Unwritten(ttl, w, w.lineage[s].user, s, j, t)
      && oldJti == Some(w.lineage[s].last.jti) && u == w.lineage[s].user
    case RevokeReady(s, read) => ReadOk(w, s, read)
    case Snapshot(u, todo) => TodoOk(w, u, todo)
    case Sweeping(u, todo) => TodoOk(w, u, todo)
    case SweepReady(u, todo, s, read) => TodoOk(w, u, todo) && ReadOk(w, s, read)
  }

  /** Two processes never hold the same generated identifiers, and never both
      hold a consumed token of one session. */
  ghost predicate Apart(p: Process, q: Process) {
    && (Minting(p) && Minting(q) ==> p.jti != q.jti && p.token != q.token)
    && (p.LoginReady? && q.LoginReady? ==> p.session != q.session)
    && (Flight(p).Some? ==> Flight(p) != Flight(q))
  }

  ghost predicate ProcessesOk(ttl: Ttl, w: World) {
    && (forall p | p in w.procs :: ProcessOk(ttl, w, w.procs[p]))
    && (forall p, q | p in w.procs && q in w.procs && p != q :: Apart(w.procs[p], w.procs[q]))
  }

  ghost predicate Inv(ttl: Ttl, w: World) {
    StoreOk(ttl, w) && RecordsOk(w) && ProcessesOk(ttl, w)
  }

  // ------------------------------------------------------------------------
  // Every event keeps the invariant
  // ------------------------------------------------------------------------

  /** `b` is `a` with some keys, fields of sets or seconds gone. */
  ghost predicate Shrunk(a: Store, b: Store) {
    && a.now <= b.now
    && (forall j | j in b.access :: j in a.access && b.access[j] == a.access[j] && b.now < b.access[j].expires)
    && (forall t | t in b.refresh :: t in a.refresh && b.refresh[t] == a.refresh[t])
    && (forall s | s in b.sessions :: s in a.sessions && b.sessions[s] == a.sessions[s])
    && (forall u | u in b.index :: u in a.index && b.index[u].ids <= a.index[u].ids)
  }

  lemma ShrinkKeepsInv(ttl: Ttl, w: World, st: Store)
    requires Inv(ttl, w) && Shrunk(w.store, st)
    ensures Inv(ttl, w.(store := st))
  {
    var w' := w.(store := st);
    forall s | s in w'.lineage ensures LineageOk(w', s, w'.lineage[s]) {
      assert LineageOk(w, s, w.lineage[s]);
      forall i | 0 <= i < |w.lineage[s].past| ensures Dead(w', w.lineage[s].past[i]) {
        assert Dead(w, w.lineage[s].past[i]);
      }
    }
    forall p | p in w'.procs ensures ProcessOk(ttl, w', w'.procs[p]) {
      assert ProcessOk(ttl, w, w.procs[p]);
    }
    forall j | j in st.access ensures AccessOk(ttl, w', j, st.access[j]) {
      assert AccessOk(ttl, w, j, w.store.access[j]);
    }
    forall t | t in st.refresh ensures RefreshOk(w', t, st.refresh[t]) {
      assert RefreshOk(w, t, w.store.refresh[t]);
    }
    forall s | s in st.sessions ensures HashOk(w', s, st.sessions[s]) {
      assert HashOk(w, s, w.store.sessions[s]);
    }
  }

  lemma SpawnKeepsInv(ttl: Ttl, w: World, pid: nat, p: Process)
    requires Inv(ttl, w) && ProcessOk(ttl, w, p)
    requires forall q | q in w.procs && q != pid :: Apart(p, w.procs[q]) && Apart(w.procs[q], p)
    ensures Inv(ttl, w.(procs := w.procs[pid := p]))
  {
    var w' := w.(procs := w.procs[pid := p]);
    forall q | q in w'.procs ensures ProcessOk(ttl, w', w'.procs[q]) {
      if q != pid { assert ProcessOk(ttl, w, w.procs[q]); }
      SameRecords(ttl, w, w', w'.procs[q]);
    }
    SameStoreOk(ttl, w, w');
  }

  lemma StopKeepsInv(ttl: Ttl, w: World, pid: nat)
    requires Inv(ttl, w)
    ensures Inv(ttl, Stop(w, pid))
  {
    var w' := Stop(w, pid);
    forall q | q in w'.procs ensures ProcessOk(ttl, w', w'.procs[q]) {
      assert ProcessOk(ttl, w, w.procs[q]);
      SameRecords(ttl, w, w', w'.procs[q]);
    }
    SameStoreOk(ttl, w, w');
  }

  /** Only the process table differs. */
  ghost predicate SameButProcs(w: World, w': World) {
    w' == w.(procs := w'.procs)
  }

  lemma SameRecords(ttl: Ttl, w: World, w': World, p: Process)
    requires SameButProcs(w, w') && ProcessOk(ttl, w, p)
    ensures ProcessOk(ttl, w', p)
  {
  }

  lemma SameStoreOk(ttl: Ttl, w: World, w': World)
    requires SameButProcs(w, w') && StoreOk(ttl, w) && RecordsOk(w)
    ensures StoreOk(ttl, w') && RecordsOk(w')
  {
    forall j | j in w'.store.access ensures AccessOk(ttl, w', j, w'.store.access[j]) {
      assert AccessOk(ttl, w, j, w.store.access[j]);
    }
    forall t | t in w'.store.refresh ensures RefreshOk(w', t, w'.store.refresh[t]) {
      assert RefreshOk(w, t, w.store.refresh[t]);
    }
    forall s | s in w'.store.sessions ensures HashOk(w', s, w'.store.sessions[s]) {
      assert HashOk(w, s, w.store.sessions[s]);
    }
    forall s | s in w'.lineage ensures LineageOk(w', s, w'.lineage[s]) {
      assert LineageOk(w, s, w.lineage[s]);
      forall i | 0 <= i < |w.lineage[s].past|
        ensures IssueOk(w', s, w.lineage[s].past[i]) && Dead(w', w.lineage[s].past[i])
      {
        assert IssueOk(w, s, w.lineage[s].past[i]) && Dead(w, w.lineage[s].past[i]);
      }
    }
  }

  lemma MintKeepsInv(ttl: Ttl, w: World, sub: UserId, sid: SessionId, jti: Jti, token: RefreshToken,
                     sids: set<SessionId>)
    requires Inv(ttl, w) && NewPair(w, jti, token)
    ensures Inv(ttl, Mint(ttl, w, sub, sid, jti, token).(sids := w.sids + sids))
    ensures Unwritten(ttl, Mint(ttl, w, sub, sid, jti, token), sub, sid, jti, token)
  {
    var w' := Mint(ttl, w, sub, sid, jti, token).(sids := w.sids + sids);
    forall j | j in w'.store.access ensures AccessOk(ttl, w', j, w'.store.access[j]) {
      assert AccessOk(ttl, w, j, w.store.access[j]);
    }
    forall s | s in w'.lineage ensures LineageOk(w', s, w'.lineage[s]) {
      assert LineageOk(w, s, w.lineage[s]);
      forall i | 0 <= i < |w.lineage[s].past|
        ensures IssueOk(w', s, w.lineage[s].past[i]) && Dead(w', w.lineage[s].past[i])
      {
        assert IssueOk(w, s, w.lineage[s].past[i]) && Dead(w, w.lineage[s].past[i]);
      }
    }
    forall t | t in w'.store.refresh ensures RefreshOk(w', t, w'.store.refresh[t]) {
      assert RefreshOk(w, t, w.store.refresh[t]);
    }
    forall s | s in w'.store.sessions ensures HashOk(w', s, w'.store.sessions[s]) {
      assert HashOk(w, s, w.store.sessions[s]);
    }
    forall p | p in w'.procs ensures ProcessOk(ttl, w', w'.procs[p]) {
      assert ProcessOk(ttl, w, w.procs[p]);
    }
  }

  /** `pid` has written its generated pair for `session`, and is gone. */
  ghost predicate WrittenBy(w: World, w': World, pid: nat, session: SessionId) {
    && pid in w.procs && Minting(w.procs[pid]) && w.procs[pid].session == session
    && w'.procs == w.procs - {pid}
    && w'.claims == w.claims && w'.tokens == w.tokens && w'.sids == w.sids && w'.store.now == w.store.now
    && w'.jtiOf == w.jtiOf[w.procs[pid].jti := session]
    && w'.tokenOf == w.tokenOf[w.procs[pid].token := session]
    && session in w'.lineage && w'.lineage == w.lineage[session := w'.lineage[session]]
    && (session in w.lineage ==> w'.lineage[session].user == w.lineage[session].user)
    && w'.store.refresh.Keys <= w.store.refresh.Keys + {w.procs[pid].token}
  }

  lemma OtherMinterKeepsOk(ttl: Ttl, w: World, w': World, pid: nat, session: SessionId, q: Process)
    requires WrittenBy(w, w', pid, session) && ProcessOk(ttl, w, w.procs[pid])
    requires Minting(q) && ProcessOk(ttl, w, q) && Apart(w.procs[pid], q)
    requires Flight(q).Some? ==> LineageOk(w, q.session, w.lineage[q.session])
    ensures ProcessOk(ttl, w', q)
  {
    var sub := if q.LoginReady? then q.user else w.lineage[q.session].user;
    assert Unwritten(ttl, w, sub, q.session, q.jti, q.token);
    assert q.session != session by {
      if q.LoginReady? && Flight(w.procs[pid]).Some? { assert session in w.lineage; }
    }
    assert Unwritten(ttl, w', sub, q.session, q.jti, q.token);
  }

  /** What a process has read about a session stays true when another pair is
      written. */
  lemma OtherReaderKeepsOk(ttl: Ttl, w: World, w': World, pid: nat, session: SessionId, q: Process)
    requires WrittenBy(w, w', pid, session) && ProcessOk(ttl, w, w.procs[pid])
    requires !Minting(q) && ProcessOk(ttl, w, q)
    ensures ProcessOk(ttl, w', q)
  {
  }

  lemma OthersKeepOk(ttl: Ttl, w: World, w': World, pid: nat, session: SessionId)
    requires Inv(ttl, w) && WrittenBy(w, w', pid, session)
    ensures ProcessesOk(ttl, w')
  {
    assert ProcessOk(ttl, w, w.procs[pid]);
    forall p | p in w'.procs ensures ProcessOk(ttl, w', w'.procs[p]) {
      var q := w.procs[p];
      assert ProcessOk(ttl, w, q) && Apart(w.procs[pid], q);
      if Minting(q) {
        OtherMinterKeepsOk(ttl, w, w', pid, session, q);
      } else {
        OtherReaderKeepsOk(ttl, w, w', pid, session, q);
      }
    }
  }

  /** What the two committing transactions, create_session and rotate_session,
      have in common: the session's previous pair is dead, the new pair is the
      only addition. */
  ghost predicate RecordedBy(w: World, w': World, session: SessionId, jti: Jti, token: RefreshToken) {
    && session in w.sids && session in w'.lineage && w'.lineage == w.lineage[session := w'.lineage[session]]
    && w'.claims == w.claims && w'.tokens == w.tokens && w'.sids == w.sids && w'.store.now == w.store.now
    && w'.jtiOf == w.jtiOf[jti := session] && w'.tokenOf == w.tokenOf[token := session]
    && var line := w'.lineage[session];
    && line.last == Issue(jti, token, w.store.now)
    && (session in w.lineage ==>
          && line.user == w.lineage[session].user
          && line.past == w.lineage[session].past + [w.lineage[session].last]
          && Dead(w', w.lineage[session].last))
    && (session !in w.lineage ==> line.past == [])
  }

  ghost predicate AddsAccess(ttl: Ttl, a: Store, b: Store, user: UserId, session: SessionId, jti: Jti) {
    forall j | j in b.access ::
      if j == jti then b.access[j] == Grant(user, session, a.now + ttl.access)
      else j in a.access && b.access[j] == a.access[j]
  }

  ghost predicate AddsRefresh(a: Store, b: Store, user: UserId, session: SessionId, token: RefreshToken) {
    forall t | t in b.refresh ::
      if t == token then b.refresh[t].user == user && b.refresh[t].session == session
      else t in a.refresh && b.refresh[t] == a.refresh[t]
  }

  ghost predicate AddsHash(a: Store, b: Store, user: UserId, session: SessionId, jti: Jti, token: RefreshToken) {
    forall s | s in b.sessions ::
      if s == session then
        var h := b.sessions[s];
        h.jti == Some(jti) && h.refresh == Some(token) && (h.user.Some? ==> h.user.value == user)
      else s in a.sessions && b.sessions[s] == a.sessions[s]
  }

  lemma CommitKeepsRecords(ttl: Ttl, w: World, w': World, user: UserId, session: SessionId, jti: Jti,
                           token: RefreshToken)
    requires Inv(ttl, w) && Unwritten(ttl, w, user, session, jti, token) && RecordedBy(w, w', session, jti, token)
    requires AddsAccess(ttl, w.store, w'.store, user, session, jti)
    requires AddsRefresh(w.store, w'.store, user, session, token)
    ensures RecordsOk(w')
  {
    forall s | s in w'.lineage ensures LineageOk(w', s, w'.lineage[s]) {
      if s in w.lineage { assert LineageOk(w, s, w.lineage[s]); }
      forall i | 0 <= i < |w'.lineage[s].past|
        ensures IssueOk(w', s, w'.lineage[s].past[i]) && Dead(w', w'.lineage[s].past[i])
      {
        if i < |w.lineage[s].past| {
          assert w'.lineage[s].past[i] == w.lineage[s].past[i];
          assert IssueOk(w, s, w.lineage[s].past[i]) && Dead(w, w.lineage[s].past[i]);
        }
      }
    }
  }

  lemma CommitKeepsStore(ttl: Ttl, w: World, w': World, user: UserId, session: SessionId, jti: Jti, token: RefreshToken)
    requires ValidTtl(ttl) && Inv(ttl, w) && Unwritten(ttl, w, user, session, jti, token)
    requires RecordedBy(w, w', session, jti, token) && w'.lineage[session].user == user && IndexOk(w')
    requires AddsAccess(ttl, w.store, w'.store, user, session, jti)
    requires AddsRefresh(w.store, w'.store, user, session, token)
    requires AddsHash(w.store, w'.store, user, session, jti, token)
    ensures StoreOk(ttl, w')
  {
    CommitKeepsAccess(ttl, w, w', user, session, jti, token);
    CommitKeepsKeys(ttl, w, w', user, session, jti, token);
  }

  lemma CommitKeepsAccess(ttl: Ttl, w: World, w': World, user: UserId, session: SessionId, jti: Jti,
                          token: RefreshToken)
    requires ValidTtl(ttl) && Inv(ttl, w) && Unwritten(ttl, w, user, session, jti, token)
    requires RecordedBy(w, w', session, jti, token) && w'.lineage[session].user == user
    requires AddsAccess(ttl, w.store, w'.store, user, session, jti)
    ensures forall j | j in w'.store.access :: AccessOk(ttl, w', j, w'.store.access[j])
  {
    forall j | j in w'.store.access ensures AccessOk(ttl, w', j, w'.store.access[j]) {
      if j != jti { assert AccessOk(ttl, w, j, w.store.access[j]); }
    }
  }

  lemma CommitKeepsKeys(ttl: Ttl, w: World, w': World, user: UserId, session: SessionId, jti: Jti, token: RefreshToken)
    requires Inv(ttl, w) && RecordedBy(w, w', session, jti, token) && w'.lineage[session].user == user
    requires AddsRefresh(w.store, w'.store, user, session, token)
    requires AddsHash(w.store, w'.store, user, session, jti, token)
    ensures forall t | t in w'.store.refresh :: RefreshOk(w', t, w'.store.refresh[t])
    ensures forall s | s in w'.store.sessions :: HashOk(w', s, w'.store.sessions[s])
  {
    forall t | t in w'.store.refresh ensures RefreshOk(w', t, w'.store.refresh[t]) {
      if t != token { assert RefreshOk(w, t, w.store.refresh[t]); }
    }
    forall s | s in w'.store.sessions ensures HashOk(w', s, w'.store.sessions[s]) {
      if s != session { assert HashOk(w, s, w.store.sessions[s]); }
    }
  }

  lemma LoginCommitIsRecorded(ttl: Ttl, w: World, pid: nat)
    requires Inv(ttl, w) && Enabled(w, LoginCommit(pid))
    ensures
      var LoginReady(u, s, j, t) := w.procs[pid];
      var w' := Apply(ttl, w, LoginCommit(pid));
      && RecordedBy(w, w', s, j, t) && w'.lineage[s].user == u && IndexOk(w')
      && AddsAccess(ttl, w.store, w'.store, u, s, j) && AddsRefresh(w.store, w'.store, u, s, t)
      && AddsHash(w.store, w'.store, u, s, j, t)
  {
    assert ProcessOk(ttl, w, w.procs[pid]);
    var LoginReady(u, s, j, t) := w.procs[pid];
    var w' := Apply(ttl, w, LoginCommit(pid));
    forall v, m | v in w'.store.index && m in w'.store.index[v].ids
      ensures m in w'.lineage && w'.lineage[m].user == v
    {
      if m != s { assert m in MembersOf(w.store.index, v); }
    }
  }

  lemma RotateCommitIsRecorded(ttl: Ttl, w: World, pid: nat)
    requires Inv(ttl, w) && Enabled(w, RotateCommit(pid))
    ensures
      var RotateReady(s, u, _, _, j, t) := w.procs[pid];
      var w' := Apply(ttl, w, RotateCommit(pid));
      RecordedBy(w, w', s, j, t) && w'.lineage[s].user == u && IndexOk(w')
  {
    var RotateReady(s, u, oldJti, spent, j, t) := w.procs[pid];
    assert ProcessOk(ttl, w, w.procs[pid]);
    assert LineageOk(w, s, w.lineage[s]);
  }

  lemma RotateCommitAdds(ttl: Ttl, w: World, pid: nat)
    requires Inv(ttl, w) && Enabled(w, RotateCommit(pid))
    ensures
      var RotateReady(s, u, oldJti, spent, j, t) := w.procs[pid];
      var st := Rotate(ttl, w.store, s, u, oldJti, spent, j, t);
      && AddsAccess(ttl, w.store, st, u, s, j) && AddsRefresh(w.store, st, u, s, t)
      && AddsHash(w.store, st, u, s, j, t)
  {
    var s := w.procs[pid].session;
    assert ProcessOk(ttl, w, w.procs[pid]);
    if s in w.store.sessions { assert HashOk(w, s, w.store.sessions[s]); }
  }

  lemma LoginCommitKeepsInv(ttl: Ttl, w: World, pid: nat)
    requires ValidTtl(ttl) && Inv(ttl, w) && Enabled(w, LoginCommit(pid))
    ensures Inv(ttl, Apply(ttl, w, LoginCommit(pid)))
  {
    var LoginReady(u, s, j, t) := w.procs[pid];
    var w' := Apply(ttl, w, LoginCommit(pid));
    assert ProcessOk(ttl, w, w.procs[pid]);
    LoginCommitIsRecorded(ttl, w, pid);
    OthersKeepOk(ttl, w, w', pid, s);
    CommitKeepsRecords(ttl, w, w', u, s, j, t);
    CommitKeepsStore(ttl, w, w', u, s, j, t);
  }

  lemma RotateCommitKeepsInv(ttl: Ttl, w: World, pid: nat)
    requires ValidTtl(ttl) && Inv(ttl, w) && Enabled(w, RotateCommit(pid))
    ensures Inv(ttl, Apply(ttl, w, RotateCommit(pid)))
  {
    var RotateReady(s, u, oldJti, spent, j, t) := w.procs[pid];
    var w' := Apply(ttl, w, RotateCommit(pid));
    assert ProcessOk(ttl, w, w.procs[pid]);
    RotateCommitIsRecorded(ttl, w, pid);
    RotateCommitAdds(ttl, w, pid);
    OthersKeepOk(ttl, w, w', pid, s);
    CommitKeepsRecords(ttl, w, w', u, s, j, t);
    CommitKeepsStore(ttl, w, w', u, s, j, t);
  }

  /** Whoever consumes a live token is the only process holding a token of that
      session: the others' consumed tokens are its last one, and are not live. */
  lemma ConsumerIsAlone(ttl: Ttl, w: World, spent: RefreshToken, me: Process, q: nat)
    requires Inv(ttl, w) && spent in w.store.refresh && q in w.procs
    requires me.Consumed? && me.session == w.store.refresh[spent].session && NewPair(w, me.jti, me.token)
    ensures Apart(me, w.procs[q]) && Apart(w.procs[q], me)
  {
    assert RefreshOk(w, spent, w.store.refresh[spent]);
    assert ProcessOk(ttl, w, w.procs[q]);
  }

  lemma AfterGetDelIsOk(ttl: Ttl, w: World, spent: RefreshToken, jti: Jti, token: RefreshToken)
    requires Inv(ttl, w) && NewPair(w, jti, token) && spent in w.store.refresh
    ensures Inv(ttl, AfterGetDel(ttl, w, spent, jti, token))
    ensures
      var g := w.store.refresh[spent];
      Unwritten(ttl, AfterGetDel(ttl, w, spent, jti, token), g.user, g.session, jti, token)
  {
    GetDelShrinks(ttl, w, spent);
    ShrinkKeepsInv(ttl, w, GetDel(w.store, spent));
    var w1 := w.(store := GetDel(w.store, spent));
    var g := w.store.refresh[spent];
    MintKeepsInv(ttl, w1, g.user, g.session, jti, token, {});
    assert w1.sids + {} == w1.sids;
  }

  lemma ConsumeKeepsInv(ttl: Ttl, w: World, pid: nat, spent: RefreshToken, jti: Jti, token: RefreshToken)
    requires Inv(ttl, w) && Enabled(w, Consume(pid, spent, jti, token)) && spent in w.store.refresh
    ensures Inv(ttl, Apply(ttl, w, Consume(pid, spent, jti, token)))
  {
    var me := Consumed(w.store.refresh[spent].session, spent, jti, token);
    var w2 := AfterGetDel(ttl, w, spent, jti, token);
    AfterGetDelIsOk(ttl, w, spent, jti, token);
    assert ProcessOk(ttl, w2, me) by { assert RefreshOk(w, spent, w.store.refresh[spent]); }
    forall q | q in w2.procs && q != pid ensures Apart(me, w2.procs[q]) && Apart(w2.procs[q], me) {
      ConsumerIsAlone(ttl, w, spent, me, q);
    }
    SpawnKeepsInv(ttl, w2, pid, me);
  }

  lemma GetDelShrinks(ttl: Ttl, w: World, spent: RefreshToken)
    requires Inv(ttl, w)
    ensures Shrunk(w.store, GetDel(w.store, spent))
  {
    forall j | j in w.store.access ensures w.store.now < w.store.access[j].expires {
      assert AccessOk(ttl, w, j, w.store.access[j]);
    }
  }

  lemma LoginMintKeepsInv(ttl: Ttl, w: World, pid: nat, user: UserId, session: SessionId, jti: Jti, token: RefreshToken)
    requires Inv(ttl, w) && Enabled(w, LoginMint(pid, user, session, jti, token))
    ensures Inv(ttl, Apply(ttl, w, LoginMint(pid, user, session, jti, token)))
  {
    MintKeepsInv(ttl, w, user, session, jti, token, {session});
    var w1 := Mint(ttl, w, user, session, jti, token).(sids := w.sids + {session});
    var me := LoginReady(user, session, jti, token);
    assert forall s | s in w.lineage :: LineageOk(w, s, w.lineage[s]);
    forall q | q in w1.procs && q != pid ensures Apart(me, w1.procs[q]) && Apart(w1.procs[q], me) {
      assert ProcessOk(ttl, w, w.procs[q]);
    }
    SpawnKeepsInv(ttl, w1, pid, me);
  }

  lemma RevokeKeepsInv(ttl: Ttl, w: World, session: SessionId, read: Hash)
    requires Inv(ttl, w)
    ensures Inv(ttl, w.(store := Revoke(w.store, session, read)))
  {
    forall j | j in w.store.access ensures w.store.now < w.store.access[j].expires {
      assert AccessOk(ttl, w, j, w.store.access[j]);
    }
    ShrinkKeepsInv(ttl, w, Revoke(w.store, session, read));
  }

  lemma DropKeepsInv(ttl: Ttl, w: World, user: UserId)
    requires Inv(ttl, w)
    ensures Inv(ttl, w.(store := DropIndex(w.store, user)))
  {
    forall j | j in w.store.access ensures w.store.now < w.store.access[j].expires {
      assert AccessOk(ttl, w, j, w.store.access[j]);
    }
    ShrinkKeepsInv(ttl, w, DropIndex(w.store, user));
  }

  lemma HashIsReadOk(ttl: Ttl, w: World, s: SessionId)
    requires Inv(ttl, w) && s in w.store.sessions
    ensures ReadOk(w, s, w.store.sessions[s])
  {
    assert HashOk(w, s, w.store.sessions[s]);
    assert LineageOk(w, s, w.lineage[s]);
  }

  lemma RotateReadKeepsInv(ttl: Ttl, w: World, pid: nat)
    requires Inv(ttl, w) && Enabled(w, RotateRead(pid))
    ensures Inv(ttl, Apply(ttl, w, RotateRead(pid)))
  {
    var Consumed(s, spent, j, t) := w.procs[pid];
    assert ProcessOk(ttl, w, w.procs[pid]);
    if s !in w.store.sessions || w.store.sessions[s].user.None? {
      StopKeepsInv(ttl, w, pid);
    } else {
      assert HashOk(w, s, w.store.sessions[s]);
      var h := w.store.sessions[s];
      var me := RotateReady(s, h.user.value, h.jti, spent, j, t);
      forall q | q in w.procs && q != pid ensures Apart(me, w.procs[q]) && Apart(w.procs[q], me) {
        assert Apart(w.procs[pid], w.procs[q]) && Apart(w.procs[q], w.procs[pid]);
      }
      SpawnKeepsInv(ttl, w, pid, me);
    }
  }

  /** A process that holds no generated identifiers is apart from all others. */
  lemma SpawnReaderKeepsInv(ttl: Ttl, w: World, pid: nat, p: Process)
    requires Inv(ttl, w) && ProcessOk(ttl, w, p) && !Minting(p)
    ensures Inv(ttl, w.(procs := w.procs[pid := p]))
  {
    SpawnKeepsInv(ttl, w, pid, p);
  }

  lemma OwnProcessOk(ttl: Ttl, w: World, pid: nat)
    requires Inv(ttl, w) && pid in w.procs
    ensures ProcessOk(ttl, w, w.procs[pid])
  {
  }

  lemma MembersAreTodoOk(ttl: Ttl, w: World, user: UserId)
    requires Inv(ttl, w)
    ensures TodoOk(w, user, MembersOf(w.store.index, user))
  {
  }

  lemma SweepKeepsInv(ttl: Ttl, w: World, e: Event)
    requires Inv(ttl, w) && Enabled(w, e)
    requires e.SweepMembers? || e.SweepDrop? || e.SweepRead? || e.SweepCommit?
    ensures Inv(ttl, Apply(ttl, w, e))
  {
    hide Inv;
    hide TodoOk;
    match e
    case SweepMembers(p, u) =>
      MembersAreTodoOk(ttl, w, u);
      SpawnReaderKeepsInv(ttl, w, p, Snapshot(u, MembersOf(w.store.index, u)));
    case SweepDrop(p) =>
      var Snapshot(u, todo) := w.procs[p];
      OwnProcessOk(ttl, w, p);
      SpawnReaderKeepsInv(ttl, w, p, Sweeping(u, todo));
      DropKeepsInv(ttl, w.(procs := w.procs[p := Sweeping(u, todo)]), u);
    case SweepRead(p, s) =>
      OwnProcessOk(ttl, w, p);
      TodoShrinks(w, w.procs[p].user, w.procs[p].todo, s);
      if s in w.store.sessions { HashIsReadOk(ttl, w, s); }
      SpawnReaderKeepsInv(ttl, w, p, Apply(ttl, w, e).procs[p]);
    case SweepCommit(p) =>
      var SweepReady(u, todo, s, read) := w.procs[p];
      OwnProcessOk(ttl, w, p);
      SpawnReaderKeepsInv(ttl, w, p, Sweeping(u, todo));
      RevokeKeepsInv(ttl, w.(procs := w.procs[p := Sweeping(u, todo)]), s, read);
  }

  lemma TodoShrinks(w: World, user: UserId, todo: set<SessionId>, s: SessionId)
    requires TodoOk(w, user, todo)
    ensures TodoOk(w, user, todo - {s})
  {
  }

  /** Every round trip of every handler, every tick and every crash keeps the
      invariant. */
  lemma StepKeepsInv(ttl: Ttl, w: World, e: Event)
    requires ValidTtl(ttl) && Inv(ttl, w) && Enabled(w, e)
    ensures Inv(ttl, Apply(ttl, w, e))
  {
    hide ProcessesOk;
    hide RecordsOk;
    match e
    case Tick(d) => ShrinkKeepsInv(ttl, w, Advance(w.store, d));
    case LoginMint(p, u, s, j, t) => LoginMintKeepsInv(ttl, w, p, u, s, j, t);
    case LoginCommit(p) => LoginCommitKeepsInv(ttl, w, p);
    case Consume(p, spent, j, t) =>
      if spent in w.store.refresh { ConsumeKeepsInv(ttl, w, p, spent, j, t); }
    case RotateRead(p) => RotateReadKeepsInv(ttl, w, p);
    case RotateCommit(p) => RotateCommitKeepsInv(ttl, w, p);
    case RevokeRead(p, s) =>
      if s in w.store.sessions {
        HashIsReadOk(ttl, w, s);
        SpawnReaderKeepsInv(ttl, w, p, RevokeReady(s, w.store.sessions[s]));
      }
    case RevokeCommit(p) =>
      StopKeepsInv(ttl, w, p);
      RevokeKeepsInv(ttl, Stop(w, p), w.procs[p].session, w.procs[p].read);
    case Exit(p) => StopKeepsInv(ttl, w, p);
    case _ => SweepKeepsInv(ttl, w, e);
  }
}
