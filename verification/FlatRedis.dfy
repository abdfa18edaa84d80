/** One string-keyed Redis behind the separate logical maps: whatever a component
    sends, as commands on strings, has its effect on that component's maps and leaves
    the others' alone. */
module FlatRedis {
  import opened Wrappers
  import opened SessionStore
  import opened Keys
  import RateLimiting
  import Idempotency

  datatype Value =
    | Payload(text: string, expires: int)
    | HashValue(hash: Hash)
    | SetValue(members: Members)
    | CounterValue(counter: RateLimiting.Counter)
    | RecordValue(record: Idempotency.Record)

  datatype Command = Put(key: Key, value: Value) | Delete(key: Key)

  /** Redis itself: keys are strings. */
  type Flat = map<string, Value>

  /** The same, with keys that know what they are. */
  type Typed = map<Key, Value>

  function Get(flat: Flat, k: Key): Option<Value> {
    if Text(k) in flat then Some(flat[Text(k)]) else None
  }

  function Look(typed: Typed, k: Key): Option<Value> {
    if k in typed then Some(typed[k]) else None
  }

  function FlatDo(flat: Flat, c: Command): Flat {
    match c
    case Put(k, v) => flat[Text(k) := v]
    case Delete(k) => flat - {Text(k)}
  }

  function TypedDo(typed: Typed, c: Command): Typed {
    match c
    case Put(k, v) => typed[k := v]
    case Delete(k) => typed - {k}
  }

  function FlatRun(flat: Flat, cs: seq<Command>): Flat
    decreases |cs|
  {
    if cs == [] then flat else FlatRun(FlatDo(flat, cs[0]), cs[1..])
  }

  function TypedRun(typed: Typed, cs: seq<Command>): Typed
    decreases |cs|
  {
    if cs == [] then typed else TypedRun(TypedDo(typed, cs[0]), cs[1..])
  }

  ghost predicate Represents(flat: Flat, typed: Typed) {
    forall k | Proper(k) :: Get(flat, k) == Look(typed, k)
  }

  lemma CommandRefines(flat: Flat, typed: Typed, c: Command)
    requires Represents(flat, typed) && Proper(c.key)
    ensures Represents(FlatDo(flat, c), TypedDo(typed, c))
  {
    forall k | Proper(k) ensures Get(FlatDo(flat, c), k) == Look(TypedDo(typed, c), k) {
      KeysAreInjective(c.key, k);
      assert Get(flat, k) == Look(typed, k);
    }
  }

  /** Whatever any of the components sends, no key of one is ever taken for a key of
      another. */
  lemma {:induction false} FlatRefinesTyped(flat: Flat, typed: Typed, cs: seq<Command>)
    requires Represents(flat, typed) && forall c | c in cs :: Proper(c.key)
    ensures Represents(FlatRun(flat, cs), TypedRun(typed, cs))
    decreases |cs|
  {
    if cs != [] {
      CommandRefines(flat, typed, cs[0]);
      FlatRefinesTyped(FlatDo(flat, cs[0]), TypedDo(typed, cs[0]), cs[1..]);
    }
  }

  // ------------------------------------------------------------------------
  // The session store in the typed map
  // ------------------------------------------------------------------------

  function PayloadOf(g: Grant): Value {
    Payload(Join(g.user.text, g.session.text), g.expires)
  }

  predicate IsSessionKey(k: Key) {
    !k.RateLimitKey? && !k.IdempotencyKey?
  }

  /** What the session store has under a key. */
  function Stored(st: Store, k: Key): Option<Value>
    requires IsSessionKey(k)
  {
    match k
    case AccessKey(j) => if j in st.access then Some(PayloadOf(st.access[j])) else None
    case RefreshKey(t) => if t in st.refresh then Some(PayloadOf(st.refresh[t])) else None
    case SessionKey(s) => if s in st.sessions then Some(HashValue(st.sessions[s])) else None
    case UserSessionsKey(u) => if u in st.index then Some(SetValue(st.index[u])) else None
  }

  ghost predicate Holds(typed: Typed, st: Store) {
    forall k | IsSessionKey(k) :: Look(typed, k) == Stored(st, k)
  }

  lemma OtherCommandKeepsSessions(typed: Typed, st: Store, c: Command)
    requires Holds(typed, st) && !IsSessionKey(c.key)
    ensures Holds(TypedDo(typed, c), st)
  {
  }

  /** A command on one family is the same update of that family's map. */
  lemma CommandOnStore(typed: Typed, st: Store, c: Command, st': Store)
    requires Holds(typed, st) && IsSessionKey(c.key)
    requires forall k | IsSessionKey(k) && k != c.key :: Stored(st', k) == Stored(st, k)
    requires Stored(st', c.key) == if c.Put? then Some(c.value) else None
    ensures Holds(TypedDo(typed, c), st')
  {
  }

  // ------------------------------------------------------------------------
  // The pipelines
  // ------------------------------------------------------------------------

  function PutAccess(jti: Jti, g: Grant): Command { Put(AccessKey(jti), PayloadOf(g)) }

  function PutRefresh(token: RefreshToken, g: Grant): Command { Put(RefreshKey(token), PayloadOf(g)) }

  function CreateCommands(ttl: Ttl, st: Store, session: SessionId, user: UserId, jti: Jti,
                          token: RefreshToken): seq<Command>
  {
    [PutAccess(jti, Grant(user, session, st.now + ttl.access)),
     PutRefresh(token, Grant(user, session, st.now + ttl.refresh)),
     Put(SessionKey(session), HashValue(Hash(Some(user), Some(jti), Some(token), st.now + ttl.refresh))),
     Put(UserSessionsKey(user), SetValue(Members(MembersOf(st.index, user) + {session}, st.now + ttl.refresh)))]
  }

  lemma RunOne(typed: Typed, c: Command, cs: seq<Command>)
    ensures TypedRun(typed, [c] + cs) == TypedRun(TypedDo(typed, c), cs)
  {
    assert ([c] + cs)[1..] == cs;
  }

  lemma CreateRefines(ttl: Ttl, typed: Typed, st: Store, session: SessionId, user: UserId, jti: Jti,
                      token: RefreshToken)
    requires Holds(typed, st)
    ensures
      Holds(TypedRun(typed, CreateCommands(ttl, st, session, user, jti, token)),
            Create(ttl, st, session, user, jti, token))
  {
    hide Holds;
    var cs := CreateCommands(ttl, st, session, user, jti, token);
    var goal := Create(ttl, st, session, user, jti, token);
    var st1 := st.(access := goal.access);
    var st2 := st1.(refresh := goal.refresh);
    var st3 := st2.(sessions := goal.sessions);
    CommandOnStore(typed, st, cs[0], st1);
    var t1 := TypedDo(typed, cs[0]);
    CommandOnStore(t1, st1, cs[1], st2);
    var t2 := TypedDo(t1, cs[1]);
    CommandOnStore(t2, st2, cs[2], st3);
    var t3 := TypedDo(t2, cs[2]);
    CommandOnStore(t3, st3, cs[3], goal);
    RunFour(typed, cs);
  }

  lemma RunFour(typed: Typed, cs: seq<Command>)
    requires |cs| == 4
    ensures TypedRun(typed, cs) == TypedDo(TypedDo(TypedDo(TypedDo(typed, cs[0]), cs[1]), cs[2]), cs[3])
  {
    assert cs == [cs[0]] + ([cs[1]] + ([cs[2]] + ([cs[3]] + [])));
    RunOne(typed, cs[0], [cs[1]] + ([cs[2]] + ([cs[3]] + [])));
    var t1 := TypedDo(typed, cs[0]);
    RunOne(t1, cs[1], [cs[2]] + ([cs[3]] + []));
    var t2 := TypedDo(t1, cs[1]);
    RunOne(t2, cs[2], [cs[3]] + []);
    RunOne(TypedDo(t2, cs[2]), cs[3], []);
  }

  lemma {:induction false} RunSplit(typed: Typed, a: seq<Command>, b: seq<Command>)
    ensures TypedRun(typed, a + b) == TypedRun(TypedRun(typed, a), b)
    decreases |a|
  {
    if a == [] {
      assert a + b == b;
    } else {
      assert (a + b)[1..] == a[1..] + b;
      RunSplit(TypedDo(typed, a[0]), a[1..], b);
    }
  }

  function DeleteAccess(jti: Option<Jti>): seq<Command> {
    if jti.Some? then [Delete(AccessKey(jti.value))] else []
  }

  function DeleteRefresh(token: Option<RefreshToken>): seq<Command> {
    if token.Some? then [Delete(RefreshKey(token.value))] else []
  }

  lemma DeleteAccessRefines(typed: Typed, st: Store, jti: Option<Jti>)
    requires Holds(typed, st)
    ensures Holds(TypedRun(typed, DeleteAccess(jti)), st.(access := st.access - Just(jti)))
  {
    if jti.Some? {
      CommandOnStore(typed, st, Delete(AccessKey(jti.value)), st.(access := st.access - Just(jti)));
      RunOne(typed, Delete(AccessKey(jti.value)), []);
      assert DeleteAccess(jti) == [Delete(AccessKey(jti.value))] + [];
    }
  }

  lemma DeleteRefreshRefines(typed: Typed, st: Store, token: Option<RefreshToken>)
    requires Holds(typed, st)
    ensures Holds(TypedRun(typed, DeleteRefresh(token)), st.(refresh := st.refresh - Just(token)))
  {
    if token.Some? {
      CommandOnStore(typed, st, Delete(RefreshKey(token.value)), st.(refresh := st.refresh - Just(token)));
      RunOne(typed, Delete(RefreshKey(token.value)), []);
      assert DeleteRefresh(token) == [Delete(RefreshKey(token.value))] + [];
    }
  }

  /** SREM, with Redis's removal of a set that becomes empty. */
  function SremCommands(st: Store, user: Option<UserId>, session: SessionId): seq<Command> {
    if user.None? || user.value !in st.index then []
    else
      var members := st.index[user.value];
      if members.ids <= {session} then [Delete(UserSessionsKey(user.value))]
      else [Put(UserSessionsKey(user.value), SetValue(members.(ids := members.ids - {session})))]
  }

  lemma SremRefines(typed: Typed, st: Store, user: Option<UserId>, session: SessionId)
    requires Holds(typed, st)
    ensures
      Holds(TypedRun(typed, SremCommands(st, user, session)),
            st.(index := if user.Some? then Srem(st.index, user.value, session) else st.index))
  {
    var cs := SremCommands(st, user, session);
    if cs != [] {
      CommandOnStore(typed, st, cs[0], st.(index := Srem(st.index, user.value, session)));
      RunOne(typed, cs[0], []);
      assert cs == [cs[0]] + [];
    }
  }

  function RevokeCommands(st: Store, session: SessionId, read: Hash): seq<Command> {
    DeleteAccess(read.jti)
    + (DeleteRefresh(read.refresh) + ([Delete(SessionKey(session))] + SremCommands(st, read.user, session)))
  }

  lemma RevokeRefines(typed: Typed, st: Store, session: SessionId, read: Hash)
    requires Holds(typed, st)
    ensures Holds(TypedRun(typed, RevokeCommands(st, session, read)), Revoke(st, session, read))
  {
    hide Holds;
    hide TypedRun;
    var c := Delete(SessionKey(session));
    var srem := SremCommands(st, read.user, session);
    RunSplit(typed, DeleteAccess(read.jti), DeleteRefresh(read.refresh) + ([c] + srem));
    DeleteAccessRefines(typed, st, read.jti);
    var t1, st1 := TypedRun(typed, DeleteAccess(read.jti)), st.(access := st.access - Just(read.jti));
    RunSplit(t1, DeleteRefresh(read.refresh), [c] + srem);
    DeleteRefreshRefines(t1, st1, read.refresh);
    var t2, st2 := TypedRun(t1, DeleteRefresh(read.refresh)), st1.(refresh := st.refresh - Just(read.refresh));
    RunOne(t2, c, srem);
    CommandOnStore(t2, st2, c, st2.(sessions := st.sessions - {session}));
    SremRefines(TypedDo(t2, c), st2.(sessions := st.sessions - {session}), read.user, session);
  }

  function TouchCommands(st: Store, user: UserId, expires: int): seq<Command> {
    if user in st.index then [Put(UserSessionsKey(user), SetValue(st.index[user].(expires := expires)))] else []
  }

  lemma TouchRefines(typed: Typed, st: Store, user: UserId, expires: int)
    requires Holds(typed, st)
    ensures Holds(TypedRun(typed, TouchCommands(st, user, expires)), st.(index := Touch(st.index, user, expires)))
  {
    var cs := TouchCommands(st, user, expires);
    if cs != [] {
      CommandOnStore(typed, st, cs[0], st.(index := Touch(st.index, user, expires)));
      RunOne(typed, cs[0], []);
      assert cs == [cs[0]] + [];
    }
  }

  /** SETEX, SETEX, HSET with EXPIRE: the three writes of a rotation. */
  function RenewCommands(ttl: Ttl, st: Store, session: SessionId, user: UserId, jti: Jti,
                         token: RefreshToken): seq<Command>
  {
    var owner := if session in st.sessions then st.sessions[session].user else None;
    [PutAccess(jti, Grant(user, session, st.now + ttl.access)),
     PutRefresh(token, Grant(user, session, st.now + ttl.refresh)),
     Put(SessionKey(session), HashValue(Hash(owner, Some(jti), Some(token), st.now + ttl.refresh)))]
  }

  lemma RenewRefines(ttl: Ttl, typed: Typed, st: Store, session: SessionId, user: UserId, jti: Jti, token: RefreshToken)
    requires Holds(typed, st)
    ensures
      var owner := if session in st.sessions then st.sessions[session].user else None;
      Holds(TypedRun(typed, RenewCommands(ttl, st, session, user, jti, token)),
            st.(access := st.access[jti := Grant(user, session, st.now + ttl.access)],
                refresh := st.refresh[token := Grant(user, session, st.now + ttl.refresh)],
                sessions := st.sessions[session := Hash(owner, Some(jti), Some(token), st.now + ttl.refresh)]))
  {
    hide Holds;
    var cs := RenewCommands(ttl, st, session, user, jti, token);
    var owner := if session in st.sessions then st.sessions[session].user else None;
    var st1 := st.(access := st.access[jti := Grant(user, session, st.now + ttl.access)]);
    var st2 := st1.(refresh := st.refresh[token := Grant(user, session, st.now + ttl.refresh)]);
    var st3 := st2.(sessions := st.sessions[session := Hash(owner, Some(jti), Some(token), st.now + ttl.refresh)]);
    CommandOnStore(typed, st, cs[0], st1);
    var t1 := TypedDo(typed, cs[0]);
    CommandOnStore(t1, st1, cs[1], st2);
    var t2 := TypedDo(t1, cs[1]);
    CommandOnStore(t2, st2, cs[2], st3);
    assert cs == [cs[0]] + ([cs[1]] + ([cs[2]] + []));
    RunOne(typed, cs[0], [cs[1]] + ([cs[2]] + []));
    RunOne(t1, cs[1], [cs[2]] + []);
    RunOne(t2, cs[2], []);
  }

  function RotateCommands(ttl: Ttl, st: Store, session: SessionId, user: UserId, oldJti: Option<Jti>,
                          spent: RefreshToken, jti: Jti, token: RefreshToken): seq<Command>
  {
    DeleteRefresh(Some(spent))
    + (DeleteAccess(oldJti)
       + (RenewCommands(ttl, st, session, user, jti, token) + TouchCommands(st, user, st.now + ttl.refresh)))
  }

  lemma RotateRefines(ttl: Ttl, typed: Typed, st: Store, session: SessionId, user: UserId, oldJti: Option<Jti>,
                      spent: RefreshToken, jti: Jti, token: RefreshToken)
    requires Holds(typed, st)
    ensures
      Holds(TypedRun(typed, RotateCommands(ttl, st, session, user, oldJti, spent, jti, token)),
            Rotate(ttl, st, session, user, oldJti, spent, jti, token))
  {
    hide Holds;
    hide TypedRun;
    var renew := RenewCommands(ttl, st, session, user, jti, token);
    var touch := TouchCommands(st, user, st.now + ttl.refresh);
    RunSplit(typed, DeleteRefresh(Some(spent)), DeleteAccess(oldJti) + (renew + touch));
    DeleteRefreshRefines(typed, st, Some(spent));
    var t1, st1 := TypedRun(typed, DeleteRefresh(Some(spent))), st.(refresh := st.refresh - {spent});
    RunSplit(t1, DeleteAccess(oldJti), renew + touch);
    DeleteAccessRefines(t1, st1, oldJti);
    var t2, st2 := TypedRun(t1, DeleteAccess(oldJti)), st1.(access := st.access - Just(oldJti));
    RunSplit(t2, renew, touch);
    RenewRefines(ttl, t2, st2, session, user, jti, token);
    var st3 := Rotate(ttl, st, session, user, oldJti, spent, jti, token).(index := st.index);
    TouchRefines(TypedRun(t2, renew), st3, user, st.now + ttl.refresh);
  }

  // ------------------------------------------------------------------------
  // Counters and records
  // ------------------------------------------------------------------------

  /** Everything in Redis: the session store, the rate-limit counters by their key
      without "rl:", and the idempotency records by their whole key. */
  datatype Logical = Logical(store: Store, counters: RateLimiting.Counters, records: Idempotency.Records)

  /** What the limiter or the idempotency store has under a key. */
  function StoredOther(l: Logical, k: Key): Option<Value>
    requires !IsSessionKey(k)
  {
    match k
    case RateLimitKey(key) => if key in l.counters then Some(CounterValue(l.counters[key])) else None
    case IdempotencyKey(_, _) => if Text(k) in l.records then Some(RecordValue(l.records[Text(k)])) else None
  }

  ghost predicate HoldsOthers(typed: Typed, l: Logical) {
    forall k | !IsSessionKey(k) && Proper(k) :: Look(typed, k) == StoredOther(l, k)
  }

  ghost predicate HoldsAll(typed: Typed, l: Logical) {
    Holds(typed, l.store) && HoldsOthers(typed, l)
  }

  lemma CounterCommand(typed: Typed, l: Logical, key: string, counter: RateLimiting.Counter)
    requires HoldsAll(typed, l)
    ensures
      HoldsAll(TypedDo(typed, Put(RateLimitKey(key), CounterValue(counter))),
               l.(counters := l.counters[key := counter]))
  {
    OtherCommandKeepsSessions(typed, l.store, Put(RateLimitKey(key), CounterValue(counter)));
    hide Holds;
  }

  lemma RecordCommand(typed: Typed, l: Logical, k: Key, record: Idempotency.Record)
    requires HoldsAll(typed, l) && k.IdempotencyKey? && Proper(k)
    ensures HoldsAll(TypedDo(typed, Put(k, RecordValue(record))), l.(records := l.records[Text(k) := record]))
  {
    OtherCommandKeepsSessions(typed, l.store, Put(k, RecordValue(record)));
    hide Holds;
    var typed', l' := TypedDo(typed, Put(k, RecordValue(record))), l.(records := l.records[Text(k) := record]);
    forall o | !IsSessionKey(o) && Proper(o) ensures Look(typed', o) == StoredOther(l', o) {
      assert Look(typed, o) == StoredOther(l, o);
      if o.IdempotencyKey? { KeysAreInjective(k, o); }
    }
  }

  ghost predicate OnSessions(cs: seq<Command>) {
    forall c | c in cs :: IsSessionKey(c.key)
  }

  lemma OnSessionsConcat(a: seq<Command>, b: seq<Command>)
    requires OnSessions(a) && OnSessions(b)
    ensures OnSessions(a + b)
  {
  }

  /** The session store's commands keep every counter and every record. */
  lemma {:induction false} SessionCommandsKeepOthers(typed: Typed, l: Logical, cs: seq<Command>)
    requires HoldsOthers(typed, l) && OnSessions(cs)
    ensures HoldsOthers(TypedRun(typed, cs), l)
    decreases |cs|
  {
    if cs != [] {
      assert HoldsOthers(TypedDo(typed, cs[0]), l);
      SessionCommandsKeepOthers(TypedDo(typed, cs[0]), l, cs[1..]);
    }
  }

  lemma CreateIsOnSessions(ttl: Ttl, st: Store, session: SessionId, user: UserId, jti: Jti, token: RefreshToken)
    ensures OnSessions(CreateCommands(ttl, st, session, user, jti, token))
  {
  }

  lemma DeletesAreOnSessions(jti: Option<Jti>, token: Option<RefreshToken>)
    ensures OnSessions(DeleteAccess(jti)) && OnSessions(DeleteRefresh(token))
  {
  }

  lemma RotateIsOnSessions(ttl: Ttl, st: Store, session: SessionId, user: UserId, oldJti: Option<Jti>,
                           spent: RefreshToken, jti: Jti, token: RefreshToken)
    ensures OnSessions(RotateCommands(ttl, st, session, user, oldJti, spent, jti, token))
  {
    var renew := RenewCommands(ttl, st, session, user, jti, token);
    var touch := TouchCommands(st, user, st.now + ttl.refresh);
    DeletesAreOnSessions(oldJti, Some(spent));
    assert OnSessions(renew) && OnSessions(touch);
    hide OnSessions;
    OnSessionsConcat(renew, touch);
    OnSessionsConcat(DeleteAccess(oldJti), renew + touch);
    OnSessionsConcat(DeleteRefresh(Some(spent)), DeleteAccess(oldJti) + (renew + touch));
  }

  lemma RevokeIsOnSessions(st: Store, session: SessionId, read: Hash)
    ensures OnSessions(RevokeCommands(st, session, read))
  {
    var del, srem := [Delete(SessionKey(session))], SremCommands(st, read.user, session);
    DeletesAreOnSessions(read.jti, read.refresh);
    assert OnSessions(del) && OnSessions(srem);
    hide OnSessions;
    OnSessionsConcat(del, srem);
    OnSessionsConcat(DeleteRefresh(read.refresh), del + srem);
    OnSessionsConcat(DeleteAccess(read.jti), DeleteRefresh(read.refresh) + (del + srem));
  }

  // ------------------------------------------------------------------------
  // One Redis
  // ------------------------------------------------------------------------

  /** What the components send: the token store's pipelines and single commands, the
      limiter's SET NX and INCR, and the idempotency store's SETEX. */
  datatype Sent =
    | SendCreate(session: SessionId, user: UserId, jti: Jti, token: RefreshToken)
    | SendRotate(session: SessionId, user: UserId, oldJti: Option<Jti>, spent: RefreshToken, jti: Jti,
                 token: RefreshToken)
    | SendRevoke(session: SessionId, read: Hash)
    | SendGetDel(token: RefreshToken)
    | SendDropIndex(user: UserId)
    | SendSetNx(key: string, now: int, window: int)
    | SendIncr(key: string, now: int)
    | SendRecord(operation: string, value: string, record: Idempotency.Record)

  predicate OfSessions(sent: Sent) {
    !sent.SendSetNx? && !sent.SendIncr? && !sent.SendRecord?
  }

  function CounterAfter(l: Logical, sent: Sent): RateLimiting.Counter
    requires sent.SendSetNx? || sent.SendIncr?
  {
    var slot := RateLimiting.Look(l.counters, sent.key, sent.now);
    if sent.SendSetNx? then RateLimiting.SetNx(slot, sent.now, sent.window) else RateLimiting.Incr(slot)
  }

  function CommandsOf(ttl: Ttl, l: Logical, sent: Sent): seq<Command> {
    match sent
    case SendCreate(s, u, j, t) => CreateCommands(ttl, l.store, s, u, j, t)
    case SendRotate(s, u, oldJti, spent, j, t) => RotateCommands(ttl, l.store, s, u, oldJti, spent, j, t)
    case SendRevoke(s, read) => RevokeCommands(l.store, s, read)
    case SendGetDel(t) => DeleteRefresh(Some(t))
    case SendDropIndex(u) => [Delete(UserSessionsKey(u))]
    case SendRecord(op, value, record) => [Put(IdempotencyKey(op, value), RecordValue(record))]
    case _ => [Put(RateLimitKey(sent.key), CounterValue(CounterAfter(l, sent)))]
  }

  function EffectOf(ttl: Ttl, l: Logical, sent: Sent): Logical {
    match sent
    case SendCreate(s, u, j, t) => l.(store := Create(ttl, l.store, s, u, j, t))
    case SendRotate(s, u, oldJti, spent, j, t) => l.(store := Rotate(ttl, l.store, s, u, oldJti, spent, j, t))
    case SendRevoke(s, read) => l.(store := Revoke(l.store, s, read))
    case SendGetDel(t) => l.(store := GetDel(l.store, t))
    case SendDropIndex(u) => l.(store := DropIndex(l.store, u))
    case SendRecord(op, value, record) => l.(records := l.records[Text(IdempotencyKey(op, value)) := record])
    case _ => l.(counters := l.counters[sent.key := CounterAfter(l, sent)])
  }

  lemma SessionSends(ttl: Ttl, typed: Typed, l: Logical, sent: Sent)
    requires HoldsAll(typed, l) && OfSessions(sent)
    ensures OnSessions(CommandsOf(ttl, l, sent))
    ensures HoldsAll(TypedRun(typed, CommandsOf(ttl, l, sent)), EffectOf(ttl, l, sent))
  {
    hide Holds;
    hide HoldsOthers;
    hide OnSessions;
    hide TypedRun;
    hide CreateCommands;
    hide RotateCommands;
    hide RevokeCommands;
    var st := l.store;
    match sent {
      case SendCreate(s, u, j, t) =>
        CreateRefines(ttl, typed, st, s, u, j, t);
        CreateIsOnSessions(ttl, st, s, u, j, t);
      case SendRotate(s, u, oldJti, spent, j, t) =>
        RotateRefines(ttl, typed, st, s, u, oldJti, spent, j, t);
        RotateIsOnSessions(ttl, st, s, u, oldJti, spent, j, t);
      case SendRevoke(s, read) =>
        RevokeRefines(typed, st, s, read);
        RevokeIsOnSessions(st, s, read);
      case SendGetDel(t) =>
        DeleteRefreshRefines(typed, st, Some(t));
        DeletesAreOnSessions(None, Some(t));
      case SendDropIndex(u) => DropIndexRefines(typed, st, u);
    }
    SessionCommandsKeepOthers(typed, l, CommandsOf(ttl, l, sent));
    OthersOnly(TypedRun(typed, CommandsOf(ttl, l, sent)), l, EffectOf(ttl, l, sent));
  }

  lemma DropIndexRefines(typed: Typed, st: Store, user: UserId)
    requires Holds(typed, st)
    ensures Holds(TypedRun(typed, [Delete(UserSessionsKey(user))]), DropIndex(st, user))
    ensures OnSessions([Delete(UserSessionsKey(user))])
  {
    CommandOnStore(typed, st, Delete(UserSessionsKey(user)), DropIndex(st, user));
    RunOne(typed, Delete(UserSessionsKey(user)), []);
    assert [Delete(UserSessionsKey(user))] == [Delete(UserSessionsKey(user))] + [];
  }

  lemma OthersOnly(typed: Typed, l: Logical, l': Logical)
    requires HoldsOthers(typed, l) && l'.counters == l.counters && l'.records == l.records
    ensures HoldsOthers(typed, l')
  {
  }

  lemma OtherSends(ttl: Ttl, typed: Typed, l: Logical, sent: Sent)
    requires HoldsAll(typed, l) && !OfSessions(sent) && (sent.SendRecord? ==> ColonFree(sent.operation))
    ensures forall c | c in CommandsOf(ttl, l, sent) :: Proper(c.key)
    ensures HoldsAll(TypedRun(typed, CommandsOf(ttl, l, sent)), EffectOf(ttl, l, sent))
  {
    hide HoldsAll;
    hide CounterAfter;
    var c := CommandsOf(ttl, l, sent)[0];
    if sent.SendRecord? {
      RecordCommand(typed, l, c.key, sent.record);
    } else {
      CounterCommand(typed, l, sent.key, CounterAfter(l, sent));
    }
    RunOne(typed, c, []);
    assert CommandsOf(ttl, l, sent) == [c] + [];
  }

  /** With string keys in one Redis, whatever a component sends has exactly its effect
      on that component's own maps; every other session entry, counter and record
      stays as it was. */
  lemma OneRedisServesAll(ttl: Ttl, flat: Flat, typed: Typed, l: Logical, sent: Sent)
    requires Represents(flat, typed) && HoldsAll(typed, l) && (sent.SendRecord? ==> ColonFree(sent.operation))
    ensures
      var cs := CommandsOf(ttl, l, sent);
      && Represents(FlatRun(flat, cs), TypedRun(typed, cs))
      && HoldsAll(TypedRun(typed, cs), EffectOf(ttl, l, sent))
  {
    hide HoldsAll;
    hide Represents;
    hide CommandsOf;
    hide EffectOf;
    if OfSessions(sent) { SessionSends(ttl, typed, l, sent); } else { OtherSends(ttl, typed, l, sent); }
    FlatRefinesTyped(flat, typed, CommandsOf(ttl, l, sent));
  }

  /** What GETDEL returns, split at its first colon, names the token's owner. User ids
      are UUIDs and have no colon. */
  lemma GetDelPayload(flat: Flat, typed: Typed, st: Store, token: RefreshToken)
    requires Represents(flat, typed) && Holds(typed, st)
    requires token in st.refresh ==> ColonFree(st.refresh[token].user.text)
    ensures
      match Get(flat, RefreshKey(token))
      case Some(Payload(text, _)) =>
        token in st.refresh && SplitFirst(text) == Some((st.refresh[token].user.text, st.refresh[token].session.text))
      case _ => token !in st.refresh
  {
    assert Get(flat, RefreshKey(token)) == Look(typed, RefreshKey(token)) == Stored(st, RefreshKey(token));
    if token in st.refresh {
      SplitJoin(st.refresh[token].user.text, st.refresh[token].session.text);
    }
  }
}
