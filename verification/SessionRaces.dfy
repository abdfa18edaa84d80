/** Which handler can touch which session, and the two races of the session
    handlers: a revocation overtaken by a rotation, and a login that falls between
    the two round trips with which a revoke-all takes its snapshot. */
module SessionRaces {
  import opened Wrappers
  import opened SessionStore
  import opened Interleaving
  import opened SessionRuns

  // ------------------------------------------------------------------------
  // Ownership and isolation
  // ------------------------------------------------------------------------

  lemma {:induction false} OwnerIsFixed(ttl: Ttl, r: Run, s: SessionId, i: nat, k: nat)
    requires ValidRun(ttl, r) && i <= k <= |r.events| && s in r.worlds[i].lineage
    ensures s in r.worlds[k].lineage && r.worlds[k].lineage[s].user == r.worlds[i].lineage[s].user
  {
    hide Apply;
    if i < k {
      OwnerIsFixed(ttl, r, s, i, k - 1);
      RunKeepsInv(ttl, r, k - 1);
      LineageStep(ttl, r.worlds[k - 1], r.events[k - 1], s);
    }
  }

  /** Every access, refresh, session and set entry of `s` names the user who logged
      in to `s`, at every moment. So an owner check on a hash read at step `i` is
      still right when the revocation that it guards commits at step `k`. */
  lemma EntriesNameTheirOwner(ttl: Ttl, r: Run, s: SessionId, i: nat, k: nat)
    requires ValidRun(ttl, r) && i <= k <= |r.events| && s in r.worlds[i].lineage
    ensures
      var owner, st := r.worlds[i].lineage[s].user, r.worlds[k].store;
      && (forall j | j in st.access && st.access[j].session == s :: st.access[j].user == owner)
      && (forall t | t in st.refresh && st.refresh[t].session == s :: st.refresh[t].user == owner)
      && (s in st.sessions ==> st.sessions[s].user in {None, Some(owner)})
      && (forall u | s in MembersOf(st.index, u) :: u == owner)
  {
    hide Apply;
    OwnerIsFixed(ttl, r, s, i, k);
    RunKeepsInv(ttl, r, k);
    var w := r.worlds[k];
    forall j | j in w.store.access && w.store.access[j].session == s
      ensures w.store.access[j].user == w.lineage[s].user
    {
      assert AccessOk(ttl, w, j, w.store.access[j]);
    }
    forall t | t in w.store.refresh && w.store.refresh[t].session == s
      ensures w.store.refresh[t].user == w.lineage[s].user
    {
      assert RefreshOk(w, t, w.store.refresh[t]);
    }
    if s in w.store.sessions { assert HashOk(w, s, w.store.sessions[s]); }
  }

  /** What the store holds for one session, apart from the user's set. */
  datatype Held = Held(access: map<Jti, Grant>, refresh: map<RefreshToken, Grant>, hash: Option<Hash>)

  function HeldFor(st: Store, s: SessionId): Held {
    Held(map j | j in st.access && st.access[j].session == s :: st.access[j],
         map t | t in st.refresh && st.refresh[t].session == s :: st.refresh[t],
         if s in st.sessions then Some(st.sessions[s]) else None)
  }

  /** The session that an event works on. */
  function Target(w: World, e: Event): Option<SessionId>
    requires Enabled(w, e)
  {
    match e
    case LoginCommit(p) => Some(w.procs[p].session)
    case Consume(_, spent, _, _) => if spent in w.store.refresh then Some(w.store.refresh[spent].session) else None
    case RotateCommit(p) => Some(w.procs[p].session)
    case RevokeCommit(p) => Some(w.procs[p].session)
    case SweepCommit(p) => Some(w.procs[p].session)
    case _ => None
  }

  /** The two stores have the same entries for `s`. */
  ghost predicate SameFor(a: Store, b: Store, s: SessionId) {
    && (forall j | j in a.access && a.access[j].session == s :: j in b.access && b.access[j] == a.access[j])
    && (forall j | j in b.access && b.access[j].session == s :: j in a.access && b.access[j] == a.access[j])
    && (forall t | t in a.refresh && a.refresh[t].session == s :: t in b.refresh && b.refresh[t] == a.refresh[t])
    && (forall t | t in b.refresh && b.refresh[t].session == s :: t in a.refresh && b.refresh[t] == a.refresh[t])
    && (s in a.sessions <==> s in b.sessions)
    && (s in a.sessions ==> a.sessions[s] == b.sessions[s])
  }

  lemma SameForIsSameHeld(a: Store, b: Store, s: SessionId)
    requires SameFor(a, b, s)
    ensures HeldFor(b, s) == HeldFor(a, s)
  {
    assert HeldFor(b, s).access == HeldFor(a, s).access;
    assert HeldFor(b, s).refresh == HeldFor(a, s).refresh;
  }

  lemma LoginIsIsolated(ttl: Ttl, w: World, pid: nat, s: SessionId)
    requires Inv(ttl, w) && Enabled(w, LoginCommit(pid)) && w.procs[pid].session != s
    ensures SameFor(w.store, Apply(ttl, w, LoginCommit(pid)).store, s)
  {
    var p := w.procs[pid];
    assert ProcessOk(ttl, w, p);
    if p.jti in w.store.access { JtiIsOwn(ttl, w, p.jti); }
    if p.token in w.store.refresh { TokenIsOwn(ttl, w, p.token); }
  }

  /** The keys that a rotation writes or deletes belong to its own session. */
  lemma RotationUsesOwnKeys(ttl: Ttl, w: World, pid: nat)
    requires Inv(ttl, w) && Enabled(w, RotateCommit(pid))
    ensures
      var p := w.procs[pid];
      && p.jti !in w.store.access && p.token !in w.store.refresh && p.spent !in w.store.refresh
      && (p.oldJti.Some? && p.oldJti.value in w.store.access ==> w.store.access[p.oldJti.value].session == p.session)
  {
    var p := w.procs[pid];
    assert ProcessOk(ttl, w, p);
    assert LineageOk(w, p.session, w.lineage[p.session]);
    var last := w.lineage[p.session].last;
    if p.jti in w.store.access { JtiIsOwn(ttl, w, p.jti); }
    if p.token in w.store.refresh { TokenIsOwn(ttl, w, p.token); }
    if last.jti in w.store.access { JtiIsOwn(ttl, w, last.jti); }
  }

  lemma RotationIsIsolated(ttl: Ttl, w: World, pid: nat, s: SessionId)
    requires Inv(ttl, w) && Enabled(w, RotateCommit(pid)) && w.procs[pid].session != s
    ensures SameFor(w.store, Apply(ttl, w, RotateCommit(pid)).store, s)
  {
    hide Inv;
    RotationUsesOwnKeys(ttl, w, pid);
  }

  lemma JtiIsOwn(ttl: Ttl, w: World, j: Jti)
    requires Inv(ttl, w) && j in w.store.access
    ensures j in w.jtiOf && w.jtiOf[j] == w.store.access[j].session
  {
    assert AccessOk(ttl, w, j, w.store.access[j]);
    assert LineageOk(w, w.store.access[j].session, w.lineage[w.store.access[j].session]);
  }

  lemma TokenIsOwn(ttl: Ttl, w: World, t: RefreshToken)
    requires Inv(ttl, w) && t in w.store.refresh
    ensures t in w.tokenOf && w.tokenOf[t] == w.store.refresh[t].session
  {
    assert RefreshOk(w, t, w.store.refresh[t]);
    assert LineageOk(w, w.store.refresh[t].session, w.lineage[w.store.refresh[t].session]);
  }

  /** Revoking with what was read of one session, however stale, takes nothing from
      another. */
  lemma RevokeIsIsolated(ttl: Ttl, w: World, target: SessionId, read: Hash, s: SessionId)
    requires Inv(ttl, w) && ReadOk(w, target, read) && s != target
    ensures SameFor(w.store, Revoke(w.store, target, read), s)
  {
    if read.jti.Some? && read.jti.value in w.store.access { JtiIsOwn(ttl, w, read.jti.value); }
    if read.refresh.Some? && read.refresh.value in w.store.refresh { TokenIsOwn(ttl, w, read.refresh.value); }
  }

  lemma RevocationIsIsolated(ttl: Ttl, w: World, e: Event, s: SessionId)
    requires Inv(ttl, w) && Enabled(w, e) && (e.RevokeCommit? || e.SweepCommit?) && Target(w, e) != Some(s)
    ensures SameFor(w.store, Apply(ttl, w, e).store, s)
  {
    var p := w.procs[e.pid];
    assert ProcessOk(ttl, w, p);
    RevokeIsIsolated(ttl, w, p.session, p.read, s);
    assert Apply(ttl, w, e).store == Revoke(w.store, p.session, p.read);
  }

  lemma OthersAreIsolated(ttl: Ttl, w: World, e: Event, s: SessionId)
    requires Enabled(w, e) && Target(w, e) != Some(s)
    requires !e.Tick? && !e.LoginCommit? && !e.RotateCommit? && !e.RevokeCommit? && !e.SweepCommit?
    ensures SameFor(w.store, Apply(ttl, w, e).store, s)
  {
  }

  lemma StepIsIsolated(ttl: Ttl, w: World, e: Event, s: SessionId)
    requires Inv(ttl, w) && Enabled(w, e) && !e.Tick? && Target(w, e) != Some(s)
    ensures SameFor(w.store, Apply(ttl, w, e).store, s)
  {
    hide Apply;
    match e
    case LoginCommit(p) => LoginIsIsolated(ttl, w, p, s);
    case RotateCommit(p) => RotationIsIsolated(ttl, w, p, s);
    case RevokeCommit(_) => RevocationIsIsolated(ttl, w, e, s);
    case SweepCommit(_) => RevocationIsIsolated(ttl, w, e, s);
    case _ => OthersAreIsolated(ttl, w, e, s);
  }

  /** Apart from the passing of time, an event leaves every session but its target
      exactly as it was, in every run. */
  lemma SessionsAreIsolated(ttl: Ttl, r: Run, i: nat, s: SessionId)
    requires ValidRun(ttl, r) && i < |r.events| && !r.events[i].Tick?
    requires Target(r.worlds[i], r.events[i]) != Some(s)
    ensures HeldFor(r.worlds[i + 1].store, s) == HeldFor(r.worlds[i].store, s)
  {
    hide Apply;
    RunKeepsInv(ttl, r, i);
    StepIsIsolated(ttl, r.worlds[i], r.events[i], s);
    SameForIsSameHeld(r.worlds[i].store, r.worlds[i + 1].store, s);
  }

  // ------------------------------------------------------------------------
  // A revoke-all among concurrent logins
  // ------------------------------------------------------------------------

  /** The sessions that a revoke-all handler still means to revoke. */
  function Todo(p: Process): set<SessionId> {
    match p
    case Snapshot(_, todo) => todo
    case Sweeping(_, todo) => todo
    case SweepReady(_, todo, s, _) => todo + {s}
    case _ => {}
  }

  predicate IsSweep(p: Process) {
    p.Snapshot? || p.Sweeping? || p.SweepReady?
  }

  lemma TodoOnlyShrinks(ttl: Ttl, w: World, e: Event, p: nat)
    requires Enabled(w, e) && p in w.procs && p in Apply(ttl, w, e).procs
    ensures Todo(Apply(ttl, w, e).procs[p]) <= Todo(w.procs[p])
    ensures IsSweep(w.procs[p]) ==> IsSweep(Apply(ttl, w, e).procs[p])
    ensures w.procs[p].Sweeping? || w.procs[p].SweepReady? ==> !Apply(ttl, w, e).procs[p].Snapshot?
    ensures IsSweep(w.procs[p]) ==> Apply(ttl, w, e).procs[p].user == w.procs[p].user
  {
  }

  lemma SnapshotIsOfEarlierLogins(ttl: Ttl, w: World, p: nat, user: UserId)
    requires Inv(ttl, w) && Enabled(w, SweepMembers(p, user))
    ensures
      var w' := Apply(ttl, w, SweepMembers(p, user));
      p in w'.procs && w'.procs[p] == Snapshot(user, MembersOf(w.store.index, user))
          && Todo(w'.procs[p]) <= w.lineage.Keys
  {
  }

  /** A session that had not logged in when a revoke-all took its snapshot at step
      `i` is never among those it means to revoke, as long as that handler runs. */
  lemma {:induction false} LaterLoginIsNotSwept(ttl: Ttl, r: Run, s: SessionId, i: nat, k: nat, p: nat, user: UserId)
    requires ValidRun(ttl, r) && i < k <= |r.events|
    requires r.events[i] == SweepMembers(p, user) && s !in r.worlds[i].lineage
    requires forall m | i < m <= k :: p in r.worlds[m].procs
    ensures IsSweep(r.worlds[k].procs[p]) && r.worlds[k].procs[p].user == user && s !in Todo(r.worlds[k].procs[p])
  {
    hide Apply;
    if k == i + 1 {
      RunKeepsInv(ttl, r, i);
      SnapshotIsOfEarlierLogins(ttl, r.worlds[i], p, user);
    } else {
      LaterLoginIsNotSwept(ttl, r, s, i, k - 1, p, user);
      assert p in r.worlds[k - 1].procs && p in r.worlds[k].procs;
      TodoOnlyShrinks(ttl, r.worlds[k - 1], r.events[k - 1], p);
    }
  }

  /** So whatever that handler does next leaves the later session's entries alone;
      and once it has deleted the user's set, also the session's place in the set. */
  lemma LaterLoginIsSpared(ttl: Ttl, r: Run, s: SessionId, i: nat, k: nat, p: nat, user: UserId)
    requires ValidRun(ttl, r) && i < k < |r.events|
    requires r.events[i] == SweepMembers(p, user) && s !in r.worlds[i].lineage
    requires forall m | i < m <= k :: p in r.worlds[m].procs
    requires IsBy(r.events[k], p)
    ensures HeldFor(r.worlds[k + 1].store, s) == HeldFor(r.worlds[k].store, s)
    ensures !r.worlds[k].procs[p].Snapshot? ==>
              (s in MembersOf(r.worlds[k + 1].store.index, user) <==> s in MembersOf(r.worlds[k].store.index, user))
  {
    hide Apply;
    LaterLoginIsNotSwept(ttl, r, s, i, k, p, user);
    SweepSpares(ttl, r.worlds[k], r.events[k], p, s);
    SessionsAreIsolated(ttl, r, k, s);
  }

  lemma SweepSpares(ttl: Ttl, w: World, e: Event, p: nat, s: SessionId)
    requires p in w.procs && IsSweep(w.procs[p]) && s !in Todo(w.procs[p]) && IsBy(e, p) && Enabled(w, e)
    ensures Target(w, e) != Some(s)
    ensures
      !w.procs[p].Snapshot? ==>
        var user := w.procs[p].user;
        s in MembersOf(Apply(ttl, w, e).store.index, user) <==> s in MembersOf(w.store.index, user)
  {
  }

  /** A later revoke-all would find the session, or one under way will. */
  ghost predicate Reachable(w: World, s: SessionId, user: UserId) {
    s in MembersOf(w.store.index, user) || exists p :: p in w.procs && s in Todo(w.procs[p])
  }

  ghost predicate InOtherTodo(w: World, s: SessionId, p: nat) {
    exists q :: q in w.procs && q != p && s in Todo(w.procs[q])
  }

  lemma OthersAddNoMember(ttl: Ttl, w: World, e: Event, user: UserId)
    requires Enabled(w, e) && !e.LoginCommit?
    ensures MembersOf(Apply(ttl, w, e).store.index, user) <= MembersOf(w.store.index, user)
  {
  }

  /** Only the login of `s` puts `s` in a set. */
  lemma OnlyLoginAddsMember(ttl: Ttl, w: World, e: Event, s: SessionId, user: UserId)
    requires Inv(ttl, w) && Enabled(w, e) && s in w.lineage && s in MembersOf(Apply(ttl, w, e).store.index, user)
    ensures s in MembersOf(w.store.index, user)
  {
    if e.LoginCommit? {
      assert ProcessOk(ttl, w, w.procs[e.pid]);
      var p := w.procs[e.pid];
      assert Apply(ttl, w, e).store.index == Create(ttl, w.store, p.session, p.user, p.jti, p.token).index;
    } else {
      OthersAddNoMember(ttl, w, e, user);
    }
  }

  lemma {:induction false} MembersAreOld(ttl: Ttl, r: Run, s: SessionId, user: UserId, i: nat, k: nat)
    requires ValidRun(ttl, r) && i <= k <= |r.events| && s in r.worlds[i].lineage
    requires s in MembersOf(r.worlds[k].store.index, user)
    ensures s in MembersOf(r.worlds[i].store.index, user)
    decreases k
  {
    hide Apply;
    if i < k {
      RunKeepsInv(ttl, r, k - 1);
      OwnerIsFixed(ttl, r, s, i, k - 1);
      OnlyLoginAddsMember(ttl, r.worlds[k - 1], r.events[k - 1], s, user);
      MembersAreOld(ttl, r, s, user, i, k - 1);
    }
  }

  lemma SnapshotStep(ttl: Ttl, w: World, e: Event, p: nat)
    requires Enabled(w, e) && p in w.procs && p in Apply(ttl, w, e).procs && Apply(ttl, w, e).procs[p].Snapshot?
    ensures Apply(ttl, w, e).procs[p] == w.procs[p]
  {
  }

  lemma {:induction false} SnapshotIsKept(ttl: Ttl, r: Run, i: nat, k: nat, p: nat, user: UserId)
    requires ValidRun(ttl, r) && i < k <= |r.events| && r.events[i] == SweepMembers(p, user)
    requires (forall m | i < m <= k :: p in r.worlds[m].procs) && r.worlds[k].procs[p].Snapshot?
    ensures r.worlds[k].procs[p] == Snapshot(user, MembersOf(r.worlds[i].store.index, user))
    decreases k
  {
    hide Apply;
    if k == i + 1 {
      RunKeepsInv(ttl, r, i);
      SnapshotIsOfEarlierLogins(ttl, r.worlds[i], p, user);
    } else {
      assert p in r.worlds[k - 1].procs && p in r.worlds[k].procs;
      SnapshotStep(ttl, r.worlds[k - 1], r.events[k - 1], p);
      SnapshotIsKept(ttl, r, i, k - 1, p, user);
    }
  }

  lemma MembersHaveLoggedIn(ttl: Ttl, w: World, s: SessionId, user: UserId)
    requires Inv(ttl, w) && s in MembersOf(w.store.index, user)
    ensures s in w.lineage && w.lineage[s].user == user
  {
  }

  /** Of the sessions that the DEL of a revoke-all takes out of the set, the handler
      means to revoke those that had logged in when it took its snapshot, and misses
      exactly those that logged in between the two round trips. */
  lemma SnapshotMissesIff(ttl: Ttl, r: Run, i: nat, k: nat, p: nat, user: UserId, s: SessionId)
    requires ValidRun(ttl, r) && i < k < |r.events|
    requires r.events[i] == SweepMembers(p, user) && (forall m | i < m <= k :: p in r.worlds[m].procs)
    requires r.events[k] == SweepDrop(p) && s in MembersOf(r.worlds[k].store.index, user)
    ensures s in Todo(r.worlds[k].procs[p]) <==> s in r.worlds[i].lineage
  {
    hide Apply;
    assert Enabled(r.worlds[k], r.events[k]);
    SnapshotIsKept(ttl, r, i, k, p, user);
    RunKeepsInv(ttl, r, i);
    if s in r.worlds[i].lineage {
      MembersAreOld(ttl, r, s, user, i, k);
    } else if s in MembersOf(r.worlds[i].store.index, user) {
      MembersHaveLoggedIn(ttl, r.worlds[i], s, user);
    }
  }

  lemma DropReaches(ttl: Ttl, w: World, p: nat, s: SessionId)
    requires Enabled(w, SweepDrop(p))
    ensures
      Reachable(Apply(ttl, w, SweepDrop(p)), s, w.procs[p].user) <==>
      s in Todo(w.procs[p]) || InOtherTodo(w, s, p)
  {
    var w' := Apply(ttl, w, SweepDrop(p));
    assert forall q | q in w.procs :: q in w'.procs && Todo(w'.procs[q]) == Todo(w.procs[q]);
  }

  /** Over every run: the DEL of a revoke-all strands a session of the set exactly when
      the session logged in after this revoke-all's SMEMBERS and no other revoke-all
      under way has it in its snapshot. */
  lemma DropStrandsIff(ttl: Ttl, r: Run, i: nat, k: nat, p: nat, user: UserId, s: SessionId)
    requires ValidRun(ttl, r) && i < k < |r.events|
    requires r.events[i] == SweepMembers(p, user) && (forall m | i < m <= k :: p in r.worlds[m].procs)
    requires r.events[k] == SweepDrop(p) && s in MembersOf(r.worlds[k].store.index, user)
    ensures
      !Reachable(r.worlds[k + 1], s, user) <==> s !in r.worlds[i].lineage && !InOtherTodo(r.worlds[k], s, p)
  {
    hide Apply;
    hide Reachable;
    assert Enabled(r.worlds[k], r.events[k]);
    SnapshotMissesIff(ttl, r, i, k, p, user, s);
    SnapshotIsKept(ttl, r, i, k, p, user);
    DropReaches(ttl, r.worlds[k], p, s);
  }

  lemma ExitReaches(ttl: Ttl, w: World, p: nat, s: SessionId, user: UserId)
    requires Enabled(w, Exit(p))
    ensures
      Reachable(Apply(ttl, w, Exit(p)), s, user) <==> s in MembersOf(w.store.index, user) || InOtherTodo(w, s, p)
  {
    var w' := Apply(ttl, w, Exit(p));
    assert forall q | q in w.procs && q != p :: q in w'.procs && w'.procs[q] == w.procs[q];
  }

  lemma DropEmptiesSet(ttl: Ttl, w: World, p: nat, user: UserId)
    requires Enabled(w, SweepDrop(p)) && w.procs[p].user == user
    ensures MembersOf(Apply(ttl, w, SweepDrop(p)).store.index, user) == {}
  {
  }

  /** Over every run: when a revoke-all dies after its DEL, a session that it had not
      reached yet is stranded exactly when no other revoke-all under way has it. */
  lemma CrashStrandsIff(ttl: Ttl, r: Run, i: nat, d: nat, k: nat, p: nat, user: UserId, s: SessionId)
    requires ValidRun(ttl, r) && i < d < k < |r.events|
    requires r.events[i] == SweepMembers(p, user) && (forall m | i < m <= k :: p in r.worlds[m].procs)
    requires r.events[d] == SweepDrop(p) && r.events[k] == Exit(p) && s in Todo(r.worlds[k].procs[p])
    ensures !Reachable(r.worlds[k + 1], s, user) <==> !InOtherTodo(r.worlds[k], s, p)
  {
    hide Apply;
    hide Reachable;
    assert p in r.worlds[d].procs && Enabled(r.worlds[d], r.events[d]);
    SnapshotIsKept(ttl, r, i, d, p, user);
    DropEmptiesSet(ttl, r.worlds[d], p, user);
    TodoHasLoggedIn(ttl, r, i, k, p, user, s);
    OwnerIsFixed(ttl, r, s, i, d + 1);
    if s in MembersOf(r.worlds[k].store.index, user) { MembersAreOld(ttl, r, s, user, d + 1, k); }
    ExitReaches(ttl, r.worlds[k], p, s, user);
  }

  lemma TodoHasLoggedIn(ttl: Ttl, r: Run, i: nat, k: nat, p: nat, user: UserId, s: SessionId)
    requires ValidRun(ttl, r) && i < k <= |r.events|
    requires r.events[i] == SweepMembers(p, user) && (forall m | i < m <= k :: p in r.worlds[m].procs)
    requires s in Todo(r.worlds[k].procs[p])
    ensures s in r.worlds[i].lineage
  {
    if s !in r.worlds[i].lineage { LaterLoginIsNotSwept(ttl, r, s, i, k, p, user); }
  }

  lemma StrandedStep(ttl: Ttl, w: World, e: Event, s: SessionId, user: UserId)
    requires Inv(ttl, w) && Enabled(w, e) && s in w.lineage && w.lineage[s].user == user && !Reachable(w, s, user)
    ensures !Reachable(Apply(ttl, w, e), s, user)
  {
    var w' := Apply(ttl, w, e);
    if s in MembersOf(w'.store.index, user) { OnlyLoginAddsMember(ttl, w, e, s, user); }
    forall q | q in w'.procs ensures s !in Todo(w'.procs[q]) {
      if q in w.procs {
        TodoOnlyShrinks(ttl, w, e, q);
      } else if e.SweepMembers? && s in MembersOf(w.store.index, e.user) {
        MembersHaveLoggedIn(ttl, w, s, e.user);
      }
    }
  }

  /** A stranded session stays stranded: no revoke-all ever has it in its snapshot
      again. */
  lemma {:induction false} StrandedStaysStranded(ttl: Ttl, r: Run, i: nat, k: nat, s: SessionId, user: UserId)
    requires ValidRun(ttl, r) && i <= k <= |r.events|
    requires s in r.worlds[i].lineage && r.worlds[i].lineage[s].user == user && !Reachable(r.worlds[i], s, user)
    ensures !Reachable(r.worlds[k], s, user)
    decreases k
  {
    hide Apply;
    hide Reachable;
    if i < k {
      StrandedStaysStranded(ttl, r, i, k - 1, s, user);
      RunKeepsInv(ttl, r, k - 1);
      OwnerIsFixed(ttl, r, s, i, k - 1);
      StrandedStep(ttl, r.worlds[k - 1], r.events[k - 1], s, user);
    }
  }

  // ------------------------------------------------------------------------
  // Runs
  // ------------------------------------------------------------------------

  /** The run `r`, continued by one event. */
  function Then(ttl: Ttl, r: Run, e: Event): (r': Run)
    requires ValidRun(ttl, r) && Enabled(Now(r), e)
    ensures ValidRun(ttl, r') && |r'.worlds| == |r'.events| + 1 && Now(r') == Apply(ttl, Now(r), e)
    ensures |r'.events| == |r.events| + 1 && r'.events[|r.events|] == e && r'.worlds[|r.events|] == Now(r)
  {
    Run(r.worlds + [Apply(ttl, Now(r), e)], r.events + [e])
  }

  function Now(r: Run): World
    requires |r.worlds| > 0
  {
    r.worlds[|r.worlds| - 1]
  }

  lemma StartRuns(ttl: Ttl)
    requires ValidTtl(ttl)
    ensures ValidRun(ttl, Run([Start], []))
  {
  }

  function RunLogin(ttl: Ttl, r: Run, user: UserId, s: SessionId, jti: Jti, token: RefreshToken): (r': Run)
    requires ValidRun(ttl, r) && Enabled(Now(r), LoginMint(0, user, s, jti, token))
    ensures ValidRun(ttl, r')
    ensures
      var w, w' := Now(r), Now(r');
      && w'.procs == w.procs && w'.sids == w.sids + {s} && w'.tokens == w.tokens + {token}
      && w'.claims.Keys == w.claims.Keys + {jti}
      && w'.store == Create(ttl, w.store, s, user, jti, token)
  {
    var r1 := Then(ttl, r, LoginMint(0, user, s, jti, token));
    var r2 := Then(ttl, r1, LoginCommit(0));
    assert Now(r2).procs == Now(r).procs;
    r2
  }

  /** A refresh with `spent`, uninterrupted. */
  function RunRefresh(ttl: Ttl, r: Run, s: SessionId, user: UserId, spent: RefreshToken, jti: Jti,
                      token: RefreshToken): (r': Run)
    requires ValidRun(ttl, r) && Enabled(Now(r), Consume(2, spent, jti, token))
    requires
      var st := Now(r).store;
      spent in st.refresh && st.refresh[spent].session == s && s in st.sessions && st.sessions[s].user == Some(user)
    ensures ValidRun(ttl, r')
    ensures
      var w, w' := Now(r), Now(r');
      && w'.procs == w.procs
      && w'.store == Rotate(ttl, GetDel(w.store, spent), s, user, w.store.sessions[s].jti, spent, jti, token)
  {
    var r1 := Then(ttl, r, Consume(2, spent, jti, token));
    var r2 := Then(ttl, r1, RotateRead(2));
    var r3 := Then(ttl, r2, RotateCommit(2));
    assert Now(r3).procs == Now(r).procs;
    r3
  }

  /** "Access tokens can be revoked instantly" is not kept when a rotation commits
      between the two round trips of revoke_session: here the session has been
      revoked, and its new jti and refresh token are live. */
  lemma RotationCanOvertakeRevocation(ttl: Ttl, user: UserId, s: SessionId, j0: Jti, j1: Jti, t0: RefreshToken,
                                      t1: RefreshToken)
    returns (r: Run)
    requires ValidTtl(ttl) && j0 != j1 && t0 != t1
    ensures ValidRun(ttl, r) && |r.events| > 0
    ensures Revokes(r.worlds[|r.events| - 1], r.events[|r.events| - 1], s)
    ensures LiveJtis(r.worlds[|r.events|], s) == {j1} && LiveTokens(r.worlds[|r.events|], s) == {t1}
  {
    hide Apply;
    hide ValidRun;
    var before := OvertakingRun(ttl, user, s, j0, j1, t0, t1);
    r := Then(ttl, before, RevokeCommit(1));
    OvertakenCommit(ttl, Now(before));
    OvertakenStore(ttl, user, s, j0, j1, t0, t1);
    assert Now(r).store.access == map[j1 := Grant(user, s, ttl.access)];
    assert Now(r).store.refresh == map[t1 := Grant(user, s, ttl.refresh)];
  }

  /** A login, the HGETALL of a revocation, and a whole refresh. */
  lemma OvertakingRun(ttl: Ttl, user: UserId, s: SessionId, j0: Jti, j1: Jti, t0: RefreshToken, t1: RefreshToken)
    returns (r: Run)
    requires ValidTtl(ttl) && j0 != j1 && t0 != t1
    ensures ValidRun(ttl, r) && |r.worlds| == |r.events| + 1 && 1 in Now(r).procs
    ensures
      var st0 := Create(ttl, EmptyStore, s, user, j0, t0);
      && Now(r).procs[1] == RevokeReady(s, st0.sessions[s])
      && Now(r).store == Rotate(ttl, GetDel(st0, t0), s, user, st0.sessions[s].jti, t0, j1, t1)
  {
    hide Apply;
    hide Rotate;
    StartRuns(ttl);
    var r1 := RunLogin(ttl, Run([Start], []), user, s, j0, t0);
    var r2 := RunRevokeRead(ttl, r1, s);
    r := RunRefresh(ttl, r2, s, user, t0, j1, t1);
  }

  lemma OvertakenCommit(ttl: Ttl, w: World)
    requires Enabled(w, RevokeCommit(1))
    ensures Apply(ttl, w, RevokeCommit(1)).store == Revoke(w.store, w.procs[1].session, w.procs[1].read)
  {
  }

  lemma OvertakenStore(ttl: Ttl, user: UserId, s: SessionId, j0: Jti, j1: Jti, t0: RefreshToken, t1: RefreshToken)
    requires j0 != j1 && t0 != t1
    ensures
      var st0 := Create(ttl, EmptyStore, s, user, j0, t0);
      var st1 := Rotate(ttl, GetDel(st0, t0), s, user, st0.sessions[s].jti, t0, j1, t1);
      var st2 := Revoke(st1, s, st0.sessions[s]);
      && st2.access == map[j1 := Grant(user, s, ttl.access)]
      && st2.refresh == map[t1 := Grant(user, s, ttl.refresh)]
  {
  }

  function RunRevokeRead(ttl: Ttl, r: Run, s: SessionId): (r': Run)
    requires ValidRun(ttl, r) && 1 !in Now(r).procs && s in Now(r).store.sessions
    ensures ValidRun(ttl, r')
    ensures Now(r') == Now(r).(procs := Now(r).procs[1 := RevokeReady(s, Now(r).store.sessions[s])])
  {
    Then(ttl, r, RevokeRead(1, s))
  }

  /** The comment in revoke_all_user_sessions holds for logins after the DEL. A
      login between the SMEMBERS and the DEL is left dangling: here the revoke-all
      is over, the session is live, and neither the user's set nor a handler has
      it, so that no later revoke-all will revoke it. */
  lemma LoginCanBeStranded(ttl: Ttl, user: UserId, s: SessionId, j: Jti, t: RefreshToken) returns (r: Run)
    requires ValidTtl(ttl)
    ensures ValidRun(ttl, r) && r.worlds[|r.events|].procs == map[]
    ensures
      var w := r.worlds[|r.events|];
      && s in w.store.sessions && w.store.sessions[s].user == Some(user)
      && LiveJtis(w, s) == {j} && LiveTokens(w, s) == {t}
      && !Reachable(w, s, user)
  {
    hide Apply;
    hide ValidRun;
    hide Create;
    hide DropIndex;
    StartRuns(ttl);
    var r0 := Run([Start], []);
    var r1 := Then(ttl, r0, SweepMembers(1, user));
    EmptySnapshot(ttl, user);
    var r2 := RunLogin(ttl, r1, user, s, j, t);
    var r3 := Then(ttl, r2, SweepDrop(1));
    DropAndExit(ttl, Now(r2), user);
    r := Then(ttl, r3, Exit(1));
    assert Now(r).store == DropIndex(Create(ttl, EmptyStore, s, user, j, t), user);
    StrandedStore(ttl, user, s, j, t);
  }

  lemma StrandedStore(ttl: Ttl, user: UserId, s: SessionId, j: Jti, t: RefreshToken)
    ensures
      var st := DropIndex(Create(ttl, EmptyStore, s, user, j, t), user);
      && st.access == map[j := Grant(user, s, ttl.access)] && st.refresh == map[t := Grant(user, s, ttl.refresh)]
      && s in st.sessions && st.sessions[s].user == Some(user) && MembersOf(st.index, user) == {}
  {
  }

  lemma EmptySnapshot(ttl: Ttl, user: UserId)
    ensures Apply(ttl, Start, SweepMembers(1, user)) == Start.(procs := map[1 := Snapshot(user, {})])
  {
  }

  lemma DropAndExit(ttl: Ttl, w: World, user: UserId)
    requires w.procs == map[1 := Snapshot(user, {})]
    ensures
      var w1 := Apply(ttl, w, SweepDrop(1));
      && Enabled(w1, Exit(1))
      && Apply(ttl, w1, Exit(1)) == w.(procs := map[], store := DropIndex(w.store, user))
  {
    var w1 := Apply(ttl, w, SweepDrop(1));
    assert w1.procs - {1} == map[];
  }

  /** A login that has passed the password check when a reset revokes all sessions can
      still be committed after it: it stays live, in the user's new set. */
  lemma LoginPastCheckSurvives(ttl: Ttl, user: UserId, s: SessionId, j: Jti, t: RefreshToken) returns (r: Run)
    requires ValidTtl(ttl)
    ensures ValidRun(ttl, r) && |r.events| == 5
    ensures r.events[0] == LoginMint(0, user, s, j, t) && r.events[1] == SweepMembers(1, user)
    ensures r.events[2] == SweepDrop(1) && r.events[3] == Exit(1) && r.events[4] == LoginCommit(0)
    ensures
      var w := r.worlds[|r.events|];
      LiveJtis(w, s) == {j} && LiveTokens(w, s) == {t} && s in MembersOf(w.store.index, user)
  {
    hide Apply;
    hide ValidRun;
    hide Create;
    StartRuns(ttl);
    var r1 := Then(ttl, Run([Start], []), LoginMint(0, user, s, j, t));
    MintedLogin(ttl, user, s, j, t);
    var r2 := Then(ttl, r1, SweepMembers(1, user));
    var r3 := Then(ttl, r2, SweepDrop(1));
    var r4 := Then(ttl, r3, Exit(1));
    r := Then(ttl, r4, LoginCommit(0));
    assert Now(r).store == Create(ttl, EmptyStore, s, user, j, t);
    FreshLogin(ttl, user, s, j, t);
  }

  lemma MintedLogin(ttl: Ttl, user: UserId, s: SessionId, j: Jti, t: RefreshToken)
    ensures Enabled(Start, LoginMint(0, user, s, j, t))
    ensures
      var w1 := Apply(ttl, Start, LoginMint(0, user, s, j, t));
      && Enabled(w1, SweepMembers(1, user))
      && var w2 := Apply(ttl, w1, SweepMembers(1, user));
      && Enabled(w2, SweepDrop(1))
      && var w3 := Apply(ttl, w2, SweepDrop(1));
      && Enabled(w3, Exit(1))
      && var w4 := Apply(ttl, w3, Exit(1));
      && Enabled(w4, LoginCommit(0))
      && Apply(ttl, w4, LoginCommit(0)).store == Create(ttl, EmptyStore, s, user, j, t)
  {
    var w1 := Apply(ttl, Start, LoginMint(0, user, s, j, t));
    var w2 := Apply(ttl, w1, SweepMembers(1, user));
    var w3 := Apply(ttl, w2, SweepDrop(1));
    assert w3.store == EmptyStore;
  }

  lemma FreshLogin(ttl: Ttl, user: UserId, s: SessionId, j: Jti, t: RefreshToken)
    ensures
      var st := Create(ttl, EmptyStore, s, user, j, t);
      && st.access == map[j := Grant(user, s, ttl.access)] && st.refresh == map[t := Grant(user, s, ttl.refresh)]
      && s in st.sessions && st.sessions[s].user == Some(user) && MembersOf(st.index, user) == {s}
  {
  }

  /** A crash in the loop: here the revoke-all has died after its DEL, the session is
      live, and no later revoke-all will find it. */
  lemma CrashCanStrand(ttl: Ttl, user: UserId, s: SessionId, j: Jti, t: RefreshToken) returns (r: Run)
    requires ValidTtl(ttl)
    ensures ValidRun(ttl, r) && |r.events| == 5
    ensures r.events[2] == SweepMembers(1, user) && r.events[3] == SweepDrop(1) && r.events[4] == Exit(1)
    ensures
      var w := r.worlds[|r.events|];
      LiveJtis(w, s) == {j} && LiveTokens(w, s) == {t} && !Reachable(w, s, user)
  {
    hide Apply;
    hide ValidRun;
    hide Create;
    hide DropIndex;
    StartRuns(ttl);
    var r2 := RunLogin(ttl, Run([Start], []), user, s, j, t);
    FreshLogin(ttl, user, s, j, t);
    var r3 := Then(ttl, r2, SweepMembers(1, user));
    SweptAndExit(ttl, Now(r2), user);
    var r4 := Then(ttl, r3, SweepDrop(1));
    r := Then(ttl, r4, Exit(1));
    assert Now(r).store == DropIndex(Create(ttl, EmptyStore, s, user, j, t), user);
    StrandedStore(ttl, user, s, j, t);
  }

  lemma SweptAndExit(ttl: Ttl, w: World, user: UserId)
    requires w.procs == map[]
    ensures
      && Enabled(w, SweepMembers(1, user))
      && var w1 := Apply(ttl, w, SweepMembers(1, user));
      && Enabled(w1, SweepDrop(1))
      && var w2 := Apply(ttl, w1, SweepDrop(1));
      && Enabled(w2, Exit(1))
      && Apply(ttl, w2, Exit(1)) == w.(store := DropIndex(w.store, user))
  {
    var w1 := Apply(ttl, w, SweepMembers(1, user));
    var w2 := Apply(ttl, w1, SweepDrop(1));
    assert w2.procs - {1} == map[];
  }
}
