/** The two models of the session store agree: a handler whose round trips are not
    interrupted has exactly the effect of its atomic operation. */
module SessionAtoms {
  import opened Wrappers
  import opened SessionStore
  import opened Interleaving
  import SessionTable

  /** One round trip, if the handler is at that point. */
  function Step(ttl: Ttl, w: World, e: Event): World {
    if Enabled(w, e) then Apply(ttl, w, e) else w
  }

  lemma LoginIsAtomic(ttl: Ttl, w: World, p: nat, user: UserId, s: SessionId, jti: Jti, token: RefreshToken)
    requires Enabled(w, LoginMint(p, user, s, jti, token))
    ensures
      var w' := Step(ttl, Step(ttl, w, LoginMint(p, user, s, jti, token)), LoginCommit(p));
      w'.store == Create(ttl, w.store, s, user, jti, token) && w'.procs == w.procs
  {
    assert w.procs[p := LoginReady(user, s, jti, token)] - {p} == w.procs;
  }

  /** Whatever its outcome. */
  lemma RefreshIsAtomic(ttl: Ttl, w: World, p: nat, spent: RefreshToken, jti: Jti, token: RefreshToken)
    requires Enabled(w, Consume(p, spent, jti, token))
    ensures
      var w1 := Step(ttl, w, Consume(p, spent, jti, token));
      var w' := Step(ttl, Step(ttl, w1, RotateRead(p)), RotateCommit(p));
      w'.store == SessionTable.Refresh(ttl, w.store, spent, jti, token).0 && w'.procs == w.procs
  {
    if spent in w.store.refresh {
      ConsumedIsAtomic(ttl, Step(ttl, w, Consume(p, spent, jti, token)), p);
      assert w.procs[p := Consumed(w.store.refresh[spent].session, spent, jti, token)] - {p} == w.procs;
    }
  }

  /** From the GETDEL on, the handler is rotate_session. */
  lemma ConsumedIsAtomic(ttl: Ttl, w: World, p: nat)
    requires p in w.procs && w.procs[p].Consumed?
    ensures
      var w' := Step(ttl, Step(ttl, w, RotateRead(p)), RotateCommit(p));
      var Consumed(s, spent, jti, token) := w.procs[p];
      && w'.procs == w.procs - {p}
      && w'.store ==
         match SessionTable.RotateSession(ttl, w.store, s, spent, jti, token)
         case Ok(st) => st
         case Err(_) => w.store
  {
    hide Rotate;
    var w1 := Step(ttl, w, RotateRead(p));
    if p in w1.procs {
      ReadyCommits(ttl, w1, p);
      assert w1.procs - {p} == w.procs - {p};
    }
  }

  lemma ReadyCommits(ttl: Ttl, w: World, p: nat)
    requires p in w.procs && w.procs[p].RotateReady?
    ensures
      var w' := Step(ttl, w, RotateCommit(p));
      var RotateReady(s, user, oldJti, spent, jti, token) := w.procs[p];
      w'.procs == w.procs - {p} && w'.store == Rotate(ttl, w.store, s, user, oldJti, spent, jti, token)
  {
  }

  lemma RevokeIsAtomic(ttl: Ttl, w: World, p: nat, s: SessionId)
    requires Enabled(w, RevokeRead(p, s))
    ensures
      var w' := Step(ttl, Step(ttl, w, RevokeRead(p, s)), RevokeCommit(p));
      w'.store == SessionTable.RevokeSession(w.store, s) && w'.procs == w.procs
  {
    if s in w.store.sessions {
      assert w.procs[p := RevokeReady(s, w.store.sessions[s])] - {p} == w.procs;
    }
  }

  // ------------------------------------------------------------------------
  // revoke_all_user_sessions
  // ------------------------------------------------------------------------

  /** `order` has each element of `todo` once. */
  predicate Enumerates(order: seq<SessionId>, todo: set<SessionId>) {
    if order == [] then todo == {} else order[0] in todo && Enumerates(order[1..], todo - {order[0]})
  }

  /** The loop over the snapshot, in the given order. */
  function Sweep(ttl: Ttl, w: World, p: nat, order: seq<SessionId>): World
    decreases |order|
  {
    if order == [] then w
    else Sweep(ttl, Step(ttl, Step(ttl, w, SweepRead(p, order[0])), SweepCommit(p)), p, order[1..])
  }

  lemma SweepOne(ttl: Ttl, w: World, p: nat, s: SessionId)
    requires p in w.procs && w.procs[p].Sweeping? && s in w.procs[p].todo
    ensures
      var w' := Step(ttl, Step(ttl, w, SweepRead(p, s)), SweepCommit(p));
      && w'.store == SessionTable.RevokeSession(w.store, s)
      && w'.procs == w.procs[p := Sweeping(w.procs[p].user, w.procs[p].todo - {s})]
  {
    hide Revoke;
  }

  lemma {:induction false} SweepAll(ttl: Ttl, w: World, p: nat, order: seq<SessionId>, base: Store,
                                    done: set<SessionId>)
    requires p in w.procs && w.procs[p].Sweeping? && Enumerates(order, w.procs[p].todo)
    requires done !! w.procs[p].todo && w.store == SessionTable.RevokeMany(base, done)
    ensures
      var w' := Sweep(ttl, w, p, order);
      && w'.store == SessionTable.RevokeMany(base, done + w.procs[p].todo)
      && w'.procs == w.procs[p := Sweeping(w.procs[p].user, {})]
    decreases |order|
  {
    hide Step;
    hide SessionTable.RevokeMany;
    hide SessionTable.RevokeSession;
    var todo := w.procs[p].todo;
    if order == [] {
      assert done + todo == done;
    } else {
      var s := order[0];
      SweepOne(ttl, w, p, s);
      SessionTable.RevokeOneMore(base, done, s);
      SweepAll(ttl, Step(ttl, Step(ttl, w, SweepRead(p, s)), SweepCommit(p)), p, order[1..], base, done + {s});
      assert done + {s} + (todo - {s}) == done + todo;
    }
  }

  /** In whatever order SMEMBERS returns the sessions. */
  lemma RevokeAllIsAtomic(ttl: Ttl, w: World, p: nat, user: UserId, order: seq<SessionId>)
    requires p !in w.procs && Enumerates(order, MembersOf(w.store.index, user))
    ensures
      var w1 := Step(ttl, Step(ttl, w, SweepMembers(p, user)), SweepDrop(p));
      var w' := Step(ttl, Sweep(ttl, w1, p, order), Exit(p));
      w'.store == SessionTable.RevokeAll(w.store, user) && w'.procs == w.procs
  {
    var ids := MembersOf(w.store.index, user);
    var base := DropIndex(w.store, user);
    var w1 := Step(ttl, Step(ttl, w, SweepMembers(p, user)), SweepDrop(p));
    Dropped(ttl, w, p, user);
    hide Step;
    hide DropIndex;
    hide SessionTable.RevokeMany;
    SessionTable.RevokeNone(base);
    SweepAll(ttl, w1, p, order, base, {});
    assert {} + ids == ids;
    Exits(ttl, Sweep(ttl, w1, p, order), p);
    assert w.procs[p := Sweeping(user, {})] - {p} == w.procs;
  }

  lemma Exits(ttl: Ttl, w: World, p: nat)
    requires p in w.procs
    ensures Step(ttl, w, Exit(p)) == Stop(w, p)
  {
  }

  lemma Dropped(ttl: Ttl, w: World, p: nat, user: UserId)
    requires p !in w.procs
    ensures
      var w1 := Step(ttl, Step(ttl, w, SweepMembers(p, user)), SweepDrop(p));
      && w1.procs == w.procs[p := Sweeping(user, MembersOf(w.store.index, user))]
      && w1.store == DropIndex(w.store, user)
  {
  }
}
