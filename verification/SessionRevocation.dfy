/** When a revocation is final: the exact conditions under which nothing of a session
    is ever live again, for one revocation and for a whole revoke-all, over every
    continuation of every run. */
module SessionRevocation {
  import opened Wrappers
  import opened SessionStore
  import opened Interleaving
  import opened SessionRuns
  import opened SessionRaces

  /** The run `r'` continues the run `r`. */
  ghost predicate Extends(ttl: Ttl, r': Run, r: Run) {
    && ValidRun(ttl, r') && |r'.worlds| == |r'.events| + 1
    && |r.worlds| == |r.events| + 1 && |r.events| <= |r'.events|
    && (forall i | 0 <= i <= |r.events| :: r'.worlds[i] == r.worlds[i])
    && (forall i | 0 <= i < |r.events| :: r'.events[i] == r.events[i])
  }

  /** No jti and no refresh token of the session is live. */
  predicate Dark(w: World, s: SessionId) {
    LiveJtis(w, s) == {} && LiveTokens(w, s) == {}
  }

  /** Nothing of the session is live now, or in any continuation of the run. */
  ghost predicate DarkForGood(ttl: Ttl, r: Run, s: SessionId) {
    forall r' | Extends(ttl, r', r) :: Dark(Now(r'), s)
  }

  // ------------------------------------------------------------------------
  // What can still light a session
  // ------------------------------------------------------------------------

  predicate HasOwner(w: World, s: SessionId) {
    s in w.store.sessions && w.store.sessions[s].user.Some?
  }

  /** The logins of `s` that are not committed yet. */
  function MintedLogins(w: World, s: SessionId): set<nat> {
    set p | p in w.procs && w.procs[p].LoginReady? && w.procs[p].session == s
  }

  /** The refreshes of `s` that are past their read, or whose read will succeed. */
  function Rotators(w: World, s: SessionId): set<nat> {
    set p | p in w.procs && (w.procs[p].RotateReady? || (w.procs[p].Consumed? && HasOwner(w, s)))
        && w.procs[p].session == s
  }

  lemma OthersLightNothing(ttl: Ttl, w: World, e: Event, s: SessionId)
    requires Enabled(w, e) && !e.LoginCommit? && !e.RotateCommit?
    ensures LiveJtis(Apply(ttl, w, e), s) <= LiveJtis(w, s) && LiveTokens(Apply(ttl, w, e), s) <= LiveTokens(w, s)
    ensures HasOwner(Apply(ttl, w, e), s) ==> HasOwner(w, s)
  {
  }

  lemma CommitLightsItsOwn(ttl: Ttl, w: World, e: Event, s: SessionId)
    requires Enabled(w, e) && (e.LoginCommit? || e.RotateCommit?) && w.procs[e.pid].session != s
    ensures LiveJtis(Apply(ttl, w, e), s) <= LiveJtis(w, s) && LiveTokens(Apply(ttl, w, e), s) <= LiveTokens(w, s)
    ensures HasOwner(Apply(ttl, w, e), s) ==> HasOwner(w, s)
  {
  }

  /** Nothing of the session is live, and no handler under way can change that. */
  predicate Finished(w: World, s: SessionId) {
    Dark(w, s) && MintedLogins(w, s) == {} && Rotators(w, s) == {}
  }

  lemma FinishedStoreStep(ttl: Ttl, w: World, e: Event, s: SessionId)
    requires Enabled(w, e) && Finished(w, s)
    ensures Dark(Apply(ttl, w, e), s) && (HasOwner(Apply(ttl, w, e), s) ==> HasOwner(w, s))
  {
    if e.LoginCommit? || e.RotateCommit? {
      assert e.pid !in MintedLogins(w, s) && e.pid !in Rotators(w, s);
      CommitLightsItsOwn(ttl, w, e, s);
    } else {
      OthersLightNothing(ttl, w, e, s);
    }
  }

  /** A new process of the session would need a live token or a new session id. */
  lemma FinishedProcessStep(ttl: Ttl, w: World, e: Event, s: SessionId, q: nat)
    requires Enabled(w, e) && Finished(w, s) && s in w.sids && IsBy(e, q) && q in Apply(ttl, w, e).procs
    ensures
      var p := Apply(ttl, w, e).procs[q];
      p.LoginReady? || p.Consumed? || p.RotateReady? ==> p.session != s
  {
    if e.Consume? && e.spent in w.store.refresh {
      assert e.spent !in LiveTokens(w, s);
    }
    if e.RotateRead? {
      assert e.pid !in Rotators(w, s);
    }
  }

  lemma FinishedStep(ttl: Ttl, w: World, e: Event, s: SessionId)
    requires Enabled(w, e) && Finished(w, s) && s in w.sids
    ensures Finished(Apply(ttl, w, e), s) && s in Apply(ttl, w, e).sids
  {
    var w' := Apply(ttl, w, e);
    FinishedStoreStep(ttl, w, e, s);
    SidsStay(ttl, w, e);
    forall q | q in w'.procs ensures q !in MintedLogins(w', s) && q !in Rotators(w', s) {
      if IsBy(e, q) {
        FinishedProcessStep(ttl, w, e, s, q);
      } else {
        OthersAreNotChanged(ttl, w, e, q);
        assert q !in MintedLogins(w, s) && q !in Rotators(w, s);
      }
    }
    hide Apply;
  }

  lemma SidsStay(ttl: Ttl, w: World, e: Event)
    requires Enabled(w, e)
    ensures w.sids <= Apply(ttl, w, e).sids
  {
  }

  lemma OthersAreNotChanged(ttl: Ttl, w: World, e: Event, q: nat)
    requires Enabled(w, e) && !IsBy(e, q) && q in Apply(ttl, w, e).procs
    ensures q in w.procs && Apply(ttl, w, e).procs[q] == w.procs[q]
  {
  }

  lemma {:induction false} StaysFinished(ttl: Ttl, r: Run, s: SessionId, i: nat, k: nat)
    requires ValidRun(ttl, r) && i <= k <= |r.events| && Finished(r.worlds[i], s) && s in r.worlds[i].sids
    ensures Finished(r.worlds[k], s) && s in r.worlds[k].sids
    decreases k
  {
    hide Apply;
    hide Finished;
    if i < k {
      StaysFinished(ttl, r, s, i, k - 1);
      FinishedStep(ttl, r.worlds[k - 1], r.events[k - 1], s);
    }
  }

  /** A minted login, or a refresh that has read the hash, can always commit, and then
      has a live pair. */
  lemma ReadyCanCommit(ttl: Ttl, r: Run, s: SessionId, p: nat) returns (r': Run)
    requires ValidRun(ttl, r) && p in Now(r).procs
    requires (Now(r).procs[p].LoginReady? || Now(r).procs[p].RotateReady?) && Now(r).procs[p].session == s
    ensures Extends(ttl, r', r) && !Dark(Now(r'), s)
  {
    var w := Now(r);
    var e := if w.procs[p].LoginReady? then LoginCommit(p) else RotateCommit(p);
    CommitLights(ttl, w, e, s);
    hide Apply;
    hide Dark;
    r' := Then(ttl, r, e);
    ThenExtends(ttl, r, e);
  }

  lemma CommitLights(ttl: Ttl, w: World, e: Event, s: SessionId)
    requires Enabled(w, e) && (e.LoginCommit? || e.RotateCommit?) && w.procs[e.pid].session == s
    ensures !Dark(Apply(ttl, w, e), s)
  {
    assert w.procs[e.pid].jti in LiveJtis(Apply(ttl, w, e), s);
  }

  lemma RotatorCanCommit(ttl: Ttl, r: Run, s: SessionId, p: nat) returns (r': Run)
    requires ValidRun(ttl, r) && p in Rotators(Now(r), s)
    ensures Extends(ttl, r', r) && !Dark(Now(r'), s)
  {
    hide Dark;
    if Now(r).procs[p].Consumed? {
      ReadSucceeds(ttl, Now(r), s, p);
      hide Apply;
      var r1 := Then(ttl, r, RotateRead(p));
      ThenExtends(ttl, r, RotateRead(p));
      r' := ReadyCanCommit(ttl, r1, s, p);
      ExtendsTwice(ttl, r', r1, r);
    } else {
      r' := ReadyCanCommit(ttl, r, s, p);
    }
  }

  lemma ReadSucceeds(ttl: Ttl, w: World, s: SessionId, p: nat)
    requires p in Rotators(w, s) && w.procs[p].Consumed?
    ensures Enabled(w, RotateRead(p))
    ensures
      var w' := Apply(ttl, w, RotateRead(p));
      p in w'.procs && w'.procs[p].RotateReady? && w'.procs[p].session == s
  {
  }

  lemma ExtendsTwice(ttl: Ttl, r'': Run, r': Run, r: Run)
    requires Extends(ttl, r'', r') && Extends(ttl, r', r)
    ensures Extends(ttl, r'', r)
  {
    hide ValidRun;
  }

  /** For every session id that has been generated: nothing of it is ever live again,
      in any continuation, if and only if nothing is now, no login of it waits to be
      committed, and no refresh of it is past its read or can still pass it. */
  lemma DarkForGoodIff(ttl: Ttl, r: Run, s: SessionId)
    requires ValidRun(ttl, r) && s in Now(r).sids
    ensures DarkForGood(ttl, r, s) <==> Finished(Now(r), s)
  {
    hide Apply;
    hide Dark;
    hide ValidRun;
    hide Rotators;
    ExtendsItself(ttl, r);
    if Dark(Now(r), s) && MintedLogins(Now(r), s) != {} {
      var p :| p in MintedLogins(Now(r), s);
      var r' := ReadyCanCommit(ttl, r, s, p);
    } else if Dark(Now(r), s) && Rotators(Now(r), s) != {} {
      var p :| p in Rotators(Now(r), s);
      var r' := RotatorCanCommit(ttl, r, s, p);
    } else if Dark(Now(r), s) {
      forall r' | Extends(ttl, r', r) ensures Dark(Now(r'), s) {
        NowOf(ttl, r, r');
        StaysFinished(ttl, r', s, |r.events|, |r'.events|);
      }
    }
  }

  // ------------------------------------------------------------------------
  // A severed session
  // ------------------------------------------------------------------------

  lemma LoggedInOrNot(ttl: Ttl, w: World, s: SessionId)
    requires Inv(ttl, w)
    ensures s in w.lineage ==> MintedLogins(w, s) == {}
    ensures s !in w.lineage ==> Dark(w, s) && Rotators(w, s) == {}
  {
    forall p | p in MintedLogins(w, s) + Rotators(w, s) ensures s in w.lineage <==> p in Rotators(w, s) {
      assert ProcessOk(ttl, w, w.procs[p]);
    }
    forall j | j in LiveJtis(w, s) ensures s in w.lineage { assert AccessOk(ttl, w, j, w.store.access[j]); }
    forall t | t in LiveTokens(w, s) ensures s in w.lineage { assert RefreshOk(w, t, w.store.refresh[t]); }
  }

  lemma SeveredRotators(ttl: Ttl, w: World, s: SessionId)
    requires Inv(ttl, w) && Severed(w, s)
    ensures s in w.sids && MintedLogins(w, s) == {} && Rotators(w, s) == HaveRead(w, s)
  {
    assert LineageOk(w, s, w.lineage[s]);
    LoggedInOrNot(ttl, w, s);
  }

  /** Once a session is severed, nothing of it is ever live again exactly when nothing
      is now and no refresh is past its read. */
  lemma SeveredForGoodIff(ttl: Ttl, r: Run, s: SessionId)
    requires ValidRun(ttl, r) && Severed(Now(r), s)
    ensures DarkForGood(ttl, r, s) <==> Dark(Now(r), s) && HaveRead(Now(r), s) == {}
  {
    hide Apply;
    hide Dark;
    hide Inv;
    RunKeepsInv(ttl, r, |r.events|);
    SeveredRotators(ttl, Now(r), s);
    DarkForGoodIff(ttl, r, s);
  }

  lemma ExtendsItself(ttl: Ttl, r: Run)
    requires ValidRun(ttl, r)
    ensures Extends(ttl, r, r)
  {
  }

  lemma ThenExtends(ttl: Ttl, r: Run, e: Event)
    requires ValidRun(ttl, r) && Enabled(Now(r), e)
    ensures Extends(ttl, Then(ttl, r, e), r)
  {
    hide Apply;
  }

  lemma NowOf(ttl: Ttl, r: Run, r': Run)
    requires Extends(ttl, r', r)
    ensures |r.events| <= |r'.events| && |r'.worlds| == |r'.events| + 1
    ensures Now(r) == r'.worlds[|r.events|] && Now(r') == r'.worlds[|r'.events|]
  {
  }

  // ------------------------------------------------------------------------
  // One revocation
  // ------------------------------------------------------------------------

  lemma OthersKeepProcess(ttl: Ttl, w: World, e: Event, p: nat)
    requires Enabled(w, e) && p in w.procs && !IsBy(e, p)
    ensures p in Apply(ttl, w, e).procs && Apply(ttl, w, e).procs[p] == w.procs[p]
  {
  }

  lemma {:induction false} ProcessIsKept(ttl: Ttl, r: Run, p: nat, h: nat, i: nat)
    requires ValidRun(ttl, r) && h <= i <= |r.events| && p in r.worlds[h].procs
    requires forall m | h <= m < i :: !IsBy(r.events[m], p)
    ensures p in r.worlds[i].procs && r.worlds[i].procs[p] == r.worlds[h].procs[p]
    decreases i
  {
    hide Apply;
    if h < i {
      ProcessIsKept(ttl, r, p, h, i - 1);
      OthersKeepProcess(ttl, r.worlds[i - 1], r.events[i - 1], p);
    }
  }

  lemma RotationIsNew(ttl: Ttl, w: World, e: Event, s: SessionId)
    requires Inv(ttl, w) && Enabled(w, e) && Rotates(w, e, s)
    ensures
      var w' := Apply(ttl, w, e);
      s in w'.lineage && w'.lineage[s].last.jti !in w.jtiOf && w'.lineage[s].last.token !in w.tokenOf
  {
    assert ProcessOk(ttl, w, w.procs[e.pid]);
  }

  /** The current pair of a session is the one of step `h` if no rotation of it has
      committed since, and otherwise one that nobody had then. */
  lemma {:induction false} CurrentPairMoves(ttl: Ttl, r: Run, s: SessionId, h: nat, k: nat)
    requires ValidRun(ttl, r) && h <= k <= |r.events| && s in r.worlds[h].lineage
    ensures s in r.worlds[k].lineage
    ensures
      var was, last := r.worlds[h], r.worlds[k].lineage[s].last;
      if Rotations(r, s, h, k) == 0 then last == was.lineage[s].last
      else last.jti !in was.jtiOf && last.token !in was.tokenOf
    decreases k
  {
    hide Apply;
    hide Inv;
    if h < k {
      CurrentPairMoves(ttl, r, s, h, k - 1);
      RunKeepsInv(ttl, r, k - 1);
      RunAges(ttl, r, h, k - 1);
      LineageStep(ttl, r.worlds[k - 1], r.events[k - 1], s);
      if Rotates(r.worlds[k - 1], r.events[k - 1], s) { RotationIsNew(ttl, r.worlds[k - 1], r.events[k - 1], s); }
    }
  }

  /** At step `h` the handler `p` reads the hash of `s`; at step `i`, its next, it sends
      the transaction that revokes `s`. */
  ghost predicate ReadsAndRevokes(r: Run, p: nat, s: SessionId, h: nat, i: nat)
    requires |r.worlds| == |r.events| + 1
  {
    && h < i < |r.events|
    && (r.events[h] == RevokeRead(p, s) || r.events[h] == SweepRead(p, s)) && s in r.worlds[h].store.sessions
    && (forall m | h < m < i :: !IsBy(r.events[m], p))
    && Revokes(r.worlds[i], r.events[i], s) && r.events[i].pid == p
  }

  lemma ReadIsHash(ttl: Ttl, w: World, e: Event, p: nat, s: SessionId)
    requires Enabled(w, e) && (e == RevokeRead(p, s) || e == SweepRead(p, s)) && s in w.store.sessions
    ensures
      var w' := Apply(ttl, w, e);
      && p in w'.procs && (w'.procs[p].RevokeReady? || w'.procs[p].SweepReady?)
      && w'.procs[p].session == s && w'.procs[p].read == w.store.sessions[s]
  {
  }

  lemma HashIsCurrent(ttl: Ttl, w: World, s: SessionId)
    requires Inv(ttl, w) && s in w.store.sessions
    ensures
      && s in w.lineage
      && var last := w.lineage[s].last;
      w.store.sessions[s].jti == Some(last.jti) && w.store.sessions[s].refresh == Some(last.token)
      && last.jti in w.jtiOf && last.token in w.tokenOf
  {
    assert HashOk(w, s, w.store.sessions[s]);
    assert LineageOk(w, s, w.lineage[s]);
  }

  /** What a revocation has read is still current when it is sent exactly when no
      rotation of the session has committed in between. */
  lemma StillCurrentIff(ttl: Ttl, r: Run, p: nat, s: SessionId, h: nat, i: nat)
    requires ValidRun(ttl, r) && ReadsAndRevokes(r, p, s, h, i)
    ensures s in r.worlds[i].lineage
    ensures
      var last, read := r.worlds[i].lineage[s].last, r.worlds[i].procs[p].read;
      && (read.jti == Some(last.jti) <==> Rotations(r, s, h, i) == 0)
      && (read.refresh == Some(last.token) <==> Rotations(r, s, h, i) == 0)
  {
    hide Apply;
    hide Inv;
    RunKeepsInv(ttl, r, h);
    HashIsCurrent(ttl, r.worlds[h], s);
    ReadIsHash(ttl, r.worlds[h], r.events[h], p, s);
    ProcessIsKept(ttl, r, p, h + 1, i);
    CurrentPairMoves(ttl, r, s, h, i);
  }

  lemma DarkIsDead(ttl: Ttl, r: Run, i: nat, s: SessionId)
    requires ValidRun(ttl, r) && i <= |r.events| && s in r.worlds[i].lineage
    ensures
      var w, last := r.worlds[i], r.worlds[i].lineage[s].last;
      Dark(w, s) <==> last.jti !in w.store.access && last.token !in w.store.refresh
  {
    hide Apply;
    RunKeepsInv(ttl, r, i);
    OneAccessJti(ttl, r, i, s);
    OneTokenOrOneRefresh(ttl, r, i, s);
    CurrentPairIsOwn(ttl, r.worlds[i], s);
    hide Inv;
  }

  /** When a revocation revokes for good. Whatever happens afterwards, nothing of the
      session is ever live again, if and only if no refresh of it is past its own read
      when the revocation is sent, and none has committed since the revocation's read
      unless all it wrote is gone again. */
  lemma RevocationIsFinalIff(ttl: Ttl, r: Run, p: nat, s: SessionId, h: nat)
    requires ValidRun(ttl, r) && |r.events| > 0 && ReadsAndRevokes(r, p, s, h, |r.events| - 1)
    ensures
      var i := |r.events| - 1;
      DarkForGood(ttl, r, s) <==>
      HaveRead(r.worlds[i], s) == {} && (Rotations(r, s, h, i) == 0 || Dark(r.worlds[i], s))
  {
    hide Apply;
    hide Dark;
    var i := |r.events| - 1;
    RevokeSevers(ttl, r, s, i);
    StillCurrentIff(ttl, r, p, s, h, i);
    RevocationIsImmediateIff(ttl, r, i, s);
    DarkIsDead(ttl, r, i, s);
    DarkAfter(ttl, r, i, s);
    SeveredForGoodIff(ttl, r, s);
  }

  lemma DarkAfter(ttl: Ttl, r: Run, i: nat, s: SessionId)
    requires ValidRun(ttl, r) && i < |r.events|
    ensures Dark(r.worlds[i + 1], s) <==> LiveJtis(r.worlds[i + 1], s) == {} && LiveTokens(r.worlds[i + 1], s) == {}
  {
  }

  lemma RevokeUnlists(ttl: Ttl, w: World, e: Event, s: SessionId, user: UserId)
    requires Inv(ttl, w) && Revokes(w, e, s) && w.procs[e.pid].read.user.Some?
    ensures s in w.lineage && s !in MembersOf(Apply(ttl, w, e).store.index, user)
  {
    RevokesWithRead(ttl, w, e, s);
    assert ProcessOk(ttl, w, w.procs[e.pid]);
    if s in MembersOf(w.store.index, user) { MembersHaveLoggedIn(ttl, w, s, user); }
    hide Apply;
    hide Inv;
  }

  /** What a late rotation writes cannot be revoked any more. After a revocation whose
      read named a user, the session is in nobody's set and its hash, if it has one
      again, names nobody: no revoke-all that begins later has the session in its
      snapshot, a password reset's included, and the owner check of the revoke_session
      mutation refuses everybody. Only a revoke-all that had the session in its
      snapshot before can still reach the pair; otherwise it is left to age out, as
      `RevokedAccessEnds` says. */
  lemma LatePairIsOutOfReach(ttl: Ttl, r: Run, s: SessionId, i: nat, k: nat)
    requires ValidRun(ttl, r) && i < k <= |r.events| && Revokes(r.worlds[i], r.events[i], s)
    requires r.worlds[i].procs[r.events[i].pid].read.user.Some?
    ensures forall user :: s !in MembersOf(r.worlds[k].store.index, user)
    ensures forall sub :: !(s in r.worlds[k].store.sessions && r.worlds[k].store.sessions[s].user == Some(sub))
    ensures k < |r.events| && r.events[k].SweepMembers? ==>
              var p := r.events[k].pid;
              p in r.worlds[k + 1].procs && s !in Todo(r.worlds[k + 1].procs[p])
  {
    hide Apply;
    hide Inv;
    RunKeepsInv(ttl, r, i);
    RevokeSevers(ttl, r, s, i);
    SeveredRun(ttl, r, s, i + 1, k);
    forall user ensures s !in MembersOf(r.worlds[k].store.index, user) {
      RevokeUnlists(ttl, r.worlds[i], r.events[i], s, user);
      if s in MembersOf(r.worlds[k].store.index, user) { MembersAreOld(ttl, r, s, user, i + 1, k); }
    }
    if k < |r.events| && r.events[k].SweepMembers? {
      RunKeepsInv(ttl, r, k);
      SnapshotIsOfEarlierLogins(ttl, r.worlds[k], r.events[k].pid, r.events[k].user);
    }
  }

  // ------------------------------------------------------------------------
  // A whole revoke-all
  // ------------------------------------------------------------------------

  lemma SweepStep(ttl: Ttl, w: World, e: Event, p: nat, s: SessionId)
    requires Inv(ttl, w) && Enabled(w, e) && p in w.procs && p in Apply(ttl, w, e).procs
    requires IsSweep(w.procs[p]) && s in Todo(w.procs[p])
    ensures s in Todo(Apply(ttl, w, e).procs[p]) || Severed(Apply(ttl, w, e), s)
  {
    if IsBy(e, p) {
      assert ProcessOk(ttl, w, w.procs[p]);
      OwnSweepStep(ttl, w, e, p, s);
    } else {
      OthersKeepProcess(ttl, w, e, p);
    }
  }

  lemma OwnSweepStep(ttl: Ttl, w: World, e: Event, p: nat, s: SessionId)
    requires Enabled(w, e) && IsBy(e, p) && p in w.procs && p in Apply(ttl, w, e).procs && s in w.lineage
    requires IsSweep(w.procs[p]) && s in Todo(w.procs[p])
    ensures s in Todo(Apply(ttl, w, e).procs[p]) || Severed(Apply(ttl, w, e), s)
  {
  }

  /** A session of the snapshot is still to be revoked, or severed. */
  lemma {:induction false} SweepProgress(ttl: Ttl, r: Run, i: nat, k: nat, p: nat, user: UserId, s: SessionId)
    requires ValidRun(ttl, r) && i < k <= |r.events|
    requires r.events[i] == SweepMembers(p, user) && s in MembersOf(r.worlds[i].store.index, user)
    requires forall m | i < m <= k :: p in r.worlds[m].procs
    ensures IsSweep(r.worlds[k].procs[p]) && (s in Todo(r.worlds[k].procs[p]) || Severed(r.worlds[k], s))
    decreases k
  {
    hide Apply;
    hide Severed;
    hide Inv;
    RunKeepsInv(ttl, r, k - 1);
    if k == i + 1 {
      SnapshotIsOfEarlierLogins(ttl, r.worlds[i], p, user);
    } else {
      assert p in r.worlds[k - 1].procs && p in r.worlds[k].procs;
      SweepProgress(ttl, r, i, k - 1, p, user, s);
      TodoOnlyShrinks(ttl, r.worlds[k - 1], r.events[k - 1], p);
      if Severed(r.worlds[k - 1], s) {
        SeveredStep(ttl, r.worlds[k - 1], r.events[k - 1], s);
      } else {
        SweepStep(ttl, r.worlds[k - 1], r.events[k - 1], p, s);
      }
    }
  }

  /** When a revoke-all has gone through its snapshot, as at the end of a password
      reset: each session of the snapshot is severed, and nothing of it is ever live
      again exactly when nothing is now and no refresh of it is past its read. The
      sessions that can survive are these and those that were not in the set. */
  lemma SweptForGoodIff(ttl: Ttl, r: Run, i: nat, p: nat, user: UserId, s: SessionId)
    requires ValidRun(ttl, r) && i < |r.events|
    requires r.events[i] == SweepMembers(p, user) && s in MembersOf(r.worlds[i].store.index, user)
    requires (forall m | i < m <= |r.events| :: p in r.worlds[m].procs)
        && r.worlds[|r.events|].procs[p] == Sweeping(user, {})
    ensures Severed(Now(r), s)
    ensures DarkForGood(ttl, r, s) <==> Dark(Now(r), s) && HaveRead(Now(r), s) == {}
  {
    hide Apply;
    hide Severed;
    hide Dark;
    SweepProgress(ttl, r, i, |r.events|, p, user, s);
    SeveredForGoodIff(ttl, r, s);
  }

  /** Which sessions survive a whole revoke-all, of all session ids generated so far. A
      session of the snapshot is over for good exactly when nothing of it is live and no
      refresh of it is past its read. Any other session that has logged in, after the
      SMEMBERS or without being in the set, exactly when nothing of it is live and no
      refresh of it is past its read or can still pass it. And a session that has not
      logged in, exactly when its login is not waiting to be committed. */
  lemma SurvivorsIff(ttl: Ttl, r: Run, i: nat, p: nat, user: UserId, s: SessionId)
    requires ValidRun(ttl, r) && i < |r.events| && r.events[i] == SweepMembers(p, user)
    requires forall m | i < m <= |r.events| :: p in r.worlds[m].procs
    requires r.worlds[|r.events|].procs[p] == Sweeping(user, {}) && s in Now(r).sids
    ensures
      DarkForGood(ttl, r, s) <==>
      if s in MembersOf(r.worlds[i].store.index, user) then Dark(Now(r), s) && HaveRead(Now(r), s) == {}
      else if s in Now(r).lineage then Dark(Now(r), s) && Rotators(Now(r), s) == {}
      else MintedLogins(Now(r), s) == {}
  {
    hide Apply;
    hide Inv;
    hide Dark;
    hide Rotators;
    hide MintedLogins;
    if s in MembersOf(r.worlds[i].store.index, user) {
      SweptForGoodIff(ttl, r, i, p, user, s);
    } else {
      RunKeepsInv(ttl, r, |r.events|);
      LoggedInOrNot(ttl, Now(r), s);
      DarkForGoodIff(ttl, r, s);
    }
  }
}
