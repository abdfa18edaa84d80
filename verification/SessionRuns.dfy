/** What holds over every run of the interleaved handlers. */
module SessionRuns {
  import opened Wrappers
  import opened SessionStore
  import opened Interleaving

  datatype Run = Run(worlds: seq<World>, events: seq<Event>)

  ghost predicate ValidRun(ttl: Ttl, r: Run) {
    && ValidTtl(ttl)
    && |r.worlds| == |r.events| + 1
    && r.worlds[0] == Start.(store := EmptyStore.(now := r.worlds[0].store.now))
    && forall i | 0 <= i < |r.events| ::
         Enabled(r.worlds[i], r.events[i]) && r.worlds[i + 1] == Apply(ttl, r.worlds[i], r.events[i])
  }

  /** The events of handler `p`. */
  predicate IsBy(e: Event, p: nat) {
    !e.Tick? && e.pid == p
  }

  lemma {:induction false} RunKeepsInv(ttl: Ttl, r: Run, i: nat)
    requires ValidRun(ttl, r) && i <= |r.events|
    ensures Inv(ttl, r.worlds[i])
  {
    hide Apply;
    if i > 0 {
      RunKeepsInv(ttl, r, i - 1);
      StepKeepsInv(ttl, r.worlds[i - 1], r.events[i - 1]);
    }
  }

  // ------------------------------------------------------------------------
  // One token or one refresh; one access jti
  // ------------------------------------------------------------------------

  function LiveTokens(w: World, s: SessionId): set<RefreshToken> {
    set t | t in w.store.refresh && w.store.refresh[t].session == s
  }

  function LiveJtis(w: World, s: SessionId): set<Jti> {
    set j | j in w.store.access && w.store.access[j].session == s
  }

  /** The refresh handlers that have consumed a token of `s` and not finished. */
  function InFlight(w: World, s: SessionId): set<nat> {
    set p | p in w.procs && Flight(w.procs[p]) == Some(s)
  }

  lemma AtMostOne<T>(xs: set<T>)
    requires forall x, y | x in xs && y in xs :: x == y
    ensures |xs| <= 1
  {
    if xs != {} {
      var x :| x in xs;
      assert xs == {x};
    }
  }

  /** The tokens of a session form one chain of which only the last can be live,
      and while a refresh is under way none is: two rotations of one session never
      overlap. */
  lemma OneTokenOrOneRefresh(ttl: Ttl, r: Run, i: nat, s: SessionId)
    requires ValidRun(ttl, r) && i <= |r.events|
    ensures |LiveTokens(r.worlds[i], s)| + |InFlight(r.worlds[i], s)| <= 1
    ensures s in r.worlds[i].lineage ==>
              && LiveTokens(r.worlds[i], s) <= {r.worlds[i].lineage[s].last.token}
              && forall n | 0 <= n < |r.worlds[i].lineage[s].past| :: Dead(r.worlds[i], r.worlds[i].lineage[s].past[n])
    ensures s !in r.worlds[i].lineage ==> LiveTokens(r.worlds[i], s) == {}
  {
    hide Apply;
    var w := r.worlds[i];
    RunKeepsInv(ttl, r, i);
    forall t | t in LiveTokens(w, s)
      ensures s in w.lineage && t == w.lineage[s].last.token && InFlight(w, s) == {}
    {
      assert RefreshOk(w, t, w.store.refresh[t]);
      assert forall p | p in w.procs :: ProcessOk(ttl, w, w.procs[p]);
    }
    AtMostOne(LiveTokens(w, s));
    forall p, q | p in InFlight(w, s) && q in InFlight(w, s) ensures p == q {
      assert p != q ==> Apart(w.procs[p], w.procs[q]);
    }
    AtMostOne(InFlight(w, s));
    if s in w.lineage { assert LineageOk(w, s, w.lineage[s]); }
  }

  /** Each session has at most one live access jti, and it is the last one that a
      transaction wrote for it. */
  lemma OneAccessJti(ttl: Ttl, r: Run, i: nat, s: SessionId)
    requires ValidRun(ttl, r) && i <= |r.events|
    ensures |LiveJtis(r.worlds[i], s)| <= 1
    ensures forall j | j in LiveJtis(r.worlds[i], s) ::
              s in r.worlds[i].lineage && j == r.worlds[i].lineage[s].last.jti
  {
    hide Apply;
    var w := r.worlds[i];
    RunKeepsInv(ttl, r, i);
    forall j | j in LiveJtis(w, s) ensures s in w.lineage && j == w.lineage[s].last.jti {
      assert AccessOk(ttl, w, j, w.store.access[j]);
    }
    AtMostOne(LiveJtis(w, s));
  }

  /** A jti on the allowlist belongs to a JWT that names the user who logged in to
      that session, and that expires by its own exp claim no later than the jti
      leaves the allowlist by age, however late its transaction was sent. */
  lemma AllowlistMatchesJwt(ttl: Ttl, r: Run, i: nat, j: Jti)
    requires ValidRun(ttl, r) && i <= |r.events| && j in r.worlds[i].store.access
    ensures
      var w := r.worlds[i];
      var g := w.store.access[j];
      && j in w.claims && w.claims[j].exp <= g.expires
      && w.claims[j].sid == g.session && g.session in w.lineage && w.claims[j].sub == w.lineage[g.session].user
  {
    hide Apply;
    RunKeepsInv(ttl, r, i);
    assert AccessOk(ttl, r.worlds[i], j, r.worlds[i].store.access[j]);
  }

  lemma ClaimsStep(ttl: Ttl, w: World, e: Event, j: Jti)
    requires Enabled(w, e)
    ensures j in w.claims ==> j in Apply(ttl, w, e).claims && Apply(ttl, w, e).claims[j] == w.claims[j]
    ensures j !in w.claims && j in Apply(ttl, w, e).claims ==>
              Apply(ttl, w, e).claims[j].exp == w.store.now + ttl.access
  {
  }

  /** A JWT expires exactly one access TTL after it was generated, and its claims are
      those of the login or of the consumed token, for good. */
  lemma {:induction false} JwtIsFixed(ttl: Ttl, r: Run, i: nat, k: nat, j: Jti)
    requires ValidRun(ttl, r) && i < k <= |r.events| && j !in r.worlds[i].claims && j in r.worlds[i + 1].claims
    ensures j in r.worlds[k].claims && r.worlds[k].claims[j] == r.worlds[i + 1].claims[j]
    ensures r.worlds[k].claims[j].exp == r.worlds[i].store.now + ttl.access
    decreases k
  {
    hide Apply;
    ClaimsStep(ttl, r.worlds[k - 1], r.events[k - 1], j);
    if i + 1 < k { JwtIsFixed(ttl, r, i, k - 1, j); }
  }

  lemma MintedClaims(ttl: Ttl, r: Run, i: nat)
    requires ValidRun(ttl, r) && i < |r.events|
    ensures r.events[i].LoginMint? ==>
              var e := r.events[i];
              && e.jti !in r.worlds[i].claims && e.jti in r.worlds[i + 1].claims
              && r.worlds[i + 1].claims[e.jti] == Claims(e.user, e.session, r.worlds[i].store.now + ttl.access)
    ensures r.events[i].Consume? && r.events[i].spent in r.worlds[i].store.refresh ==>
              var e := r.events[i];
              var g := r.worlds[i].store.refresh[e.spent];
              && e.jti !in r.worlds[i].claims && e.jti in r.worlds[i + 1].claims
              && r.worlds[i + 1].claims[e.jti] == Claims(g.user, g.session, r.worlds[i].store.now + ttl.access)
  {
    var w, e := r.worlds[i], r.events[i];
    assert Enabled(w, e) && r.worlds[i + 1] == Apply(ttl, w, e);
  }

  // ------------------------------------------------------------------------
  // Dead stays dead
  // ------------------------------------------------------------------------

  ghost predicate JtisAged(a: World, b: World) {
    a.jtiOf.Keys <= b.jtiOf.Keys && forall j | j in a.jtiOf && j in b.store.access :: j in a.store.access
  }

  ghost predicate TokensAged(a: World, b: World) {
    a.tokenOf.Keys <= b.tokenOf.Keys && forall t | t in a.tokenOf && t in b.store.refresh :: t in a.store.refresh
  }

  /** Whatever had been written and is live in `b` was live in `a` already. */
  ghost predicate Aged(a: World, b: World) {
    JtisAged(a, b) && TokensAged(a, b)
  }

  lemma AgedTransitive(a: World, b: World, c: World)
    requires Aged(a, b) && Aged(b, c)
    ensures Aged(a, c)
  {
  }

  lemma StepAgesJtis(ttl: Ttl, w: World, e: Event)
    requires Inv(ttl, w) && Enabled(w, e)
    ensures JtisAged(w, Apply(ttl, w, e))
  {
    if e.LoginCommit? || e.RotateCommit? { assert ProcessOk(ttl, w, w.procs[e.pid]); }
  }

  lemma StepAgesTokens(ttl: Ttl, w: World, e: Event)
    requires Inv(ttl, w) && Enabled(w, e)
    ensures TokensAged(w, Apply(ttl, w, e))
    ensures e.Consume? ==> e.spent !in Apply(ttl, w, e).store.refresh
  {
    if e.LoginCommit? || e.RotateCommit? { assert ProcessOk(ttl, w, w.procs[e.pid]); }
  }

  lemma {:induction false} RunAges(ttl: Ttl, r: Run, i: nat, k: nat)
    requires ValidRun(ttl, r) && i <= k <= |r.events|
    ensures Aged(r.worlds[i], r.worlds[k])
  {
    hide Apply;
    if i < k {
      RunAges(ttl, r, i, k - 1);
      RunKeepsInv(ttl, r, k - 1);
      StepAgesJtis(ttl, r.worlds[k - 1], r.events[k - 1]);
      StepAgesTokens(ttl, r.worlds[k - 1], r.events[k - 1]);
      AgedTransitive(r.worlds[i], r.worlds[k - 1], r.worlds[k]);
    }
  }

  lemma LiveIsWritten(ttl: Ttl, r: Run, h: nat)
    requires ValidRun(ttl, r) && h <= |r.events|
    ensures r.worlds[h].store.access.Keys <= r.worlds[h].jtiOf.Keys
    ensures r.worlds[h].store.refresh.Keys <= r.worlds[h].tokenOf.Keys
  {
    hide Apply;
    var w := r.worlds[h];
    RunKeepsInv(ttl, r, h);
    forall j | j in w.store.access ensures j in w.jtiOf {
      assert AccessOk(ttl, w, j, w.store.access[j]);
      assert LineageOk(w, w.store.access[j].session, w.lineage[w.store.access[j].session]);
    }
    forall t | t in w.store.refresh ensures t in w.tokenOf {
      assert RefreshOk(w, t, w.store.refresh[t]);
      assert LineageOk(w, w.store.refresh[t].session, w.lineage[w.store.refresh[t].session]);
    }
  }

  /** A jti or refresh token that was valid and no longer is, for whatever reason,
      is never valid again. */
  lemma DeadStaysDead(ttl: Ttl, r: Run, h: nat, i: nat, k: nat)
    requires ValidRun(ttl, r) && h <= i <= k <= |r.events|
    ensures forall j | j in r.worlds[h].store.access && j !in r.worlds[i].store.access :: j !in r.worlds[k].store.access
    ensures forall t | t in r.worlds[h].store.refresh && t !in r.worlds[i].store.refresh ::
        t !in r.worlds[k].store.refresh
  {
    hide Apply;
    LiveIsWritten(ttl, r, h);
    RunAges(ttl, r, h, i);
    RunAges(ttl, r, i, k);
  }

  /** Each refresh token is handed to at most one refresh handler. */
  lemma ConsumedAtMostOnce(ttl: Ttl, r: Run, i: nat, k: nat)
    requires ValidRun(ttl, r) && i < |r.events| && k < |r.events|
    requires r.events[i].Consume? && r.events[k].Consume? && r.events[i].spent == r.events[k].spent
    requires r.events[i].spent in r.worlds[i].store.refresh && r.events[k].spent in r.worlds[k].store.refresh
    ensures i == k
  {
    hide Apply;
    var lo, hi := if i < k then i else k, if i < k then k else i;
    if lo < hi {
      RunKeepsInv(ttl, r, lo);
      StepAgesTokens(ttl, r.worlds[lo], r.events[lo]);
      DeadStaysDead(ttl, r, lo, lo + 1, hi);
    }
  }

  // ------------------------------------------------------------------------
  // Revocation
  // ------------------------------------------------------------------------

  /** The transaction of revoke_session for `s` is sent, by a revoke handler or by
      a revoke-all handler. */
  predicate Revokes(w: World, e: Event, s: SessionId) {
    || (e.RevokeCommit? && Enabled(w, e) && w.procs[e.pid].session == s)
    || (e.SweepCommit? && Enabled(w, e) && w.procs[e.pid].session == s)
  }

  predicate Rotates(w: World, e: Event, s: SessionId) {
    e.RotateCommit? && Enabled(w, e) && w.procs[e.pid].session == s
  }

  /** The rotations of `s` that commit from step `lo` up to step `hi`. */
  function Rotations(r: Run, s: SessionId, lo: nat, hi: nat): nat
    requires lo <= hi <= |r.events| < |r.worlds|
  {
    if lo == hi then 0
    else Rotations(r, s, lo, hi - 1) + if Rotates(r.worlds[hi - 1], r.events[hi - 1], s) then 1 else 0
  }

  /** The session's hash is gone, or is one that a late HSET made without a user. */
  predicate Severed(w: World, s: SessionId) {
    s in w.lineage && (s in w.store.sessions ==> w.store.sessions[s].user.None?)
  }

  /** The refresh handlers that have read the hash of `s` and not finished. */
  function HaveRead(w: World, s: SessionId): set<nat> {
    set p | p in w.procs && w.procs[p].RotateReady? && w.procs[p].session == s
  }

  lemma SeveredStep(ttl: Ttl, w: World, e: Event, s: SessionId)
    requires Inv(ttl, w) && Enabled(w, e) && Severed(w, s)
    ensures Severed(Apply(ttl, w, e), s)
    ensures HaveRead(Apply(ttl, w, e), s) <= HaveRead(w, s)
    ensures Rotates(w, e, s) ==> e.pid in HaveRead(w, s) && e.pid !in HaveRead(Apply(ttl, w, e), s)
  {
    if e.LoginCommit? || e.RotateCommit? {
      CommitKeepsSevered(ttl, w, e, s);
    } else {
      OthersKeepSevered(ttl, w, e, s);
    }
  }

  lemma CommitKeepsSevered(ttl: Ttl, w: World, e: Event, s: SessionId)
    requires Inv(ttl, w) && Enabled(w, e) && Severed(w, s) && (e.LoginCommit? || e.RotateCommit?)
    ensures Severed(Apply(ttl, w, e), s)
    ensures HaveRead(Apply(ttl, w, e), s) == HaveRead(w, s) - {e.pid}
  {
    assert ProcessOk(ttl, w, w.procs[e.pid]);
  }

  lemma OthersKeepSevered(ttl: Ttl, w: World, e: Event, s: SessionId)
    requires Enabled(w, e) && Severed(w, s) && !e.LoginCommit? && !e.RotateCommit?
    ensures Severed(Apply(ttl, w, e), s)
    ensures HaveRead(Apply(ttl, w, e), s) <= HaveRead(w, s)
  {
  }

  lemma FewerElements<T>(a: set<T>, b: set<T>)
    requires a <= b
    ensures |a| <= |b|
    ensures a != b ==> |a| < |b|
    decreases b
  {
    if a == {} {
      if a != b { var y :| y in b; }
    } else {
      var x :| x in a;
      FewerElements(a - {x}, b - {x});
      assert a == (a - {x}) + {x} && b == (b - {x}) + {x};
    }
  }

  lemma {:induction false} SeveredRun(ttl: Ttl, r: Run, s: SessionId, i: nat, k: nat)
    requires ValidRun(ttl, r) && i <= k <= |r.events| && Severed(r.worlds[i], s)
    ensures Severed(r.worlds[k], s) && HaveRead(r.worlds[k], s) <= HaveRead(r.worlds[i], s)
    ensures Rotations(r, s, i, k) + |HaveRead(r.worlds[k], s)| <= |HaveRead(r.worlds[i], s)|
  {
    hide Apply;
    if i < k {
      SeveredRun(ttl, r, s, i, k - 1);
      RunKeepsInv(ttl, r, k - 1);
      SeveredStep(ttl, r.worlds[k - 1], r.events[k - 1], s);
      FewerElements(HaveRead(r.worlds[k], s), HaveRead(r.worlds[k - 1], s));
    }
  }

  lemma RevokeSevers(ttl: Ttl, r: Run, s: SessionId, i: nat)
    requires ValidRun(ttl, r) && i < |r.events| && Revokes(r.worlds[i], r.events[i], s)
    ensures Severed(r.worlds[i + 1], s) && HaveRead(r.worlds[i + 1], s) == HaveRead(r.worlds[i], s)
  {
    var w := r.worlds[i];
    RunKeepsInv(ttl, r, i);
    assert ProcessOk(ttl, w, w.procs[r.events[i].pid]);
  }

  lemma AtMostOneHasRead(ttl: Ttl, r: Run, s: SessionId, i: nat)
    requires ValidRun(ttl, r) && i <= |r.events|
    ensures |HaveRead(r.worlds[i], s)| <= 1
  {
    hide Apply;
    OneTokenOrOneRefresh(ttl, r, i, s);
    FewerElements(HaveRead(r.worlds[i], s), InFlight(r.worlds[i], s));
  }

  /** After a revocation of `s` commits, at most one more rotation of `s` commits,
      ever, and only by a handler that had read the session before. If there is no
      such handler, no refresh of `s` ever succeeds again. */
  lemma BoundedRevocation(ttl: Ttl, r: Run, s: SessionId, i: nat, k: nat)
    requires ValidRun(ttl, r) && i < k <= |r.events| && Revokes(r.worlds[i], r.events[i], s)
    ensures Rotations(r, s, i, k) <= 1
    ensures HaveRead(r.worlds[i], s) == {} ==> Rotations(r, s, i, k) == 0
    ensures forall m | i <= m < k && Rotates(r.worlds[m], r.events[m], s) ::
              r.events[m].pid in HaveRead(r.worlds[i], s)
  {
    hide Apply;
    RevokeSevers(ttl, r, s, i);
    AtMostOneHasRead(ttl, r, s, i);
    SeveredRun(ttl, r, s, i + 1, k);
    RotationsSplit(r, s, i, i + 1, k);
    forall m | i <= m < k && Rotates(r.worlds[m], r.events[m], s)
      ensures r.events[m].pid in HaveRead(r.worlds[i], s)
    {
      SeveredRun(ttl, r, s, i + 1, m);
    }
  }

  lemma {:induction false} RotationsSplit(r: Run, s: SessionId, lo: nat, mid: nat, hi: nat)
    requires lo <= mid <= hi <= |r.events| < |r.worlds|
    ensures Rotations(r, s, lo, hi) == Rotations(r, s, lo, mid) + Rotations(r, s, mid, hi)
  {
    hide Apply;
    if mid < hi { RotationsSplit(r, s, lo, mid, hi - 1); }
  }

  /** Only a rotation writes another pair for a session that exists already, and
      the session's user never changes. */
  lemma LineageStep(ttl: Ttl, w: World, e: Event, s: SessionId)
    requires Inv(ttl, w) && Enabled(w, e) && s in w.lineage
    ensures
      var w' := Apply(ttl, w, e);
      && s in w'.lineage && w'.lineage[s].user == w.lineage[s].user
      && (if Rotates(w, e, s)
          then w'.lineage[s].past == w.lineage[s].past + [w.lineage[s].last] && w'.lineage[s].last.at == w.store.now
          else w'.lineage[s] == w.lineage[s])
  {
    if e.LoginCommit? || e.RotateCommit? { assert ProcessOk(ttl, w, w.procs[e.pid]); }
  }

  /** The last pair of a session was written before step `i`, or by a rotation
      since. */
  lemma {:induction false} LastWrite(ttl: Ttl, r: Run, s: SessionId, i: nat, k: nat) returns (m: nat)
    requires ValidRun(ttl, r) && i < k <= |r.events| && s in r.worlds[i].lineage
        && !Rotates(r.worlds[i], r.events[i], s)
    ensures s in r.worlds[k].lineage && i <= m < k
    ensures m == i || Rotates(r.worlds[m], r.events[m], s)
    ensures r.worlds[k].lineage[s].last.at <= r.worlds[m].store.now
  {
    hide Apply;
    if i == k - 1 {
      m := i;
      RunKeepsInv(ttl, r, i);
      assert LineageOk(r.worlds[i], s, r.worlds[i].lineage[s]);
    } else {
      m := LastWrite(ttl, r, s, i, k - 1);
      RunKeepsInv(ttl, r, k - 1);
      if Rotates(r.worlds[k - 1], r.events[k - 1], s) { m := k - 1; }
    }
    LineageStep(ttl, r.worlds[k - 1], r.events[k - 1], s);
  }

  /** A jti of a revoked session can still be accepted only within the access TTL
      of the revocation, or of the one rotation that may follow it. */
  lemma RevokedAccessEnds(ttl: Ttl, r: Run, s: SessionId, i: nat, k: nat, j: Jti) returns (m: nat)
    requires ValidRun(ttl, r) && i < k <= |r.events| && Revokes(r.worlds[i], r.events[i], s)
    requires j in LiveJtis(r.worlds[k], s)
    ensures i <= m < k
    ensures m == i || (Rotates(r.worlds[m], r.events[m], s) && r.events[m].pid in HaveRead(r.worlds[i], s))
    ensures r.worlds[k].store.now < r.worlds[m].store.now + ttl.access
  {
    hide Apply;
    RunKeepsInv(ttl, r, i);
    RunKeepsInv(ttl, r, k);
    assert ProcessOk(ttl, r.worlds[i], r.worlds[i].procs[r.events[i].pid]);
    m := LastWrite(ttl, r, s, i, k);
    BoundedRevocation(ttl, r, s, i, k);
    assert AccessOk(ttl, r.worlds[k], j, r.worlds[k].store.access[j]);
  }

  lemma RevokeRemovesRead(ttl: Ttl, w: World, e: Event, s: SessionId)
    requires Inv(ttl, w) && Revokes(w, e, s)
    ensures s in w.lineage
    ensures
      var w', read := Apply(ttl, w, e), w.procs[e.pid].read;
      LiveJtis(w', s) == LiveJtis(w, s) - Just(read.jti) && LiveTokens(w', s) == LiveTokens(w, s) - Just(read.refresh)
  {
    RevokesWithRead(ttl, w, e, s);
    hide Inv;
    hide Apply;
  }

  /** A revocation sends what it has read of the session. */
  lemma RevokesWithRead(ttl: Ttl, w: World, e: Event, s: SessionId)
    requires Inv(ttl, w) && Revokes(w, e, s)
    ensures s in w.lineage && Apply(ttl, w, e).store == Revoke(w.store, s, w.procs[e.pid].read)
  {
    assert ProcessOk(ttl, w, w.procs[e.pid]);
  }

  /** When a revocation is immediate: its transaction leaves no live jti (token) of
      the session exactly when the jti (token) it read is still the current one,
      or the current one has gone already. */
  lemma RevocationIsImmediateIff(ttl: Ttl, r: Run, i: nat, s: SessionId)
    requires ValidRun(ttl, r) && i < |r.events| && Revokes(r.worlds[i], r.events[i], s)
    ensures s in r.worlds[i].lineage
    ensures
      var last, read := r.worlds[i].lineage[s].last, r.worlds[i].procs[r.events[i].pid].read;
      && (LiveJtis(r.worlds[i + 1], s) == {} <==> read.jti == Some(last.jti) || last.jti !in r.worlds[i].store.access)
      && (LiveTokens(r.worlds[i + 1], s) == {} <==>
            read.refresh == Some(last.token) || last.token !in r.worlds[i].store.refresh)
  {
    hide Apply;
    var w, e := r.worlds[i], r.events[i];
    RunKeepsInv(ttl, r, i);
    RevokeRemovesRead(ttl, w, e, s);
    OneAccessJti(ttl, r, i, s);
    OneTokenOrOneRefresh(ttl, r, i, s);
    CurrentPairIsOwn(ttl, w, s);
  }

  /** If a session's current jti (token) is live, it is live for that session. */
  lemma CurrentPairIsOwn(ttl: Ttl, w: World, s: SessionId)
    requires Inv(ttl, w) && s in w.lineage
    ensures
      var last := w.lineage[s].last;
      && (last.jti in w.store.access <==> last.jti in LiveJtis(w, s))
      && (last.token in w.store.refresh <==> last.token in LiveTokens(w, s))
  {
    hide Apply;
    var last := w.lineage[s].last;
    assert LineageOk(w, s, w.lineage[s]);
    if last.jti in w.store.access {
      var g := w.store.access[last.jti];
      assert AccessOk(ttl, w, last.jti, g);
      assert LineageOk(w, g.session, w.lineage[g.session]);
    }
    if last.token in w.store.refresh {
      var g := w.store.refresh[last.token];
      assert RefreshOk(w, last.token, g);
      assert LineageOk(w, g.session, w.lineage[g.session]);
    }
  }
}
