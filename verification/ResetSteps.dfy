/** The handlers of password resets as interleaved statements on the token table: the
    DELETE and the INSERT of a request, the SELECT and the UPDATE of a reset. Any
    number of handlers run at once, in any order, and each statement takes effect when
    it is executed. */
module ResetSteps {
  import opened Wrappers
  import opened SessionStore
  import opened Accounts

  datatype Process =
    // request: the user's rows are deleted, the new row is not inserted yet
    | Deleted(user: UserId, id: RowId, digest: Digest)
    // reset: the row was found and consumed in memory, and is not saved yet
    | Consumed(id: RowId, row: Row)

  datatype Issue = Issue(user: UserId, digest: Digest)

  /** `issued` are the ids generated so far, `inserted` those that an INSERT has used,
      `spent` those that a reset has saved. */
  datatype World = World(
    rows: Rows,
    procs: map<nat, Process>,
    issued: map<RowId, Issue>,
    inserted: set<RowId>,
    spent: set<RowId>)

  const Start := World(map[], map[], map[], {}, {})

  datatype Event =
    | Delete(pid: nat, user: UserId, id: RowId, digest: Digest)
    | Insert(pid: nat, expires: int)
    | Find(pid: nat, digest: Digest, now: int)
    | Save(pid: nat)

  ghost predicate Enabled(w: World, e: Event) {
    match e
    case Delete(p, _, id, digest) =>
      p !in w.procs && id !in w.issued && forall other | other in w.issued :: w.issued[other].digest != digest
    case Insert(p, _) => p in w.procs && w.procs[p].Deleted?
    case Find(p, digest, now) =>
      && p !in w.procs && FindByDigest(w.rows, digest).Some?
      && var row := w.rows[FindByDigest(w.rows, digest).value];
      ConsumeFailure(row.expires, row.used, now).None?
    case Save(p) => p in w.procs && w.procs[p].Consumed?
  }

  ghost function Apply(w: World, e: Event): World
    requires Enabled(w, e)
  {
    match e
    case Delete(p, user, id, digest) =>
      w.(rows := DeleteAllByUser(w.rows, user), procs := w.procs[p := Deleted(user, id, digest)],
         issued := w.issued[id := Issue(user, digest)])
    case Insert(p, expires) =>
      var Deleted(user, id, digest) := w.procs[p];
      w.(rows := SaveRow(w.rows, id, Row(user, digest, expires, false)), procs := w.procs - {p},
         inserted := w.inserted + {id})
    case Find(p, digest, now) =>
      var id := FindByDigest(w.rows, digest).value;
      w.(procs := w.procs[p := Consumed(id, w.rows[id].(used := true))])
    case Save(p) =>
      var Consumed(id, row) := w.procs[p];
      w.(rows := SaveRow(w.rows, id, row), procs := w.procs - {p}, spent := w.spent + {id})
  }

  datatype Run = Run(worlds: seq<World>, events: seq<Event>)

  ghost predicate ValidRun(r: Run) {
    && |r.worlds| == |r.events| + 1
    && r.worlds[0] == Start
    && forall i | 0 <= i < |r.events| ::
        Enabled(r.worlds[i], r.events[i]) && r.worlds[i + 1] == Apply(r.worlds[i], r.events[i])
  }

  // ------------------------------------------------------------------------
  // What every interleaving keeps
  // ------------------------------------------------------------------------

  ghost predicate Matches(w: World, id: RowId, user: UserId, digest: Digest) {
    id in w.issued && w.issued[id] == Issue(user, digest)
  }

  ghost predicate ProcessOk(w: World, p: Process) {
    match p
    case Deleted(user, id, digest) => Matches(w, id, user, digest) && id !in w.inserted
    case Consumed(id, row) => Matches(w, id, row.user, row.digest) && id in w.inserted && row.used
  }

  ghost predicate Inv(w: World) {
    && (forall a, b | a in w.issued && b in w.issued && w.issued[a].digest == w.issued[b].digest :: a == b)
    && (forall id | id in w.rows :: id in w.inserted && Matches(w, id, w.rows[id].user, w.rows[id].digest))
    && (forall p | p in w.procs :: ProcessOk(w, w.procs[p]))
    && (forall p, q | p in w.procs && q in w.procs && p != q && w.procs[p].Deleted? && w.procs[q].Deleted? ::
          w.procs[p].id != w.procs[q].id)
    && w.spent <= w.inserted && w.inserted <= w.issued.Keys
    && (forall id | id in w.spent && id in w.rows :: w.rows[id].used)
  }

  lemma DeleteKeepsInv(w: World, e: Event)
    requires Inv(w) && Enabled(w, e) && e.Delete?
    ensures Inv(Apply(w, e))
  {
    var w' := Apply(w, e);
    forall p | p in w'.procs ensures ProcessOk(w', w'.procs[p]) {
      if p in w.procs { assert ProcessOk(w, w.procs[p]); }
    }
  }

  lemma InsertKeepsInv(w: World, e: Event)
    requires Inv(w) && Enabled(w, e) && e.Insert?
    ensures Inv(Apply(w, e))
  {
    var w' := Apply(w, e);
    assert ProcessOk(w, w.procs[e.pid]);
    forall p | p in w'.procs ensures ProcessOk(w', w'.procs[p]) {
      assert ProcessOk(w, w.procs[p]);
    }
  }

  lemma FindKeepsInv(w: World, e: Event)
    requires Inv(w) && Enabled(w, e) && e.Find?
    ensures Inv(Apply(w, e))
  {
    var w' := Apply(w, e);
    forall p | p in w'.procs ensures ProcessOk(w', w'.procs[p]) {
      if p in w.procs { assert ProcessOk(w, w.procs[p]); }
    }
  }

  lemma SaveKeepsInv(w: World, e: Event)
    requires Inv(w) && Enabled(w, e) && e.Save?
    ensures Inv(Apply(w, e))
  {
    var w' := Apply(w, e);
    assert ProcessOk(w, w.procs[e.pid]);
    forall p | p in w'.procs ensures ProcessOk(w', w'.procs[p]) {
      assert ProcessOk(w, w.procs[p]);
    }
  }

  /** Every statement of every handler keeps the invariant. */
  lemma StepKeepsInv(w: World, e: Event)
    requires Inv(w) && Enabled(w, e)
    ensures Inv(Apply(w, e))
  {
    hide Inv;
    hide Apply;
    match e
    case Delete(_, _, _, _) => DeleteKeepsInv(w, e);
    case Insert(_, _) => InsertKeepsInv(w, e);
    case Find(_, _, _) => FindKeepsInv(w, e);
    case Save(_) => SaveKeepsInv(w, e);
  }

  lemma {:induction false} RunKeepsInv(r: Run, k: nat)
    requires ValidRun(r) && k <= |r.events|
    ensures Inv(r.worlds[k])
    decreases k
  {
    hide Apply;
    if k > 0 {
      RunKeepsInv(r, k - 1);
      StepKeepsInv(r.worlds[k - 1], r.events[k - 1]);
    }
  }

  /** After every statement of every interleaving a token hash leads to at most one
      row: find_by_token is single-valued. */
  lemma DigestsAreUnique(r: Run, k: nat)
    requires ValidRun(r) && k <= |r.events|
    ensures UniqueDigests(r.worlds[k].rows)
  {
    RunKeepsInv(r, k);
  }

  // ------------------------------------------------------------------------
  // One row per user
  // ------------------------------------------------------------------------

  /** The statement adds a row for `user`: an INSERT, or the save of a consumed row
      that has been deleted meanwhile. */
  predicate Adds(w: World, e: Event, user: UserId) {
    || (e.Insert? && e.pid in w.procs && w.procs[e.pid].Deleted? && w.procs[e.pid].user == user)
    || (e.Save? && e.pid in w.procs && w.procs[e.pid].Consumed? && w.procs[e.pid].row.user == user
        && w.procs[e.pid].id !in w.rows)
  }

  predicate Clears(e: Event, user: UserId) {
    e.Delete? && e.user == user
  }

  lemma HasRowStep(w: World, e: Event, user: UserId)
    requires Inv(w) && Enabled(w, e)
    ensures HasRow(Apply(w, e).rows, user) <==> Adds(w, e, user) || (HasRow(w.rows, user) && !Clears(e, user))
  {
    var w' := Apply(w, e);
    if e.Insert? || e.Save? {
      var p := w.procs[e.pid];
      assert ProcessOk(w, p);
      assert p.id in w'.rows;
      assert forall id | id in w.rows :: id in w'.rows && w'.rows[id].user == w.rows[id].user;
    }
    if HasRow(w.rows, user) {
      var id :| id in w.rows && w.rows[id].user == user;
      assert !Clears(e, user) ==> id in w'.rows && w'.rows[id].user == user;
    }
  }

  /** Since step `lo`, a row was added for `user`, and the user's rows have not been
      deleted after that. */
  ghost predicate AddedSince(r: Run, user: UserId, lo: nat, k: nat)
    requires k <= |r.events| < |r.worlds|
  {
    exists j: nat | lo <= j < k ::
      Adds(r.worlds[j], r.events[j], user) && forall m | j < m < k :: !Clears(r.events[m], user)
  }

  lemma AddedSinceStep(r: Run, user: UserId, lo: nat, k: nat)
    requires lo <= k < |r.events| < |r.worlds|
    ensures
      AddedSince(r, user, lo, k + 1) <==>
      Adds(r.worlds[k], r.events[k], user) || (AddedSince(r, user, lo, k) && !Clears(r.events[k], user))
  {
    if AddedSince(r, user, lo, k) && !Clears(r.events[k], user) {
      var j: nat :| lo <= j < k && Adds(r.worlds[j], r.events[j], user)
        && forall m | j < m < k :: !Clears(r.events[m], user);
      assert forall m | j < m < k + 1 :: !Clears(r.events[m], user);
    }
    if AddedSince(r, user, lo, k + 1) {
      var j: nat :| lo <= j < k + 1 && Adds(r.worlds[j], r.events[j], user)
        && forall m | j < m < k + 1 :: !Clears(r.events[m], user);
      assert j == k || (j < k && !Clears(r.events[k], user));
    }
  }

  lemma {:induction false} HasRowIff(r: Run, user: UserId, lo: nat, k: nat)
    requires ValidRun(r) && lo <= k <= |r.events| && !HasRow(r.worlds[lo].rows, user)
    ensures HasRow(r.worlds[k].rows, user) <==> AddedSince(r, user, lo, k)
    decreases k
  {
    hide Apply;
    hide HasRow;
    hide AddedSince;
    if lo < k {
      HasRowIff(r, user, lo, k - 1);
      RunKeepsInv(r, k - 1);
      HasRowStep(r.worlds[k - 1], r.events[k - 1], user);
      AddedSinceStep(r, user, lo, k - 1);
    } else {
      NothingAddedSince(r, user, k);
    }
  }

  lemma NothingAddedSince(r: Run, user: UserId, k: nat)
    requires k <= |r.events| < |r.worlds|
    ensures !AddedSince(r, user, k, k)
  {
  }

  /** One statement keeps one row per user, unless it adds a row for a user who has
      one. */
  lemma OneRowStep(w: World, e: Event)
    requires Inv(w) && Enabled(w, e) && OneRowPerUser(w.rows)
    ensures OneRowPerUser(Apply(w, e).rows) <==> !exists user :: Adds(w, e, user) && HasRow(w.rows, user)
  {
    var w' := Apply(w, e);
    match e
    case Delete(_, _, _, _) =>
    case Find(_, _, _) =>
    case Insert(p, expires) =>
      var Deleted(user, id, digest) := w.procs[p];
      assert ProcessOk(w, w.procs[p]);
      AddKeepsOneRowIff(w.rows, id, Row(user, digest, expires, false));
      assert Adds(w, e, user);
    case Save(p) =>
      var Consumed(id, row) := w.procs[p];
      assert ProcessOk(w, w.procs[p]);
      if id in w.rows {
        assert forall a | a in w'.rows :: a in w.rows && w'.rows[a].user == w.rows[a].user;
      } else {
        AddKeepsOneRowIff(w.rows, id, row);
        assert Adds(w, e, row.user);
      }
  }

  lemma AddKeepsOneRowIff(rows: Rows, id: RowId, row: Row)
    requires OneRowPerUser(rows) && id !in rows
    ensures OneRowPerUser(SaveRow(rows, id, row)) <==> !HasRow(rows, row.user)
  {
    InsertKeepsOneRowIff(rows, id, row);
    if !HasRow(rows, row.user) {
      assert DeleteAllByUser(rows, row.user) == rows;
    } else {
      var other :| other in rows && rows[other].user == row.user;
      assert other !in DeleteAllByUser(rows, row.user);
    }
  }

  /** Step `k` adds a row for a user for whom a row has been added and not deleted. */
  ghost predicate Doubles(r: Run, k: nat)
    requires k < |r.events| < |r.worlds|
  {
    exists user :: Adds(r.worlds[k], r.events[k], user) && AddedSince(r, user, 0, k)
  }

  /** Over every interleaving: there is at most one token row per user after each
      statement, exactly as long as no statement adds a row for a user while a row
      added earlier has not been deleted. */
  lemma {:induction false} SingleRowsIff(r: Run, n: nat)
    requires ValidRun(r) && n <= |r.events|
    ensures (forall k | 0 <= k <= n :: OneRowPerUser(r.worlds[k].rows)) <==> forall k: nat | k < n :: !Doubles(r, k)
    decreases n
  {
    hide Apply;
    hide OneRowPerUser;
    hide AddedSince;
    hide Adds;
    if n == 0 {
      NoRows();
    } else {
      SingleRowsIff(r, n - 1);
      RunKeepsInv(r, n - 1);
      if OneRowPerUser(r.worlds[n - 1].rows) {
        OneRowStep(r.worlds[n - 1], r.events[n - 1]);
        var m := n - 1;
        forall user ensures HasRow(r.worlds[m].rows, user) <==> AddedSince(r, user, 0, m) {
          HasRowFromStart(r, user, m);
        }
        assert OneRowPerUser(r.worlds[n].rows) <==> !Doubles(r, n - 1);
      }
    }
  }

  lemma NoRows()
    ensures OneRowPerUser(map[])
  {
  }

  lemma HasRowFromStart(r: Run, user: UserId, k: nat)
    requires ValidRun(r) && k <= |r.events|
    ensures HasRow(r.worlds[k].rows, user) <==> AddedSince(r, user, 0, k)
  {
    HasRowIff(r, user, 0, k);
  }

  /** In terms of one request: its INSERT leaves its user with two rows exactly when a
      row has been added for the user since its DELETE (or any other of the user), and
      no DELETE for the user has come after that. The request itself adds none in
      between, so it was another handler, under way at the same time. */
  lemma InsertDoublesIff(r: Run, i: nat, k: nat, p: nat, user: UserId)
    requires ValidRun(r) && i < k < |r.events| && r.events[i].Delete? && r.events[i].user == user
    requires r.events[k].Insert? && r.events[k].pid == p && r.worlds[k].procs[p].Deleted?
        && r.worlds[k].procs[p].user == user
    requires OneRowPerUser(r.worlds[k].rows)
    ensures OneRowPerUser(r.worlds[k + 1].rows) <==> !AddedSince(r, user, i + 1, k)
  {
    RunKeepsInv(r, i);
    RunKeepsInv(r, k);
    HasRowStep(r.worlds[i], r.events[i], user);
    HasRowIff(r, user, i + 1, k);
    OneRowStep(r.worlds[k], r.events[k]);
    assert Adds(r.worlds[k], r.events[k], user);
    hide HasRow;
    hide OneRowPerUser;
    hide AddedSince;
    hide Apply;
    hide Inv;
  }

  // ------------------------------------------------------------------------
  // Handlers that do not overlap
  // ------------------------------------------------------------------------

  function UserOf(p: Process): UserId {
    if p.Deleted? then p.user else p.row.user
  }

  /** No handler begins for a user while another one for the same user is under way. */
  ghost predicate Serial(w: World, e: Event)
    requires Enabled(w, e)
  {
    match e
    case Delete(_, user, _, _) => forall p | p in w.procs :: UserOf(w.procs[p]) != user
    case Find(_, digest, _) =>
      forall p | p in w.procs :: UserOf(w.procs[p]) != w.rows[FindByDigest(w.rows, digest).value].user
    case _ => true
  }

  ghost predicate SerialInv(w: World) {
    && OneRowPerUser(w.rows)
    && (forall p, q | p in w.procs && q in w.procs && UserOf(w.procs[p]) == UserOf(w.procs[q]) :: p == q)
    && (forall p | p in w.procs ::
          if w.procs[p].Deleted? then !HasRow(w.rows, w.procs[p].user) else w.procs[p].id in w.rows)
  }

  lemma SerialRowsStep(w: World, e: Event)
    requires Inv(w) && SerialInv(w) && Enabled(w, e)
    ensures OneRowPerUser(Apply(w, e).rows)
  {
    OneRowStep(w, e);
    hide Apply;
    hide Inv;
    hide HasRow;
    hide OneRowPerUser;
    forall user | Adds(w, e, user) ensures !HasRow(w.rows, user) {
    }
  }

  lemma SerialProcessesStep(w: World, e: Event)
    requires Inv(w) && SerialInv(w) && Enabled(w, e) && Serial(w, e)
    ensures
      var w' := Apply(w, e);
      && (forall p, q | p in w'.procs && q in w'.procs && UserOf(w'.procs[p]) == UserOf(w'.procs[q]) :: p == q)
      && (forall p | p in w'.procs && w'.procs[p].Deleted? :: !HasRow(w'.rows, w'.procs[p].user))
  {
    var w' := Apply(w, e);
    forall p | p in w'.procs && w'.procs[p].Deleted? ensures !HasRow(w'.rows, w'.procs[p].user) {
      HasRowStep(w, e, w'.procs[p].user);
    }
  }

  lemma SerialConsumedStep(w: World, e: Event)
    requires Inv(w) && SerialInv(w) && Enabled(w, e) && Serial(w, e)
    ensures
      var w' := Apply(w, e);
      forall p | p in w'.procs && w'.procs[p].Consumed? :: w'.procs[p].id in w'.rows
  {
    var w' := Apply(w, e);
    forall p | p in w'.procs && w'.procs[p].Consumed? ensures w'.procs[p].id in w'.rows {
      if p in w.procs { assert ProcessOk(w, w.procs[p]); }
    }
  }

  lemma SerialStep(w: World, e: Event)
    requires Inv(w) && SerialInv(w) && Enabled(w, e) && Serial(w, e)
    ensures SerialInv(Apply(w, e))
  {
    SerialRowsStep(w, e);
    SerialProcessesStep(w, e);
    SerialConsumedStep(w, e);
    hide Apply;
  }

  /** As long as the handlers of one user do not overlap, there is at most one token row
      per user, and a token hash leads to at most one row, after every single statement,
      between the statements of a handler too. */
  lemma {:induction false} SerialRowsAreSingle(r: Run, k: nat)
    requires ValidRun(r) && k <= |r.events|
    requires forall m | 0 <= m < k :: Serial(r.worlds[m], r.events[m])
    ensures SerialInv(r.worlds[k]) && OneRowPerUser(r.worlds[k].rows) && UniqueDigests(r.worlds[k].rows)
    decreases k
  {
    hide Apply;
    DigestsAreUnique(r, k);
    if k > 0 {
      SerialRowsAreSingle(r, k - 1);
      RunKeepsInv(r, k - 1);
      SerialStep(r.worlds[k - 1], r.events[k - 1]);
    }
  }

  /** A request and a reset that nothing interrupts do to the table what the handlers
      do. */
  lemma UninterruptedRows(w: World, p: nat, user: UserId, id: RowId, digest: Digest, expires: int, now: int)
    ensures
      Enabled(w, Delete(p, user, id, digest)) ==>
        var w1 := Apply(w, Delete(p, user, id, digest));
        && Enabled(w1, Insert(p, expires))
        && Apply(w1, Insert(p, expires)).rows ==
            SaveRow(DeleteAllByUser(w.rows, user), id, Row(user, digest, expires, false))
    ensures
      Enabled(w, Find(p, digest, now)) ==>
        var w1 := Apply(w, Find(p, digest, now));
        var found := FindByDigest(w.rows, digest).value;
        Enabled(w1, Save(p)) && Apply(w1, Save(p)).rows == SaveRow(w.rows, found, w.rows[found].(used := true))
  {
  }

  // ------------------------------------------------------------------------
  // Handlers that overlap
  // ------------------------------------------------------------------------

  /** "One active reset token per user" is not kept by two requests that overlap: both
      delete, then both insert, and the user has two unused tokens. */
  lemma OverlappingRequestsLeaveTwoRows(user: UserId, a: RowId, b: RowId, da: Digest, db: Digest, expires: int)
    returns (r: Run)
    requires a != b && da != db
    ensures ValidRun(r)
    ensures r.events == [Delete(0, user, a, da), Delete(1, user, b, db), Insert(0, expires), Insert(1, expires)]
    ensures
      var rows := r.worlds[4].rows;
      rows == map[a := Row(user, da, expires, false), b := Row(user, db, expires, false)] && !OneRowPerUser(rows)
  {
    var w1 := Apply(Start, Delete(0, user, a, da));
    var w2 := Apply(w1, Delete(1, user, b, db));
    var w3 := Apply(w2, Insert(0, expires));
    var w4 := Apply(w3, Insert(1, expires));
    r := Run([Start, w1, w2, w3, w4],
             [Delete(0, user, a, da), Delete(1, user, b, db), Insert(0, expires), Insert(1, expires)]);
    assert w2.rows == map[];
    assert w4.rows == map[a := Row(user, da, expires, false), b := Row(user, db, expires, false)];
    assert w4.rows[a].user == w4.rows[b].user;
  }

  /** Whoever is about to save a row after another reset has saved it had found it
      before. */
  lemma {:induction false} ConsumedBeforeSave(r: Run, i: nat, m: nat, p: nat)
    requires ValidRun(r) && i < m <= |r.events| && r.events[i].Save?
    requires r.worlds[i].procs[r.events[i].pid].Consumed?
    requires p in r.worlds[m].procs && r.worlds[m].procs[p].Consumed?
    requires r.worlds[m].procs[p].id == r.worlds[i].procs[r.events[i].pid].id
    ensures p != r.events[i].pid && p in r.worlds[i].procs && r.worlds[i].procs[p] == r.worlds[m].procs[p]
    decreases m
  {
    hide Apply;
    hide Inv;
    if i + 1 == m {
      SaveEnds(r.worlds[i], r.events[i]);
    } else {
      RunKeepsInv(r, m - 1);
      SpentStays(r, i, m - 1);
      FindIsUnspent(r.worlds[m - 1], r.events[m - 1], p, r.worlds[m].procs[p].id);
      ConsumedBeforeSave(r, i, m - 1, p);
    }
  }

  lemma SaveEnds(w: World, e: Event)
    requires Enabled(w, e) && e.Save?
    ensures Apply(w, e).procs == w.procs - {e.pid} && w.procs[e.pid].id in Apply(w, e).spent
  {
  }

  lemma SpentStep(w: World, e: Event)
    requires Enabled(w, e)
    ensures w.spent <= Apply(w, e).spent
  {
  }

  lemma FindIsUnspent(w: World, e: Event, p: nat, id: RowId)
    requires Inv(w) && Enabled(w, e) && id in w.spent
    requires p in Apply(w, e).procs && Apply(w, e).procs[p].Consumed? && Apply(w, e).procs[p].id == id
    ensures p in w.procs && w.procs[p] == Apply(w, e).procs[p]
  {
  }

  lemma {:induction false} SpentStays(r: Run, i: nat, m: nat)
    requires ValidRun(r) && i < m <= |r.events| && r.events[i].Save?
    requires r.worlds[i].procs[r.events[i].pid].Consumed?
    ensures r.worlds[i].procs[r.events[i].pid].id in r.worlds[m].spent
    decreases m
  {
    hide Apply;
    if i + 1 < m {
      SpentStays(r, i, m - 1);
      SpentStep(r.worlds[m - 1], r.events[m - 1]);
    } else {
      SaveEnds(r.worlds[i], r.events[i]);
    }
  }

  /** Single use, over every interleaving: two resets save the same token only if both
      had found it before the first of them saved it. */
  lemma SecondUseOverlapped(r: Run, i: nat, k: nat)
    requires ValidRun(r) && i < k < |r.events| && r.events[i].Save? && r.events[k].Save?
    requires r.events[i].pid in r.worlds[i].procs && r.worlds[i].procs[r.events[i].pid].Consumed?
    requires r.events[k].pid in r.worlds[k].procs && r.worlds[k].procs[r.events[k].pid].Consumed?
    requires r.worlds[i].procs[r.events[i].pid].id == r.worlds[k].procs[r.events[k].pid].id
    ensures
      var p := r.events[k].pid;
      p != r.events[i].pid && p in r.worlds[i].procs && r.worlds[i].procs[p] == r.worlds[k].procs[p]
  {
    ConsumedBeforeSave(r, i, k, r.events[k].pid);
  }

  /** "Reset token is single-use" is not kept by two resets that overlap: both find the
      token unused, and both save it. */
  lemma OverlappingResetsUseTokenTwice(user: UserId, id: RowId, digest: Digest, expires: int, now: int) returns (r: Run)
    requires now < expires
    ensures ValidRun(r)
    ensures
      r.events == [Delete(0, user, id, digest), Insert(0, expires), Find(1, digest, now), Find(2, digest, now),
                   Save(1), Save(2)]
    ensures
      forall k | k == 4 || k == 5 ::
        var p := r.events[k].pid;
        p in r.worlds[k].procs && r.worlds[k].procs[p] == Consumed(id, Row(user, digest, expires, true))
  {
    var row := Row(user, digest, expires, false);
    var w1 := Apply(Start, Delete(0, user, id, digest));
    var w2 := Apply(w1, Insert(0, expires));
    assert w2.rows == map[id := row];
    FindOnlyRow(w2.rows, id);
    var w3 := Apply(w2, Find(1, digest, now));
    var w4 := Apply(w3, Find(2, digest, now));
    var w5 := Apply(w4, Save(1));
    var w6 := Apply(w5, Save(2));
    r := Run([Start, w1, w2, w3, w4, w5, w6],
             [Delete(0, user, id, digest), Insert(0, expires), Find(1, digest, now), Find(2, digest, now), Save(1),
              Save(2)]);
  }

  lemma FindOnlyRow(rows: Rows, id: RowId)
    requires rows.Keys == {id}
    ensures FindByDigest(rows, rows[id].digest) == Some(id)
  {
    assert id in rows;
  }

  /** The run `r'` continues the run `r`. */
  ghost predicate Extends(r': Run, r: Run) {
    && ValidRun(r') && |r.worlds| == |r.events| + 1 && |r.events| <= |r'.events|
    && (forall i | 0 <= i <= |r.events| :: r'.worlds[i] == r.worlds[i])
    && (forall i | 0 <= i < |r.events| :: r'.events[i] == r.events[i])
  }

  /** At step `k` a reset saves the row `id`. */
  ghost predicate Saves(r: Run, k: nat, id: RowId)
    requires |r.worlds| == |r.events| + 1
  {
    && k < |r.events| && r.events[k].Save? && Enabled(r.worlds[k], r.events[k])
    && r.worlds[k].procs[r.events[k].pid].id == id
  }

  /** In some continuation another reset saves the row `id`. */
  ghost predicate SavesAgain(r: Run, id: RowId) {
    exists r': Run, k: nat | Extends(r', r) && Saves(r', k, id) :: |r.events| <= k
  }

  predicate Holds(w: World, p: nat, id: RowId) {
    p in w.procs && w.procs[p].Consumed? && w.procs[p].id == id
  }

  lemma HolderCanSave(r: Run, p: nat, id: RowId) returns (r': Run)
    requires ValidRun(r) && Holds(r.worlds[|r.events|], p, id)
    ensures Extends(r', r) && Saves(r', |r.events|, id)
  {
    var w := r.worlds[|r.events|];
    r' := Run(r.worlds + [Apply(w, Save(p))], r.events + [Save(p)]);
    hide Apply;
  }

  lemma LaterSaveHeld(r: Run, i: nat, k: nat, id: RowId)
    requires ValidRun(r) && i < k && Saves(r, i, id) && Saves(r, k, id)
    ensures Holds(r.worlds[i + 1], r.events[k].pid, id)
  {
    SecondUseOverlapped(r, i, k);
    SaveEnds(r.worlds[i], r.events[i]);
  }

  /** When a reset has saved its token, another reset can still use the same token if
      and only if one is under way that had found it before. */
  lemma SavesAgainIff(r: Run, id: RowId)
    requires ValidRun(r) && 0 < |r.events| && Saves(r, |r.events| - 1, id)
    ensures SavesAgain(r, id) <==> exists p :: Holds(r.worlds[|r.events|], p, id)
  {
    hide Apply;
    var i := |r.events| - 1;
    if SavesAgain(r, id) {
      var r': Run, k: nat :| Extends(r', r) && Saves(r', k, id) && |r.events| <= k;
      assert r'.worlds[i] == r.worlds[i] && r'.events[i] == r.events[i] && r'.worlds[i + 1] == r.worlds[i + 1];
      LaterSaveHeld(r', i, k, id);
    }
    if p :| Holds(r.worlds[|r.events|], p, id) {
      var r' := HolderCanSave(r, p, id);
      assert Extends(r', r) && Saves(r', |r.events|, id);
    }
  }
}
