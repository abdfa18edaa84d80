/** Idempotent requests that overlap: the GET of on_execute, the execution of the
    request and the SETEX after it are steps of their own, and those of any number of
    requests interleave. */
module IdempotencyRaces {
  import opened Wrappers
  import opened Idempotency

  datatype Event = Begin(pid: nat, req: Request, at: int) | Execute(pid: nat, at: int) | Finish(pid: nat, at: int)

  /** A request that the store had no answer for, before and after its execution. */
  datatype Phase = Missed(req: Request) | Executed(req: Request, answer: Answer)

  datatype World<B> = World(st: State<B>, pending: map<nat, Phase>)

  predicate Enabled<B>(w: World<B>, e: Event) {
    match e
    case Begin(p, _, _) => p !in w.pending
    case Execute(p, _) => p in w.pending && w.pending[p].Missed?
    case Finish(p, _) => p in w.pending && w.pending[p].Executed?
  }

  predicate Answered<B>(w: World<B>, req: Request, at: int) {
    Keyed(req) && Look(w.st.records, RedisKey(req), at).Some?
  }

  predicate Cached(req: Request, answer: Answer) {
    Keyed(req) && answer.errors == [] && answer.data.Some?
  }

  function Apply<B>(eng: Engine<B>, w: World<B>, e: Event): World<B>
    requires Enabled(w, e)
  {
    match e
    case Begin(p, req, at) => if Answered(w, req, at) then w else w.(pending := w.pending[p := Missed(req)])
    case Execute(p, _) =>
      var (backend, answer) := eng.exec(w.st.backend, w.pending[p].req);
      World(w.st.(backend := backend), w.pending[p := Executed(w.pending[p].req, answer)])
    case Finish(p, at) =>
      var Executed(req, answer) := w.pending[p];
      var records :=
        if Cached(req, answer) then w.st.records[RedisKey(req) := Record(HashOf(eng, req), answer.data.value, at + TTL)]
        else w.st.records;
      World(w.st.(records := records), w.pending - {p})
  }

  /** What a request that the store has a record for is told. */
  function FromStore<B>(eng: Engine<B>, w: World<B>, req: Request, at: int): Answer
    requires Answered(w, req, at)
  {
    var record := Look(w.st.records, RedisKey(req), at).value;
    if record.hash == HashOf(eng, req) then Answer(Some(record.response), []) else CONFLICT
  }

  /** With no step of another request in between, a request leaves what `Serve`
      leaves, and gets its answer. */
  lemma UninterruptedIsServe<B>(eng: Engine<B>, w: World<B>, p: nat, req: Request, at: int)
    requires p !in w.pending
    ensures
      var w1 := Apply(eng, w, Begin(p, req, at));
      if p in w1.pending then
        var w2 := Apply(eng, w1, Execute(p, at));
        var w3 := Apply(eng, w2, Finish(p, at));
        w3.pending == w.pending
            && (w3.st, w2.pending[p].answer) == (Serve(eng, w.st, req, at).0, Serve(eng, w.st, req, at).1)
      else
        && Answered(w, req, at) && w1.pending == w.pending
        && (w1.st, FromStore(eng, w, req, at)) == (Serve(eng, w.st, req, at).0, Serve(eng, w.st, req, at).1)
  {
    hide RedisKey;
    hide HashOf;
    var w1 := Apply(eng, w, Begin(p, req, at));
    if p in w1.pending {
      var w2 := Apply(eng, w1, Execute(p, at));
      assert w2.pending - {p} == w.pending;
    }
  }

  datatype Run<B> = Run(worlds: seq<World<B>>, events: seq<Event>)

  ghost predicate ValidRun<B>(eng: Engine<B>, r: Run<B>) {
    && |r.worlds| == |r.events| + 1
    && (forall i | 0 <= i < |r.events| ::
          Enabled(r.worlds[i], r.events[i]) && r.worlds[i + 1] == Apply(eng, r.worlds[i], r.events[i]))
    && (forall i, j | 0 <= i < j < |r.events| :: r.events[i].at <= r.events[j].at)
  }

  /** Step `i` is the SETEX after an error-free execution under `key`. */
  predicate Stores<B>(r: Run<B>, i: nat, key: string)
    requires i < |r.events| < |r.worlds|
  {
    && r.events[i].Finish? && Enabled(r.worlds[i], r.events[i])
    && var Executed(req, answer) := r.worlds[i].pending[r.events[i].pid];
    Cached(req, answer) && RedisKey(req) == key
  }

  /** The record that `Stores` leaves may be replaced, by another one that lasts at
      least as long. */
  lemma {:induction false} RecordLasts<B>(eng: Engine<B>, r: Run<B>, i: nat, m: nat, key: string)
    requires ValidRun(eng, r) && i < m <= |r.events| && Stores(r, i, key)
    ensures key in r.worlds[m].st.records && r.events[i].at + 86400 <= r.worlds[m].st.records[key].expires
    decreases m
  {
    hide RedisKey;
    hide HashOf;
    if i + 1 < m {
      RecordLasts(eng, r, i, m - 1, key);
      assert r.worlds[m] == Apply(eng, r.worlds[m - 1], r.events[m - 1]);
    }
  }

  predicate PendingUnder<B>(w: World<B>, p: nat, key: string) {
    p in w.pending && Keyed(w.pending[p].req) && RedisKey(w.pending[p].req) == key
  }

  /** Under one operation and key, no request is let through to execution in the 24
      hours after the SETEX of an error-free execution: what is pending then was
      pending before. */
  lemma {:induction false} PendingSinceStore<B>(eng: Engine<B>, r: Run<B>, i: nat, m: nat, key: string, p: nat)
    requires ValidRun(eng, r) && i < m <= |r.events| && Stores(r, i, key)
    requires r.events[m - 1].at < r.events[i].at + 86400 && PendingUnder(r.worlds[m], p, key)
    ensures p != r.events[i].pid && p in r.worlds[i].pending && r.worlds[i].pending[p].req == r.worlds[m].pending[p].req
    decreases m
  {
    hide RedisKey;
    hide HashOf;
    var before, e := r.worlds[m - 1], r.events[m - 1];
    assert r.worlds[m] == Apply(eng, before, e);
    if i + 1 < m {
      RecordLasts(eng, r, i, m - 1, key);
      assert e.Begin? && Keyed(e.req) && RedisKey(e.req) == key ==> Answered(before, e.req, e.at);
      assert r.events[m - 2].at <= e.at;
      PendingSinceStore(eng, r, i, m - 1, key, p);
    }
  }

  /** "The cached response is returned without re-executing the mutation" holds in
      every interleaving but for requests that overlap: a second error-free execution
      within 24 hours is always of a request whose GET came before the first one's
      SETEX. */
  lemma SecondExecutionOverlapped<B>(eng: Engine<B>, r: Run<B>, i: nat, k: nat, key: string)
    requires ValidRun(eng, r) && i < k < |r.events| && Stores(r, i, key) && Stores(r, k, key)
    requires r.events[k].at < r.events[i].at + 86400
    ensures
      var p := r.events[k].pid;
      p != r.events[i].pid && p in r.worlds[i].pending && r.worlds[i].pending[p].req == r.worlds[k].pending[p].req
  {
    hide RedisKey;
    hide HashOf;
    assert r.events[k - 1].at <= r.events[k].at;
    PendingSinceStore(eng, r, i, k, key, r.events[k].pid);
  }

  /** The run `r'` continues the run `r`. */
  ghost predicate Extends<B>(eng: Engine<B>, r': Run<B>, r: Run<B>) {
    && ValidRun(eng, r') && |r'.worlds| == |r'.events| + 1
    && |r.worlds| == |r.events| + 1 && |r.events| <= |r'.events|
    && (forall i | 0 <= i <= |r.events| :: r'.worlds[i] == r.worlds[i])
    && (forall i | 0 <= i < |r.events| :: r'.events[i] == r.events[i])
  }

  /** At step `m` a request under `key` that has been executed ends. */
  predicate FinishesUnder<B>(r: Run<B>, m: nat, key: string)
    requires m < |r.events| < |r.worlds|
  {
    r.events[m].Finish? && PendingUnder(r.worlds[m], r.events[m].pid, key)
  }

  /** In the continuation `r'`, at step `m`, another request under `key` that has been
      executed ends, within 24 hours of the last step of `r`. */
  ghost predicate AgainAt<B>(eng: Engine<B>, r': Run<B>, r: Run<B>, m: nat, key: string) {
    && Extends(eng, r', r) && 0 < |r.events| <= m < |r'.events|
    && FinishesUnder(r', m, key) && r'.events[m].at < r.events[|r.events| - 1].at + 86400
  }

  ghost predicate ExecutesAgain<B(!new)>(eng: Engine<B>, r: Run<B>, key: string) {
    exists r': Run<B>, m: nat :: AgainAt(eng, r', r, m, key)
  }

  lemma FinishIsOfPending<B>(eng: Engine<B>, r: Run<B>, i: nat, m: nat, key: string)
    requires ValidRun(eng, r) && i < m < |r.events| && FinishesUnder(r, m, key) && Stores(r, i, key)
    requires r.events[m].at < r.events[i].at + 86400
    ensures PendingUnder(r.worlds[i + 1], r.events[m].pid, key)
  {
    hide RedisKey;
    hide HashOf;
    var p := r.events[m].pid;
    assert r.events[m - 1].at <= r.events[m].at;
    PendingSinceStore(eng, r, i, m, key, p);
    assert r.worlds[i + 1].pending == r.worlds[i].pending - {r.events[i].pid};
  }

  /** The run with one more step. */
  function Then<B>(eng: Engine<B>, r: Run<B>, e: Event): (r': Run<B>)
    requires |r.worlds| == |r.events| + 1 && Enabled(r.worlds[|r.events|], e)
    ensures |r'.worlds| == |r'.events| + 1 && |r'.events| == |r.events| + 1
  {
    Run(r.worlds + [Apply(eng, r.worlds[|r.events|], e)], r.events + [e])
  }

  lemma ThenExtends<B>(eng: Engine<B>, r: Run<B>, e: Event)
    requires ValidRun(eng, r) && Enabled(r.worlds[|r.events|], e)
    requires forall i | 0 <= i < |r.events| :: r.events[i].at <= e.at
    ensures Extends(eng, Then(eng, r, e), r)
  {
    hide Apply;
  }

  lemma ExtendsTwice<B>(eng: Engine<B>, r'': Run<B>, r': Run<B>, r: Run<B>)
    requires Extends(eng, r'', r') && Extends(eng, r', r)
    ensures Extends(eng, r'', r)
  {
    hide ValidRun;
  }

  /** A request that is pending can be executed at once. */
  lemma PendingCanFinish<B>(eng: Engine<B>, r: Run<B>, key: string, p: nat) returns (r': Run<B>, m: nat)
    requires ValidRun(eng, r) && 0 < |r.events| && PendingUnder(r.worlds[|r.events|], p, key)
    ensures AgainAt(eng, r', r, m, key)
  {
    hide RedisKey;
    hide HashOf;
    var at := r.events[|r.events| - 1].at;
    var r1 := r;
    if r.worlds[|r.events|].pending[p].Missed? {
      r1 := Then(eng, r, Execute(p, at));
      ThenExtends(eng, r, Execute(p, at));
      assert PendingUnder(r1.worlds[|r1.events|], p, key);
    } else {
      assert Extends(eng, r, r);
    }
    r' := Then(eng, r1, Finish(p, at));
    ThenExtends(eng, r1, Finish(p, at));
    ExtendsTwice(eng, r', r1, r);
    m := |r1.events|;
  }

  /** When an error-free execution has been stored, another one under its key can still
      happen within 24 hours if and only if some request under the key is pending: one
      whose GET came before this SETEX. */
  lemma ExecutesAgainIff<B(!new)>(eng: Engine<B>, r: Run<B>, key: string)
    requires ValidRun(eng, r) && 0 < |r.events| && Stores(r, |r.events| - 1, key)
    ensures ExecutesAgain(eng, r, key) <==> exists p :: PendingUnder(r.worlds[|r.events|], p, key)
  {
    hide PendingUnder;
    hide AgainAt;
    hide Apply;
    hide Stores;
    if ExecutesAgain(eng, r, key) {
      var r': Run<B>, m: nat :| AgainAt(eng, r', r, m, key);
      var p := LaterFinishWasPending(eng, r', r, m, key);
    }
    if p :| PendingUnder(r.worlds[|r.events|], p, key) {
      var r', m := PendingCanFinish(eng, r, key, p);
    }
  }

  lemma LaterFinishWasPending<B>(eng: Engine<B>, r': Run<B>, r: Run<B>, m: nat, key: string) returns (p: nat)
    requires AgainAt(eng, r', r, m, key) && Stores(r, |r.events| - 1, key)
    ensures PendingUnder(r.worlds[|r.events|], p, key)
  {
    hide RedisKey;
    hide HashOf;
    hide ValidRun;
    var i := |r.events| - 1;
    assert r'.worlds[i] == r.worlds[i] && r'.events[i] == r.events[i] && r'.worlds[i + 1] == r.worlds[i + 1];
    FinishIsOfPending(eng, r', i, m, key);
    p := r'.events[m].pid;
  }

  /** Two overlapping requests with one key both execute: the backend goes through both
      executions, although the first of them has no error. */
  lemma OverlapExecutesTwice<B>(eng: Engine<B>, backend: B, req: Request) returns (r: Run<B>)
    requires Keyed(req)
    requires Cached(req, eng.exec(backend, req).1) && Cached(req, eng.exec(eng.exec(backend, req).0, req).1)
    ensures ValidRun(eng, r)
    ensures r.events == [Begin(0, req, 0), Begin(1, req, 0), Execute(0, 0), Finish(0, 0), Execute(1, 0), Finish(1, 0)]
    ensures Stores(r, 3, RedisKey(req)) && Stores(r, 5, RedisKey(req))
    ensures r.worlds[0].st.backend == backend && r.worlds[6].st.backend == eng.exec(eng.exec(backend, req).0, req).0
  {
    hide RedisKey;
    hide HashOf;
    var w0 := World(State(backend, map[]), map[]);
    var w1 := Apply(eng, w0, Begin(0, req, 0));
    var w2 := Apply(eng, w1, Begin(1, req, 0));
    var w3 := Apply(eng, w2, Execute(0, 0));
    var w4 := Apply(eng, w3, Finish(0, 0));
    var w5 := Apply(eng, w4, Execute(1, 0));
    var w6 := Apply(eng, w5, Finish(1, 0));
    r := Run([w0, w1, w2, w3, w4, w5, w6],
             [Begin(0, req, 0), Begin(1, req, 0), Execute(0, 0), Finish(0, 0), Execute(1, 0), Finish(1, 0)]);
  }
}
