/** Runs of requests that do not overlap, each at its time. */
module IdempotencyRuns {
  import opened Wrappers
  import opened Idempotency
  import Keys
  import RateRuns

  datatype Call = Call(req: Request, at: int)

  ghost predicate InOrder(calls: seq<Call>, from: int) {
    && (forall i | 0 <= i < |calls| :: from <= calls[i].at)
    && (forall i, j | 0 <= i < j < |calls| :: calls[i].at <= calls[j].at)
  }

  /** The calls after the first one are in order, too. */
  lemma RestInOrder(calls: seq<Call>, from: int)
    requires InOrder(calls, from) && calls != []
    ensures from <= calls[0].at && InOrder(calls[1..], calls[0].at) && InOrder(calls[1..], from)
  {
    var rest := calls[1..];
    forall i, j | 0 <= i < j < |rest| ensures rest[i].at <= rest[j].at {
      assert rest[i] == calls[i + 1] && rest[j] == calls[j + 1];
    }
    forall i | 0 <= i < |rest| ensures calls[0].at <= rest[i].at { assert rest[i] == calls[i + 1]; }
  }

  function Next<B>(eng: Engine<B>, st: State<B>, call: Call): State<B> {
    Serve(eng, st, call.req, call.at).0
  }

  function KindOf<B>(eng: Engine<B>, st: State<B>, call: Call): Kind {
    Serve(eng, st, call.req, call.at).2
  }

  function AnswerTo<B>(eng: Engine<B>, st: State<B>, call: Call): Answer {
    Serve(eng, st, call.req, call.at).1
  }

  function Final<B>(eng: Engine<B>, st: State<B>, calls: seq<Call>): State<B>
    decreases |calls|
  {
    if calls == [] then st else Final(eng, Next(eng, st, calls[0]), calls[1..])
  }

  function Answers<B>(eng: Engine<B>, st: State<B>, calls: seq<Call>): seq<Answer>
    decreases |calls|
  {
    if calls == [] then [] else [AnswerTo(eng, st, calls[0])] + Answers(eng, Next(eng, st, calls[0]), calls[1..])
  }

  // ------------------------------------------------------------------------
  // Retries are invisible
  // ------------------------------------------------------------------------

  /** The elements whose mark is false. */
  function Unmarked<T>(xs: seq<T>, marks: seq<bool>): seq<T>
    requires |marks| == |xs|
  {
    if xs == [] then []
    else (if marks[0] then [] else [xs[0]]) + Unmarked(xs[1..], marks[1..])
  }

  /** Every marked call is answered from the store. */
  predicate MarksHits<B>(eng: Engine<B>, st: State<B>, calls: seq<Call>, marks: seq<bool>)
    requires |marks| == |calls|
    decreases |calls|
  {
    calls == [] ||
    ((marks[0] ==> KindOf(eng, st, calls[0]).Hit?) && MarksHits(eng, Next(eng, st, calls[0]), calls[1..], marks[1..]))
  }

  /** Deleting any of the calls that were answered from the store leaves the backend,
      the store and every other answer as they were. */
  lemma {:induction false} RetriesAreInvisible<B>(eng: Engine<B>, st: State<B>, calls: seq<Call>, marks: seq<bool>)
    requires |marks| == |calls| && MarksHits(eng, st, calls, marks)
    ensures |Answers(eng, st, calls)| == |calls|
    ensures Final(eng, st, Unmarked(calls, marks)) == Final(eng, st, calls)
    ensures Answers(eng, st, Unmarked(calls, marks)) == Unmarked(Answers(eng, st, calls), marks)
    decreases |calls|
  {
    if calls != [] {
      var next := Next(eng, st, calls[0]);
      RetriesAreInvisible(eng, next, calls[1..], marks[1..]);
      assert Answers(eng, st, calls)[1..] == Answers(eng, next, calls[1..]);
      var rest := Unmarked(calls[1..], marks[1..]);
      if marks[0] {
        assert next == st;
        assert Unmarked(calls, marks) == rest;
        assert Unmarked(Answers(eng, st, calls), marks) == Unmarked(Answers(eng, next, calls[1..]), marks[1..]);
      } else {
        assert Unmarked(calls, marks) == [calls[0]] + rest;
        assert ([calls[0]] + rest)[1..] == rest;
      }
    }
  }

  // ------------------------------------------------------------------------
  // What a retry is answered
  // ------------------------------------------------------------------------

  /** A live record is not replaced. */
  lemma {:induction false} RecordStays<B>(eng: Engine<B>, st: State<B>, calls: seq<Call>, from: int, key: string)
    requires InOrder(calls, from) && key in st.records
    requires forall i | 0 <= i < |calls| :: calls[i].at < st.records[key].expires
    ensures key in Final(eng, st, calls).records && Final(eng, st, calls).records[key] == st.records[key]
    decreases |calls|
  {
    hide InOrder;
    hide RedisKey;
    if calls != [] {
      var next := Next(eng, st, calls[0]);
      assert key in next.records && next.records[key] == st.records[key];
      RestInOrder(calls, from);
      RecordStays(eng, next, calls[1..], calls[0].at, key);
    }
  }

  ghost predicate Collisionless<B>(eng: Engine<B>) {
    forall a, b | eng.sha(a) == eng.sha(b) :: a == b
  }

  /** The same operation with the same idempotency key. */
  predicate SameKey(a: Request, b: Request) {
    Keyed(a) && Keyed(b) && a.operation == b.operation && a.key == b.key
  }

  lemma OperationHasNoColon(req: Request)
    requires Keyed(req)
    ensures Keys.ColonFree(req.operation.value)
  {
  }

  lemma SameKeyIff(a: Request, b: Request)
    requires Keyed(a) && Keyed(b)
    ensures SameKey(a, b) <==> RedisKey(a) == RedisKey(b)
  {
    var ka := Keys.IdempotencyKey(a.operation.value, a.key.value);
    var kb := Keys.IdempotencyKey(b.operation.value, b.key.value);
    hide Keys.Text;
    hide Idempotent;
    OperationHasNoColon(a);
    OperationHasNoColon(b);
    Keys.KeysAreInjective(ka, kb);
  }

  lemma SameHashIff<B>(eng: Engine<B>, a: Request, b: Request)
    requires Collisionless(eng) && SameKey(a, b)
    ensures HashOf(eng, a) == HashOf(eng, b) <==> a.variables == b.variables
  {
    var op := a.operation.value;
    if op + a.variables == op + b.variables {
      assert a.variables == (op + a.variables)[|op|..];
    }
  }

  lemma BetweenInOrder(first: Call, between: seq<Call>, retry: Call)
    requires InOrder([first] + between + [retry], first.at)
    ensures InOrder(between, first.at) && first.at <= retry.at
    ensures forall i | 0 <= i < |between| :: between[i].at <= retry.at
  {
    var all := [first] + between + [retry];
    assert retry == all[|between| + 1];
    forall i | 0 <= i < |between| ensures first.at <= between[i].at <= retry.at { assert between[i] == all[i + 1]; }
    forall i, j | 0 <= i < j < |between| ensures between[i].at <= between[j].at {
      assert between[i] == all[i + 1] && between[j] == all[j + 1];
    }
  }

  /** A call after an error-free execution under the same operation and key, within
      24 hours and whatever comes between: it is answered with the first response and
      executes nothing if its variables are the same, and gets the conflict if and
      only if they differ. The rest of the body makes no difference. */
  lemma RetryIsAnswered<B>(eng: Engine<B>, st: State<B>, first: Call, between: seq<Call>, retry: Call)
    requires Collisionless(eng) && KindOf(eng, st, first).Stored? && SameKey(first.req, retry.req)
    requires InOrder([first] + between + [retry], first.at) && retry.at < first.at + 86400
    ensures
      var st' := Final(eng, Next(eng, st, first), between);
      && Next(eng, st', retry) == st'
      && (KindOf(eng, st', retry).Conflict? <==> retry.req.variables != first.req.variables)
      && AnswerTo(eng, st', retry) ==
         if retry.req.variables == first.req.variables then AnswerTo(eng, st, first) else CONFLICT
  {
    hide RedisKey;
    hide HashOf;
    hide InOrder;
    hide Collisionless;
    BetweenInOrder(first, between, retry);
    RecordStays(eng, Next(eng, st, first), between, first.at, RedisKey(first.req));
    SameKeyIff(first.req, retry.req);
    SameHashIff(eng, first.req, retry.req);
  }

  /** The backend executes the request without error. */
  predicate Succeeds<B>(eng: Engine<B>, backend: B, req: Request) {
    var answer := eng.exec(backend, req).1;
    answer.errors == [] && answer.data.Some?
  }

  /** No record is live under the request's operation and key. */
  predicate NoRecord<B>(st: State<B>, operation: string, value: string, now: int) {
    var key := "idempotency:" + (operation + (":" + value));
    key !in st.records || st.records[key].expires <= now
  }

  lemma KeyOfRequest(req: Request)
    requires Keyed(req)
    ensures RedisKey(req) == "idempotency:" + (req.operation.value + (":" + req.key.value))
  {
    Keys.OtherKeyTexts(req.operation.value, req.key.value, "", "");
  }

  /** The first call of a login or a reset request under a key executes. */
  lemma FirstCallExecutes<B>(eng: Engine<B>, st: State<B>, first: Call, operation: string, value: string)
    requires operation == "login" || operation == "requestPasswordReset"
    requires first.req.operation == Some(operation) && first.req.key == Some(value) && value != ""
    requires NoRecord(st, operation, value, first.at)
    ensures Keyed(first.req)
    ensures Next(eng, st, first).backend == eng.exec(st.backend, first.req).0
    ensures AnswerTo(eng, st, first) == eng.exec(st.backend, first.req).1
    ensures KindOf(eng, st, first).Stored? <==> Succeeds(eng, st.backend, first.req)
    ensures !Succeeds(eng, st.backend, first.req) ==> Next(eng, st, first).records == st.records
  {
    KeyOfRequest(first.req);
    hide RedisKey;
    hide HashOf;
  }

  /** The promise, in full: a login or a reset request under a key for which there is no
      record, executed without error, is answered from the store for every repetition
      less than 86400 seconds later, whatever comes between: with its own response and
      without execution if the variables are the same, with the conflict otherwise. */
  lemma RetriesWithinADay<B>(eng: Engine<B>, st: State<B>, first: Call, between: seq<Call>, retry: Call,
                             operation: string, value: string)
    requires Collisionless(eng) && (operation == "login" || operation == "requestPasswordReset") && value != ""
    requires first.req.operation == retry.req.operation == Some(operation)
    requires first.req.key == retry.req.key == Some(value)
    requires NoRecord(st, operation, value, first.at) && Succeeds(eng, st.backend, first.req)
    requires InOrder([first] + between + [retry], first.at) && retry.at < first.at + 86400
    ensures
      var st' := Final(eng, Next(eng, st, first), between);
      && Next(eng, st', retry) == st'
      && AnswerTo(eng, st', retry) ==
         if retry.req.variables == first.req.variables then eng.exec(st.backend, first.req).1
         else Answer(None, ["IDEMPOTENCY_CONFLICT"])
  {
    FirstCallExecutes(eng, st, first, operation, value);
    hide Collisionless;
    hide InOrder;
    hide Serve;
    hide Keyed;
    assert Keyed(retry.req) by { SameOperationKeyed(first.req, retry.req); }
    RetryIsAnswered(eng, st, first, between, retry);
  }

  lemma SameOperationKeyed(a: Request, b: Request)
    requires Keyed(a) && a.operation == b.operation && a.key == b.key
    ensures Keyed(b)
  {
  }

  /** After 86400 seconds the repetition executes again. */
  lemma RetryAfterADayExecutes<B>(eng: Engine<B>, st: State<B>, first: Call, retry: Call, operation: string,
                                  value: string)
    requires (operation == "login" || operation == "requestPasswordReset") && value != ""
    requires first.req.operation == retry.req.operation == Some(operation)
    requires first.req.key == retry.req.key == Some(value)
    requires NoRecord(st, operation, value, first.at) && first.at + 86400 <= retry.at
    ensures
      var st1 := Next(eng, st, first);
      && Next(eng, st1, retry).backend == eng.exec(st1.backend, retry.req).0
      && AnswerTo(eng, st1, retry) == eng.exec(st1.backend, retry.req).1
  {
    KeyOfRequest(first.req);
    FirstCallExecutes(eng, st, first, operation, value);
    assert NoRecord(Next(eng, st, first), operation, value, retry.at);
    FirstCallExecutes(eng, Next(eng, st, first), retry, operation, value);
  }

  /** Every other request executes, and leaves the records alone. */
  lemma OthersBypass<B>(eng: Engine<B>, st: State<B>, call: Call)
    requires call.req.operation !in {Some("login"), Some("requestPasswordReset")} || call.req.key in {None, Some("")}
    ensures AnswerTo(eng, st, call) == eng.exec(st.backend, call.req).1
    ensures Next(eng, st, call) == State(eng.exec(st.backend, call.req).0, st.records)
  {
  }

  /** "A different body with the same key results in a conflict" is not kept when the
      bodies differ only in the query text, as they do when the input is written into
      the document: the second caller gets the response of the first. */
  lemma OtherDocumentGetsSameAnswer<B>(eng: Engine<B>, st: State<B>, first: Call, document: string, at: int)
    requires Collisionless(eng) && KindOf(eng, st, first).Stored?
    requires document != first.req.document && first.at <= at < first.at + 86400
    ensures
      var other := Call(first.req.(document := document), at);
      && other.req != first.req
      && KindOf(eng, Next(eng, st, first), other).Hit?
      && AnswerTo(eng, Next(eng, st, first), other) == AnswerTo(eng, st, first)
  {
    var other := Call(first.req.(document := document), at);
    RetryIsAnswered(eng, st, first, [], other);
  }

  // ------------------------------------------------------------------------
  // How often one key executes
  // ------------------------------------------------------------------------

  predicate StoresUnder(req: Request, key: string) {
    Keyed(req) && RedisKey(req) == key
  }

  /** The error-free executions under `key` from `lo` up to `hi`. */
  function ExecutionsIn<B>(eng: Engine<B>, st: State<B>, calls: seq<Call>, key: string, lo: int, hi: int): nat
    decreases |calls|
  {
    if calls == [] then 0
    else
      (if KindOf(eng, st, calls[0]).Stored? && StoresUnder(calls[0].req, key) && lo <= calls[0].at < hi then 1 else 0)
      + ExecutionsIn(eng, Next(eng, st, calls[0]), calls[1..], key, lo, hi)
  }

  /** How many more there can be from `now` until `hi`. */
  function Budget<B>(st: State<B>, key: string, now: int, hi: int): nat {
    if hi <= now then 0
    else
      match Look(st.records, key, now)
      case Some(record) => RateRuns.Windows(hi - record.expires, TTL)
      case None => RateRuns.Windows(hi - now, TTL)
  }

  lemma BudgetShrinks<B>(st: State<B>, key: string, now: int, later: int, hi: int)
    requires now <= later
    ensures Budget(st, key, later, hi) <= Budget(st, key, now, hi)
  {
    if later < hi {
      match Look(st.records, key, now)
      case None => RateRuns.WindowsGrow(hi - later, hi - now, TTL);
      case Some(record) =>
        if record.expires <= later { RateRuns.WindowsGrow(hi - later, hi - record.expires, TTL); }
    }
  }

  lemma BudgetIsNat<B>(st: State<B>, key: string, now: int, hi: int)
    ensures 0 <= Budget(st, key, now, hi)
  {
  }

  lemma CallPays<B>(eng: Engine<B>, st: State<B>, call: Call, key: string, hi: int)
    ensures
      (if KindOf(eng, st, call).Stored? && StoresUnder(call.req, key) && call.at < hi then 1 else 0)
      + Budget(Next(eng, st, call), key, call.at, hi)
      <= Budget(st, key, call.at, hi)
  {
  }

  lemma {:induction false} ExecutionsPay<B>(eng: Engine<B>, st: State<B>, calls: seq<Call>, key: string, now: int,
                                            lo: int, hi: int)
    requires InOrder(calls, now)
    ensures ExecutionsIn(eng, st, calls, key, lo, hi) <= Budget(st, key, now, hi)
    decreases |calls|
  {
    hide Serve;
    hide Budget;
    hide InOrder;
    hide RedisKey;
    if calls == [] {
      BudgetIsNat(st, key, now, hi);
    } else {
      var at := calls[0].at;
      RestInOrder(calls, now);
      BudgetShrinks(st, key, now, at, hi);
      CallPays(eng, st, calls[0], key, hi);
      ExecutionsPay(eng, Next(eng, st, calls[0]), calls[1..], key, at, lo, hi);
    }
  }

  lemma InOrderFrom(calls: seq<Call>, from: int, lo: int)
    requires InOrder(calls, from) && calls != [] && lo <= calls[0].at
    ensures InOrder(calls, lo)
  {
  }

  /** Error-free executions under one operation and key: at most n in any n * 24
      hours, so any two are at least 24 hours apart. */
  lemma {:induction false} ExecutionsAreBounded<B>(eng: Engine<B>, st: State<B>, calls: seq<Call>, key: string,
                                                   from: int, lo: int, n: nat)
    requires InOrder(calls, from)
    ensures ExecutionsIn(eng, st, calls, key, lo, lo + n * 86400) <= n
    decreases |calls|
  {
    hide Serve;
    hide InOrder;
    hide RedisKey;
    var hi := lo + n * TTL;
    if calls == [] {
    } else if calls[0].at < lo {
      RestInOrder(calls, from);
      ExecutionsAreBounded(eng, Next(eng, st, calls[0]), calls[1..], key, from, lo, n);
    } else {
      InOrderFrom(calls, from, lo);
      ExecutionsPay(eng, st, calls, key, lo, lo, hi);
      RateRuns.WindowsOf(n, TTL);
      match Look(st.records, key, lo)
      case None =>
      case Some(record) => RateRuns.WindowsGrow(hi - record.expires, n * TTL, TTL);
    }
  }
}
