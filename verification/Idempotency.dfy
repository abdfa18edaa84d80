/** The idempotency store and the schema extension that answers retries from it. */
module Idempotency {
  import opened Wrappers
  import Keys

  /** json.dumps of the variables, with sorted keys. */
  type Json = string

  /** `document` is the query text. It decides what is executed, and is not part of
      the request hash. */
  datatype Request = Request(operation: Option<string>, key: Option<string>, variables: Json, document: string)

  datatype Answer = Answer(data: Option<Json>, errors: seq<string>)

  const CONFLICT := Answer(None, ["IDEMPOTENCY_CONFLICT"])

  datatype Record = Record(hash: string, response: Json, expires: int)

  type Records = map<string, Record>

  /** 24 hours. */
  const TTL := 86400

  predicate Idempotent(operation: Option<string>) {
    operation in {Some("login"), Some("requestPasswordReset")}
  }

  predicate Keyed(req: Request) {
    Idempotent(req.operation) && req.key.Some? && req.key.value != ""
  }

  function RedisKey(req: Request): string
    requires Keyed(req)
  {
    Keys.Text(Keys.IdempotencyKey(req.operation.value, req.key.value))
  }

  function Look(records: Records, key: string, now: int): Option<Record> {
    if key in records && now < records[key].expires then Some(records[key]) else None
  }

  /** How a request was answered. `Stored` is an error-free execution. */
  datatype Kind = Bypassed | Hit | Conflict | Stored | Failed

  datatype State<B> = State(backend: B, records: Records)

  /** The library's part: executing a request, and SHA-256. */
  datatype Engine<!B> = Engine(exec: (B, Request) -> (B, Answer), sha: string -> string)

  function HashOf<B>(eng: Engine<B>, req: Request): string
    requires Keyed(req)
  {
    eng.sha(req.operation.value + req.variables)
  }

  function Serve<B>(eng: Engine<B>, st: State<B>, req: Request, now: int): (State<B>, Answer, Kind) {
    if !Keyed(req) then
      var (backend, answer) := eng.exec(st.backend, req);
      (State(backend, st.records), answer, Bypassed)
    else
      match Look(st.records, RedisKey(req), now)
      case Some(record) =>
        if record.hash == HashOf(eng, req) then (st, Answer(Some(record.response), []), Hit)
        else (st, CONFLICT, Conflict)
      case None =>
        var (backend, answer) := eng.exec(st.backend, req);
        if answer.errors == [] && answer.data.Some? then
          var record := Record(HashOf(eng, req), answer.data.value, now + TTL);
          (State(backend, st.records[RedisKey(req) := record]), answer, Stored)
        else (State(backend, st.records), answer, Failed)
  }

  // ------------------------------------------------------------------------
  // The classes
  // ------------------------------------------------------------------------

  class IdempotencyStore {
    var records: Records
    var now: int

    constructor (now: int)
      ensures records == map[] && this.now == now
    {
      records := map[];
      this.now := now;
    }

    method Get(key: string) returns (record: Option<Record>)
      ensures record == Look(records, key, now)
    {
      record := if key in records && now < records[key].expires then Some(records[key]) else None;
    }

    method Set(key: string, hash: string, response: Json, ttl: int := TTL)
      requires 0 < ttl
      modifies this`records
      ensures records == old(records)[key := Record(hash, response, now + ttl)]
    {
      records := records[key := Record(hash, response, now + ttl)];
    }
  }

  class IdempotencyExtension<B> {
    const eng: Engine<B>
    const store: IdempotencyStore
    var backend: B

    constructor (eng: Engine<B>, store: IdempotencyStore, backend: B)
      ensures this.store == store
    {
      this.eng, this.store, this.backend := eng, store, backend;
    }

    /** on_execute, around the execution of the request. */
    method OnExecute(req: Request) returns (result: Answer, ghost kind: Kind)
      modifies this`backend, store`records
      ensures
        (State(backend, store.records), result, kind) ==
        Serve(eng, State(old(backend), old(store.records)), req, store.now)
      ensures
        kind != Bypassed <==>
        req.operation in {Some("login"), Some("requestPasswordReset")} && req.key.Some? && req.key.value != ""
      ensures
        kind == Stored ==>
          && (backend, result) == eng.exec(old(backend), req) && result.errors == [] && result.data.Some?
          && store.records == old(store.records)[
               RedisKey(req) := Record(HashOf(eng, req), result.data.value, store.now + 86400)]
      ensures kind in {Hit, Conflict} ==> backend == old(backend) && store.records == old(store.records)
    {
      if !Keyed(req) {
        var (b, answer) := eng.exec(backend, req);
        backend := b;
        return answer, Bypassed;
      }
      var hash := HashOf(eng, req);
      var cached := store.Get(RedisKey(req));
      if cached.Some? {
        if cached.value.hash == hash {
          return Answer(Some(cached.value.response), []), Hit;
        }
        return CONFLICT, Conflict;
      }
      var (b, answer) := eng.exec(backend, req);
      backend := b;
      result, kind := answer, Failed;
      if result.errors == [] && result.data.Some? {
        store.Set(RedisKey(req), hash, result.data.value);
        kind := Stored;
      }
    }
  }
}
