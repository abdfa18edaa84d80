/** What the middleware forwards over a run of requests whose Redis round trips
    interleave in any way: the SET NX and the INCR of each check are steps of their
    own. */
module MiddlewareRuns {
  import opened Wrappers
  import opened RateLimiting
  import opened RateRuns
  import opened Keys
  import opened Middleware
  import Emails

  /** Where a request is with its next check: nothing sent, the SET NX sent, or the INCR
      sent and the limit exceeded. */
  datatype Stage = ToAsk | Asked | Over

  /** A request in the loop over its limits: how many it has passed or skipped. */
  datatype Checking = Checking(req: Request, done: nat, stage: Stage)

  datatype Arrived = Arrived(req: Request, at: int)

  /** Every request ever seen, and when it was forwarded or what it was told. */
  datatype World = World(
    counters: Counters,
    inFlight: map<nat, Checking>,
    log: map<nat, Arrived>,
    forwarded: map<nat, int>,
    rejected: map<nat, int>)

  datatype Event =
    | Arrive(pid: nat, req: Request, at: int)
    | Skip(pid: nat, at: int)       // an email limit, and no email
    | SendSetNx(pid: nat, at: int)
    | SendIncr(pid: nat, at: int)
    | SendTtl(pid: nat, at: int)
    | Forward(pid: nat, at: int)
    | Abort(pid: nat, at: int)

  /** The request has a limit left. */
  predicate AtLimit(c: Checking) {
    c.done < |Rules(c.req.operation)|
  }

  function RuleAt(c: Checking): Rule
    requires AtLimit(c)
  {
    Rules(c.req.operation)[c.done]
  }

  predicate Applies(c: Checking) {
    AtLimit(c) && Subject(c.req, RuleAt(c).dimension).Some?
  }

  function KeyAt(c: Checking): string
    requires Applies(c)
  {
    RateKeyOf(c.req.operation, RuleAt(c).dimension, Subject(c.req, RuleAt(c).dimension).value)
  }

  predicate Enabled(w: World, e: Event) {
    match e
    case Arrive(p, _, _) => p !in w.log && p !in w.inFlight
    case Skip(p, _) => p in w.inFlight && AtLimit(w.inFlight[p]) && !Applies(w.inFlight[p])
    case SendSetNx(p, _) => p in w.inFlight && Applies(w.inFlight[p]) && w.inFlight[p].stage == ToAsk
    case SendIncr(p, _) => p in w.inFlight && Applies(w.inFlight[p]) && w.inFlight[p].stage == Asked
    case SendTtl(p, _) => p in w.inFlight && Applies(w.inFlight[p]) && w.inFlight[p].stage == Over
    case Forward(p, _) => p in w.inFlight && !AtLimit(w.inFlight[p])
    case Abort(p, _) => p in w.inFlight
  }

  /** The check whose INCR is sent at `at` is accepted. */
  predicate AcceptedAt(w: World, c: Checking, at: int)
    requires Applies(c)
  {
    Incr(Look(w.counters, KeyAt(c), at)).count <= RuleAt(c).limit
  }

  /** The Retry-After of a request that is over its limit. */
  function RetryAfter(w: World, c: Checking, at: int): int
    requires Applies(c)
  {
    var ttl := match Look(w.counters, KeyAt(c), at) case None => -2 case Some(counter) => TtlOf(counter, at);
    if ttl > 0 then ttl else RuleAt(c).window
  }

  function Apply(w: World, e: Event): World
    requires Enabled(w, e)
  {
    match e
    case Arrive(p, req, at) =>
      w.(inFlight := w.inFlight[p := Checking(req, 0, ToAsk)], log := w.log[p := Arrived(req, at)])
    case Skip(p, _) => w.(inFlight := w.inFlight[p := w.inFlight[p].(done := w.inFlight[p].done + 1)])
    case SendSetNx(p, at) =>
      var c := w.inFlight[p];
      w.(counters := w.counters[KeyAt(c) := SetNx(Look(w.counters, KeyAt(c), at), at, RuleAt(c).window)],
         inFlight := w.inFlight[p := c.(stage := Asked)])
    case SendIncr(p, at) =>
      var c := w.inFlight[p];
      var next := if AcceptedAt(w, c, at) then Checking(c.req, c.done + 1, ToAsk) else c.(stage := Over);
      w.(counters := w.counters[KeyAt(c) := Incr(Look(w.counters, KeyAt(c), at))], inFlight := w.inFlight[p := next])
    case SendTtl(p, at) =>
      w.(inFlight := w.inFlight - {p}, rejected := w.rejected[p := RetryAfter(w, w.inFlight[p], at)])
    case Forward(p, at) => w.(inFlight := w.inFlight - {p}, forwarded := w.forwarded[p := at])
    case Abort(p, _) => w.(inFlight := w.inFlight - {p})
  }

  // ------------------------------------------------------------------------
  // An uninterrupted request
  // ------------------------------------------------------------------------

  predicate Ready(w: World, p: nat) {
    && p in w.inFlight && w.inFlight[p].stage == ToAsk
    && w.inFlight[p].done <= |Rules(w.inFlight[p].req.operation)|
  }

  /** All steps of request `p`, at one moment. */
  function Alone(w: World, p: nat, at: int): World
    requires Ready(w, p)
    decreases |Rules(w.inFlight[p].req.operation)| - w.inFlight[p].done
  {
    var c := w.inFlight[p];
    if !AtLimit(c) then Apply(w, Forward(p, at))
    else if !Applies(c) then Alone(Apply(w, Skip(p, at)), p, at)
    else
      var w' := Apply(Apply(w, SendSetNx(p, at)), SendIncr(p, at));
      if w'.inFlight[p].stage == ToAsk then Alone(w', p, at) else Apply(w', SendTtl(p, at))
  }

  /** A request that nothing interrupts is the middleware's loop: the counters, whether
      it is forwarded, and what Retry-After it is told otherwise. */
  lemma {:induction false} AloneIsDispatch(w: World, p: nat, at: int)
    requires Ready(w, p) && p !in w.forwarded && p !in w.rejected
    ensures
      var c := w.inFlight[p];
      var (counters, answer) := Dispatch(w.counters, Rules(c.req.operation)[c.done..], c.req, at);
      var w' := Alone(w, p, at);
      && w'.counters == counters
      && (p in w'.forwarded <==> answer.Forwarded?)
      && (p in w'.rejected <==> answer.TooMany?) && (answer.TooMany? ==> w'.rejected[p] == answer.retryAfter)
    decreases |Rules(w.inFlight[p].req.operation)| - w.inFlight[p].done
  {
    hide Rules;
    hide RateKeyOf;
    var c := w.inFlight[p];
    if AtLimit(c) {
      var rules := Rules(c.req.operation);
      assert rules[c.done..][1..] == rules[c.done + 1..];
      if !Applies(c) {
        AloneIsDispatch(Apply(w, Skip(p, at)), p, at);
      } else {
        SameCheck(w, p, at);
        hide CheckOnce;
        var w' := Apply(Apply(w, SendSetNx(p, at)), SendIncr(p, at));
        if w'.inFlight[p].stage == ToAsk { AloneIsDispatch(w', p, at); }
      }
    }
  }

  /** SET NX, INCR and TTL, one after the other, are one check. */
  lemma SameCheck(w: World, p: nat, at: int)
    requires p in w.inFlight && Applies(w.inFlight[p]) && w.inFlight[p].stage == ToAsk
    ensures
      var c := w.inFlight[p];
      var (counter, verdict) := CheckOnce(Look(w.counters, KeyAt(c), at), at, RuleAt(c).limit, RuleAt(c).window);
      var w' := Apply(Apply(w, SendSetNx(p, at)), SendIncr(p, at));
      && w'.counters == w.counters[KeyAt(c) := counter] && w'.forwarded == w.forwarded && w'.rejected == w.rejected
      && w'.inFlight[p] == (if verdict.Accepted? then Checking(c.req, c.done + 1, ToAsk) else c.(stage := Over))
      && (verdict.Exceeded? ==> RetryAfter(w', w'.inFlight[p], at) == verdict.retryAfter)
  {
    RulesHaveWindows(w.inFlight[p].req.operation);
    hide Rules;
    hide RateKeyOf;
  }

  // ------------------------------------------------------------------------
  // Runs
  // ------------------------------------------------------------------------

  datatype Run = Run(worlds: seq<World>, events: seq<Event>)

  /** From any counters. */
  ghost predicate ValidRun(r: Run) {
    && |r.worlds| == |r.events| + 1
    && r.worlds[0] == World(r.worlds[0].counters, map[], map[], map[], map[])
    && (forall i | 0 <= i < |r.events| ::
        Enabled(r.worlds[i], r.events[i]) && r.worlds[i + 1] == Apply(r.worlds[i], r.events[i]))
    && (forall i, j | 0 <= i < j < |r.events| :: r.events[i].at <= r.events[j].at)
  }

  /** The event passes a limit of `operation` and dimension `d`, under `key`. */
  predicate Passes(w: World, e: Event, operation: string, d: Dimension, key: string) {
    && e.SendIncr? && Enabled(w, e)
    && var c := w.inFlight[e.pid];
    c.req.operation == operation && RuleAt(c).dimension == d && KeyAt(c) == key && AcceptedAt(w, c, e.at)
  }

  /** The requests that pass the limit under `key` from `lo` up to `hi`, of the events
      from `i` on. */
  function Passers(r: Run, i: nat, operation: string, d: Dimension, key: string, lo: int, hi: int): set<nat>
    requires i <= |r.events| < |r.worlds|
    decreases |r.events| - i
  {
    if i == |r.events| then {}
    else
      (if Passes(r.worlds[i], r.events[i], operation, d, key) && lo <= r.events[i].at < hi then {r.events[i].pid}
       else {})
      + Passers(r, i + 1, operation, d, key, lo, hi)
  }

  function Slot(counters: Counters, key: string): Option<Counter> {
    if key in counters then Some(counters[key]) else None
  }

  /** An event pays for the pass that it makes under `key`, and no other event changes
      what can still be passed under it. */
  lemma EventPaysBudget(w: World, e: Event, operation: string, rule: Rule, key: string, hi: int)
    requires Enabled(w, e) && rule in Rules(operation) && KeyOf(operation, rule, key) && 0 < rule.window
    ensures
      (if Passes(w, e, operation, rule.dimension, key) && e.at < hi then 1 else 0)
      + Budget(Slot(Apply(w, e).counters, key), e.at, rule.limit, rule.window, hi)
      <= Budget(Slot(w.counters, key), e.at, rule.limit, rule.window, hi)
  {
    hide Budget;
    hide Rules;
    hide RateKeyOf;
    if e.SendSetNx? || e.SendIncr? {
      var c := w.inFlight[e.pid];
      if KeyAt(c) == key {
        RuleOfKey(operation, rule, key, c.req, RuleAt(c));
        var trip := if e.SendSetNx? then SetNxAt(0, e.at) else IncrAt(0, e.at);
        assert Live(Slot(w.counters, key), e.at) == Look(w.counters, key, e.at);
        TripPaysBudget(Slot(w.counters, key), trip, rule.limit, rule.window, hi);
      }
    }
  }

  lemma {:induction false} RunPaysBudget(r: Run, i: nat, now: int, operation: string, rule: Rule, key: string,
                                         lo: int, hi: int)
    requires ValidRun(r) && i <= |r.events| && (i < |r.events| ==> now <= r.events[i].at)
    requires rule in Rules(operation) && KeyOf(operation, rule, key) && 0 < rule.window
    ensures
      |Passers(r, i, operation, rule.dimension, key, lo, hi)|
      <= Budget(Slot(r.worlds[i].counters, key), now, rule.limit, rule.window, hi)
    decreases |r.events| - i
  {
    hide Budget;
    hide Rules;
    hide KeyOf;
    hide Apply;
    hide Passes;
    BudgetIsNat(Slot(r.worlds[i].counters, key), now, rule.limit, rule.window, hi);
    if i < |r.events| {
      BudgetShrinks(Slot(r.worlds[i].counters, key), now, r.events[i].at, rule.limit, rule.window, hi);
      EventPaysBudget(r.worlds[i], r.events[i], operation, rule, key, hi);
      RunPaysBudget(r, i + 1, r.events[i].at, operation, rule, key, lo, hi);
    }
  }

  /** In every run, for every operation and each of its limits: of the requests that
      the limit counts under one key, at most (n + 1) * limit pass it in any n
      windows, however their round trips interleave with those of other requests. */
  lemma {:induction false} PassersAreBounded(r: Run, i: nat, operation: string, rule: Rule, key: string, lo: int,
                                             n: nat)
    requires ValidRun(r) && i <= |r.events| && rule in Rules(operation) && KeyOf(operation, rule, key)
    ensures |Passers(r, i, operation, rule.dimension, key, lo, lo + n * rule.window)| <= (n + 1) * rule.limit
    decreases |r.events| - i
  {
    RulesHaveWindows(operation);
    hide Rules;
    hide KeyOf;
    hide Apply;
    hide Passes;
    if i == |r.events| {
      assert 0 <= (n + 1) * rule.limit;
    } else if r.events[i].at < lo {
      PassersAreBounded(r, i + 1, operation, rule, key, lo, n);
    } else {
      RunPaysBudget(r, i, lo, operation, rule, key, lo, lo + n * rule.window);
      SlotBudget(Slot(r.worlds[i].counters, key), lo, rule.limit, rule.window, n);
    }
  }

  lemma SlotBudget(slot: Option<Counter>, now: int, limit: nat, window: int, n: nat)
    requires 0 < window
    ensures Budget(slot, now, limit, window, now + n * window) <= (n + 1) * limit
  {
    assert Budget(slot, now, limit, window, now + n * window) ==
        Budget(Live(slot, now), now, limit, window, now + n * window);
    BudgetOf(Live(slot, now), now, limit, window, n);
  }

  // ------------------------------------------------------------------------
  // Forwarded requests
  // ------------------------------------------------------------------------

  /** Before event `k`, request `p` passed limit `j` of its operation. */
  ghost predicate Passed(r: Run, p: nat, req: Request, j: nat, k: nat)
    requires k <= |r.events| < |r.worlds|
  {
    exists m: nat | m < k ::
      && r.events[m].SendIncr? && r.events[m].pid == p && Enabled(r.worlds[m], r.events[m])
      && r.worlds[m].inFlight[p] == Checking(req, j, Asked)
          && AcceptedAt(r.worlds[m], r.worlds[m].inFlight[p], r.events[m].at)
  }

  predicate Counts(req: Request, j: nat) {
    j < |Rules(req.operation)| && Subject(req, Rules(req.operation)[j].dimension).Some?
  }

  /** A request in flight has passed each of the limits that are behind it. */
  lemma {:induction false} PassedSoFar(r: Run, p: nat, j: nat, k: nat)
    requires ValidRun(r) && k <= |r.events| && p in r.worlds[k].inFlight
    requires j < r.worlds[k].inFlight[p].done && Counts(r.worlds[k].inFlight[p].req, j)
    ensures Passed(r, p, r.worlds[k].inFlight[p].req, j, k)
    decreases k
  {
    hide Rules;
    var before, e := r.worlds[k - 1], r.events[k - 1];
    if p in before.inFlight && before.inFlight[p].req == r.worlds[k].inFlight[p].req && j < before.inFlight[p].done {
      PassedSoFar(r, p, j, k - 1);
    } else {
      assert e.SendIncr? && e.pid == p;
    }
  }

  lemma {:induction false} PasserAt(r: Run, i: nat, m: nat, operation: string, d: Dimension, key: string, lo: int,
                                    hi: int)
    requires ValidRun(r) && i <= m < |r.events|
    requires Passes(r.worlds[m], r.events[m], operation, d, key) && lo <= r.events[m].at < hi
    ensures r.events[m].pid in Passers(r, i, operation, d, key, lo, hi)
    decreases m - i
  {
    hide Passes;
    if i < m { PasserAt(r, i + 1, m, operation, d, key, lo, hi); }
  }

  /** A request in flight is in the log, since its arrival. */
  lemma {:induction false} LoggedBefore(r: Run, p: nat, k: nat)
    requires ValidRun(r) && k <= |r.events| && (p in r.worlds[k].inFlight || p in r.worlds[k].log)
    ensures p in r.worlds[k].log
    ensures p in r.worlds[k].inFlight ==> r.worlds[k].inFlight[p].req == r.worlds[k].log[p].req
    ensures k < |r.events| ==> r.worlds[k].log[p].at <= r.events[k].at
    decreases k
  {
    hide Rules;
    hide RateKeyOf;
    var before, e := r.worlds[k - 1], r.events[k - 1];
    if p in before.inFlight || p in before.log { LoggedBefore(r, p, k - 1); }
    assert k < |r.events| ==> e.at <= r.events[k].at;
  }

  lemma {:induction false} LogIsKept(r: Run, p: nat, m: nat, k: nat)
    requires ValidRun(r) && m <= k <= |r.events| && p in r.worlds[m].log
    ensures p in r.worlds[k].log && r.worlds[k].log[p] == r.worlds[m].log[p]
    decreases k
  {
    hide Rules;
    hide RateKeyOf;
    if m < k { LogIsKept(r, p, m, k - 1); }
  }

  lemma {:induction false} ForwardedAt(r: Run, p: nat, k: nat) returns (m: nat)
    requires ValidRun(r) && k <= |r.events| && p in r.worlds[k].forwarded
    ensures m < k && r.events[m] == Forward(p, r.worlds[k].forwarded[p]) && p in r.worlds[m].inFlight
    decreases k
  {
    hide Rules;
    hide RateKeyOf;
    var before, e := r.worlds[k - 1], r.events[k - 1];
    if e.Forward? && e.pid == p {
      m := k - 1;
    } else {
      m := ForwardedAt(r, p, k - 1);
    }
  }

  /** A request is forwarded only after it has passed every limit that counts it, at some
      moment between its arrival and then. */
  lemma ForwardedHasPassed(r: Run, p: nat, j: nat, lo: int, hi: int)
    requires ValidRun(r) && p in r.worlds[|r.events|].forwarded && p in r.worlds[|r.events|].log
    requires lo <= r.worlds[|r.events|].log[p].at && r.worlds[|r.events|].forwarded[p] < hi
    requires Counts(r.worlds[|r.events|].log[p].req, j)
    ensures
      var req := r.worlds[|r.events|].log[p].req;
      var d := Rules(req.operation)[j].dimension;
      p in Passers(r, 0, req.operation, d, RateKeyOf(req.operation, d, Subject(req, d).value), lo, hi)
  {
    hide Rules;
    hide RateKeyOf;
    var n := |r.events|;
    var req := r.worlds[n].log[p].req;
    var d := Rules(req.operation)[j].dimension;
    var k := ForwardedAt(r, p, n);
    LoggedBefore(r, p, k);
    LogIsKept(r, p, k, n);
    PassedSoFar(r, p, j, k);
    var m: nat :| m < k
      && r.events[m].SendIncr? && r.events[m].pid == p && Enabled(r.worlds[m], r.events[m])
      && r.worlds[m].inFlight[p] == Checking(req, j, Asked)
      && AcceptedAt(r.worlds[m], r.worlds[m].inFlight[p], r.events[m].at);
    LoggedBefore(r, p, m);
    LogIsKept(r, p, m, n);
    assert r.events[m].at <= r.events[k].at;
    PasserAt(r, 0, m, req.operation, d, RateKeyOf(req.operation, d, Subject(req, d).value), lo, hi);
  }

  /** The forwarded requests whose check under `key` was made from `lo` up to `hi`. */
  function ForwardedIn(r: Run, operation: string, d: Dimension, key: string, lo: int, hi: int): set<nat>
    requires |r.events| < |r.worlds|
  {
    r.worlds[|r.events|].forwarded.Keys * Passers(r, 0, operation, d, key, lo, hi)
  }

  lemma SubsetIsSmaller<T>(a: set<T>, b: set<T>)
    requires a <= b
    ensures |a| <= |b|
  {
    assert b == a + (b - a);
  }

  /** So in any n windows at most (n + 1) * limit requests are forwarded of those that
      a limit counts under one key, for all limits of all operations at once. */
  lemma ForwardedIsBounded(r: Run, operation: string, rule: Rule, key: string, lo: int, n: nat)
    requires ValidRun(r) && rule in Rules(operation) && KeyOf(operation, rule, key)
    ensures |ForwardedIn(r, operation, rule.dimension, key, lo, lo + n * rule.window)| <= (n + 1) * rule.limit
  {
    hide Rules;
    hide KeyOf;
    PassersAreBounded(r, 0, operation, rule, key, lo, n);
    var d, hi := rule.dimension, lo + n * rule.window;
    SubsetIsSmaller(ForwardedIn(r, operation, d, key, lo, hi), Passers(r, 0, operation, d, key, lo, hi));
  }

  /** Whoever is rejected is told to wait at least a second. */
  lemma {:induction false} RejectedMustWait(r: Run, p: nat, k: nat)
    requires ValidRun(r) && k <= |r.events| && p in r.worlds[k].rejected
    ensures 1 <= r.worlds[k].rejected[p]
    decreases k
  {
    hide Rules;
    hide RateKeyOf;
    var before, e := r.worlds[k - 1], r.events[k - 1];
    if p in before.rejected { RejectedMustWait(r, p, k - 1); }
    if e.SendTtl? { RulesHaveWindows(before.inFlight[e.pid].req.operation); }
  }

  lemma IpLimitOf(req: Request) returns (j: nat)
    requires req.operation in LIMITED
    ensures Counts(req, j) && Rules(req.operation)[j].dimension == Ip && Subject(req, Ip) == Some(req.ip)
  {
    j := if req.operation == "requestPasswordReset" then 1 else 0;
  }

  lemma EmailLimitOf(req: Request) returns (j: nat)
    requires req.operation in {"login", "requestPasswordReset"} && HasEmail(req)
    ensures Counts(req, j) && Rules(req.operation)[j].dimension == Email && Subject(req, Email) == Some(req.email.value)
  {
    j := if req.operation == "login" then 1 else 0;
  }

  /** Every forwarded request of the five operations has been counted under its IP, and
      a login or a reset request with an email also under that address. */
  lemma ForwardedIsCounted(r: Run, p: nat, lo: int, hi: int)
    requires ValidRun(r) && p in r.worlds[|r.events|].forwarded && p in r.worlds[|r.events|].log
    requires lo <= r.worlds[|r.events|].log[p].at && r.worlds[|r.events|].forwarded[p] < hi
    ensures
      var req := r.worlds[|r.events|].log[p].req;
      && (req.operation in {"login", "register", "requestPasswordReset", "resetPassword", "refreshToken"} ==>
            p in Passers(r, 0, req.operation, Ip, IpKey(req), lo, hi))
      && (req.operation in {"login", "requestPasswordReset"} && req.email.Some? && req.email.value != "" ==>
            p in Passers(r, 0, req.operation, Email, EmailKey(req), lo, hi))
  {
    var req := r.worlds[|r.events|].log[p].req;
    if req.operation in LIMITED {
      var j := IpLimitOf(req);
      ForwardedHasPassed(r, p, j, lo, hi);
    }
    if req.operation in {"login", "requestPasswordReset"} && HasEmail(req) {
      var j := EmailLimitOf(req);
      ForwardedHasPassed(r, p, j, lo, hi);
    }
    hide Rules;
    hide Passers;
  }

  // ------------------------------------------------------------------------
  // The published limits, over runs
  // ------------------------------------------------------------------------

  /** The requests of an operation from one IP that arrived from `lo` on and were
      forwarded before `hi`. */
  function ForwardedFromIp(r: Run, operation: string, ip: string, lo: int, hi: int): set<nat>
    requires |r.events| < |r.worlds|
  {
    var w := r.worlds[|r.events|];
    set p | p in w.forwarded && p in w.log && w.log[p].req.operation == operation && w.log[p].req.ip == ip
            && lo <= w.log[p].at && w.forwarded[p] < hi
  }

  /** The same for one address, in all its spellings. */
  function ForwardedForEmail(r: Run, operation: string, email: string, lo: int, hi: int): set<nat>
    requires |r.events| < |r.worlds|
  {
    var w := r.worlds[|r.events|];
    set p | p in w.forwarded && p in w.log && w.log[p].req.operation == operation && HasEmail(w.log[p].req)
            && Emails.Normalise(w.log[p].req.email.value) == Emails.Normalise(email)
            && lo <= w.log[p].at && w.forwarded[p] < hi
  }

  lemma BoundFromIp(r: Run, operation: string, ip: string, rule: Rule, lo: int, n: nat)
    requires ValidRun(r) && rule in Rules(operation) && rule.dimension == Ip && operation in LIMITED
    ensures |ForwardedFromIp(r, operation, ip, lo, lo + n * rule.window)| <= (n + 1) * rule.limit
  {
    var hi := lo + n * rule.window;
    var key := RateKeyOf(operation, Ip, ip);
    forall p | p in ForwardedFromIp(r, operation, ip, lo, hi) ensures p in Passers(r, 0, operation, Ip, key, lo, hi) {
      ForwardedIsCounted(r, p, lo, hi);
    }
    assert KeyOf(operation, rule, key);
    hide Rules;
    hide Passers;
    hide KeyOf;
    PassersAreBounded(r, 0, operation, rule, key, lo, n);
    SubsetIsSmaller(ForwardedFromIp(r, operation, ip, lo, hi), Passers(r, 0, operation, Ip, key, lo, hi));
  }

  lemma IsPasserForEmail(r: Run, p: nat, operation: string, email: string, lo: int, hi: int)
    requires ValidRun(r) && operation in {"login", "requestPasswordReset"}
    requires p in ForwardedForEmail(r, operation, email, lo, hi)
    ensures p in Passers(r, 0, operation, Email, RateKeyOf(operation, Email, email), lo, hi)
  {
    hide Passers;
    hide Emails.Normalise;
    hide Emails.RateKey;
    ForwardedIsCounted(r, p, lo, hi);
    Emails.OneCounterPerEmail(r.worlds[|r.events|].log[p].req.email.value, email);
  }

  lemma BoundForEmail(r: Run, operation: string, email: string, rule: Rule, lo: int, n: nat)
    requires ValidRun(r) && rule in Rules(operation) && rule.dimension == Email
    requires operation in {"login", "requestPasswordReset"}
    ensures |ForwardedForEmail(r, operation, email, lo, lo + n * rule.window)| <= (n + 1) * rule.limit
  {
    var hi := lo + n * rule.window;
    var key := RateKeyOf(operation, Email, email);
    assert KeyOf(operation, rule, key);
    hide Passers;
    hide Rules;
    hide KeyOf;
    hide RateKeyOf;
    hide ForwardedForEmail;
    forall p | p in ForwardedForEmail(r, operation, email, lo, hi) {
      IsPasserForEmail(r, p, operation, email, lo, hi);
    }
    PassersAreBounded(r, 0, operation, rule, key, lo, n);
    SubsetIsSmaller(ForwardedForEmail(r, operation, email, lo, hi), Passers(r, 0, operation, Email, key, lo, hi));
  }

  lemma RulesOf()
    ensures Rule(Ip, 5, 60) in Rules("login") && Rule(Email, 10, 900) in Rules("login")
    ensures Rule(Ip, 5, 3600) in Rules("register")
    ensures Rule(Email, 3, 3600) in Rules("requestPasswordReset") && Rule(Ip, 10, 3600) in Rules("requestPasswordReset")
    ensures Rule(Ip, 10, 3600) in Rules("resetPassword") && Rule(Ip, 60, 3600) in Rules("refreshToken")
  {
    assert Rules("login") == [Rule(Ip, 5, 60), Rule(Email, 10, 900)];
    assert Rules("requestPasswordReset") == [Rule(Email, 3, 3600), Rule(Ip, 10, 3600)];
  }

  /** The published limits, in every run and for any n windows, with one limit more for
      the window that had begun before: of all requests that arrive and are forwarded in
      that time, for each operation, per IP and per account email, whatever its spellings
      and however the requests interleave. */
  lemma PublishedLimits(r: Run, email: string, ip: string, lo: int, n: nat)
    requires ValidRun(r)
    ensures |ForwardedFromIp(r, "login", ip, lo, lo + n * 60)| <= (n + 1) * 5
    ensures |ForwardedForEmail(r, "login", email, lo, lo + n * 900)| <= (n + 1) * 10
    ensures |ForwardedFromIp(r, "register", ip, lo, lo + n * 3600)| <= (n + 1) * 5
    ensures |ForwardedForEmail(r, "requestPasswordReset", email, lo, lo + n * 3600)| <= (n + 1) * 3
    ensures |ForwardedFromIp(r, "requestPasswordReset", ip, lo, lo + n * 3600)| <= (n + 1) * 10
    ensures |ForwardedFromIp(r, "resetPassword", ip, lo, lo + n * 3600)| <= (n + 1) * 10
    ensures |ForwardedFromIp(r, "refreshToken", ip, lo, lo + n * 3600)| <= (n + 1) * 60
  {
    hide Rules;
    hide ForwardedFromIp;
    hide ForwardedForEmail;
    RulesOf();
    BoundFromIp(r, "login", ip, Rule(Ip, 5, 60), lo, n);
    BoundForEmail(r, "login", email, Rule(Email, 10, 900), lo, n);
    BoundFromIp(r, "register", ip, Rule(Ip, 5, 3600), lo, n);
    BoundForEmail(r, "requestPasswordReset", email, Rule(Email, 3, 3600), lo, n);
    BoundFromIp(r, "requestPasswordReset", ip, Rule(Ip, 10, 3600), lo, n);
    BoundFromIp(r, "resetPassword", ip, Rule(Ip, 10, 3600), lo, n);
    BoundFromIp(r, "refreshToken", ip, Rule(Ip, 60, 3600), lo, n);
  }
}
