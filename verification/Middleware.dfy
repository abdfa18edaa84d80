/** The GraphQL rate-limit middleware: its table of limits and its loop over them. */
module Middleware {
  import opened Wrappers
  import opened RateLimiting
  import opened Keys

  datatype Rule = Rule(dimension: Dimension, limit: nat, window: int)

  /** _RATE_LIMITS; an operation that is not in it has no rules. */
  function Rules(operation: string): seq<Rule> {
    if operation == "login" then [Rule(Ip, 5, 60), Rule(Email, 10, 900)]
    else if operation == "register" then [Rule(Ip, 5, 3600)]
    else if operation == "requestPasswordReset" then [Rule(Email, 3, 3600), Rule(Ip, 10, 3600)]
    else if operation == "resetPassword" then [Rule(Ip, 10, 3600)]
    else if operation == "refreshToken" then [Rule(Ip, 60, 3600)]
    else []
  }

  /** _EMAIL_OPS */
  predicate CarriesEmail(operation: string) {
    operation in {"login", "register", "requestPasswordReset"}
  }

  /** A POST to /graphql whose operation and variables have been extracted. */
  datatype Request = Request(operation: string, ip: string, email: Option<string>)

  /** What a rule counts the request by; an email limit is skipped without an email. */
  function Subject(req: Request, d: Dimension): Option<string> {
    match d
    case Ip => Some(req.ip)
    case Email =>
      if CarriesEmail(req.operation) && req.email.Some? && req.email.value != "" then req.email else None
  }

  datatype Answer = Forwarded | TooMany(retryAfter: int)

  /** The limits in order; the first one exceeded ends the request. */
  function Dispatch(counters: Counters, rules: seq<Rule>, req: Request, now: int): (Counters, Answer)
    decreases |rules|
  {
    if rules == [] then (counters, Forwarded)
    else
      match Subject(req, rules[0].dimension)
      case None => Dispatch(counters, rules[1..], req, now)
      case Some(subject) =>
        var key := RateKeyOf(req.operation, rules[0].dimension, subject);
        var (counter, verdict) := CheckOnce(Look(counters, key, now), now, rules[0].limit, rules[0].window);
        match verdict
        case Exceeded(retryAfter) => (counters[key := counter], TooMany(retryAfter))
        case Accepted(_) => Dispatch(counters[key := counter], rules[1..], req, now)
  }

  lemma RulesHaveWindows(operation: string)
    ensures forall r | r in Rules(operation) :: 0 < r.window
    ensures Rules(operation) != [] ==> ColonFree(operation)
  {
  }

  // ------------------------------------------------------------------------
  // The published limits
  // ------------------------------------------------------------------------

  /** One more request fits under `key`. */
  predicate Room(counters: Counters, key: string, now: int, limit: nat) {
    match Look(counters, key, now)
    case None => 1 <= limit
    case Some(c) => c.count < limit
  }

  predicate HasEmail(req: Request) {
    req.email.Some? && req.email.value != ""
  }

  function IpKey(req: Request): string {
    RateKeyOf(req.operation, Ip, req.ip)
  }

  function EmailKey(req: Request): string
    requires HasEmail(req)
  {
    RateKeyOf(req.operation, Email, req.email.value)
  }

  /** The request is within the published limits of its operation. */
  predicate WithinLimits(counters: Counters, req: Request, now: int) {
    && (req.operation == "login" ==>
          Room(counters, IpKey(req), now, 5) && (HasEmail(req) ==> Room(counters, EmailKey(req), now, 10)))
    && (req.operation == "register" ==> Room(counters, IpKey(req), now, 5))
    && (req.operation == "requestPasswordReset" ==>
          (HasEmail(req) ==> Room(counters, EmailKey(req), now, 3)) && Room(counters, IpKey(req), now, 10))
    && (req.operation == "resetPassword" ==> Room(counters, IpKey(req), now, 10))
    && (req.operation == "refreshToken" ==> Room(counters, IpKey(req), now, 60))
  }

  /** Under `key` one request more is counted, in the window that is running or else in
      one of `window` seconds that begins now. */
  predicate CountedUnder(counters: Counters, counters': Counters, key: string, now: int, window: int) {
    && key in counters'
    && match Look(counters, key, now)
       case None => counters'[key] == Counter(1, Some(now + window))
       case Some(c) => counters'[key] == c.(count := c.count + 1)
  }

  /** Every published limit of the request's operation has counted it. */
  predicate CountedByAll(counters: Counters, counters': Counters, req: Request, now: int) {
    && (req.operation == "login" ==>
          && CountedUnder(counters, counters', IpKey(req), now, 60)
          && (HasEmail(req) ==> CountedUnder(counters, counters', EmailKey(req), now, 900)))
    && (req.operation == "register" ==> CountedUnder(counters, counters', IpKey(req), now, 3600))
    && (req.operation == "requestPasswordReset" ==>
          && (HasEmail(req) ==> CountedUnder(counters, counters', EmailKey(req), now, 3600))
          && CountedUnder(counters, counters', IpKey(req), now, 3600))
    && (req.operation == "resetPassword" ==> CountedUnder(counters, counters', IpKey(req), now, 3600))
    && (req.operation == "refreshToken" ==> CountedUnder(counters, counters', IpKey(req), now, 3600))
  }

  const LIMITED := {"login", "register", "requestPasswordReset", "resetPassword", "refreshToken"}

  lemma KeysOfRequestDiffer(req: Request)
    requires req.operation in LIMITED && HasEmail(req)
    ensures IpKey(req) != EmailKey(req)
  {
    RulesHaveWindows(req.operation);
    RateKeysAgreeIff(req.operation, Ip, req.ip, req.operation, Email, req.email.value);
  }

  /** One rule alone. */
  lemma DispatchOne(counters: Counters, rule: Rule, rest: seq<Rule>, req: Request, now: int)
    ensures
      var d := rule.dimension;
      var (next, answer) := Dispatch(counters, [rule] + rest, req, now);
      match Subject(req, d)
      case None => (next, answer) == Dispatch(counters, rest, req, now)
      case Some(subject) =>
        var key := RateKeyOf(req.operation, d, subject);
        var counters' := counters[key := CheckOnce(Look(counters, key, now), now, rule.limit, rule.window).0];
        && CountedUnder(counters, counters', key, now, rule.window)
        && if Room(counters, key, now, rule.limit) then (next, answer) == Dispatch(counters', rest, req, now)
           else next == counters' && answer.TooMany?
  {
    assert ([rule] + rest)[1..] == rest;
  }

  lemma LoginLimits(counters: Counters, req: Request, now: int)
    requires req.operation == "login"
    ensures
      var (next, answer) := Dispatch(counters, Rules(req.operation), req, now);
      && (answer.Forwarded? <==> WithinLimits(counters, req, now))
      && (answer.Forwarded? ==> CountedByAll(counters, next, req, now))
  {
    assert Rules("login") == [Rule(Ip, 5, 60)] + ([Rule(Email, 10, 900)] + []);
    DispatchOne(counters, Rule(Ip, 5, 60), [Rule(Email, 10, 900)] + [], req, now);
    var counters1 := counters[IpKey(req) := CheckOnce(Look(counters, IpKey(req), now), now, 5, 60).0];
    DispatchOne(counters1, Rule(Email, 10, 900), [], req, now);
    if HasEmail(req) { KeysOfRequestDiffer(req); }
    hide RateKeyOf;
    hide Rules;
    hide CheckOnce;
  }

  lemma ResetRequestLimits(counters: Counters, req: Request, now: int)
    requires req.operation == "requestPasswordReset"
    ensures
      var (next, answer) := Dispatch(counters, Rules(req.operation), req, now);
      && (answer.Forwarded? <==> WithinLimits(counters, req, now))
      && (answer.Forwarded? ==> CountedByAll(counters, next, req, now))
  {
    assert Rules("requestPasswordReset") == [Rule(Email, 3, 3600)] + ([Rule(Ip, 10, 3600)] + []);
    DispatchOne(counters, Rule(Email, 3, 3600), [Rule(Ip, 10, 3600)] + [], req, now);
    var counters1 :=
      if HasEmail(req) then counters[EmailKey(req) := CheckOnce(Look(counters, EmailKey(req), now), now, 3, 3600).0]
      else counters;
    DispatchOne(counters1, Rule(Ip, 10, 3600), [], req, now);
    if HasEmail(req) { KeysOfRequestDiffer(req); }
    hide RateKeyOf;
    hide Rules;
    hide CheckOnce;
  }

  lemma OtherLimits(counters: Counters, req: Request, now: int)
    requires req.operation != "login" && req.operation != "requestPasswordReset"
    ensures
      var (next, answer) := Dispatch(counters, Rules(req.operation), req, now);
      && (answer.Forwarded? <==> WithinLimits(counters, req, now))
      && (answer.Forwarded? ==> CountedByAll(counters, next, req, now))
      && (req.operation !in LIMITED ==> next == counters)
  {
    if Rules(req.operation) != [] {
      var rule := Rules(req.operation)[0];
      assert Rules(req.operation) == [rule] + [];
      DispatchOne(counters, rule, [], req, now);
    }
    hide RateKeyOf;
    hide CheckOnce;
  }

  /** For every operation, by its published numbers: a request is forwarded exactly when
      it is within the limits of its operation, and is then counted by each of them. */
  lemma ForwardedIffWithinLimits(counters: Counters, req: Request, now: int)
    ensures
      var (next, answer) := Dispatch(counters, Rules(req.operation), req, now);
      && (answer.Forwarded? <==> WithinLimits(counters, req, now))
      && (answer.Forwarded? ==> CountedByAll(counters, next, req, now))
      && (req.operation !in LIMITED ==> next == counters)
  {
    hide Rules;
    hide Dispatch;
    hide WithinLimits;
    hide CountedByAll;
    if req.operation == "login" {
      LoginLimits(counters, req, now);
    } else if req.operation == "requestPasswordReset" {
      ResetRequestLimits(counters, req, now);
    } else {
      OtherLimits(counters, req, now);
    }
  }

  class GraphQLRateLimitMiddleware {
    const limiter: RateLimiter

    constructor (limiter: RateLimiter)
      ensures this.limiter == limiter
    {
      this.limiter := limiter;
    }

    method Handle(req: Request) returns (answer: Answer)
      modifies limiter`counters
      ensures (limiter.counters, answer) == Dispatch(old(limiter.counters), Rules(req.operation), req, limiter.now)
      ensures answer.Forwarded? <==> WithinLimits(old(limiter.counters), req, limiter.now)
      ensures answer.Forwarded? ==> CountedByAll(old(limiter.counters), limiter.counters, req, limiter.now)
      ensures req.operation !in LIMITED ==> limiter.counters == old(limiter.counters)
    {
      ForwardedIffWithinLimits(limiter.counters, req, limiter.now);
      hide WithinLimits;
      hide CountedByAll;
      var email := if CarriesEmail(req.operation) then req.email else None;
      var rules := Rules(req.operation);
      RulesHaveWindows(req.operation);
      var i := 0;
      while i < |rules|
        invariant 0 <= i <= |rules|
        invariant
          Dispatch(old(limiter.counters), rules, req, limiter.now) ==
          Dispatch(limiter.counters, rules[i..], req, limiter.now)
      {
        assert rules[i..][1..] == rules[i + 1..];
        var verdict := Accepted(0);
        if rules[i].dimension == Ip {
          verdict := limiter.CheckIp(req.ip, req.operation, rules[i].limit, rules[i].window);
        } else if email.Some? && email.value != "" {
          verdict := limiter.CheckEmail(email.value, req.operation, rules[i].limit, rules[i].window);
        }
        if verdict.Exceeded? {
          return TooMany(verdict.retryAfter);
        }
        i := i + 1;
      }
      answer := Forwarded;
    }
  }

  // ------------------------------------------------------------------------
  // What a key stands for
  // ------------------------------------------------------------------------

  /** `rule` of `operation` counts some subject under `key`. */
  ghost predicate KeyOf(operation: string, rule: Rule, key: string) {
    exists subject :: key == RateKeyOf(operation, rule.dimension, subject)
  }

  /** The rules of an operation have different dimensions, so a key determines the
      limit and the window that are checked under it. */
  lemma RuleOfKey(operation: string, rule: Rule, key: string, req: Request, other: Rule)
    requires rule in Rules(operation) && other in Rules(req.operation) && Subject(req, other.dimension).Some?
    requires KeyOf(operation, rule, key)
    requires RateKeyOf(req.operation, other.dimension, Subject(req, other.dimension).value) == key
    ensures req.operation == operation && other == rule
  {
    var subject :| key == RateKeyOf(operation, rule.dimension, subject);
    RulesHaveWindows(operation);
    RulesHaveWindows(req.operation);
    RateKeysAgreeIff(operation, rule.dimension, subject, req.operation, other.dimension,
                     Subject(req, other.dimension).value);
  }
}
