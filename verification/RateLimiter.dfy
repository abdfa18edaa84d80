/** The fixed-window rate limiter: its counters in Redis, and the class. */
module RateLimiting {
  import opened Wrappers
  import Keys

  /** rl:{key}. A counter made by SET NX EX has an expiry; one made by an INCR on a
      missing key has none. */
  datatype Counter = Counter(count: nat, expires: Option<int>)

  type Counters = map<string, Counter>

  predicate Lapsed(c: Counter, now: int) {
    c.expires.Some? && c.expires.value <= now
  }

  /** The counter under `key`, if it exists at `now`. */
  function Look(counters: Counters, key: string, now: int): Option<Counter> {
    if key in counters && !Lapsed(counters[key], now) then Some(counters[key]) else None
  }

  /** SET key 0 EX window NX. */
  function SetNx(slot: Option<Counter>, now: int, window: int): Counter {
    match slot
    case Some(c) => c
    case None => Counter(0, Some(now + window))
  }

  /** INCR key. */
  function Incr(slot: Option<Counter>): Counter {
    match slot
    case Some(c) => c.(count := c.count + 1)
    case None => Counter(1, None)
  }

  /** TTL key, -1 without expiry. */
  function TtlOf(c: Counter, now: int): int {
    match c.expires
    case Some(e) => e - now
    case None => -1
  }

  datatype Verdict = Accepted(count: nat) | Exceeded(retryAfter: int)

  /** check() with no other caller in between: the counter it leaves, and its answer. */
  function CheckOnce(slot: Option<Counter>, now: int, limit: nat, window: int): (Counter, Verdict) {
    var c := Incr(Some(SetNx(slot, now, window)));
    var ttl := TtlOf(c, now);
    (c, if c.count <= limit then Accepted(c.count) else Exceeded(if ttl > 0 then ttl else window))
  }

  class RateLimiter {
    var counters: Counters
    var now: int

    constructor (now: int)
      ensures counters == map[] && this.now == now
    {
      counters := map[];
      this.now := now;
    }

    method SetIfMissing(key: string, window: int)
      modifies this`counters
      ensures counters == old(counters)[key := SetNx(Look(old(counters), key, now), now, window)]
    {
      if key !in counters || Lapsed(counters[key], now) {
        counters := counters[key := Counter(0, Some(now + window))];
      } else {
        assert counters == counters[key := counters[key]];
      }
    }

    method Increment(key: string) returns (count: nat)
      modifies this`counters
      ensures counters == old(counters)[key := Incr(Look(old(counters), key, now))]
      ensures count == counters[key].count
    {
      if key !in counters || Lapsed(counters[key], now) {
        counters := counters[key := Counter(1, None)];
      } else {
        counters := counters[key := counters[key].(count := counters[key].count + 1)];
      }
      count := counters[key].count;
    }

    /** A rejected check counts like an accepted one, and neither changes when a
        window that has begun will end. */
    method Check(key: string, limit: nat, window: int) returns (verdict: Verdict)
      requires 0 < window
      modifies this`counters
      ensures
        var slot := Look(old(counters), key, now);
        && counters == old(counters)[key := CheckOnce(slot, now, limit, window).0]
        && verdict == CheckOnce(slot, now, limit, window).1
        && (slot.Some? ==> counters[key].expires == slot.value.expires)
        && (slot.None? ==> counters[key].expires == Some(now + window))
    {
      SetIfMissing(key, window);
      var count := Increment(key);
      if count > limit {
        var ttl := TtlOf(counters[key], now);
        return Exceeded(if ttl > 0 then ttl else window);
      }
      verdict := Accepted(count);
    }

    method CheckIp(ip: string, operation: string, limit: nat, window: int) returns (verdict: Verdict)
      requires 0 < window
      modifies this`counters
      ensures
        var key := Keys.RateKeyOf(operation, Keys.Ip, ip);
        var slot := Look(old(counters), key, now);
        counters == old(counters)[key := CheckOnce(slot, now, limit, window).0] &&
        verdict == CheckOnce(slot, now, limit, window).1
    {
      verdict := Check(Keys.RateKeyOf(operation, Keys.Ip, ip), limit, window);
    }

    method CheckEmail(email: string, operation: string, limit: nat, window: int) returns (verdict: Verdict)
      requires 0 < window
      modifies this`counters
      ensures
        var key := Keys.RateKeyOf(operation, Keys.Email, email);
        var slot := Look(old(counters), key, now);
        counters == old(counters)[key := CheckOnce(slot, now, limit, window).0] &&
        verdict == CheckOnce(slot, now, limit, window).1
    {
      verdict := Check(Keys.RateKeyOf(operation, Keys.Email, email), limit, window);
    }
  }
}
