/** The rate limiter over runs: how many checks on one key can be accepted, and
    when a rejected caller is let in again. */
module RateRuns {
  import opened Wrappers
  import opened RateLimiting

  // ------------------------------------------------------------------------
  // Safety, with the round trips of different callers interleaved
  // ------------------------------------------------------------------------

  /** One round trip on the key, at its time. */
  datatype Trip = SetNxAt(caller: nat, at: int) | IncrAt(caller: nat, at: int)

  /** Every caller makes one check: a SetNx, and then an Incr unless it dies. Those of
      different callers come in any order. */
  ghost predicate Paired(trips: seq<Trip>) {
    && (forall i, k | 0 <= i < k < |trips| && trips[i].caller == trips[k].caller ::
        trips[i].SetNxAt? && trips[k].IncrAt?)
    && (forall k | 0 <= k < |trips| && trips[k].IncrAt? :: exists i | 0 <= i < k :: trips[i].caller == trips[k].caller)
  }

  ghost predicate Ordered(trips: seq<Trip>, from: int) {
    && (forall i | 0 <= i < |trips| :: from <= trips[i].at)
    && (forall i, j | 0 <= i < j < |trips| :: trips[i].at <= trips[j].at)
  }

  /** The counter as it is at `now`. */
  function Live(slot: Option<Counter>, now: int): Option<Counter> {
    if slot.Some? && Lapsed(slot.value, now) then None else slot
  }

  function After(slot: Option<Counter>, trip: Trip, window: int): Option<Counter> {
    match trip
    case SetNxAt(_, t) => Some(SetNx(Live(slot, t), t, window))
    case IncrAt(_, t) => Some(Incr(Live(slot, t)))
  }

  /** The check whose INCR this is is accepted. */
  predicate Accepts(slot: Option<Counter>, trip: Trip, limit: nat) {
    trip.IncrAt? && Incr(Live(slot, trip.at)).count <= limit
  }

  /** How many checks are accepted from `lo` up to and excluding `hi`. */
  function AcceptedIn(slot: Option<Counter>, trips: seq<Trip>, limit: nat, window: int, lo: int, hi: int): nat
    decreases |trips|
  {
    if trips == [] then 0
    else
      (if Accepts(slot, trips[0], limit) && lo <= trips[0].at < hi then 1 else 0)
      + AcceptedIn(After(slot, trips[0], window), trips[1..], limit, window, lo, hi)
  }

  /** How many windows can begin in `span` seconds. */
  function Windows(span: int, window: int): (n: nat)
    requires 0 < window
    decreases span
  {
    if span <= 0 then 0 else 1 + Windows(span - window, window)
  }

  lemma {:induction false} WindowsGrow(a: int, b: int, window: int)
    requires 0 < window && a <= b
    ensures Windows(a, window) <= Windows(b, window)
    decreases b
  {
    if b > 0 { WindowsGrow(a - window, b - window, window); }
  }

  lemma {:induction false} WindowsOf(n: nat, window: int)
    requires 0 < window
    ensures Windows(n * window, window) == n
  {
    if n > 0 {
      assert n * window - window == (n - 1) * window;
      WindowsOf(n - 1, window);
      assert n * window >= window by { assert (n - 1) * window >= 0; }
    }
  }

  /** How many more checks can be accepted from `now` until `hi`. */
  function Budget(slot: Option<Counter>, now: int, limit: nat, window: int, hi: int): int
    requires 0 < window
  {
    if hi <= now then 0
    else
      match Live(slot, now)
      case None => limit * Windows(hi - now, window)
      case Some(c) =>
        (if c.count <= limit then limit - c.count else 0)
        + match c.expires
          case None => 0
          case Some(e) => limit * Windows(hi - e, window)
  }

  lemma TimesMonotone(limit: nat, a: nat, b: nat)
    requires a <= b
    ensures limit * a <= limit * b
  {
  }

  lemma BudgetIsNat(slot: Option<Counter>, now: int, limit: nat, window: int, hi: int)
    requires 0 < window
    ensures 0 <= Budget(slot, now, limit, window, hi)
  {
    forall n: nat ensures 0 <= limit * n { TimesMonotone(limit, 0, n); }
  }

  /** Waiting does not add to the budget. */
  lemma BudgetShrinks(slot: Option<Counter>, now: int, later: int, limit: nat, window: int, hi: int)
    requires 0 < window && now <= later
    ensures Budget(slot, later, limit, window, hi) <= Budget(slot, now, limit, window, hi)
  {
    if later >= hi {
      BudgetIsNat(slot, now, limit, window, hi);
    } else {
      match Live(slot, now)
      case None =>
        WindowsGrow(hi - later, hi - now, window);
        TimesMonotone(limit, Windows(hi - later, window), Windows(hi - now, window));
      case Some(c) =>
        if Lapsed(c, later) {
          WindowsGrow(hi - later, hi - c.expires.value, window);
          TimesMonotone(limit, Windows(hi - later, window), Windows(hi - c.expires.value, window));
        }
    }
  }

  /** One round trip uses at least as much of the budget as it accepts. */
  lemma TripPaysBudget(slot: Option<Counter>, trip: Trip, limit: nat, window: int, hi: int)
    requires 0 < window
    ensures
      (if Accepts(slot, trip, limit) && trip.at < hi then 1 else 0)
      + Budget(After(slot, trip, window), trip.at, limit, window, hi)
      <= Budget(slot, trip.at, limit, window, hi)
  {
    var now := trip.at;
    if now < hi {
      var slot' := After(slot, trip, window);
      assert Live(slot', now) == slot';
      if Live(slot, now).None? {
        assert Windows(hi - now, window) == 1 + Windows(hi - now - window, window);
        assert limit * (1 + Windows(hi - now - window, window)) == limit + limit * Windows(hi - now - window, window);
      }
    }
  }

  lemma {:induction false} RunPaysBudget(slot: Option<Counter>, trips: seq<Trip>, now: int, limit: nat, window: int,
                                         lo: int, hi: int)
    requires 0 < window && Ordered(trips, now)
    ensures AcceptedIn(slot, trips, limit, window, lo, hi) <= Budget(slot, now, limit, window, hi)
    decreases |trips|
  {
    if trips == [] {
      BudgetIsNat(slot, now, limit, window, hi);
    } else {
      BudgetShrinks(slot, now, trips[0].at, limit, window, hi);
      TripPaysBudget(slot, trips[0], limit, window, hi);
      RunPaysBudget(After(slot, trips[0], window), trips[1..], trips[0].at, limit, window, lo, hi);
    }
  }

  /** At the start of an interval of `n` windows the budget is `n + 1` limits: what
      is left of one window, and `n` more. */
  lemma BudgetOf(slot: Option<Counter>, now: int, limit: nat, window: int, n: nat)
    requires 0 < window && (slot.Some? && slot.value.expires.Some? ==> now < slot.value.expires.value)
    ensures Budget(slot, now, limit, window, now + n * window) <= (n + 1) * limit
  {
    var hi := now + n * window;
    WindowsOf(n, window);
    assert limit * n <= (n + 1) * limit;
    assert limit * (n + 1) == (n + 1) * limit == limit + limit * n;
    if hi > now {
      match Live(slot, now)
      case None =>
      case Some(c) =>
        if c.expires.Some? {
          WindowsGrow(hi - c.expires.value, n * window, window);
          TimesMonotone(limit, Windows(hi - c.expires.value, window), n);
        } else {
          assert 0 <= limit * n;
        }
    }
  }

  /** In any run, whatever counter it starts from and however the round trips of its
      callers interleave, at most (n + 1) * limit checks are accepted in any
      half-open interval of n * window seconds. For n = 1 that is the documented
      burst of twice the limit. */
  lemma {:induction false} AcceptedIsBounded(slot: Option<Counter>, trips: seq<Trip>, from: int, limit: nat,
                                             window: int, lo: int, n: nat)
    requires 0 < window && Ordered(trips, from)
    ensures AcceptedIn(slot, trips, limit, window, lo, lo + n * window) <= (n + 1) * limit
    decreases |trips|
  {
    var hi := lo + n * window;
    if trips == [] {
      assert 0 <= (n + 1) * limit;
    } else if trips[0].at < lo {
      AcceptedIsBounded(After(slot, trips[0], window), trips[1..], from, limit, window, lo, n);
    } else {
      AcceptedInIsFromLive(slot, trips, limit, window, lo, hi);
      RunPaysBudget(Live(slot, lo), trips, lo, limit, window, lo, hi);
      BudgetOf(Live(slot, lo), lo, limit, window, n);
    }
  }

  /** A counter that has lapsed before the first round trip might as well be gone. */
  lemma AcceptedInIsFromLive(slot: Option<Counter>, trips: seq<Trip>, limit: nat, window: int, lo: int, hi: int)
    requires trips != [] && lo <= trips[0].at
    ensures AcceptedIn(slot, trips, limit, window, lo, hi) == AcceptedIn(Live(slot, lo), trips, limit, window, lo, hi)
  {
    assert Live(Live(slot, lo), trips[0].at) == Live(slot, trips[0].at);
  }

  // ------------------------------------------------------------------------
  // The bound is reached
  // ------------------------------------------------------------------------

  /** The checks of `calls` callers at one moment. */
  function Burst(at: int, calls: nat, caller: nat): seq<Trip> {
    if calls == 0 then [] else [SetNxAt(caller, at), IncrAt(caller, at)] + Burst(at, calls - 1, caller + 1)
  }

  /** `limit` callers at the beginning of each of the windows `k` to `n`. */
  function Rounds(k: nat, n: nat, limit: nat, window: int, caller: nat): seq<Trip>
    decreases n + 1 - k
  {
    if k > n then [] else Burst(k * window, limit, caller) + Rounds(k + 1, n, limit, window, caller + limit)
  }

  function RoundsEnd(k: nat, n: nat, limit: nat, caller: nat): nat
    decreases n + 1 - k
  {
    if k > n then caller else RoundsEnd(k + 1, n, limit, caller + limit)
  }

  /** Checks of the callers `lo` up to `hi`, in the order of their times. */
  ghost predicate Tidy(trips: seq<Trip>, lo: nat, hi: nat, from: int, to: int) {
    && Paired(trips)
    && (forall i | 0 <= i < |trips| :: lo <= trips[i].caller < hi && from <= trips[i].at <= to)
    && (forall i, j | 0 <= i < j < |trips| :: trips[i].at <= trips[j].at)
  }

  lemma TidyConcat(a: seq<Trip>, b: seq<Trip>, lo: nat, mid: nat, hi: nat, from: int, t: int, u: int, to: int)
    requires Tidy(a, lo, mid, from, t) && Tidy(b, mid, hi, u, to) && lo <= mid <= hi && from <= t <= u <= to
    ensures Tidy(a + b, lo, hi, from, to)
  {
    var c := a + b;
    forall k | 0 <= k < |c| && c[k].IncrAt? ensures exists i | 0 <= i < k :: c[i].caller == c[k].caller {
      if k < |a| {
        var i :| 0 <= i < k && a[i].caller == a[k].caller;
        assert c[i] == a[i];
      } else {
        var i :| 0 <= i < k - |a| && b[i].caller == b[k - |a|].caller;
        assert c[|a| + i] == b[i];
      }
    }
  }

  lemma {:induction false} BurstIsTidy(at: int, calls: nat, caller: nat)
    ensures Tidy(Burst(at, calls, caller), caller, caller + calls, at, at)
    decreases calls
  {
    if calls > 0 {
      PairIsTidy(caller, at, at);
      BurstIsTidy(at, calls - 1, caller + 1);
      TidyConcat([SetNxAt(caller, at), IncrAt(caller, at)], Burst(at, calls - 1, caller + 1), caller, caller + 1,
                 caller + calls, at, at, at, at);
    }
  }

  lemma {:induction false} RoundsAreTidy(k: nat, n: nat, limit: nat, window: int, caller: nat)
    requires 0 < window && k <= n + 1
    ensures caller <= RoundsEnd(k, n, limit, caller)
    ensures k <= n ==> k * window <= n * window
    ensures Tidy(Rounds(k, n, limit, window, caller), caller, RoundsEnd(k, n, limit, caller), k * window, n * window)
    decreases n + 1 - k
  {
    hide Tidy;
    if k <= n {
      RoundTimes(k, n, limit, window);
      BurstIsTidy(k * window, limit, caller);
      var burst, rest := Burst(k * window, limit, caller), Rounds(k + 1, n, limit, window, caller + limit);
      if k == n {
        assert burst + rest == burst;
      } else {
        RoundsAreTidy(k + 1, n, limit, window, caller + limit);
        TidyConcat(burst, rest, caller, caller + limit, RoundsEnd(k, n, limit, caller), k * window, k * window,
                   (k + 1) * window, n * window);
      }
    } else {
      EmptyIsTidy(caller, k * window, n * window);
    }
  }

  lemma EmptyIsTidy(caller: nat, from: int, to: int)
    ensures Tidy([], caller, caller, from, to)
  {
  }

  lemma RoundTimes(k: nat, n: nat, limit: nat, window: int)
    requires k <= n && 0 < window
    ensures k * window <= n * window && (k + 1) * window == k * window + window
    ensures (n + 1 - k) * limit == limit + (n - k) * limit
  {
    assert (n - k) * window >= 0;
  }

  /** A caller's check, its SetNx at `from` and its Incr at `at` in one window. */
  lemma OneCheckCounts(slot: Option<Counter>, caller: nat, from: int, at: int, rest: seq<Trip>, limit: nat,
                       window: int, lo: int, hi: int)
    requires lo <= at < hi && from <= at
    ensures
      var c := SetNx(Live(slot, from), from, window);
      c.expires.Some? && at < c.expires.value && c.count < limit ==>
        AcceptedIn(slot, [SetNxAt(caller, from), IncrAt(caller, at)] + rest, limit, window, lo, hi) ==
        1 + AcceptedIn(Some(c.(count := c.count + 1)), rest, limit, window, lo, hi)
  {
    var trips := [SetNxAt(caller, from), IncrAt(caller, at)] + rest;
    assert trips[1..] == [IncrAt(caller, at)] + rest && trips[1..][1..] == rest;
    var c := SetNx(Live(slot, from), from, window);
    assert AcceptedIn(slot, trips, limit, window, lo, hi) == AcceptedIn(Some(c), trips[1..], limit, window, lo, hi);
  }

  lemma {:induction false} BurstCounts(c: Counter, at: int, calls: nat, caller: nat, rest: seq<Trip>, limit: nat,
                                       window: int, lo: int, hi: int)
    requires c.expires.Some? && at < c.expires.value && lo <= at < hi && c.count + calls <= limit
    decreases calls
    ensures
      AcceptedIn(Some(c), Burst(at, calls, caller) + rest, limit, window, lo, hi) ==
      calls + AcceptedIn(Some(c.(count := c.count + calls)), rest, limit, window, lo, hi)
  {
    hide AcceptedIn;
    if calls == 0 {
      assert Burst(at, 0, caller) + rest == rest;
    } else {
      var others := Burst(at, calls - 1, caller + 1) + rest;
      assert Burst(at, calls, caller) + rest == [SetNxAt(caller, at), IncrAt(caller, at)] + others;
      OneCheckCounts(Some(c), caller, at, at, others, limit, window, lo, hi);
      BurstCounts(c.(count := c.count + 1), at, calls - 1, caller + 1, rest, limit, window, lo, hi);
    }
  }

  /** One window's round, whose first caller opens the window. */
  lemma RoundCounts(c: Counter, at: int, caller: nat, rest: seq<Trip>, limit: nat, window: int, lo: int, hi: int)
    requires 0 < window && 1 <= limit && c.expires == Some(at) && lo <= at < hi
    ensures
      AcceptedIn(Some(c), Burst(at, limit, caller) + rest, limit, window, lo, hi) ==
      limit + AcceptedIn(Some(Counter(limit, Some(at + window))), rest, limit, window, lo, hi)
  {
    hide AcceptedIn;
    var others := Burst(at, limit - 1, caller + 1) + rest;
    assert Burst(at, limit, caller) + rest == [SetNxAt(caller, at), IncrAt(caller, at)] + others;
    OneCheckCounts(Some(c), caller, at, at, others, limit, window, lo, hi);
    BurstCounts(Counter(1, Some(at + window)), at, limit - 1, caller + 1, rest, limit, window, lo, hi);
  }

  lemma {:induction false} RoundsCount(c: Counter, k: nat, n: nat, caller: nat, limit: nat, window: int, lo: int,
                                       hi: int)
    requires 0 < window && 1 <= limit && k <= n + 1 && c.expires == Some(k * window) && lo <= k * window
        && n * window < hi
    ensures AcceptedIn(Some(c), Rounds(k, n, limit, window, caller), limit, window, lo, hi) == (n + 1 - k) * limit
    decreases n + 1 - k
  {
    hide AcceptedIn;
    if k <= n {
      RoundTimes(k, n, limit, window);
      RoundCounts(c, k * window, caller, Rounds(k + 1, n, limit, window, caller + limit), limit, window, lo, hi);
      RoundsCount(Counter(limit, Some(k * window + window)), k + 1, n, caller + limit, limit, window, lo, hi);
    } else {
      NoneAccepted(Some(c), limit, window, lo, hi);
    }
  }

  lemma NoneAccepted(slot: Option<Counter>, limit: nat, window: int, lo: int, hi: int)
    ensures AcceptedIn(slot, [], limit, window, lo, hi) == 0
  {
  }

  /** Caller 0 opens a window and is slow to send its Incr; just before the window
      ends the others use it up, and then each window that follows. */
  function FullRun(n: nat, limit: nat, window: int): seq<Trip>
    requires 1 <= limit
  {
    [SetNxAt(0, 0), IncrAt(0, window - 1)] + (Burst(window - 1, limit - 1, 1) + Rounds(1, n, limit, window, limit))
  }

  lemma PairIsTidy(caller: nat, from: int, to: int)
    requires from <= to
    ensures Tidy([SetNxAt(caller, from), IncrAt(caller, to)], caller, caller + 1, from, to)
  {
    var pair := [SetNxAt(caller, from), IncrAt(caller, to)];
    assert pair[0].caller == pair[1].caller;
  }

  lemma RestIsTidy(n: nat, limit: nat, window: int)
    requires 2 <= window && 1 <= limit && 1 <= n
    ensures window <= n * window && limit <= RoundsEnd(1, n, limit, limit)
    ensures
      Tidy(Burst(window - 1, limit - 1, 1) + Rounds(1, n, limit, window, limit), 1, RoundsEnd(1, n, limit, limit),
           window - 1, n * window)
  {
    hide Tidy;
    BurstIsTidy(window - 1, limit - 1, 1);
    RoundsAreTidy(1, n, limit, window, limit);
    hide Burst;
    hide Rounds;
    hide RoundsEnd;
    assert 1 * window == window;
    TidyConcat(Burst(window - 1, limit - 1, 1), Rounds(1, n, limit, window, limit), 1, limit,
               RoundsEnd(1, n, limit, limit), window - 1, window - 1, window, n * window);
  }

  lemma FullRunIsTidy(n: nat, limit: nat, window: int)
    requires 2 <= window && 1 <= limit && 1 <= n
    ensures Tidy(FullRun(n, limit, window), 0, RoundsEnd(1, n, limit, limit), 0, n * window)
  {
    RestIsTidy(n, limit, window);
    PairIsTidy(0, 0, window - 1);
    hide Tidy;
    hide Burst;
    hide Rounds;
    hide RoundsEnd;
    TidyConcat([SetNxAt(0, 0), IncrAt(0, window - 1)],
               Burst(window - 1, limit - 1, 1) + Rounds(1, n, limit, window, limit), 0, 1,
               RoundsEnd(1, n, limit, limit), 0, window - 1, window - 1, n * window);
  }

  /** The bound is exact: for every n > 0 there is a run of callers that each make one
      check, in which (n + 1) * limit checks are accepted within n windows, the first
      of them just before a window ends. A window of one second has no such moment. */
  lemma BoundIsReached(limit: nat, window: int, n: nat)
    requires 2 <= window && 1 <= limit && 1 <= n
    ensures
      var trips := FullRun(n, limit, window);
      && Paired(trips) && Ordered(trips, 0)
      && AcceptedIn(None, trips, limit, window, window - 1, window - 1 + n * window) == (n + 1) * limit
  {
    FullRunIsTidy(n, limit, window);
    hide AcceptedIn;
    var burst, rounds := Burst(window - 1, limit - 1, 1), Rounds(1, n, limit, window, limit);
    var lo, hi := window - 1, window - 1 + n * window;
    assert n * window >= window by { assert (n - 1) * window >= 0; }
    OneCheckCounts(None, 0, 0, window - 1, burst + rounds, limit, window, lo, hi);
    BurstCounts(Counter(1, Some(window)), window - 1, limit - 1, 1, rounds, limit, window, lo, hi);
    RoundsCount(Counter(limit, Some(window)), 1, n, limit, limit, window, lo, hi);
    assert (n + 1) * limit == limit + n * limit;
  }

  // ------------------------------------------------------------------------
  // Liveness, with each check uninterrupted
  // ------------------------------------------------------------------------

  /** A counter made by uninterrupted checks: it ends within a window from now. */
  predicate Healthy(slot: Option<Counter>, now: int, window: int) {
    Live(slot, now).Some? ==> slot.value.expires.Some? && slot.value.expires.value <= now + window
  }

  function Answer(slot: Option<Counter>, now: int, limit: nat, window: int): Verdict {
    CheckOnce(Live(slot, now), now, limit, window).1
  }

  /** The counter after checks at the given times. */
  function AfterChecks(slot: Option<Counter>, times: seq<int>, limit: nat, window: int): Option<Counter> {
    if times == [] then slot
    else
      var last := |times| - 1;
      Some(CheckOnce(Live(AfterChecks(slot, times[..last], limit, window), times[last]), times[last], limit, window).0)
  }

  predicate Rising(times: seq<int>, from: int, to: int) {
    && from <= to
    && (forall i | 0 <= i < |times| :: from <= times[i] <= to)
    && (forall i, j | 0 <= i < j < |times| :: times[i] <= times[j])
  }

  lemma {:induction false} ChecksKeepHealthy(slot: Option<Counter>, times: seq<int>, from: int, to: int, limit: nat,
                                             window: int)
    requires 0 < window && Healthy(slot, from, window) && Rising(times, from, to)
    ensures Healthy(AfterChecks(slot, times, limit, window), to, window)
    decreases |times|
  {
    if times != [] {
      var last := |times| - 1;
      ChecksKeepHealthy(slot, times[..last], from, times[last], limit, window);
    }
  }

  /** Checks between `from` and `to` leave a window that ends at `end` as it is, or,
      once it has ended, in the past of one that began no earlier than `end`. */
  lemma {:induction false} ChecksNeverExtend(slot: Option<Counter>, times: seq<int>, from: int, to: int, limit: nat,
                                             window: int, end: int)
    requires 0 < window && slot.Some? && slot.value.expires == Some(end) && from < end && Rising(times, from, to)
    ensures
      var slot' := AfterChecks(slot, times, limit, window);
      slot'.Some? && slot'.value.expires.Some?
          && (slot'.value.expires.value == end || end + window <= slot'.value.expires.value)
    decreases |times|
  {
    if times != [] {
      var last := |times| - 1;
      ChecksNeverExtend(slot, times[..last], from, times[last], limit, window, end);
    }
  }

  /** No lockout. A rejected caller is told to wait between one second and one
      window. Whatever checks follow, rejected ones included, the first check made
      no earlier than that starts a window and is answered 1, or falls in a window
      that began after the wait was over. */
  lemma RejectionEnds(slot: Option<Counter>, now: int, times: seq<int>, later: int, limit: nat, window: int)
    requires 0 < window && 1 <= limit && Healthy(slot, now, window)
    requires Answer(slot, now, limit, window).Exceeded?
    requires later >= now + Answer(slot, now, limit, window).retryAfter && Rising(times, now, later)
    ensures 1 <= Answer(slot, now, limit, window).retryAfter <= window
    ensures
      var wait := Answer(slot, now, limit, window).retryAfter;
      var slot' := AfterChecks(Some(CheckOnce(Live(slot, now), now, limit, window).0), times, limit, window);
      match Live(slot', later)
      case None => Answer(slot', later, limit, window) == Accepted(1)
      case Some(c) => c.expires.Some? && now + wait <= c.expires.value - window
  {
    var wait := Answer(slot, now, limit, window).retryAfter;
    var first := CheckOnce(Live(slot, now), now, limit, window).0;
    ChecksNeverExtend(Some(first), times, now, later, limit, window, now + wait);
  }

  // ------------------------------------------------------------------------
  // A counter without expiry
  // ------------------------------------------------------------------------

  /** The counter after the first `i` round trips. */
  function SlotAt(slot: Option<Counter>, trips: seq<Trip>, i: nat, window: int): Option<Counter>
    requires i <= |trips|
  {
    if i == 0 then slot else After(SlotAt(slot, trips, i - 1, window), trips[i - 1], window)
  }

  predicate Persistent(slot: Option<Counter>) {
    slot.Some? && slot.value.expires.None?
  }

  /** Of the SET NX before trip `k`, the one at `j` is the latest. */
  ghost predicate LatestSetNx(trips: seq<Trip>, j: nat, k: nat)
    requires k <= |trips|
  {
    j < k && trips[j].SetNxAt? && forall m | j < m < k :: trips[m].IncrAt?
  }

  /** Trip `k` is an INCR that comes at or after the end of the window that the latest
      SET NX before it found or opened. */
  ghost predicate Straddles(slot: Option<Counter>, trips: seq<Trip>, k: nat, window: int)
    requires k < |trips|
  {
    && trips[k].IncrAt?
    && exists j: nat | LatestSetNx(trips, j, k) ::
         Live(SlotAt(slot, trips, j + 1, window), trips[k].at).None?
  }

  /** The latest SET NX before an INCR: there is one, its caller's own or a later one. */
  lemma HasLatestSetNx(trips: seq<Trip>, k: nat) returns (j: nat)
    requires Paired(trips) && k < |trips| && trips[k].IncrAt?
    ensures LatestSetNx(trips, j, k)
  {
    var own :| 0 <= own < k && trips[own].caller == trips[k].caller;
    j := k - 1;
    while trips[j].IncrAt?
      invariant own <= j < k && forall m | j < m < k :: trips[m].IncrAt?
      decreases j
    {
      j := j - 1;
    }
  }

  /** INCRs alone change no expiry, unless one of them finds nothing. */
  lemma {:induction false} IncrsKeepExpiry(slot: Option<Counter>, trips: seq<Trip>, j: nat, k: nat, window: int)
    requires k <= |trips| && LatestSetNx(trips, j, k)
    ensures
      var saw, now := SlotAt(slot, trips, j + 1, window), SlotAt(slot, trips, k, window);
      saw.Some? && now.Some? && (now.value.expires == saw.value.expires || now.value.expires.None?)
    decreases k
  {
    if j + 1 < k { IncrsKeepExpiry(slot, trips, j, k - 1, window); }
  }

  lemma LatestSetNxIsUnique(trips: seq<Trip>, i: nat, j: nat, k: nat)
    requires k <= |trips| && LatestSetNx(trips, i, k) && LatestSetNx(trips, j, k)
    ensures i == j
  {
  }

  lemma PersistentStep(slot: Option<Counter>, trips: seq<Trip>, k: nat, window: int)
    requires Paired(trips) && k < |trips|
    ensures
      Persistent(SlotAt(slot, trips, k + 1, window)) <==>
      Persistent(SlotAt(slot, trips, k, window)) || Straddles(slot, trips, k, window)
  {
    if trips[k].IncrAt? {
      var j := HasLatestSetNx(trips, k);
      IncrsKeepExpiry(slot, trips, j, k, window);
      forall i: nat | LatestSetNx(trips, i, k) { LatestSetNxIsUnique(trips, i, j, k); }
    }
  }

  /** SET NX EX is there so that "the TTL is always set before the first INCR". A
      counter that never expires is left exactly when some caller's INCR comes at or
      after the end of the window that the latest SET NX before it found or opened. */
  lemma {:induction false} PersistentIff(slot: Option<Counter>, trips: seq<Trip>, n: nat, window: int)
    requires Paired(trips) && n <= |trips|
    ensures
      Persistent(SlotAt(slot, trips, n, window)) <==>
      Persistent(slot) || exists k: nat | k < n :: Straddles(slot, trips, k, window)
    decreases n
  {
    if n > 0 {
      PersistentIff(slot, trips, n - 1, window);
      PersistentStep(slot, trips, n - 1, window);
    }
  }

  /** From then on the key accepts what is left of one limit, and nothing more, for
      ever. */
  lemma {:induction false} PersistentLocksOut(slot: Option<Counter>, trips: seq<Trip>, limit: nat, window: int,
                                              lo: int, hi: int)
    requires Persistent(slot)
    ensures
      AcceptedIn(slot, trips, limit, window, lo, hi)
      <= if slot.value.count <= limit then limit - slot.value.count else 0
    decreases |trips|
  {
    if trips != [] { PersistentLocksOut(After(slot, trips[0], window), trips[1..], limit, window, lo, hi); }
  }

  /** Two callers are enough: one opens a window, the other's round trips straddle
      its end. */
  lemma LapseCanHappen(window: int)
    requires 0 < window
    ensures
      var trips := [SetNxAt(0, 0), IncrAt(0, 0), SetNxAt(1, window - 1), IncrAt(1, window)];
      Paired(trips) && Ordered(trips, 0) && Persistent(SlotAt(None, trips, 4, window))
  {
    var trips := [SetNxAt(0, 0), IncrAt(0, 0), SetNxAt(1, window - 1), IncrAt(1, window)];
    assert trips[0].caller == trips[1].caller && trips[2].caller == trips[3].caller;
    assert SlotAt(None, trips, 1, window) == Some(Counter(0, Some(window)));
    assert SlotAt(None, trips, 2, window) == SlotAt(None, trips, 3, window) == Some(Counter(1, Some(window)));
  }

  /** A window may end between a caller's round trips and leave nothing behind: here
      another caller has opened the next window by then. */
  lemma StraddlingCanBeHarmless(window: int)
    requires 0 < window
    ensures
      var trips := [SetNxAt(0, 0), IncrAt(0, 0), SetNxAt(1, window - 1), SetNxAt(2, window), IncrAt(2, window),
                    IncrAt(1, window)];
      Paired(trips) && Ordered(trips, 0) && !Persistent(SlotAt(None, trips, 6, window))
  {
    var trips := [SetNxAt(0, 0), IncrAt(0, 0), SetNxAt(1, window - 1), SetNxAt(2, window), IncrAt(2, window),
                  IncrAt(1, window)];
    assert trips[0].caller == trips[1].caller && trips[2].caller == trips[5].caller
        && trips[3].caller == trips[4].caller;
    assert SlotAt(None, trips, 1, window) == Some(Counter(0, Some(window)));
    assert SlotAt(None, trips, 3, window) == SlotAt(None, trips, 2, window) == Some(Counter(1, Some(window)));
    assert SlotAt(None, trips, 4, window) == Some(Counter(0, Some(window + window)));
    assert SlotAt(None, trips, 5, window) == Some(Counter(1, Some(window + window)));
  }
}
