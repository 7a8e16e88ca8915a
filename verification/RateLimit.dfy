/** The token bucket per client (internal/server/middleware/ratelimit.go), over
    the reals with a clock in nanoseconds. */
module RateLimit {
  import opened Text
  import opened Durations

  datatype Bucket = Bucket(tokens: real, lastSeen: int)

  /** `rate` is tokens per nanosecond, `burst` the bucket size. */
  datatype Config = Config(rate: real, burst: real) {
    predicate Ok() {
      rate > 0.0 && burst >= 1.0
    }
  }

  /** Requests per minute, 120 by default, and by default as many at once. */
  function NewRateLimiter(ratePerMinute: int, burst: int): (c: Config)
    ensures c.Ok()
    ensures c.rate * (60 * SECOND) as real == if ratePerMinute > 0 then ratePerMinute as real else 120.0
    ensures burst > 0 ==> c.burst == burst as real
    ensures burst <= 0 ==> c.burst == c.rate * (60 * SECOND) as real
  {
    var perMinute := if ratePerMinute <= 0 then 120 else ratePerMinute;
    var size := if burst <= 0 then perMinute else burst;
    Config(perMinute as real / 60_000_000_000.0, size as real)
  }

  /** What the rate brings in n nanoseconds: n * rate, written as a sum. */
  function Gain(rate: real, n: nat): real {
    if n == 0 then 0.0 else Gain(rate, n - 1) + rate
  }

  lemma {:induction false} GainIsProduct(rate: real, n: nat)
    ensures Gain(rate, n) == n as real * rate
  {
    if n > 0 {
      GainIsProduct(rate, n - 1);
      assert (n - 1) as real * rate + rate == n as real * rate;
    }
  }

  lemma {:induction false} GainAdds(rate: real, m: nat, n: nat)
    requires rate > 0.0
    ensures Gain(rate, m + n) == Gain(rate, m) + Gain(rate, n) && Gain(rate, n) >= 0.0
    decreases n
  {
    if n > 0 { GainAdds(rate, m, n - 1); }
  }

  lemma GainGrows(rate: real, m: nat, n: nat)
    requires rate > 0.0 && m <= n
    ensures 0.0 <= Gain(rate, m) <= Gain(rate, n)
  {
  }

  /** What a bucket holds at a time: full when the client is unknown. */
  function Level(c: Config, b: Option<Bucket>, now: int): real {
    match b
    case None => c.burst
    case Some(Bucket(tokens, lastSeen)) =>
      if now <= lastSeen then tokens
      else if tokens + Gain(c.rate, now - lastSeen) < c.burst then tokens + Gain(c.rate, now - lastSeen)
      else c.burst
  }

  predicate Admits(c: Config, b: Option<Bucket>, now: int) {
    Level(c, b, now) >= 1.0
  }

  function Taken(c: Config, b: Option<Bucket>, now: int): Bucket {
    Bucket(if Admits(c, b, now) then Level(c, b, now) - 1.0 else Level(c, b, now), now)
  }

  /** The wait returned with a refusal, from the level it was refused at. */
  function Wait(c: Config, level: real): int
    requires c.Ok()
  {
    RoundToSecond(((1.0 - level) / c.rate).Floor + SECOND)
  }

  datatype Event = Request(key: string, at: int) | Cleanup(idle: int, at: int)

  /** A history of events, latest outermost. */
  datatype History = Nothing | Then(before: History, event: Event)

  predicate InOrder(h: History) {
    h.Then? ==> InOrder(h.before) && (h.before.Then? ==> h.before.event.at <= h.event.at)
  }

  predicate EndsBy(h: History, t: int) {
    h.Then? ==> h.event.at <= t
  }

  predicate Idle(b: Option<Bucket>, idle: int, now: int) {
    b.Some? && b.value.lastSeen < now - idle
  }

  /** One client's bucket after a history; without `sweep` cleanups do nothing. */
  function BucketOf(c: Config, h: History, key: string, sweep: bool): Option<Bucket> {
    match h
    case Nothing => None
    case Then(before, Request(k, at)) =>
      var b := BucketOf(c, before, key, sweep);
      if k == key then Some(Taken(c, b, at)) else b
    case Then(before, Cleanup(idle, at)) =>
      var b := BucketOf(c, before, key, sweep);
      if sweep && Idle(b, idle, at) then None else b
  }

  /** How many of the client's requests in [s, t] were admitted. */
  function Admitted(c: Config, h: History, key: string, s: int, t: int, sweep: bool): nat {
    match h
    case Nothing => 0
    case Then(before, e) =>
      Admitted(c, before, key, s, t, sweep)
      + if e.Request? && e.key == key && s <= e.at <= t && Admits(c, BucketOf(c, before, key, sweep), e.at)
        then 1 else 0
  }

  /** A cleanup is patient when a bucket idle that long is full again. */
  predicate Patient(c: Config, idle: int) {
    idle >= 0 && Gain(c.rate, idle + 1) >= c.burst
  }

  predicate AllPatient(c: Config, h: History) {
    h.Then? ==> AllPatient(c, h.before) && (h.event.Cleanup? ==> Patient(c, h.event.idle))
  }

  /** What holds of every bucket at every time. */
  predicate Sane(c: Config, b: Option<Bucket>, now: int) {
    b.Some? ==> 0.0 <= b.value.tokens <= c.burst && b.value.lastSeen <= now
  }

  lemma {:induction false} BucketIsSane(c: Config, h: History, key: string, sweep: bool, now: int)
    requires c.Ok() && InOrder(h) && EndsBy(h, now)
    ensures Sane(c, BucketOf(c, h, key, sweep), now)
  {
    if h.Then? {
      BucketIsSane(c, h.before, key, sweep, h.event.at);
      LevelInRange(c, BucketOf(c, h.before, key, sweep), h.event.at);
    }
  }

  lemma LevelInRange(c: Config, b: Option<Bucket>, now: int)
    requires c.Ok() && Sane(c, b, now)
    ensures 0.0 <= Level(c, b, now) <= c.burst
  {
    if b.Some? { GainGrows(c.rate, 0, now - b.value.lastSeen); }
  }

  /** Between two times a bucket gains at most what the rate allows. */
  lemma LevelGains(c: Config, b: Option<Bucket>, t: int, u: int)
    requires c.Ok() && Sane(c, b, t) && t <= u
    ensures Level(c, b, u) <= Level(c, b, t) + Gain(c.rate, u - t)
  {
    GainGrows(c.rate, 0, u - t);
    if b.Some? { GainAdds(c.rate, t - b.value.lastSeen, u - t); }
  }

  /** A patient cleanup drops full buckets only. */
  lemma IdleIsFull(c: Config, b: Option<Bucket>, idle: int, t: int, now: int)
    requires c.Ok() && Patient(c, idle) && Sane(c, b, t) && Idle(b, idle, t) && t <= now
    ensures Level(c, b, now) == c.burst
  {
    GainGrows(c.rate, idle + 1, now - b.value.lastSeen);
  }

  /** The accounting behind the bound: what was admitted since s and what is left
      never exceed a full bucket plus the refill since s. */
  lemma {:induction false} Accounting(c: Config, h: History, key: string, s: int, now: int)
    requires c.Ok() && InOrder(h) && AllPatient(c, h) && EndsBy(h, now) && s <= now
    ensures Admitted(c, h, key, s, now, true) as real + Level(c, BucketOf(c, h, key, true), now)
         <= c.burst + Gain(c.rate, now - s)
  {
    BucketIsSane(c, h, key, true, now);
    var b := BucketOf(c, h, key, true);
    LevelInRange(c, b, now);
    GainGrows(c.rate, 0, now - s);
    if h.Then? && s <= h.event.at {
      var e, prior := h.event, BucketOf(c, h.before, key, true);
      Accounting(c, h.before, key, s, e.at);
      AdmittedEarly(c, h.before, key, s, e.at, now);
      BucketIsSane(c, h.before, key, true, e.at);
      LevelInRange(c, prior, e.at);
      if e.Cleanup? && Idle(prior, e.idle, e.at) { IdleIsFull(c, prior, e.idle, e.at, e.at); }
      BucketIsSane(c, h, key, true, e.at);
      LevelGains(c, b, e.at, now);
      GainAdds(c.rate, e.at - s, now - e.at);
    } else if h.Then? {
      NoneAdmitted(c, h, key, s, now);
    }
  }

  lemma {:induction false} AdmittedEarly(c: Config, h: History, key: string, s: int, t: int, u: int)
    requires InOrder(h) && EndsBy(h, t) && t <= u
    ensures Admitted(c, h, key, s, t, true) == Admitted(c, h, key, s, u, true)
  {
    if h.Then? { AdmittedEarly(c, h.before, key, s, t, u); }
  }

  lemma {:induction false} NoneAdmitted(c: Config, h: History, key: string, s: int, t: int)
    requires InOrder(h) && EndsBy(h, s - 1)
    ensures Admitted(c, h, key, s, t, true) == 0
  {
    if h.Then? { NoneAdmitted(c, h.before, key, s, t); }
  }

  lemma {:induction false} BoundBySum(c: Config, h: History, key: string, s: int, t: int)
    requires c.Ok() && InOrder(h) && AllPatient(c, h) && s <= t
    ensures Admitted(c, h, key, s, t, true) as real <= c.burst + Gain(c.rate, t - s)
  {
    if EndsBy(h, t) {
      Accounting(c, h, key, s, t);
      BucketIsSane(c, h, key, true, t);
      LevelInRange(c, BucketOf(c, h, key, true), t);
    } else {
      BoundBySum(c, h.before, key, s, t);
    }
  }

  /** The rate bound: per client, the requests admitted from s to t never exceed
      the burst plus what the rate refills in that time. */
  lemma RateBound(c: Config, h: History, key: string, s: int, t: int)
    requires c.Ok() && InOrder(h) && AllPatient(c, h) && s <= t
    ensures Admitted(c, h, key, s, t, true) as real <= c.burst + (t - s) as real * c.rate
  {
    BoundBySum(c, h, key, s, t);
    GainIsProduct(c.rate, t - s);
  }

  /** Rounding never shortens the wait below what the refill takes, nor makes it longer
      by more than a second and a half. */
  lemma WaitIsEnough(c: Config, level: real)
    requires c.Ok() && 0.0 <= level < 1.0
    ensures Wait(c, level) as real <= (1.0 - level) / c.rate + (SECOND + SECOND / 2) as real
    ensures Wait(c, level) >= 0 && Wait(c, level) % SECOND == 0
    ensures level + Gain(c.rate, Wait(c, level)) >= 1.0
  {
    var x := (1.0 - level) / c.rate;
    Quotient(1.0 - level, c.rate);
    var w := RoundToSecond(x.Floor + SECOND);
    RoundsToSeconds(x.Floor + SECOND);
    GainIsProduct(c.rate, w);
    Covers(x, w as real, c.rate);
  }

  lemma Quotient(a: real, r: real)
    requires a >= 0.0 && r > 0.0
    ensures a / r * r == a && a / r >= 0.0
  {
  }

  lemma Covers(x: real, w: real, r: real)
    requires 0.0 <= x <= w && r > 0.0
    ensures x * r <= w * r
  {
  }

  /** Cleanups in between do not lower what a client finds, patient or not. */
  lemma {:induction false} LevelAfterRest(c: Config, h: History, rest: History, key: string, now: int)
    requires c.Ok() && InOrder(rest) && EndsBy(rest, now)
    requires Extends(rest, h, key)
    ensures Level(c, BucketOf(c, rest, key, true), now) >= Level(c, BucketOf(c, h, key, true), now)
  {
    if rest != h {
      LevelAfterRest(c, h, rest.before, key, now);
      BucketIsSane(c, rest.before, key, true, now);
      LevelInRange(c, BucketOf(c, rest.before, key, true), now);
    }
  }

  /** `rest` goes on from `h` without a request of the client. */
  predicate Extends(rest: History, h: History, key: string) {
    rest == h ||
    (rest.Then? && Extends(rest.before, h, key) && (rest.event.Request? ==> rest.event.key != key))
  }

  /** A client that waits as long as it was told, however others fare meanwhile,
      gets its next request through. */
  lemma WaitingWorks(c: Config, h: History, key: string, at: int, rest: History, later: int)
    requires c.Ok() && InOrder(rest) && EndsBy(rest, later)
    requires InOrder(h) && EndsBy(h, at) && !Admits(c, BucketOf(c, h, key, true), at)
    requires Extends(rest, Then(h, Request(key, at)), key)
    ensures later >= at + Wait(c, Level(c, BucketOf(c, h, key, true), at)) ==>
              Admits(c, BucketOf(c, rest, key, true), later)
  {
    var level := Level(c, BucketOf(c, h, key, true), at);
    BucketIsSane(c, h, key, true, at);
    LevelInRange(c, BucketOf(c, h, key, true), at);
    WaitIsEnough(c, level);
    LevelAfterRest(c, Then(h, Request(key, at)), rest, key, later);
    if later >= at + Wait(c, level) { GainGrows(c.rate, Wait(c, level), later - at); }
  }

  // Cleaning up.

  /** Two views of a client's bucket that answer alike from now on. */
  predicate Alike(c: Config, a: Option<Bucket>, b: Option<Bucket>, now: int) {
    a == b || (a.None? && Level(c, b, now) == c.burst)
  }

  lemma LevelStaysFull(c: Config, b: Option<Bucket>, t: int, u: int)
    requires c.Ok() && Sane(c, b, t) && t <= u && Level(c, b, t) == c.burst
    ensures Level(c, b, u) == c.burst
  {
    if b.Some? { GainGrows(c.rate, t - b.value.lastSeen, u - b.value.lastSeen); }
  }

  /** Patient cleanups are invisible: every request of a history is answered as if
      they had not happened. */
  lemma {:induction false} CleanupIsInvisible(c: Config, h: History, key: string, now: int)
    requires c.Ok() && InOrder(h) && AllPatient(c, h) && EndsBy(h, now)
    ensures Alike(c, BucketOf(c, h, key, true), BucketOf(c, h, key, false), now)
    ensures Level(c, BucketOf(c, h, key, true), now) == Level(c, BucketOf(c, h, key, false), now)
  {
    if h.Then? {
      var e := h.event;
      CleanupIsInvisible(c, h.before, key, e.at);
      var full := BucketOf(c, h.before, key, false);
      BucketIsSane(c, h.before, key, false, e.at);
      BucketIsSane(c, h.before, key, true, e.at);
      if Level(c, full, e.at) == c.burst { LevelStaysFull(c, full, e.at, now); }
      if e.Cleanup? && Idle(BucketOf(c, h.before, key, true), e.idle, e.at) {
        IdleIsFull(c, full, e.idle, e.at, now);
      }
    }
  }

  function Volley(h: History, key: string, t: int, n: nat): History {
    if n == 0 then h else Then(Volley(h, key, t, n - 1), Request(key, t))
  }

  /** A full bucket serves exactly its burst at once. */
  lemma {:induction false} VolleyDrains(c: Config, h: History, key: string, t: int, n: nat, sweep: bool)
    requires c.Ok() && InOrder(h) && EndsBy(h, t) && Level(c, BucketOf(c, h, key, sweep), t) == c.burst
    requires n as real <= c.burst
    ensures InOrder(Volley(h, key, t, n)) && EndsBy(Volley(h, key, t, n), t)
    ensures Level(c, BucketOf(c, Volley(h, key, t, n), key, sweep), t) == c.burst - n as real
    ensures n > 0 ==> BucketOf(c, Volley(h, key, t, n), key, sweep) == Some(Bucket(c.burst - n as real, t))
    decreases n
  {
    if n > 0 { VolleyDrains(c, h, key, t, n - 1, sweep); }
  }

  /** A bucket short of n tokens refuses the n-th request of a volley. */
  lemma {:induction false} VolleyRefused(c: Config, h: History, key: string, t: int, n: nat, total: nat, sweep: bool)
    requires c.Ok() && Level(c, BucketOf(c, h, key, sweep), t) < total as real && n < total
    ensures var level := Level(c, BucketOf(c, Volley(h, key, t, n), key, sweep), t);
            level < 1.0 || level < (total - n) as real
    decreases n
  {
    if n > 0 { VolleyRefused(c, h, key, t, n - 1, total, sweep); }
  }

  /** And all of it is admitted. */
  lemma {:induction false} VolleyAdmitted(c: Config, h: History, key: string, at: int, n: nat, s: int, t: int,
                                          sweep: bool)
    requires c.Ok() && InOrder(h) && EndsBy(h, at) && Level(c, BucketOf(c, h, key, sweep), at) == c.burst
    requires n as real <= c.burst && s <= at <= t
    ensures Admitted(c, Volley(h, key, at, n), key, s, t, sweep) == Admitted(c, h, key, s, t, sweep) + n
    decreases n
  {
    if n > 0 {
      VolleyAdmitted(c, h, key, at, n - 1, s, t, sweep);
      VolleyDrains(c, h, key, at, n - 1, sweep);
    }
  }

  /** A client that used up its burst, and a cleanup that drops its bucket too early. */
  lemma DroppedEarly(c: Config, size: nat, idle: int, key: string) returns (h: History, now: nat)
    requires c.Ok() && c.burst == size as real && !Patient(c, idle)
    ensures InOrder(h) && EndsBy(h, now) && BucketOf(c, h, key, true) == None
    ensures Level(c, BucketOf(c, h, key, false), now) < c.burst && Gain(c.rate, now) < c.burst
    ensures Admitted(c, h, key, 0, now, true) == size
  {
    now := if idle >= 0 then idle + 1 else 0;
    var drained := Volley(Nothing, key, 0, size);
    VolleyDrains(c, Nothing, key, 0, size, true);
    VolleyDrains(c, Nothing, key, 0, size, false);
    VolleyAdmitted(c, Nothing, key, 0, size, 0, now, true);
    h := Then(drained, Cleanup(idle, now));
  }

  /** A cleanup that is not patient shows: some history is answered differently. */
  lemma ImpatientCleanupShows(c: Config, size: nat, idle: int, key: string) returns (h: History, now: int)
    requires c.Ok() && c.burst == size as real && !Patient(c, idle)
    ensures InOrder(h) && EndsBy(h, now)
    ensures Admits(c, BucketOf(c, h, key, true), now) && !Admits(c, BucketOf(c, h, key, false), now)
  {
    var cleaned;
    cleaned, now := DroppedEarly(c, size, idle, key);
    h := Volley(cleaned, key, now, size - 1);
    VolleyDrains(c, cleaned, key, now, size - 1, true);
    VolleyRefused(c, cleaned, key, now, size - 1, size, false);
  }

  lemma BurstTwice(c: Config, size: nat, idle: int, key: string) returns (h: History, now: nat)
    requires c.Ok() && c.burst == size as real && !Patient(c, idle)
    ensures InOrder(h) && EndsBy(h, now) && Gain(c.rate, now) < c.burst
    ensures Admitted(c, h, key, 0, now, true) == size + size
  {
    var cleaned;
    cleaned, now := DroppedEarly(c, size, idle, key);
    h := Volley(cleaned, key, now, size);
    VolleyDrains(c, cleaned, key, now, size, true);
    VolleyAdmitted(c, cleaned, key, now, size, 0, now, true);
  }

  /** And it breaks the rate bound: a client gets its burst twice in a time that does
      not refill it once. */
  lemma ImpatientCleanupBreaksBound(c: Config, size: nat, idle: int, key: string) returns (h: History, now: nat)
    requires c.Ok() && c.burst == size as real && !Patient(c, idle)
    ensures InOrder(h) && EndsBy(h, now)
    ensures Admitted(c, h, key, 0, now, true) as real > c.burst + now as real * c.rate
  {
    h, now := BurstTwice(c, size, idle, key);
    GainIsProduct(c.rate, now);
    assert (size + size) as real == c.burst + c.burst;
  }

  function Get(buckets: map<string, Bucket>, key: string): Option<Bucket> {
    if key in buckets then Some(buckets[key]) else None
  }

  /** The limiter over its map of buckets. */
  class RateLimiter {
    const c: Config
    var buckets: map<string, Bucket>

    constructor (ratePerMinute: int, burst: int)
      ensures c == NewRateLimiter(ratePerMinute, burst) && buckets == map[]
    {
      c, buckets := NewRateLimiter(ratePerMinute, burst), map[];
    }

    method Allow(key: string, now: int) returns (allowed: bool, wait: int)
      requires c.Ok()
      modifies this
      ensures allowed == Admits(c, Get(old(buckets), key), now)
      ensures buckets == old(buckets)[key := Taken(c, Get(old(buckets), key), now)]
      ensures wait == if allowed then 0 else Wait(c, Level(c, Get(old(buckets), key), now))
    {
      var b := if key in buckets then buckets[key] else Bucket(c.burst, now);
      var elapsed := now - b.lastSeen;
      if elapsed > 0 {
        GainIsProduct(c.rate, elapsed);
        var refilled := b.tokens + elapsed as real * c.rate;
        b := b.(tokens := if refilled < c.burst then refilled else c.burst);
      }
      b := b.(lastSeen := now);
      if b.tokens >= 1.0 {
        b := b.(tokens := b.tokens - 1.0);
        buckets := buckets[key := b];
        return true, 0;
      }
      buckets := buckets[key := b];
      allowed, wait := false, RoundToSecond(((1.0 - b.tokens) / c.rate).Floor + SECOND);
    }

    method Cleanup(idle: int, now: int)
      modifies this
      ensures forall key :: Get(buckets, key) ==
                if Idle(Get(old(buckets), key), idle, now) then None else Get(old(buckets), key)
    {
      ghost var before := buckets;
      var todo := buckets.Keys;
      while todo != {}
        invariant todo <= before.Keys
        invariant forall key | key in buckets :: key in before && buckets[key] == before[key]
        invariant forall key | key in before ::
            key in buckets <==> key in todo || !Idle(Some(before[key]), idle, now)
        decreases todo
      {
        var key :| key in todo;
        todo := todo - {key};
        if buckets[key].lastSeen < now - idle { buckets := buckets - {key}; }
      }
    }
  }
}
