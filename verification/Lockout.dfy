/** The brute-force limiter (internal/auth/bruteforce.go) over the log of login
    attempts (internal/store/logins.go). Times are integers in nanoseconds, and
    logins are taken one at a time: the source reads and writes the log in
    separate statements. */
module Lockout {
  import opened Text
  import opened Durations

  datatype Attempt = Attempt(ip: string, success: bool, at: int)

  /** The attempt table, latest row outermost. */
  datatype Log = Empty | Row(rest: Log, attempt: Attempt)

  datatype Config = Config(maxFailures: int, window: int, lockout: int) {
    /** What NewLimiter guarantees, whatever it is given. */
    predicate Ok() {
      maxFailures > 0 && window > 0 && lockout > 0
    }
  }

  datatype LockStatus = LockStatus(locked: bool, retryAfter: int, failures: int, remaining: int)

  /** Zero fields take the defaults: ten failures, a quarter of an hour. */
  function NewLimiter(maxFailures: int, window: int, lockout: int): (c: Config)
    ensures c.Ok()
    ensures maxFailures > 0 ==> c.maxFailures == maxFailures
    ensures window > 0 ==> c.window == window
    ensures lockout > 0 ==> c.lockout == lockout
    ensures maxFailures <= 0 && window <= 0 && lockout <= 0 ==> c == Config(10, 900 * SECOND, 900 * SECOND)
  {
    Config(if maxFailures <= 0 then 10 else maxFailures,
           if window <= 0 then 15 * 60 * SECOND else window,
           if lockout <= 0 then 15 * 60 * SECOND else lockout)
  }

  predicate In(log: Log, a: Attempt) {
    log.Row? && (a == log.attempt || In(log.rest, a))
  }

  /** SELECT MAX(created_at) over one IP's successes since a time. */
  function LastSuccess(log: Log, ip: string, since: int): Option<int> {
    match log
    case Empty => None
    case Row(rest, a) =>
      var before := LastSuccess(rest, ip, since);
      if a.ip == ip && a.success && a.at >= since && (before.None? || a.at >= before.value) then Some(a.at) else before
  }

  /** SELECT COUNT(*) over one IP's failures after a time and up to another. */
  function Count(log: Log, ip: string, after: int, upTo: Option<int>): nat {
    match log
    case Empty => 0
    case Row(rest, a) =>
      Count(rest, ip, after, upTo)
      + if a.ip == ip && !a.success && a.at > after && (upTo.None? || a.at <= upTo.value) then 1 else 0
  }

  /** Where counting starts: the window's edge, or the last success inside it. */
  function From(log: Log, ip: string, since: int): int {
    var s := LastSuccess(log, ip, since);
    if s.Some? && s.value > since then s.value else since
  }

  function FailuresSince(log: Log, ip: string, since: int): nat {
    Count(log, ip, From(log, ip, since), None)
  }

  /** The most recent failure of all, as LastFailureAt reads it. */
  function LastFailure(log: Log, ip: string): Option<int> {
    match log
    case Empty => None
    case Row(rest, a) =>
      var before := LastFailure(rest, ip);
      if a.ip == ip && !a.success && (before.None? || a.at >= before.value) then Some(a.at) else before
  }

  function Status(c: Config, log: Log, ip: string, now: int): LockStatus {
    var failures := FailuresSince(log, ip, now - c.window);
    var remaining := if c.maxFailures < failures then 0 else c.maxFailures - failures;
    var last := LastFailure(log, ip);
    if failures >= c.maxFailures && last.Some? && now < last.value + c.lockout then
      LockStatus(true, RoundToSecond(last.value + c.lockout - now), failures, remaining)
    else LockStatus(false, 0, failures, remaining)
  }

  lemma {:induction false} LastSuccessIs(log: Log, ip: string, since: int)
    ensures var s := LastSuccess(log, ip, since);
            && (s.Some? ==> s.value >= since && In(log, Attempt(ip, true, s.value)))
            && (forall a | In(log, a) && a.ip == ip && a.success && a.at >= since :: s.Some? && a.at <= s.value)
  {
    if log.Row? { LastSuccessIs(log.rest, ip, since); }
  }

  lemma {:induction false} LastFailureIs(log: Log, ip: string)
    ensures var s := LastFailure(log, ip);
            && (s.Some? ==> In(log, Attempt(ip, false, s.value)))
            && (forall a | In(log, a) && a.ip == ip && !a.success :: s.Some? && a.at <= s.value)
  {
    if log.Row? { LastFailureIs(log.rest, ip); }
  }

  /** Counting from later, or up to sooner, never counts more. */
  lemma {:induction false} CountShrinks(log: Log, ip: string, a: int, b: int, upTo: Option<int>)
    requires a <= b
    ensures Count(log, ip, b, upTo) <= Count(log, ip, a, None)
  {
    if log.Row? { CountShrinks(log.rest, ip, a, b, upTo); }
  }

  /** What is counted is no later than the last failure. */
  lemma {:induction false} CountedIsPast(log: Log, ip: string, after: int)
    requires Count(log, ip, after, None) > 0
    ensures LastFailure(log, ip).Some? && LastFailure(log, ip).value > after
  {
    var a := log.attempt;
    if !(a.ip == ip && !a.success && a.at > after) { CountedIsPast(log.rest, ip, after); }
  }

  /** With a lockout no shorter than the window, an address is locked exactly
      while its counted failures reach the limit. */
  lemma LockedIffFull(c: Config, log: Log, ip: string, now: int)
    requires c.Ok() && c.lockout >= c.window
    ensures Status(c, log, ip, now).locked <==> FailuresSince(log, ip, now - c.window) >= c.maxFailures
  {
    var from := From(log, ip, now - c.window);
    if Count(log, ip, from, None) > 0 { CountedIsPast(log, ip, from); }
  }

  // What counts and what does not.

  /** The address logged in within the window, and not before this failure. */
  ghost predicate Forgiven(log: Log, ip: string, since: int, at: int) {
    exists s | In(log, s) :: s.ip == ip && s.success && s.at >= since && s.at >= at
  }

  /** The failures of an address within the window that no later success forgives. */
  ghost function Open(log: Log, rows: Log, ip: string, since: int): nat {
    match rows
    case Empty => 0
    case Row(rest, a) =>
      Open(log, rest, ip, since)
      + if a.ip == ip && !a.success && a.at > since && !Forgiven(log, ip, since, a.at) then 1 else 0
  }

  lemma {:induction false} CountIsOpen(log: Log, rows: Log, ip: string, since: int)
    ensures Count(rows, ip, From(log, ip, since), None) == Open(log, rows, ip, since)
    decreases rows
  {
    if rows.Row? {
      CountIsOpen(log, rows.rest, ip, since);
      LastSuccessIs(log, ip, since);
      var s := LastSuccess(log, ip, since);
      if s.Some? && rows.attempt.at <= s.value {
        assert In(log, Attempt(ip, true, s.value));
      }
    }
  }

  /** What the limiter answers. An address is locked exactly when its open failures reach
      the limit and the lockout since some failure of its has not passed. The wait it is
      told is right to half a second. */
  lemma StatusMeans(c: Config, log: Log, ip: string, now: int)
    requires c.Ok()
    ensures var s := Status(c, log, ip, now);
            && s.failures == Open(log, log, ip, now - c.window)
            && (s.locked <==>
                  && s.failures >= c.maxFailures
                  && exists a | In(log, a) :: a.ip == ip && !a.success && now < a.at + c.lockout)
            && (s.failures + s.remaining == c.maxFailures || (s.failures > c.maxFailures && s.remaining == 0))
            && s.remaining >= 0
            && (!s.locked ==> s.retryAfter == 0)
            && (s.locked ==> s.retryAfter % SECOND == 0)
  {
    CountIsOpen(log, log, ip, now - c.window);
    LastFailureIs(log, ip);
    var last := LastFailure(log, ip);
    if last.Some? { RoundsToSeconds(last.value + c.lockout - now); }
  }

  /** Whoever waits that long and half a second more, and does not fail meanwhile, is let
      in again; half a second sooner the lockout has not passed. */
  lemma WaitUnlocks(c: Config, log: Log, ip: string, now: int, later: int)
    requires c.Ok() && Status(c, log, ip, now).locked
    ensures later >= now + Status(c, log, ip, now).retryAfter + SECOND / 2 ==> !Status(c, log, ip, later).locked
    ensures later < now + Status(c, log, ip, now).retryAfter - SECOND / 2 ==>
              exists a | In(log, a) :: a.ip == ip && !a.success && later < a.at + c.lockout
  {
    LastFailureIs(log, ip);
    var last := LastFailure(log, ip).value;
    RoundsToSeconds(last + c.lockout - now);
    assert In(log, Attempt(ip, false, last));
  }

  lemma {:induction false} NoneLater(log: Log, ip: string, after: int)
    requires forall a | In(log, a) :: a.at <= after
    ensures Count(log, ip, after, None) == 0
  {
    if log.Row? {
      assert In(log, log.attempt);
      NoneLater(log.rest, ip, after);
    }
  }

  /** A success clears the address: nothing counts until it fails again. */
  lemma SuccessClears(c: Config, log: Log, ip: string, at: int, now: int)
    requires c.Ok() && (forall a | In(log, a) :: a.at <= at)
    ensures var s := Status(c, Row(log, Attempt(ip, true, at)), ip, now);
            s == LockStatus(false, 0, 0, c.maxFailures)
  {
    var cleared, since := Row(log, Attempt(ip, true, at)), now - c.window;
    LastSuccessIs(cleared, ip, since);
    assert In(cleared, Attempt(ip, true, at));
    assert From(cleared, ip, since) >= at;
    NoneLater(cleared, ip, From(cleared, ip, since));
  }

  // Runs of logins, one at a time.

  datatype Outcome = Fails | Succeeds | Breaks

  /** A login checks the log at one time and records at a later one; a locked
      login, or one that breaks before the end, records nothing. */
  datatype Event =
    | Login(ip: string, checkAt: int, recordAt: int, outcome: Outcome)
    | Prune(now: int)
  {
    function Begins(): int {
      if Login? then checkAt else now
    }
    function Ends(): int {
      if Login? then recordAt else now
    }
  }

  /** A history of events, latest outermost. */
  datatype History = Nothing | Then(before: History, event: Event)

  /** The clock never goes back. */
  predicate InOrder(h: History) {
    h.Then? ==>
      && InOrder(h.before) && h.event.Begins() <= h.event.Ends()
      && (h.before.Then? ==> h.before.event.Ends() <= h.event.Begins())
  }

  /** DELETE of the rows older than the cutoff. */
  function Recent(log: Log, cutoff: int): Log {
    match log
    case Empty => Empty
    case Row(rest, a) => if a.at >= cutoff then Row(Recent(rest, cutoff), a) else Recent(rest, cutoff)
  }

  function Record(log: Log, e: Event): Log
    requires e.Login?
  {
    match e.outcome
    case Fails => Row(log, Attempt(e.ip, false, e.recordAt))
    case Succeeds => Row(log, Attempt(e.ip, true, e.recordAt))
    case Breaks => log
  }

  /** The log after a history; without `sweep` the prunes do nothing. */
  function LogOf(c: Config, h: History, sweep: bool): Log {
    match h
    case Nothing => Empty
    case Then(before, e) => After(c, LogOf(c, before, sweep), e, sweep)
  }

  function After(c: Config, log: Log, e: Event, sweep: bool): Log {
    match e
    case Login(ip, checkAt, _, _) => if Status(c, log, ip, checkAt).locked then log else Record(log, e)
    case Prune(now) => if sweep then Recent(log, now - (c.window + c.lockout)) else log
  }

  /** What the limiter answers to the logins of a history. */
  function Answers(c: Config, h: History, sweep: bool): seq<LockStatus> {
    match h
    case Nothing => []
    case Then(before, e) =>
      Answers(c, before, sweep)
      + if e.Login? then [Status(c, LogOf(c, before, sweep), e.ip, e.checkAt)] else []
  }

  ghost predicate NoSuccessIn(log: Log, ip: string, a: int, b: int) {
    log.Row? ==>
      && NoSuccessIn(log.rest, ip, a, b)
      && (log.attempt.ip == ip && log.attempt.success ==> !(a < log.attempt.at <= b))
  }

  lemma {:induction false} NoSuccessInAll(log: Log, ip: string, a: int, b: int, x: Attempt)
    requires NoSuccessIn(log, ip, a, b) && In(log, x) && x.ip == ip && x.success
    ensures !(a < x.at <= b)
  {
    if x != log.attempt { NoSuccessInAll(log.rest, ip, a, b, x); }
  }

  /** Every row is no later than t. */
  predicate Past(log: Log, t: int) {
    log.Row? ==> log.attempt.at <= t && Past(log.rest, t)
  }

  lemma {:induction false} PastIn(log: Log, t: int, x: Attempt)
    requires Past(log, t) && In(log, x)
    ensures x.at <= t
  {
    if x != log.attempt { PastIn(log.rest, t, x); }
  }

  lemma {:induction false} LogIsPast(c: Config, h: History, t: int)
    requires InOrder(h) && (h.Then? ==> h.event.Ends() <= t)
    ensures Past(LogOf(c, h, false), t)
  {
    if h.Then? { LogIsPast(c, h.before, t); }
  }

  /** Before an unlocked login records a failure at r, any window-long interval
      around r without a success holds fewer failures than the limit. */
  lemma RoomForOne(c: Config, log: Log, ip: string, checkAt: int, r: int, a: int)
    requires c.Ok() && c.lockout >= c.window && checkAt <= r && a < r <= a + c.window
    requires !Status(c, log, ip, checkAt).locked && Past(log, checkAt)
    requires NoSuccessIn(log, ip, a, a + c.window)
    ensures Count(log, ip, a, Some(a + c.window)) < c.maxFailures
  {
    LockedIffFull(c, log, ip, checkAt);
    var since := checkAt - c.window;
    LastSuccessIs(log, ip, since);
    var s := LastSuccess(log, ip, since);
    if s.Some? {
      PastIn(log, checkAt, Attempt(ip, true, s.value));
      NoSuccessInAll(log, ip, a, a + c.window, Attempt(ip, true, s.value));
    }
    CountShrinks(log, ip, From(log, ip, since), a, Some(a + c.window));
  }

  /** The lockout bound. With a lockout no shorter than the window, any interval
      of one window's length that is open at its start and holds no success of an
      address holds at most `maxFailures` of its recorded failures. */
  lemma {:induction false} LockoutBound(c: Config, h: History, ip: string, a: int)
    requires c.Ok() && c.lockout >= c.window && InOrder(h)
    requires NoSuccessIn(LogOf(c, h, false), ip, a, a + c.window)
    ensures Count(LogOf(c, h, false), ip, a, Some(a + c.window)) <= c.maxFailures
  {
    if h.Then? {
      var log, e := LogOf(c, h.before, false), h.event;
      LockoutBound(c, h.before, ip, a);
      if e.Login? && e.outcome == Fails && e.ip == ip && a < e.recordAt <= a + c.window {
        LogIsPast(c, h.before, e.checkAt);
        if !Status(c, log, ip, e.checkAt).locked { RoomForOne(c, log, ip, e.checkAt, e.recordAt, a); }
      }
    }
  }

  // What the bound depends on.

  function Volley(h: History, ip: string, t: int, n: nat): History {
    if n == 0 then h else Then(Volley(h, ip, t, n - 1), Login(ip, t, t, Fails))
  }

  function Failures(log: Log, ip: string, t: int, n: nat): Log {
    if n == 0 then log else Row(Failures(log, ip, t, n - 1), Attempt(ip, false, t))
  }

  predicate OnlyFailures(log: Log) {
    log.Row? ==> !log.attempt.success && OnlyFailures(log.rest)
  }

  lemma {:induction false} NoSuccessNoReset(log: Log, ip: string, since: int, a: int, b: int)
    requires OnlyFailures(log)
    ensures LastSuccess(log, ip, since) == None && NoSuccessIn(log, ip, a, b)
  {
    if log.Row? { NoSuccessNoReset(log.rest, ip, since, a, b); }
  }

  lemma {:induction false} CountAdds(log: Log, ip: string, t: int, n: nat, after: int, upTo: Option<int>)
    ensures Count(Failures(log, ip, t, n), ip, after, upTo)
         == Count(log, ip, after, upTo) + if after < t && (upTo.None? || t <= upTo.value) then n else 0
    ensures OnlyFailures(log) ==> OnlyFailures(Failures(log, ip, t, n))
    decreases n
  {
    if n > 0 { CountAdds(log, ip, t, n - 1, after, upTo); }
  }

  /** Up to the limit, failures at one instant all get recorded. */
  lemma {:induction false} VolleyLands(c: Config, h: History, ip: string, t: int, n: nat)
    requires c.Ok() && n <= c.maxFailures && InOrder(h) && (h.Then? ==> h.event.Ends() <= t)
    requires OnlyFailures(LogOf(c, h, false)) && Count(LogOf(c, h, false), ip, t - c.window, None) == 0
    ensures LogOf(c, Volley(h, ip, t, n), false) == Failures(LogOf(c, h, false), ip, t, n)
    ensures InOrder(Volley(h, ip, t, n)) && (n > 0 ==> Volley(h, ip, t, n).event.Ends() == t)
    decreases n
  {
    if n > 0 {
      VolleyLands(c, h, ip, t, n - 1);
      var before := LogOf(c, Volley(h, ip, t, n - 1), false);
      CountAdds(LogOf(c, h, false), ip, t, n - 1, t - c.window, None);
      NoSuccessNoReset(before, ip, t - c.window, 0, 0);
    }
  }

  /** With a shorter lockout the bound fails, for every such configuration. */
  lemma ShortLockoutBreaksBound(c: Config, ip: string) returns (h: History, a: int)
    requires c.Ok() && c.lockout < c.window
    ensures InOrder(h) && NoSuccessIn(LogOf(c, h, false), ip, a, a + c.window)
    ensures Count(LogOf(c, h, false), ip, a, Some(a + c.window)) == c.maxFailures + 1
  {
    var n := c.maxFailures;
    h, a := Then(Volley(Nothing, ip, 0, n), Login(ip, c.lockout, c.lockout, Fails)), c.lockout - c.window;
    VolleyLands(c, Nothing, ip, 0, n);
    var log := Failures(Empty, ip, 0, n);
    LastOfVolley(ip, 0, n);
    CountAdds(Empty, ip, 0, n, a, Some(a + c.window));
    NoSuccessNoReset(log, ip, a, a, a + c.window);
  }

  lemma {:induction false} LastOfVolley(ip: string, t: int, n: nat)
    ensures LastFailure(Failures(Empty, ip, t, n), ip) == if n == 0 then None else Some(t)
  {
    if n > 0 { LastOfVolley(ip, t, n - 1); }
  }

  /** And an interval closed at both ends holds up to twice as many. */
  lemma ClosedIntervalHoldsTwice(c: Config, ip: string) returns (h: History)
    requires c.Ok()
    ensures InOrder(h) && OnlyFailures(LogOf(c, h, false))
    ensures Count(LogOf(c, h, false), ip, -1, Some(c.window)) == 2 * c.maxFailures
  {
    var n := c.maxFailures;
    var first := Volley(Nothing, ip, 0, n);
    h := Volley(first, ip, c.window, n);
    VolleyLands(c, Nothing, ip, 0, n);
    var log := LogOf(c, first, false);
    CountAdds(Empty, ip, 0, n, 0, None);
    VolleyLands(c, first, ip, c.window, n);
    CountAdds(log, ip, c.window, n, -1, Some(c.window));
    CountAdds(Empty, ip, 0, n, -1, Some(c.window));
  }

  // How long a lock lasts.

  lemma FailuresShrink(log: Log, ip: string, s: int, t: int)
    requires s <= t
    ensures FailuresSince(log, ip, t) <= FailuresSince(log, ip, s)
  {
    LastSuccessIs(log, ip, s);
    LastSuccessIs(log, ip, t);
    CountShrinks(log, ip, From(log, ip, s), From(log, ip, t), None);
  }

  ghost predicate LockedThroughout(c: Config, log: Log, ip: string, from: int, to: int) {
    forall now | from <= now < to :: Status(c, log, ip, now).locked
  }

  /** An address left alone stays locked for the whole lockout after its last
      failure exactly when enough failures are still in the window just before
      the end; otherwise the window ends the lock early. */
  lemma LockLastsIff(c: Config, log: Log, ip: string)
    requires c.Ok() && LastFailure(log, ip).Some?
    ensures var last := LastFailure(log, ip).value;
            LockedThroughout(c, log, ip, last, last + c.lockout) <==>
              FailuresSince(log, ip, last + c.lockout - 1 - c.window) >= c.maxFailures
  {
    var last := LastFailure(log, ip).value;
    var end := last + c.lockout - 1;
    assert Status(c, log, ip, end).locked <==> FailuresSince(log, ip, end - c.window) >= c.maxFailures;
    if FailuresSince(log, ip, end - c.window) >= c.maxFailures {
      forall now | last <= now < last + c.lockout ensures Status(c, log, ip, now).locked {
        FailuresShrink(log, ip, now - c.window, end - c.window);
      }
    }
  }

  /** A lockout longer than the window is never served in full. */
  lemma LongLockoutIsCutShort(c: Config, log: Log, ip: string)
    requires c.Ok() && c.lockout > c.window && LastFailure(log, ip).Some?
    ensures var last := LastFailure(log, ip).value;
            !LockedThroughout(c, log, ip, last, last + c.lockout)
  {
    var last := LastFailure(log, ip).value;
    LockLastsIff(c, log, ip);
    var from := From(log, ip, last + c.lockout - 1 - c.window);
    if Count(log, ip, from, None) > 0 { CountedIsPast(log, ip, from); }
  }

  // Pruning.

  function Copies(log: Log, a: Attempt): nat {
    if log.Empty? then 0 else Copies(log.rest, a) + if log.attempt == a then 1 else 0
  }

  function Length(log: Log): nat {
    if log.Empty? then 0 else Length(log.rest) + 1
  }

  /** A login that was let in and came to an end leaves one row that says how it ended,
      and a login that was not, or did not, none. */
  lemma LoginRecords(c: Config, log: Log, e: Event, sweep: bool, a: Attempt)
    requires e.Login?
    ensures Copies(After(c, log, e, sweep), a) == Copies(log, a) +
              if !Status(c, log, e.ip, e.checkAt).locked && a.ip == e.ip && a.at == e.recordAt
                 && e.outcome == (if a.success then Succeeds else Fails) then 1 else 0
  {
  }

  lemma {:induction false} RecentCopies(log: Log, cutoff: int, a: Attempt)
    ensures Copies(Recent(log, cutoff), a) == if a.at >= cutoff then Copies(log, a) else 0
  {
    if log.Row? { RecentCopies(log.rest, cutoff, a); }
  }

  lemma {:induction false} RecentShorter(log: Log, cutoff: int)
    ensures Length(Recent(log, cutoff)) <= Length(log)
  {
    if log.Row? { RecentShorter(log.rest, cutoff); }
  }

  lemma {:induction false} RecentCounts(log: Log, ip: string, cutoff: int, since: int)
    requires cutoff <= since
    ensures LastSuccess(Recent(log, cutoff), ip, since) == LastSuccess(log, ip, since)
    ensures Count(Recent(log, cutoff), ip, since, None) == Count(log, ip, since, None)
  {
    if log.Row? { RecentCounts(log.rest, ip, cutoff, since); }
  }

  lemma {:induction false} RecentLast(log: Log, ip: string, cutoff: int)
    ensures var last, recent := LastFailure(log, ip), LastFailure(Recent(log, cutoff), ip);
            && (last.Some? && last.value >= cutoff ==> recent == last)
            && (recent.Some? ==> recent.value >= cutoff)
            && (last.None? || last.value < cutoff ==> recent.None?)
  {
    if log.Row? { RecentLast(log.rest, ip, cutoff); }
  }

  lemma FailuresSeeRecent(log: Log, ip: string, since: int, cutoff: int)
    requires cutoff <= since
    ensures From(Recent(log, cutoff), ip, since) == From(log, ip, since) >= since
    ensures FailuresSince(Recent(log, cutoff), ip, since) == FailuresSince(log, ip, since)
  {
    RecentCounts(log, ip, cutoff, since);
    RecentCounts(log, ip, cutoff, From(log, ip, since));
  }

  /** The limiter's answer depends on the attempts inside its window only. */
  lemma StatusSeesRecent(c: Config, log: Log, ip: string, now: int, cutoff: int)
    requires c.Ok() && cutoff <= now - c.window
    ensures Status(c, Recent(log, cutoff), ip, now) == Status(c, log, ip, now)
  {
    var since := now - c.window;
    FailuresSeeRecent(log, ip, since, cutoff);
    var from := From(log, ip, since);
    if Count(log, ip, from, None) > 0 { CountedIsPast(log, ip, from); }
    RecentLast(log, ip, cutoff);
  }

  lemma {:induction false} RecentTwice(log: Log, a: int, b: int)
    requires a <= b
    ensures Recent(Recent(log, a), b) == Recent(log, b)
  {
    if log.Row? { RecentTwice(log.rest, a, b); }
  }

  /** Pruning is invisible: with or without it every login of a history gets the
      same answer, and the logs agree from the last cutoff on. */
  lemma {:induction false} PruningIsInvisible(c: Config, h: History, k: int)
    requires c.Ok() && InOrder(h) && (h.Then? ==> k >= h.event.Ends() - (c.window + c.lockout))
    ensures Answers(c, h, true) == Answers(c, h, false)
    ensures Recent(LogOf(c, h, true), k) == Recent(LogOf(c, h, false), k)
  {
    if h.Then? {
      var e := h.event;
      PruningIsInvisible(c, h.before, k);
      var swept, full := LogOf(c, h.before, true), LogOf(c, h.before, false);
      if e.Prune? {
        RecentTwice(swept, e.now - (c.window + c.lockout), k);
      } else {
        var cutoff := e.checkAt - c.window;
        PruningIsInvisible(c, h.before, cutoff);
        StatusSeesRecent(c, swept, e.ip, e.checkAt, cutoff);
        StatusSeesRecent(c, full, e.ip, e.checkAt, cutoff);
      }
    }
  }

  /** The limiter over its table. */
  class Limiter {
    const c: Config
    var log: Log

    constructor (maxFailures: int, window: int, lockout: int)
      ensures c == NewLimiter(maxFailures, window, lockout) && log == Empty
    {
      c, log := NewLimiter(maxFailures, window, lockout), Empty;
    }

    method Check(ip: string, now: int) returns (s: LockStatus)
      ensures s == Status(c, log, ip, now)
    {
      var failures := FailuresSince(log, ip, now - c.window);
      s := LockStatus(false, 0, failures, c.maxFailures - failures);
      if s.remaining < 0 { s := s.(remaining := 0); }
      if failures < c.maxFailures { return; }
      var last := LastFailure(log, ip);
      if last.None? { return; }
      var unlockAt := last.value + c.lockout;
      if now < unlockAt { s := s.(locked := true, retryAfter := RoundToSecond(unlockAt - now)); }
    }

    /** Login as far as the limiter is concerned: check, then record. */
    method Login(ip: string, checkAt: int, recordAt: int, outcome: Outcome) returns (s: LockStatus)
      modifies this
      ensures s == Status(c, old(log), ip, checkAt)
      ensures log == After(c, old(log), Event.Login(ip, checkAt, recordAt, outcome), true)
    {
      s := Check(ip, checkAt);
      if s.locked { return; }
      match outcome {
        case Fails => log := Row(log, Attempt(ip, false, recordAt));
        case Succeeds => log := Row(log, Attempt(ip, true, recordAt));
        case Breaks =>
      }
    }

    /** Deletes the attempts that can no longer affect any decision: what remains is
        every attempt inside window plus lockout, as often as it was there, and no
        address is answered differently from now on. */
    method Prune(now: int) returns (deleted: nat)
      requires c.Ok()
      modifies this
      ensures forall a ::
                Copies(log, a) == if a.at >= now - (c.window + c.lockout) then Copies(old(log), a) else 0
      ensures forall ip, later | later >= now :: Status(c, log, ip, later) == Status(c, old(log), ip, later)
      ensures log == After(c, old(log), Event.Prune(now), true) && deleted == Length(old(log)) - Length(log)
    {
      ghost var before, cutoff := log, now - (c.window + c.lockout);
      forall a ensures Copies(Recent(log, cutoff), a) == if a.at >= cutoff then Copies(log, a) else 0 {
        RecentCopies(log, cutoff, a);
      }
      RecentShorter(log, cutoff);
      deleted := Length(log) - Length(Recent(log, now - (c.window + c.lockout)));
      log := Recent(log, now - (c.window + c.lockout));
      forall ip, later | later >= now ensures Status(c, log, ip, later) == Status(c, before, ip, later) {
        StatusSeesRecent(c, before, ip, later, cutoff);
      }
    }
  }
}
