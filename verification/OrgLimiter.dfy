/** The organization rate limiter's middleware: it asks the token bucket, and lets requests through while Redis fails.
    The middleware runs in any number of processes, which share the bucket and pause one by one. */
module OrgLimiter {
  import opened Wrappers
  import opened TokenBucket

  const PAUSE_AFTER_REDIS_ERROR: real := 5.0

  // --- what a request meets --------------------------------------------------------------------------------

  /** The script runs and its answer comes back; it runs and its answer is lost; a request meets the error, maybe after
      such a loss, and is let through; a request comes while its process pauses, and is let through unasked. */
  datatype Event =
    | Asked(now: real)
    | Lost(now: real)
    | Failed(process: int, now: real)
    | Skipped(process: int, now: real)

  /** Until when each process pauses. */
  type Pauses = map<int, real>

  function PausedUntil(pauses: Pauses, process: int): real {
    if process in pauses then pauses[process] else 0.0
  }

  predicate Possible(pauses: Pauses, e: Event) {
    e.Skipped? ==> e.now < PausedUntil(pauses, e.process)
  }

  function PausesAfter(pauses: Pauses, e: Event): Pauses {
    if e.Failed? then pauses[e.process := e.now + PAUSE_AFTER_REDIS_ERROR] else pauses
  }

  predicate Unasked(e: Event) {
    e.Failed? || e.Skipped?
  }

  /** What a request of `process` meets whose call of the script gives `reply`, or raises at `failedAt`. */
  function Met(process: int, pausedUntil: real, now: real, reply: Option<int>, failedAt: real): Event {
    if now < pausedUntil then Skipped(process, now)
    else if reply.None? then Failed(process, failedAt)
    else Asked(now)
  }

  class RateLimitMiddleware {
    const process: int
    var pausedUntil: real

    constructor (process: int)
      ensures this.process == process && pausedUntil == 0.0
    {
      this.process := process;
      pausedUntil := 0.0;
    }

    function View(): Pauses
      reads `pausedUntil
    {
      map[process := pausedUntil]
    }

    /** `_take`: None lets the request through; a Redis failure, met at `failedAt`, does so for a while.  `reply` is
        what the script returned, None if calling it raised. */
    method Take(now: real, reply: Option<int>, failedAt: real) returns (retryAfter: Option<int>)
      modifies this
      ensures retryAfter == if now >= old(pausedUntil) && reply.Some? && reply.value != 0
                            then Some(RetryAfter(reply.value)) else None
      ensures retryAfter.Some? ==> retryAfter.value >= 1 && retryAfter.value * 1000 >= reply.value
      ensures pausedUntil == if now >= old(pausedUntil) && reply.None?
                             then failedAt + PAUSE_AFTER_REDIS_ERROR else old(pausedUntil)
      ensures var e := Met(process, old(pausedUntil), now, reply, failedAt);
        && Possible(old(View()), e) && View() == PausesAfter(old(View()), e)
        && (retryAfter.None? <==> Unasked(e) || reply == Some(0))
    {
      if now < pausedUntil {
        return None;
      }
      if reply.None? {
        pausedUntil := failedAt + PAUSE_AFTER_REDIS_ERROR;
        return None;
      }
      if reply.value == 0 {
        return None;
      }
      var seconds := Ceil(reply.value as real / 1000.0);
      CeilUp(reply.value as real / 1000.0);
      retryAfter := Some(if 1 >= seconds then 1 else seconds);
    }
  }

  // --- runs ------------------------------------------------------------------------------------------------

  ghost predicate InTime(events: seq<Event>) {
    && (forall i, j | 0 <= i < j < |events| :: events[i].now <= events[j].now)
    && (forall i | 0 <= i < |events| :: 0.0 <= events[i].now)
  }

  predicate IsRun(pauses: Pauses, events: seq<Event>)
    decreases |events|
  {
    events == [] || (Possible(pauses, events[0]) && IsRun(PausesAfter(pauses, events[0]), events[1..]))
  }

  predicate Within(e: Event, lo: real, hi: real) {
    lo <= e.now <= hi
  }

  function BucketAfter(limit: Limit, b: Option<Bucket>, e: Event): Option<Bucket> {
    if Unasked(e) then b else Some(Left(limit, b, e.now))
  }

  predicate Passes(limit: Limit, b: Option<Bucket>, e: Event)
    requires limit.rate > 0.0
  {
    Unasked(e) || (e.Asked? && Reply(limit, b, e.now) == 0)
  }

  /** The requests let through in [lo, hi]. */
  function Passed(limit: Limit, b: Option<Bucket>, events: seq<Event>, lo: real, hi: real): nat
    requires limit.rate > 0.0
    decreases |events|
  {
    if events == [] then 0
    else
      (if Passes(limit, b, events[0]) && Within(events[0], lo, hi) then 1 else 0)
      + Passed(limit, BucketAfter(limit, b, events[0]), events[1..], lo, hi)
  }

  /** Those among them that nobody asked the bucket about. */
  function PassedUnasked(events: seq<Event>, lo: real, hi: real): nat
    decreases |events|
  {
    if events == [] then 0
    else (if Unasked(events[0]) && Within(events[0], lo, hi) then 1 else 0) + PassedUnasked(events[1..], lo, hi)
  }

  function Failures(events: seq<Event>): nat
    decreases |events|
  {
    if events == [] then 0 else (if events[0].Failed? then 1 else 0) + Failures(events[1..])
  }

  /** When the script ran. */
  function ScriptTimes(events: seq<Event>): seq<real>
    decreases |events|
  {
    if events == [] then []
    else (if Unasked(events[0]) then [] else [events[0].now]) + ScriptTimes(events[1..])
  }

  // --- the bound -------------------------------------------------------------------------------------------

  lemma {:induction false} ScriptTimesOrdered(events: seq<Event>, from: real)
    requires InTime(events) && forall i | 0 <= i < |events| :: from <= events[i].now
    ensures Ordered(ScriptTimes(events))
    ensures forall i | 0 <= i < |ScriptTimes(events)| :: from <= ScriptTimes(events)[i]
    decreases |events|
  {
    if events != [] {
      forall i | 0 <= i < |events[1..]| ensures events[0].now <= events[1..][i].now {
        assert events[0].now <= events[i + 1].now;
      }
      ScriptTimesOrdered(events[1..], events[0].now);
    }
  }

  /** Requests that pass are admissions of the script or were not asked about. */
  lemma {:induction false} PassedAreAdmitted(limit: Limit, b: Option<Bucket>, events: seq<Event>, lo: real, hi: real)
    requires limit.rate > 0.0
    ensures var times := ScriptTimes(events);
      Passed(limit, b, events, lo, hi)
      <= Admitted(Replies(limit, b, times), times, lo, hi) + PassedUnasked(events, lo, hi)
    decreases |events|
  {
    if events != [] {
      var e, rest := events[0], events[1..];
      PassedAreAdmitted(limit, BucketAfter(limit, b, e), rest, lo, hi);
      if Unasked(e) {
        assert ScriptTimes(events) == ScriptTimes(rest);
      } else {
        OneMoreCall(limit, b, e.now, ScriptTimes(rest), lo, hi);
      }
    }
  }

  lemma OneMoreCall(limit: Limit, b: Option<Bucket>, now: real, rest: seq<real>, lo: real, hi: real)
    requires limit.rate > 0.0
    ensures var times := [now] + rest;
      Admitted(Replies(limit, b, times), times, lo, hi) ==
        (if Reply(limit, b, now) == 0 && lo <= now <= hi then 1 else 0)
        + Admitted(Replies(limit, Some(Left(limit, b, now)), rest), rest, lo, hi)
  {
    var times := [now] + rest;
    assert times[1..] == rest;
    assert Replies(limit, b, times)[1..] == Replies(limit, Some(Left(limit, b, now)), rest);
  }

  /** With Redis failing as it may, in any number of processes, an interval lets through at most what the bucket
      admits in it and the requests nobody asked about. */
  lemma PassedBounded(limit: Limit, b: Option<Bucket>, events: seq<Event>, lo: real, hi: real)
    requires Sane(limit) && Fits(limit, b) && InTime(events) && lo <= hi
    requires b.Some? && events != [] ==> b.value.at <= events[0].now
    ensures Passed(limit, b, events, lo, hi) as real
      <= limit.burst + limit.rate * (hi - lo) + PassedUnasked(events, lo, hi) as real
  {
    var times := ScriptTimes(events);
    if events != [] {
      ScriptTimesOrdered(events, events[0].now);
    }
    PassedAreAdmitted(limit, b, events, lo, hi);
    AdmissionsBounded(limit, b, times, lo, hi);
  }

  // --- when it is only the bucket's ------------------------------------------------------------------------

  /** No error was met in the interval, nor in the pause before it. */
  ghost predicate Quiet(events: seq<Event>, lo: real, hi: real) {
    forall i | 0 <= i < |events| && events[i].Failed? ::
      events[i].now <= lo - PAUSE_AFTER_REDIS_ERROR || hi < events[i].now
  }

  ghost predicate PausesOver(pauses: Pauses, lo: real) {
    forall process :: PausedUntil(pauses, process) <= lo
  }

  lemma {:induction false} QuietAsks(pauses: Pauses, events: seq<Event>, lo: real, hi: real)
    requires IsRun(pauses, events) && InTime(events) && Quiet(events, lo, hi)
    requires PausesOver(pauses, lo) || (events != [] ==> hi < events[0].now)
    ensures PassedUnasked(events, lo, hi) == 0
    decreases |events|
  {
    if events != [] {
      var e, rest := events[0], events[1..];
      assert forall i | 0 <= i < |rest| :: rest[i] == events[i + 1];
      assert rest != [] ==> e.now <= events[1].now;
      if e.now <= hi {
        assert events[0] == e && PausesOver(pauses, lo);
        forall process ensures PausedUntil(PausesAfter(pauses, e), process) <= lo {
          assert PausedUntil(pauses, process) <= lo;
        }
      }
      QuietAsks(PausesAfter(pauses, e), rest, lo, hi);
    }
  }

  /** An interval without an error, neither in it nor in the PAUSE_AFTER_REDIS_ERROR seconds before, keeps the bucket's
      own bound. */
  lemma QuietIntervalsKeepTheBound(limit: Limit, events: seq<Event>, lo: real, hi: real)
    requires Sane(limit) && IsRun(map[], events) && InTime(events) && 0.0 <= lo <= hi && Quiet(events, lo, hi)
    ensures Passed(limit, None, events, lo, hi) as real <= limit.burst + limit.rate * (hi - lo)
  {
    QuietAsks(map[], events, lo, hi);
    PassedBounded(limit, None, events, lo, hi);
  }

  // --- what errors cost ------------------------------------------------------------------------------------

  /** An error at `at`, and then requests of the same process at the same moment: `n` in all. */
  function Outage(at: real, n: nat): (events: seq<Event>)
    ensures |events| == n && forall i | 0 <= i < n :: events[i].now == at
  {
    if n == 0 then [] else [Failed(0, at)] + Skips(at, n - 1)
  }

  function Skips(at: real, n: nat): (events: seq<Event>)
    ensures |events| == n && forall i | 0 <= i < n :: events[i].now == at && events[i].Skipped?
  {
    if n == 0 then [] else [Skipped(0, at)] + Skips(at, n - 1)
  }

  lemma {:induction false} SkipsPass(limit: Limit, b: Option<Bucket>, pauses: Pauses, at: real, n: nat)
    requires limit.rate > 0.0 && 0.0 <= at < PausedUntil(pauses, 0)
    ensures IsRun(pauses, Skips(at, n)) && Failures(Skips(at, n)) == 0
    ensures Passed(limit, b, Skips(at, n), 0.0, at) == n == PassedUnasked(Skips(at, n), 0.0, at)
  {
    if n > 0 {
      SkipsPass(limit, b, pauses, at, n - 1);
      assert Skips(at, n)[1..] == Skips(at, n - 1);
    }
  }

  lemma OutagePasses(limit: Limit, b: Option<Bucket>, at: real, n: nat)
    requires limit.rate > 0.0 && 0.0 <= at
    ensures IsRun(map[], Outage(at, n)) && Failures(Outage(at, n)) == if n == 0 then 0 else 1
    ensures Passed(limit, b, Outage(at, n), 0.0, at) == n == PassedUnasked(Outage(at, n), 0.0, at)
  {
    if n > 0 {
      SkipsPass(limit, b, PausesAfter(map[], Failed(0, at)), at, n - 1);
      assert Outage(at, n)[1..] == Skips(at, n - 1);
    }
  }

  /** As many calls at time 0. */
  function Calls(n: nat): (events: seq<Event>)
    ensures |events| == n && forall i | 0 <= i < n :: events[i] == Asked(0.0)
  {
    if n == 0 then [] else [Asked(0.0)] + Calls(n - 1)
  }

  lemma AskedFirst(limit: Limit, b: Option<Bucket>, at: real, rest: seq<Event>, hi: real)
    requires Sane(limit) && 0.0 <= at <= hi && Level(limit, b, at) >= 1.0
    ensures var events := [Asked(at)] + rest;
      && Passed(limit, b, events, 0.0, hi) == 1 + Passed(limit, Some(Left(limit, b, at)), rest, 0.0, hi)
      && PassedUnasked(events, 0.0, hi) == PassedUnasked(rest, 0.0, hi)
      && Failures(events) == Failures(rest)
      && (IsRun(map[], events) <==> IsRun(map[], rest))
  {
    assert ([Asked(at)] + rest)[1..] == rest;
    ReplyZeroIff(limit, b, at);
  }

  /** Calls at time 0 empty the bucket one by one. */
  lemma {:induction false} CallsPass(limit: Limit, tokens: real, n: nat, rest: seq<Event>, hi: real)
    requires Sane(limit) && n as real <= tokens <= limit.burst && 0.0 <= hi
    ensures var events, left := Calls(n) + rest, Some(Bucket(tokens - n as real, 0.0));
      && Passed(limit, Some(Bucket(tokens, 0.0)), events, 0.0, hi) == n + Passed(limit, left, rest, 0.0, hi)
      && PassedUnasked(events, 0.0, hi) == PassedUnasked(rest, 0.0, hi)
      && Failures(events) == Failures(rest)
      && (IsRun(map[], events) <==> IsRun(map[], rest))
  {
    if n == 0 {
      assert Calls(0) + rest == rest;
    } else {
      var b := Some(Bucket(tokens, 0.0));
      LevelNow(limit, b.value);
      AskedFirst(limit, b, 0.0, Calls(n - 1) + rest, hi);
      CallsPass(limit, tokens - 1.0, n - 1, rest, hi);
      assert Calls(n) + rest == [Asked(0.0)] + (Calls(n - 1) + rest);
    }
  }

  lemma LevelNow(limit: Limit, b: Bucket)
    requires b.tokens <= limit.burst
    ensures Level(limit, Some(b), b.at) == b.tokens
  {
    assert MaxReal(0.0, b.at - b.at) == 0.0;
  }

  /** When the bucket has a token again that a burst at time 0 left with a fraction of one. */
  function TokenAgain(limit: Limit): real
    requires Sane(limit)
  {
    (1.0 - (limit.burst - limit.burst.Floor as real)) / limit.rate
  }

  lemma LevelThen(limit: Limit)
    requires Sane(limit) && limit.burst >= 1.0
    ensures var at, left := TokenAgain(limit), limit.burst - limit.burst.Floor as real;
      && at > 0.0 && limit.rate * at == 1.0 - left
      && Level(limit, Some(Bucket(left, 0.0)), at) == 1.0
  {
    var at, left := TokenAgain(limit), limit.burst - limit.burst.Floor as real;
    assert at * limit.rate == 1.0 - left;
    assert MaxReal(0.0, at - 0.0) == at;
  }

  /** A burst at time 0, one more call as soon as there is a token for it, and then an outage. */
  function Worst(limit: Limit, n: nat): seq<Event>
    requires Sane(limit)
  {
    Calls(limit.burst.Floor) + ([Asked(TokenAgain(limit))] + Outage(TokenAgain(limit), n))
  }

  lemma WorstInTime(limit: Limit, n: nat)
    requires Sane(limit) && limit.burst >= 1.0
    ensures InTime(Worst(limit, n))
  {
    LevelThen(limit);
    var at, calls := TokenAgain(limit), limit.burst.Floor;
    var tail := [Asked(at)] + Outage(at, n);
    assert forall i | 0 <= i < |tail| :: tail[i].now == at;
    assert forall i | 0 <= i < |Worst(limit, n)| :: Worst(limit, n)[i].now == if i < calls then 0.0 else at;
  }

  /** One error, met at the worst time, lets `n` requests through beyond the bucket's bound. */
  lemma WorstPasses(limit: Limit, n: nat)
    requires Sane(limit) && limit.burst >= 1.0
    ensures var events, at := Worst(limit, n), TokenAgain(limit);
      && at > 0.0 && InTime(events) && IsRun(map[], events)
      && Failures(events) <= 1 && PassedUnasked(events, 0.0, at) == n
      && Passed(limit, None, events, 0.0, at) as real == limit.burst + limit.rate * (at - 0.0) + n as real
  {
    var at, calls, left := TokenAgain(limit), limit.burst.Floor, limit.burst - limit.burst.Floor as real;
    var full, drained := Some(Bucket(limit.burst, 0.0)), Some(Bucket(left, 0.0));
    LevelThen(limit);
    WorstInTime(limit, n);
    OutagePasses(limit, Some(Left(limit, drained, at)), at, n);
    AskedFirst(limit, drained, at, Outage(at, n), at);
    CallsPass(limit, limit.burst, calls, [Asked(at)] + Outage(at, n), at);
    MissingIsFull(limit, Worst(limit, n), at);
  }

  lemma MissingIsFull(limit: Limit, events: seq<Event>, hi: real)
    requires Sane(limit) && events != [] && events[0] == Asked(0.0)
    ensures Passed(limit, None, events, 0.0, hi) == Passed(limit, Some(Bucket(limit.burst, 0.0)), events, 0.0, hi)
  {
    LevelNow(limit, Bucket(limit.burst, 0.0));
  }

  /** The bucket's bound with `extra` on top, for intervals in which at most `n` requests went unasked. */
  ghost predicate BoundedBut(limit: Limit, n: nat, extra: real, events: seq<Event>, lo: real, hi: real)
    requires limit.rate > 0.0
  {
    IsRun(map[], events) && InTime(events) && lo <= hi && PassedUnasked(events, lo, hi) <= n ==>
      Passed(limit, None, events, lo, hi) as real <= limit.burst + limit.rate * (hi - lo) + extra
  }

  /** A bucket that cannot hold a token adds nothing to the requests nobody asked about. */
  lemma {:induction false} SmallBurstAdmitsNone(limit: Limit, b: Option<Bucket>, events: seq<Event>, lo: real, hi: real)
    requires Sane(limit) && limit.burst < 1.0 && Fits(limit, b)
    ensures Passed(limit, b, events, lo, hi) == PassedUnasked(events, lo, hi)
    decreases |events|
  {
    if events != [] {
      LeftFits(limit, b, events[0].now);
      ReplyZeroIff(limit, b, events[0].now);
      SmallBurstAdmitsNone(limit, BucketAfter(limit, b, events[0]), events[1..], lo, hi);
    }
  }

  /** The part of the bound that is never used up: all of a burst below one token. */
  function Slack(limit: Limit): real {
    if limit.burst >= 1.0 then 0.0 else limit.burst
  }

  lemma EnoughExtra(limit: Limit, n: nat, extra: real, events: seq<Event>, lo: real, hi: real)
    requires Sane(limit) && extra >= n as real - Slack(limit)
    ensures BoundedBut(limit, n, extra, events, lo, hi)
  {
    if InTime(events) && lo <= hi {
      PassedBounded(limit, None, events, lo, hi);
      if limit.burst < 1.0 {
        SmallBurstAdmitsNone(limit, None, events, lo, hi);
        assert limit.rate * (hi - lo) >= 0.0;
      }
    }
  }

  /** A run with one error at most that lets through, in some interval, all that the bucket can admit there and `n`
      requests more. */
  lemma SomeRunPasses(limit: Limit, n: nat) returns (events: seq<Event>, hi: real)
    requires Sane(limit)
    ensures 0.0 <= hi && InTime(events) && IsRun(map[], events)
    ensures Failures(events) <= 1 && PassedUnasked(events, 0.0, hi) == n
    ensures Passed(limit, None, events, 0.0, hi) as real
      == limit.burst + limit.rate * (hi - 0.0) + n as real - Slack(limit)
  {
    if limit.burst >= 1.0 {
      events, hi := Worst(limit, n), TokenAgain(limit);
      WorstPasses(limit, n);
    } else {
      events, hi := Outage(0.0, n), 0.0;
      OutagePasses(limit, None, 0.0, n);
    }
  }

  /** Unasked requests cost exactly what they are: intervals with at most `n` of them stay within `extra` of the
      bucket's bound, in every run, if and only if `extra` is at least `n`, less what the bound leaves unused. */
  lemma UnaskedCostIff(limit: Limit, n: nat, extra: real)
    requires Sane(limit)
    ensures (forall events, lo, hi :: BoundedBut(limit, n, extra, events, lo, hi))
      <==> extra >= n as real - Slack(limit)
  {
    if extra >= n as real - Slack(limit) {
      forall events, lo, hi ensures BoundedBut(limit, n, extra, events, lo, hi) {
        EnoughExtra(limit, n, extra, events, lo, hi);
      }
    } else {
      var events, hi := SomeRunPasses(limit, n);
      assert !BoundedBut(limit, n, extra, events, 0.0, hi);
    }
  }

  /** No allowance for errors helps, since one of them opens a pause for any number of requests. */
  lemma OneErrorIsEnough(limit: Limit, extra: nat) returns (events: seq<Event>, lo: real, hi: real)
    requires Sane(limit)
    ensures IsRun(map[], events) && InTime(events) && lo <= hi && Failures(events) <= 1
    ensures Passed(limit, None, events, lo, hi) as real > limit.burst + limit.rate * (hi - lo) + extra as real
  {
    lo := 0.0;
    events, hi := SomeRunPasses(limit, extra + 1);
  }
}
