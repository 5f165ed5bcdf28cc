/** The organization rate limiter's token bucket, kept in one Redis key by a script.  Times are seconds, amounts are
    reals, and the server's clock never runs backwards. */
module TokenBucket {
  import opened Wrappers

  // --- the bucket ------------------------------------------------------------------------------------------

  datatype Bucket = Bucket(tokens: real, at: real)

  datatype Limit = Limit(rate: real, burst: real)

  function MinReal(x: real, y: real): real {
    if x <= y then x else y
  }

  function MaxReal(x: real, y: real): real {
    if x >= y then x else y
  }

  function Ceil(x: real): int {
    -(-x).Floor
  }

  /** The tokens there are at `now`: a missing bucket is a full one. */
  function Level(limit: Limit, b: Option<Bucket>, now: real): real {
    match b
    case None => limit.burst
    case Some(b) => MinReal(limit.burst, b.tokens + MaxReal(0.0, now - b.at) * limit.rate)
  }

  /** Milliseconds until a token is there, 0 if one was taken. */
  function Reply(limit: Limit, b: Option<Bucket>, now: real): int
    requires limit.rate > 0.0
  {
    var tokens := Level(limit, b, now);
    if tokens >= 1.0 then 0 else Ceil((1.0 - tokens) / limit.rate * 1000.0)
  }

  function Left(limit: Limit, b: Option<Bucket>, now: real): Bucket {
    var tokens := Level(limit, b, now);
    Bucket(if tokens >= 1.0 then tokens - 1.0 else tokens, now)
  }

  predicate Fits(limit: Limit, b: Option<Bucket>) {
    b.Some? ==> 0.0 <= b.value.tokens <= limit.burst
  }

  predicate Sane(limit: Limit) {
    limit.rate > 0.0 && limit.burst >= 0.0
  }

  // --- the script ------------------------------------------------------------------------------------------

  /** Seconds after which the key is gone: a full refill and one second more. */
  function Lifetime(limit: Limit): real
    requires limit.rate > 0.0
  {
    (Ceil(limit.burst / limit.rate * 1000.0) + 1000) as real / 1000.0
  }

  lemma NoTimeNoTokens(limit: Limit, now: real)
    ensures MinReal(limit.burst, limit.burst + MaxReal(0.0, now - now) * limit.rate) == limit.burst
  {
    assert MaxReal(0.0, now - now) == 0.0;
  }

  /** The Redis key of one organization. */
  class Key {
    var bucket: Option<Bucket>
    var expiresAt: real

    constructor ()
      ensures bucket.None?
    {
      bucket, expiresAt := None, 0.0;
    }

    /** TOKEN_BUCKET_SCRIPT.  `gone` says whether Redis has dropped the key, which it may do from its expiry on. */
    method TakeToken(limit: Limit, now: real, gone: bool) returns (retryMs: int)
      requires limit.rate > 0.0
      requires gone && bucket.Some? ==> expiresAt <= now
      modifies this
      ensures retryMs == Reply(limit, if gone then None else old(bucket), now)
      ensures bucket == Some(Left(limit, if gone then None else old(bucket), now))
      ensures expiresAt == now + Lifetime(limit)
    {
      var tokens, at := limit.burst, now;
      if bucket.Some? && !gone {
        tokens, at := bucket.value.tokens, bucket.value.at;
      }
      ghost var found := if gone then None else bucket;
      NoTimeNoTokens(limit, now);
      tokens := MinReal(limit.burst, tokens + MaxReal(0.0, now - at) * limit.rate);
      assert tokens == Level(limit, found, now);
      retryMs := 0;
      if tokens >= 1.0 {
        tokens := tokens - 1.0;
      } else {
        retryMs := Ceil((1.0 - tokens) / limit.rate * 1000.0);
      }
      bucket := Some(Bucket(tokens, now));
      expiresAt := now + (Ceil(limit.burst / limit.rate * 1000.0) + 1000) as real / 1000.0;
    }
  }

  // --- runs ------------------------------------------------------------------------------------------------

  ghost predicate Ordered(times: seq<real>) {
    forall i, j | 0 <= i < j < |times| :: times[i] <= times[j]
  }

  ghost predicate NotBefore(b: Option<Bucket>, times: seq<real>) {
    b.Some? && times != [] ==> b.value.at <= times[0]
  }

  /** The replies of a key that never expires. */
  function Replies(limit: Limit, b: Option<Bucket>, times: seq<real>): (r: seq<int>)
    requires limit.rate > 0.0
    ensures |r| == |times|
    decreases |times|
  {
    if times == [] then []
    else [Reply(limit, b, times[0])] + Replies(limit, Some(Left(limit, b, times[0])), times[1..])
  }

  datatype Call = Call(now: real, gone: bool)

  function TimesOf(calls: seq<Call>): seq<real> {
    seq(|calls|, i requires 0 <= i < |calls| => calls[i].now)
  }

  /** The replies of the key as it is, gone at the calls marked so. */
  function ExpiringReplies(limit: Limit, b: Option<Bucket>, calls: seq<Call>): (r: seq<int>)
    requires limit.rate > 0.0
    ensures |r| == |calls|
    decreases |calls|
  {
    if calls == [] then []
    else
      var found := if calls[0].gone then None else b;
      [Reply(limit, found, calls[0].now)] + ExpiringReplies(limit, Some(Left(limit, found, calls[0].now)), calls[1..])
  }

  /** The key is gone only at calls no earlier than a lifetime after the call before. */
  ghost predicate Expiring(limit: Limit, b: Option<Bucket>, calls: seq<Call>)
    requires limit.rate > 0.0
  {
    && (calls != [] && calls[0].gone && b.Some? ==> b.value.at + Lifetime(limit) <= calls[0].now)
    && (forall i | 0 < i < |calls| && calls[i].gone :: calls[i - 1].now + Lifetime(limit) <= calls[i].now)
  }

  lemma CeilUp(x: real)
    ensures x <= Ceil(x) as real < x + 1.0
  {
  }

  lemma RefillTakes(limit: Limit, seconds: real)
    requires Sane(limit) && seconds >= Lifetime(limit)
    ensures seconds * limit.rate >= limit.burst
  {
    var full := limit.burst / limit.rate;
    CeilUp(full * 1000.0);
    assert seconds >= full;
    assert full * limit.rate == limit.burst;
    assert (seconds - full) * limit.rate >= 0.0;
    assert seconds * limit.rate == (seconds - full) * limit.rate + full * limit.rate;
  }

  lemma GoneIsFull(limit: Limit, b: Bucket, now: real)
    requires Sane(limit) && Fits(limit, Some(b)) && b.at + Lifetime(limit) <= now
    ensures Level(limit, Some(b), now) == limit.burst
  {
    RefillTakes(limit, now - b.at);
    CeilUp(limit.burst / limit.rate * 1000.0);
    assert limit.burst / limit.rate >= 0.0;
  }

  lemma LeftFits(limit: Limit, b: Option<Bucket>, now: real)
    requires Sane(limit) && Fits(limit, b)
    ensures 0.0 <= Level(limit, b, now) <= limit.burst && Fits(limit, Some(Left(limit, b, now)))
  {
    if b.Some? {
      assert MaxReal(0.0, now - b.value.at) * limit.rate >= 0.0;
    }
  }

  /** The key's expiry cannot be observed: every reply is the one a key that never expires would give. */
  lemma {:induction false} ExpiryUnobservable(limit: Limit, b: Option<Bucket>, calls: seq<Call>)
    requires Sane(limit) && Fits(limit, b) && Expiring(limit, b, calls)
    ensures ExpiringReplies(limit, b, calls) == Replies(limit, b, TimesOf(calls))
    decreases |calls|
  {
    if calls != [] {
      var found := if calls[0].gone then None else b;
      var now := calls[0].now;
      if calls[0].gone && b.Some? {
        GoneIsFull(limit, b.value, now);
      }
      assert Left(limit, found, now) == Left(limit, b, now);
      LeftFits(limit, b, now);
      assert Expiring(limit, Some(Left(limit, b, now)), calls[1..]);
      ExpiryUnobservable(limit, Some(Left(limit, b, now)), calls[1..]);
      assert TimesOf(calls)[1..] == TimesOf(calls[1..]);
    }
  }

  // --- how much gets through -------------------------------------------------------------------------------

  /** The calls admitted at times in [lo, hi]. */
  function Admitted(replies: seq<int>, times: seq<real>, lo: real, hi: real): nat
    requires |replies| == |times|
  {
    if times == [] then 0
    else (if replies[0] == 0 && lo <= times[0] <= hi then 1 else 0) + Admitted(replies[1..], times[1..], lo, hi)
  }

  lemma ReplyZeroIff(limit: Limit, b: Option<Bucket>, now: real)
    requires limit.rate > 0.0
    ensures Reply(limit, b, now) == 0 <==> Level(limit, b, now) >= 1.0
    ensures Reply(limit, b, now) >= 0
  {
    var tokens := Level(limit, b, now);
    if tokens < 1.0 {
      var wait := (1.0 - tokens) / limit.rate;
      assert wait > 0.0;
      CeilUp(wait * 1000.0);
    }
  }

  lemma Refill(rate: real, a: real, b: real, c: real)
    requires rate > 0.0 && a <= b <= c
    ensures rate * (c - a) == rate * (b - a) + rate * (c - b)
    ensures rate * (b - a) >= 0.0 && rate * (c - b) >= 0.0
  {
  }

  /** Counting time in tokens, one every 1 / rate seconds, makes the bucket's arithmetic linear. */
  function Ticks(limit: Limit, t: real): real {
    limit.rate * t
  }

  function TickLevel(burst: real, b: Option<Bucket>, now: real): real {
    match b
    case None => burst
    case Some(b) => MinReal(burst, b.tokens + MaxReal(0.0, now - b.at))
  }

  function TickLeft(burst: real, b: Option<Bucket>, now: real): Bucket {
    var tokens := TickLevel(burst, b, now);
    Bucket(if tokens >= 1.0 then tokens - 1.0 else tokens, now)
  }

  /** The calls admitted at ticks in [lo, hi]. */
  function TickAdmitted(burst: real, b: Option<Bucket>, ticks: seq<real>, lo: real, hi: real): nat
    decreases |ticks|
  {
    if ticks == [] then 0
    else
      (if TickLevel(burst, b, ticks[0]) >= 1.0 && lo <= ticks[0] <= hi then 1 else 0)
      + TickAdmitted(burst, Some(TickLeft(burst, b, ticks[0])), ticks[1..], lo, hi)
  }

  lemma {:induction false} NoneLate(burst: real, b: Option<Bucket>, ticks: seq<real>, lo: real, hi: real)
    requires Ordered(ticks) && (ticks != [] ==> ticks[0] > hi)
    ensures TickAdmitted(burst, b, ticks, lo, hi) == 0
    decreases |ticks|
  {
    if ticks != [] {
      OrderedRest(ticks);
      NoneLate(burst, Some(TickLeft(burst, b, ticks[0])), ticks[1..], lo, hi);
    }
  }

  lemma OrderedRest(times: seq<real>)
    requires Ordered(times) && times != []
    ensures Ordered(times[1..]) && (|times| > 1 ==> times[0] <= times[1..][0])
  {
    assert |times| > 1 ==> times[0] <= times[1];
  }

  /** What a bucket lets through until `hi` is what it holds and what it gains. */
  lemma {:induction false} SpendsWhatItHas(burst: real, b: Bucket, ticks: seq<real>, lo: real, hi: real)
    requires 0.0 <= b.tokens <= burst && Ordered(ticks) && NotBefore(Some(b), ticks) && b.at <= hi
    ensures TickAdmitted(burst, Some(b), ticks, lo, hi) as real <= b.tokens + (hi - b.at)
    decreases |ticks|
  {
    if ticks != [] {
      OrderedRest(ticks);
      if ticks[0] > hi {
        NoneLate(burst, Some(b), ticks, lo, hi);
      } else {
        SpendsWhatItHas(burst, TickLeft(burst, Some(b), ticks[0]), ticks[1..], lo, hi);
      }
    }
  }

  lemma {:induction false} TicksBounded(burst: real, b: Option<Bucket>, ticks: seq<real>, lo: real, hi: real)
    requires burst >= 0.0 && (b.Some? ==> 0.0 <= b.value.tokens <= burst)
    requires Ordered(ticks) && NotBefore(b, ticks) && lo <= hi
    ensures TickAdmitted(burst, b, ticks, lo, hi) as real <= burst + (hi - lo)
    decreases |ticks|
  {
    if ticks != [] {
      OrderedRest(ticks);
      var left := TickLeft(burst, b, ticks[0]);
      if ticks[0] > hi {
        NoneLate(burst, b, ticks, lo, hi);
      } else if ticks[0] < lo {
        TicksBounded(burst, Some(left), ticks[1..], lo, hi);
      } else {
        SpendsWhatItHas(burst, left, ticks[1..], lo, hi);
      }
    }
  }

  function InTicks(limit: Limit, b: Option<Bucket>): Option<Bucket> {
    if b.None? then None else Some(Bucket(b.value.tokens, Ticks(limit, b.value.at)))
  }

  lemma SameLevel(limit: Limit, b: Option<Bucket>, now: real)
    requires limit.rate > 0.0
    ensures Level(limit, b, now) == TickLevel(limit.burst, InTicks(limit, b), Ticks(limit, now))
    ensures InTicks(limit, Some(Left(limit, b, now)))
      == Some(TickLeft(limit.burst, InTicks(limit, b), Ticks(limit, now)))
  {
    if b.Some? {
      SameOrder(limit, b.value.at, now);
      assert MaxReal(0.0, now - b.value.at) * limit.rate == MaxReal(0.0, Ticks(limit, now) - Ticks(limit, b.value.at));
    }
  }

  lemma SameOrder(limit: Limit, s: real, t: real)
    requires limit.rate > 0.0
    ensures s <= t <==> Ticks(limit, s) <= Ticks(limit, t)
    ensures Ticks(limit, t) - Ticks(limit, s) == limit.rate * (t - s)
  {
    assert s <= t ==> limit.rate * (t - s) >= 0.0;
    assert s > t ==> limit.rate * (s - t) > 0.0;
  }

  function AllInTicks(limit: Limit, times: seq<real>): seq<real> {
    seq(|times|, i requires 0 <= i < |times| => Ticks(limit, times[i]))
  }

  lemma {:induction false} SameAdmissions(limit: Limit, b: Option<Bucket>, times: seq<real>, lo: real, hi: real)
    requires limit.rate > 0.0
    ensures Admitted(Replies(limit, b, times), times, lo, hi)
      == TickAdmitted(limit.burst, InTicks(limit, b), AllInTicks(limit, times), Ticks(limit, lo), Ticks(limit, hi))
    decreases |times|
  {
    if times != [] {
      var now := times[0];
      SameLevel(limit, b, now);
      ReplyZeroIff(limit, b, now);
      SameOrder(limit, lo, now);
      SameOrder(limit, now, hi);
      SameAdmissions(limit, Some(Left(limit, b, now)), times[1..], lo, hi);
      assert AllInTicks(limit, times)[1..] == AllInTicks(limit, times[1..]);
      assert Replies(limit, b, times)[1..] == Replies(limit, Some(Left(limit, b, now)), times[1..]);
    }
  }

  /** The bound: in any run, the calls admitted in an interval are at most the burst and the rate times its length. */
  lemma AdmissionsBounded(limit: Limit, b: Option<Bucket>, times: seq<real>, lo: real, hi: real)
    requires Sane(limit) && Fits(limit, b) && Ordered(times) && NotBefore(b, times) && lo <= hi
    ensures Admitted(Replies(limit, b, times), times, lo, hi) as real <= limit.burst + limit.rate * (hi - lo)
  {
    SameAdmissions(limit, b, times, lo, hi);
    SameOrder(limit, lo, hi);
    var ticks := AllInTicks(limit, times);
    forall i, j | 0 <= i < j < |ticks| ensures ticks[i] <= ticks[j] {
      SameOrder(limit, times[i], times[j]);
    }
    if b.Some? && times != [] {
      SameOrder(limit, b.value.at, times[0]);
    }
    TicksBounded(limit.burst, InTicks(limit, b), ticks, Ticks(limit, lo), Ticks(limit, hi));
  }

  // --- Retry-After -----------------------------------------------------------------------------------------

  /** The seconds the middleware tells a refused caller to wait. */
  function RetryAfter(retryMs: int): int {
    var seconds := Ceil(retryMs as real / 1000.0);
    if seconds > 1 then seconds else 1
  }

  /** A refused call leaves the bucket as full, at any later time, as if it had not been made. */
  lemma RefusalCostsNothing(limit: Limit, b: Option<Bucket>, now: real, later: real)
    requires Sane(limit) && Fits(limit, b) && (b.Some? ==> b.value.at <= now) && now <= later
    requires Reply(limit, b, now) != 0
    ensures Level(limit, Some(Left(limit, b, now)), later) == Level(limit, b, later)
  {
    ReplyZeroIff(limit, b, now);
    Refill(limit.rate, now, now, later);
    if b.Some? {
      Refill(limit.rate, b.value.at, now, later);
      assert MaxReal(0.0, later - b.value.at) * limit.rate == limit.rate * (later - b.value.at);
      assert MaxReal(0.0, now - b.value.at) * limit.rate == limit.rate * (now - b.value.at);
    }
    assert MaxReal(0.0, later - now) * limit.rate == limit.rate * (later - now);
  }

  lemma WaitIsEnough(limit: Limit, b: Option<Bucket>, now: real, later: real)
    requires Sane(limit) && limit.burst >= 1.0 && Fits(limit, b) && (b.Some? ==> b.value.at <= now)
    requires Reply(limit, b, now) != 0 && later >= now + RetryAfter(Reply(limit, b, now)) as real
    ensures Level(limit, b, later) >= 1.0
  {
    var tokens := Level(limit, b, now);
    var missing := (1.0 - tokens) / limit.rate;
    ReplyZeroIff(limit, b, now);
    CeilUp(missing * 1000.0);
    CeilUp(Reply(limit, b, now) as real / 1000.0);
    assert later - now >= missing;
    assert missing * limit.rate == 1.0 - tokens;
    assert (later - now - missing) * limit.rate >= 0.0;
    assert (later - now) * limit.rate == (later - now - missing) * limit.rate + missing * limit.rate;
    Refill(limit.rate, b.value.at, now, later);
    assert MaxReal(0.0, later - b.value.at) * limit.rate == limit.rate * (later - b.value.at);
    assert MaxReal(0.0, now - b.value.at) * limit.rate == limit.rate * (now - b.value.at);
  }

  /** After any number of refused calls the bucket is as if none of them had been made. */
  lemma {:induction false} RefusalsCostNothing(limit: Limit, b: Option<Bucket>, times: seq<real>, later: real)
    requires Sane(limit) && Fits(limit, b) && Ordered(times + [later]) && NotBefore(b, times + [later])
    requires forall i | 0 <= i < |times| :: Replies(limit, b, times)[i] != 0
    ensures var replies := Replies(limit, b, times + [later]);
      replies[|times|] == 0 <==> Level(limit, b, later) >= 1.0
    decreases |times|
  {
    if times == [] {
      ReplyZeroIff(limit, b, later);
    } else {
      var now := times[0];
      var left := Left(limit, b, now);
      var all := times + [later];
      assert now == all[0] <= all[|times|] == later;
      assert Replies(limit, b, times)[0] != 0;
      RefusalCostsNothing(limit, b, now, later);
      LeftFits(limit, b, now);
      assert all[1..] == times[1..] + [later];
      assert all[0] <= all[1];
      forall i | 0 <= i < |times[1..]| ensures Replies(limit, Some(left), times[1..])[i] != 0 {
        assert Replies(limit, b, times)[i + 1] != 0;
      }
      RefusalsCostNothing(limit, Some(left), times[1..], later);
    }
  }

  /** Retry-After is sufficient: after a refusal and any number of further refused calls, a call made that many
      seconds after the refusal, or later, is admitted. */
  lemma RetryAfterSuffices(limit: Limit, b: Option<Bucket>, first: real, more: seq<real>, later: real)
    requires Sane(limit) && limit.burst >= 1.0 && Fits(limit, b)
    requires Ordered([first] + more + [later]) && (b.Some? ==> b.value.at <= first)
    requires forall i | 0 <= i < |[first] + more| :: Replies(limit, b, [first] + more)[i] != 0
    requires later >= first + RetryAfter(Reply(limit, b, first)) as real
    ensures Replies(limit, b, [first] + more + [later])[1 + |more|] == 0
  {
    assert Replies(limit, b, [first] + more)[0] == Reply(limit, b, first);
    assert ([first] + more + [later])[0] == first;
    RefusalsCostNothing(limit, b, [first] + more, later);
    WaitIsEnough(limit, b, first, later);
  }

  /** A bucket that cannot hold a token never admits a call, whatever Retry-After says: it can be relied on exactly
      when the burst is at least 1. */
  ghost predicate RetryKept(limit: Limit, b: Option<Bucket>, now: real, later: real)
    requires limit.rate > 0.0
  {
    (Reply(limit, b, now) != 0 && later >= now + RetryAfter(Reply(limit, b, now)) as real) ==>
      Reply(limit, Some(Left(limit, b, now)), later) == 0
  }

  lemma RetryAfterSufficesIff(limit: Limit)
    requires Sane(limit)
    ensures (forall b, now, later | Fits(limit, b) && (b.Some? ==> b.value.at <= now) ::
               RetryKept(limit, b, now, later))
      <==> limit.burst >= 1.0
  {
    if limit.burst >= 1.0 {
      forall b, now, later | Fits(limit, b) && (b.Some? ==> b.value.at <= now) ensures RetryKept(limit, b, now, later) {
        if Reply(limit, b, now) != 0 && later >= now + RetryAfter(Reply(limit, b, now)) as real {
          RefusalCostsNothing(limit, b, now, later);
          WaitIsEnough(limit, b, now, later);
          ReplyZeroIff(limit, Some(Left(limit, b, now)), later);
        }
      }
    } else {
      var now := 0.0;
      var later := RetryAfter(Reply(limit, None, now)) as real;
      ReplyZeroIff(limit, None, now);
      LeftFits(limit, None, now);
      ReplyZeroIff(limit, Some(Left(limit, None, now)), later);
      assert !RetryKept(limit, None, now, later);
    }
  }

  lemma RefillOfOne(rate: real, gap: real)
    requires rate > 0.0 && gap >= 1.0 / rate
    ensures gap > 0.0 && gap * rate >= 1.0
  {
    var least := 1.0 / rate;
    assert least * rate == 1.0;
    assert (gap - least) * rate >= 0.0;
    assert gap * rate == (gap - least) * rate + least * rate;
  }

  lemma RefilledLevel(limit: Limit, left: Bucket, next: real)
    requires limit.burst >= 1.0 && left.tokens >= 0.0 && next > left.at && (next - left.at) * limit.rate >= 1.0
    ensures Level(limit, Some(left), next) >= 1.0
  {
    assert MaxReal(0.0, next - left.at) == next - left.at;
  }

  /** A refill of one token makes the next call go through, whatever this one's fate. */
  lemma NextIsAdmitted(limit: Limit, b: Option<Bucket>, now: real, next: real)
    requires Sane(limit) && limit.burst >= 1.0 && Fits(limit, b) && next - now >= 1.0 / limit.rate
    ensures Level(limit, Some(Left(limit, b, now)), next) >= 1.0
  {
    LeftFits(limit, b, now);
    RefillOfOne(limit.rate, next - now);
    RefilledLevel(limit, Left(limit, b, now), next);
  }

  /** Of a stream of calls no closer than one refill of a token, only the first can be refused, and it is so exactly
      when there is no token for it. */
  lemma {:induction false} SpacedCallsAdmitted(limit: Limit, b: Option<Bucket>, times: seq<real>)
    requires Sane(limit) && limit.burst >= 1.0 && Fits(limit, b)
    requires forall i | 0 < i < |times| :: times[i] - times[i - 1] >= 1.0 / limit.rate
    ensures forall i | 0 < i < |times| :: Replies(limit, b, times)[i] == 0
    ensures times != [] ==> (Replies(limit, b, times)[0] == 0 <==> Level(limit, b, times[0]) >= 1.0)
    decreases |times|
  {
    if times != [] {
      var left := Left(limit, b, times[0]);
      LeftFits(limit, b, times[0]);
      ReplyZeroIff(limit, b, times[0]);
      var rest := times[1..];
      forall i | 0 < i < |rest| ensures rest[i] - rest[i - 1] >= 1.0 / limit.rate {
        assert times[i + 1] - times[i] >= 1.0 / limit.rate;
      }
      SpacedCallsAdmitted(limit, Some(left), rest);
      if rest != [] {
        NextIsAdmitted(limit, b, times[0], times[1]);
      }
      forall i | 0 < i < |times| ensures Replies(limit, b, times)[i] == 0 {
        assert Replies(limit, b, times)[i] == Replies(limit, Some(left), rest)[i - 1];
      }
    }
  }

  /** Some bucket at some time admits a call if and only if the burst is at least 1. */
  lemma AdmitsAnyIff(limit: Limit)
    requires Sane(limit)
    ensures (exists b, now :: Fits(limit, b) && Reply(limit, b, now) == 0) <==> limit.burst >= 1.0
  {
    if limit.burst >= 1.0 {
      ReplyZeroIff(limit, None, 0.0);
      assert Fits(limit, None) && Reply(limit, None, 0.0) == 0;
    } else {
      forall b, now | Fits(limit, b) ensures Reply(limit, b, now) != 0 {
        LeftFits(limit, b, now);
        ReplyZeroIff(limit, b, now);
      }
    }
  }
}
