/** What the token bucket admits, said without the bucket: whatever keeps the bound on every interval, and nothing
    else.  And what its replies are: the least waits that help. */
module TokenRoom {
  import opened Wrappers
  import opened TokenBucket

  function BucketAfter(limit: Limit, b: Option<Bucket>, times: seq<real>): Option<Bucket>
    decreases |times|
  {
    if times == [] then b else BucketAfter(limit, Some(Left(limit, b, times[0])), times[1..])
  }

  lemma {:induction false} OneMoreReply(limit: Limit, b: Option<Bucket>, times: seq<real>, later: real)
    requires limit.rate > 0.0
    ensures Replies(limit, b, times + [later])
      == Replies(limit, b, times) + [Reply(limit, BucketAfter(limit, b, times), later)]
    decreases |times|
  {
    if times != [] {
      OneMoreReply(limit, Some(Left(limit, b, times[0])), times[1..], later);
      assert (times + [later])[1..] == times[1..] + [later];
    }
  }

  lemma {:induction false} OneMoreAdmitted(replies: seq<int>, times: seq<real>, reply: int, t: real, lo: real, hi: real)
    requires |replies| == |times|
    ensures Admitted(replies + [reply], times + [t], lo, hi)
      == Admitted(replies, times, lo, hi) + if reply == 0 && lo <= t <= hi then 1 else 0
    decreases |times|
  {
    if times != [] {
      OneMoreAdmitted(replies[1..], times[1..], reply, t, lo, hi);
      assert (replies + [reply])[1..] == replies[1..] + [reply];
      assert (times + [t])[1..] == times[1..] + [t];
    }
  }

  lemma {:induction false} WiderAdmitsMore(replies: seq<int>, times: seq<real>, lo: real, lower: real, hi: real)
    requires |replies| == |times| && lower <= lo
    ensures Admitted(replies, times, lo, hi) <= Admitted(replies, times, lower, hi)
    decreases |times|
  {
    if times != [] {
      WiderAdmitsMore(replies[1..], times[1..], lo, lower, hi);
    }
  }

  /** With one more call at `hi`, the calls admitted since `lo` would be more than `tokens` and the refill since. */
  ghost predicate TooMany(limit: Limit, tokens: real, admitted: nat, lo: real, hi: real) {
    admitted as real + 1.0 > tokens + limit.rate * (hi - lo)
  }

  lemma LevelSplit(limit: Limit, b: Bucket, now: real)
    requires limit.rate > 0.0 && b.at <= now
    ensures Level(limit, Some(b), now) == MinReal(limit.burst, b.tokens + limit.rate * (now - b.at))
  {
    assert MaxReal(0.0, now - b.at) * limit.rate == limit.rate * (now - b.at);
  }

  /** What one call adds to the account of the bucket it leaves. */
  lemma AccountBefore(limit: Limit, b: Bucket, now: real, t: real, admitted: nat)
    requires limit.rate > 0.0 && b.at <= now <= t
    requires TooMany(limit, Left(limit, Some(b), now).tokens, admitted, now, t)
    ensures var total := admitted + if Reply(limit, Some(b), now) == 0 then 1 else 0;
      TooMany(limit, limit.burst, total, now, t) || TooMany(limit, b.tokens, total, b.at, t)
  {
    LevelSplit(limit, b, now);
    ReplyZeroIff(limit, Some(b), now);
    Refill(limit.rate, b.at, now, t);
  }

  /** Why a bucket has no token: since some moment at which it was full, or since the start, it has given all away. */
  lemma {:induction false} WhySpent(limit: Limit, b: Bucket, times: seq<real>, t: real) returns (lo: real, full: bool)
    requires Sane(limit) && Ordered(times + [t]) && NotBefore(Some(b), times + [t])
    requires Level(limit, BucketAfter(limit, Some(b), times), t) < 1.0
    ensures lo <= t && (full || lo == b.at)
    ensures TooMany(limit, if full then limit.burst else b.tokens,
                    Admitted(Replies(limit, Some(b), times), times, lo, t), lo, t)
    decreases |times|
  {
    if times == [] {
      LevelSplit(limit, b, t);
      lo, full := b.at, false;
      if limit.burst < 1.0 {
        lo, full := t, true;
      }
    } else {
      var now, left := times[0], Left(limit, Some(b), times[0]);
      var all := times + [t];
      assert now == all[0] <= all[|times|] == t && all[0] <= all[1];
      assert all[1..] == times[1..] + [t];
      lo, full := WhySpent(limit, left, times[1..], t);
      if !full {
        var admitted := Admitted(Replies(limit, Some(left), times[1..]), times[1..], now, t);
        AccountBefore(limit, b, now, t, admitted);
        full := TooMany(limit, limit.burst, Admitted(Replies(limit, Some(b), times), times, now, t), now, t);
        lo := if full then now else b.at;
        WiderAdmitsMore(Replies(limit, Some(b), times), times, now, b.at, t);
      }
    }
  }

  /** After the calls so far, admitting another at `later` leaves the calls admitted since `lo` within the burst and
      the refill since. */
  ghost predicate WouldKeep(limit: Limit, times: seq<real>, lo: real, later: real)
    requires limit.rate > 0.0
  {
    Admitted(Replies(limit, None, times), times, lo, later) as real + 1.0 <= limit.burst + limit.rate * (later - lo)
  }

  lemma AdmittedKeeps(limit: Limit, times: seq<real>, lo: real, later: real)
    requires Sane(limit) && Ordered(times + [later]) && lo <= later
    requires Reply(limit, BucketAfter(limit, None, times), later) == 0
    ensures WouldKeep(limit, times, lo, later)
  {
    OneMoreReply(limit, None, times, later);
    OneMoreAdmitted(Replies(limit, None, times), times, 0, later, lo, later);
    AdmissionsBounded(limit, None, times + [later], lo, later);
  }

  lemma RefusedBreaks(limit: Limit, times: seq<real>, later: real) returns (lo: real)
    requires Sane(limit) && Ordered(times + [later])
    requires Reply(limit, BucketAfter(limit, None, times), later) != 0
    ensures lo <= later && !WouldKeep(limit, times, lo, later)
  {
    ReplyZeroIff(limit, BucketAfter(limit, None, times), later);
    lo := later;
    if times != [] {
      var full := Bucket(limit.burst, times[0]);
      assert (times + [later])[0] == times[0];
      NoTimeNoTokens(limit, times[0]);
      assert Level(limit, None, times[0]) == Level(limit, Some(full), times[0]);
      assert Left(limit, None, times[0]) == Left(limit, Some(full), times[0]);
      assert BucketAfter(limit, None, times) == BucketAfter(limit, Some(full), times);
      assert Replies(limit, None, times) == Replies(limit, Some(full), times);
      var whole: bool;
      lo, whole := WhySpent(limit, full, times, later);
    }
  }

  /** From a full bucket, whatever came before, a call is admitted exactly when the bound on every interval up to it
      stays kept: the bucket refuses nothing that it could admit. */
  lemma AdmittedIffBoundKept(limit: Limit, times: seq<real>, later: real)
    requires Sane(limit) && Ordered(times + [later])
    ensures Replies(limit, None, times + [later])[|times|] == 0
      <==> forall lo | lo <= later :: WouldKeep(limit, times, lo, later)
  {
    OneMoreReply(limit, None, times, later);
    if Reply(limit, BucketAfter(limit, None, times), later) == 0 {
      forall lo | lo <= later ensures WouldKeep(limit, times, lo, later) {
        AdmittedKeeps(limit, times, lo, later);
      }
    } else {
      var lo := RefusedBreaks(limit, times, later);
    }
  }

  // --- the least waits -------------------------------------------------------------------------------------

  lemma CeilIff(x: real, n: int)
    ensures Ceil(x) <= n <==> x <= n as real
  {
    CeilUp(x);
  }

  lemma DivideIff(x: real, y: real, rate: real)
    requires rate > 0.0
    ensures x / rate <= y <==> x <= rate * y
  {
    var q := x / rate;
    assert q * rate == x;
    assert q <= y ==> (y - q) * rate >= 0.0;
    assert q > y ==> (q - y) * rate > 0.0;
  }

  lemma LevelGrows(limit: Limit, b: Bucket, now: real, wait: real)
    requires Sane(limit) && b.at <= now && wait >= 0.0
    ensures Level(limit, Some(b), now + wait) ==
      MinReal(limit.burst, Level(limit, Some(b), now) + limit.rate * wait)
  {
    LevelSplit(limit, b, now);
    LevelSplit(limit, b, now + wait);
    Refill(limit.rate, b.at, now, now + wait);
    assert now + wait - now == wait;
  }

  /** The reply is the least whole number of milliseconds after which there is a token. */
  lemma ReplyIsLeastWait(limit: Limit, b: Option<Bucket>, now: real, ms: nat)
    requires Sane(limit) && limit.burst >= 1.0 && Fits(limit, b) && (b.Some? ==> b.value.at <= now)
    ensures Reply(limit, b, now) <= ms <==> Level(limit, b, now + ms as real / 1000.0) >= 1.0
  {
    ReplyZeroIff(limit, b, now);
    if b.Some? {
      var level, wait := Level(limit, b, now), ms as real / 1000.0;
      LevelGrows(limit, b.value, now, wait);
      if level >= 1.0 {
        Refill(limit.rate, 0.0, wait, wait);
      } else {
        var least := (1.0 - level) / limit.rate;
        DivideIff(1.0 - level, wait, limit.rate);
        CeilIff(least * 1000.0, ms);
        assert least <= wait <==> least * 1000.0 <= ms as real;
      }
    }
  }

  /** Retry-After is the least whole number of seconds, one or more, after which there is a token. */
  lemma RetryAfterIsLeastWait(limit: Limit, b: Option<Bucket>, now: real, seconds: int)
    requires Sane(limit) && limit.burst >= 1.0 && Fits(limit, b) && (b.Some? ==> b.value.at <= now)
    requires Reply(limit, b, now) != 0
    ensures RetryAfter(Reply(limit, b, now)) >= 1
    ensures seconds >= 1 ==>
      (RetryAfter(Reply(limit, b, now)) <= seconds <==> Level(limit, b, now + seconds as real) >= 1.0)
  {
    if seconds >= 1 {
      var ms := 1000 * seconds;
      assert ms as real / 1000.0 == seconds as real;
      ReplyIsLeastWait(limit, b, now, ms);
      CeilIff(Reply(limit, b, now) as real / 1000.0, seconds);
    }
  }
}
