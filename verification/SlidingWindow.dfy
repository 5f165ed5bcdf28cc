/** The per-route rate limit: a script that keeps the times of recent admissions in one Redis sorted set, and the
    dependency that asks it.  Members are distinct, times are seconds since the epoch and never run backwards. */
module SlidingWindow {
  /** The entries left by ZREMRANGEBYSCORE key 0 `until`. */
  function Cleared(entries: seq<real>, until: real): seq<real> {
    if entries == [] then []
    else
      var rest := Cleared(entries[..|entries| - 1], until);
      var last := entries[|entries| - 1];
      if 0.0 <= last <= until then rest else rest + [last]
  }

  function Oldest(entries: seq<real>): real
    requires entries != []
  {
    if |entries| == 1 || entries[0] <= Oldest(entries[1..]) then entries[0] else Oldest(entries[1..])
  }

  /** Redis turns the script's numbers into integers by dropping their fraction. */
  function Whole(x: real): int {
    if x >= 0.0 then x.Floor else -(-x).Floor
  }

  datatype Answer = Answer(count: int, resetAt: int)

  /** The dependency refuses a request when the script names a time to come back. */
  predicate Refused(a: Answer) {
    a.resetAt > 0
  }

  function AnswerOf(limit: int, window: int, entries: seq<real>, now: real): Answer {
    var current := Cleared(entries, now - window as real);
    if |current| >= limit
    then Answer(|current|, if current == [] then 0 else Whole(Oldest(current) + window as real))
    else Answer(|current| + 1, 0)
  }

  function EntriesAfter(limit: int, window: int, entries: seq<real>, now: real): seq<real> {
    var current := Cleared(entries, now - window as real);
    if |current| >= limit then current else current + [now]
  }

  class Key {
    var entries: seq<real>
    var expiresAt: real

    constructor ()
      ensures entries == []
    {
      entries, expiresAt := [], 0.0;
    }

    /** SLIDING_WINDOW_SCRIPT.  `gone` says whether Redis has dropped the key, which it may do from its expiry on. */
    method Ask(limit: int, window: int, now: real, gone: bool) returns (answer: Answer)
      requires gone && entries != [] ==> expiresAt <= now
      modifies this
      ensures answer == AnswerOf(limit, window, if gone then [] else old(entries), now)
      ensures entries == EntriesAfter(limit, window, if gone then [] else old(entries), now)
      ensures expiresAt == if |Cleared(if gone then [] else old(entries), now - window as real)| < limit
                           then now + window as real else old(expiresAt)
    {
      if gone {
        entries := [];
      }
      entries := Cleared(entries, now - window as real);
      var current := |entries|;
      if current >= limit {
        var resetAt := 0.0;
        if entries != [] {
          resetAt := Oldest(entries) + window as real;
        }
        return Answer(current, Whole(resetAt));
      }
      entries := entries + [now];
      expiresAt := now + window as real;
      answer := Answer(|entries|, 0);
    }
  }

  // --- runs ------------------------------------------------------------------------------------------------

  ghost predicate Ordered(times: seq<real>) {
    && (forall i, j | 0 <= i < j < |times| :: times[i] <= times[j])
    && (forall i | 0 <= i < |times| :: 0.0 <= times[i])
  }

  /** The times at which the dependency lets a request through. */
  function Admissions(limit: int, window: int, entries: seq<real>, times: seq<real>): seq<real>
    decreases |times|
  {
    if times == [] then []
    else
      (if Refused(AnswerOf(limit, window, entries, times[0])) then [] else [times[0]])
      + Admissions(limit, window, EntriesAfter(limit, window, entries, times[0]), times[1..])
  }

  /** Half-open windows, open on the left or on the right. */
  datatype Window = After(start: real) | From(start: real)

  predicate Inside(w: Window, length: int, t: real) {
    match w
    case After(start) => start < t <= start + length as real
    case From(start) => start <= t < start + length as real
  }

  predicate Beyond(w: Window, length: int, t: real) {
    match w
    case After(start) => start + length as real < t
    case From(start) => start + length as real <= t
  }

  function CountIn(w: Window, length: int, times: seq<real>): nat {
    if times == [] then 0
    else CountIn(w, length, times[..|times| - 1]) + if Inside(w, length, times[|times| - 1]) then 1 else 0
  }

  lemma {:induction false} CountInAppend(w: Window, length: int, s: seq<real>, t: seq<real>)
    ensures CountIn(w, length, s + t) == CountIn(w, length, s) + CountIn(w, length, t)
    decreases |t|
  {
    if t == [] {
      assert s + t == s;
    } else {
      assert (s + t)[..|s + t| - 1] == s + t[..|t| - 1];
      CountInAppend(w, length, s, t[..|t| - 1]);
    }
  }

  lemma {:induction false} CountInSize(w: Window, length: int, s: seq<real>)
    ensures CountIn(w, length, s) <= |s|
  {
    if s != [] {
      CountInSize(w, length, s[..|s| - 1]);
    }
  }

  /** Clearing at a time not beyond a window takes nothing from the window. */
  lemma {:induction false} ClearingSparesWindow(w: Window, length: int, entries: seq<real>, now: real)
    requires !Beyond(w, length, now)
    ensures CountIn(w, length, Cleared(entries, now - length as real)) == CountIn(w, length, entries)
    decreases |entries|
  {
    if entries != [] {
      var rest := entries[..|entries| - 1];
      ClearingSparesWindow(w, length, rest, now);
      CountInAppend(w, length, Cleared(rest, now - length as real), [entries[|entries| - 1]]);
      assert CountIn(w, length, [entries[|entries| - 1]]) == if Inside(w, length, entries[|entries| - 1]) then 1 else 0;
    }
  }

  lemma {:induction false} NoneBeyond(w: Window, length: int, limit: int, entries: seq<real>, times: seq<real>)
    requires Ordered(times) && (times != [] ==> Beyond(w, length, times[0]))
    ensures CountIn(w, length, Admissions(limit, length, entries, times)) == 0
    decreases |times|
  {
    if times != [] {
      var first := if Refused(AnswerOf(limit, length, entries, times[0])) then [] else [times[0]];
      assert |times| > 1 ==> times[0] <= times[1];
      NoneBeyond(w, length, limit, EntriesAfter(limit, length, entries, times[0]), times[1..]);
      CountInAppend(w, length, first,
                    Admissions(limit, length, EntriesAfter(limit, length, entries, times[0]), times[1..]));
      assert CountIn(w, length, first) == 0;
    }
  }

  ghost predicate NonNegative(entries: seq<real>) {
    forall i | 0 <= i < |entries| :: 0.0 <= entries[i]
  }

  lemma {:induction false} ClearedIsLater(entries: seq<real>, until: real)
    requires NonNegative(entries)
    ensures NonNegative(Cleared(entries, until))
    ensures forall i | 0 <= i < |Cleared(entries, until)| :: Cleared(entries, until)[i] > until
  {
    if entries != [] {
      ClearedIsLater(entries[..|entries| - 1], until);
    }
  }

  lemma {:induction false} OldestIsOne(entries: seq<real>)
    requires entries != []
    ensures exists i :: 0 <= i < |entries| && entries[i] == Oldest(entries)
    ensures forall i | 0 <= i < |entries| :: Oldest(entries) <= entries[i]
  {
    if |entries| > 1 && entries[0] > Oldest(entries[1..]) {
      OldestIsOne(entries[1..]);
      var i :| 0 <= i < |entries[1..]| && entries[1..][i] == Oldest(entries[1..]);
      assert entries[i + 1] == Oldest(entries);
    } else {
      if |entries| > 1 {
        OldestIsOne(entries[1..]);
        forall i | 0 < i < |entries| ensures Oldest(entries) <= entries[i] {
          assert entries[i] == entries[1..][i - 1];
        }
      }
      assert entries[0] == Oldest(entries);
    }
  }

  /** With a limit of at least 1 the dependency refuses exactly the requests the script did not record. */
  lemma RefusedIff(limit: int, window: int, entries: seq<real>, now: real)
    requires limit >= 1 && window >= 1 && NonNegative(entries)
    ensures Refused(AnswerOf(limit, window, entries, now)) <==> |Cleared(entries, now - window as real)| >= limit
  {
    var current := Cleared(entries, now - window as real);
    ClearedIsLater(entries, now - window as real);
    if |current| >= limit {
      OldestIsOne(current);
    }
  }

  /** One request inside or before a window: the set gains it exactly when it is admitted, and never holds more
      of the window than `limit`. */
  lemma WindowStep(w: Window, length: int, limit: int, entries: seq<real>, now: real)
    requires limit >= 1 && length >= 1 && NonNegative(entries) && now >= 0.0 && !Beyond(w, length, now)
    requires CountIn(w, length, entries) <= limit
    ensures var after := EntriesAfter(limit, length, entries, now);
      var first := if Refused(AnswerOf(limit, length, entries, now)) then [] else [now];
      && CountIn(w, length, after) == CountIn(w, length, entries) + CountIn(w, length, first) <= limit
      && NonNegative(after)
  {
    var current := Cleared(entries, now - length as real);
    RefusedIff(limit, length, entries, now);
    ClearedIsLater(entries, now - length as real);
    ClearingSparesWindow(w, length, entries, now);
    CountInSize(w, length, current);
    CountInAppend(w, length, current, [now]);
    CountInSize(w, length, [now]);
  }

  /** While a window lasts, the set holds every admission of the window so far. */
  lemma {:induction false} WindowFills(w: Window, length: int, limit: int, entries: seq<real>, times: seq<real>)
    requires limit >= 1 && length >= 1 && NonNegative(entries) && Ordered(times)
    requires CountIn(w, length, entries) <= limit
    ensures CountIn(w, length, entries) + CountIn(w, length, Admissions(limit, length, entries, times)) <= limit
    decreases |times|
  {
    if times != [] {
      var now := times[0];
      if Beyond(w, length, now) {
        NoneBeyond(w, length, limit, entries, times);
      } else {
        WindowStep(w, length, limit, entries, now);
        var after := EntriesAfter(limit, length, entries, now);
        var first := if Refused(AnswerOf(limit, length, entries, now)) then [] else [now];
        WindowFills(w, length, limit, after, times[1..]);
        CountInAppend(w, length, first, Admissions(limit, length, after, times[1..]));
      }
    }
  }

  /** The bound: in any run from an empty key, every half-open window of the given length holds at most `limit`
      admissions. */
  lemma AdmissionsBounded(w: Window, length: int, limit: int, times: seq<real>)
    requires limit >= 1 && length >= 1 && Ordered(times)
    ensures CountIn(w, length, Admissions(limit, length, [], times)) <= limit
  {
    WindowFills(w, length, limit, [], times);
  }

  // --- when Redis fails ------------------------------------------------------------------------------------

  /** A request the script answered, or one that met a Redis error, before or after the script ran. */
  datatype Request = Answered(now: real) | Broken(now: real, ran: bool)

  ghost predicate InTime(requests: seq<Request>) {
    && (forall i, j | 0 <= i < j < |requests| :: requests[i].now <= requests[j].now)
    && (forall i | 0 <= i < |requests| :: 0.0 <= requests[i].now)
  }

  function EntriesAfterRequest(limit: int, window: int, entries: seq<real>, r: Request): seq<real> {
    if r.Answered? || r.ran then EntriesAfter(limit, window, entries, r.now) else entries
  }

  predicate LetThrough(limit: int, window: int, entries: seq<real>, r: Request) {
    r.Broken? || !Refused(AnswerOf(limit, window, entries, r.now))
  }

  /** The times at which the dependency lets a request through: a Redis error never stops one. */
  function Passes(limit: int, window: int, entries: seq<real>, requests: seq<Request>): seq<real>
    decreases |requests|
  {
    if requests == [] then []
    else
      var r := requests[0];
      (if LetThrough(limit, window, entries, r) then [r.now] else [])
      + Passes(limit, window, EntriesAfterRequest(limit, window, entries, r), requests[1..])
  }

  function Errors(requests: seq<Request>): seq<real>
    decreases |requests|
  {
    if requests == [] then []
    else (if requests[0].Broken? then [requests[0].now] else []) + Errors(requests[1..])
  }

  /** One request before a window is over: what it adds to the passes is recorded in the set or is an error. */
  lemma PassStep(w: Window, length: int, limit: int, entries: seq<real>, r: Request)
    requires limit >= 1 && length >= 1 && NonNegative(entries) && r.now >= 0.0 && !Beyond(w, length, r.now)
    requires CountIn(w, length, entries) <= limit
    ensures var after := EntriesAfterRequest(limit, length, entries, r);
      var passed := if LetThrough(limit, length, entries, r) then [r.now] else [];
      var broken := if r.Broken? then [r.now] else [];
      && NonNegative(after) && CountIn(w, length, after) <= limit
      && CountIn(w, length, entries) + CountIn(w, length, passed)
         <= CountIn(w, length, after) + CountIn(w, length, broken)
  {
    WindowStep(w, length, limit, entries, r.now);
  }

  lemma {:induction false} PassesAreBeyond(w: Window, length: int, limit: int, entries: seq<real>,
                                           requests: seq<Request>)
    requires InTime(requests) && requests != [] && Beyond(w, length, requests[0].now)
    ensures CountIn(w, length, Passes(limit, length, entries, requests)) == 0
    decreases |requests|
  {
    var r := requests[0];
    var first := if LetThrough(limit, length, entries, r) then [r.now] else [];
    var after := EntriesAfterRequest(limit, length, entries, r);
    var rest := Passes(limit, length, after, requests[1..]);
    if |requests| > 1 {
      assert requests[0].now <= requests[1].now;
      PassesAreBeyond(w, length, limit, after, requests[1..]);
    }
    CountInAppend(w, length, first, rest);
    assert [r.now][..0] == [];
  }

  lemma {:induction false} PassesFill(w: Window, length: int, limit: int, entries: seq<real>, requests: seq<Request>)
    requires limit >= 1 && length >= 1 && NonNegative(entries) && InTime(requests)
    requires CountIn(w, length, entries) <= limit
    ensures CountIn(w, length, entries) + CountIn(w, length, Passes(limit, length, entries, requests))
      <= limit + CountIn(w, length, Errors(requests))
    decreases |requests|
  {
    if requests != [] {
      var r := requests[0];
      if Beyond(w, length, r.now) {
        PassesAreBeyond(w, length, limit, entries, requests);
      } else {
        var after := EntriesAfterRequest(limit, length, entries, r);
        PassStep(w, length, limit, entries, r);
        PassesFill(w, length, limit, after, requests[1..]);
        CountInAppend(w, length, if LetThrough(limit, length, entries, r) then [r.now] else [],
                      Passes(limit, length, after, requests[1..]));
        CountInAppend(w, length, if r.Broken? then [r.now] else [], Errors(requests[1..]));
      }
    }
  }

  /** With Redis failing as it may, a window lets through at most `limit` requests and those that met an error. */
  lemma PassesBounded(w: Window, length: int, limit: int, requests: seq<Request>)
    requires limit >= 1 && length >= 1 && InTime(requests)
    ensures CountIn(w, length, Passes(limit, length, [], requests)) <= limit + CountIn(w, length, Errors(requests))
  {
    PassesFill(w, length, limit, [], requests);
  }

  function Zeros(n: nat): seq<real> {
    seq(n, _ => 0.0)
  }

  lemma {:induction false} CountZeros(length: int, n: nat)
    requires length >= 1
    ensures CountIn(From(0.0), length, Zeros(n)) == n
  {
    if n > 0 {
      assert Zeros(n)[..n - 1] == Zeros(n - 1);
      CountZeros(length, n - 1);
    }
  }

  lemma {:induction false} ZerosStay(n: nat, length: int)
    requires length >= 1
    ensures Cleared(Zeros(n), 0.0 - length as real) == Zeros(n)
  {
    if n > 0 {
      assert Zeros(n)[..n - 1] == Zeros(n - 1);
      ZerosStay(n - 1, length);
      assert Zeros(n - 1) + [0.0] == Zeros(n);
    }
  }

  /** At one moment, `k` requests that the script answers and then `n` that meet an error. */
  function Burst(k: nat, n: nat): (requests: seq<Request>)
    ensures |requests| == k + n && forall i | 0 <= i < k + n :: requests[i].now == 0.0
  {
    if k > 0 then [Answered(0.0)] + Burst(k - 1, n)
    else if n > 0 then [Broken(0.0, false)] + Burst(0, n - 1)
    else []
  }

  lemma RecordedZero(length: int, limit: int, n: nat, rest: seq<Request>)
    requires length >= 1 && n < limit
    ensures Passes(limit, length, Zeros(n), [Answered(0.0)] + rest)
      == [0.0] + Passes(limit, length, Zeros(n + 1), rest)
    ensures Errors([Answered(0.0)] + rest) == Errors(rest)
  {
    ZerosStay(n, length);
    assert Zeros(n) + [0.0] == Zeros(n + 1);
    assert ([Answered(0.0)] + rest)[1..] == rest;
    assert [] + Errors(rest) == Errors(rest);
  }

  lemma BrokenZero(length: int, limit: int, entries: seq<real>, rest: seq<Request>)
    ensures Passes(limit, length, entries, [Broken(0.0, false)] + rest) == [0.0] + Passes(limit, length, entries, rest)
    ensures Errors([Broken(0.0, false)] + rest) == [0.0] + Errors(rest)
  {
    assert ([Broken(0.0, false)] + rest)[1..] == rest;
  }

  /** With `k` places left in the window, all of a burst gets through. */
  lemma {:induction false} BurstPasses(length: int, limit: int, k: nat, n: nat)
    requires length >= 1 && k <= limit
    ensures Passes(limit, length, Zeros(limit - k), Burst(k, n)) == Zeros(k + n)
    ensures Errors(Burst(k, n)) == Zeros(n)
    decreases k + n
  {
    if k > 0 {
      BurstPasses(length, limit, k - 1, n);
      RecordedZero(length, limit, limit - k, Burst(k - 1, n));
      assert [0.0] + Zeros(k - 1 + n) == Zeros(k + n);
    } else if n > 0 {
      BurstPasses(length, limit, 0, n - 1);
      BrokenZero(length, limit, Zeros(limit), Burst(0, n - 1));
      assert [0.0] + Zeros(n - 1) == Zeros(n);
    }
  }

  /** The bound with `extra` on top, for a window that saw at most `n` errors. */
  ghost predicate BoundedBut(w: Window, length: int, limit: int, n: nat, extra: int, requests: seq<Request>) {
    InTime(requests) && CountIn(w, length, Errors(requests)) <= n ==>
      CountIn(w, length, Passes(limit, length, [], requests)) <= limit + extra
  }

  /** Errors cost exactly what they are: windows with at most `n` of them let through at most `extra` requests beyond
      the limit, in every run, if and only if `extra` is at least `n`. */
  lemma ErrorsCostIff(length: int, limit: int, n: nat, extra: int)
    requires limit >= 1 && length >= 1
    ensures (forall w, requests :: BoundedBut(w, length, limit, n, extra, requests)) <==> extra >= n
  {
    if extra >= n {
      forall w, requests ensures BoundedBut(w, length, limit, n, extra, requests) {
        if InTime(requests) {
          PassesBounded(w, length, limit, requests);
        }
      }
    } else {
      BurstPasses(length, limit, limit, n);
      assert Zeros(0) == [];
      CountZeros(length, n);
      CountZeros(length, limit + n);
      assert !BoundedBut(From(0.0), length, limit, n, extra, Burst(limit, n));
    }
  }

  // --- exactly when the bound holds ------------------------------------------------------------------------

  ghost predicate Bounded(w: Window, length: int, limit: int, times: seq<real>) {
    CountIn(w, length, Admissions(limit, length, [], times)) <= limit
  }

  /** A limit below 1 bounds nothing: the script refuses, but has no time to come back to, and the request goes
      through.  So the bound holds exactly for limits of at least 1. */
  lemma BoundedIff(length: int, limit: int)
    requires length >= 1
    ensures (forall w, times | Ordered(times) :: Bounded(w, length, limit, times)) <==> limit >= 1
  {
    if limit >= 1 {
      forall w, times | Ordered(times) ensures Bounded(w, length, limit, times) {
        AdmissionsBounded(w, length, limit, times);
      }
    } else {
      var w, times := From(0.0), [0.0];
      assert Admissions(limit, length, [], times)
        == [0.0] + Admissions(limit, length, EntriesAfter(limit, length, [], 0.0), times[1..]);
      assert times[1..] == [];
      assert Admissions(limit, length, [], times) == [0.0];
      assert CountIn(w, length, [0.0]) == 1;
      assert !Bounded(w, length, limit, times);
    }
  }

  lemma {:induction false} LowLimitAdmits(window: int, limit: int, times: seq<real>)
    requires limit < 1
    ensures Admissions(limit, window, [], times) == times
    decreases |times|
  {
    if times != [] {
      LowLimitAdmits(window, limit, times[1..]);
    }
  }

  ghost predicate AdmitsAll(limit: int, window: int, times: seq<real>) {
    Admissions(limit, window, [], times) == times
  }

  /** Every request of every run from an empty key is admitted if and only if the limit is below 1. */
  lemma AdmitsEverythingIff(window: int, limit: int)
    requires window >= 1
    ensures (forall times | Ordered(times) :: AdmitsAll(limit, window, times)) <==> limit < 1
  {
    if limit < 1 {
      forall times | Ordered(times) ensures AdmitsAll(limit, window, times) {
        LowLimitAdmits(window, limit, times);
      }
    } else {
      var times := Zeros(limit + 1);
      AdmissionsBounded(From(0.0), window, limit, times);
      CountZeros(window, limit + 1);
      assert !AdmitsAll(limit, window, times);
    }
  }

  // --- the key's expiry ------------------------------------------------------------------------------------

  datatype Call = Call(now: real, gone: bool)

  /** The answers of a key that may be gone at some of the calls, `expiresAt` being when it may be. */
  function ExpiringAnswers(limit: int, window: int, entries: seq<real>, calls: seq<Call>): seq<Answer>
    decreases |calls|
  {
    if calls == [] then []
    else
      var found := if calls[0].gone then [] else entries;
      [AnswerOf(limit, window, found, calls[0].now)]
      + ExpiringAnswers(limit, window, EntriesAfter(limit, window, found, calls[0].now), calls[1..])
  }

  function Answers(limit: int, window: int, entries: seq<real>, calls: seq<Call>): seq<Answer>
    decreases |calls|
  {
    if calls == [] then []
    else
      [AnswerOf(limit, window, entries, calls[0].now)]
      + Answers(limit, window, EntriesAfter(limit, window, entries, calls[0].now), calls[1..])
  }

  function ExpiresAfter(limit: int, window: int, entries: seq<real>, expiresAt: real, now: real): real {
    if |Cleared(entries, now - window as real)| < limit then now + window as real else expiresAt
  }

  /** The key is gone only from its expiry on, which every admission sets anew. */
  ghost predicate Expiring(limit: int, window: int, entries: seq<real>, expiresAt: real, calls: seq<Call>)
    decreases |calls|
  {
    calls == [] || (
      var found := if calls[0].gone then [] else entries;
      var now := calls[0].now;
      && (calls[0].gone && entries != [] ==> expiresAt <= now)
      && Expiring(limit, window, EntriesAfter(limit, window, found, now),
                  ExpiresAfter(limit, window, found, expiresAt, now), calls[1..]))
  }

  lemma {:induction false} OldEntriesClear(entries: seq<real>, until: real)
    requires forall i | 0 <= i < |entries| :: 0.0 <= entries[i] <= until
    ensures Cleared(entries, until) == []
  {
    if entries != [] {
      OldEntriesClear(entries[..|entries| - 1], until);
    }
  }

  lemma {:induction false} ClearedIsPart(entries: seq<real>, until: real, bound: real)
    requires forall i | 0 <= i < |entries| :: 0.0 <= entries[i] <= bound
    ensures forall i | 0 <= i < |Cleared(entries, until)| :: 0.0 <= Cleared(entries, until)[i] <= bound
  {
    if entries != [] {
      ClearedIsPart(entries[..|entries| - 1], until, bound);
    }
  }

  /** The entries are no later than the last admission, a window before the expiry. */
  ghost predicate Tracked(entries: seq<real>, window: int, expiresAt: real) {
    forall i | 0 <= i < |entries| :: 0.0 <= entries[i] <= expiresAt - window as real
  }

  lemma ExpiryStep(limit: int, window: int, entries: seq<real>, expiresAt: real, now: real)
    requires window >= 1 && Tracked(entries, window, expiresAt) && 0.0 <= now
    requires entries != [] ==> expiresAt - window as real <= now
    ensures var recorded := |Cleared(entries, now - window as real)| < limit;
      var after := EntriesAfter(limit, window, entries, now);
      var expires := if recorded then now + window as real else expiresAt;
      Tracked(after, window, expires) && (after != [] ==> expires - window as real <= now)
  {
    ClearedIsPart(entries, now - window as real, expiresAt - window as real);
    var current := Cleared(entries, now - window as real);
    assert entries == [] ==> current == [];
  }

  lemma GoneIsCleared(limit: int, window: int, entries: seq<real>, expiresAt: real, call: Call)
    requires window >= 1 && Tracked(entries, window, expiresAt)
    requires call.gone && entries != [] ==> expiresAt <= call.now
    ensures var found := if call.gone then [] else entries;
      && Cleared(found, call.now - window as real) == Cleared(entries, call.now - window as real)
      && AnswerOf(limit, window, found, call.now) == AnswerOf(limit, window, entries, call.now)
      && EntriesAfter(limit, window, found, call.now) == EntriesAfter(limit, window, entries, call.now)
  {
    if call.gone && entries != [] {
      OldEntriesClear(entries, call.now - window as real);
    }
  }

  ghost predicate InOrder(calls: seq<Call>) {
    && (forall i, j | 0 <= i < j < |calls| :: calls[i].now <= calls[j].now)
    && (forall i | 0 <= i < |calls| :: 0.0 <= calls[i].now)
  }

  /** The first call leaves everything the rest of the run needs. */
  lemma FirstCall(limit: int, window: int, entries: seq<real>, expiresAt: real, calls: seq<Call>)
    requires window >= 1 && Tracked(entries, window, expiresAt) && InOrder(calls) && calls != []
    requires entries != [] ==> expiresAt - window as real <= calls[0].now
    ensures var now := calls[0].now;
      var after := EntriesAfter(limit, window, entries, now);
      var expires := ExpiresAfter(limit, window, entries, expiresAt, now);
      && Tracked(after, window, expires) && InOrder(calls[1..])
      && (after != [] && calls[1..] != [] ==> expires - window as real <= calls[1..][0].now)
  {
    ExpiryStep(limit, window, entries, expiresAt, calls[0].now);
    assert |calls| > 1 ==> calls[0].now <= calls[1].now;
  }

  lemma RestExpiring(limit: int, window: int, entries: seq<real>, expiresAt: real, calls: seq<Call>)
    requires window >= 1 && Tracked(entries, window, expiresAt) && calls != []
    requires Expiring(limit, window, entries, expiresAt, calls)
    ensures Expiring(limit, window, EntriesAfter(limit, window, entries, calls[0].now),
                     ExpiresAfter(limit, window, entries, expiresAt, calls[0].now), calls[1..])
  {
    var found, now := if calls[0].gone then [] else entries, calls[0].now;
    assert Expiring(limit, window, EntriesAfter(limit, window, found, now),
                    ExpiresAfter(limit, window, found, expiresAt, now), calls[1..]);
    GoneIsCleared(limit, window, entries, expiresAt, calls[0]);
    assert ExpiresAfter(limit, window, found, expiresAt, now) == ExpiresAfter(limit, window, entries, expiresAt, now);
  }

  /** EXPIRE changes no answer: when the key may be gone, the script would have cleared everything in it. */
  lemma {:induction false} ExpiryUnobservable(limit: int, window: int, entries: seq<real>, expiresAt: real,
                                              calls: seq<Call>)
    requires window >= 1 && Tracked(entries, window, expiresAt) && InOrder(calls)
    requires entries != [] && calls != [] ==> expiresAt - window as real <= calls[0].now
    requires Expiring(limit, window, entries, expiresAt, calls)
    ensures ExpiringAnswers(limit, window, entries, calls) == Answers(limit, window, entries, calls)
    decreases |calls|
  {
    if calls != [] {
      FirstCall(limit, window, entries, expiresAt, calls);
      RestExpiring(limit, window, entries, expiresAt, calls);
      GoneIsCleared(limit, window, entries, expiresAt, calls[0]);
      ExpiryUnobservable(limit, window, EntriesAfter(limit, window, entries, calls[0].now),
                         ExpiresAfter(limit, window, entries, expiresAt, calls[0].now), calls[1..]);
    }
  }
}
