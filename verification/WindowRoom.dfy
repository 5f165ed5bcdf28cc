/** What the per-route limit admits, said without the sorted set: a request goes through exactly when the window that
    ends at it holds fewer admissions than the limit.  And what its answers say. */
module WindowRoom {
  import opened SlidingWindow

  function EntriesOver(limit: int, length: int, entries: seq<real>, times: seq<real>): seq<real>
    decreases |times|
  {
    if times == [] then entries
    else EntriesOver(limit, length, EntriesAfter(limit, length, entries, times[0]), times[1..])
  }

  /** The request itself, if it is let through. */
  function Passed(limit: int, length: int, entries: seq<real>, t: real): seq<real> {
    if Refused(AnswerOf(limit, length, entries, t)) then [] else [t]
  }

  lemma FirstAdmission(limit: int, length: int, entries: seq<real>, t: real, times: seq<real>)
    ensures Admissions(limit, length, entries, [t] + times) ==
      Passed(limit, length, entries, t)
      + Admissions(limit, length, EntriesAfter(limit, length, entries, t), times)
  {
    assert ([t] + times)[1..] == times;
  }

  /** One more request adds itself to the admissions or nothing. */
  ghost predicate AddsItself(limit: int, length: int, entries: seq<real>, times: seq<real>, t: real) {
    Admissions(limit, length, entries, times + [t]) ==
      Admissions(limit, length, entries, times) + Passed(limit, length, EntriesOver(limit, length, entries, times), t)
  }

  lemma AloneAddsItself(limit: int, length: int, entries: seq<real>, t: real)
    ensures AddsItself(limit, length, entries, [], t)
  {
    FirstAdmission(limit, length, entries, t, []);
    assert [t] + [] == [] + [t];
  }

  lemma AddsItselfAfter(limit: int, length: int, entries: seq<real>, first: real, rest: seq<real>, t: real)
    requires AddsItself(limit, length, EntriesAfter(limit, length, entries, first), rest, t)
    ensures AddsItself(limit, length, entries, [first] + rest, t)
  {
    var after := EntriesAfter(limit, length, entries, first);
    FirstAdmission(limit, length, entries, first, rest);
    FirstAdmission(limit, length, entries, first, rest + [t]);
    assert ([first] + rest)[1..] == rest;
    assert [first] + rest + [t] == [first] + (rest + [t]);
    Regroup(Passed(limit, length, entries, first), Admissions(limit, length, after, rest),
            Passed(limit, length, EntriesOver(limit, length, after, rest), t));
  }

  lemma Regroup(a: seq<real>, b: seq<real>, c: seq<real>)
    ensures a + (b + c) == a + b + c
  {
  }

  lemma {:induction false} OneMoreAdmission(limit: int, length: int, entries: seq<real>, times: seq<real>, t: real)
    ensures AddsItself(limit, length, entries, times, t)
    decreases |times|
  {
    if times == [] {
      AloneAddsItself(limit, length, entries, t);
    } else {
      OneMoreAdmission(limit, length, EntriesAfter(limit, length, entries, times[0]), times[1..], t);
      AddsItselfAfter(limit, length, entries, times[0], times[1..], t);
      assert [times[0]] + times[1..] == times;
    }
  }

  ghost predicate UpTo(entries: seq<real>, t: real) {
    forall i | 0 <= i < |entries| :: 0.0 <= entries[i] <= t
  }

  /** Until a window is over, the set holds exactly the admissions in it, and at most `limit` of them. */
  lemma {:induction false} WindowHeld(w: Window, length: int, limit: int, entries: seq<real>, times: seq<real>, t: real)
    requires limit >= 1 && length >= 1 && UpTo(entries, t) && UpTo(times, t) && Ordered(times) && !Beyond(w, length, t)
    requires CountIn(w, length, entries) <= limit
    ensures var over := EntriesOver(limit, length, entries, times);
      && UpTo(over, t)
      && CountIn(w, length, over)
         == CountIn(w, length, entries) + CountIn(w, length, Admissions(limit, length, entries, times)) <= limit
    decreases |times|
  {
    if times != [] {
      var now := times[0];
      var after := EntriesAfter(limit, length, entries, now);
      var first := Passed(limit, length, entries, now);
      WindowStep(w, length, limit, entries, now);
      ClearedIsPart(entries, now - length as real, t);
      WindowHeld(w, length, limit, after, times[1..], t);
      CountInAppend(w, length, first, Admissions(limit, length, after, times[1..]));
    }
  }

  /** What is left after clearing at `t` is what lies in the window that ends at `t`. */
  lemma {:induction false} ClearedIsWindow(entries: seq<real>, length: int, t: real)
    requires UpTo(entries, t)
    ensures |Cleared(entries, t - length as real)| == CountIn(After(t - length as real), length, entries)
  {
    if entries != [] {
      ClearedIsWindow(entries[..|entries| - 1], length, t);
    }
  }

  lemma EntriesInWindow(limit: int, length: int, times: seq<real>, t: real)
    requires limit >= 1 && length >= 1 && Ordered(times + [t])
    ensures var over := EntriesOver(limit, length, [], times);
      var past := Admissions(limit, length, [], times);
      && UpTo(over, t)
      && |Cleared(over, t - length as real)| == CountIn(After(t - length as real), length, past) <= limit
  {
    var all := times + [t];
    forall i, j | 0 <= i < j < |times| ensures times[i] <= times[j] {
      assert all[i] <= all[j];
    }
    forall i | 0 <= i < |times| ensures 0.0 <= times[i] <= t {
      assert 0.0 <= all[i] <= all[|times|];
    }
    WindowHeld(After(t - length as real), length, limit, [], times, t);
    ClearedIsWindow(EntriesOver(limit, length, [], times), length, t);
  }

  /** In any run from an empty key, a request is admitted exactly when fewer than `limit` were in the window that ends
      with it; the count answered is theirs, with this one if it is admitted. */
  lemma AdmittedIff(limit: int, length: int, times: seq<real>, t: real)
    requires limit >= 1 && length >= 1 && Ordered(times + [t])
    ensures var past := Admissions(limit, length, [], times);
      var recent := CountIn(After(t - length as real), length, past);
      && Admissions(limit, length, [], times + [t]) == (if recent < limit then past + [t] else past)
      && AnswerOf(limit, length, EntriesOver(limit, length, [], times), t).count
         == (if recent < limit then recent + 1 else limit)
  {
    var over := EntriesOver(limit, length, [], times);
    var past := Admissions(limit, length, [], times);
    EntriesInWindow(limit, length, times, t);
    OneMoreAdmission(limit, length, [], times, t);
    RefusedIff(limit, length, over, t);
    assert past + [] == past;
  }

  lemma WholeDropsFraction(x: real)
    requires x >= 0.0
    ensures Whole(x) as real <= x < Whole(x) as real + 1.0
  {
  }

  /** Clearing takes something away exactly when some entry is old enough. */
  lemma {:induction false} ClearedLessIff(entries: seq<real>, until: real)
    requires NonNegative(entries)
    ensures |Cleared(entries, until)| <= |entries|
    ensures |Cleared(entries, until)| < |entries| <==> exists i :: 0 <= i < |entries| && entries[i] <= until
  {
    if entries != [] {
      var rest := entries[..|entries| - 1];
      ClearedLessIff(rest, until);
      if i :| 0 <= i < |rest| && entries[i] <= until {
        assert rest[i] <= until;
      }
    }
  }

  /** A refused request is told when to come back: `reset` is the moment from which the next request, if none comes in
      between, is admitted, without its fraction of a second. */
  lemma ResetIsWhenRoomReturns(limit: int, length: int, times: seq<real>, t: real) returns (room: real)
    requires limit >= 1 && length >= 1 && Ordered(times + [t])
    requires Admissions(limit, length, [], times + [t]) == Admissions(limit, length, [], times)
    ensures var answer := AnswerOf(limit, length, EntriesOver(limit, length, [], times), t);
      answer.resetAt as real <= room < answer.resetAt as real + 1.0 && t < room
    ensures forall u | t <= u ::
      Refused(AnswerOf(limit, length, EntriesOver(limit, length, [], times + [t]), u)) <==> u < room
  {
    var over := EntriesOver(limit, length, [], times);
    var current := Cleared(over, t - length as real);
    AdmittedIff(limit, length, times, t);
    EntriesInWindow(limit, length, times, t);
    assert |current| == limit;
    ClearedIsLater(over, t - length as real);
    OldestIsOne(current);
    room := Oldest(current) + length as real;
    WholeDropsFraction(room);
    EntriesOneMore(limit, length, [], times, t);
    forall u | t <= u ensures Refused(AnswerOf(limit, length, current, u)) <==> u < room {
      RefusedIff(limit, length, current, u);
      ClearedLessIff(current, u - length as real);
    }
  }

  // --- Retry-After -----------------------------------------------------------------------------------------

  /** The seconds the dependency tells a refused caller to wait. */
  function RetryAfter(resetAt: int, now: real): int {
    var seconds := Whole(resetAt as real - now);
    if seconds > 1 then seconds else 1
  }

  predicate IsWhole(x: real) {
    x == x.Floor as real
  }

  lemma WholeOf(n: int)
    ensures IsWhole(n as real)
  {
  }

  lemma WholeNumbersApart(resetAt: int, seconds: int, now: real, room: real)
    requires resetAt as real <= room < resetAt as real + 1.0
    requires seconds as real <= resetAt as real - now < seconds as real + 1.0
    requires IsWhole(room) && IsWhole(now)
    ensures room - now == seconds as real
  {
    var r, n := room.Floor, now.Floor;
    assert r == resetAt && r - n == seconds;
  }

  lemma NothingCutOff(resetAt: int, seconds: int, now: real, room: real)
    requires resetAt as real <= room && seconds as real <= resetAt as real - now && room - now == seconds as real
    ensures IsWhole(room) && IsWhole(now)
  {
    WholeOf(resetAt);
    WholeOf(resetAt - seconds);
    assert room == resetAt as real && now == (resetAt - seconds) as real;
  }

  lemma RetryReachesIff(resetAt: int, now: real, room: real)
    requires 0.0 <= now < room && resetAt as real <= room < resetAt as real + 1.0
    ensures now + RetryAfter(resetAt, now) as real >= room <==> room - now <= 1.0 || (IsWhole(room) && IsWhole(now))
    ensures now + RetryAfter(resetAt, now) as real > room - 2.0
  {
    var wait := resetAt as real - now;
    if wait < 0.0 {
      assert (-wait).Floor == 0;
    } else {
      WholeDropsFraction(wait);
      var seconds := Whole(wait);
      if IsWhole(room) && IsWhole(now) {
        WholeNumbersApart(resetAt, seconds, now, room);
      }
      if room - now == seconds as real {
        NothingCutOff(resetAt, seconds, now, room);
      }
    }
  }

  /** A caller that waits as long as it was told, with no request in between, is admitted exactly when the window has
      room within a second or nothing was cut off: both numbers lose their fraction, so that Retry-After may be up to
      two seconds short. */
  lemma RetryAfterSufficesIff(limit: int, length: int, times: seq<real>, t: real) returns (room: real)
    requires limit >= 1 && length >= 1 && Ordered(times + [t])
    requires Admissions(limit, length, [], times + [t]) == Admissions(limit, length, [], times)
    ensures var answer := AnswerOf(limit, length, EntriesOver(limit, length, [], times), t);
      var later := t + RetryAfter(answer.resetAt, t) as real;
      var after := EntriesOver(limit, length, [], times + [t]);
      && (forall u | t <= u :: Refused(AnswerOf(limit, length, after, u)) <==> u < room)
      && (!Refused(AnswerOf(limit, length, after, later)) <==> room - t <= 1.0 || (IsWhole(room) && IsWhole(t)))
      && later > room - 2.0
  {
    room := ResetIsWhenRoomReturns(limit, length, times, t);
    assert (times + [t])[|times|] == t;
    var resetAt := AnswerOf(limit, length, EntriesOver(limit, length, [], times), t).resetAt;
    RetryReachesIff(resetAt, t, room);
  }

  /** For one: told at second 1 to wait 59, when the only entry is of second 0.5 and the window a minute. */
  lemma RetryAfterMayBeShort()
    ensures var answer := AnswerOf(1, 60, EntriesOver(1, 60, [], [0.5]), 1.0);
      && RetryAfter(answer.resetAt, 1.0) == 59
      && Refused(AnswerOf(1, 60, EntriesOver(1, 60, [], [0.5, 1.0]), 60.0))
  {
    ClearedOne(0.5, -59.0);
    ClearedOne(0.5, 0.0);
    OverOne(1, 60, 0.5);
    EntriesOneMore(1, 60, [], [0.5], 1.0);
    assert [0.5] + [1.0] == [0.5, 1.0];
    assert (60.5).Floor == 60 && (59.0).Floor == 59;
  }

  lemma ClearedOne(x: real, until: real)
    ensures Cleared([x], until) == if 0.0 <= x <= until then [] else [x]
  {
    assert [x][..0] == [];
  }

  lemma OverOne(limit: int, length: int, t: real)
    requires limit >= 1
    ensures EntriesOver(limit, length, [], [t]) == [t]
  {
    assert [t][1..] == [] && [] + [t] == [t];
  }

  lemma {:induction false} EntriesOneMore(limit: int, length: int, entries: seq<real>, times: seq<real>, t: real)
    ensures EntriesOver(limit, length, entries, times + [t])
      == EntriesAfter(limit, length, EntriesOver(limit, length, entries, times), t)
    decreases |times|
  {
    if times == [] {
      assert ([] + [t])[1..] == [];
    } else {
      EntriesOneMore(limit, length, EntriesAfter(limit, length, entries, times[0]), times[1..], t);
      assert (times + [t])[1..] == times[1..] + [t];
    }
  }
}
