/** A run of two relays that end up holding one row although no reclaim ran since the first of their claims. */
module OutboxLateStamp {
  import opened Wrappers
  import opened OutboxModel
  import opened OutboxInvariant

  const ROW: EventId := "row"
  const EVENT := Event("shipment.updated", map[])

  /** Relay 1 claims and stalls; the row is reclaimed; relay 2 claims it; relay 1's publish fails at last and its
      stamp writes `pending` over relay 2's claim; relay 1 claims again. */
  function LateStampStep(k: nat): Step
    requires k < 10
  {
    match k
    case 0 => Stage(0, ROW, EVENT)
    case 1 => Commit(0, 0.0, false)
    case 2 => Tick(31.0)
    case 3 => Claim(1, [ROW], {}, 31.0, 31.0)
    case 4 => Tick(301.0)
    case 5 => Reclaim(332.0, 332.0)
    case 6 => Claim(2, [ROW], {}, 332.0, 332.0)
    case 7 => RelayPublish(1, Failed(false, "closed"))
    case 8 => Stamp(1, 332.0)
    case _ => Claim(1, [ROW], {}, 332.0, 332.0)
  }

  /** The states of the run once ROW is committed. */
  function Point(now: real, row: Row, relays: map<Relay, Batch>, claimed: set<EventId>, late: map<EventId,
                 Late>): System
  {
    System(now, map[ROW := row], map[], map[], {}, relays, [],
           History(map[ROW := Birth(EVENT, 0.0)], {}, claimed, late))
  }

  function RowAt(status: Status, attempts: nat, updatedAt: real, error: Option<string>): Row {
    Row(EVENT, status, attempts, 0.0, updatedAt, None, error)
  }

  function Held(claimedAt: real, ticket: nat): Batch {
    Batch(claimedAt, [Claimed(ROW, EVENT)], map[ROW := ticket], 0, {}, map[])
  }

  const FAILED := Batch(31.0, [Claimed(ROW, EVENT)], map[ROW := 1], 1, {}, map[ROW := "closed"])
  const LATE := map[ROW := Late(31.0, 332.0)]

  function LateStampState(k: nat): System
    requires k <= 10
  {
    match k
    case 0 => Init(0.0)
    case 1 => Init(0.0).(staged := map[ROW := Staged(0, EVENT)])
    case 2 => Point(0.0, NewRow(EVENT, 0.0), map[], {}, map[])
    case 3 => Point(31.0, NewRow(EVENT, 0.0), map[], {}, map[])
    case 4 => Point(31.0, RowAt(Publishing, 1, 31.0, None), map[1 := Held(31.0, 1)], {ROW}, map[])
    case 5 => Point(332.0, RowAt(Publishing, 1, 31.0, None), map[1 := Held(31.0, 1)], {ROW}, map[])
    case 6 => Point(332.0, RowAt(Pending, 1, 332.0, None), map[1 := Held(31.0, 1)], {ROW}, LATE)
    case 7 => Point(332.0, RowAt(Publishing, 2, 332.0, None), map[1 := Held(31.0, 1)][2 := Held(332.0, 2)], {ROW}, LATE)
    case 8 => Point(332.0, RowAt(Publishing, 2, 332.0, None), map[1 := FAILED, 2 := Held(332.0, 2)], {ROW}, LATE)
    case 9 => Point(332.0, RowAt(Pending, 2, 332.0, Some("closed")), map[2 := Held(332.0, 2)], {ROW}, LATE)
    case _ => Point(332.0, RowAt(Publishing, 3, 332.0, Some("closed")),
                    map[2 := Held(332.0, 2)][1 := Held(332.0, 3)], {ROW}, LATE)
  }

  /** A claim of the one row there is. */
  lemma ClaimRow(now: real, row: Row, relays: map<Relay, Batch>, claimed: set<EventId>, late: map<EventId, Late>,
                 relay: Relay)
    requires Due(row, now) && row.event == EVENT && relay !in relays
    ensures var s := Point(now, row, relays, claimed, late);
      && Enabled(s, Claim(relay, [ROW], {}, now, now))
      && Apply(s, Claim(relay, [ROW], {}, now, now))
         == Point(now, row.(status := Publishing, attempts := row.attempts + 1, updatedAt := now),
                  relays[relay := Held(now, row.attempts + 1)], claimed + {ROW}, late)
  {
    var s := Point(now, row, relays, claimed, late);
    assert SetOf([ROW]) == {ROW} by {
      assert [ROW][0] in SetOf([ROW]);
    }
    assert IsClaimBatch(s.table, [ROW], {}, now);
    assert Taken(s.table, [ROW]) == [Claimed(ROW, EVENT)];
    assert TicketsFor(s.table, {ROW}) == map[ROW := row.attempts + 1];
  }

  ghost function Next(s: System, step: Step): Option<System> {
    if Enabled(s, step) then Some(Apply(s, step)) else None
  }

  ghost predicate Leads(k: nat)
    requires k < 10
  {
    Next(LateStampState(k), LateStampStep(k)) == Some(LateStampState(k + 1))
  }

  lemma FirstClaimReached()
    ensures Leads(3)
  {
    var nobody: map<Relay, Batch>, none: set<EventId> := map[], {};
    assert nobody[1 := Held(31.0, 1)] == map[1 := Held(31.0, 1)] && none + {ROW} == {ROW};
    ClaimRow(31.0, NewRow(EVENT, 0.0), nobody, none, map[], 1);
  }

  lemma SecondClaimReached()
    ensures Leads(6)
  {
    assert {ROW} + {ROW} == {ROW};
    ClaimRow(332.0, RowAt(Pending, 1, 332.0, None), map[1 := Held(31.0, 1)], {ROW}, LATE, 2);
  }

  lemma ThirdClaimReached()
    ensures Leads(9)
  {
    assert {ROW} + {ROW} == {ROW};
    ClaimRow(332.0, RowAt(Pending, 2, 332.0, Some("closed")), map[2 := Held(332.0, 2)], {ROW}, LATE, 1);
  }

  lemma StepReaches(k: nat)
    requires k < 10
    ensures Leads(k)
  {
    match k
    case 0 => CommitReached();
    case 1 => CommitReached();
    case 3 => FirstClaimReached();
    case 5 => ReclaimReached();
    case 6 => SecondClaimReached();
    case 7 => PublishReached();
    case 8 => StampReached();
    case 9 => ThirdClaimReached();
    case _ => TickReached(k);
  }

  lemma TickReached(k: nat)
    requires k == 2 || k == 4
    ensures Leads(k)
  {
  }

  lemma CommitReached()
    ensures Enabled(LateStampState(0), LateStampStep(0)) && Enabled(LateStampState(1), LateStampStep(1))
    ensures Apply(LateStampState(0), LateStampStep(0)) == LateStampState(1)
    ensures Apply(LateStampState(1), LateStampStep(1)) == LateStampState(2)
  {
    assert StagedBy(LateStampState(1).staged, {0}) == {ROW};
  }

  lemma ReclaimReached()
    ensures Enabled(LateStampState(5), LateStampStep(5))
    ensures Apply(LateStampState(5), LateStampStep(5)) == LateStampState(6)
  {
    var s := LateStampState(5);
    assert ROW in s.relays[1].tickets;
    assert NewlyLate(s, 332.0) == LATE;
  }

  lemma PublishReached()
    ensures Enabled(LateStampState(7), LateStampStep(7))
    ensures Apply(LateStampState(7), LateStampStep(7)) == LateStampState(8)
  {
    assert Recorded(Held(31.0, 1), Failed(false, "closed")) == FAILED;
  }

  lemma StampReached()
    ensures Enabled(LateStampState(8), LateStampStep(8))
    ensures Apply(LateStampState(8), LateStampStep(8)) == LateStampState(9)
  {
  }

  function LateStampRun(from: nat): seq<Step>
    requires from <= 10
    decreases 10 - from
  {
    if from == 10 then [] else [LateStampStep(from)] + LateStampRun(from + 1)
  }

  lemma {:induction false} RunReaches(from: nat)
    requires from <= 10
    ensures IsRun(LateStampState(from), LateStampRun(from))
    ensures After(LateStampState(from), LateStampRun(from)) == LateStampState(10)
    decreases 10 - from
  {
    if from < 10 {
      StepReaches(from);
      RunReaches(from + 1);
      assert LateStampRun(from)[1..] == LateStampRun(from + 1);
    }
  }

  /** "Two relays hold a row only if a reclaim ran between their claims" fails: at the end of this run relays 1
      and 2 hold ROW, and relay 2's claim (step 6), the first of the two, is followed by no reclaim. */
  lemma NoReclaimBetweenTheirClaims()
    ensures IsRun(Init(0.0), LateStampRun(0))
    ensures Holds(After(Init(0.0), LateStampRun(0)), 2, ROW) && Holds(After(Init(0.0), LateStampRun(0)), 1, ROW)
    ensures forall k | 6 <= k < 10 :: !LateStampStep(k).Reclaim?
  {
    RunReaches(0);
    BothHoldAtTheEnd();
  }

  lemma BothHoldAtTheEnd()
    ensures Init(0.0) == LateStampState(0)
    ensures Holds(LateStampState(10), 2, ROW) && Holds(LateStampState(10), 1, ROW)
  {
  }
}
