/** What the outbox promises, over whole runs. */
module OutboxTheorems {
  import opened OutboxModel
  import opened OutboxInvariant

  lemma {:induction false} RunKeepsInv(s: System, steps: seq<Step>)
    requires Inv(s) && IsRun(s, steps)
    ensures Inv(After(s, steps))
    decreases |steps|
  {
    if steps != [] {
      InvKept(s, steps[0]);
      RunKeepsInv(Apply(s, steps[0]), steps[1..]);
    }
  }

  // --- how many copies of an event the broker gets ---------------------------------------------------------

  function Copies(log: seq<Delivery>, id: EventId): nat {
    if log == [] then 0
    else Copies(log[..|log| - 1], id) + if log[|log| - 1].id == id then 1 else 0
  }

  ghost function TicketsOf(log: seq<Delivery>, id: EventId): set<nat> {
    set p | p in SentTickets(log) && p.0 == id :: p.1
  }

  /** Where no ticket repeats, counting copies is counting tickets. */
  lemma {:induction false} CopiesAreTickets(log: seq<Delivery>, id: EventId)
    requires NoRepeat(log)
    ensures Copies(log, id) == |TicketsOf(log, id)|
    ensures Copies(log, id) > 0 <==> id in SentIds(log)
  {
    if log != [] {
      var rest, last := log[..|log| - 1], log[|log| - 1];
      CopiesAreTickets(rest, id);
      if last.id == id {
        assert TicketsOf(log, id) == TicketsOf(rest, id) + {last.ticket};
      } else {
        assert TicketsOf(log, id) == TicketsOf(rest, id);
      }
    }
  }

  lemma {:induction false} SmallSet(tickets: set<nat>, bound: nat)
    requires forall t | t in tickets :: t <= bound
    ensures |tickets| <= bound + 1
  {
    var rest := tickets - {bound};
    if bound == 0 {
      assert rest == {};
    } else {
      SmallSet(rest, bound - 1);
    }
    assert tickets <= rest + {bound};
  }

  /** Every run, with any interleaving of sessions, publishes, relays and crashes: a committed event is in the
      table or has reached the broker; a row that says published, or is gone, has reached it; an event whose
      session rolled back or died has not; and an event reaches it at most RELAY_MAX_ATTEMPTS + 1 times, each
      copy being the committed event stamped the same way. */
  lemma NothingLostNothingInvented(now: real, steps: seq<Step>, id: EventId)
    requires IsRun(Init(now), steps)
    ensures var t := After(Init(now), steps);
      && (id in t.history.committed ==> id in t.table || Copies(t.log, id) > 0)
      && (id in t.table && t.table[id].status == Published ==> Copies(t.log, id) > 0)
      && (id in t.history.dropped ==> Copies(t.log, id) == 0 && id !in t.table)
      && Copies(t.log, id) <= RELAY_MAX_ATTEMPTS + 1
      && (forall k | 0 <= k < |t.log| && t.log[k].id == id ::
            && id in t.history.committed
            && t.log[k].message == Stamped(t.history.committed[id].event.payload, id)
            && t.log[k].routingKey == t.history.committed[id].event.routingKey)
  {
    RunKeepsInv(Init(now), steps);
    var t := After(Init(now), steps);
    CopiesAreTickets(t.log, id);
    SmallSet(TicketsOf(t.log, id), RELAY_MAX_ATTEMPTS);
    forall k | 0 <= k < |t.log| && t.log[k].id == id
      ensures FromCommit(t.history.committed, t.log[k]) {}
  }

  // --- single delivery -------------------------------------------------------------------------------------

  /** Marked before any relay could claim it. */
  ghost predicate Settled(s: System, id: EventId) {
    && id in s.history.committed && id !in s.history.claimed && id in SentIds(s.log)
    && (id in s.table ==> s.table[id].status == Published)
  }

  lemma SettledKept(s: System, step: Step, id: EventId)
    requires Inv(s) && Enabled(s, step) && Settled(s, id)
    ensures Settled(Apply(s, step), id)
  {
    match step
    case PublishNow(other, attempt) => LogGrows(s.log, attempt, Delivered(other, 0, s.inflight[other]));
    case RelayPublish(relay, attempt) =>
      var b := s.relays[relay];
      LogGrows(s.log, attempt, Delivered(b.rows[b.next].id, b.tickets[b.rows[b.next].id], b.rows[b.next].event));
    case Stamp(relay, _) =>
      assert BatchShape(s.relays[relay]) && s.relays[relay].tickets.Keys <= s.history.claimed;
    case _ =>
  }

  lemma {:induction false} RunKeepsSettled(s: System, steps: seq<Step>, id: EventId)
    requires Inv(s) && IsRun(s, steps) && Settled(s, id)
    ensures Settled(After(s, steps), id)
    decreases |steps|
  {
    if steps != [] {
      InvKept(s, steps[0]);
      SettledKept(s, steps[0], id);
      RunKeepsSettled(Apply(s, steps[0]), steps[1..], id);
    }
  }

  /** If the immediate publish succeeds and its mark commits within the grace window, no relay ever claims the
      row and, however the run goes on, the event reaches the broker exactly once. */
  lemma DeliveredOnceInTime(now: real, before: seq<Step>, ids: set<EventId>, at: real, rest: seq<Step>, id: EventId)
    requires IsRun(Init(now), before)
    requires var s := After(Init(now), before);
      && Enabled(s, FlushMarks(ids, at)) && id in ids
      && IsRun(Apply(s, FlushMarks(ids, at)), rest)
      && (id in s.history.committed ==> s.now <= s.history.committed[id].createdAt + RELAY_GRACE_SECONDS)
    ensures var t := After(Apply(After(Init(now), before), FlushMarks(ids, at)), rest);
      Copies(t.log, id) == 1 && id !in t.history.claimed
  {
    var s := After(Init(now), before);
    var marked := Apply(s, FlushMarks(ids, at));
    RunKeepsInv(Init(now), before);
    MarkSettles(s, ids, at, id);
    InvKept(s, FlushMarks(ids, at));
    SettledStaysSingle(marked, rest, id);
  }

  lemma MarkSettles(s: System, ids: set<EventId>, at: real, id: EventId)
    requires Inv(s) && ids <= s.marks && id in ids
    requires id in s.history.committed ==> s.now <= s.history.committed[id].createdAt + RELAY_GRACE_SECONDS
    ensures Settled(s.(table := MarkedRows(s.table, ids, at), marks := s.marks - ids), id)
  {
    assert id in s.history.claimed ==> PastGrace(s, id);
  }

  lemma SettledStaysSingle(s: System, rest: seq<Step>, id: EventId)
    requires Inv(s) && IsRun(s, rest) && Settled(s, id)
    ensures Copies(After(s, rest).log, id) == 1 && id !in After(s, rest).history.claimed
  {
    RunKeepsInv(s, rest);
    RunKeepsSettled(s, rest, id);
    var t := After(s, rest);
    CopiesAreTickets(t.log, id);
    SmallSet(TicketsOf(t.log, id), 0);
  }

  // --- exclusive claims ------------------------------------------------------------------------------------

  /** Two relays hold one row only after a reclaim took it from a relay still holding it, more than
      RECLAIM_AFTER_SECONDS after that relay claimed it. */
  lemma TwoHoldersMeanALateReclaim(now: real, steps: seq<Step>, q: Relay, r: Relay, id: EventId)
    requires IsRun(Init(now), steps)
    requires q != r && Holds(After(Init(now), steps), q, id) && Holds(After(Init(now), steps), r, id)
    ensures var t := After(Init(now), steps);
      && id in t.history.late
      && t.history.late[id].claimedAt + RECLAIM_AFTER_SECONDS < t.history.late[id].reclaimedAt <= t.now
  {
    RunKeepsInv(Init(now), steps);
    var t := After(Init(now), steps);
    assert Apart(t.history.late, t.relays[q].tickets, t.relays[r].tickets);
  }

  /** Every relay is done with its batch within the reclaim window. */
  ghost predicate Prompt(s: System) {
    forall relay | relay in s.relays :: s.now <= s.relays[relay].claimedAt + RECLAIM_AFTER_SECONDS
  }

  ghost predicate PromptRun(s: System, steps: seq<Step>)
    requires IsRun(s, steps)
    decreases |steps|
  {
    Prompt(s) && (steps == [] || PromptRun(Apply(s, steps[0]), steps[1..]))
  }

  lemma NoneNewlyLate(s: System, asOf: real)
    requires Exclusive(s) && Prompt(s) && asOf <= s.now
    ensures NewlyLate(s, asOf) == map[]
  {
    forall id | id in HeldIds(s.relays) && id in s.table && id !in s.history.late ensures !Stuck(s.table[id], asOf) {
      var relay :| relay in s.relays && id in s.relays[relay].tickets;
      assert Guarded(s.table, s.history.late, s.relays[relay]);
    }
  }

  lemma PromptStepHasNoLate(s: System, step: Step)
    requires Exclusive(s) && Prompt(s) && s.history.late == map[] && Enabled(s, step)
    ensures Apply(s, step).history.late == map[]
  {
    if step.Reclaim? {
      NoneNewlyLate(s, step.asOf);
    }
  }

  lemma {:induction false} PromptRunHasNoLate(s: System, steps: seq<Step>)
    requires Inv(s) && s.history.late == map[] && IsRun(s, steps) && PromptRun(s, steps)
    ensures After(s, steps).history.late == map[]
    decreases |steps|
  {
    if steps != [] {
      PromptStepHasNoLate(s, steps[0]);
      InvKept(s, steps[0]);
      PromptRunHasNoLate(Apply(s, steps[0]), steps[1..]);
    }
  }

  /** While every relay stamps within RECLAIM_AFTER_SECONDS of its claim, claims are exclusive, whatever marks,
      reclaims and crashes happen beside them. */
  lemma PromptRelaysNeverShareARow(now: real, steps: seq<Step>, q: Relay, r: Relay, id: EventId)
    requires IsRun(Init(now), steps) && PromptRun(Init(now), steps)
    requires Holds(After(Init(now), steps), q, id) && Holds(After(Init(now), steps), r, id)
    ensures q == r
  {
    PromptRunHasNoLate(Init(now), steps);
    if q != r {
      TwoHoldersMeanALateReclaim(now, steps, q, r, id);
    }
  }

  /** A row one relay holds can be claimed by another exactly when it is pending with attempts to spare. */
  lemma SecondClaimIff(s: System, holder: Relay, other: Relay, id: EventId)
    requires Inv(s) && Holds(s, holder, id) && other !in s.relays && id in s.table
    ensures (exists batch, locked, asOf, began :: id in batch && Enabled(s, Claim(other, batch, locked, asOf, began)))
      <==> s.table[id].status == Pending && s.table[id].attempts < RELAY_MAX_ATTEMPTS
  {
    assert id in s.history.claimed;
    assert PastGrace(s, id);
    assert s.table[id].createdAt + RELAY_GRACE_SECONDS < s.now;
    ClaimableIff(s, other, id);
  }

  lemma ClaimableIff(s: System, other: Relay, id: EventId)
    requires id in s.table && s.table[id].createdAt + RELAY_GRACE_SECONDS < s.now && other !in s.relays
    ensures (exists batch, locked, asOf, began :: id in batch && Enabled(s, Claim(other, batch, locked, asOf, began)))
      <==> s.table[id].status == Pending && s.table[id].attempts < RELAY_MAX_ATTEMPTS
  {
    if s.table[id].status == Pending && s.table[id].attempts < RELAY_MAX_ATTEMPTS {
      var batch, locked := [id], s.table.Keys - {id};
      assert IsClaimBatch(s.table, batch, locked, s.now);
      assert id in batch && Enabled(s, Claim(other, batch, locked, s.now, s.now));
    }
  }

  /** While a relay holds a row that is not pending, only two things make it pending again: a reclaim that finds
      it stuck, or another relay that also holds it stamping it as failed. */
  lemma ReopenedWhileHeldIff(s: System, holder: Relay, id: EventId, step: Step)
    requires Births(s) && Enabled(s, step)
    requires Holds(s, holder, id) && Holds(Apply(s, step), holder, id)
    requires id in s.table && s.table[id].status != Pending
    ensures id in Apply(s, step).table && Apply(s, step).table[id].status == Pending
      <==> (step.Reclaim? && Stuck(s.table[id], step.asOf))
           || (step.Stamp? && step.relay != holder && id in s.relays[step.relay].failed)
  {
    assert id in s.history.committed && id !in s.staged;
    ReopenedIff(s, holder, id, step);
  }

  lemma ReopenedIff(s: System, holder: Relay, id: EventId, step: Step)
    requires Enabled(s, step) && id !in s.staged
    requires Holds(s, holder, id) && Holds(Apply(s, step), holder, id)
    requires id in s.table && s.table[id].status != Pending
    ensures id in Apply(s, step).table && Apply(s, step).table[id].status == Pending
      <==> (step.Reclaim? && Stuck(s.table[id], step.asOf))
           || (step.Stamp? && step.relay != holder && id in s.relays[step.relay].failed)
  {
    match step
    case Claim(_, batch, _, _, _) => assert id !in SetOf(batch);
    case _ =>
  }
}
