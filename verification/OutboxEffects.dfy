/** What the outbox's steps get done: the rows they change, how they change them, and which they leave alone. */
module OutboxEffects {
  import opened Wrappers
  import opened OutboxModel
  import opened OutboxInvariant
  import opened OutboxTheorems
  import opened OutboxStore

  // --- the message -----------------------------------------------------------------------------------------

  /** A message carries the event id its payload brings, or else the row's; all else is the payload's. */
  lemma MessageCarriesAnId(payload: Payload, id: EventId)
    ensures var message := Stamped(payload, id);
      && EVENT_ID_KEY in message
      && message[EVENT_ID_KEY] == (if EVENT_ID_KEY in payload && Truthy(payload[EVENT_ID_KEY])
                                   then payload[EVENT_ID_KEY] else Text(id))
      && message.Keys == payload.Keys + {EVENT_ID_KEY}
      && forall key | key in payload && key != EVENT_ID_KEY :: message[key] == payload[key]
  {
  }

  /** What Python takes for false, and so as no event id. */
  lemma FalsyIff(j: Json)
    ensures !Truthy(j) <==>
      j == Null || j == Bool(false) || j == Number(0.0) || j == Text("") || j == Array([]) || j == Object(map[])
  {
  }

  // --- rows ------------------------------------------------------------------------------------------------

  /** A stamp publishes what its relay delivered, returns what failed with its error, and touches nothing else. */
  lemma StampSettles(s: System, relay: Relay, at: real)
    requires Enabled(s, Stamp(relay, at))
    ensures var b, t := s.relays[relay], Apply(s, Stamp(relay, at));
      && OnlyChanges(s.table, t.table, b.published + b.failed.Keys) && relay !in t.relays
      && (forall id | id in s.table && id in b.published && id !in b.failed :: IsPublishedAt(t.table[id], at))
      && (forall id | id in s.table && id in b.failed ::
            t.table[id].status == Pending && t.table[id].lastError == Some(b.failed[id]))
      && (forall id | id in s.table :: t.table[id].attempts == s.table[id].attempts)
  {
  }

  /** A claim takes its rows, each for one attempt more, and hands them to its relay in order. */
  lemma ClaimTakes(s: System, relay: Relay, batch: seq<EventId>, locked: set<EventId>, asOf: real, began: real)
    requires Enabled(s, Claim(relay, batch, locked, asOf, began))
    ensures var t := Apply(s, Claim(relay, batch, locked, asOf, began));
      && OnlyChanges(s.table, t.table, SetOf(batch))
      && (forall i | 0 <= i < |batch| ::
            && t.table[batch[i]].status == Publishing && t.table[batch[i]].updatedAt == began
            && t.table[batch[i]].attempts == s.table[batch[i]].attempts + 1)
      && relay in t.relays && |t.relays[relay].rows| == |batch| && t.relays[relay].next == 0
      && t.relays[relay].published == {} && t.relays[relay].failed == map[]
      && (forall i | 0 <= i < |batch| ::
            t.relays[relay].rows[i].id == batch[i] && t.relays[relay].rows[i].event == s.table[batch[i]].event)
  {
    forall i | 0 <= i < |batch| ensures batch[i] in SetOf(batch) {
    }
  }

  /** A reclaim returns every row stuck in publishing, whether a relay still holds it or not, and no other. */
  lemma ReclaimReturns(s: System, asOf: real, began: real, id: EventId)
    requires Enabled(s, Reclaim(asOf, began)) && id in s.table
    ensures var t := Apply(s, Reclaim(asOf, began)).table;
      id in t && t[id] ==
        if s.table[id].status == Publishing && s.table[id].updatedAt + RECLAIM_AFTER_SECONDS < asOf
        then s.table[id].(status := Pending, updatedAt := began) else s.table[id]
  {
  }

  /** A cleanup drops exactly the rows published longer than the retention ago. */
  lemma CleanupDropsIff(s: System, asOf: real, retention: real, id: EventId)
    requires Enabled(s, Cleanup(asOf, retention)) && id in s.table
    ensures var t := Apply(s, Cleanup(asOf, retention)).table;
      && (id !in t <==>
            s.table[id].status == Published && s.table[id].publishedAt.Some?
            && s.table[id].publishedAt.value + retention < asOf)
      && (id in t ==> t[id] == s.table[id])
  {
  }

  // --- from the session to the broker ----------------------------------------------------------------------

  /** A commit puts every event its session staged into the table, and in flight if a loop runs; the session's list is
      empty then, and the other sessions' are as before. */
  lemma CommitHandsOver(s: System, session: Session, createdAt: real, loopRunning: bool)
    requires Births(s) && Enabled(s, Commit(session, createdAt, loopRunning))
    ensures var t := Apply(s, Commit(session, createdAt, loopRunning));
      && (forall id | id in s.staged && s.staged[id].session == session ::
            && id !in t.staged && id in t.table && id in t.history.committed
            && t.table[id] == Row(s.staged[id].event, Pending, 0, createdAt, createdAt, None, None)
            && (loopRunning ==> id in t.inflight && t.inflight[id] == s.staged[id].event))
      && (forall id | id in s.staged && s.staged[id].session != session ::
            id in t.staged && t.staged[id] == s.staged[id])
      && (forall id | id in s.table :: id in t.table && t.table[id] == s.table[id])
      && (forall id | id in t.inflight ::
            id in s.inflight || (loopRunning && id in s.staged && s.staged[id].session == session))
  {
  }

  /** A rollback drops every event its session staged, and nothing else. */
  lemma RollbackDrops(s: System, session: Session, id: EventId)
    requires id in s.staged
    ensures var t := Apply(s, Rollback(session));
      && (s.staged[id].session == session ==> id !in t.staged && id in t.history.dropped)
      && (s.staged[id].session != session ==> id in t.staged && t.staged[id] == s.staged[id])
      && t.table == s.table && t.inflight == s.inflight
  {
  }

  /** An immediate publish leaves flight; if it succeeded, its message has reached the broker and its mark waits. */
  lemma PublishReports(s: System, id: EventId, attempt: Attempt)
    requires id in s.inflight
    ensures var t := Apply(s, PublishNow(id, attempt));
      && t.inflight.Keys == s.inflight.Keys - {id} && t.table == s.table
      && (attempt.Sent? ==> t.marks == s.marks + {id})
      && (attempt.Failed? ==> t.marks == s.marks)
      && t.log == (if attempt.Failed? && !attempt.reached then s.log
                   else s.log + [Delivery(id, 0, s.inflight[id].routingKey, Stamped(s.inflight[id].payload, id))])
  {
  }

  /** A flush publishes every row marked, and touches no other. */
  lemma FlushPublishes(s: System, ids: set<EventId>, at: real)
    requires Enabled(s, FlushMarks(ids, at))
    ensures var t := Apply(s, FlushMarks(ids, at));
      && OnlyChanges(s.table, t.table, ids) && t.marks == s.marks - ids
      && (forall id | id in s.table && id in ids ::
            IsPublishedAt(t.table[id], at) && t.table[id].attempts == s.table[id].attempts + 1)
  {
  }

  /** The straight way: an event committed while a loop runs, delivered and marked is published, has reached the broker
      and is nowhere on its way any more. */
  lemma StraightToPublished(s: System, session: Session, createdAt: real, id: EventId, at: real) returns (t: System)
    requires Inv(s) && createdAt <= s.now && at <= s.now && id in s.staged && s.staged[id].session == session
    ensures var steps := [Commit(session, createdAt, true), PublishNow(id, Sent), FlushMarks({id}, at)];
      IsRun(s, steps) && After(s, steps) == t
    ensures id in t.table && IsPublishedAt(t.table[id], at) && t.table[id].attempts == 1
    ensures id !in t.staged && id !in t.inflight && id !in t.marks
    ensures Copies(t.log, id) == 1
  {
    NotYetSent(s, id);
    t := StraightSteps(s, session, createdAt, id, at);
  }

  lemma StraightSteps(s: System, session: Session, createdAt: real, id: EventId, at: real) returns (t: System)
    requires Births(s) && createdAt <= s.now && at <= s.now && id in s.staged && s.staged[id].session == session
    requires Copies(s.log, id) == 0
    ensures var steps := [Commit(session, createdAt, true), PublishNow(id, Sent), FlushMarks({id}, at)];
      IsRun(s, steps) && After(s, steps) == t
    ensures id in t.table && IsPublishedAt(t.table[id], at) && t.table[id].attempts == 1
    ensures id !in t.staged && id !in t.inflight && id !in t.marks
    ensures Copies(t.log, id) == 1
  {
    var s1 := Apply(s, Commit(session, createdAt, true));
    var s2 := Apply(s1, PublishNow(id, Sent));
    t := Apply(s2, FlushMarks({id}, at));
    ThreeSteps(s, Commit(session, createdAt, true), PublishNow(id, Sent), FlushMarks({id}, at), s1, s2, t);
    CommitHandsOver(s, session, createdAt, true);
    PublishReports(s1, id, Sent);
    FlushPublishes(s2, {id}, at);
    assert s2.log[..|s.log|] == s.log;
  }

  lemma NotYetSent(s: System, id: EventId)
    requires Inv(s) && id in s.staged
    ensures Copies(s.log, id) == 0
  {
    CopiesAreTickets(s.log, id);
  }

  lemma ThreeSteps(s: System, a: Step, b: Step, c: Step, s1: System, s2: System, s3: System)
    requires Enabled(s, a) && s1 == Apply(s, a) && Enabled(s1, b) && s2 == Apply(s1, b)
    requires Enabled(s2, c) && s3 == Apply(s2, c)
    ensures IsRun(s, [a, b, c]) && After(s, [a, b, c]) == s3
  {
    assert [a, b, c][1..] == [b, c] && [b, c][1..] == [c] && [c][1..] == [];
    assert IsRun(s2, [c]) && After(s2, [c]) == s3;
    assert IsRun(s1, [b, c]) && After(s1, [b, c]) == s3;
  }

  // --- published for good ----------------------------------------------------------------------------------

  /** Delivered, published and in nobody's hands: whatever happens, no relay gets the row again. */
  ghost predicate Finished(s: System, id: EventId) {
    && id in s.history.committed && id in SentIds(s.log)
    && (id in s.table ==> s.table[id].status == Published)
    && (forall relay | relay in s.relays :: id !in s.relays[relay].tickets)
  }

  predicate TakesRow(step: Step, id: EventId) {
    step.Claim? && id in step.batch
  }

  lemma StampLeavesFinished(s: System, relay: Relay, at: real, id: EventId)
    requires Enabled(s, Stamp(relay, at)) && BatchShape(s.relays[relay]) && Finished(s, id)
    ensures Finished(Apply(s, Stamp(relay, at)), id)
  {
    var b := s.relays[relay];
    assert id !in b.published && id !in b.failed;
  }

  lemma PublishLeavesFinished(s: System, attempt: Attempt, d: Delivery, id: EventId)
    requires id in SentIds(s.log)
    ensures id in SentIds(Logged(s.log, attempt, d))
  {
    LogGrows(s.log, attempt, d);
  }

  lemma FinishedKept(s: System, step: Step, id: EventId)
    requires Enabled(s, step) && Finished(s, id) && id !in s.staged
    requires step.Stamp? ==> BatchShape(s.relays[step.relay])
    ensures Finished(Apply(s, step), id) && !TakesRow(step, id)
  {
    match step
    case PublishNow(other, attempt) => PublishLeavesFinished(s, attempt, Delivered(other, 0, s.inflight[other]), id);
    case RelayPublish(relay, attempt) =>
      var b := s.relays[relay];
      var d := Delivered(b.rows[b.next].id, b.tickets[b.rows[b.next].id], b.rows[b.next].event);
      PublishLeavesFinished(s, attempt, d, id);
    case Stamp(relay, at) => StampLeavesFinished(s, relay, at, id);
    case _ =>
  }

  lemma StepOnFinished(s: System, step: Step, id: EventId)
    requires Births(s) && Tickets(s) && Enabled(s, step) && Finished(s, id)
    ensures Finished(Apply(s, step), id) && !TakesRow(step, id)
  {
    FinishedKept(s, step, id);
  }

  lemma {:induction false} FinishedForGood(s: System, steps: seq<Step>, id: EventId)
    requires Inv(s) && IsRun(s, steps) && Finished(s, id)
    ensures Finished(After(s, steps), id)
    ensures forall k | 0 <= k < |steps| :: !TakesRow(steps[k], id)
    decreases |steps|
  {
    if steps != [] {
      StepOnFinished(s, steps[0], id);
      InvKept(s, steps[0]);
      FinishedForGood(Apply(s, steps[0]), steps[1..], id);
      forall k | 0 <= k < |steps| ensures !TakesRow(steps[k], id) {
        assert k > 0 ==> steps[k] == steps[1..][k - 1];
      }
    }
  }

  lemma StampFinishes(s: System, relay: Relay, at: real, id: EventId)
    requires Inv(s) && Enabled(s, Stamp(relay, at))
    requires id in s.relays[relay].published && id !in s.relays[relay].failed
    requires forall other | other in s.relays && other != relay :: id !in s.relays[other].tickets
    ensures Finished(Apply(s, Stamp(relay, at)), id)
  {
    assert id in SentIds(s.log);
  }

  /** A row that its only holder delivered and stamped stays published until it is cleaned up: in no run that goes on
      from there does any relay claim it again. */
  lemma StampedIsNeverClaimedAgain(now: real, before: seq<Step>, relay: Relay, at: real, rest: seq<Step>, id: EventId)
    requires IsRun(Init(now), before)
    requires var s := After(Init(now), before);
      && Enabled(s, Stamp(relay, at)) && IsRun(Apply(s, Stamp(relay, at)), rest)
      && id in s.relays[relay].published && id !in s.relays[relay].failed
      && (forall other | other in s.relays && other != relay :: id !in s.relays[other].tickets)
    ensures forall k | 0 <= k < |rest| :: !TakesRow(rest[k], id)
    ensures var t := After(Apply(After(Init(now), before), Stamp(relay, at)), rest);
      id in t.table ==> t.table[id].status == Published
  {
    var s := After(Init(now), before);
    RunKeepsInv(Init(now), before);
    StampFinishes(s, relay, at, id);
    InvKept(s, Stamp(relay, at));
    FinishedForGood(Apply(s, Stamp(relay, at)), rest, id);
  }
}
