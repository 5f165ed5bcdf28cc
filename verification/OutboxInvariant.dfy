/** What every step of the outbox keeps. */
module OutboxInvariant {
  import opened OutboxModel

  /** Each delivery in the log as its row and ticket. */
  function SentTickets(log: seq<Delivery>): set<(EventId, nat)> {
    if log == [] then {}
    else SentTickets(log[..|log| - 1]) + {(log[|log| - 1].id, log[|log| - 1].ticket)}
  }

  function SentIds(log: seq<Delivery>): set<EventId> {
    if log == [] then {} else SentIds(log[..|log| - 1]) + {log[|log| - 1].id}
  }

  predicate NoRepeat(log: seq<Delivery>) {
    log == [] || (
      && NoRepeat(log[..|log| - 1])
      && (log[|log| - 1].id, log[|log| - 1].ticket) !in SentTickets(log[..|log| - 1]))
  }

  predicate Holds(s: System, relay: Relay, id: EventId) {
    relay in s.relays && id in s.relays[relay].tickets
  }

  // --- the parts of the invariant --------------------------------------------------------------------------

  predicate Stems(committed: map<EventId, Birth>, id: EventId, event: Event) {
    id in committed && committed[id].event == event
  }

  ghost predicate BatchStems(committed: map<EventId, Birth>, b: Batch) {
    forall i | 0 <= i < |b.rows| :: Stems(committed, b.rows[i].id, b.rows[i].event)
  }

  ghost predicate FromCommit(committed: map<EventId, Birth>, d: Delivery) {
    d.id in committed && d == Delivered(d.id, d.ticket, committed[d.id].event)
  }

  /** Every trace of an event outside its session goes back to one commit, and a dropped event leaves none. */
  ghost predicate Births(s: System) {
    var committed := s.history.committed;
    && s.staged.Keys !! committed.Keys
    && s.staged.Keys !! s.history.dropped
    && s.history.dropped !! committed.Keys
    && (forall id | id in s.table ::
          Stems(committed, id, s.table[id].event) && s.table[id].createdAt == committed[id].createdAt)
    && (forall id | id in s.inflight :: Stems(committed, id, s.inflight[id]))
    && s.marks <= committed.Keys
    && (forall relay | relay in s.relays :: BatchStems(committed, s.relays[relay]))
    && SentIds(s.log) <= committed.Keys
    && (forall k | 0 <= k < |s.log| :: FromCommit(committed, s.log[k]))
  }

  /** A ticket is within the attempts its row has used, and within the limit. */
  predicate TicketOk(table: Table, id: EventId, ticket: nat) {
    ticket <= RELAY_MAX_ATTEMPTS && (id in table ==> ticket <= table[id].attempts)
  }

  predicate Open(b: Batch, id: EventId) {
    id in b.tickets && id !in b.published && id !in b.failed
  }

  ghost predicate BatchShape(b: Batch) {
    && b.next <= |b.rows|
    && (forall i, j | 0 <= i < j < |b.rows| :: b.rows[i].id != b.rows[j].id)
    && (forall i | 0 <= i < |b.rows| :: b.rows[i].id in b.tickets)
    && (forall i | b.next <= i < |b.rows| :: Open(b, b.rows[i].id))
    && b.published + b.failed.Keys <= b.tickets.Keys
  }

  ghost predicate BatchTickets(table: Table, log: seq<Delivery>, b: Batch) {
    forall id | id in b.tickets ::
      && b.tickets[id] >= 1
      && TicketOk(table, id, b.tickets[id])
      && (Open(b, id) ==> (id, b.tickets[id]) !in SentTickets(log))
  }

  /** No ticket is ever used twice: not by two deliveries, and not by a delivery and a claim still to be sent. */
  ghost predicate Tickets(s: System) {
    && NoRepeat(s.log)
    && (forall p | p in SentTickets(s.log) :: TicketOk(s.table, p.0, p.1))
    && (forall id | id in s.inflight :: (id, 0) !in SentTickets(s.log) && id !in s.marks)
    && (forall relay | relay in s.relays ::
          BatchShape(s.relays[relay]) && BatchTickets(s.table, s.log, s.relays[relay]))
    && (forall q, r | q in s.relays && r in s.relays && q != r ::
          NoSharedTicket(s.relays[q].tickets, s.relays[r].tickets))
  }

  ghost predicate NoSharedTicket(a: map<EventId, nat>, b: map<EventId, nat>) {
    forall id | id in a && id in b :: a[id] != b[id]
  }

  /** No committed event is lost, and whatever says "published" has reached the broker. */
  ghost predicate Safe(s: System) {
    && (forall id | id in s.history.committed :: id in s.table || id in SentIds(s.log))
    && (forall id | id in s.table && s.table[id].status == Published :: id in SentIds(s.log))
    && (forall id | id in s.marks :: id in SentIds(s.log) && (id, 0) in SentTickets(s.log))
    && (forall relay | relay in s.relays :: s.relays[relay].published <= SentIds(s.log))
  }

  ghost predicate Guarded(table: Table, late: map<EventId, Late>, b: Batch) {
    forall id | id in b.tickets && id !in late && id in table ::
      table[id].status != Pending && (table[id].status == Publishing ==> table[id].updatedAt == b.claimedAt)
  }

  ghost predicate Apart(late: map<EventId, Late>, a: map<EventId, nat>, b: map<EventId, nat>) {
    forall id | id in a && id in b :: id in late
  }

  /** A row no reclaim has taken from its relay is held by at most one relay, and is not pending meanwhile. */
  ghost predicate Exclusive(s: System) {
    && (forall relay | relay in s.relays :: Guarded(s.table, s.history.late, s.relays[relay]))
    && (forall q, r | q in s.relays && r in s.relays && q != r ::
          Apart(s.history.late, s.relays[q].tickets, s.relays[r].tickets))
    && (forall id | id in s.history.late :: LateOk(s.history.late[id], s.now))
  }

  predicate LateOk(late: Late, now: real) {
    late.claimedAt + RECLAIM_AFTER_SECONDS < late.reclaimedAt <= now
  }

  predicate PastGrace(s: System, id: EventId) {
    id in s.history.committed && s.history.committed[id].createdAt + RELAY_GRACE_SECONDS < s.now
  }

  /** Only rows past the grace window have ever been claimed, and every relay delivery belongs to one of them. */
  ghost predicate Grace(s: System) {
    && (forall id | id in s.history.claimed :: PastGrace(s, id))
    && (forall relay | relay in s.relays :: s.relays[relay].tickets.Keys <= s.history.claimed)
    && (forall p | p in SentTickets(s.log) && p.1 != 0 :: p.0 in s.history.claimed)
    && (forall id | id in s.table && s.table[id].status == Publishing :: id in s.history.claimed)
  }

  ghost predicate Inv(s: System) {
    Births(s) && Tickets(s) && Safe(s) && Exclusive(s) && Grace(s)
  }

  // --- the log only grows ----------------------------------------------------------------------------------

  lemma LogGrows(log: seq<Delivery>, attempt: Attempt, d: Delivery)
    ensures var grown := Logged(log, attempt, d);
      if attempt.Sent? || attempt.reached then
        && SentTickets(grown) == SentTickets(log) + {(d.id, d.ticket)}
        && SentIds(grown) == SentIds(log) + {d.id}
        && (NoRepeat(grown) <==> NoRepeat(log) && (d.id, d.ticket) !in SentTickets(log))
      else grown == log
  {
    assert (log + [d])[..|log|] == log;
  }

  // --- what a step keeps, step by step ---------------------------------------------------------------------

  /** Tickets stay good whatever a statement does to the rows, as long as no row's attempts go down. */
  lemma TicketsOfTable(s: System, table: Table)
    requires Tickets(s)
    requires forall id | id in table :: id in s.table && s.table[id].attempts <= table[id].attempts
    ensures Tickets(s.(table := table))
  {
  }

  /** One more delivery of a committed event breaks nothing that does not speak of tickets. */
  lemma LoggedKeeps(s: System, attempt: Attempt, d: Delivery)
    requires Births(s) && Safe(s) && Grace(s) && FromCommit(s.history.committed, d)
    requires d.ticket != 0 ==> d.id in s.history.claimed
    ensures Births(s.(log := Logged(s.log, attempt, d)))
    ensures Safe(s.(log := Logged(s.log, attempt, d)))
    ensures Grace(s.(log := Logged(s.log, attempt, d)))
  {
    LogGrows(s.log, attempt, d);
  }

  lemma CommitKeepsBirths(s: System, session: Session, createdAt: real, loopRunning: bool)
    requires Births(s)
    ensures Births(AfterCommit(s, session, createdAt, loopRunning))
  {
  }

  lemma CommitKeepsSafe(s: System, session: Session, createdAt: real, loopRunning: bool)
    requires Safe(s)
    ensures Safe(AfterCommit(s, session, createdAt, loopRunning))
  {
  }

  lemma CommitKeepsGrace(s: System, session: Session, createdAt: real, loopRunning: bool)
    requires Births(s) && Grace(s)
    ensures Grace(AfterCommit(s, session, createdAt, loopRunning))
  {
  }

  lemma {:induction false} TicketsAreOfSentIds(log: seq<Delivery>)
    ensures forall p | p in SentTickets(log) :: p.0 in SentIds(log)
  {
    if log != [] {
      TicketsAreOfSentIds(log[..|log| - 1]);
    }
  }

  lemma CommitKeepsTickets(s: System, session: Session, createdAt: real, loopRunning: bool)
    requires Births(s) && Tickets(s) && Grace(s)
    ensures Tickets(AfterCommit(s, session, createdAt, loopRunning))
  {
    var mine := StagedBy(s.staged, {session});
    forall id | id in mine ensures id !in SentIds(s.log) && id !in s.marks && id !in s.history.claimed {
      assert id !in s.history.committed;
      assert id in s.history.claimed ==> PastGrace(s, id);
    }
    TicketsAreOfSentIds(s.log);
  }

  lemma CommitKeepsExclusive(s: System, session: Session, createdAt: real, loopRunning: bool)
    requires Births(s) && Exclusive(s) && Grace(s)
    ensures Exclusive(AfterCommit(s, session, createdAt, loopRunning))
  {
    var mine := StagedBy(s.staged, {session});
    forall relay, id | relay in s.relays && id in s.relays[relay].tickets ensures id !in mine {
      assert id in s.history.claimed;
      assert PastGrace(s, id);
    }
  }

  /** A delivery may use a ticket that is within its row's attempts and that nobody has used or holds. */
  lemma TicketsOfLog(s: System, attempt: Attempt, d: Delivery)
    requires Tickets(s) && TicketOk(s.table, d.id, d.ticket) && (d.id, d.ticket) !in SentTickets(s.log)
    requires d.ticket == 0 ==> d.id !in s.inflight
    requires forall relay | relay in s.relays && d.id in s.relays[relay].tickets ::
               s.relays[relay].tickets[d.id] != d.ticket
    ensures Tickets(s.(log := Logged(s.log, attempt, d)))
  {
    LogGrows(s.log, attempt, d);
  }

  lemma PublishNowKeeps(s: System, id: EventId, attempt: Attempt)
    requires Births(s) && Safe(s) && Exclusive(s) && Grace(s) && id in s.inflight
    ensures Births(AfterPublishNow(s, id, attempt)) && Safe(AfterPublishNow(s, id, attempt))
    ensures Exclusive(AfterPublishNow(s, id, attempt)) && Grace(AfterPublishNow(s, id, attempt))
  {
    var d := Delivered(id, 0, s.inflight[id]);
    LogGrows(s.log, attempt, d);
    LoggedKeeps(s, attempt, d);
    if attempt.Sent? {
      MarkKeeps(s.(log := Logged(s.log, attempt, d)), id);
    }
  }

  lemma MarkKeeps(s: System, id: EventId)
    requires Births(s) && Safe(s) && id in SentIds(s.log) && (id, 0) in SentTickets(s.log)
    ensures Births(s.(inflight := s.inflight - {id}, marks := s.marks + {id}))
    ensures Safe(s.(inflight := s.inflight - {id}, marks := s.marks + {id}))
  {
  }

  lemma PublishNowKeepsTickets(s: System, id: EventId, attempt: Attempt)
    requires Tickets(s) && id in s.inflight
    ensures Tickets(AfterPublishNow(s, id, attempt))
  {
    TicketsOfLog(s.(inflight := s.inflight - {id}), attempt, Delivered(id, 0, s.inflight[id]));
  }

  lemma FlushMarksKeeps(s: System, ids: set<EventId>, at: real)
    requires Births(s) && Safe(s) && Grace(s) && ids <= s.marks
    ensures Births(s.(table := MarkedRows(s.table, ids, at), marks := s.marks - ids))
    ensures Safe(s.(table := MarkedRows(s.table, ids, at), marks := s.marks - ids))
    ensures Grace(s.(table := MarkedRows(s.table, ids, at), marks := s.marks - ids))
  {
  }

  lemma FlushMarksKeepsTickets(s: System, ids: set<EventId>, at: real)
    requires Tickets(s) && Exclusive(s)
    ensures Tickets(s.(table := MarkedRows(s.table, ids, at), marks := s.marks - ids))
    ensures Exclusive(s.(table := MarkedRows(s.table, ids, at), marks := s.marks - ids))
  {
    TicketsOfTable(s, MarkedRows(s.table, ids, at));
  }

  lemma ReclaimKeeps(s: System, asOf: real, began: real)
    requires Births(s) && Safe(s) && Grace(s)
    ensures Births(AfterReclaim(s, asOf, began))
    ensures Safe(AfterReclaim(s, asOf, began)) && Grace(AfterReclaim(s, asOf, began))
  {
  }

  lemma ReclaimKeepsTickets(s: System, asOf: real, began: real)
    requires Tickets(s)
    ensures Tickets(AfterReclaim(s, asOf, began))
  {
    TicketsOfTable(s, ReclaimedRows(s.table, asOf, began));
  }

  lemma ReclaimKeepsExclusive(s: System, asOf: real, began: real)
    requires Exclusive(s) && asOf <= s.now
    ensures Exclusive(AfterReclaim(s, asOf, began))
  {
  }

  lemma ClaimKeeps(s: System, relay: Relay, batch: seq<EventId>, asOf: real, began: real)
    requires Births(s) && Grace(s) && asOf <= s.now
    requires forall i | 0 <= i < |batch| :: batch[i] in s.table && Due(s.table[batch[i]], asOf)
    ensures Births(AfterClaim(s, relay, batch, began)) && Grace(AfterClaim(s, relay, batch, began))
  {
  }

  lemma ClaimKeepsSafe(s: System, relay: Relay, batch: seq<EventId>, asOf: real, began: real)
    requires Safe(s) && Exclusive(s) && relay !in s.relays
    requires forall i | 0 <= i < |batch| :: batch[i] in s.table && Due(s.table[batch[i]], asOf)
    ensures Safe(AfterClaim(s, relay, batch, began)) && Exclusive(AfterClaim(s, relay, batch, began))
  {
  }

  /** A relay's batch may be replaced by any batch whose tickets are good and no other relay's. */
  lemma TicketsOfBatch(s: System, relay: Relay, b: Batch)
    requires Tickets(s) && BatchShape(b) && BatchTickets(s.table, s.log, b)
    requires forall q | q in s.relays && q != relay ::
               NoSharedTicket(s.relays[q].tickets, b.tickets) && NoSharedTicket(b.tickets, s.relays[q].tickets)
    ensures Tickets(s.(relays := s.relays[relay := b]))
  {
  }

  lemma ClaimKeepsTickets(s: System, relay: Relay, batch: seq<EventId>, asOf: real, began: real)
    requires Tickets(s) && relay !in s.relays && Distinct(batch)
    requires forall i | 0 <= i < |batch| :: batch[i] in s.table && Due(s.table[batch[i]], asOf)
    ensures Tickets(AfterClaim(s, relay, batch, began))
  {
    var ids := SetOf(batch);
    var t := s.(table := ClaimedRows(s.table, ids, began));
    TicketsOfTable(s, t.table);
    var b := Batch(began, Taken(s.table, batch), TicketsFor(s.table, ids), 0, {}, map[]);
    forall i | 0 <= i < |batch| ensures batch[i] in ids {}
    FreshBatch(s, t.table, b);
    TicketsOfBatch(t, relay, b);
  }

  /** The tickets of a claim are beyond every ticket its rows have used or another relay holds. */
  lemma FreshBatch(s: System, table: Table, b: Batch)
    requires Tickets(s)
    requires forall id | id in b.tickets ::
               && id in s.table && id in table && s.table[id].attempts < RELAY_MAX_ATTEMPTS
               && table[id].attempts == s.table[id].attempts + 1 == b.tickets[id]
    ensures BatchTickets(table, s.log, b)
    ensures forall q | q in s.relays ::
              NoSharedTicket(s.relays[q].tickets, b.tickets) && NoSharedTicket(b.tickets, s.relays[q].tickets)
  {
    forall q | q in s.relays
      ensures NoSharedTicket(s.relays[q].tickets, b.tickets) && NoSharedTicket(b.tickets, s.relays[q].tickets)
    {
      assert BatchTickets(s.table, s.log, s.relays[q]);
    }
  }

  lemma RelayPublishKeeps(s: System, relay: Relay, attempt: Attempt)
    requires Births(s) && Safe(s) && Grace(s) && relay in s.relays && CanPublish(s.relays[relay])
    ensures Births(AfterRelayPublish(s, relay, attempt)) && Safe(AfterRelayPublish(s, relay, attempt))
    ensures Grace(AfterRelayPublish(s, relay, attempt))
  {
    var b := s.relays[relay];
    var row := b.rows[b.next];
    var d := Delivered(row.id, b.tickets[row.id], row.event);
    assert BatchStems(s.history.committed, b);
    LoggedKeeps(s, attempt, d);
    LogGrows(s.log, attempt, d);
    BatchAdvances(s.(log := Logged(s.log, attempt, d)), relay, Recorded(b, attempt));
  }

  /** A relay recording an outcome touches nothing but what it has published and failed. */
  lemma BatchAdvances(s: System, relay: Relay, b: Batch)
    requires Births(s) && Safe(s) && Grace(s) && relay in s.relays
    requires b.rows == s.relays[relay].rows && b.tickets == s.relays[relay].tickets
    requires b.published <= SentIds(s.log)
    ensures Births(s.(relays := s.relays[relay := b]))
    ensures Safe(s.(relays := s.relays[relay := b])) && Grace(s.(relays := s.relays[relay := b]))
  {
    assert BatchStems(s.history.committed, s.relays[relay]);
  }

  lemma RelayPublishKeepsExclusive(s: System, relay: Relay, attempt: Attempt)
    requires Exclusive(s) && relay in s.relays && CanPublish(s.relays[relay])
    ensures Exclusive(AfterRelayPublish(s, relay, attempt))
  {
    assert Guarded(s.table, s.history.late, s.relays[relay]);
  }

  /** Setting a relay's batch aside leaves the others good, and none of them shares a ticket with it. */
  lemma TicketsAside(s: System, relay: Relay)
    requires Tickets(s) && relay in s.relays
    ensures var idle := s.(relays := s.relays - {relay});
      && Tickets(idle)
      && (forall q | q in idle.relays ::
            && NoSharedTicket(idle.relays[q].tickets, s.relays[relay].tickets)
            && NoSharedTicket(s.relays[relay].tickets, idle.relays[q].tickets))
    ensures BatchShape(s.relays[relay]) && BatchTickets(s.table, s.log, s.relays[relay])
  {
  }

  lemma RelayPublishKeepsTickets(s: System, relay: Relay, attempt: Attempt)
    requires Tickets(s) && relay in s.relays && CanPublish(s.relays[relay])
    ensures Tickets(AfterRelayPublish(s, relay, attempt))
  {
    var b := s.relays[relay];
    var idle := s.(relays := s.relays - {relay});
    TicketsAside(s, relay);
    AsideThenPublished(idle, relay, b, attempt);
    assert idle.relays[relay := Recorded(b, attempt)] == s.relays[relay := Recorded(b, attempt)];
  }

  lemma AsideThenPublished(idle: System, relay: Relay, b: Batch, attempt: Attempt)
    requires Tickets(idle) && relay !in idle.relays
    requires BatchShape(b) && BatchTickets(idle.table, idle.log, b) && CanPublish(b)
    requires forall q | q in idle.relays ::
               NoSharedTicket(idle.relays[q].tickets, b.tickets) && NoSharedTicket(b.tickets, idle.relays[q].tickets)
    ensures var row := b.rows[b.next];
      Tickets(idle.(log := Logged(idle.log, attempt, Delivered(row.id, b.tickets[row.id], row.event)),
                    relays := idle.relays[relay := Recorded(b, attempt)]))
  {
    var row := b.rows[b.next];
    var d := Delivered(row.id, b.tickets[row.id], row.event);
    assert Open(b, row.id);
    TicketsOfLog(idle, attempt, d);
    RecordedKeepsShape(b, attempt);
    RecordedKeepsTickets(idle.table, idle.log, b, attempt, d);
    TicketsOfBatch(idle.(log := Logged(idle.log, attempt, d)), relay, Recorded(b, attempt));
  }

  lemma RecordedKeepsShape(b: Batch, attempt: Attempt)
    requires BatchShape(b) && CanPublish(b)
    ensures BatchShape(Recorded(b, attempt))
    ensures forall id | Open(Recorded(b, attempt), id) :: Open(b, id) && id != b.rows[b.next].id
  {
    var b' := Recorded(b, attempt);
    forall i | b'.next <= i < |b.rows| ensures Open(b', b.rows[i].id) {
      assert Open(b, b.rows[i].id) && b.rows[i].id != b.rows[b.next].id;
    }
  }

  lemma RecordedKeepsTickets(table: Table, log: seq<Delivery>, b: Batch, attempt: Attempt, d: Delivery)
    requires BatchShape(b) && BatchTickets(table, log, b) && CanPublish(b) && d.id == b.rows[b.next].id
    ensures BatchTickets(table, Logged(log, attempt, d), Recorded(b, attempt))
  {
    LogGrows(log, attempt, d);
    RecordedKeepsShape(b, attempt);
  }

  lemma StampKeepsBirths(s: System, relay: Relay, at: real)
    requires Births(s) && relay in s.relays
    ensures Births(AfterStamp(s, relay, at))
  {
  }

  lemma StampKeeps(s: System, relay: Relay, at: real)
    requires Safe(s) && Grace(s) && relay in s.relays
    ensures Safe(AfterStamp(s, relay, at)) && Grace(AfterStamp(s, relay, at))
  {
  }

  lemma StampKeepsTickets(s: System, relay: Relay, at: real)
    requires Tickets(s) && relay in s.relays
    ensures Tickets(AfterStamp(s, relay, at))
  {
    var b := s.relays[relay];
    TicketsOfTable(s, StampedRows(s.table, b.published, b.failed, at));
  }

  lemma StampKeepsExclusive(s: System, relay: Relay, at: real)
    requires Exclusive(s) && relay in s.relays && BatchShape(s.relays[relay])
    ensures Exclusive(AfterStamp(s, relay, at))
  {
  }

  lemma CleanupKeeps(s: System, asOf: real, retention: real)
    requires Births(s) && Tickets(s) && Safe(s) && Exclusive(s) && Grace(s)
    ensures Inv(s.(table := CleanedRows(s.table, asOf, retention)))
  {
    TicketsOfTable(s, CleanedRows(s.table, asOf, retention));
  }

  lemma StageKeeps(s: System, step: Step)
    requires Inv(s) && Enabled(s, step) && step.Stage?
    ensures Inv(Apply(s, step))
  {
  }

  lemma RollbackKeeps(s: System, step: Step)
    requires Inv(s) && Enabled(s, step) && step.Rollback?
    ensures Inv(Apply(s, step))
  {
  }

  /** Later, everything that was past its window still is, and nothing else looks at the clock. */
  lemma LaterKeeps(s: System, now: real)
    requires Exclusive(s) && Grace(s) && s.now <= now
    ensures Exclusive(s.(now := now)) && Grace(s.(now := now))
  {
  }

  lemma ClocklessKeeps(s: System, now: real)
    requires Births(s) && Tickets(s) && Safe(s)
    ensures Births(s.(now := now)) && Tickets(s.(now := now)) && Safe(s.(now := now))
  {
  }

  lemma NowKeeps(s: System, now: real)
    requires Inv(s) && s.now <= now
    ensures Inv(s.(now := now))
  {
    LaterKeeps(s, now);
    ClocklessKeeps(s, now);
  }

  lemma TickKeeps(s: System, step: Step)
    requires Inv(s) && Enabled(s, step) && step.Tick?
    ensures Inv(Apply(s, step))
  {
    var later := s.now + step.seconds;
    NowKeeps(s, later);
    assert Apply(s, step) == s.(now := later);
  }

  lemma CrashKeeps(s: System, step: Step)
    requires Inv(s) && Enabled(s, step) && step.Crash?
    ensures Inv(Apply(s, step))
  {
  }

  lemma RelayStepKeeps(s: System, step: Step)
    requires Inv(s) && Enabled(s, step) && (step.Reclaim? || step.Claim? || step.RelayPublish? || step.Stamp?)
    ensures Inv(Apply(s, step))
  {
    match step
    case Reclaim(asOf, began) =>
      ReclaimKeeps(s, asOf, began);
      ReclaimKeepsTickets(s, asOf, began);
      ReclaimKeepsExclusive(s, asOf, began);
    case Claim(relay, batch, locked, asOf, began) =>
      ClaimKeeps(s, relay, batch, asOf, began);
      ClaimKeepsSafe(s, relay, batch, asOf, began);
      ClaimKeepsTickets(s, relay, batch, asOf, began);
    case RelayPublish(relay, attempt) =>
      RelayPublishKeeps(s, relay, attempt);
      RelayPublishKeepsExclusive(s, relay, attempt);
      RelayPublishKeepsTickets(s, relay, attempt);
    case Stamp(relay, at) =>
      StampKeepsBirths(s, relay, at);
      StampKeeps(s, relay, at);
      StampKeepsTickets(s, relay, at);
      StampKeepsExclusive(s, relay, at);
  }

  lemma SessionStepKeeps(s: System, step: Step)
    requires Inv(s) && Enabled(s, step) && (step.Commit? || step.PublishNow? || step.FlushMarks? || step.Cleanup?)
    ensures Inv(Apply(s, step))
  {
    match step
    case Commit(session, createdAt, loopRunning) =>
      CommitKeepsBirths(s, session, createdAt, loopRunning);
      CommitKeepsSafe(s, session, createdAt, loopRunning);
      CommitKeepsGrace(s, session, createdAt, loopRunning);
      CommitKeepsTickets(s, session, createdAt, loopRunning);
      CommitKeepsExclusive(s, session, createdAt, loopRunning);
    case PublishNow(id, attempt) =>
      PublishNowKeeps(s, id, attempt);
      PublishNowKeepsTickets(s, id, attempt);
    case FlushMarks(ids, at) =>
      FlushMarksKeeps(s, ids, at);
      FlushMarksKeepsTickets(s, ids, at);
    case Cleanup(asOf, retention) =>
      CleanupKeeps(s, asOf, retention);
  }

  /** The invariant survives every step. */
  lemma InvKept(s: System, step: Step)
    requires Inv(s) && Enabled(s, step)
    ensures Inv(Apply(s, step))
  {
    match step
    case Stage(_, _, _) => StageKeeps(s, step);
    case Rollback(_) => RollbackKeeps(s, step);
    case Tick(_) => TickKeeps(s, step);
    case Crash(_, _, _, _) => CrashKeeps(s, step);
    case Reclaim(_, _) => RelayStepKeeps(s, step);
    case Claim(_, _, _, _, _) => RelayStepKeeps(s, step);
    case RelayPublish(_, _) => RelayStepKeeps(s, step);
    case Stamp(_, _) => RelayStepKeeps(s, step);
    case _ => SessionStepKeeps(s, step);
  }
}
