/** The transactional outbox as a step system.

    Durable state is the `outbox_events` table.  Volatile state is what lives in some process's memory: the rows
    a session has staged, the immediate publishes in flight, the delivered-but-unmarked ids, and the batch each
    relay has claimed.  The broker log and `History` only record what happened; no step reads them.

    A step is one committed transaction, one broker round-trip, or a loss of memory, so every interleaving of
    any number of sessions, publishes and relays is a sequence of steps. */
module OutboxModel {
  import opened Wrappers

  /** The text of a row's UUID. */
  type EventId = string
  type Session = nat
  type Relay = nat

  const RELAY_GRACE_SECONDS: real := 30.0
  const RELAY_BATCH: nat := 200
  const RELAY_MAX_ATTEMPTS: nat := 10
  const RECLAIM_AFTER_SECONDS: real := 300.0
  const CLEANUP_RETENTION_SECONDS: real := 604800.0
  const ERROR_LENGTH: nat := 500

  // --- the event and its stamp -----------------------------------------------------------------------------

  datatype Json =
    | Null
    | Bool(flag: bool)
    | Number(number: real)
    | Text(text: string)
    | Array(items: seq<Json>)
    | Object(fields: map<string, Json>)

  type Payload = map<string, Json>

  /** What Python's `if value` says about a decoded JSON value. */
  predicate Truthy(j: Json) {
    match j
    case Null => false
    case Bool(b) => b
    case Number(n) => n != 0.0
    case Text(t) => t != ""
    case Array(items) => items != []
    case Object(fields) => fields != map[]
  }

  const EVENT_ID_KEY := "event_id"

  /** The message `_deliver` sends: the payload, with the row id as its event id unless it brings its own. */
  function Stamped(payload: Payload, id: EventId): Payload {
    if EVENT_ID_KEY in payload && Truthy(payload[EVENT_ID_KEY]) then payload
    else payload[EVENT_ID_KEY := Text(id)]
  }

  datatype Event = Event(routingKey: string, payload: Payload)

  // --- the table -------------------------------------------------------------------------------------------

  datatype Status = Pending | Publishing | Published

  datatype Row = Row(
    event: Event,
    status: Status,
    attempts: nat,
    createdAt: real,
    updatedAt: real,
    publishedAt: Option<real>,
    lastError: Option<string>)

  type Table = map<EventId, Row>

  function NewRow(event: Event, createdAt: real): Row {
    Row(event, Pending, 0, createdAt, createdAt, None, None)
  }

  function Truncated(error: string): string {
    if |error| <= ERROR_LENGTH then error else error[..ERROR_LENGTH]
  }

  predicate Due(row: Row, asOf: real) {
    row.status == Pending && row.createdAt < asOf - RELAY_GRACE_SECONDS && row.attempts < RELAY_MAX_ATTEMPTS
  }

  predicate Stuck(row: Row, asOf: real) {
    row.status == Publishing && row.updatedAt < asOf - RECLAIM_AFTER_SECONDS
  }

  predicate Expired(row: Row, asOf: real, retention: real) {
    row.status == Published && row.publishedAt.Some? && row.publishedAt.value < asOf - retention
  }

  /** `_mark_published`: one UPDATE over the ids one drain handed over. */
  function MarkedRows(table: Table, ids: set<EventId>, at: real): Table {
    map id | id in table :: if id in ids then
      table[id].(status := Published, publishedAt := Some(at), attempts := table[id].attempts + 1, updatedAt := at)
    else table[id]
  }

  /** The claim's UPDATE. */
  function ClaimedRows(table: Table, ids: set<EventId>, at: real): Table {
    map id | id in table :: if id in ids then
      table[id].(status := Publishing, attempts := table[id].attempts + 1, updatedAt := at)
    else table[id]
  }

  /** The stamp transaction: one UPDATE for the published ids, then one for each failed id. */
  function StampedRows(table: Table, published: set<EventId>, failed: map<EventId, string>, at: real): Table {
    map id | id in table ::
      if id in failed then
        table[id].(status := Pending, lastError := Some(failed[id]), updatedAt := at,
                   publishedAt := if id in published then Some(at) else table[id].publishedAt)
      else if id in published then
        table[id].(status := Published, publishedAt := Some(at), updatedAt := at)
      else table[id]
  }

  function ReclaimedRows(table: Table, asOf: real, at: real): Table {
    map id | id in table :: if Stuck(table[id], asOf) then table[id].(status := Pending, updatedAt := at) else table[id]
  }

  function CleanedRows(table: Table, asOf: real, retention: real): Table {
    map id | id in table && !Expired(table[id], asOf, retention) :: table[id]
  }

  // --- volatile state --------------------------------------------------------------------------------------

  datatype Staged = Staged(session: Session, event: Event)

  /** A claimed row as the relay holds it. */
  datatype Claimed = Claimed(id: EventId, event: Event)

  /** A relay between its claim and its stamp.  `tickets` is the attempt number its claim gave each row; the code
      does not keep it, the model uses it to tell the deliveries of one row apart (0 is the immediate publish). */
  datatype Batch = Batch(
    claimedAt: real,
    rows: seq<Claimed>,
    tickets: map<EventId, nat>,
    next: nat,
    published: set<EventId>,
    failed: map<EventId, string>)

  /** A broker round-trip either succeeds or raises; one that raises may still have reached the broker. */
  datatype Attempt = Sent | Failed(reached: bool, error: string)

  datatype Delivery = Delivery(id: EventId, ticket: nat, routingKey: string, message: Payload)

  // --- history ---------------------------------------------------------------------------------------------

  datatype Birth = Birth(event: Event, createdAt: real)

  /** The first reclaim that took a row from a relay which still held it, and when that row had been claimed. */
  datatype Late = Late(claimedAt: real, reclaimedAt: real)

  datatype History = History(
    committed: map<EventId, Birth>,
    dropped: set<EventId>,
    claimed: set<EventId>,
    late: map<EventId, Late>)

  datatype System = System(
    now: real,
    table: Table,
    staged: map<EventId, Staged>,
    inflight: map<EventId, Event>,
    marks: set<EventId>,
    relays: map<Relay, Batch>,
    log: seq<Delivery>,
    history: History)

  function Init(now: real): System {
    System(now, map[], map[], map[], {}, map[], [], History(map[], {}, {}, map[]))
  }

  // --- steps -----------------------------------------------------------------------------------------------

  /** `at`, `began` and `asOf` are the clock readings a transaction used, each taken at or before its commit:
      `began` is what the database's now() returns, `asOf` what the application's clock gave for a cutoff. */
  datatype Step =
    | Stage(session: Session, id: EventId, event: Event)
    | Commit(session: Session, createdAt: real, loopRunning: bool)
    | Rollback(session: Session)
    | PublishNow(id: EventId, attempt: Attempt)
    | FlushMarks(ids: set<EventId>, at: real)
    | Reclaim(asOf: real, began: real)
    | Claim(relay: Relay, batch: seq<EventId>, locked: set<EventId>, asOf: real, began: real)
    | RelayPublish(relay: Relay, attempt: Attempt)
    | Stamp(relay: Relay, at: real)
    | Cleanup(asOf: real, retention: real)
    | Tick(seconds: real)
    | Crash(sessions: set<Session>, tasks: set<EventId>, unmarked: set<EventId>, processes: set<Relay>)

  function SetOf(ids: seq<EventId>): set<EventId> {
    set i | 0 <= i < |ids| :: ids[i]
  }

  ghost predicate Distinct(ids: seq<EventId>) {
    forall i, j | 0 <= i < j < |ids| :: ids[i] != ids[j]
  }

  /** What the claim's SELECT returns: the oldest due rows nobody else has locked, up to the batch size. */
  ghost predicate IsClaimBatch(table: Table, batch: seq<EventId>, locked: set<EventId>, asOf: real) {
    && 0 < |batch| <= RELAY_BATCH
    && Distinct(batch)
    && (forall i | 0 <= i < |batch| :: batch[i] in table && batch[i] !in locked && Due(table[batch[i]], asOf))
    && (forall i, j | 0 <= i < j < |batch| :: table[batch[i]].createdAt <= table[batch[j]].createdAt)
    && (forall id | id in table && id !in locked && Due(table[id], asOf) && id !in batch ::
          |batch| == RELAY_BATCH && table[batch[|batch| - 1]].createdAt <= table[id].createdAt)
  }

  predicate CanPublish(b: Batch) {
    b.next < |b.rows| && b.rows[b.next].id in b.tickets
  }

  ghost predicate Enabled(s: System, step: Step) {
    match step
    case Stage(_, id, _) => id !in s.staged && id !in s.history.committed && id !in s.history.dropped
    case Commit(_, createdAt, _) => createdAt <= s.now
    case Rollback(_) => true
    case PublishNow(id, _) => id in s.inflight
    case FlushMarks(ids, at) => ids <= s.marks && at <= s.now
    case Reclaim(asOf, began) => asOf <= s.now && began <= s.now
    case Claim(relay, batch, locked, asOf, began) =>
      relay !in s.relays && asOf <= s.now && began <= s.now && IsClaimBatch(s.table, batch, locked, asOf)
    case RelayPublish(relay, _) => relay in s.relays && CanPublish(s.relays[relay])
    case Stamp(relay, at) =>
      relay in s.relays && s.relays[relay].next == |s.relays[relay].rows| && at <= s.now
    case Cleanup(asOf, _) => asOf <= s.now
    case Tick(seconds) => seconds >= 0.0
    case Crash(_, _, _, _) => true
  }

  function Delivered(id: EventId, ticket: nat, event: Event): Delivery {
    Delivery(id, ticket, event.routingKey, Stamped(event.payload, id))
  }

  function Logged(log: seq<Delivery>, attempt: Attempt, d: Delivery): seq<Delivery> {
    if attempt.Sent? || attempt.reached then log + [d] else log
  }

  function StagedBy(staged: map<EventId, Staged>, sessions: set<Session>): set<EventId> {
    set id | id in staged && staged[id].session in sessions
  }

  function Unstage(s: System, session: Session): System {
    var mine := StagedBy(s.staged, {session});
    s.(staged := s.staged - mine, history := s.history.(dropped := s.history.dropped + mine))
  }

  function AfterCommit(s: System, session: Session, createdAt: real, loopRunning: bool): System {
    var mine := StagedBy(s.staged, {session});
    s.(table := s.table + (map id | id in mine :: NewRow(s.staged[id].event, createdAt)),
       staged := s.staged - mine,
       inflight := if loopRunning then s.inflight + (map id | id in mine :: s.staged[id].event) else s.inflight,
       history := s.history.(
         committed := s.history.committed + (map id | id in mine :: Birth(s.staged[id].event, createdAt))))
  }

  function AfterPublishNow(s: System, id: EventId, attempt: Attempt): System
    requires id in s.inflight
  {
    s.(inflight := s.inflight - {id},
       marks := if attempt.Sent? then s.marks + {id} else s.marks,
       log := Logged(s.log, attempt, Delivered(id, 0, s.inflight[id])))
  }

  function HeldIds(relays: map<Relay, Batch>): set<EventId> {
    set relay, id | relay in relays && id in relays[relay].tickets :: id
  }

  /** The rows a reclaim takes from relays that still hold them, where no earlier reclaim did so already. */
  function NewlyLate(s: System, asOf: real): map<EventId, Late> {
    map id | id in s.table && Stuck(s.table[id], asOf) && id in HeldIds(s.relays) && id !in s.history.late ::
      Late(s.table[id].updatedAt, asOf)
  }

  function AfterReclaim(s: System, asOf: real, began: real): System {
    s.(table := ReclaimedRows(s.table, asOf, began),
       history := s.history.(late := s.history.late + NewlyLate(s, asOf)))
  }

  function Taken(table: Table, batch: seq<EventId>): seq<Claimed>
    requires forall i | 0 <= i < |batch| :: batch[i] in table
  {
    seq(|batch|, i requires 0 <= i < |batch| => Claimed(batch[i], table[batch[i]].event))
  }

  function TicketsFor(table: Table, ids: set<EventId>): map<EventId, nat>
    requires ids <= table.Keys
  {
    map id | id in ids :: table[id].attempts + 1
  }

  function AfterClaim(s: System, relay: Relay, batch: seq<EventId>, began: real): System
    requires forall i | 0 <= i < |batch| :: batch[i] in s.table
  {
    s.(table := ClaimedRows(s.table, SetOf(batch), began),
       relays := s.relays[relay :=
         Batch(began, Taken(s.table, batch), TicketsFor(s.table, SetOf(batch)), 0, {}, map[])],
       history := s.history.(claimed := s.history.claimed + SetOf(batch)))
  }

  function Recorded(b: Batch, attempt: Attempt): Batch
    requires b.next < |b.rows|
  {
    var id := b.rows[b.next].id;
    match attempt
    case Sent => b.(next := b.next + 1, published := b.published + {id})
    case Failed(_, error) => b.(next := b.next + 1, failed := b.failed[id := Truncated(error)])
  }

  function AfterRelayPublish(s: System, relay: Relay, attempt: Attempt): System
    requires relay in s.relays && CanPublish(s.relays[relay])
  {
    var b := s.relays[relay];
    var row := b.rows[b.next];
    s.(relays := s.relays[relay := Recorded(b, attempt)],
       log := Logged(s.log, attempt, Delivered(row.id, b.tickets[row.id], row.event)))
  }

  function AfterStamp(s: System, relay: Relay, at: real): System
    requires relay in s.relays
  {
    var b := s.relays[relay];
    s.(table := StampedRows(s.table, b.published, b.failed, at), relays := s.relays - {relay})
  }

  function AfterCrash(s: System, sessions: set<Session>, tasks: set<EventId>, unmarked: set<EventId>,
                      processes: set<Relay>): System
  {
    var lost := StagedBy(s.staged, sessions);
    s.(staged := s.staged - lost, inflight := s.inflight - tasks, marks := s.marks - unmarked,
       relays := s.relays - processes, history := s.history.(dropped := s.history.dropped + lost))
  }

  function Apply(s: System, step: Step): System
    requires Enabled(s, step)
  {
    match step
    case Stage(session, id, event) => s.(staged := s.staged[id := Staged(session, event)])
    case Commit(session, createdAt, loopRunning) => AfterCommit(s, session, createdAt, loopRunning)
    case Rollback(session) => Unstage(s, session)
    case PublishNow(id, attempt) => AfterPublishNow(s, id, attempt)
    case FlushMarks(ids, at) => s.(table := MarkedRows(s.table, ids, at), marks := s.marks - ids)
    case Reclaim(asOf, began) => AfterReclaim(s, asOf, began)
    case Claim(relay, batch, _, _, began) => AfterClaim(s, relay, batch, began)
    case RelayPublish(relay, attempt) => AfterRelayPublish(s, relay, attempt)
    case Stamp(relay, at) => AfterStamp(s, relay, at)
    case Cleanup(asOf, retention) => s.(table := CleanedRows(s.table, asOf, retention))
    case Tick(seconds) => s.(now := s.now + seconds)
    case Crash(sessions, tasks, unmarked, processes) => AfterCrash(s, sessions, tasks, unmarked, processes)
  }

  // --- runs ------------------------------------------------------------------------------------------------

  ghost predicate IsRun(s: System, steps: seq<Step>)
    decreases |steps|
  {
    steps == [] || (Enabled(s, steps[0]) && IsRun(Apply(s, steps[0]), steps[1..]))
  }

  ghost function After(s: System, steps: seq<Step>): System
    requires IsRun(s, steps)
    decreases |steps|
  {
    if steps == [] then s else After(Apply(s, steps[0]), steps[1..])
  }
}
