/** The outbox's code: the publisher module, the session listeners and the relay's statements, each proved to do
    what the matching step of the model does. */
module OutboxStore {
  import opened Wrappers
  import opened OutboxModel
  import Coalesce

  // --- publisher -------------------------------------------------------------------------------------------

  datatype Channel = Open | Closed

  const NOT_CONNECTED := "RabbitMQ not connected"

  datatype Sending = Sending(routingKey: string, message: Payload)

  /** Where `connect` may fail. */
  datatype ConnectStep = Connecting | OpeningChannel | DeclaringEvents | DeclaringRpc

  /** The exchanges are declared once connection and channel are set. */
  function StepsBefore(failure: ConnectStep): nat {
    match failure
    case Connecting => 0
    case OpeningChannel => 1
    case DeclaringEvents => 2
    case DeclaringRpc => 3
  }

  class Publisher {
    var connected: bool
    var channel: Option<Channel>
    ghost var sent: seq<Sending>

    constructor ()
      ensures Whole() && channel.None? && sent == []
    {
      connected, channel := false, None;
      sent := [];
    }

    /** There is a connection just when there is a channel. */
    predicate Whole()
      reads `connected, `channel
    {
      connected <==> channel.Some?
    }

    /** `connect`: a failure at any step, even after the channel is set, leaves nothing half connected behind, and from
        then on every delivery fails instead of being skipped. */
    method Connect(failure: Option<ConnectStep>)
      modifies `connected, `channel
      ensures Whole() && (Ready() <==> failure.None?)
      ensures forall network :: Delivering(network) == if failure.Some? then Failed(false, NOT_CONNECTED) else network
    {
      var past := if failure.Some? then StepsBefore(failure.value) else 4;
      if past > 0 {
        connected := true;
      }
      if past > 1 {
        channel := Some(Open);
      }
      if past < 4 {
        connected, channel := false, None;
      }
    }

    /** `disconnect`. */
    method Disconnect()
      modifies `connected, `channel
      ensures Whole() && !Ready()
      ensures forall network :: Delivering(network) == Failed(false, NOT_CONNECTED)
    {
      connected, channel := false, None;
    }

    /** How a delivery ends that the network would let end like this. */
    function Delivering(network: Attempt): Attempt
      reads `channel
    {
      if Ready() then network else Failed(false, NOT_CONNECTED)
    }

    /** `publish`: without a channel it skips the message and returns as if all were well. */
    method Publish(routingKey: string, body: Payload, network: Attempt) returns (attempt: Attempt)
      modifies `sent
      ensures attempt == if channel.None? then Sent else network
      ensures sent == if channel.Some? && (network.Sent? || network.reached)
                      then old(sent) + [Sending(routingKey, body)] else old(sent)
    {
      if channel.None? {
        return Sent;
      }
      if network.Sent? || network.reached {
        sent := sent + [Sending(routingKey, body)];
      }
      attempt := network;
    }

    predicate Ready()
      reads `channel
    {
      channel == Some(Open)
    }

    /** `_deliver`: the check and the publish have no await between them, so its success means the message, with
        its stamp, has reached the broker: the silent skip cannot happen here. */
    method Deliver(routingKey: string, payload: Payload, id: EventId, network: Attempt) returns (attempt: Attempt)
      modifies `sent
      ensures attempt == Delivering(network)
      ensures sent == if attempt.Sent? || attempt.reached
                      then old(sent) + [Sending(routingKey, Stamped(payload, id))] else old(sent)
    {
      if !Ready() {
        return Failed(false, NOT_CONNECTED);
      }
      var message := payload;
      if EVENT_ID_KEY !in payload || !Truthy(payload[EVENT_ID_KEY]) {
        message := payload[EVENT_ID_KEY := Text(id)];
      }
      attempt := Publish(routingKey, message, network);
    }
  }

  // --- sessions --------------------------------------------------------------------------------------------

  function EventsOf(rows: seq<Claimed>): map<EventId, Event> {
    if rows == [] then map[]
    else EventsOf(rows[..|rows| - 1])[rows[|rows| - 1].id := rows[|rows| - 1].event]
  }

  /** What a delivery of the model puts on the wire. */
  function WireOf(log: seq<Delivery>): seq<Sending> {
    seq(|log|, i requires 0 <= i < |log| => Sending(log[i].routingKey, log[i].message))
  }

  /** `flat` holds the rows of all the sessions' lists, each under its id. */
  ghost predicate Flattens(staged: map<Session, seq<Claimed>>, flat: map<EventId, Staged>) {
    && (forall session, i | session in staged && 0 <= i < |staged[session]| ::
          staged[session][i].id in flat && flat[staged[session][i].id] == Staged(session, staged[session][i].event))
    && (forall id | id in flat ::
          flat[id].session in staged && Claimed(id, flat[id].event) in staged[flat[id].session])
  }

  /** One service process: what its sessions have staged and which publishes are in flight.  `flat` is the model's
      account of the staged rows. */
  class Process {
    var staged: map<Session, seq<Claimed>>
    var inflight: map<EventId, Event>
    ghost var flat: map<EventId, Staged>

    ghost predicate Valid()
      reads this
    {
      Flattens(staged, flat)
    }

    /** The process as the model sees it, with nothing else in the world. */
    ghost function View(): System
      reads this
    {
      Init(0.0).(staged := flat, inflight := inflight)
    }

    constructor ()
      ensures Valid() && View() == Init(0.0)
    {
      staged, inflight := map[], map[];
      flat := map[];
    }

    function StagedIn(session: Session): seq<Claimed>
      reads `staged
    {
      if session in staged then staged[session] else []
    }

    /** `publish_event` is the model's Stage. */
    method PublishEvent(session: Session, id: EventId, event: Event)
      requires Valid() && Enabled(View(), Stage(session, id, event))
      modifies `staged, `flat
      ensures Valid() && View() == Apply(old(View()), Stage(session, id, event))
      ensures StagedIn(session) == old(StagedIn(session)) + [Claimed(id, event)]
    {
      ghost var before := staged;
      if session !in staged {
        staged := staged[session := []];
      }
      staged := staged[session := staged[session] + [Claimed(id, event)]];
      flat := flat[id := Staged(session, event)];
      StagedRowIsFlat(before, old(flat), session, id, event);
    }

    /** The `after_commit` listener does to the staged rows and the publishes in flight what the model's Commit does. */
    method AfterCommit(session: Session, createdAt: real, loopRunning: bool)
      requires Valid()
      modifies this
      ensures Valid() && StagedIn(session) == []
      ensures flat == OutboxModel.AfterCommit(old(View()), session, createdAt, loopRunning).staged
      ensures inflight == OutboxModel.AfterCommit(old(View()), session, createdAt, loopRunning).inflight
    {
      var rows := StagedIn(session);
      CommitInView(flat, inflight, staged, session, createdAt, loopRunning);
      flat := flat - StagedBy(flat, {session});
      staged := staged - {session};
      if rows == [] || !loopRunning {
        return;
      }
      Launch(rows);
    }

    /** One publish is started for each row. */
    method Launch(rows: seq<Claimed>)
      modifies `inflight
      ensures inflight == old(inflight) + EventsOf(rows)
    {
      for i := 0 to |rows|
        invariant inflight == old(inflight) + EventsOf(rows[..i])
      {
        assert rows[..i + 1][..i] == rows[..i];
        inflight := inflight[rows[i].id := rows[i].event];
      }
      assert rows[..|rows|] == rows;
    }

    /** The `after_rollback` listener is the model's Rollback. */
    method AfterRollback(session: Session)
      requires Valid()
      modifies `staged, `flat
      ensures Valid() && StagedIn(session) == []
      ensures flat == Apply(old(View()), Rollback(session)).staged
    {
      DroppedSessionIsFlat(staged, flat, session);
      flat := flat - StagedBy(flat, {session});
      staged := staged - {session};
    }

    /** `_publish_one` is the model's PublishNow: what reaches the broker is what the model logs, and only a delivery
        that succeeded queues a mark. */
    method PublishOne(publisher: Publisher, marker: Coalesce.Coalescer<EventId>, loop: Coalesce.Loop,
                      id: EventId, network: Attempt)
      returns (attempt: Attempt)
      requires Valid() && id in inflight && marker.Valid()
      modifies `inflight, publisher`sent, marker
      ensures Valid() && marker.Valid() && attempt == publisher.Delivering(network)
      ensures var t := Apply(old(View()), PublishNow(id, attempt));
        && inflight == t.inflight && flat == t.staged
        && publisher.sent == old(publisher.sent) + WireOf(t.log)
        && marker.state == if id in t.marks then Coalesce.AfterAdd(old(marker.state), loop, [id]) else old(marker.state)
    {
      var event := inflight[id];
      attempt := publisher.Deliver(event.routingKey, event.payload, id, network);
      if attempt.Sent? {
        marker.Add(loop, [id]);
      }
      inflight := inflight - {id};
    }
  }

  lemma StagedRowIsFlat(staged: map<Session, seq<Claimed>>, flat: map<EventId, Staged>, session: Session,
                        id: EventId, event: Event)
    requires Flattens(staged, flat) && id !in flat
    ensures var rows := if session in staged then staged[session] else [];
      Flattens(staged[session := rows + [Claimed(id, event)]], flat[id := Staged(session, event)])
  {
    var rows := if session in staged then staged[session] else [];
    var now := rows + [Claimed(id, event)];
    assert now[|rows|] == Claimed(id, event);
    forall c | c in rows ensures c in now {
      var i :| 0 <= i < |rows| && rows[i] == c;
      assert now[i] == c;
    }
  }

  lemma DroppedSessionIsFlat(staged: map<Session, seq<Claimed>>, flat: map<EventId, Staged>, session: Session)
    requires Flattens(staged, flat)
    ensures Flattens(staged - {session}, flat - StagedBy(flat, {session}))
  {
  }

  lemma CommitInView(flat: map<EventId, Staged>, inflight: map<EventId, Event>, staged: map<Session, seq<Claimed>>,
                     session: Session, createdAt: real, loopRunning: bool)
    requires Flattens(staged, flat)
    ensures Flattens(staged - {session}, flat - StagedBy(flat, {session}))
    ensures var t := AfterCommit(Init(0.0).(staged := flat, inflight := inflight), session, createdAt, loopRunning);
      var rows := if session in staged then staged[session] else [];
      && t.staged == flat - StagedBy(flat, {session})
      && t.inflight == if loopRunning then inflight + EventsOf(rows) else inflight
  {
    DroppedSessionIsFlat(staged, flat, session);
    CommittedRows(staged, flat, session);
  }

  /** The rows a commit hands over are the session's, as the model has them. */
  lemma CommittedRows(staged: map<Session, seq<Claimed>>, flat: map<EventId, Staged>, session: Session)
    requires Flattens(staged, flat)
    ensures var rows := if session in staged then staged[session] else [];
      EventsOf(rows) == map id | id in StagedBy(flat, {session}) :: flat[id].event
  {
    var rows := if session in staged then staged[session] else [];
    EventsOfHolds(rows, flat, session);
    forall id | id in StagedBy(flat, {session}) ensures id in EventsOf(rows) && EventsOf(rows)[id] == flat[id].event {
      assert Claimed(id, flat[id].event) in rows;
    }
  }

  lemma {:induction false} EventsOfHolds(rows: seq<Claimed>, flat: map<EventId, Staged>, session: Session)
    requires forall i | 0 <= i < |rows| :: rows[i].id in flat && flat[rows[i].id] == Staged(session, rows[i].event)
    ensures forall id :: id in EventsOf(rows) <==> exists i :: 0 <= i < |rows| && rows[i].id == id
    ensures forall id | id in EventsOf(rows) :: id in flat && flat[id] == Staged(session, EventsOf(rows)[id])
  {
    if rows != [] {
      var rest, last := rows[..|rows| - 1], rows[|rows| - 1];
      EventsOfHolds(rest, flat, session);
      assert rows == rest + [last];
      forall id ensures id in EventsOf(rows) <==> exists i :: 0 <= i < |rows| && rows[i].id == id {
        if id == last.id {
          assert rows[|rest|].id == id;
        } else if i :| 0 <= i < |rows| && rows[i].id == id {
          assert rest[i].id == id;
        }
        if id in EventsOf(rest) {
          var i :| 0 <= i < |rest| && rest[i].id == id;
          assert rows[i].id == id;
        }
      }
    }
  }

  // --- the relay -------------------------------------------------------------------------------------------

  datatype Failure = Failure(id: EventId, error: string)

  function ErrorsOf(failed: seq<Failure>): map<EventId, string> {
    if failed == [] then map[]
    else ErrorsOf(failed[..|failed| - 1])[failed[|failed| - 1].id := failed[|failed| - 1].error]
  }

  /** The first `n` publishes of a batch go through these attempts. */
  function Outcomes(rows: seq<Claimed>, attempts: seq<Attempt>): (b: Batch)
    requires |attempts| <= |rows|
    ensures b.next == |attempts| && b.rows == rows
  {
    if attempts == [] then Batch(0.0, rows, map[], 0, {}, map[])
    else Recorded(Outcomes(rows, attempts[..|attempts| - 1]), attempts[|attempts| - 1])
  }

  /** Without a channel every publish of a batch raises. */
  function Effective(ready: bool, network: seq<Attempt>): seq<Attempt> {
    seq(|network|, i requires 0 <= i < |network| =>
      if ready then network[i] else Failed(false, NOT_CONNECTED))
  }

  function SendingsOf(rows: seq<Claimed>, attempts: seq<Attempt>): seq<Sending>
    requires |attempts| <= |rows|
  {
    if attempts == [] then []
    else
      var n := |attempts| - 1;
      SendingsOf(rows, attempts[..n]) + SendingsFor(rows[n], attempts[n])
  }

  function SendingsFor(row: Claimed, attempt: Attempt): seq<Sending> {
    if attempt.Sent? || attempt.reached then [Sending(row.event.routingKey, Stamped(row.event.payload, row.id))] else []
  }

  /** What a batch has published, failed and put on the wire, after what was there before, with these attempts. */
  ghost predicate IsOutcome(rows: seq<Claimed>, attempts: seq<Attempt>, published: seq<EventId>,
                            failed: seq<Failure>, before: seq<Sending>, sent: seq<Sending>)
    requires |attempts| <= |rows|
  {
    && SetOf(published) == Outcomes(rows, attempts).published
    && ErrorsOf(failed) == Outcomes(rows, attempts).failed
    && sent == before + SendingsOf(rows, attempts)
    && |published| == Successes(attempts)
  }

  lemma PublishTurn(rows: seq<Claimed>, attempts: seq<Attempt>, i: nat, published: seq<EventId>,
                    failed: seq<Failure>, before: seq<Sending>, sent: seq<Sending>)
    requires i < |attempts| <= |rows| && IsOutcome(rows, attempts[..i], published, failed, before, sent)
    ensures var id, attempt := rows[i].id, attempts[i];
      IsOutcome(rows, attempts[..i + 1],
                if attempt.Sent? then published + [id] else published,
                if attempt.Sent? then failed else failed + [Failure(id, Truncated(attempt.error))],
                before, sent + SendingsFor(rows[i], attempt))
  {
    OneMore(rows, attempts, i);
    var id, attempt := rows[i].id, attempts[i];
    if attempt.Sent? {
      SetOfAppend(published, id);
    } else {
      var failure := Failure(id, Truncated(attempt.error));
      assert (failed + [failure])[..|failed|] == failed;
    }
  }

  function Successes(attempts: seq<Attempt>): nat {
    if attempts == [] then 0
    else Successes(attempts[..|attempts| - 1]) + if attempts[|attempts| - 1].Sent? then 1 else 0
  }

  lemma OneMore(rows: seq<Claimed>, attempts: seq<Attempt>, i: nat)
    requires i < |attempts| <= |rows|
    ensures Outcomes(rows, attempts[..i + 1]) == Recorded(Outcomes(rows, attempts[..i]), attempts[i])
    ensures Successes(attempts[..i + 1]) == Successes(attempts[..i]) + if attempts[i].Sent? then 1 else 0
    ensures SendingsOf(rows, attempts[..i + 1]) == SendingsOf(rows, attempts[..i]) + SendingsFor(rows[i], attempts[i])
  {
    assert attempts[..i + 1][..i] == attempts[..i];
  }

  lemma OneMoreFailed(table: Table, published: set<EventId>, failed: seq<Failure>, i: nat, at: real)
    requires i < |failed|
    ensures var before, f := StampedRows(table, published, ErrorsOf(failed[..i]), at), failed[i];
      StampedRows(table, published, ErrorsOf(failed[..i + 1]), at) ==
        if f.id in before
        then before[f.id := before[f.id].(status := Pending, lastError := Some(f.error), updatedAt := at)]
        else before
  {
    assert failed[..i + 1][..i] == failed[..i];
    assert ErrorsOf(failed[..i + 1]) == ErrorsOf(failed[..i])[failed[i].id := failed[i].error];
  }

  // --- what a pass leaves ----------------------------------------------------------------------------------

  /** `now` is `was` but for the rows in `ids`. */
  ghost predicate OnlyChanges(was: Table, now: Table, ids: set<EventId>) {
    was.Keys == now.Keys && forall id | id in was && id !in ids :: now[id] == was[id]
  }

  predicate IsPublishedAt(row: Row, at: real) {
    row.status == Published && row.publishedAt == Some(at)
  }

  /** The error as a row keeps it. */
  predicate KeepsError(row: Row, error: string) {
    && row.lastError.Some? && |row.lastError.value| == (if |error| < ERROR_LENGTH then |error| else ERROR_LENGTH)
    && row.lastError.value <= error
  }

  /** What a pass makes of its batch: each row ends as its own attempt did, and no other row changes. */
  ghost predicate PassSettles(was: Table, now: Table, batch: seq<EventId>, attempts: seq<Attempt>, at: real)
    requires |attempts| == |batch|
  {
    && OnlyChanges(was, now, SetOf(batch))
    && (forall i | 0 <= i < |batch| ::
          && batch[i] in was && now[batch[i]].attempts == was[batch[i]].attempts + 1
          && (attempts[i].Sent? ==> IsPublishedAt(now[batch[i]], at))
          && (attempts[i].Failed? ==> now[batch[i]].status == Pending && KeepsError(now[batch[i]], attempts[i].error)))
  }

  function IdsBefore(rows: seq<Claimed>, n: nat): set<EventId>
    requires n <= |rows|
  {
    set i | 0 <= i < n :: rows[i].id
  }

  lemma {:induction false} OutcomesWithin(rows: seq<Claimed>, attempts: seq<Attempt>)
    requires |attempts| <= |rows|
    ensures Outcomes(rows, attempts).published + Outcomes(rows, attempts).failed.Keys <= IdsBefore(rows, |attempts|)
  {
    if attempts != [] {
      OutcomesWithin(rows, attempts[..|attempts| - 1]);
      assert rows[|attempts| - 1].id in IdsBefore(rows, |attempts|);
    }
  }

  /** A batch of different rows records each attempt under its own row. */
  lemma {:induction false} OutcomesHold(rows: seq<Claimed>, attempts: seq<Attempt>, i: nat)
    requires i < |attempts| <= |rows| && forall j, k | 0 <= j < k < |rows| :: rows[j].id != rows[k].id
    ensures var b, id := Outcomes(rows, attempts), rows[i].id;
      && (attempts[i].Sent? ==> id in b.published && id !in b.failed)
      && (attempts[i].Failed? ==> id in b.failed && b.failed[id] == Truncated(attempts[i].error))
    decreases |attempts|
  {
    var n := |attempts| - 1;
    if i < n {
      OutcomesHold(rows, attempts[..n], i);
    } else {
      OutcomesWithin(rows, attempts[..n]);
    }
  }

  lemma RowIsSettled(table: Table, batch: seq<EventId>, began: real, attempts: seq<Attempt>, at: real, i: nat)
    requires Distinct(batch) && |attempts| == |batch| && forall j | 0 <= j < |batch| :: batch[j] in table
    requires i < |batch|
    ensures var done := Outcomes(Taken(table, batch), attempts);
      var now := StampedRows(ClaimedRows(table, SetOf(batch), began), done.published, done.failed, at);
      && batch[i] in now && now[batch[i]].attempts == table[batch[i]].attempts + 1
      && (attempts[i].Sent? ==> IsPublishedAt(now[batch[i]], at))
      && (attempts[i].Failed? ==> now[batch[i]].status == Pending && KeepsError(now[batch[i]], attempts[i].error))
  {
    var rows := Taken(table, batch);
    assert rows[i].id == batch[i] && batch[i] in SetOf(batch);
    OutcomesHold(rows, attempts, i);
  }

  lemma OthersStay(table: Table, batch: seq<EventId>, began: real, attempts: seq<Attempt>, at: real)
    requires |attempts| == |batch| && forall i | 0 <= i < |batch| :: batch[i] in table
    ensures var done := Outcomes(Taken(table, batch), attempts);
      var now := StampedRows(ClaimedRows(table, SetOf(batch), began), done.published, done.failed, at);
      OnlyChanges(table, now, SetOf(batch))
  {
    var rows := Taken(table, batch);
    OutcomesWithin(rows, attempts);
    forall id | id in IdsBefore(rows, |attempts|) ensures id in SetOf(batch) {
      var i :| 0 <= i < |attempts| && rows[i].id == id;
      assert batch[i] == id;
    }
  }

  lemma PassIsSettled(table: Table, batch: seq<EventId>, began: real, attempts: seq<Attempt>, at: real)
    requires Distinct(batch) && |attempts| == |batch| && forall i | 0 <= i < |batch| :: batch[i] in table
    ensures var done := Outcomes(Taken(table, batch), attempts);
      var now := StampedRows(ClaimedRows(table, SetOf(batch), began), done.published, done.failed, at);
      PassSettles(table, now, batch, attempts, at)
  {
    OthersStay(table, batch, began, attempts, at);
    forall i | 0 <= i < |batch| {
      RowIsSettled(table, batch, began, attempts, at, i);
    }
  }

  class Store {
    var rows: Table

    constructor ()
      ensures rows == map[]
    {
      rows := map[];
    }

    /** `_mark_published`.  A failing transaction is logged and changes nothing. */
    method MarkPublished(ids: seq<EventId>, at: real, commits: bool)
      modifies this
      ensures rows == if commits then MarkedRows(old(rows), SetOf(ids), at) else old(rows)
    {
      if commits {
        rows := rows + map id | id in rows && id in ids ::
          rows[id].(status := Published, publishedAt := Some(at), attempts := rows[id].attempts + 1, updatedAt := at);
      }
    }

    /** `_reclaim_stuck`. */
    method ReclaimStuck(asOf: real, began: real)
      modifies this
      ensures rows == ReclaimedRows(old(rows), asOf, began)
    {
      var cutoff := asOf - RECLAIM_AFTER_SECONDS;
      rows := rows + map id | id in rows && rows[id].status == Publishing && rows[id].updatedAt < cutoff ::
        rows[id].(status := Pending, updatedAt := began);
    }

    /** The claim transaction of `relay_once`, `batch` being what its SELECT returned. */
    method Claim(batch: seq<EventId>, began: real) returns (claimed: seq<Claimed>)
      requires forall i | 0 <= i < |batch| :: batch[i] in rows
      modifies this
      ensures rows == ClaimedRows(old(rows), SetOf(batch), began)
      ensures claimed == Taken(old(rows), batch)
    {
      var table := rows;
      claimed := seq(|batch|, i requires 0 <= i < |batch| && batch[i] in table =>
        Claimed(batch[i], table[batch[i]].event));
      rows := rows + map id | id in rows && id in batch ::
        rows[id].(status := Publishing, attempts := rows[id].attempts + 1, updatedAt := began);
    }

    /** One turn of the publish loop. */
    method PublishRow(publisher: Publisher, row: Claimed, network: Attempt, published: seq<EventId>,
                      failed: seq<Failure>)
      returns (nowPublished: seq<EventId>, nowFailed: seq<Failure>)
      modifies publisher`sent
      ensures var attempt := publisher.Delivering(network);
        && nowPublished == (if attempt.Sent? then published + [row.id] else published)
        && nowFailed == (if attempt.Sent? then failed else failed + [Failure(row.id, Truncated(attempt.error))])
        && publisher.sent == old(publisher.sent) + SendingsFor(row, attempt)
    {
      nowPublished, nowFailed := published, failed;
      var attempt := publisher.Deliver(row.event.routingKey, row.event.payload, row.id, network);
      match attempt {
        case Sent => nowPublished := published + [row.id];
        case Failed(_, error) => nowFailed := failed + [Failure(row.id, Truncated(error))];
      }
    }

    /** The publish loop of `relay_once`. */
    method PublishBatch(publisher: Publisher, claimed: seq<Claimed>, network: seq<Attempt>)
      returns (published: seq<EventId>, failed: seq<Failure>)
      requires |network| == |claimed|
      modifies publisher`sent
      ensures var attempts := Effective(publisher.Ready(), network);
        && SetOf(published) == Outcomes(claimed, attempts).published
        && ErrorsOf(failed) == Outcomes(claimed, attempts).failed
        && publisher.sent == old(publisher.sent) + SendingsOf(claimed, attempts)
        && |published| == Successes(attempts)
    {
      published, failed := [], [];
      ghost var attempts := Effective(publisher.Ready(), network);
      for i := 0 to |claimed|
        invariant IsOutcome(claimed, attempts[..i], published, failed, old(publisher.sent), publisher.sent)
      {
        PublishTurn(claimed, attempts, i, published, failed, old(publisher.sent), publisher.sent);
        assert publisher.Delivering(network[i]) == attempts[i];
        published, failed := PublishRow(publisher, claimed[i], network[i], published, failed);
      }
      assert attempts[..|claimed|] == attempts;
    }

    /** The stamp transaction of `relay_once`. */
    method StampBatch(published: seq<EventId>, failed: seq<Failure>, at: real)
      modifies this
      ensures rows == StampedRows(old(rows), SetOf(published), ErrorsOf(failed), at)
    {
      rows := rows + map id | id in rows && id in published ::
        rows[id].(status := Published, publishedAt := Some(at), updatedAt := at);
      for i := 0 to |failed|
        invariant rows == StampedRows(old(rows), SetOf(published), ErrorsOf(failed[..i]), at)
      {
        OneMoreFailed(old(rows), SetOf(published), failed, i, at);
        var id := failed[i].id;
        if id in rows {
          rows := rows[id := rows[id].(status := Pending, lastError := Some(failed[i].error), updatedAt := at)];
        }
      }
      assert failed[..|failed|] == failed;
    }

    /** `cleanup_published`. */
    method CleanupPublished(asOf: real, retention: real := CLEANUP_RETENTION_SECONDS) returns (deleted: nat)
      modifies this
      ensures rows == CleanedRows(old(rows), asOf, retention)
      ensures deleted == |old(rows)| - |rows|
    {
      var gone := set id | id in rows && rows[id].status == Published
        && rows[id].publishedAt.Some? && rows[id].publishedAt.value < asOf - retention;
      assert |rows.Keys - gone| == |rows.Keys| - |gone|;
      assert (rows - gone).Keys == rows.Keys - gone;
      rows := rows - gone;
      deleted := |gone|;
    }

    /** `relay_once`, when nothing else runs meanwhile: reclaim, claim, publish and stamp, as the model's steps. */
    method RelayOnce(publisher: Publisher, asOf: real, began: real, batch: seq<EventId>, network: seq<Attempt>,
                     at: real)
      returns (count: nat)
      requires |network| == |batch|
      requires batch != [] ==> IsClaimBatch(ReclaimedRows(rows, asOf, began), batch, {}, asOf)
      modifies this, publisher`sent
      ensures !publisher.Ready() ==> rows == old(rows) && publisher.sent == old(publisher.sent) && count == 0
      ensures publisher.Ready() ==>
        var reclaimed := ReclaimedRows(old(rows), asOf, began);
        var done := Outcomes(Taken(reclaimed, batch), network);
        && rows == StampedRows(ClaimedRows(reclaimed, SetOf(batch), began), done.published, done.failed, at)
        && publisher.sent == old(publisher.sent) + SendingsOf(Taken(reclaimed, batch), network)
        && count == Successes(network)
        && PassSettles(reclaimed, rows, batch, network, at)
    {
      if !publisher.Ready() {
        return 0;
      }
      ReclaimStuck(asOf, began);
      if batch == [] {
        return 0;
      }
      PassIsSettled(rows, batch, began, network, at);
      var claimed := Claim(batch, began);
      var published, failed := PublishBatch(publisher, claimed, network);
      assert Effective(true, network) == network;
      StampBatch(published, failed, at);
      count := |published|;
    }
  }

  lemma SetOfAppend(ids: seq<EventId>, id: EventId)
    ensures SetOf(ids + [id]) == SetOf(ids) + {id}
  {
    var longer := ids + [id];
    assert longer[|ids|] == id;
    forall x | x in SetOf(ids) ensures x in SetOf(longer) {
      var i :| 0 <= i < |ids| && ids[i] == x;
      assert longer[i] == x;
    }
  }
}
