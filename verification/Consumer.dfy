/** An event consumer: how one delivery is settled, and how often an event's handler runs over any run of the queue. */
module Consumer {
  import opened Wrappers

  type EventId = nat

  /** Trying a delivery: its body may not be JSON, its handler may raise, or the handler survives. */
  datatype Outcome = Unreadable | Raised | Survived

  datatype Settlement = Acked | Requeued

  function SettlementFor(requeueFailed: bool, redelivered: bool, outcome: Outcome): Settlement {
    if !outcome.Survived? && requeueFailed && !redelivered then Requeued else Acked
  }

  /** One incoming message as the broker library hands it over. */
  class Message {
    const redelivered: bool
    ghost var settlements: seq<Settlement>
    ghost var handled: nat
    ghost var waited: real

    constructor (redelivered: bool)
      ensures this.redelivered == redelivered && settlements == [] && handled == 0 && waited == 0.0
    {
      this.redelivered := redelivered;
      settlements, handled, waited := [], 0, 0.0;
    }

    method Ack()
      modifies `settlements
      ensures settlements == old(settlements) + [Acked]
    {
      settlements := settlements + [Acked];
    }

    method Reject()
      modifies `settlements
      ensures settlements == old(settlements) + [Requeued]
    {
      settlements := settlements + [Requeued];
    }

    /** `_process`: whatever happens, the delivery is settled exactly once, and the handler runs at most once. */
    method Process(requeueFailed: bool, requeueDelay: real, outcome: Outcome)
      modifies this
      ensures settlements == old(settlements) + [SettlementFor(requeueFailed, redelivered, outcome)]
      ensures handled == old(handled) + if outcome.Unreadable? then 0 else 1
      ensures var how := SettlementFor(requeueFailed, redelivered, outcome);
        waited == old(waited) + if how.Requeued? then requeueDelay else 0.0
    {
      if !outcome.Unreadable? {
        handled := handled + 1;
      }
      if !outcome.Survived? {
        if requeueFailed && !redelivered {
          if requeueDelay != 0.0 {
            waited := waited + requeueDelay;
          }
          Reject();
          return;
        }
        Ack();
        return;
      }
      Ack();
    }
  }

  // --- the queue over a run --------------------------------------------------------------------------------

  /** One delivery of an event to a consumer.  `connected` ends when the connection it came over is lost; the try
      itself may go on after that, but can no longer settle anything. */
  datatype Try = Try(
    event: EventId, redelivered: bool, outcome: Option<Outcome>, settlement: Option<Settlement>, connected: bool)

  /** Where a message is: in the queue, out with a consumer, or acknowledged. */
  datatype Place = Ready(redelivered: bool) | Out(k: nat) | Gone(k: nat)

  /** `losses` counts the connections lost while the message was out, `requeues` the times it was sent back. */
  datatype Entry = Entry(place: Place, losses: nat, requeues: nat)

  datatype Queue = Queue(requeueFailed: bool, entries: map<EventId, Entry>, tries: seq<Try>)

  datatype Step =
    | Arrive(event: EventId)
    | Deliver(event: EventId)
    | Handle(k: nat, outcome: Outcome)
    | Settle(k: nat)
    | Lose(k: nat)

  predicate Open(q: Queue, k: nat) {
    k < |q.tries| && q.tries[k].connected && q.tries[k].settlement.None?
  }

  predicate Enabled(q: Queue, step: Step) {
    match step
    case Arrive(event) => event !in q.entries
    case Deliver(event) => event in q.entries && q.entries[event].place.Ready?
    case Handle(k, _) => k < |q.tries| && q.tries[k].outcome.None?
    case Settle(k) => Open(q, k) && q.tries[k].outcome.Some? && q.tries[k].event in q.entries
    case Lose(k) => Open(q, k) && q.tries[k].event in q.entries
  }

  function Settled(q: Queue, k: nat): Queue
    requires Enabled(q, Settle(k))
  {
    var t := q.tries[k];
    var e := q.entries[t.event];
    var how := SettlementFor(q.requeueFailed, t.redelivered, t.outcome.value);
    q.(tries := q.tries[k := t.(settlement := Some(how))],
       entries := q.entries[t.event :=
         if how.Acked? then e.(place := Gone(k)) else e.(place := Ready(true), requeues := e.requeues + 1)])
  }

  function Apply(q: Queue, step: Step): Queue
    requires Enabled(q, step)
  {
    match step
    case Arrive(event) => q.(entries := q.entries[event := Entry(Ready(false), 0, 0)])
    case Deliver(event) =>
      var e := q.entries[event];
      q.(tries := q.tries + [Try(event, e.place.redelivered, None, None, true)],
         entries := q.entries[event := e.(place := Out(|q.tries|))])
    case Handle(k, outcome) => q.(tries := q.tries[k := q.tries[k].(outcome := Some(outcome))])
    case Settle(k) => Settled(q, k)
    case Lose(k) =>
      var t := q.tries[k];
      var e := q.entries[t.event];
      q.(tries := q.tries[k := t.(connected := false)],
         entries := q.entries[t.event := e.(place := Ready(true), losses := e.losses + 1)])
  }

  ghost predicate IsRun(q: Queue, steps: seq<Step>)
    decreases |steps|
  {
    steps == [] || (Enabled(q, steps[0]) && IsRun(Apply(q, steps[0]), steps[1..]))
  }

  function After(q: Queue, steps: seq<Step>): Queue
    requires IsRun(q, steps)
    decreases |steps|
  {
    if steps == [] then q else After(Apply(q, steps[0]), steps[1..])
  }

  function Empty(requeueFailed: bool): Queue {
    Queue(requeueFailed, map[], [])
  }

  function Tries(tries: seq<Try>, event: EventId): nat {
    if tries == [] then 0
    else Tries(tries[..|tries| - 1], event) + if tries[|tries| - 1].event == event then 1 else 0
  }

  /** How often the handler ran for this event. */
  function Runs(tries: seq<Try>, event: EventId): nat {
    if tries == [] then 0
    else
      var t := tries[|tries| - 1];
      Runs(tries[..|tries| - 1], event)
      + if t.event == event && t.outcome.Some? && !t.outcome.value.Unreadable? then 1 else 0
  }

  // --- the invariant ---------------------------------------------------------------------------------------

  /** Every try of an event came from its arrival, from sending it back, or from a lost connection. */
  predicate Accounted(tries: seq<Try>, event: EventId, e: Entry) {
    Tries(tries, event) + (if e.place.Ready? then 1 else 0) == 1 + e.losses + e.requeues
  }

  predicate EntryOk(q: Queue, event: EventId, e: Entry) {
    && e.requeues <= (if q.requeueFailed then 1 else 0)
    && match e.place
       case Ready(redelivered) => redelivered <==> e.losses + e.requeues > 0
       case Out(k) => Open(q, k) && IsTryOf(q, k, event, e)
       case Gone(k) => k < |q.tries| && q.tries[k].settlement == Some(Acked) && IsTryOf(q, k, event, e)
  }

  predicate IsTryOf(q: Queue, k: nat, event: EventId, e: Entry)
    requires k < |q.tries|
  {
    q.tries[k].event == event && (q.tries[k].redelivered <==> e.losses + e.requeues > 0)
  }

  /** A try that is not the current one failed and was sent back, or lost its connection. */
  predicate TryOk(q: Queue, k: nat)
    requires k < |q.tries|
  {
    var t := q.tries[k];
    && t.event in q.entries
    && (t.settlement.Some? ==>
          t.outcome.Some? && t.settlement.value == SettlementFor(q.requeueFailed, t.redelivered, t.outcome.value))
    && (t.settlement.None? && t.connected ==> q.entries[t.event].place == Out(k))
    && (t.settlement == Some(Acked) ==> q.entries[t.event].place == Gone(k))
    && (!t.connected ==> t.settlement.None? && q.entries[t.event].losses > 0)
  }

  ghost predicate AllAccounted(q: Queue) {
    forall event | event in q.entries :: Accounted(q.tries, event, q.entries[event])
  }

  ghost predicate EntriesOk(q: Queue) {
    forall event | event in q.entries :: EntryOk(q, event, q.entries[event])
  }

  ghost predicate TriesOk(q: Queue) {
    forall k | 0 <= k < |q.tries| :: TryOk(q, k)
  }

  ghost predicate NoStranger(q: Queue) {
    forall event | event !in q.entries :: Tries(q.tries, event) == 0
  }

  ghost predicate Inv(q: Queue) {
    AllAccounted(q) && EntriesOk(q) && TriesOk(q) && NoStranger(q)
  }

  lemma {:induction false} TriesOfUpdate(tries: seq<Try>, k: nat, t: Try, event: EventId)
    requires k < |tries| && t.event == tries[k].event
    ensures Tries(tries[k := t], event) == Tries(tries, event)
  {
    var rest := tries[..|tries| - 1];
    if k < |rest| {
      TriesOfUpdate(rest, k, t, event);
      assert tries[k := t][..|tries| - 1] == rest[k := t];
    } else {
      assert tries[k := t][..|tries| - 1] == rest;
    }
  }

  lemma TriesOfAppend(tries: seq<Try>, t: Try, event: EventId)
    ensures Tries(tries + [t], event) == Tries(tries, event) + if t.event == event then 1 else 0
  {
    assert (tries + [t])[..|tries|] == tries;
  }

  lemma CountsKept(q: Queue, step: Step)
    requires Inv(q) && Enabled(q, step)
    ensures AllAccounted(Apply(q, step)) && NoStranger(Apply(q, step))
  {
    var r := Apply(q, step);
    forall event
      ensures event in r.entries ==> Accounted(r.tries, event, r.entries[event])
      ensures event !in r.entries ==> Tries(r.tries, event) == 0
    {
      match step
      case Arrive(_) =>
      case Deliver(e) => TriesOfAppend(q.tries, r.tries[|q.tries|], event);
      case Handle(k, _) => TriesOfUpdate(q.tries, k, r.tries[k], event);
      case Settle(k) => TriesOfUpdate(q.tries, k, r.tries[k], event);
        assert TryOk(q, k);
      case Lose(k) => TriesOfUpdate(q.tries, k, r.tries[k], event);
        assert TryOk(q, k);
    }
  }

  lemma EntriesKept(q: Queue, step: Step)
    requires EntriesOk(q) && TriesOk(q) && Enabled(q, step)
    ensures EntriesOk(Apply(q, step))
  {
    var r := Apply(q, step);
    if step.Settle? || step.Lose? {
      assert TryOk(q, step.k);
    }
    forall event | event in r.entries ensures EntryOk(r, event, r.entries[event]) {
      assert event in q.entries ==> EntryOk(q, event, q.entries[event]);
    }
  }

  lemma TriesKept(q: Queue, step: Step)
    requires EntriesOk(q) && TriesOk(q) && Enabled(q, step)
    ensures TriesOk(Apply(q, step))
  {
    var r := Apply(q, step);
    forall k | 0 <= k < |r.tries| ensures TryOk(r, k) {
      if k < |q.tries| {
        assert TryOk(q, k) && EntryOk(q, q.tries[k].event, q.entries[q.tries[k].event]);
      }
      if step.Settle? || step.Lose? {
        assert TryOk(q, step.k);
      }
    }
  }

  /** Every step keeps the invariant. */
  lemma InvKept(q: Queue, step: Step)
    requires Inv(q) && Enabled(q, step)
    ensures Inv(Apply(q, step))
  {
    CountsKept(q, step);
    EntriesKept(q, step);
    TriesKept(q, step);
  }

  lemma {:induction false} RunKeepsInv(q: Queue, steps: seq<Step>)
    requires Inv(q) && IsRun(q, steps)
    ensures Inv(After(q, steps)) && After(q, steps).requeueFailed == q.requeueFailed
    decreases |steps|
  {
    if steps != [] {
      InvKept(q, steps[0]);
      RunKeepsInv(Apply(q, steps[0]), steps[1..]);
    }
  }

  // --- what every run promises -----------------------------------------------------------------------------

  lemma {:induction false} RunsAreTries(tries: seq<Try>, event: EventId)
    ensures Runs(tries, event) <= Tries(tries, event)
  {
    if tries != [] {
      RunsAreTries(tries[..|tries| - 1], event);
    }
  }

  /** An event's handler runs at most twice, or once where failures are not requeued, and once more for every
      connection lost while the event was out. */
  lemma HandlerRunsBounded(requeueFailed: bool, steps: seq<Step>, event: EventId)
    requires IsRun(Empty(requeueFailed), steps)
    ensures var q := After(Empty(requeueFailed), steps);
      Runs(q.tries, event) <=
        if event !in q.entries then 0 else q.entries[event].losses + if requeueFailed then 2 else 1
  {
    var q := After(Empty(requeueFailed), steps);
    RunKeepsInv(Empty(requeueFailed), steps);
    RunsAreTries(q.tries, event);
    if event in q.entries {
      assert Accounted(q.tries, event, q.entries[event]) && EntryOk(q, event, q.entries[event]);
    }
  }

  /** Without a lost connection, an event leaves the queue only when its handler survives, or when it has failed as
      often as it may: twice if failures are requeued, once if not. */
  lemma LeavesAfterSuccessOrEveryTry(requeueFailed: bool, steps: seq<Step>, event: EventId)
    requires IsRun(Empty(requeueFailed), steps)
    requires var q := After(Empty(requeueFailed), steps);
      event in q.entries && q.entries[event].place.Gone? && q.entries[event].losses == 0
    ensures var q := After(Empty(requeueFailed), steps);
      var last := q.entries[event].place.k;
      && last < |q.tries| && q.tries[last].event == event && q.tries[last].outcome.Some?
      && (forall j | 0 <= j < |q.tries| && q.tries[j].event == event && j != last ::
            q.tries[j].outcome.Some? && !q.tries[j].outcome.value.Survived?)
      && (q.tries[last].outcome.value.Survived? || Tries(q.tries, event) == if requeueFailed then 2 else 1)
  {
    var q := After(Empty(requeueFailed), steps);
    RunKeepsInv(Empty(requeueFailed), steps);
    assert Accounted(q.tries, event, q.entries[event]) && EntryOk(q, event, q.entries[event]);
    assert TryOk(q, q.entries[event].place.k);
    forall j | 0 <= j < |q.tries| && q.tries[j].event == event && j != q.entries[event].place.k
      ensures q.tries[j].outcome.Some? && !q.tries[j].outcome.value.Survived?
    {
      assert TryOk(q, j);
    }
  }

  /** Exactly when settling a try takes its event off the queue: after success, where failures are not requeued, and
      when it has been out before. */
  lemma LeavesIff(requeueFailed: bool, steps: seq<Step>, k: nat)
    requires IsRun(Empty(requeueFailed), steps) && Enabled(After(Empty(requeueFailed), steps), Settle(k))
    ensures var q := After(Empty(requeueFailed), steps);
      var event := q.tries[k].event;
      Apply(q, Settle(k)).entries[event].place.Gone? <==>
        q.tries[k].outcome == Some(Survived) || !requeueFailed || q.entries[event].losses > 0
        || q.entries[event].requeues > 0
  {
    var q := After(Empty(requeueFailed), steps);
    RunKeepsInv(Empty(requeueFailed), steps);
    assert TryOk(q, k) && EntryOk(q, q.tries[k].event, q.entries[q.tries[k].event]);
  }

  function LossStep(k: nat): Step
    requires k < 6
  {
    match k
    case 0 => Arrive(0)
    case 1 => Deliver(0)
    case 2 => Lose(0)
    case 3 => Deliver(0)
    case 4 => Handle(1, Raised)
    case _ => Settle(1)
  }

  const LOST := Try(0, false, None, None, false)

  function LossState(k: nat): Queue
    requires k <= 6
  {
    match k
    case 0 => Empty(true)
    case 1 => Queue(true, map[0 := Entry(Ready(false), 0, 0)], [])
    case 2 => Queue(true, map[0 := Entry(Out(0), 0, 0)], [Try(0, false, None, None, true)])
    case 3 => Queue(true, map[0 := Entry(Ready(true), 1, 0)], [LOST])
    case 4 => Queue(true, map[0 := Entry(Out(1), 1, 0)], [LOST, Try(0, true, None, None, true)])
    case 5 => Queue(true, map[0 := Entry(Out(1), 1, 0)], [LOST, Try(0, true, Some(Raised), None, true)])
    case _ => Queue(true, map[0 := Entry(Gone(1), 1, 0)], [LOST, Try(0, true, Some(Raised), Some(Acked), true)])
  }

  lemma LossStepReaches(k: nat)
    requires k < 6
    ensures Enabled(LossState(k), LossStep(k)) && Apply(LossState(k), LossStep(k)) == LossState(k + 1)
  {
  }

  function LossRun(from: nat): seq<Step>
    requires from <= 6
    decreases 6 - from
  {
    if from == 6 then [] else [LossStep(from)] + LossRun(from + 1)
  }

  lemma {:induction false} LossRunReaches(from: nat)
    requires from <= 6
    ensures IsRun(LossState(from), LossRun(from)) && After(LossState(from), LossRun(from)) == LossState(6)
    decreases 6 - from
  {
    if from < 6 {
      LossStepReaches(from);
      LossRunReaches(from + 1);
      assert LossRun(from)[1..] == LossRun(from + 1);
    }
  }

  /** A lost connection spends the second chance: the event below is dropped although its handler failed only once. */
  lemma LossSpendsTheSecondChance() returns (steps: seq<Step>)
    ensures IsRun(Empty(true), steps)
    ensures var q := After(Empty(true), steps);
      0 in q.entries && q.entries[0].place.Gone? && Runs(q.tries, 0) == 1
      && forall k | 0 <= k < |q.tries| :: q.tries[k].outcome != Some(Survived)
  {
    steps := LossRun(0);
    LossRunReaches(0);
    LossRunsOnce();
  }

  lemma LossRunsOnce()
    ensures LossState(0) == Empty(true) && Runs(LossState(6).tries, 0) == 1
  {
    var failed := Try(0, true, Some(Raised), Some(Acked), true);
    assert [LOST, failed][..1] == [LOST] && [LOST][..0] == [];
    assert Runs([LOST], 0) == 0;
  }
}
