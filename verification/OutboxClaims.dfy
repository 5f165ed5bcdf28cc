/** What lies between two claims of one row: over whole runs, the steps that can hand a row a relay still holds to a
    second one. */
module OutboxClaims {
  import opened OutboxModel
  import opened OutboxInvariant
  import opened OutboxTheorems
  import OutboxBudget

  // --- the states of a run ---------------------------------------------------------------------------------

  /** The state before step `k`. */
  function At(s: System, steps: seq<Step>, k: nat): System
    requires IsRun(s, steps) && k <= |steps|
    decreases |steps|
  {
    if k == 0 then s else At(Apply(s, steps[0]), steps[1..], k - 1)
  }

  lemma {:induction false} AtStep(s: System, steps: seq<Step>, k: nat)
    requires IsRun(s, steps) && k < |steps|
    ensures Enabled(At(s, steps, k), steps[k])
    ensures At(s, steps, k + 1) == Apply(At(s, steps, k), steps[k])
    decreases |steps|
  {
    if k > 0 {
      AtStep(Apply(s, steps[0]), steps[1..], k - 1);
    }
  }

  lemma {:induction false} AtEnd(s: System, steps: seq<Step>)
    requires IsRun(s, steps)
    ensures At(s, steps, |steps|) == After(s, steps)
    decreases |steps|
  {
    if steps != [] {
      AtEnd(Apply(s, steps[0]), steps[1..]);
    }
  }

  lemma {:induction false} AtIsAfter(s: System, steps: seq<Step>, k: nat)
    requires IsRun(s, steps) && k <= |steps|
    ensures IsRun(s, steps[..k]) && After(s, steps[..k]) == At(s, steps, k)
    decreases |steps|
  {
    if k > 0 {
      AtIsAfter(Apply(s, steps[0]), steps[1..], k - 1);
      assert steps[..k][1..] == steps[1..][..k - 1];
    }
  }

  lemma AtInv(now: real, steps: seq<Step>, k: nat) returns (t: System)
    requires IsRun(Init(now), steps) && k <= |steps|
    ensures t == At(Init(now), steps, k) && Inv(t)
  {
    AtIsAfter(Init(now), steps, k);
    RunKeepsInv(Init(now), steps[..k]);
    t := After(Init(now), steps[..k]);
  }

  ghost predicate HoldsFrom(s: System, steps: seq<Step>, relay: Relay, id: EventId, from: nat)
    requires IsRun(s, steps)
  {
    forall k | from <= k <= |steps| :: Holds(At(s, steps, k), relay, id)
  }

  predicate ClaimsRow(step: Step, relay: Relay, id: EventId) {
    step.Claim? && step.relay == relay && id in step.batch
  }

  // --- the claim a relay holds a row by --------------------------------------------------------------------

  lemma OnlyClaimsGive(s: System, step: Step, relay: Relay, id: EventId)
    requires Enabled(s, step) && !Holds(s, relay, id) && Holds(Apply(s, step), relay, id)
    ensures ClaimsRow(step, relay, id)
  {
  }

  /** A relay that holds a row at the end has held it since some claim. */
  lemma {:induction false} HeldSinceClaim(s: System, steps: seq<Step>, relay: Relay, id: EventId, n: nat)
    returns (k: nat)
    requires IsRun(s, steps) && n <= |steps| && !Holds(s, relay, id) && HoldsFrom(s, steps, relay, id, n)
    ensures k < n && ClaimsRow(steps[k], relay, id) && HoldsFrom(s, steps, relay, id, k + 1)
  {
    assert n > 0 by {
      assert n == 0 ==> Holds(At(s, steps, 0), relay, id);
    }
    AtStep(s, steps, n - 1);
    if Holds(At(s, steps, n - 1), relay, id) {
      k := HeldSinceClaim(s, steps, relay, id, n - 1);
    } else {
      k := n - 1;
      assert Holds(At(s, steps, n), relay, id);
      OnlyClaimsGive(At(s, steps, k), steps[k], relay, id);
    }
  }

  // --- from one claim to the next --------------------------------------------------------------------------

  /** The row is not pending, and if it is publishing, it is so since the claim that began at `began`. */
  predicate ClosedSince(table: Table, id: EventId, began: real) {
    id in table && table[id].status != Pending && (table[id].status == Publishing ==> table[id].updatedAt == began)
  }

  predicate IsPending(table: Table, id: EventId) {
    id in table && table[id].status == Pending
  }

  lemma ClaimCloses(s: System, step: Step, relay: Relay, id: EventId)
    requires Enabled(s, step) && ClaimsRow(step, relay, id)
    ensures ClosedSince(Apply(s, step).table, id, step.began)
  {
    var i :| 0 <= i < |step.batch| && step.batch[i] == id;
    assert id in SetOf(step.batch);
  }

  lemma ClaimNeedsPending(s: System, step: Step, relay: Relay, id: EventId)
    requires Enabled(s, step) && ClaimsRow(step, relay, id)
    ensures IsPending(s.table, id)
  {
    var i :| 0 <= i < |step.batch| && step.batch[i] == id;
  }

  /** A row stays closed, is opened, or is gone. */
  lemma ClosedOrOpened(s: System, step: Step, id: EventId, began: real)
    requires Enabled(s, step) && id !in s.staged && ClosedSince(s.table, id, began)
    ensures var t := Apply(s, step).table;
      ClosedSince(t, id, began) || IsPending(t, id) || id !in t
  {
    match step
    case Claim(_, batch, _, _, _) => assert id !in SetOf(batch);
    case _ =>
  }

  /** What opens a row that `holder` holds: a reclaim more than RECLAIM_AFTER_SECONDS after the claim, or another
      holder stamping it as failed. */
  predicate Opens(s: System, step: Step, holder: Relay, id: EventId, began: real) {
    || (step.Reclaim? && began + RECLAIM_AFTER_SECONDS < step.asOf)
    || (step.Stamp? && step.relay != holder && step.relay in s.relays
        && id in s.relays[step.relay].tickets && id in s.relays[step.relay].failed)
  }

  lemma OpenedBy(s: System, step: Step, holder: Relay, id: EventId, began: real)
    requires Inv(s) && Enabled(s, step) && ClosedSince(s.table, id, began)
    requires Holds(s, holder, id) && Holds(Apply(s, step), holder, id) && IsPending(Apply(s, step).table, id)
    ensures Opens(s, step, holder, id, began)
  {
    ReopenedWhileHeldIff(s, holder, id, step);
    if step.Stamp? {
      assert BatchShape(s.relays[step.relay]);
    }
  }

  lemma OpenedAt(now: real, steps: seq<Step>, k: nat, holder: Relay, id: EventId, began: real)
    requires IsRun(Init(now), steps) && k < |steps| && ClosedSince(At(Init(now), steps, k).table, id, began)
    requires Holds(At(Init(now), steps, k), holder, id) && Holds(At(Init(now), steps, k + 1), holder, id)
    requires IsPending(At(Init(now), steps, k + 1).table, id)
    ensures Opens(At(Init(now), steps, k), steps[k], holder, id, began)
  {
    AtStep(Init(now), steps, k);
    var t := AtInv(now, steps, k);
    OpenedBy(t, steps[k], holder, id, began);
  }

  lemma CommittedAndHere(now: real, steps: seq<Step>, k: nat, holder: Relay, id: EventId)
    requires IsRun(Init(now), steps) && k <= |steps| && Holds(At(Init(now), steps, k), holder, id)
    ensures id in At(Init(now), steps, k).history.committed && id !in At(Init(now), steps, k).staged
  {
    var t := AtInv(now, steps, k);
    assert id in t.history.claimed;
    assert PastGrace(t, id);
  }

  predicate Gone(s: System, id: EventId) {
    id in s.history.committed && id !in s.table
  }

  lemma GoneStep(now: real, steps: seq<Step>, k: nat, id: EventId)
    requires IsRun(Init(now), steps) && k < |steps| && Gone(At(Init(now), steps, k), id)
    ensures Gone(At(Init(now), steps, k + 1), id)
  {
    AtStep(Init(now), steps, k);
    var t := AtInv(now, steps, k);
    OutboxBudget.StepUses(t, steps[k], id);
  }

  lemma {:induction false} GoneStaysGone(now: real, steps: seq<Step>, id: EventId, from: nat, until: nat)
    requires IsRun(Init(now), steps) && from <= until <= |steps| && Gone(At(Init(now), steps, from), id)
    ensures Gone(At(Init(now), steps, until), id)
    decreases until
  {
    if from < until {
      GoneStaysGone(now, steps, id, from, until - 1);
      GoneStep(now, steps, until - 1, id);
    }
  }

  /** Step `k` finds the row in the table, not pending, and leaves it pending. */
  ghost predicate Reopened(now: real, steps: seq<Step>, k: nat, id: EventId)
    requires IsRun(Init(now), steps) && k < |steps|
  {
    var table := At(Init(now), steps, k).table;
    id in table && table[id].status != Pending && IsPending(At(Init(now), steps, k + 1).table, id)
  }

  /** Between a point where a held row is closed and one where it is pending, something opened it. */
  lemma {:induction false} SomethingOpensIt(now: real, steps: seq<Step>, holder: Relay, id: EventId, began: real,
                                            from: nat, until: nat)
    returns (k: nat)
    requires IsRun(Init(now), steps) && from <= until <= |steps| && HoldsFrom(Init(now), steps, holder, id, from)
    requires ClosedSince(At(Init(now), steps, from).table, id, began)
    requires IsPending(At(Init(now), steps, until).table, id)
    ensures from <= k < until && Opens(At(Init(now), steps, k), steps[k], holder, id, began)
    ensures Reopened(now, steps, k, id)
    decreases |steps| - from
  {
    var here, next := At(Init(now), steps, from), At(Init(now), steps, from + 1);
    assert Holds(here, holder, id) && Holds(next, holder, id);
    CommittedAndHere(now, steps, from, holder, id);
    CommittedAndHere(now, steps, from + 1, holder, id);
    AtStep(Init(now), steps, from);
    ClosedOrOpened(here, steps[from], id, began);
    if ClosedSince(next.table, id, began) {
      k := SomethingOpensIt(now, steps, holder, id, began, from + 1, until);
    } else if IsPending(next.table, id) {
      k := from;
      OpenedAt(now, steps, from, holder, id, began);
    } else {
      GoneStaysGone(now, steps, id, from + 1, until);
    }
  }

  /** Of two claims of one row, the first relay holding on to it, there lies a step that opened the row: a reclaim more
      than RECLAIM_AFTER_SECONDS after the first claim, or the failing stamp of another relay that held it then. */
  lemma BetweenTwoClaims(now: real, steps: seq<Step>, i: nat, j: nat, first: Relay, second: Relay, id: EventId)
    returns (k: nat)
    requires IsRun(Init(now), steps) && i < j < |steps|
    requires ClaimsRow(steps[i], first, id) && HoldsFrom(Init(now), steps, first, id, i + 1)
    requires ClaimsRow(steps[j], second, id)
    ensures i < k < j && Opens(At(Init(now), steps, k), steps[k], first, id, steps[i].began)
    ensures Reopened(now, steps, k, id)
  {
    AtStep(Init(now), steps, i);
    ClaimCloses(At(Init(now), steps, i), steps[i], first, id);
    AtStep(Init(now), steps, j);
    ClaimNeedsPending(At(Init(now), steps, j), steps[j], second, id);
    k := SomethingOpensIt(now, steps, first, id, steps[i].began, i + 1, j);
  }

  /** Two relays that hold one row at the end of a run claimed it one after the other, held it ever since, and between
      their claims a late reclaim, or the failing stamp of a relay that held the row then too, opened it. */
  lemma TwoHoldersMeanAnOpening(now: real, steps: seq<Step>, q: Relay, r: Relay, id: EventId)
    returns (first: Relay, second: Relay, i: nat, k: nat, j: nat)
    requires IsRun(Init(now), steps) && q != r
    requires Holds(After(Init(now), steps), q, id) && Holds(After(Init(now), steps), r, id)
    ensures {first, second} == {q, r} && i < k < j < |steps|
    ensures ClaimsRow(steps[i], first, id) && HoldsFrom(Init(now), steps, first, id, i + 1)
    ensures ClaimsRow(steps[j], second, id) && HoldsFrom(Init(now), steps, second, id, j + 1)
    ensures Opens(At(Init(now), steps, k), steps[k], first, id, steps[i].began)
    ensures Reopened(now, steps, k, id)
  {
    AtEnd(Init(now), steps);
    var x := HeldSinceClaim(Init(now), steps, q, id, |steps|);
    var y := HeldSinceClaim(Init(now), steps, r, id, |steps|);
    if x < y {
      first, i, second, j := q, x, r, y;
    } else {
      first, i, second, j := r, y, q, x;
    }
    k := BetweenTwoClaims(now, steps, i, j, first, second, id);
  }
}
