/** The relay runs out of work: every claim spends attempts nothing gives back. */
module OutboxBudget {
  import opened OutboxModel
  import opened OutboxInvariant

  // --- sums over maps --------------------------------------------------------------------------------------

  ghost function Sum(m: map<EventId, nat>): nat
    decreases m.Keys
  {
    if m == map[] then 0
    else
      var id :| id in m;
      m[id] + Sum(m - {id})
  }

  lemma {:induction false} SumPick(m: map<EventId, nat>, id: EventId)
    requires id in m
    ensures Sum(m) == m[id] + Sum(m - {id})
    decreases m.Keys
  {
    var first :| first in m && Sum(m) == m[first] + Sum(m - {first});
    if first != id {
      SumPick(m - {first}, id);
      SumPick(m - {id}, first);
      assert (m - {first}) - {id} == (m - {id}) - {first};
    }
  }

  lemma {:induction false} SumOfUnion(m: map<EventId, nat>, n: map<EventId, nat>)
    requires m.Keys !! n.Keys
    ensures Sum(m + n) == Sum(m) + Sum(n)
    decreases n.Keys
  {
    if n == map[] {
      assert m + n == m;
    } else {
      var id :| id in n;
      SumPick(n, id);
      SumPick(m + n, id);
      SumOfUnion(m, n - {id});
      assert (m + n) - {id} == m + (n - {id});
    }
  }

  /** If every id of `spent` lost exactly one and no other id gained, the sum fell by at least that many. */
  lemma {:induction false} SumSpent(m: map<EventId, nat>, n: map<EventId, nat>, spent: set<EventId>)
    requires n.Keys <= m.Keys && spent <= n.Keys
    requires forall id | id in n :: n[id] + (if id in spent then 1 else 0) <= m[id]
    ensures Sum(n) + |spent| <= Sum(m)
    decreases m.Keys
  {
    if m != map[] {
      var id :| id in m;
      SumPick(m, id);
      if id in n {
        SumPick(n, id);
        SumSpent(m - {id}, n - {id}, spent - {id});
      } else {
        SumSpent(m - {id}, n, spent);
      }
    }
  }

  lemma {:induction false} SumOfUnspent(m: map<EventId, nat>)
    requires forall id | id in m :: m[id] == RELAY_MAX_ATTEMPTS
    ensures Sum(m) == RELAY_MAX_ATTEMPTS * |m.Keys|
    decreases m.Keys
  {
    if m != map[] {
      var id :| id in m;
      SumPick(m, id);
      SumOfUnspent(m - {id});
      assert m.Keys == (m - {id}).Keys + {id};
    }
  }

  // --- attempts left ---------------------------------------------------------------------------------------

  function Left(row: Row): nat {
    if row.attempts < RELAY_MAX_ATTEMPTS then RELAY_MAX_ATTEMPTS - row.attempts else 0
  }

  function LeftOf(table: Table): map<EventId, nat> {
    map id | id in table :: Left(table[id])
  }

  /** The claims the rows of a table can still go through. */
  ghost function Budget(table: Table): nat {
    Sum(LeftOf(table))
  }

  function Claims(step: Step): nat {
    if step.Claim? then |step.batch| else 0
  }

  lemma {:induction false} SetOfDistinct(ids: seq<EventId>)
    requires Distinct(ids)
    ensures |SetOf(ids)| == |ids|
  {
    if ids != [] {
      var rest := ids[..|ids| - 1];
      SetOfDistinct(rest);
      assert SetOf(ids) == SetOf(rest) + {ids[|ids| - 1]};
      assert forall i | 0 <= i < |rest| :: rest[i] == ids[i];
    }
  }

  lemma LeftOfUnion(table: Table, born: Table)
    requires table.Keys !! born.Keys
    ensures LeftOf(table + born) == LeftOf(table) + LeftOf(born)
  {
  }

  lemma BudgetOfBorn(born: Table)
    requires forall id | id in born :: born[id].attempts == 0
    ensures Budget(born) == RELAY_MAX_ATTEMPTS * |born.Keys|
  {
    var left := LeftOf(born);
    assert left.Keys == born.Keys;
    SumOfUnspent(left);
  }

  lemma BudgetOfUnion(table: Table, born: Table)
    requires table.Keys !! born.Keys
    requires forall id | id in born :: born[id].attempts == 0
    ensures Budget(table + born) == Budget(table) + RELAY_MAX_ATTEMPTS * |born.Keys|
  {
    LeftOfUnion(table, born);
    BudgetOfBorn(born);
    SumOfUnion(LeftOf(table), LeftOf(born));
  }

  lemma CommitBudget(s: System, session: Session, createdAt: real, loopRunning: bool)
    requires s.table.Keys <= s.history.committed.Keys && s.staged.Keys !! s.history.committed.Keys
    ensures var t := AfterCommit(s, session, createdAt, loopRunning);
      && Budget(t.table) == Budget(s.table) + RELAY_MAX_ATTEMPTS * (|t.history.committed| - |s.history.committed|)
      && |t.history.committed| >= |s.history.committed|
  {
    var mine := StagedBy(s.staged, {session});
    var born: Table := map id | id in mine :: NewRow(s.staged[id].event, createdAt);
    BudgetOfUnion(s.table, born);
    CommittedGrow(s, session, createdAt, loopRunning);
    assert born.Keys == mine;
  }

  lemma CommittedGrow(s: System, session: Session, createdAt: real, loopRunning: bool)
    requires s.staged.Keys !! s.history.committed.Keys
    ensures |AfterCommit(s, session, createdAt, loopRunning).history.committed|
            == |s.history.committed| + |StagedBy(s.staged, {session})|
  {
    var mine := StagedBy(s.staged, {session});
    var t := AfterCommit(s, session, createdAt, loopRunning);
    assert t.history.committed.Keys == s.history.committed.Keys + mine;
    assert |t.history.committed.Keys| == |s.history.committed.Keys| + |mine|;
  }

  /** The rows a step spends an attempt of. */
  function Spent(step: Step): set<EventId> {
    if step.Claim? then SetOf(step.batch) else {}
  }

  lemma NoAttemptsBack(s: System, step: Step)
    requires Enabled(s, step) && !step.Commit?
    ensures var t := Apply(s, step).table;
      && t.Keys <= s.table.Keys && Spent(step) <= t.Keys
      && forall id | id in t :: Left(t[id]) + (if id in Spent(step) then 1 else 0) <= Left(s.table[id])
  {
    match step
    case Claim(relay, batch, _, _, began) =>
      forall id | id in SetOf(batch) ensures id in s.table && s.table[id].attempts < RELAY_MAX_ATTEMPTS {}
    case _ =>
  }

  /** No step but a commit adds to the budget, and a claim takes at least one attempt for every row it claims. */
  lemma StepBudget(s: System, step: Step)
    requires Enabled(s, step) && !step.Commit?
    ensures Budget(Apply(s, step).table) + Claims(step) <= Budget(s.table)
  {
    NoAttemptsBack(s, step);
    if step.Claim? {
      SetOfDistinct(step.batch);
    }
    SumSpent(LeftOf(s.table), LeftOf(Apply(s, step).table), Spent(step));
  }

  lemma OnlyCommitsCommit(s: System, step: Step)
    requires Enabled(s, step) && !step.Commit?
    ensures Apply(s, step).history.committed == s.history.committed
  {
  }

  function ClaimsOf(steps: seq<Step>): nat {
    if steps == [] then 0 else Claims(steps[0]) + ClaimsOf(steps[1..])
  }

  /** Over any run, failing and crashing as it may, every claimed row costs one unit of the budget, and only newly
      committed events bring any: RELAY_MAX_ATTEMPTS each.  So without new events the relays run dry. */
  lemma {:induction false} RelaysRunDry(s: System, steps: seq<Step>)
    requires Inv(s) && IsRun(s, steps)
    ensures var t := After(s, steps);
      && |s.history.committed| <= |t.history.committed|
      && ClaimsOf(steps) + Budget(t.table)
         <= Budget(s.table) + RELAY_MAX_ATTEMPTS * (|t.history.committed| - |s.history.committed|)
    decreases |steps|
  {
    if steps != [] {
      var step := steps[0];
      match step {
        case Commit(session, createdAt, loopRunning) => CommitBudget(s, session, createdAt, loopRunning);
        case _ => StepBudget(s, step); OnlyCommitsCommit(s, step);
      }
      InvKept(s, step);
      RelaysRunDry(Apply(s, step), steps[1..]);
    }
  }

  // --- what attempts count ---------------------------------------------------------------------------------

  /** A claim of the row or a mark of it. */
  function Use(step: Step, id: EventId): nat {
    match step
    case Claim(_, batch, _, _, _) => if id in SetOf(batch) then 1 else 0
    case FlushMarks(ids, _) => if id in ids then 1 else 0
    case _ => 0
  }

  function Uses(steps: seq<Step>, id: EventId): nat {
    if steps == [] then 0 else Use(steps[0], id) + Uses(steps[1..], id)
  }

  function AttemptsOf(table: Table, id: EventId): nat {
    if id in table then table[id].attempts else 0
  }

  lemma StepUses(s: System, step: Step, id: EventId)
    requires Births(s) && Enabled(s, step)
    ensures id in Apply(s, step).table && id in s.table ==>
      AttemptsOf(Apply(s, step).table, id) == AttemptsOf(s.table, id) + Use(step, id)
    ensures id !in s.history.committed ==>
      Use(step, id) == 0 && AttemptsOf(Apply(s, step).table, id) == 0
      && (id in Apply(s, step).history.committed ==> id in Apply(s, step).table)
    ensures id in s.history.committed && id !in s.table ==>
      id in Apply(s, step).history.committed && id !in Apply(s, step).table
  {
    match step
    case Claim(_, batch, _, _, _) => assert forall i | 0 <= i < |batch| :: batch[i] in s.table;
    case _ =>
  }

  lemma {:induction false} GoneStaysGone(s: System, steps: seq<Step>, id: EventId)
    requires Inv(s) && IsRun(s, steps) && id in s.history.committed && id !in s.table
    ensures id !in After(s, steps).table
    decreases |steps|
  {
    if steps != [] {
      StepUses(s, steps[0], id);
      InvKept(s, steps[0]);
      GoneStaysGone(Apply(s, steps[0]), steps[1..], id);
    }
  }

  /** A row's attempts count its claims and its marks, each once, over any run: nothing else spends an attempt, and
      no failure, reclaim or crash gives one back. */
  lemma {:induction false} AttemptsAreUses(s: System, steps: seq<Step>, id: EventId)
    requires Inv(s) && IsRun(s, steps) && id in After(s, steps).table
    ensures AttemptsOf(After(s, steps).table, id) == AttemptsOf(s.table, id) + Uses(steps, id)
    decreases |steps|
  {
    if steps != [] {
      var t := Apply(s, steps[0]);
      StepUses(s, steps[0], id);
      InvKept(s, steps[0]);
      AttemptsAreUses(t, steps[1..], id);
      if id in s.history.committed && (id !in s.table || id !in t.table) {
        StillCommitted(s, steps[0], id);
        GoneStaysGone(t, steps[1..], id);
      }
    }
  }

  lemma StillCommitted(s: System, step: Step, id: EventId)
    requires Enabled(s, step) && id in s.history.committed
    ensures id in Apply(s, step).history.committed
  {
  }
}
