/** Request sessions that read through an autocommit engine and open a transaction with the first statement that
    needs one, against a plain session that runs everything in one READ COMMITTED transaction. */
module Routing {
  import opened Wrappers

  // --- statements and the router ---------------------------------------------------------------------------

  datatype Column =
    | Labelled(element: Column)
    | FunctionCall(name: string)
    | TextColumn(sql: string)
    | OtherColumn

  datatype Clause =
    | NoClause
    | Dml
    | TextClause(sql: string)
    | Select(forUpdate: bool, columns: seq<Column>)
    | OtherClause

  type Db = map<string, string>

  /** Rows written and not committed, None for a deleted one. */
  type Overlay = map<string, Option<string>>

  datatype Effect = Effect(writes: Overlay, result: string)

  /** A statement as its object says it, as it is compiled, and as the database runs it on the rows it sees. */
  datatype Statement = Statement(clause: Clause, sql: string, run: Db -> Effect)

  /** `sqlNeeds` is the regular-expression verdict on compiled SQL, `lower` the lower-casing of names. */
  datatype Router = Router(functions: set<string>, sqlNeeds: string -> bool, lower: string -> string) {

    /** `_column_needs_transaction`. */
    predicate ColumnNeeds(column: Column) {
      var c := if column.Labelled? then column.element else column;
      match c
      case FunctionCall(name) => lower(name) in functions
      case TextColumn(sql) => sqlNeeds(sql)
      case _ => false
    }

    /** `needs_transaction`. */
    predicate Needs(clause: Clause) {
      match clause
      case NoClause => false
      case Dml => true
      case TextClause(sql) => sqlNeeds(sql)
      case Select(forUpdate, columns) => forUpdate || exists i | 0 <= i < |columns| :: ColumnNeeds(columns[i])
      case OtherClause => false
    }
  }

  // --- the session -----------------------------------------------------------------------------------------

  datatype Engine = Read | Write

  /** `routed` is what the session has done to the database by now. */
  class RoutingSession {
    const hasReadBind: bool
    const router: Router
    var writing: bool
    var flushing: bool
    ghost var routed: Routed

    ghost predicate Valid()
      reads this
    {
      routed.writing == writing && Inv(Bind(), routed)
    }

    function Bind(): Config {
      Config(hasReadBind, router)
    }

    constructor (hasReadBind: bool, router: Router, ghost committed: Db)
      ensures this.hasReadBind == hasReadBind && this.router == router && !flushing
      ensures Valid() && routed == Routed(false, committed, map[], [], [])
    {
      this.hasReadBind, this.router := hasReadBind, router;
      writing, flushing := false, false;
      routed := Routed(false, committed, map[], [], []);
    }

    /** `get_bind`. */
    method GetBind(clause: Clause, bind: Option<Engine>) returns (engine: Engine)
      requires Valid()
      modifies `writing, `routed
      ensures Valid() && routed == old(routed).(writing := writing)
      ensures engine == Bound(hasReadBind, router, old(writing), flushing, clause, bind)
      ensures writing == (old(writing) || Switches(hasReadBind, router, flushing, clause, bind))
    {
      if bind.None? && hasReadBind && !writing {
        var needs := router.Needs(clause);
        if !flushing && !needs {
          return Read;
        }
        writing := true;
        routed := routed.(writing := true);
      }
      engine := if bind.Some? then bind.value else Write;
    }

    /** `connection`: the engine behind it.  `autocommit` is what its execution options ask for, `clause` and `bind`
        are its bind arguments. */
    method Connection(autocommit: bool, clause: Clause, bind: Option<Engine>) returns (engine: Engine)
      requires Valid()
      modifies `writing, `routed
      ensures Valid() && routed == old(routed).(writing := writing)
      ensures writing == (old(writing) || !autocommit || Switches(hasReadBind, router, flushing, clause, bind))
      ensures engine == Bound(hasReadBind, router, old(writing) || !autocommit, flushing, clause, bind)
    {
      if !autocommit {
        writing := true;
        routed := routed.(writing := true);
      }
      engine := GetBind(clause, bind);
    }

    /** `begin_nested` is the model's Savepoint: no savepoint is ever open in a session that says it does not write. */
    method BeginNested()
      requires Valid()
      modifies `writing, `routed
      ensures Valid() && routed == RoutedStep(Bind(), old(routed), Savepoint).0
    {
      writing := true;
      routed := RoutedStep(Bind(), routed, Savepoint).0;
    }

    /** `_back_to_reads`, at the end of a transaction that ended like this.  It hands reads back after the outermost one
        only, and by then nothing uncommitted is left. */
    method TransactionEnded(isRoot: bool, ghost how: Step)
      requires Valid() && Possible(routed.savepoints, how)
      requires if isRoot then how.Commit? || how.Rollback? else how.ReleaseSavepoint? || how.RollbackSavepoint?
      modifies `writing, `routed
      ensures Valid() && routed == RoutedStep(Bind(), old(routed), how).0
    {
      routed := RoutedStep(Bind(), routed, how).0;
      if isRoot {
        writing := false;
      }
    }
  }

  predicate Switches(hasReadBind: bool, router: Router, flushing: bool, clause: Clause, bind: Option<Engine>) {
    bind.None? && hasReadBind && (flushing || router.Needs(clause))
  }

  function Bound(hasReadBind: bool, router: Router, writing: bool, flushing: bool,
                 clause: Clause, bind: Option<Engine>): Engine
  {
    if bind.Some? then bind.value
    else if hasReadBind && !writing && !Switches(hasReadBind, router, flushing, clause, bind) then Read
    else Write
  }

  // --- what a session does to the database -----------------------------------------------------------------

  function View(committed: Db, overlay: Overlay): Db {
    map k | k in committed.Keys + overlay.Keys && (k in overlay ==> overlay[k].Some?) ::
      if k in overlay then overlay[k].value else committed[k]
  }

  datatype Config = Config(hasReadBind: bool, router: Router)

  /** `onRead` lists the SQL the read engine has executed. */
  datatype Routed = Routed(
    writing: bool, committed: Db, overlay: Overlay, savepoints: seq<Overlay>, onRead: seq<string>)

  datatype Plain = Plain(committed: Db, overlay: Overlay, savepoints: seq<Overlay>)

  datatype Step =
    | Execute(statement: Statement, bind: Option<Engine>)
    | Flush(statement: Statement)
    | OnConnection(autocommit: bool, clause: Clause, bind: Option<Engine>, statement: Statement)
    | Savepoint
    | ReleaseSavepoint
    | RollbackSavepoint
    | Commit
    | Rollback
    | OthersCommit(writes: Overlay)

  datatype Outcome = Rows(result: string) | Misrouted | Done

  /** A statement on an engine.  The read engine commits at once, after the guard has let the SQL through. */
  function RunOn(c: Config, s: Routed, engine: Engine, statement: Statement): (Routed, Outcome) {
    match engine
    case Write =>
      var e := statement.run(View(s.committed, s.overlay));
      (s.(overlay := s.overlay + e.writes), Rows(e.result))
    case Read =>
      if c.router.sqlNeeds(statement.sql) then (s, Misrouted)
      else
        var e := statement.run(s.committed);
        (s.(committed := View(s.committed, e.writes), onRead := s.onRead + [statement.sql]), Rows(e.result))
  }

  function RunBound(c: Config, s: Routed, flushing: bool, clause: Clause, bind: Option<Engine>,
                    statement: Statement): (Routed, Outcome)
  {
    var engine := Bound(c.hasReadBind, c.router, s.writing, flushing, clause, bind);
    var switches := Switches(c.hasReadBind, c.router, flushing, clause, bind);
    RunOn(c, s.(writing := s.writing || switches), engine, statement)
  }

  function Ended(s: Routed): Routed {
    s.(overlay := map[], savepoints := [], writing := false)
  }

  predicate Possible(savepoints: seq<Overlay>, step: Step) {
    step.ReleaseSavepoint? || step.RollbackSavepoint? ==> savepoints != []
  }

  function RoutedStep(c: Config, s: Routed, step: Step): (Routed, Outcome)
    requires Possible(s.savepoints, step)
  {
    match step
    case Execute(statement, bind) => RunBound(c, s, false, statement.clause, bind, statement)
    case Flush(statement) => RunBound(c, s, true, statement.clause, None, statement)
    case OnConnection(autocommit, clause, bind, statement) =>
      RunBound(c, s.(writing := s.writing || !autocommit), false, clause, bind, statement)
    case Savepoint => (s.(writing := true, savepoints := s.savepoints + [s.overlay]), Done)
    case ReleaseSavepoint => (s.(savepoints := s.savepoints[..|s.savepoints| - 1]), Done)
    case RollbackSavepoint =>
      (s.(overlay := s.savepoints[|s.savepoints| - 1], savepoints := s.savepoints[..|s.savepoints| - 1]), Done)
    case Commit => (Ended(s.(committed := View(s.committed, s.overlay))), Done)
    case Rollback => (Ended(s), Done)
    case OthersCommit(writes) => (s.(committed := View(s.committed, writes)), Done)
  }

  /** A plain session: one transaction from commit to commit, every statement on its own READ COMMITTED snapshot. */
  function PlainRun(p: Plain, statement: Statement): (Plain, Outcome) {
    var e := statement.run(View(p.committed, p.overlay));
    (p.(overlay := p.overlay + e.writes), Rows(e.result))
  }

  function PlainStep(p: Plain, step: Step): (Plain, Outcome)
    requires Possible(p.savepoints, step)
  {
    match step
    case Execute(statement, _) => PlainRun(p, statement)
    case Flush(statement) => PlainRun(p, statement)
    case OnConnection(_, _, _, statement) => PlainRun(p, statement)
    case Savepoint => (p.(savepoints := p.savepoints + [p.overlay]), Done)
    case ReleaseSavepoint => (p.(savepoints := p.savepoints[..|p.savepoints| - 1]), Done)
    case RollbackSavepoint =>
      (p.(overlay := p.savepoints[|p.savepoints| - 1], savepoints := p.savepoints[..|p.savepoints| - 1]), Done)
    case Commit => (Plain(View(p.committed, p.overlay), map[], []), Done)
    case Rollback => (Plain(p.committed, map[], []), Done)
    case OthersCommit(writes) => (p.(committed := View(p.committed, writes)), Done)
  }

  function AsPlain(s: Routed): Plain {
    Plain(s.committed, s.overlay, s.savepoints)
  }

  // --- refinement ------------------------------------------------------------------------------------------

  function Statements(step: Step): seq<Statement> {
    match step
    case Execute(statement, _) => [statement]
    case Flush(statement) => [statement]
    case OnConnection(_, _, _, statement) => [statement]
    case _ => []
  }

  /** The guard recognizes every statement that writes. */
  ghost predicate GuardKnowsWrites(router: Router, step: Step) {
    forall i | 0 <= i < |Statements(step)| && !router.sqlNeeds(Statements(step)[i].sql) ::
      forall db :: Statements(step)[i].run(db).writes == map[]
  }

  /** A caller naming an engine itself names the write engine only for a statement the guard would let pass, unless
      the session writes already, and the read engine only if it does not. */
  predicate BindsWell(c: Config, writing: bool, step: Step) {
    (step.Execute? || step.OnConnection?) && step.bind.Some? && c.hasReadBind ==>
      var writes := writing || (step.OnConnection? && !step.autocommit);
      if step.bind.value.Write? then writes || !c.router.sqlNeeds(step.statement.sql) else !writes
  }

  /** "Not writing" means no uncommitted write and no savepoint, and the read engine has run nothing flagged. */
  predicate Inv(c: Config, s: Routed) {
    && (c.hasReadBind && !s.writing ==> s.overlay == map[] && s.savepoints == [])
    && (forall i | 0 <= i < |s.onRead| :: !c.router.sqlNeeds(s.onRead[i]))
  }

  lemma NothingOnTop(db: Db)
    ensures View(db, map[]) == db
  {
  }

  /** A session without a read engine has no read engine to name. */
  predicate EngineExists(c: Config, step: Step) {
    (step.Execute? || step.OnConnection?) && step.bind == Some(Read) ==> c.hasReadBind
  }

  ghost predicate Fair(c: Config, s: Routed, step: Step) {
    && Possible(s.savepoints, step) && EngineExists(c, step)
    && GuardKnowsWrites(c.router, step) && BindsWell(c, s.writing, step)
  }

  /** One step: unless it is refused as misrouted, the routed session answers and ends up like the plain one. */
  lemma StepRefines(c: Config, s: Routed, step: Step)
    requires Inv(c, s) && Fair(c, s, step)
    ensures var (t, outcome) := RoutedStep(c, s, step);
      && Inv(c, t)
      && (outcome.Misrouted? ==> AsPlain(t) == AsPlain(s))
      && (!outcome.Misrouted? ==> (AsPlain(t), outcome) == PlainStep(AsPlain(s), step))
  {
    NothingOnTop(s.committed);
    if Statements(step) != [] {
      var statement := Statements(step)[0];
      assert !c.router.sqlNeeds(statement.sql) ==> statement.run(s.committed).writes == map[];
    }
  }

  ghost predicate FairRun(c: Config, s: Routed, steps: seq<Step>)
    decreases |steps|
  {
    steps == [] || (Fair(c, s, steps[0]) && FairRun(c, RoutedStep(c, s, steps[0]).0, steps[1..]))
  }

  ghost function RoutedOutcomes(c: Config, s: Routed, steps: seq<Step>): seq<Outcome>
    requires FairRun(c, s, steps)
    decreases |steps|
  {
    if steps == [] then []
    else [RoutedStep(c, s, steps[0]).1] + RoutedOutcomes(c, RoutedStep(c, s, steps[0]).0, steps[1..])
  }

  ghost function RoutedEnd(c: Config, s: Routed, steps: seq<Step>): Routed
    requires FairRun(c, s, steps)
    decreases |steps|
  {
    if steps == [] then s else RoutedEnd(c, RoutedStep(c, s, steps[0]).0, steps[1..])
  }

  ghost predicate PossibleRun(p: Plain, steps: seq<Step>)
    decreases |steps|
  {
    steps == [] || (Possible(p.savepoints, steps[0]) && PossibleRun(PlainStep(p, steps[0]).0, steps[1..]))
  }

  ghost function PlainOutcomes(p: Plain, steps: seq<Step>): seq<Outcome>
    requires PossibleRun(p, steps)
    decreases |steps|
  {
    if steps == [] then []
    else [PlainStep(p, steps[0]).1] + PlainOutcomes(PlainStep(p, steps[0]).0, steps[1..])
  }

  ghost function PlainEnd(p: Plain, steps: seq<Step>): Plain
    requires PossibleRun(p, steps)
    decreases |steps|
  {
    if steps == [] then p else PlainEnd(PlainStep(p, steps[0]).0, steps[1..])
  }

  /** Whole runs, with others committing in between: without a misrouted statement the routed session gives the
      plain session's answers and leaves its database; it never says "not writing" over an uncommitted write or a
      savepoint, and the read engine never runs a statement the guard flags. */
  lemma {:induction false} RunRefines(c: Config, s: Routed, steps: seq<Step>)
    requires Inv(c, s) && FairRun(c, s, steps)
    requires forall i | 0 <= i < |RoutedOutcomes(c, s, steps)| :: !RoutedOutcomes(c, s, steps)[i].Misrouted?
    ensures Inv(c, RoutedEnd(c, s, steps))
    ensures PossibleRun(AsPlain(s), steps)
    ensures RoutedOutcomes(c, s, steps) == PlainOutcomes(AsPlain(s), steps)
    ensures AsPlain(RoutedEnd(c, s, steps)) == PlainEnd(AsPlain(s), steps)
    decreases |steps|
  {
    if steps != [] {
      var (t, outcome) := RoutedStep(c, s, steps[0]);
      StepRefines(c, s, steps[0]);
      var rest := RoutedOutcomes(c, t, steps[1..]);
      assert RoutedOutcomes(c, s, steps) == [outcome] + rest;
      assert RoutedOutcomes(c, s, steps)[0] == outcome;
      forall i | 0 <= i < |rest| ensures !rest[i].Misrouted? {
        assert RoutedOutcomes(c, s, steps)[i + 1] == rest[i];
      }
      RunRefines(c, t, steps[1..]);
    }
  }

  // --- naming the engine oneself ---------------------------------------------------------------------------

  /** An engine named by the caller bypasses the switch: with the write engine the session still says "not
      writing", and that is a lie exactly when the statement wrote something. */
  lemma NamedWriteEngineIff(c: Config, s: Routed, statement: Statement)
    requires Inv(c, s) && c.hasReadBind && !s.writing
    ensures var (t, _) := RoutedStep(c, s, Execute(statement, Some(Write)));
      !t.writing && (Inv(c, t) <==> statement.run(s.committed).writes == map[])
  {
    NothingOnTop(s.committed);
  }

  const INSERT := Statement(Dml, "insert into notes values (1)", (_: Db) => Effect(map["1" := Some("kept")], ""))
  const SELECT := Statement(Select(false, []), "select 1 from notes",
    (db: Db) => Effect(map[], if "1" in db then "kept" else ""))

  /** After such a write the session's next read misses it, where a plain session's does not. */
  lemma NamedWriteEngineHidesTheWrite(c: Config, s: Routed)
    requires Inv(c, s) && c.hasReadBind && !s.writing && "1" !in s.committed && !c.router.sqlNeeds(SELECT.sql)
    ensures var (t, _) := RoutedStep(c, s, Execute(INSERT, Some(Write)));
      var (p, _) := PlainStep(AsPlain(s), Execute(INSERT, Some(Write)));
      && RoutedStep(c, t, Execute(SELECT, None)).1 == Rows("")
      && PlainStep(p, Execute(SELECT, None)).1 == Rows("kept")
  {
    assert !c.router.Needs(SELECT.clause);
    var (p, _) := PlainStep(AsPlain(s), Execute(INSERT, Some(Write)));
    assert "1" in View(p.committed, p.overlay);
  }

  /** A statement that only reads, and that the guard lets pass. */
  ghost predicate OnlyReads(router: Router, statement: Statement) {
    !router.sqlNeeds(statement.sql) && forall db :: statement.run(db).writes == map[]
  }

  ghost predicate SameOnRead(c: Config, s: Routed, statement: Statement) {
    RoutedStep(c, s, Execute(statement, Some(Read))).1 == PlainStep(AsPlain(s), Execute(statement, Some(Read))).1
  }

  /** The read engine named by the caller answers every statement that only reads as a plain session would if and only
      if the session's uncommitted writes change nothing. */
  lemma NamedReadEngineIff(c: Config, s: Routed, sql: string)
    requires c.hasReadBind && !c.router.sqlNeeds(sql)
    ensures (forall statement | OnlyReads(c.router, statement) :: SameOnRead(c, s, statement))
      <==> View(s.committed, s.overlay) == s.committed
  {
    if View(s.committed, s.overlay) == s.committed {
      forall statement | OnlyReads(c.router, statement) ensures SameOnRead(c, s, statement) {
      }
    } else {
      var committed := s.committed;
      var telling := Statement(NoClause, sql,
        (db: Db) => Effect(map[], if db == committed then "committed" else "other"));
      assert telling.run(s.committed).result == "committed";
      assert telling.run(View(s.committed, s.overlay)).result == "other";
      assert OnlyReads(c.router, telling) && !SameOnRead(c, s, telling);
    }
  }

  // --- which statements open the write transaction ---------------------------------------------------------

  /** A column that calls a transactional function or is flagged text; one label around it makes no difference. */
  predicate FlaggedColumn(router: Router, column: Column) {
    || (column.FunctionCall? && router.lower(column.name) in router.functions)
    || (column.TextColumn? && router.sqlNeeds(column.sql))
    || (column.Labelled? && column.element.FunctionCall? && router.lower(column.element.name) in router.functions)
    || (column.Labelled? && column.element.TextColumn? && router.sqlNeeds(column.element.sql))
  }

  /** The shapes that open the write transaction: DML, a select that locks or has such a column, and flagged text. */
  ghost predicate OpensByShape(router: Router, clause: Clause) {
    || clause == Dml
    || (clause.TextClause? && router.sqlNeeds(clause.sql))
    || (clause.Select? && clause.forUpdate)
    || (clause.Select? && exists i :: 0 <= i < |clause.columns| && FlaggedColumn(router, clause.columns[i]))
  }

  /** The step brings a statement, names no engine, and is a flush or has a shape that opens the write transaction. */
  ghost predicate Opening(router: Router, step: Step) {
    || step.Flush?
    || (step.Execute? && step.bind.None? && OpensByShape(router, step.statement.clause))
    || (step.OnConnection? && step.bind.None? && (!step.autocommit || OpensByShape(router, step.clause)))
  }

  predicate NamesNoEngine(step: Step) {
    step.Flush? || ((step.Execute? || step.OnConnection?) && step.bind.None?)
  }

  /** A statement that opens the write transaction is never refused, leaves the session writing and answers as in a
      plain session, its writes uncommitted. */
  lemma OpeningStatementsWrite(c: Config, s: Routed, step: Step)
    requires Inv(c, s) && c.hasReadBind && Opening(c.router, step)
    ensures var (t, outcome) := RoutedStep(c, s, step);
      && t.writing && !outcome.Misrouted? && t.committed == s.committed && t.onRead == s.onRead
      && (AsPlain(t), outcome) == PlainStep(AsPlain(s), step)
  {
    var clause := if step.Execute? then step.statement.clause else if step.OnConnection? then step.clause else Dml;
    ShapeNeeds(c.router, clause);
  }

  lemma ShapeNeeds(router: Router, clause: Clause)
    ensures router.Needs(clause) <==> OpensByShape(router, clause)
  {
    if clause.Select? {
      forall i | 0 <= i < |clause.columns|
        ensures router.ColumnNeeds(clause.columns[i]) <==> FlaggedColumn(router, clause.columns[i])
      {
      }
    }
  }

  /** Any other statement of a session that does not write runs on the read engine, refused there if it is flagged, and
      leaves the session not writing. */
  lemma OtherStatementsRead(c: Config, s: Routed, step: Step)
    requires Inv(c, s) && c.hasReadBind && !s.writing && NamesNoEngine(step) && !Opening(c.router, step)
    ensures var (t, outcome) := RoutedStep(c, s, step);
      var statement := Statements(step)[0];
      && !t.writing && t.overlay == map[]
      && (outcome.Misrouted? <==> c.router.sqlNeeds(statement.sql))
      && (outcome.Misrouted? ==> t == s)
      && (!outcome.Misrouted? ==>
            outcome == Rows(statement.run(s.committed).result) && t.onRead == s.onRead + [statement.sql])
  {
    ShapeNeeds(c.router, if step.Execute? then step.statement.clause else step.clause);
  }

  /** Once it writes, a session goes on writing until the transaction ends, and then reads again. */
  lemma WritingLasts(c: Config, s: Routed, step: Step)
    requires Possible(s.savepoints, step)
    ensures RoutedStep(c, s, step).0.writing ==> !step.Commit? && !step.Rollback?
    ensures s.writing && !step.Commit? && !step.Rollback? ==> RoutedStep(c, s, step).0.writing
    ensures step == Savepoint ==> RoutedStep(c, s, step).0.writing
  {
  }

  /** What a session sees of a row: what it wrote itself, or else what is committed. */
  lemma OwnWritesShow(committed: Db, overlay: Overlay, k: string)
    ensures k in View(committed, overlay) <==> if k in overlay then overlay[k].Some? else k in committed
    ensures k in View(committed, overlay) ==>
      View(committed, overlay)[k] == if k in overlay then overlay[k].value else committed[k]
  {
  }
}
