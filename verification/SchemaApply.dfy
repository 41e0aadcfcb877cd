/** Plans and their application (src/schema/plan.rs, src/schema/apply.rs, src/schema/history.rs):
    a live database whose statements change it in place, inside one transaction. */
module SchemaApply {
  import opened Prelude
  import opened SchemaTypes
  import opened CanonicalText
  import opened Fingerprint
  import opened SchemaPlan
  import opened SchemaDiff
  import opened SchemaIntrospect
  import opened SchemaMachine
  import opened SchemaPlanner

  datatype ApplyMode = SafeOnly | AllowDestructive

  datatype Plan = Plan(
    source: SchemaDef, target: SchemaDef,
    sourceFingerprint: nat, targetFingerprint: nat,
    ops: seq<PlanOp>, blockers: seq<PlanBlocker>)

  /** `Statement` is a failing statement; `Cleanup` is `PRAGMA optimize` failing after commit. */
  datatype ApplyError =
    | InvalidSchema(error: SchemaError)
    | SchemaDrift
    | OpsChanged
    | Blocked(blockers: seq<PlanBlocker>)
    | Destructive
    | Statement
    | Cleanup

  /** Tables, and the history rows' target texts in insertion order. */
  datatype DbState = DbState(tables: Tables, history: seq<string>)

  /** `load_latest_target_schema`. */
  function LatestTarget(history: seq<string>): Result<Option<SchemaDef>, SchemaError> {
    if history == [] then Ok(None)
    else
      match FromCanonical(history[|history| - 1])
      case Err(e) => Err(e)
      case Ok(s) => Ok(Some(s))
  }

  /** `managed_scope`: the tables of the target and of the last applied target. */
  function ManagedScope(history: seq<string>, target: SchemaDef): Result<seq<string>, SchemaError> {
    match LatestTarget(history)
    case Err(e) => Err(e)
    case Ok(previous) => Ok(NameSet(TableNames(target) + (if previous.Some? then TableNames(previous.value) else [])))
  }

  /** `Plan::build`. */
  function BuildPlan(s: DbState, target: SchemaDef, obstacles: string -> Obstacles): Result<Plan, SchemaError> {
    match ManagedScope(s.history, target)
    case Err(e) => Err(e)
    case Ok(scope) =>
      match Diff(target, Introspect(s.tables, scope, obstacles))
      case Err(e) => Err(e)
      case Ok(d) => Ok(Plan(d.source, target, FingerprintOf(d.source), FingerprintOf(target), d.ops, d.blockers))
  }

  /** `plan_scope`: the tables of the plan's source and target. */
  function PlanScope(plan: Plan): seq<string> {
    NameSet(TableNames(plan.source) + TableNames(plan.target))
  }

  predicate AnyDestructive(ops: seq<PlanOp>) {
    exists i :: 0 <= i < |ops| && ops[i].IsDestructive()
  }

  /** The checks of `apply`, before its transaction starts. */
  function Accepts(plan: Plan, mode: ApplyMode, current: DiffResult): Option<ApplyError> {
    if FingerprintOf(current.source) != plan.sourceFingerprint then Some(SchemaDrift)
    else if current.ops != plan.ops then Some(OpsChanged)
    else if current.blockers != [] then Some(Blocked(current.blockers))
    else if mode == SafeOnly && AnyDestructive(current.ops) then Some(Destructive)
    else None
  }

  /** Why `apply` refuses the plan against the live database, if it does. */
  function Refusal(s: DbState, plan: Plan, mode: ApplyMode, obstacles: string -> Obstacles): Option<ApplyError> {
    match Diff(plan.target, Introspect(s.tables, PlanScope(plan), obstacles))
    case Err(e) => Some(InvalidSchema(e))
    case Ok(current) => Accepts(plan, mode, current)
  }

  /** The state a completed `apply` leaves, if the plan is accepted and its operations run. */
  function Outcome(engine: Engine, before: DbState, plan: Plan, mode: ApplyMode,
                   obstacles: string -> Obstacles): Option<DbState>
  {
    if Refusal(before, plan, mode, obstacles).Some? then None
    else
      match RunOps(engine, before.tables, Introspect(before.tables, PlanScope(plan), obstacles), plan.ops)
      case Err(_) => None
      case Ok(tables) => Some(DbState(tables, before.history + [Canonical(plan.target)]))
  }

  /** `apply` has completed. */
  predicate Applied(engine: Engine, before: DbState, plan: Plan, mode: ApplyMode, obstacles: string -> Obstacles,
                    after: DbState)
  {
    Outcome(engine, before, plan, mode, obstacles) == Some(after)
  }

  /** The single writer connection with exclusive access.  On an unreliable connection any
      statement may also fail for a reason of its own (`if *`). */
  class Database {
    const engine: Engine
    const reliable: bool
    var tables: Tables
    var history: seq<string>
    /** While a transaction is open, the state to which it would be rolled back. */
    var saved: Option<DbState>

    constructor (engine: Engine, reliable: bool)
      ensures this.engine == engine && this.reliable == reliable
      ensures tables == map[] && history == [] && saved == None
    {
      this.engine, this.reliable := engine, reliable;
      tables, history, saved := map[], [], None;
    }

    /** What the connection sees. */
    function State(): DbState
      reads this
    {
      DbState(tables, history)
    }

    /** What is committed. */
    function Durable(): DbState
      reads this
    {
      if saved.Some? then saved.value else State()
    }

    /** A failure with a reason of its own. */
    method Fails() returns (failed: bool)
      ensures reliable ==> !failed
    {
      failed := false;
      if !reliable {
        if * {
          failed := true;
        }
      }
    }

    /** One SQL statement whose effect on the tables is `effect`. */
    method Execute(effect: Result<Tables, SqlError>) returns (ok: bool)
      modifies this`tables
      ensures ok ==> effect == Ok(tables)
      ensures reliable ==> ok == effect.Ok?
      ensures !ok ==> tables == old(tables)
    {
      var failed := Fails();
      if failed {
        return false;
      }
      match effect {
        case Ok(next) =>
          tables := next;
          return true;
        case Err(_) =>
          return false;
      }
    }

    method CreateIndexes(table: string, indexes: seq<IndexDef>) returns (ok: bool)
      modifies this`tables
      ensures ok ==> RunCreateIndexes(old(tables), table, indexes) == Ok(tables)
      ensures reliable ==> ok == RunCreateIndexes(old(tables), table, indexes).Ok?
    {
      for i := 0 to |indexes|
        invariant RunCreateIndexes(old(tables), table, indexes) == RunCreateIndexes(tables, table, indexes[i..])
      {
        assert indexes[i..][1..] == indexes[i + 1..];
        ok := Execute(RunCreateIndex(tables, table, indexes[i]));
        if !ok {
          return;
        }
      }
      return true;
    }

    method CreateTable(def: TableDef) returns (ok: bool)
      modifies this`tables
      ensures ok ==> RunOp(engine, old(tables), [], PlanOp.CreateTable(def)) == Ok(tables)
      ensures reliable ==> ok == RunOp(engine, old(tables), [], PlanOp.CreateTable(def)).Ok?
    {
      ok := Execute(RunCreateTable(tables, def.name, def));
      if ok {
        ok := CreateIndexes(def.name, def.indexes);
      }
    }

    /** `rebuild_table`: seven kinds of statements, in this order. */
    method RebuildTable(table: string, from: TableDef, to: TableDef, replay: seq<IndexDef>) returns (ok: bool)
      modifies this`tables
      ensures ok ==> RunRebuild(engine, old(tables), table, from, to, replay) == Ok(tables)
      ensures reliable ==> ok == RunRebuild(engine, old(tables), table, from, to, replay).Ok?
    {
      var temp := TempName(table);
      ok := Execute(RunCreateTable(tables, temp, to));
      if !ok { return; }
      var retained := RetainColumns(from, to);
      ok := Execute(RunCopy(engine, tables, table, temp, retained));
      if !ok { return; }
      ok := Execute(RunDropTable(tables, table));
      if !ok { return; }
      ok := Execute(RunRename(tables, temp, table));
      if !ok { return; }
      ok := CreateIndexes(table, to.indexes);
      if !ok { return; }
      ok := CreateIndexes(table, replay);
    }

    method Perform(actual: seq<ActualTable>, op: PlanOp) returns (ok: bool)
      modifies this`tables
      ensures ok ==> RunOp(engine, old(tables), actual, op) == Ok(tables)
      ensures reliable ==> ok == RunOp(engine, old(tables), actual, op).Ok?
    {
      match op {
        case CreateTable(def) =>
          ok := CreateTable(def);
        case AddColumn(table, column) =>
          ok := Execute(RunAddColumn(engine, tables, table, column));
        case CreateIndex(table, index) =>
          ok := Execute(RunCreateIndex(tables, table, index));
        case DropIndex(_, index) =>
          ok := Execute(RunDropIndex(tables, index.name));
        case RebuildTable(table, from, to, _) =>
          var found := FindActual(actual, table);
          if found.None? {
            return false;
          }
          ok := RebuildTable(table, from, to, found.value.replay);
        case DropTable(def) =>
          ok := Execute(RunDropTable(tables, def.name));
      }
    }

    /** The body of `apply`'s transaction. */
    method PerformAll(plan: Plan, actual: seq<ActualTable>) returns (ok: bool)
      modifies this`tables, this`history
      ensures ok ==> RunOps(engine, old(tables), actual, plan.ops) == Ok(tables)
      ensures reliable ==> ok == RunOps(engine, old(tables), actual, plan.ops).Ok?
      ensures ok ==> history == old(history) + [Canonical(plan.target)]
    {
      for i := 0 to |plan.ops|
        invariant RunOps(engine, old(tables), actual, plan.ops) == RunOps(engine, tables, actual, plan.ops[i..])
        invariant history == old(history)
      {
        assert plan.ops[i..][1..] == plan.ops[i + 1..];
        ok := Perform(actual, plan.ops[i]);
        if !ok {
          return;
        }
      }
      var failed := Fails();
      if failed {
        return false; // the history table, integrity_check or the history insert
      }
      var text := CanonicalString(plan.target);
      history := history + [text];
      return true;
    }

    /** `ROLLBACK`; its own failure is ignored and leaves the transaction open. */
    method Rollback()
      requires saved.Some?
      modifies this
      ensures Durable() == old(Durable())
      ensures saved.None? || (State() == old(State()) && saved == old(saved))
      ensures reliable ==> saved.None?
    {
      var failed := Fails();
      if !failed {
        tables, history, saved := saved.value.tables, saved.value.history, None;
      }
    }

    /** `immediate_transaction` around the operations: run them and commit, or roll back. */
    method Transact(plan: Plan, actual: seq<ActualTable>) returns (ok: bool)
      modifies this
      ensures ok ==> old(saved).None? && saved.None?
      ensures ok ==> RunOps(engine, old(tables), actual, plan.ops) == Ok(tables)
      ensures ok ==> history == old(history) + [Canonical(plan.target)]
      ensures !ok ==> Durable() == old(Durable())
      ensures reliable && old(saved).None? ==> saved.None? && ok == RunOps(engine, old(tables), actual, plan.ops).Ok?
    {
      var unbegun := Fails();
      if unbegun || saved.Some? {
        return false;
      }
      saved := Some(State());
      ok := PerformAll(plan, actual);
      if ok {
        var uncommitted := Fails();
        ok := !uncommitted;
      }
      if ok {
        saved := None;
      } else {
        Rollback();
      }
    }

    /** `apply`: recheck the plan against the live schema, then run it in one transaction. */
    method Apply(plan: Plan, mode: ApplyMode, obstacles: string -> Obstacles) returns (r: Result<(), ApplyError>)
      modifies this
      ensures Refusal(old(State()), plan, mode, obstacles).Some? ==>
                r == Err(Refusal(old(State()), plan, mode, obstacles).value) || (!reliable && r == Err(Statement))
      ensures Refusal(old(State()), plan, mode, obstacles).None? ==> r.Ok? || r.error.Statement? || r.error.Cleanup?
      ensures r.Ok? || r.error.Cleanup? ==> saved.None? && Applied(engine, old(State()), plan, mode, obstacles, State())
      ensures r.Err? && !r.error.Cleanup? ==> Durable() == old(Durable())
      ensures reliable && old(saved).None? ==>
                saved.None? && r.Ok? == Outcome(engine, old(State()), plan, mode, obstacles).Some?
    {
      var unread := Fails();
      if unread {
        return Err(Statement);
      }
      var actual := Introspect(tables, PlanScope(plan), obstacles);
      var current := ComputeDiff(plan.target, actual);
      if current.Err? {
        return Err(InvalidSchema(current.error));
      }
      var refusal := Accepts(plan, mode, current.value);
      if refusal.Some? {
        return Err(refusal.value);
      }
      var ok := Transact(plan, actual);
      if !ok {
        return Err(Statement);
      }
      var untidy := Fails();
      if untidy {
        return Err(Cleanup);
      }
      return Ok(());
    }

    /** `Plan::build`, which only reads. */
    method Build(target: SchemaDef, obstacles: string -> Obstacles) returns (r: Result<Plan, ApplyError>)
      ensures r.Ok? ==> BuildPlan(State(), target, obstacles) == Ok(r.value)
      ensures r.Err? ==>
                || (!reliable && r.error.Statement?)
                || (r.error.InvalidSchema? && BuildPlan(State(), target, obstacles) == Err(r.error.error))
    {
      var unread := Fails();
      if unread {
        return Err(Statement);
      }
      var names := TableNames(target);
      if history != [] {
        var previous := ReadCanonical(history[|history| - 1]);
        if previous.Err? {
          return Err(InvalidSchema(previous.error));
        }
        names := names + TableNames(previous.value);
      } else {
        assert names + [] == names;
      }
      var actual := Introspect(tables, NameSet(names), obstacles);
      var d := ComputeDiff(target, actual);
      if d.Err? {
        return Err(InvalidSchema(d.error));
      }
      var source := d.value.source;
      return Ok(Plan(source, target, FingerprintOf(source), FingerprintOf(target), d.value.ops, d.value.blockers));
    }
  }
}
