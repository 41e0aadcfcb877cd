/** The planner theorems, over the whole database. */
module SchemaTheorems {
  import opened Prelude
  import opened Ordering
  import opened SchemaTypes
  import opened SchemaNormalForm
  import opened SchemaPlan
  import opened SchemaDiff
  import opened SchemaDiffFacts
  import opened SchemaIntrospect
  import opened SchemaMachine
  import opened SchemaFrame
  import opened SchemaShares
  import opened SchemaAlter
  import opened SchemaConvergence

  ghost predicate WellFormedDb(db: Tables) {
    forall n :: n in db ==> db[n].def.name == n && WellFormedTable(db[n].def)
  }

  /* ---------- What introspection lists ---------- */

  lemma {:induction false} IntrospectLists(db: Tables, names: seq<string>, obstacles: string -> Obstacles)
    requires Named(db) && Ascending(names)
    ensures DistinctActual(Introspect(db, names, obstacles))
    ensures forall a :: a in Introspect(db, names, obstacles) ==>
              a.table.name in names && a.table.name in db
              && a == Report(db[a.table.name], obstacles(a.table.name))
  {
    if names != [] {
      var rest := Introspect(db, names[1..], obstacles);
      forall i, j | 0 <= i < j < |names[1..]|
        ensures Leq(names[1..][i], names[1..][j]) && names[1..][i] != names[1..][j]
      {
        assert names[i + 1] != names[j + 1];
      }
      IntrospectLists(db, names[1..], obstacles);
      forall n | n in names[1..] ensures n != names[0] && n in names {
        var i :| 0 <= i < |names[1..]| && names[1..][i] == n;
        assert names[i + 1] == n;
      }
      if names[0] in db {
        var head := Report(db[names[0]], obstacles(names[0]));
        var all := [head] + rest;
        assert Introspect(db, names, obstacles) == all;
        forall i, j | 0 <= i < j < |all| ensures all[i].table.name != all[j].table.name {
          assert all[j] == rest[j - 1] && rest[j - 1] in rest;
          if i > 0 { assert all[i] == rest[i - 1]; }
        }
      } else {
        assert Introspect(db, names, obstacles) == rest;
      }
    }
  }

  lemma ReportWellFormed(t: LiveTable, o: Obstacles)
    requires WellFormedTable(t.def)
    ensures WellFormedTable(Report(t, o).table)
  {
    ManagedElements(t.def.indexes);
    ManagedDistinct(t.def.indexes);
    var r := Report(t, o).table;
    forall x | x in r.indexes ensures Declares(r, x.column) { assert Declares(t.def, x.column); }
  }

  lemma {:induction false} LiveTablesAt(actual: seq<ActualTable>)
    ensures |LiveTables(actual)| == |actual|
    ensures forall i :: 0 <= i < |actual| ==> LiveTables(actual)[i] == actual[i].table
  {
    if actual != [] { LiveTablesAt(actual[1..]); }
  }

  /** A well-formed database always yields a plan. */
  lemma DiffSucceeds(target: SchemaDef, db: Tables, names: seq<string>, obstacles: string -> Obstacles)
    requires WellFormedDb(db) && Ascending(names)
    ensures Diff(target, Introspect(db, names, obstacles)).Ok?
  {
    var actual := Introspect(db, names, obstacles);
    IntrospectLists(db, names, obstacles);
    LiveTablesAt(actual);
    var live := SchemaDef(LiveTables(actual));
    forall t | t in live.tables ensures WellFormedTable(t) {
      var i :| 0 <= i < |live.tables| && live.tables[i] == t;
      assert actual[i] in actual;
      ReportWellFormed(db[t.name], obstacles(t.name));
    }
    NormalizedMeaning(live);
  }

  lemma SortedEmpty<T>(key: T -> Key, xs: seq<T>)
    ensures SortBy(key, xs) == [] <==> xs == []
  {
    SortByElements(key, xs);
  }

  lemma {:induction false} TargetBlockersEmpty(ts: seq<TableDef>, actual: seq<ActualTable>)
    ensures TargetBlockers(ts, actual) == [] <==>
            forall d :: d in ts && FindActual(actual, d.name).Some? ==>
              TableBlockers(d, FindActual(actual, d.name).value) == []
  {
    if ts != [] {
      TargetBlockersEmpty(ts[1..], actual);
      assert ts == [ts[0]] + ts[1..];
    }
  }

  lemma {:induction false} TargetOpsEmpty(ts: seq<TableDef>, actual: seq<ActualTable>)
    ensures TargetOps(ts, actual) == [] <==>
            forall d :: d in ts ==>
              FindActual(actual, d.name).Some? && TableOps(d, FindActual(actual, d.name).value) == []
  {
    if ts != [] {
      TargetOpsEmpty(ts[1..], actual);
      assert ts == [ts[0]] + ts[1..];
    }
  }

  lemma {:induction false} SurplusEmpty(ts: seq<TableDef>, actual: seq<ActualTable>)
    ensures SurplusOps(ts, actual) == [] <==> forall a :: a in actual ==> FindTarget(ts, a.table.name).Some?
    ensures SurplusOps(ts, actual) == [] ==> SurplusBlockers(ts, actual) == []
  {
    if actual != [] {
      SurplusEmpty(ts, actual[1..]);
      assert actual == [actual[0]] + actual[1..];
    }
  }

  /** Everything in scope is as the target wants it. */
  ghost predicate UpToDate(target: SchemaDef, db: Tables, names: seq<string>, obstacles: string -> Obstacles) {
    && (forall d :: d in target.tables ==> d.name in db && Matches(d, Report(db[d.name], obstacles(d.name)).table))
    && (forall n :: n in names && n in db ==> FindTarget(target.tables, n).Some?)
  }

  lemma PlanEmpty(target: SchemaDef, actual: seq<ActualTable>, d: DiffResult)
    requires Diff(target, actual) == Ok(d)
    ensures d.ops == [] && d.blockers == [] <==>
            && TargetOps(target.tables, actual) == [] && TargetBlockers(target.tables, actual) == []
            && SurplusOps(target.tables, actual) == []
  {
    var ts := target.tables;
    SortedEmpty(OpKey, TargetOps(ts, actual) + SurplusOps(ts, actual));
    SortedEmpty(BlockerKey, TargetBlockers(ts, actual) + SurplusBlockers(ts, actual));
    SurplusEmpty(ts, actual);
  }

  lemma TargetSettled(ts: seq<TableDef>, db: Tables, names: seq<string>, obstacles: string -> Obstacles)
    requires (forall t :: t in ts ==> DistinctIndexes(t.indexes) && t.name in names) && WellFormedDb(db)
    ensures var actual := Introspect(db, names, obstacles);
            TargetOps(ts, actual) == [] && TargetBlockers(ts, actual) == [] <==>
            forall t :: t in ts ==> t.name in db && Matches(t, Report(db[t.name], obstacles(t.name)).table)
  {
    var actual := Introspect(db, names, obstacles);
    TargetOpsEmpty(ts, actual);
    TargetBlockersEmpty(ts, actual);
    forall t | t in ts
      ensures FindActual(actual, t.name).Some?
              && TableOps(t, FindActual(actual, t.name).value) == []
              && TableBlockers(t, FindActual(actual, t.name).value) == []
         <==> t.name in db && Matches(t, Report(db[t.name], obstacles(t.name)).table)
    {
      IntrospectFinds(db, names, obstacles, t.name);
      if t.name in db {
        ManagedDistinct(db[t.name].def.indexes);
        TableSettled(t, Report(db[t.name], obstacles(t.name)));
      }
    }
  }

  lemma SurplusSettled(ts: seq<TableDef>, db: Tables, names: seq<string>, obstacles: string -> Obstacles)
    requires Named(db) && Ascending(names)
    ensures SurplusOps(ts, Introspect(db, names, obstacles)) == [] <==>
            forall n :: n in names && n in db ==> FindTarget(ts, n).Some?
  {
    var actual := Introspect(db, names, obstacles);
    SurplusEmpty(ts, actual);
    IntrospectLists(db, names, obstacles);
    forall n | n in names && n in db ensures exists a :: a in actual && a.table.name == n {
      IntrospectFinds(db, names, obstacles, n);
      FindActualMeaning(actual, n);
    }
  }

  /** A plan is empty, with no blocker, exactly when the database already matches the target
      and no surplus table is left. */
  lemma NothingToDo(target: SchemaDef, db: Tables, names: seq<string>, obstacles: string -> Obstacles, d: DiffResult)
    requires IsNormal(target) && WellFormedDb(db) && Ascending(names)
    requires forall t :: t in target.tables ==> t.name in names
    requires Diff(target, Introspect(db, names, obstacles)) == Ok(d)
    ensures d.ops == [] && d.blockers == [] <==> UpToDate(target, db, names, obstacles)
  {
    IsNormalMeaning(target);
    PlanEmpty(target, Introspect(db, names, obstacles), d);
    TargetSettled(target.tables, db, names, obstacles);
    SurplusSettled(target.tables, db, names, obstacles);
  }

  /* ---------- Convergence ---------- */

  function TempNames(target: SchemaDef): set<string> {
    set t | t in target.tables :: TempName(t.name)
  }

  /** The naming conventions the planner relies on: each index name belongs to one table, no
      index is called like a table, temporary names are free, and target indexes carry the
      managed prefix. */
  ghost predicate NamesApart(target: SchemaDef, db: Tables, owner: map<string, string>) {
    && Tidy(db, owner, TempNames(target))
    && (forall t :: t in target.tables ==>
          && t.name !in owner && t.name !in TempNames(target)
          && Owns(owner, t.name, t.indexes) && ManagedTarget(t))
  }

  /** Unmanaged indexes sit on columns that the target keeps. */
  ghost predicate ReplaysSurvive(target: SchemaDef, db: Tables) {
    forall t :: t in target.tables && t.name in db ==> ReplaysKept(db[t.name].def, t)
  }

  function KeptIn(db: Tables, n: string): set<IndexDef> {
    if n in db then Kept(db[n].def) else {}
  }

  /** The database holds the target, surplus tables in scope are gone, the rest is untouched. */
  ghost predicate Reached(target: SchemaDef, names: seq<string>, before: Tables, after: Tables) {
    && (forall t :: t in target.tables ==> t.name in after && Settled(after[t.name].def, t, KeptIn(before, t.name)))
    && (forall n :: n in names && FindTarget(target.tables, n).None? ==> n !in after)
    && (forall n :: n !in names ==> Get(after, n) == Get(before, n))
  }

  /** What one table's share of an unblocked plan does. */
  ghost predicate ShareConverges(target: SchemaDef, names: seq<string>, db: Tables, n: string,
                                 r: Result<Option<LiveTable>, SqlError>)
  {
    match r
    case Err(e) => e == Constraint
    case Ok(t) =>
      match FindTarget(target.tables, n)
      case Some(d) => t.Some? && Settled(t.value.def, d, KeptIn(db, n))
      case None => if n in names then t == None else t == Get(db, n)
  }

  /** The share of a table ends at its target, or at stored data that is in the way. */
  ghost predicate EndsSettled(r: Result<Option<LiveTable>, SqlError>, d: TableDef, keep: set<IndexDef>) {
    match r
    case Err(e) => e == Constraint
    case Ok(t) => t.Some? && Settled(t.value.def, d, keep)
  }

  lemma CreateConverges(engine: Engine, actual: seq<ActualTable>, d: TableDef)
    requires WellFormedTable(d)
    ensures EndsSettled(RunShare(engine, None, actual, SortBy(OpKey, [CreateTable(d)])), d, {})
  {
    hide Settled, WellFormedTable;
    assert SortBy(OpKey, [CreateTable(d)]) == [CreateTable(d)];
    CreateSettles(d);
  }

  lemma AlterConverges(engine: Engine, actual: seq<ActualTable>, t: LiveTable, d: TableDef, o: Obstacles)
    requires WellFormedTable(t.def) && WellFormedTable(d) && t.def.name == d.name && ManagedTarget(d)
    requires Reasons(d, Report(t, o).table) == [] && TableBlockers(d, Report(t, o)) == []
    ensures EndsSettled(RunShare(engine, Some(t), actual, SortBy(OpKey, TableOps(d, Report(t, o)))), d, Kept(t.def))
  {
    hide Settled, WellFormedTable, ManagedTarget, Underway, RunShare, Reasons, AlterOps, Kept;
    RequiredColumnsEmpty(d.name, d.columns, t.def.columns);
    StartAlteration(t, d, o);
    AlterationRuns(engine, t, d, Kept(t.def), actual, SortBy(OpKey, AlterOps(d, Report(t, o).table)));
  }

  lemma RebuildConverges(engine: Engine, actual: seq<ActualTable>, t: LiveTable, d: TableDef, o: Obstacles)
    requires WellFormedTable(t.def) && WellFormedTable(d) && t.def.name == d.name && ManagedTarget(d)
    requires Reasons(d, Report(t, o).table) != [] && ReplaysKept(t.def, d)
    requires FindActual(actual, d.name) == Some(Report(t, o))
    ensures EndsSettled(RunShare(engine, Some(t), actual, SortBy(OpKey, TableOps(d, Report(t, o)))), d, Kept(t.def))
  {
    hide Settled, WellFormedTable, ManagedTarget, ReplaysKept, Reasons, FindActual, Kept, RebuildAlone;
    var a := Report(t, o);
    var op := RebuildTable(d.name, a.table, d, Reasons(d, a.table));
    assert SortBy(OpKey, [op]) == [op];
    RebuildSettles(engine, t, a.table, d);
    assert Alone(engine, Some(t), actual, op)
        == match RebuildAlone(engine, t, a.table, d, a.replay)
           case Err(e) => Err(e)
           case Ok(n) => Ok(Some(n));
  }

  lemma NeededConverges(engine: Engine, db: Tables, actual: seq<ActualTable>, d: TableDef, o: Obstacles)
    requires WellFormedTable(d) && ManagedTarget(d)
    requires d.name in db ==>
               db[d.name].def.name == d.name && WellFormedTable(db[d.name].def) && ReplaysKept(db[d.name].def, d)
    requires FindActual(actual, d.name) == (if d.name in db then Some(Report(db[d.name], o)) else None)
    requires d.name in db ==> TableBlockers(d, Report(db[d.name], o)) == []
    ensures EndsSettled(RunShare(engine, Get(db, d.name), actual, SortBy(OpKey, Needed(d, FindActual(actual, d.name)))),
                        d, KeptIn(db, d.name))
  {
    hide WellFormedTable, ManagedTarget, ReplaysKept, Report, TableBlockers, FindActual, EndsSettled, RunShare,
         Reasons, TableOps, Kept, SortBy;
    if d.name !in db {
      CreateConverges(engine, actual, d);
    } else if Reasons(d, Report(db[d.name], o).table) == [] {
      AlterConverges(engine, actual, db[d.name], d, o);
    } else {
      RebuildConverges(engine, actual, db[d.name], d, o);
    }
  }

  lemma AlterOpTidy(d: TableDef, live: TableDef, op: PlanOp, actual: seq<ActualTable>, owner: map<string, string>,
                    reserved: set<string>)
    requires op in AlterOps(d, live)
    requires d.name !in owner && d.name !in reserved
    requires Owns(owner, d.name, d.indexes) && Owns(owner, d.name, live.indexes)
    ensures TidyOp(actual, op, owner, reserved)
  {
    AlterOpsShape(d, live, op);
    if op.DropIndex? {
      AlterOpsElements(d, live, op);
      if x :| x in d.indexes && IndexCallsFor(d.name, x, live.indexes, op) {
        FindIndexMeaning(live.indexes, x.name);
      }
      assert op.index in live.indexes;
    }
  }

  lemma NeededTidy(db: Tables, target: SchemaDef, d: TableDef, o: Obstacles, actual: seq<ActualTable>, op: PlanOp,
                   owner: map<string, string>)
    requires NamesApart(target, db, owner) && d in target.tables
    requires FindActual(actual, d.name) == (if d.name in db then Some(Report(db[d.name], o)) else None)
    requires op in Needed(d, FindActual(actual, d.name))
    ensures TidyOp(actual, op, owner, TempNames(target))
  {
    if d.name in db {
      var t, a := db[d.name], Report(db[d.name], o);
      TableOpsCases(d, a);
      ManagedElements(t.def.indexes);
      if Reasons(d, a.table) == [] {
        AlterOpTidy(d, a.table, op, actual, owner, TempNames(target));
      } else {
        assert TempName(d.name) in TempNames(target);
      }
    }
  }

  /** Every operation of the plan keeps to its own table's names. */
  lemma PlanTidy(target: SchemaDef, db: Tables, names: seq<string>, obstacles: string -> Obstacles, d: DiffResult,
                 owner: map<string, string>, op: PlanOp)
    requires IsNormal(target) && WellFormedDb(db) && Ascending(names) && NamesApart(target, db, owner)
    requires Diff(target, Introspect(db, names, obstacles)) == Ok(d)
    requires op in d.ops
    ensures TidyOp(Introspect(db, names, obstacles), op, owner, TempNames(target))
    ensures FindTarget(target.tables, op.Subject()).Some? || (op.Subject() in names && op.Subject() in db)
  {
    var actual, n := Introspect(db, names, obstacles), op.Subject();
    IsNormalMeaning(target);
    IntrospectLists(db, names, obstacles);
    ShareOfPlan(target, actual, n);
    ShareElements(d.ops, n);
    IntrospectFinds(db, names, obstacles, n);
    match FindTarget(target.tables, n) {
      case Some(t) =>
        FindTargetMeaning(target.tables, n);
        SortByElements(OpKey, Needed(t, FindActual(actual, n)));
        NeededTidyAny(db, target, names, obstacles, t, op, owner);
      case None =>
        assert op == DropTable(FindActual(actual, n).value.table);
    }
  }

  lemma NeededTidyAny(db: Tables, target: SchemaDef, names: seq<string>, obstacles: string -> Obstacles, t: TableDef,
                      op: PlanOp, owner: map<string, string>)
    requires NamesApart(target, db, owner) && t in target.tables && Named(db)
    requires op in Needed(t, FindActual(Introspect(db, names, obstacles), t.name))
    ensures TidyOp(Introspect(db, names, obstacles), op, owner, TempNames(target))
  {
    var actual := Introspect(db, names, obstacles);
    IntrospectFinds(db, names, obstacles, t.name);
    if t.name in db && t.name !in names {
      assert op == CreateTable(t);
    } else {
      NeededTidy(db, target, t, obstacles(t.name), actual, op, owner);
    }
  }

  lemma PlanShareConverges(engine: Engine, target: SchemaDef, db: Tables, names: seq<string>,
                           obstacles: string -> Obstacles, d: DiffResult, owner: map<string, string>, n: string)
    requires IsNormal(target) && WellFormedDb(db) && Ascending(names) && NamesApart(target, db, owner)
    requires ReplaysSurvive(target, db) && forall t :: t in target.tables ==> t.name in names
    requires Diff(target, Introspect(db, names, obstacles)) == Ok(d) && d.blockers == []
    ensures ShareConverges(target, names, db, n,
                           RunShare(engine, Get(db, n), Introspect(db, names, obstacles), Share(d.ops, n)))
  {
    hide TargetBlockers, SurplusBlockers, TargetOps, SurplusOps, Introspect, Needed, TableBlockers, IsNormal,
         NamesApart;
    var actual := Introspect(db, names, obstacles);
    IsNormalMeaning(target);
    IntrospectLists(db, names, obstacles);
    IntrospectFinds(db, names, obstacles, n);
    ShareOfPlan(target, actual, n);
    SortedEmpty(BlockerKey, TargetBlockers(target.tables, actual) + SurplusBlockers(target.tables, actual));
    TargetBlockersEmpty(target.tables, actual);
    FindTargetMeaning(target.tables, n);
    if FindTarget(target.tables, n).Some? {
      TargetConverges(engine, target, db, names, obstacles, owner, FindTarget(target.tables, n).value);
    } else {
      SurplusConverges(engine, db, actual, n);
    }
  }

  lemma TargetConverges(engine: Engine, target: SchemaDef, db: Tables, names: seq<string>,
                        obstacles: string -> Obstacles, owner: map<string, string>, t: TableDef)
    requires IsNormal(target) && WellFormedDb(db) && NamesApart(target, db, owner) && ReplaysSurvive(target, db)
    requires t in target.tables && t.name in names
    requires TargetBlockers(target.tables, Introspect(db, names, obstacles)) == []
    ensures var actual := Introspect(db, names, obstacles);
            EndsSettled(RunShare(engine, Get(db, t.name), actual, SortBy(OpKey, Needed(t, FindActual(actual, t.name)))),
                        t, KeptIn(db, t.name))
  {
    hide Needed, TableBlockers, IsNormal, Introspect, EndsSettled, RunShare, WellFormedTable;
    var actual := Introspect(db, names, obstacles);
    IsNormalMeaning(target);
    IntrospectFinds(db, names, obstacles, t.name);
    TargetBlockersEmpty(target.tables, actual);
    NeededConverges(engine, db, actual, t, obstacles(t.name));
  }

  /** Dropping a surplus table. */
  lemma SurplusConverges(engine: Engine, db: Tables, actual: seq<ActualTable>, n: string)
    requires FindActual(actual, n).Some? ==> n in db && FindActual(actual, n).value.table.name == n
    ensures var ops := if FindActual(actual, n).Some? then [DropTable(FindActual(actual, n).value.table)] else [];
            RunShare(engine, Get(db, n), actual, ops) == Ok(if FindActual(actual, n).Some? then None else Get(db, n))
  {
    if FindActual(actual, n).Some? {
      var ops := [DropTable(FindActual(actual, n).value.table)];
      assert ops[1..] == [];
    }
  }

  /** Planner convergence.  Running an unblocked plan can only be stopped by stored data (a
      duplicate, a null, a key that does not convert); otherwise it ends at the target. */
  lemma PlanConverges(engine: Engine, target: SchemaDef, db: Tables, names: seq<string>,
                      obstacles: string -> Obstacles, d: DiffResult, owner: map<string, string>)
    requires IsNormal(target) && WellFormedDb(db) && Ascending(names) && NamesApart(target, db, owner)
    requires ReplaysSurvive(target, db) && forall t :: t in target.tables ==> t.name in names
    requires Diff(target, Introspect(db, names, obstacles)) == Ok(d) && d.blockers == []
    ensures match RunOps(engine, db, Introspect(db, names, obstacles), d.ops)
            case Err(e) => !e.IsSchema()
            case Ok(after) => Reached(target, names, db, after)
  {
    var actual := Introspect(db, names, obstacles);
    forall op | op in d.ops ensures TidyOp(actual, op, owner, TempNames(target)) {
      PlanTidy(target, db, names, obstacles, d, owner, op);
    }
    var bad := RunOpsShares(engine, db, actual, d.ops, owner, TempNames(target));
    PlanShareConverges(engine, target, db, names, obstacles, d, owner, bad);
    var r := RunOps(engine, db, actual, d.ops);
    if r.Ok? {
      forall n ensures ShareConverges(target, names, db, n, Ok(Get(r.value, n))) {
        PlanShareConverges(engine, target, db, names, obstacles, d, owner, n);
      }
      forall t | t in target.tables
        ensures t.name in r.value && Settled(r.value[t.name].def, t, KeptIn(db, t.name))
      {
        assert ShareConverges(target, names, db, t.name, Ok(Get(r.value, t.name)));
        TargetFound(target, t);
      }
      forall n | n in names && FindTarget(target.tables, n).None? ensures n !in r.value {
        assert ShareConverges(target, names, db, n, Ok(Get(r.value, n)));
      }
      forall n | n !in names ensures Get(r.value, n) == Get(db, n) {
        assert ShareConverges(target, names, db, n, Ok(Get(r.value, n)));
        FindTargetMeaning(target.tables, n);
      }
    }
  }

  lemma AlterableKeepsReplays(t: TableDef, d: TableDef, live: TableDef)
    requires WellFormedTable(t) && live.primaryKey == t.primaryKey && live.columns == t.columns
    requires Alterable(d, live)
    ensures ReplaysKept(t, d)
  {
    ManagedElements(t.indexes);
    forall x | x in Unmanaged(t.indexes) ensures Declares(d, x.column) {
      assert Declares(t, x.column);
      if HasColumn(t.columns, x.column) {
        HasColumnMeaning(t.columns, x.column);
        var c :| c in t.columns && c.name == x.column;
        FindColumnMeaning(d.columns, c.name);
      }
    }
  }

  /** The condition on unmanaged indexes is needed: no plan for a target that drops a column carrying
      one, blocked or not, can run to the end. */
  lemma DroppedReplayStopsPlan(engine: Engine, target: SchemaDef, db: Tables, names: seq<string>,
                               obstacles: string -> Obstacles, d: DiffResult, owner: map<string, string>)
    requires IsNormal(target) && WellFormedDb(db) && Ascending(names) && NamesApart(target, db, owner)
    requires !ReplaysSurvive(target, db) && forall t :: t in target.tables ==> t.name in names
    requires Diff(target, Introspect(db, names, obstacles)) == Ok(d)
    ensures RunOps(engine, db, Introspect(db, names, obstacles), d.ops).Err?
  {
    var actual := Introspect(db, names, obstacles);
    var t :| t in target.tables && t.name in db && !ReplaysKept(db[t.name].def, t);
    forall op | op in d.ops ensures TidyOp(actual, op, owner, TempNames(target)) {
      PlanTidy(target, db, names, obstacles, d, owner, op);
    }
    var bad := RunOpsShares(engine, db, actual, d.ops, owner, TempNames(target));
    IsNormalMeaning(target);
    TargetFound(target, t);
    IntrospectLists(db, names, obstacles);
    IntrospectFinds(db, names, obstacles, t.name);
    ShareOfPlan(target, actual, t.name);
    var a := Report(db[t.name], obstacles(t.name));
    ReasonsEmpty(t, a.table);
    if Reasons(t, a.table) == [] { AlterableKeepsReplays(db[t.name].def, t, a.table); }
    DroppedReplayStopsRebuild(engine, db[t.name], a.table, t);
    RebuildShareStops(engine, db[t.name], actual, t, a);
  }

  lemma RebuildShareStops(engine: Engine, t: LiveTable, actual: seq<ActualTable>, d: TableDef, a: ActualTable)
    requires FindActual(actual, d.name) == Some(a) && Reasons(d, a.table) != []
    requires RebuildAlone(engine, t, a.table, d, a.replay).Err?
    ensures RunShare(engine, Some(t), actual, SortBy(OpKey, TableOps(d, a))).Err?
  {
    TableOpsCases(d, a);
    var op := RebuildTable(d.name, a.table, d, Reasons(d, a.table));
    assert SortBy(OpKey, [op]) == [op];
    assert Alone(engine, Some(t), actual, op).Err?;
  }

  lemma TargetFound(target: SchemaDef, t: TableDef)
    requires IsNormal(target) && t in target.tables
    ensures FindTarget(target.tables, t.name) == Some(t)
  {
    IsNormalMeaning(target);
    FindTargetMeaning(target.tables, t.name);
  }

  /** The database stays well formed. */
  lemma ReachedWellFormed(target: SchemaDef, names: seq<string>, before: Tables, after: Tables)
    requires WellFormedDb(before) && Reached(target, names, before, after)
    ensures WellFormedDb(after)
  {
    forall n | n in after ensures after[n].def.name == n && WellFormedTable(after[n].def) {
      FindTargetMeaning(target.tables, n);
      if n !in names { assert Get(after, n) == Get(before, n); }
    }
  }

  /** A settled table, introspected, matches its target. */
  lemma SettledMatches(t: LiveTable, d: TableDef, keep: set<IndexDef>, o: Obstacles)
    requires Settled(t.def, d, keep) && ManagedTarget(d)
    requires forall x :: x in keep ==> !IsManaged(x.name)
    ensures Matches(d, Report(t, o).table)
  {
    ManagedElements(t.def.indexes);
  }

  /** Convergence is a fixed point: planning again after a successful run, over any scope that
      adds no table, finds no operation and no blocker. */
  lemma ReplanIsEmpty(target: SchemaDef, db: Tables, names: seq<string>, after: Tables, owner: map<string, string>,
                      again: seq<string>, obstacles: string -> Obstacles)
    requires IsNormal(target) && WellFormedDb(db) && NamesApart(target, db, owner)
    requires Reached(target, names, db, after)
    requires Ascending(again) && forall t :: t in target.tables ==> t.name in again
    requires forall n :: n in again ==> n in names
    ensures Diff(target, Introspect(after, again, obstacles)).Ok?
    ensures Diff(target, Introspect(after, again, obstacles)).value.ops == []
    ensures Diff(target, Introspect(after, again, obstacles)).value.blockers == []
  {
    hide Diff, IsNormal, Introspect, Settled, WellFormedDb, Matches, WellFormedTable;
    ReachedWellFormed(target, names, db, after);
    DiffSucceeds(target, after, again, obstacles);
    forall t | t in target.tables ensures Matches(t, Report(after[t.name], obstacles(t.name)).table) {
      if t.name in db { ManagedElements(db[t.name].def.indexes); }
      SettledMatches(after[t.name], t, KeptIn(db, t.name), obstacles(t.name));
    }
    NothingToDo(target, after, again, obstacles, Diff(target, Introspect(after, again, obstacles)).value);
  }
}
