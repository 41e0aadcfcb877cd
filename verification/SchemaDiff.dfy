/** The planner (src/schema/diff.rs): compares a normalized target with the live tables and
    lists the operations and blockers, sorted into execution order. */
module SchemaDiff {
  import opened Prelude
  import opened Ordering
  import opened Affinity
  import opened SchemaTypes
  import opened SchemaPlan

  datatype DiffResult = DiffResult(source: SchemaDef, ops: seq<PlanOp>, blockers: seq<PlanBlocker>)

  function FindColumn(cs: seq<ColumnDef>, name: string): Option<ColumnDef> {
    if cs == [] then None else if cs[0].name == name then Some(cs[0]) else FindColumn(cs[1..], name)
  }

  function FindIndex(xs: seq<IndexDef>, name: string): Option<IndexDef> {
    if xs == [] then None else if xs[0].name == name then Some(xs[0]) else FindIndex(xs[1..], name)
  }

  function FindActual(actual: seq<ActualTable>, name: string): Option<ActualTable> {
    if actual == [] then None
    else if actual[0].table.name == name then Some(actual[0])
    else FindActual(actual[1..], name)
  }

  function FindTarget(ts: seq<TableDef>, name: string): Option<TableDef> {
    if ts == [] then None else if ts[0].name == name then Some(ts[0]) else FindTarget(ts[1..], name)
  }

  /* ---------- One table ---------- */

  function KeyReasons(d: TableDef, live: TableDef): seq<RebuildReason> {
    (if d.primaryKey.name != live.primaryKey.name then
       [ChangePrimaryKeyName(live.primaryKey.name, d.primaryKey.name)]
     else [])
    + (if FromDeclaredType(d.primaryKey.sqlType) != FromDeclaredType(live.primaryKey.sqlType)
          || d.primaryKey.sqlType != live.primaryKey.sqlType then
         [ChangePrimaryKeyType(live.primaryKey.sqlType, d.primaryKey.sqlType)]
       else [])
  }

  function ColumnChange(d: ColumnDef, live: ColumnDef): seq<RebuildReason> {
    (if FromDeclaredType(d.sqlType) != FromDeclaredType(live.sqlType) then
       [ChangeColumnType(d.name, live.sqlType, d.sqlType)]
     else [])
    + (if d.nullable != live.nullable then [ChangeNullability(d.name, live.nullable, d.nullable)] else [])
    + (if d.defaultSql != live.defaultSql then [ChangeDefault(d.name, live.defaultSql, d.defaultSql)] else [])
  }

  function ColumnReasons(desired: seq<ColumnDef>, live: seq<ColumnDef>): seq<RebuildReason> {
    if desired == [] then []
    else
      var found := FindColumn(live, desired[0].name);
      (if found.Some? then ColumnChange(desired[0], found.value) else []) + ColumnReasons(desired[1..], live)
  }

  predicate CanAdd(c: ColumnDef) {
    c.nullable || c.defaultSql.Some?
  }

  function AddedColumns(desired: seq<ColumnDef>, live: seq<ColumnDef>): seq<ColumnDef> {
    if desired == [] then []
    else
      (if FindColumn(live, desired[0].name).None? && CanAdd(desired[0]) then [desired[0]] else [])
      + AddedColumns(desired[1..], live)
  }

  function RequiredColumns(table: string, desired: seq<ColumnDef>, live: seq<ColumnDef>): seq<PlanBlocker> {
    if desired == [] then []
    else
      (if FindColumn(live, desired[0].name).None? && !CanAdd(desired[0]) then
         [RequiredColumnAddition(table, desired[0].name)]
       else [])
      + RequiredColumns(table, desired[1..], live)
  }

  /** `live` is listed in name order, as the planner's map iterates it. */
  function RemovedColumns(desired: seq<ColumnDef>, live: seq<ColumnDef>): seq<string> {
    if live == [] then []
    else
      (if FindColumn(desired, live[0].name).None? then [live[0].name] else []) + RemovedColumns(desired, live[1..])
  }

  function DropReason(removed: seq<string>): seq<RebuildReason> {
    if removed == [] then [] else [DropColumns(removed)]
  }

  function Reasons(d: TableDef, live: TableDef): seq<RebuildReason> {
    KeyReasons(d, live) + ColumnReasons(d.columns, live.columns)
    + DropReason(RemovedColumns(d.columns, SortBy(ColumnKey, live.columns)))
  }

  function AddOps(table: string, added: seq<ColumnDef>): seq<PlanOp> {
    if added == [] then [] else [AddColumn(table, added[0])] + AddOps(table, added[1..])
  }

  function IndexOps(table: string, desired: seq<IndexDef>, live: seq<IndexDef>): seq<PlanOp> {
    if desired == [] then []
    else
      var d := desired[0];
      (match FindIndex(live, d.name)
       case None => [CreateIndex(table, d)]
       case Some(x) =>
         if d.column != x.column || d.unique != x.unique then [DropIndex(table, x), CreateIndex(table, d)] else [])
      + IndexOps(table, desired[1..], live)
  }

  function StaleOps(table: string, desired: seq<IndexDef>, live: seq<IndexDef>): seq<PlanOp> {
    if live == [] then []
    else
      (if FindIndex(desired, live[0].name).None? then [DropIndex(table, live[0])] else [])
      + StaleOps(table, desired, live[1..])
  }

  /** What a table gets when nothing calls for a rebuild. */
  function AlterOps(d: TableDef, live: TableDef): seq<PlanOp> {
    AddOps(d.name, SortBy(ColumnKey, AddedColumns(d.columns, live.columns)))
    + (IndexOps(d.name, d.indexes, live.indexes)
       + StaleOps(d.name, d.indexes, SortBy(IndexKey, live.indexes)))
  }

  function TableOps(d: TableDef, a: ActualTable): seq<PlanOp> {
    if Reasons(d, a.table) != [] then [RebuildTable(d.name, a.table, d, Reasons(d, a.table))]
    else AlterOps(d, a.table)
  }

  function FeatureBlockers(table: string, features: seq<string>): seq<PlanBlocker> {
    if features == [] then []
    else [UnsupportedInlineFeature(table, features[0])] + FeatureBlockers(table, features[1..])
  }

  function ViewBlockers(table: string, views: seq<string>): seq<PlanBlocker> {
    if views == [] then [] else [DependentView(table, views[0])] + ViewBlockers(table, views[1..])
  }

  function TriggerBlockers(table: string, triggers: seq<string>): seq<PlanBlocker> {
    if triggers == [] then [] else [DependentTrigger(table, triggers[0])] + TriggerBlockers(table, triggers[1..])
  }

  function DropBlockers(table: string, o: Obstacles): seq<PlanBlocker> {
    (if o.foreignKeys then [RealForeignKeys(table)] else []) + ViewBlockers(table, o.views)
         + TriggerBlockers(table, o.triggers)
  }

  function TableBlockers(d: TableDef, a: ActualTable): seq<PlanBlocker> {
    RequiredColumns(d.name, d.columns, a.table.columns)
    + (if Reasons(d, a.table) == [] then []
       else FeatureBlockers(d.name, a.obstacles.unsupported) + DropBlockers(d.name, a.obstacles))
  }

  /* ---------- All tables ---------- */

  function TargetOps(ts: seq<TableDef>, actual: seq<ActualTable>): seq<PlanOp> {
    if ts == [] then []
    else
      (match FindActual(actual, ts[0].name)
       case None => [CreateTable(ts[0])]
       case Some(a) => TableOps(ts[0], a))
      + TargetOps(ts[1..], actual)
  }

  function TargetBlockers(ts: seq<TableDef>, actual: seq<ActualTable>): seq<PlanBlocker> {
    if ts == [] then []
    else
      (match FindActual(actual, ts[0].name)
       case None => []
       case Some(a) => TableBlockers(ts[0], a))
      + TargetBlockers(ts[1..], actual)
  }

  function SurplusOps(ts: seq<TableDef>, actual: seq<ActualTable>): seq<PlanOp> {
    if actual == [] then []
    else
      (if FindTarget(ts, actual[0].table.name).None? then [DropTable(actual[0].table)] else [])
      + SurplusOps(ts, actual[1..])
  }

  function SurplusBlockers(ts: seq<TableDef>, actual: seq<ActualTable>): seq<PlanBlocker> {
    if actual == [] then []
    else
      (if FindTarget(ts, actual[0].table.name).None? then DropBlockers(actual[0].table.name, actual[0].obstacles)
       else [])
      + SurplusBlockers(ts, actual[1..])
  }

  function LiveTables(actual: seq<ActualTable>): seq<TableDef> {
    if actual == [] then [] else [actual[0].table] + LiveTables(actual[1..])
  }

  /** `diff`, as a function of the target and the live tables. */
  function Diff(target: SchemaDef, actual: seq<ActualTable>): Result<DiffResult, SchemaError> {
    match Normalized(SchemaDef(LiveTables(actual)))
    case Err(e) => Err(e)
    case Ok(source) =>
      Ok(DiffResult(
           source,
           SortBy(OpKey, TargetOps(target.tables, actual) + SurplusOps(target.tables, actual)),
           SortBy(BlockerKey, TargetBlockers(target.tables, actual) + SurplusBlockers(target.tables, actual))))
  }
}
