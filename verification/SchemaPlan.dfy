/** Plan operations and blockers (src/schema/plan.rs), and what introspection reports about a
    live table (src/schema/introspect.rs). */
module SchemaPlan {
  import opened Prelude
  import opened Ordering
  import opened SchemaTypes

  datatype RebuildReason =
    | DropColumns(columns: seq<string>)
    | ChangePrimaryKeyName(fromName: string, toName: string)
    | ChangePrimaryKeyType(fromType: string, toType: string)
    | ChangeColumnType(column: string, fromType: string, toType: string)
    | ChangeNullability(column: string, fromNullable: bool, toNullable: bool)
    | ChangeDefault(column: string, fromDefault: Option<string>, toDefault: Option<string>)

  datatype PlanOp =
    | CreateTable(def: TableDef)
    | AddColumn(table: string, column: ColumnDef)
    | CreateIndex(table: string, index: IndexDef)
    | DropIndex(table: string, index: IndexDef)
    | RebuildTable(table: string, from: TableDef, to: TableDef, reasons: seq<RebuildReason>)
    | DropTable(def: TableDef)
  {
    predicate IsDestructive() { RebuildTable? || DropTable? }

    /** The table the operation is about. */
    function Subject(): string {
      if CreateTable? || DropTable? then def.name else table
    }
  }

  datatype PlanBlocker =
    | RegistryUncertain(message: string)
    | RequiredColumnAddition(table: string, column: string)
    | UnsupportedInlineFeature(table: string, feature: string)
    | RealForeignKeys(table: string)
    | DependentView(table: string, view: string)
    | DependentTrigger(table: string, trigger: string)
    | Uncertain(message: string)

  /** What stands in the way of rebuilding or dropping a live table. */
  datatype Obstacles = Obstacles(unsupported: seq<string>, foreignKeys: bool, views: seq<string>, triggers: seq<string>)

  /** `replay` holds the unmanaged indexes that a rebuild must create again. */
  datatype ActualTable = ActualTable(table: TableDef, obstacles: Obstacles, replay: seq<IndexDef>)

  /** `plan_op_sort_key`: the order in which a plan is run. */
  function OpKey(op: PlanOp): Key {
    match op
    case DropIndex(table, index) => Key(0, table, index.name)
    case CreateTable(def) => Key(1, def.name, "")
    case AddColumn(table, column) => Key(2, table, column.name)
    case RebuildTable(table, _, _, _) => Key(3, table, "")
    case CreateIndex(table, index) => Key(4, table, index.name)
    case DropTable(def) => Key(5, def.name, "")
  }

  function BlockerKey(b: PlanBlocker): Key {
    match b
    case RegistryUncertain(message) => Key(0, message, "")
    case RequiredColumnAddition(table, column) => Key(1, table, column)
    case UnsupportedInlineFeature(table, feature) => Key(2, table, feature)
    case RealForeignKeys(table) => Key(3, table, "")
    case DependentView(table, view) => Key(4, table, view)
    case DependentTrigger(table, trigger) => Key(5, table, trigger)
    case Uncertain(message) => Key(6, message, "")
  }
}
