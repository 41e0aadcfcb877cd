/** The abstract database that schema statements run on: tables by name, each with its
    definition and rows, and one namespace shared by tables and indexes.  What SQLite decides
    by itself (how a value is stored under an affinity, what a default expression means) is the
    parameter `Engine`. */
module SchemaMachine {
  import opened Prelude
  import opened Affinity
  import opened SchemaTypes
  import opened SchemaPlan
  import opened SchemaDiff
  import opened SqlValues

  /** `store(a, v)` is `v` as a column of affinity `a` keeps it, `storeKey` the same for a key
      column of a declared type, which may refuse; `literal` evaluates a default expression. */
  datatype Engine = Engine(
    store: (SqlAffinity, Value) -> Value,
    storeKey: (string, Value) -> Option<Value>,
    literal: string -> Value)

  type Row = map<string, Value>

  /** `def.columns` is in physical order; `def.indexes` are the single-column indexes made by
      `CREATE INDEX`, without those SQLite makes for inline constraints. */
  datatype LiveTable = LiveTable(def: TableDef, rows: map<Value, Row>)

  type Tables = map<string, LiveTable>

  /** `Schema` errors name a missing or already existing object, `Constraint` errors are about
      the stored data. */
  datatype SqlError = TableExists | NoTable | ColumnExists | NoColumn | IndexExists | NoIndex | Constraint
  {
    predicate IsSchema() { !Constraint? }
  }

  /* ---------- Statements ---------- */

  predicate HasIndex(t: LiveTable, name: string) {
    exists i :: 0 <= i < |t.def.indexes| && t.def.indexes[i].name == name
  }

  /** The name belongs to a table, or to an index of a table other than `except`. */
  predicate TakenElsewhere(db: Tables, name: string, except: string) {
    name in db || exists n :: n in db && n != except && HasIndex(db[n], name)
  }

  predicate IndexNamed(db: Tables, name: string) {
    exists n :: n in db && HasIndex(db[n], name)
  }

  function CellOf(t: LiveTable, key: Value, column: string): Value
    requires key in t.rows
  {
    if column == t.def.primaryKey.name then key
    else if column in t.rows[key] then t.rows[key][column]
    else Null
  }

  predicate HasDuplicates(t: LiveTable, column: string) {
    exists k, l :: k in t.rows && l in t.rows && k != l && CellOf(t, k, column) == CellOf(t, l, column)
                   && CellOf(t, k, column) != Null
  }

  /** `CREATE INDEX`, as seen by the indexed table. */
  function AddIndexTo(t: LiveTable, index: IndexDef): Result<LiveTable, SqlError> {
    if HasIndex(t, index.name) then Err(IndexExists)
    else if !Declares(t.def, index.column) then Err(NoColumn)
    else if index.unique && HasDuplicates(t, index.column) then Err(Constraint)
    else Ok(t.(def := t.def.(indexes := t.def.indexes + [index])))
  }

  function RemoveIndex(indexes: seq<IndexDef>, name: string): seq<IndexDef> {
    if indexes == [] then []
    else if indexes[0].name == name then indexes[1..]
    else [indexes[0]] + RemoveIndex(indexes[1..], name)
  }

  /** `DROP INDEX`, as seen by the indexed table. */
  function DropIndexFrom(t: LiveTable, name: string): Result<LiveTable, SqlError> {
    if HasIndex(t, name) then Ok(t.(def := t.def.(indexes := RemoveIndex(t.def.indexes, name)))) else Err(NoIndex)
  }

  function DefaultOf(engine: Engine, c: ColumnDef): Value {
    if c.defaultSql.Some? then engine.store(FromDeclaredType(c.sqlType), engine.literal(c.defaultSql.value)) else Null
  }

  /** `ALTER TABLE .. ADD COLUMN`: every row gets the default; a `NOT NULL` column needs one
      that is not null unless there are no rows. */
  function AddColumnTo(engine: Engine, t: LiveTable, c: ColumnDef): Result<LiveTable, SqlError> {
    if Declares(t.def, c.name) then Err(ColumnExists)
    else if !c.nullable && t.rows != map[] && DefaultOf(engine, c) == Null then Err(Constraint)
    else Ok(LiveTable(t.def.(columns := t.def.columns + [c]),
                      map k | k in t.rows :: t.rows[k][c.name := DefaultOf(engine, c)]))
  }

  /* ---------- Copying rows into a rebuilt table ---------- */

  /** The source column that feeds destination `column`, if any. */
  function SourceOf(retained: seq<(string, string)>, column: string): Option<string> {
    if retained == [] then None
    else if retained[0].1 == column then Some(retained[0].0)
    else SourceOf(retained[1..], column)
  }

  function NewKey(engine: Engine, from: LiveTable, pk: PrimaryKeyDef, retained: seq<(string, string)>,
                  key: Value): Option<Value>
    requires key in from.rows
  {
    match SourceOf(retained, pk.name)
    case None => None
    case Some(source) => engine.storeKey(pk.sqlType, CellOf(from, key, source))
  }

  function NewCell(engine: Engine, from: LiveTable, retained: seq<(string, string)>, key: Value, c: ColumnDef): Value
    requires key in from.rows
  {
    match SourceOf(retained, c.name)
    case None => DefaultOf(engine, c)
    case Some(source) => engine.store(FromDeclaredType(c.sqlType), CellOf(from, key, source))
  }

  function NewRow(engine: Engine, from: LiveTable, retained: seq<(string, string)>, key: Value, cs: seq<ColumnDef>): Row
    requires key in from.rows
  {
    if cs == [] then map[]
    else NewRow(engine, from, retained, key, cs[1..])[cs[0].name := NewCell(engine, from, retained, key, cs[0])]
  }

  /** Every new key is accepted, no two rows get the same one, and no `NOT NULL` cell is null. */
  predicate CopyAllowed(engine: Engine, from: LiveTable, pk: PrimaryKeyDef, cs: seq<ColumnDef>,
                        retained: seq<(string, string)>)
  {
    && (forall k :: k in from.rows ==> NewKey(engine, from, pk, retained, k).Some?)
    && (forall k, l :: k in from.rows && l in from.rows && k != l ==>
          NewKey(engine, from, pk, retained, k) != NewKey(engine, from, pk, retained, l))
    && (forall k, i :: k in from.rows && 0 <= i < |cs| && !cs[i].nullable ==>
          NewCell(engine, from, retained, k, cs[i]) != Null)
  }

  function CopiedRows(engine: Engine, from: LiveTable, pk: PrimaryKeyDef, cs: seq<ColumnDef>,
                      retained: seq<(string, string)>): map<Value, Row>
    requires CopyAllowed(engine, from, pk, cs, retained)
  {
    map k | k in from.rows :: NewKey(engine, from, pk, retained, k).value := NewRow(engine, from, retained, k, cs)
  }

  predicate RetainedKnown(from: TableDef, pk: PrimaryKeyDef, cs: seq<ColumnDef>, retained: seq<(string, string)>) {
    forall i :: 0 <= i < |retained| ==>
      Declares(from, retained[i].0) && (retained[i].1 == pk.name || HasColumn(cs, retained[i].1))
  }

  function CopyInto(engine: Engine, from: LiveTable, to: LiveTable,
                    retained: seq<(string, string)>): Result<LiveTable, SqlError>
  {
    if !RetainedKnown(from.def, to.def.primaryKey, to.def.columns, retained) then Err(NoColumn)
    else if !CopyAllowed(engine, from, to.def.primaryKey, to.def.columns, retained) then Err(Constraint)
    else
      var rows := CopiedRows(engine, from, to.def.primaryKey, to.def.columns, retained);
      if rows.Keys !! to.rows.Keys then Ok(to.(rows := to.rows + rows)) else Err(Constraint)
  }

  /* ---------- Statements against the whole database ---------- */

  function RunCreateTable(db: Tables, name: string, def: TableDef): Result<Tables, SqlError> {
    if name in db || IndexNamed(db, name) then Err(TableExists)
    else Ok(db[name := LiveTable(def.(name := name, indexes := []), map[])])
  }

  function RunCreateIndex(db: Tables, table: string, index: IndexDef): Result<Tables, SqlError> {
    if table !in db then Err(NoTable)
    else if TakenElsewhere(db, index.name, table) then Err(IndexExists)
    else
      match AddIndexTo(db[table], index)
      case Err(e) => Err(e)
      case Ok(t) => Ok(db[table := t])
  }

  function RunCreateIndexes(db: Tables, table: string, indexes: seq<IndexDef>): Result<Tables, SqlError>
    decreases |indexes|
  {
    if indexes == [] then Ok(db)
    else
      match RunCreateIndex(db, table, indexes[0])
      case Err(e) => Err(e)
      case Ok(next) => RunCreateIndexes(next, table, indexes[1..])
  }

  /** The statement names only the index. */
  function RunDropIndex(db: Tables, name: string): Result<Tables, SqlError> {
    if !IndexNamed(db, name) then Err(NoIndex)
    else Ok(map n | n in db :: if HasIndex(db[n], name) then DropIndexFrom(db[n], name).value else db[n])
  }

  function RunAddColumn(engine: Engine, db: Tables, table: string, c: ColumnDef): Result<Tables, SqlError> {
    if table !in db then Err(NoTable)
    else
      match AddColumnTo(engine, db[table], c)
      case Err(e) => Err(e)
      case Ok(t) => Ok(db[table := t])
  }

  /** `INSERT INTO to (..) SELECT .. FROM from`. */
  function RunCopy(engine: Engine, db: Tables, from: string, to: string,
                   retained: seq<(string, string)>): Result<Tables, SqlError>
  {
    if from !in db || to !in db then Err(NoTable)
    else
      match CopyInto(engine, db[from], db[to], retained)
      case Err(e) => Err(e)
      case Ok(t) => Ok(db[to := t])
  }

  function RunDropTable(db: Tables, name: string): Result<Tables, SqlError> {
    if name in db then Ok(db - {name}) else Err(NoTable)
  }

  function RunRename(db: Tables, from: string, to: string): Result<Tables, SqlError> {
    if from !in db then Err(NoTable)
    else if to in db || IndexNamed(db, to) then Err(TableExists)
    else Ok((db - {from})[to := db[from].(def := db[from].def.(name := to))])
  }

  /* ---------- Plan operations (src/schema/apply.rs) ---------- */

  function TempName(table: string): string {
    "__seekwel_rebuild_" + table
  }

  function SharedColumns(from: seq<ColumnDef>, to: seq<ColumnDef>): seq<(string, string)> {
    if from == [] then []
    else (if HasColumn(to, from[0].name) then [(from[0].name, from[0].name)] else []) + SharedColumns(from[1..], to)
  }

  /** `retained_columns`: the key feeds the key, every surviving column feeds its namesake. */
  function Retained(from: TableDef, to: TableDef): seq<(string, string)> {
    [(from.primaryKey.name, to.primaryKey.name)] + SharedColumns(from.columns, to.columns)
  }

  /** The first half of `rebuild_table`: create under a temporary name, copy, drop, rename. */
  function RunSwap(engine: Engine, db: Tables, table: string, from: TableDef, to: TableDef): Result<Tables, SqlError> {
    match RunCreateTable(db, TempName(table), to)
    case Err(e) => Err(e)
    case Ok(created) =>
      match RunCopy(engine, created, table, TempName(table), Retained(from, to))
      case Err(e) => Err(e)
      case Ok(copied) =>
        match RunDropTable(copied, table)
        case Err(e) => Err(e)
        case Ok(dropped) => RunRename(dropped, TempName(table), table)
  }

  /** `rebuild_table`: after the swap, create the indexes of the new definition and replay the
      unmanaged ones. */
  function RunRebuild(engine: Engine, db: Tables, table: string, from: TableDef, to: TableDef,
                      replay: seq<IndexDef>): Result<Tables, SqlError>
  {
    match RunSwap(engine, db, table, from, to)
    case Err(e) => Err(e)
    case Ok(swapped) =>
      match RunCreateIndexes(swapped, table, to.indexes)
      case Err(e) => Err(e)
      case Ok(indexed) => RunCreateIndexes(indexed, table, replay)
  }

  function RunOp(engine: Engine, db: Tables, actual: seq<ActualTable>, op: PlanOp): Result<Tables, SqlError> {
    match op
    case CreateTable(def) =>
      (match RunCreateTable(db, def.name, def)
       case Err(e) => Err(e)
       case Ok(next) => RunCreateIndexes(next, def.name, def.indexes))
    case AddColumn(table, column) => RunAddColumn(engine, db, table, column)
    case CreateIndex(table, index) => RunCreateIndex(db, table, index)
    case DropIndex(_, index) => RunDropIndex(db, index.name)
    case RebuildTable(table, from, to, _) =>
      (match FindActual(actual, table)
       case None => Err(NoTable)
       case Some(a) => RunRebuild(engine, db, table, from, to, a.replay))
    case DropTable(def) => RunDropTable(db, def.name)
  }

  function RunOps(engine: Engine, db: Tables, actual: seq<ActualTable>, ops: seq<PlanOp>): Result<Tables, SqlError>
    decreases |ops|
  {
    if ops == [] then Ok(db)
    else
      match RunOp(engine, db, actual, ops[0])
      case Err(e) => Err(e)
      case Ok(next) => RunOps(engine, next, actual, ops[1..])
  }
}
