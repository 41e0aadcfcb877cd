/** Operations on different tables do not interfere.  When every index name has one owning
    table and no object is called like a table under reconstruction, running a plan on the
    whole database is running each table's share of it on that table alone. */
module SchemaFrame {
  import opened Prelude
  import opened SchemaTypes
  import opened SchemaPlan
  import opened SchemaDiff
  import opened SchemaMachine

  function AddIndexes(t: LiveTable, indexes: seq<IndexDef>): Result<LiveTable, SqlError>
    decreases |indexes|
  {
    if indexes == [] then Ok(t)
    else
      match AddIndexTo(t, indexes[0])
      case Err(e) => Err(e)
      case Ok(next) => AddIndexes(next, indexes[1..])
  }

  function CreateAlone(def: TableDef): Result<LiveTable, SqlError> {
    AddIndexes(LiveTable(def.(indexes := []), map[]), def.indexes)
  }

  function SwapAlone(engine: Engine, t: LiveTable, from: TableDef, to: TableDef): Result<LiveTable, SqlError> {
    CopyInto(engine, t, LiveTable(to.(name := t.def.name, indexes := []), map[]), Retained(from, to))
  }

  function RebuildAlone(engine: Engine, t: LiveTable, from: TableDef, to: TableDef,
                        replay: seq<IndexDef>): Result<LiveTable, SqlError>
  {
    match SwapAlone(engine, t, from, to)
    case Err(e) => Err(e)
    case Ok(swapped) =>
      match AddIndexes(swapped, to.indexes)
      case Err(e) => Err(e)
      case Ok(indexed) => AddIndexes(indexed, replay)
  }

  /** The effect of an operation on its own table, `None` standing for absence. */
  function Alone(engine: Engine, t: Option<LiveTable>, actual: seq<ActualTable>,
                 op: PlanOp): Result<Option<LiveTable>, SqlError>
  {
    if op.CreateTable? then
      if t.Some? then Err(TableExists)
      else
        match CreateAlone(op.def)
        case Err(e) => Err(e)
        case Ok(n) => Ok(Some(n))
    else if t.None? then Err(if op.DropIndex? then NoIndex else NoTable)
    else if op.DropTable? then Ok(None)
    else
      var r :=
        match op
        case AddColumn(_, column) => AddColumnTo(engine, t.value, column)
        case CreateIndex(_, index) => AddIndexTo(t.value, index)
        case DropIndex(_, index) => DropIndexFrom(t.value, index.name)
        case RebuildTable(table, from, to, _) =>
          (match FindActual(actual, table)
           case None => Err(NoTable)
           case Some(a) => RebuildAlone(engine, t.value, from, to, a.replay))
        case _ => Ok(t.value);
      match r
      case Err(e) => Err(e)
      case Ok(n) => Ok(Some(n))
  }

  function Get(db: Tables, name: string): Option<LiveTable> {
    if name in db then Some(db[name]) else None
  }

  function Put(db: Tables, name: string, t: Option<LiveTable>): Tables {
    if t.Some? then db[name := t.value] else db - {name}
  }

  /* ---------- Who owns which name ---------- */

  ghost predicate Owns(owner: map<string, string>, table: string, indexes: seq<IndexDef>) {
    forall i :: i in indexes ==> i.name in owner && owner[i.name] == table
  }

  /** Tables sit under their names, index names belong to their tables, reserved names are free. */
  ghost predicate Tidy(db: Tables, owner: map<string, string>, reserved: set<string>) {
    && (forall n :: n in db ==>
         db[n].def.name == n && n !in owner && n !in reserved && Owns(owner, n, db[n].def.indexes))
    && owner.Keys !! reserved
  }

  ghost predicate TidyOp(actual: seq<ActualTable>, op: PlanOp, owner: map<string, string>, reserved: set<string>) {
    var n := op.Subject();
    && n !in owner && n !in reserved
    && (op.CreateTable? ==> Owns(owner, n, op.def.indexes))
    && (op.CreateIndex? || op.DropIndex? ==> Owns(owner, n, [op.index]))
    && (op.RebuildTable? ==>
          && op.to.name == n && TempName(n) in reserved
          && Owns(owner, n, op.to.indexes)
          && (FindActual(actual, n).Some? ==> Owns(owner, n, FindActual(actual, n).value.replay)))
  }

  lemma AddIndexToOwned(t: LiveTable, index: IndexDef, owner: map<string, string>, table: string)
    requires Owns(owner, table, t.def.indexes) && Owns(owner, table, [index])
    ensures AddIndexTo(t, index).Ok? ==>
              && Owns(owner, table, AddIndexTo(t, index).value.def.indexes)
              && AddIndexTo(t, index).value.def.name == t.def.name
  {
    assert index in [index];
  }

  lemma {:induction false} AddIndexesOwned(t: LiveTable, indexes: seq<IndexDef>, owner: map<string, string>,
                                           table: string)
    requires Owns(owner, table, t.def.indexes) && Owns(owner, table, indexes)
    ensures AddIndexes(t, indexes).Ok? ==>
              && Owns(owner, table, AddIndexes(t, indexes).value.def.indexes)
              && AddIndexes(t, indexes).value.def.name == t.def.name
    decreases |indexes|
  {
    if indexes != [] {
      assert indexes[0] in indexes;
      AddIndexToOwned(t, indexes[0], owner, table);
      var next := AddIndexTo(t, indexes[0]);
      if next.Ok? { AddIndexesOwned(next.value, indexes[1..], owner, table); }
    }
  }

  /** A name owned by `table` is free everywhere else. */
  lemma OwnedIsFree(db: Tables, owner: map<string, string>, reserved: set<string>, table: string, name: string)
    requires Tidy(db, owner, reserved) && name in owner && owner[name] == table
    ensures !TakenElsewhere(db, name, table)
    ensures forall n :: n in db && HasIndex(db[n], name) ==> n == table
  {
    forall n | n in db && HasIndex(db[n], name) ensures n == table {
      var i :| 0 <= i < |db[n].def.indexes| && db[n].def.indexes[i].name == name;
      assert db[n].def.indexes[i] in db[n].def.indexes;
    }
  }

  lemma UnownedIsNoIndex(db: Tables, owner: map<string, string>, reserved: set<string>, name: string)
    requires Tidy(db, owner, reserved) && name !in owner
    ensures !IndexNamed(db, name)
  {
    forall n | n in db ensures !HasIndex(db[n], name) {
      forall i | 0 <= i < |db[n].def.indexes| ensures db[n].def.indexes[i].name != name {
        assert db[n].def.indexes[i] in db[n].def.indexes;
      }
    }
  }

  lemma {:induction false} CreateIndexesAlone(db: Tables, table: string, indexes: seq<IndexDef>,
                                              owner: map<string, string>, reserved: set<string>)
    requires Tidy(db, owner, reserved) && table in db && Owns(owner, table, indexes)
    ensures match AddIndexes(db[table], indexes)
            case Err(e) => RunCreateIndexes(db, table, indexes) == Err(e)
            case Ok(t) => RunCreateIndexes(db, table, indexes) == Ok(db[table := t])
    decreases |indexes|
  {
    if indexes == [] {
      assert db[table := db[table]] == db;
    } else {
      assert indexes[0] in indexes;
      OwnedIsFree(db, owner, reserved, table, indexes[0].name);
      AddIndexToOwned(db[table], indexes[0], owner, table);
      var next := AddIndexTo(db[table], indexes[0]);
      if next.Ok? {
        var db' := db[table := next.value];
        CreateIndexesAlone(db', table, indexes[1..], owner, reserved);
        var rest := AddIndexes(next.value, indexes[1..]);
        if rest.Ok? { assert db'[table := rest.value] == db[table := rest.value]; }
      }
    }
  }

  /** What `Alone` says about one table, said of the whole database. */
  ghost predicate Agrees(engine: Engine, db: Tables, actual: seq<ActualTable>, op: PlanOp) {
    match Alone(engine, Get(db, op.Subject()), actual, op)
    case Err(e) => RunOp(engine, db, actual, op) == Err(e)
    case Ok(t) => RunOp(engine, db, actual, op) == Ok(Put(db, op.Subject(), t))
  }

  lemma CreateAgrees(engine: Engine, db: Tables, actual: seq<ActualTable>, op: PlanOp, owner: map<string, string>,
                     reserved: set<string>)
    requires Tidy(db, owner, reserved) && TidyOp(actual, op, owner, reserved) && op.CreateTable?
    ensures Agrees(engine, db, actual, op)
  {
    var def := op.def;
    UnownedIsNoIndex(db, owner, reserved, def.name);
    if def.name !in db {
      var blank := LiveTable(def.(indexes := []), map[]);
      assert blank == LiveTable(def.(name := def.name, indexes := []), map[]);
      var db' := db[def.name := blank];
      CreateIndexesAlone(db', def.name, def.indexes, owner, reserved);
      var r := AddIndexes(blank, def.indexes);
      if r.Ok? { assert db'[def.name := r.value] == db[def.name := r.value]; }
    }
  }

  lemma DropIndexAgrees(engine: Engine, db: Tables, actual: seq<ActualTable>, op: PlanOp, owner: map<string, string>,
                        reserved: set<string>)
    requires Tidy(db, owner, reserved) && TidyOp(actual, op, owner, reserved) && op.DropIndex?
    ensures Agrees(engine, db, actual, op)
  {
    var n := op.table;
    assert op.index in [op.index];
    OwnedIsFree(db, owner, reserved, n, op.index.name);
    if n in db && HasIndex(db[n], op.index.name) {
      var t := DropIndexFrom(db[n], op.index.name).value;
      assert (map m | m in db ::
          if HasIndex(db[m], op.index.name) then DropIndexFrom(db[m], op.index.name).value else db[m])
          == db[n := t];
    }
  }

  lemma CreateTemp(db: Tables, temp: string, to: TableDef, owner: map<string, string>, reserved: set<string>)
    requires Tidy(db, owner, reserved) && temp in reserved
    ensures temp !in db
    ensures RunCreateTable(db, temp, to) == Ok(db[temp := LiveTable(to.(name := temp, indexes := []), map[])])
  {
    UnownedIsNoIndex(db, owner, reserved, temp);
  }

  /** The name of the receiving table does not matter to the copy. */
  lemma CopyForgetsName(engine: Engine, from: LiveTable, to: LiveTable, name: string, retained: seq<(string, string)>)
    ensures CopyInto(engine, from, to.(def := to.def.(name := name)), retained)
         == match CopyInto(engine, from, to, retained)
            case Err(e) => Err(e)
            case Ok(t) => Ok(t.(def := t.def.(name := name)))
  {
  }

  lemma SwapRefused(engine: Engine, db: Tables, n: string, from: TableDef, to: TableDef, owner: map<string, string>,
                    reserved: set<string>)
    requires Tidy(db, owner, reserved) && n in db && TempName(n) in reserved
    requires SwapAlone(engine, db[n], from, to).Err?
    ensures RunSwap(engine, db, n, from, to) == Err(SwapAlone(engine, db[n], from, to).error)
  {
    CreateTemp(db, TempName(n), to, owner, reserved);
    CopyForgetsName(engine, db[n], LiveTable(to.(name := n, indexes := []), map[]), TempName(n), Retained(from, to));
  }

  lemma SwapDone(engine: Engine, db: Tables, n: string, from: TableDef, to: TableDef, owner: map<string, string>,
                 reserved: set<string>)
    requires Tidy(db, owner, reserved) && n in db && TempName(n) in reserved
    requires SwapAlone(engine, db[n], from, to).Ok?
    ensures RunSwap(engine, db, n, from, to) == Ok(db[n := SwapAlone(engine, db[n], from, to).value])
    ensures Tidy(db[n := SwapAlone(engine, db[n], from, to).value], owner, reserved)
  {
    var temp, built := TempName(n), SwapAlone(engine, db[n], from, to).value;
    CreateTemp(db, temp, to, owner, reserved);
    CopyForgetsName(engine, db[n], LiveTable(to.(name := n, indexes := []), map[]), temp, Retained(from, to));
    var copied := db[temp := built.(def := built.def.(name := temp))];
    assert db[temp := LiveTable(to.(name := temp, indexes := []), map[])][temp := copied[temp]] == copied;
    RenameBack(db, copied, n, temp, built, owner, reserved);
  }

  lemma RebuildAgrees(engine: Engine, db: Tables, n: string, from: TableDef, to: TableDef, replay: seq<IndexDef>,
                      owner: map<string, string>, reserved: set<string>)
    requires Tidy(db, owner, reserved) && n in db && TempName(n) in reserved
    requires Owns(owner, n, to.indexes) && Owns(owner, n, replay)
    ensures match RebuildAlone(engine, db[n], from, to, replay)
            case Err(e) => RunRebuild(engine, db, n, from, to, replay) == Err(e)
            case Ok(t) => RunRebuild(engine, db, n, from, to, replay) == Ok(db[n := t])
  {
    var swapped := SwapAlone(engine, db[n], from, to);
    if swapped.Err? {
      SwapRefused(engine, db, n, from, to, owner, reserved);
    } else {
      SwapDone(engine, db, n, from, to, owner, reserved);
      var t := swapped.value;
      PlacedIndexes(db, n, t, to.indexes, owner, reserved);
      AddIndexesOwned(t, to.indexes, owner, n);
      var indexed := AddIndexes(t, to.indexes);
      if indexed.Ok? {
        TidyReplaced(db, n, t, indexed.value, owner, reserved);
        PlacedIndexes(db, n, indexed.value, replay, owner, reserved);
      }
    }
  }

  /** Creating indexes on a freshly placed table only replaces that table. */
  lemma PlacedIndexes(db: Tables, n: string, t: LiveTable, indexes: seq<IndexDef>, owner: map<string, string>,
                      reserved: set<string>)
    requires Tidy(db[n := t], owner, reserved) && Owns(owner, n, indexes)
    ensures match AddIndexes(t, indexes)
            case Err(e) => RunCreateIndexes(db[n := t], n, indexes) == Err(e)
            case Ok(u) => RunCreateIndexes(db[n := t], n, indexes) == Ok(db[n := u])
  {
    CreateIndexesAlone(db[n := t], n, indexes, owner, reserved);
    var u := AddIndexes(t, indexes);
    if u.Ok? { assert db[n := t][n := u.value] == db[n := u.value]; }
  }

  lemma TidyReplaced(db: Tables, n: string, t: LiveTable, u: LiveTable, owner: map<string, string>,
                     reserved: set<string>)
    requires Tidy(db[n := t], owner, reserved)
    requires u.def.name == n && Owns(owner, n, u.def.indexes)
    ensures Tidy(db[n := u], owner, reserved)
  {
    forall m | m in db[n := u]
      ensures m !in owner && m !in reserved && db[n := u][m].def.name == m && Owns(owner, m, db[n := u][m].def.indexes)
    {
      assert m in db[n := t];
    }
  }

  /** Rebuilding a table that is not there fails at the copy. */
  lemma RebuildMissing(engine: Engine, db: Tables, n: string, from: TableDef, to: TableDef,
                       owner: map<string, string>, reserved: set<string>)
    requires Tidy(db, owner, reserved) && n !in db && TempName(n) in reserved && n !in reserved
    ensures RunSwap(engine, db, n, from, to) == Err(NoTable)
  {
    UnownedIsNoIndex(db, owner, reserved, TempName(n));
  }

  /** Dropping the old table and renaming the new one leaves only the contents replaced. */
  lemma RenameBack(db: Tables, copied: Tables, n: string, temp: string, built: LiveTable, owner: map<string, string>,
                   reserved: set<string>)
    requires Tidy(db, owner, reserved) && n in db && temp in reserved && built.def.indexes == [] && built.def.name == n
    requires copied == db[temp := built.(def := built.def.(name := temp))]
    ensures RunDropTable(copied, n) == Ok(copied - {n})
    ensures RunRename(copied - {n}, temp, n) == Ok(db[n := built])
    ensures Tidy(db[n := built], owner, reserved)
  {
    UnownedIsNoIndex(db, owner, reserved, n);
    assert !IndexNamed(copied - {n}, n) by {
      forall m | m in copied - {n} ensures !HasIndex((copied - {n})[m], n) {
        if m != temp { assert !HasIndex(db[m], n); }
      }
    }
    assert ((copied - {n}) - {temp})[n := built] == db[n := built];
  }

  /** One operation on the whole database is that operation on its own table. */
  lemma RunOpAgrees(engine: Engine, db: Tables, actual: seq<ActualTable>, op: PlanOp, owner: map<string, string>,
                    reserved: set<string>)
    requires Tidy(db, owner, reserved) && TidyOp(actual, op, owner, reserved)
    ensures Agrees(engine, db, actual, op)
  {
    match op {
      case CreateTable(_) => CreateAgrees(engine, db, actual, op, owner, reserved);
      case DropIndex(_, _) => DropIndexAgrees(engine, db, actual, op, owner, reserved);
      case RebuildTable(_, _, _, _) =>
        if op.table !in db {
          RebuildMissing(engine, db, op.table, op.from, op.to, owner, reserved);
        } else if FindActual(actual, op.table).Some? {
          RebuildAgrees(engine, db, op.table, op.from, op.to, FindActual(actual, op.table).value.replay, owner,
               reserved);
        }
      case CreateIndex(n, index) =>
        assert index in [index];
        OwnedIsFree(db, owner, reserved, n, index.name);
      case AddColumn(_, _) =>
      case DropTable(_) =>
    }
  }
}
