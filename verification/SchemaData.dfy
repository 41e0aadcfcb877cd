/** What happens to stored rows: safe plans keep every key and every cell; a rebuild copies rows
    one to one by key, carries over exactly the columns both definitions have, and loses
    exactly the columns its reason names. */
module SchemaData {
  import opened Prelude
  import opened Ordering
  import opened Affinity
  import opened SchemaTypes
  import opened SchemaPlan
  import opened SchemaDiff
  import opened SchemaDiffFacts
  import opened SqlValues
  import opened SchemaMachine
  import opened SchemaFrame

  /* ---------- Safe plans ---------- */

  /** Every row of `t` is still in `u`, with the same cell in every column `t` has. */
  ghost predicate KeepsCells(t: LiveTable, u: LiveTable) {
    && u.rows.Keys == t.rows.Keys
    && u.def.primaryKey == t.def.primaryKey
    && (forall c :: Declares(t.def, c) ==> Declares(u.def, c))
    && (forall k, c :: k in t.rows && Declares(t.def, c) ==> CellOf(u, k, c) == CellOf(t, k, c))
  }

  ghost predicate KeepsData(db: Tables, next: Tables) {
    forall n :: n in db ==> n in next && KeepsCells(db[n], next[n])
  }

  lemma KeepsDataTransitive(a: Tables, b: Tables, c: Tables)
    requires KeepsData(a, b) && KeepsData(b, c)
    ensures KeepsData(a, c)
  {
    forall n | n in a ensures n in c && KeepsCells(a[n], c[n]) {
      assert KeepsCells(a[n], b[n]) && KeepsCells(b[n], c[n]);
    }
  }

  lemma CreateIndexKeepsData(db: Tables, table: string, index: IndexDef)
    ensures RunCreateIndex(db, table, index).Ok? ==> KeepsData(db, RunCreateIndex(db, table, index).value)
  {
  }

  lemma {:induction false} CreateIndexesKeepData(db: Tables, table: string, indexes: seq<IndexDef>)
    ensures RunCreateIndexes(db, table, indexes).Ok? ==> KeepsData(db, RunCreateIndexes(db, table, indexes).value)
    decreases |indexes|
  {
    if indexes != [] {
      var next := RunCreateIndex(db, table, indexes[0]);
      if next.Ok? {
        CreateIndexKeepsData(db, table, indexes[0]);
        CreateIndexesKeepData(next.value, table, indexes[1..]);
        var done := RunCreateIndexes(next.value, table, indexes[1..]);
        if done.Ok? { KeepsDataTransitive(db, next.value, done.value); }
      }
    }
  }

  lemma AddColumnKeepsCells(engine: Engine, t: LiveTable, c: ColumnDef)
    ensures AddColumnTo(engine, t, c).Ok? ==> KeepsCells(t, AddColumnTo(engine, t, c).value)
  {
    if AddColumnTo(engine, t, c).Ok? {
      var u := AddColumnTo(engine, t, c).value;
      forall name | Declares(t.def, name) ensures Declares(u.def, name) {
        if HasColumn(t.def.columns, name) {
          var i :| 0 <= i < |t.def.columns| && t.def.columns[i].name == name;
          assert u.def.columns[i].name == name;
        }
      }
    }
  }

  lemma SafeOpKeepsData(engine: Engine, db: Tables, actual: seq<ActualTable>, op: PlanOp)
    requires !op.IsDestructive()
    ensures RunOp(engine, db, actual, op).Ok? ==> KeepsData(db, RunOp(engine, db, actual, op).value)
  {
    match op {
      case CreateTable(def) =>
        var next := RunCreateTable(db, def.name, def);
        if next.Ok? {
          assert KeepsData(db, next.value);
          CreateIndexesKeepData(next.value, def.name, def.indexes);
          var done := RunCreateIndexes(next.value, def.name, def.indexes);
          if done.Ok? { KeepsDataTransitive(db, next.value, done.value); }
        }
      case AddColumn(table, column) =>
        if table in db { AddColumnKeepsCells(engine, db[table], column); }
      case CreateIndex(table, index) => CreateIndexKeepsData(db, table, index);
      case DropIndex(_, _) =>
    }
  }

  /** A plan without destructive operations keeps every row key and every stored cell. */
  lemma {:induction false} SafePlanKeepsData(engine: Engine, db: Tables, actual: seq<ActualTable>, ops: seq<PlanOp>)
    requires forall op :: op in ops ==> !op.IsDestructive()
    ensures RunOps(engine, db, actual, ops).Ok? ==> KeepsData(db, RunOps(engine, db, actual, ops).value)
    decreases |ops|
  {
    if ops != [] {
      assert ops[0] in ops;
      SafeOpKeepsData(engine, db, actual, ops[0]);
      var next := RunOp(engine, db, actual, ops[0]);
      if next.Ok? {
        SafePlanKeepsData(engine, next.value, actual, ops[1..]);
        var done := RunOps(engine, next.value, actual, ops[1..]);
        if done.Ok? { KeepsDataTransitive(db, next.value, done.value); }
      }
    }
  }

  /* ---------- Rebuilds ---------- */

  lemma {:induction false} SharedColumnsMeaning(from: seq<ColumnDef>, to: seq<ColumnDef>)
    ensures forall p :: p in SharedColumns(from, to) <==> p.0 == p.1 && HasColumn(from, p.0) && HasColumn(to, p.0)
  {
    if from != [] {
      SharedColumnsMeaning(from[1..], to);
      forall name ensures HasColumn(from, name) <==> from[0].name == name || HasColumn(from[1..], name) {
        if HasColumn(from[1..], name) {
          var i :| 0 <= i < |from[1..]| && from[1..][i].name == name;
          assert from[i + 1].name == name;
        }
        if HasColumn(from, name) && from[0].name != name {
          var i :| 0 <= i < |from| && from[i].name == name;
          assert from[1..][i - 1].name == name;
        }
      }
    } else {
      assert forall name :: !HasColumn(from, name);
    }
  }

  lemma {:induction false} SharedColumnsDistinct(from: seq<ColumnDef>, to: seq<ColumnDef>)
    requires DistinctColumns(from)
    ensures forall i, j :: 0 <= i < j < |SharedColumns(from, to)| ==>
              SharedColumns(from, to)[i].0 != SharedColumns(from, to)[j].0
  {
    if from != [] {
      forall i, j | 0 <= i < j < |from[1..]| ensures from[1..][i].name != from[1..][j].name {
        assert from[i + 1].name != from[j + 1].name;
      }
      SharedColumnsDistinct(from[1..], to);
      SharedColumnsMeaning(from[1..], to);
      forall name | HasColumn(from[1..], name) ensures name != from[0].name {
        var i :| 0 <= i < |from[1..]| && from[1..][i].name == name;
        assert from[i + 1].name == name;
      }
      var rest := SharedColumns(from[1..], to);
      forall p | p in rest ensures p.0 != from[0].name { assert HasColumn(from[1..], p.0); }
    }
  }

  /** `retained_columns` has pairwise distinct sources and pairwise distinct destinations, all of
      which exist. */
  lemma RetainedDistinct(from: TableDef, to: TableDef)
    requires WellFormedTable(from) && WellFormedTable(to)
    ensures var r := Retained(from, to);
            && (forall i, j :: 0 <= i < j < |r| ==> r[i].0 != r[j].0 && r[i].1 != r[j].1)
            && (forall i :: 0 <= i < |r| ==> Declares(from, r[i].0) && Declares(to, r[i].1))
  {
    SharedColumnsMeaning(from.columns, to.columns);
    SharedColumnsDistinct(from.columns, to.columns);
    var shared, r := SharedColumns(from.columns, to.columns), Retained(from, to);
    forall i | 0 < i < |r| ensures r[i] == shared[i - 1] && r[i] in shared {
      assert r[i] == shared[i - 1];
    }
  }

  lemma {:induction false} SourceOfShared(pairs: seq<(string, string)>, column: string)
    requires forall p :: p in pairs ==> p.0 == p.1
    ensures SourceOf(pairs, column) == if (column, column) in pairs then Some(column) else None
  {
    if pairs != [] {
      assert pairs == [pairs[0]] + pairs[1..];
      SourceOfShared(pairs[1..], column);
    }
  }

  /** The key is fed by the key, a shared column by its namesake, a new column by nothing. */
  lemma RetainedSources(from: TableDef, to: TableDef)
    requires WellFormedTable(to)
    ensures SourceOf(Retained(from, to), to.primaryKey.name) == Some(from.primaryKey.name)
    ensures forall c :: c in to.columns ==>
              SourceOf(Retained(from, to), c.name) == if HasColumn(from.columns, c.name) then Some(c.name) else None
  {
    var shared := SharedColumns(from.columns, to.columns);
    SharedColumnsMeaning(from.columns, to.columns);
    assert Retained(from, to)[1..] == shared;
    forall c | c in to.columns
      ensures SourceOf(Retained(from, to), c.name) == if HasColumn(from.columns, c.name) then Some(c.name) else None
    {
      var i :| 0 <= i < |to.columns| && to.columns[i] == c;
      assert HasColumn(to.columns, c.name);
      SourceOfShared(shared, c.name);
    }
  }

  lemma {:induction false} NewRowCells(engine: Engine, t: LiveTable, retained: seq<(string, string)>, key: Value,
                                       cs: seq<ColumnDef>)
    requires key in t.rows && DistinctColumns(cs)
    ensures forall c :: c in cs ==>
              c.name in NewRow(engine, t, retained, key, cs)
              && NewRow(engine, t, retained, key, cs)[c.name] == NewCell(engine, t, retained, key, c)
  {
    if cs != [] {
      forall i, j | 0 <= i < j < |cs[1..]| ensures cs[1..][i].name != cs[1..][j].name {
        assert cs[i + 1].name != cs[j + 1].name;
      }
      NewRowCells(engine, t, retained, key, cs[1..]);
      forall c | c in cs[1..] ensures c.name != cs[0].name {
        var i :| 0 <= i < |cs[1..]| && cs[1..][i] == c;
        assert cs[i + 1] == c;
      }
      assert cs == [cs[0]] + cs[1..];
    }
  }

  function KeyIn(engine: Engine, to: TableDef, key: Value): Option<Value> {
    engine.storeKey(to.primaryKey.sqlType, key)
  }

  /** Row `k` of `t` is row `KeyIn(k)` of the rebuilt `u`: shared columns keep their value as
      the new affinity stores it, new columns hold their default. */
  ghost predicate RowCarried(engine: Engine, t: LiveTable, to: TableDef, u: LiveTable, k: Value)
    requires k in t.rows
  {
    var key := KeyIn(engine, to, k);
    && key.Some? && key.value in u.rows
    && forall c :: c in to.columns ==>
         CellOf(u, key.value, c.name) ==
         if HasColumn(t.def.columns, c.name) then engine.store(FromDeclaredType(c.sqlType), CellOf(t, k, c.name))
         else DefaultOf(engine, c)
  }

  /** A rebuild copies rows one to one by primary key. */
  lemma SwapCarriesRows(engine: Engine, t: LiveTable, from: TableDef, to: TableDef)
    requires WellFormedTable(t.def) && WellFormedTable(to)
    requires from.primaryKey == t.def.primaryKey && from.columns == t.def.columns
    ensures var r := SwapAlone(engine, t, from, to);
            r.Ok? ==>
              && (forall k :: k in t.rows ==> RowCarried(engine, t, to, r.value, k))
              && (forall k, l :: k in t.rows && l in t.rows && k != l ==>
                    KeyIn(engine, to, k) != KeyIn(engine, to, l))
              && (forall n :: n in r.value.rows ==> exists k :: k in t.rows && KeyIn(engine, to, k) == Some(n))
  {
    var r, retained := SwapAlone(engine, t, from, to), Retained(from, to);
    if r.Ok? {
      RetainedSources(from, to);
      forall k | k in t.rows
        ensures NewKey(engine, t, to.primaryKey, retained, k) == KeyIn(engine, to, k)
        ensures RowCarried(engine, t, to, r.value, k)
      {
        CarryRow(engine, t, from, to, r.value, k);
      }
    }
  }

  lemma CarryRow(engine: Engine, t: LiveTable, from: TableDef, to: TableDef, u: LiveTable, k: Value)
    requires WellFormedTable(to) && k in t.rows
    requires from.primaryKey == t.def.primaryKey && from.columns == t.def.columns
    requires SwapAlone(engine, t, from, to) == Ok(u)
    ensures NewKey(engine, t, to.primaryKey, Retained(from, to), k) == KeyIn(engine, to, k)
    ensures RowCarried(engine, t, to, u, k)
  {
    var retained := Retained(from, to);
    RetainedSources(from, to);
    NewRowCells(engine, t, retained, k, to.columns);
    assert map[] + CopiedRows(engine, t, to.primaryKey, to.columns, retained)
        == CopiedRows(engine, t, to.primaryKey, to.columns, retained);
    forall c | c in to.columns ensures c.name != to.primaryKey.name {
      var i :| 0 <= i < |to.columns| && to.columns[i] == c;
    }
  }

  /** Values are stored in the form their affinity gives them. */
  ghost predicate StoredStably(engine: Engine, t: LiveTable) {
    && (forall k :: k in t.rows ==> engine.storeKey(t.def.primaryKey.sqlType, k) == Some(k))
    && (forall k, c :: k in t.rows && c in t.def.columns ==>
          engine.store(FromDeclaredType(c.sqlType), CellOf(t, k, c.name)) == CellOf(t, k, c.name))
  }

  predicate SameAffinity(c: ColumnDef, d: ColumnDef) {
    c.name == d.name && FromDeclaredType(c.sqlType) == FromDeclaredType(d.sqlType)
  }

  /** Unless the key type changes keys stay put, and unless a column's affinity changes its
      cells are unchanged, whatever else the rebuild does. */
  lemma SwapKeepsUnchangedColumns(engine: Engine, t: LiveTable, from: TableDef, to: TableDef, k: Value)
    requires WellFormedTable(t.def) && WellFormedTable(to) && StoredStably(engine, t) && k in t.rows
    requires from.primaryKey == t.def.primaryKey && from.columns == t.def.columns
    requires to.primaryKey.sqlType == t.def.primaryKey.sqlType
    requires SwapAlone(engine, t, from, to).Ok?
    ensures var u := SwapAlone(engine, t, from, to).value;
            && u.rows.Keys == t.rows.Keys
            && forall c, d | c in to.columns && d in t.def.columns && SameAffinity(c, d) ::
                 CellOf(u, k, c.name) == CellOf(t, k, c.name)
  {
    SwapCarriesRows(engine, t, from, to);
    var u := SwapAlone(engine, t, from, to).value;
    forall n ensures n in u.rows <==> n in t.rows {
      if n in t.rows { assert RowCarried(engine, t, to, u, n); }
    }
    assert RowCarried(engine, t, to, u, k);
    forall c, d | c in to.columns && d in t.def.columns && SameAffinity(c, d)
      ensures CellOf(u, k, c.name) == CellOf(t, k, c.name)
    {
      var i :| 0 <= i < |t.def.columns| && t.def.columns[i] == d;
      assert HasColumn(t.def.columns, c.name);
    }
  }

  /** The columns a rebuild loses are exactly those its `DropColumns` reason names. */
  lemma LostColumnsAreNamed(d: TableDef, live: TableDef, name: string)
    ensures (HasColumn(live.columns, name) && !HasColumn(d.columns, name))
       <==> exists r :: r in Reasons(d, live) && r.DropColumns? && name in r.columns
  {
    var sorted := SortBy(ColumnKey, live.columns);
    var removed := RemovedColumns(d.columns, sorted);
    SortByElements(ColumnKey, live.columns);
    RemovedColumnsElements(d.columns, sorted);
    FindColumnMeaning(live.columns, name);
    FindColumnMeaning(d.columns, name);
    OnlyDropReasonDrops(d, live);
    if HasColumn(live.columns, name) && !HasColumn(d.columns, name) {
      var c := FindColumn(live.columns, name).value;
      assert c in sorted;
      assert name in removed;
      assert DropColumns(removed) in DropReason(removed);
      assert DropColumns(removed) in Reasons(d, live);
    }
    if r :| r in Reasons(d, live) && r.DropColumns? && name in r.columns {
      var c :| c in sorted && c.name == name && FindColumn(d.columns, c.name).None?;
      var i :| 0 <= i < |live.columns| && live.columns[i] == c;
    }
  }

  lemma OnlyDropReasonDrops(d: TableDef, live: TableDef)
    ensures forall r :: r in Reasons(d, live) && r.DropColumns? ==>
              r == DropColumns(RemovedColumns(d.columns, SortBy(ColumnKey, live.columns)))
  {
    NoDropInColumnReasons(d.columns, live.columns);
  }

  lemma {:induction false} NoDropInColumnReasons(desired: seq<ColumnDef>, live: seq<ColumnDef>)
    ensures forall r :: r in ColumnReasons(desired, live) ==> !r.DropColumns?
  {
    if desired != [] { NoDropInColumnReasons(desired[1..], live); }
  }
}
