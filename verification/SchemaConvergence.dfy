/** Planner convergence: an unblocked plan, run in its sorted order, never meets a missing or
    already existing table, column or index; it ends at the target, leaves everything outside
    its scope alone, and planning again finds nothing to do. */
module SchemaConvergence {
  import opened Prelude
  import opened Ordering
  import opened SchemaTypes
  import opened SchemaPlan
  import opened SchemaDiff
  import opened SchemaDiffFacts
  import opened SchemaIntrospect
  import opened SchemaMachine
  import opened SchemaFrame
  import opened SchemaShares
  import opened SchemaAlter

  function Kept(t: TableDef): set<IndexDef> {
    set x | x in Unmanaged(t.indexes)
  }

  /* ---------- A table that is altered in place ---------- */

  lemma AlterOpsElements(d: TableDef, live: TableDef, op: PlanOp)
    ensures op in AlterOps(d, live) <==>
            || (op.AddColumn? && op.table == d.name && op.column in d.columns
                && FindColumn(live.columns, op.column.name).None? && CanAdd(op.column))
            || (exists x :: x in d.indexes && IndexCallsFor(d.name, x, live.indexes, op))
            || (exists x :: x in live.indexes && FindIndex(d.indexes, x.name).None? && op == DropIndex(d.name, x))
  {
    var added := AddedColumns(d.columns, live.columns);
    AddedColumnsElements(d.columns, live.columns);
    SortByElements(ColumnKey, added);
    AddOpsAt(d.name, SortBy(ColumnKey, added));
    IndexOpsElements(d.name, d.indexes, live.indexes, op);
    StaleOpsElements(d.name, d.indexes, SortBy(IndexKey, live.indexes), op);
    SortByElements(IndexKey, live.indexes);
    var adds := AddOps(d.name, SortBy(ColumnKey, added));
    if op.AddColumn? && op.table == d.name && op.column in added {
      var sorted := SortBy(ColumnKey, added);
      assert op.column in sorted;
      var i :| 0 <= i < |sorted| && sorted[i] == op.column;
      assert adds[i] == op;
    }
  }

  lemma DropsOf(d: TableDef, live: TableDef, x: IndexDef)
    requires DistinctIndexes(d.indexes) && DistinctIndexes(live.indexes)
    ensures DropIndex(d.name, x) in AlterOps(d, live) <==> x in live.indexes && x !in d.indexes
  {
    AlterOpsElements(d, live, DropIndex(d.name, x));
    if x in live.indexes {
      FindIndexSelf(live.indexes, x);
      FindIndexMeaning(d.indexes, x.name);
      if x in d.indexes {
        FindIndexSelf(d.indexes, x);
        forall y | y in d.indexes ensures !IndexCallsFor(d.name, y, live.indexes, DropIndex(d.name, x)) {
          FindIndexMeaning(live.indexes, y.name);
          FindIndexSelf(d.indexes, y);
        }
      } else if FindIndex(d.indexes, x.name).Some? {
        var y := FindIndex(d.indexes, x.name).value;
        assert IndexCallsFor(d.name, y, live.indexes, DropIndex(d.name, x));
      }
    } else {
      forall y | y in d.indexes ensures !IndexCallsFor(d.name, y, live.indexes, DropIndex(d.name, x)) {
        FindIndexMeaning(live.indexes, y.name);
      }
    }
  }

  lemma CreatesOf(d: TableDef, live: TableDef, x: IndexDef)
    requires DistinctIndexes(d.indexes) && DistinctIndexes(live.indexes)
    ensures CreateIndex(d.name, x) in AlterOps(d, live) <==> x in d.indexes && x !in live.indexes
  {
    AlterOpsElements(d, live, CreateIndex(d.name, x));
    FindIndexMeaning(live.indexes, x.name);
    if x in live.indexes { FindIndexSelf(live.indexes, x); }
    if x in d.indexes && x !in live.indexes {
      assert IndexCallsFor(d.name, x, live.indexes, CreateIndex(d.name, x));
    }
  }

  lemma AddsOf(d: TableDef, live: TableDef, c: ColumnDef)
    requires RequiredColumns(d.name, d.columns, live.columns) == [] && c in d.columns
    ensures AddColumn(d.name, c) in AlterOps(d, live) <==> !HasColumn(live.columns, c.name)
  {
    AlterOpsElements(d, live, AddColumn(d.name, c));
    FindColumnMeaning(live.columns, c.name);
    RequiredColumnsEmpty(d.name, d.columns, live.columns);
    forall x | x in d.indexes ensures !IndexCallsFor(d.name, x, live.indexes, AddColumn(d.name, c)) {}
  }

  lemma AlterOpsShape(d: TableDef, live: TableDef, op: PlanOp)
    requires op in AlterOps(d, live)
    ensures op.Subject() == d.name
    ensures (op.AddColumn? && op.column in d.columns) || op.DropIndex? || (op.CreateIndex? && op.index in d.indexes)
  {
    AlterOpsElements(d, live, op);
  }

  ghost predicate ManagedTarget(d: TableDef) {
    forall x :: x in d.indexes ==> IsManaged(x.name)
  }

  lemma StartColumns(t: TableDef, d: TableDef, o: Obstacles)
    requires WellFormedTable(t) && WellFormedTable(d) && t.name == d.name
    requires Reasons(d, Report(LiveTable(t, map[]), o).table) == []
    requires RequiredColumns(d.name, d.columns, t.columns) == []
    ensures ColumnsUnderway(t, d, AlterOps(d, Report(LiveTable(t, map[]), o).table))
  {
    var live := Report(LiveTable(t, map[]), o).table;
    ReasonsEmpty(d, live);
    forall c | c in t.columns
      ensures FindColumn(d.columns, c.name).Some? && SameShape(FindColumn(d.columns, c.name).value, c)
    {
      FindColumnMeaning(d.columns, c.name);
      FindColumnSelf(t.columns, c);
    }
    forall e | e in d.columns ensures HasColumn(t.columns, e.name) <==> AddColumn(d.name, e) !in AlterOps(d, live) {
      AddsOf(d, live, e);
    }
  }

  lemma StartIndexes(t: TableDef, d: TableDef, live: TableDef)
    requires WellFormedTable(t) && WellFormedTable(d) && ManagedTarget(d)
    requires live.indexes == Managed(t.indexes)
    ensures IndexesUnderway(t, d, Kept(t), AlterOps(d, live))
  {
    hide AlterOps, Managed, Unmanaged;
    var ops := AlterOps(d, live);
    ManagedElements(t.indexes);
    ManagedDistinct(t.indexes);
    forall x ensures DropIndex(d.name, x) in ops <==> x in live.indexes && x !in d.indexes { DropsOf(d, live, x); }
    forall x ensures CreateIndex(d.name, x) in ops <==> x in d.indexes && x !in live.indexes { CreatesOf(d, live, x); }
    forall x, y | Wanted(d, Kept(t), x) && Wanted(d, Kept(t), y) && x.name == y.name ensures x == y {
      assert x in d.indexes <==> y in d.indexes;
    }
  }

  lemma StartAlteration(t: LiveTable, d: TableDef, o: Obstacles)
    requires WellFormedTable(t.def) && WellFormedTable(d) && t.def.name == d.name && ManagedTarget(d)
    requires Reasons(d, Report(t, o).table) == []
    requires RequiredColumns(d.name, d.columns, t.def.columns) == []
    ensures Underway(t, d, Kept(t.def), SortBy(OpKey, AlterOps(d, Report(t, o).table)))
  {
    hide AlterOps, Reasons, RequiredColumns, FindColumn, Managed, Unmanaged;
    var live := Report(t, o).table;
    var ops := AlterOps(d, live);
    assert Report(LiveTable(t.def, map[]), o).table == live;
    StartColumns(t.def, d, o);
    StartIndexes(t.def, d, live);
    SortByElements(OpKey, ops);
    SortBySorts(OpKey, ops);
    ManagedDistinct(t.def.indexes);
    AlterOpsDistinct(d, live);
    DistinctAfterSort(OpKey, ops);
    forall op | op in SortBy(OpKey, ops)
      ensures op.Subject() == d.name
      ensures (op.AddColumn? && op.column in d.columns) || op.DropIndex? || (op.CreateIndex? && op.index in d.indexes)
    {
      AlterOpsShape(d, live, op);
    }
  }

  /* ---------- A table that is created or rebuilt ---------- */

  /** `indexes` can be created on `t`: new distinct names, known columns. */
  ghost predicate Creatable(t: LiveTable, indexes: seq<IndexDef>) {
    && DistinctIndexes(indexes)
    && (forall x, y :: x in indexes && y in t.def.indexes ==> x.name != y.name)
    && (forall x :: x in indexes ==> Declares(t.def, x.column))
  }

  lemma CreatableTail(t: LiveTable, indexes: seq<IndexDef>)
    requires WellFormedTable(t.def) && indexes != [] && Creatable(t, indexes)
    ensures AddIndexTo(t, indexes[0]).Err? ==> AddIndexTo(t, indexes[0]).error == Constraint && t.rows != map[]
    ensures AddIndexTo(t, indexes[0]).Ok? ==> Creatable(AddIndexTo(t, indexes[0]).value, indexes[1..])
  {
    assert indexes == [indexes[0]] + indexes[1..];
    HasIndexMeaning(t, indexes[0].name);
    AddIndexWellFormed(t, indexes[0]);
    forall i, j | 0 <= i < j < |indexes[1..]| ensures indexes[1..][i].name != indexes[1..][j].name {
      assert indexes[i + 1].name != indexes[j + 1].name;
    }
    forall x | x in indexes[1..] ensures x.name != indexes[0].name {
      var i :| 0 <= i < |indexes[1..]| && indexes[1..][i] == x;
      assert indexes[i + 1] == x;
    }
  }

  lemma {:induction false} AddIndexesRuns(t: LiveTable, indexes: seq<IndexDef>)
    requires WellFormedTable(t.def) && Creatable(t, indexes)
    ensures var r := AddIndexes(t, indexes);
            match r
            case Err(e) => e == Constraint && t.rows != map[]
            case Ok(u) =>
              && WellFormedTable(u.def) && u.rows == t.rows
              && u.def.name == t.def.name && u.def.primaryKey == t.def.primaryKey && u.def.columns == t.def.columns
              && forall x :: x in u.def.indexes <==> x in t.def.indexes || x in indexes
    decreases |indexes|
  {
    if indexes != [] {
      CreatableTail(t, indexes);
      AddIndexWellFormed(t, indexes[0]);
      assert indexes == [indexes[0]] + indexes[1..];
      var next := AddIndexTo(t, indexes[0]);
      if next.Ok? { AddIndexesRuns(next.value, indexes[1..]); }
    }
  }

  lemma ColumnsMatchSelf(cs: seq<ColumnDef>)
    requires DistinctColumns(cs)
    ensures ColumnsMatch(cs, cs)
  {
    forall c | c in cs ensures FindColumn(cs, c.name) == Some(c) { FindColumnSelf(cs, c); }
  }

  /** Creating a well-formed table cannot fail on its own. */
  lemma CreateSettles(d: TableDef)
    requires WellFormedTable(d)
    ensures CreateAlone(d).Ok? && Settled(CreateAlone(d).value.def, d, {}) && CreateAlone(d).value.rows == map[]
  {
    var blank := LiveTable(d.(indexes := []), map[]);
    forall x | x in d.indexes ensures Declares(blank.def, x.column) { assert Declares(d, x.column); }
    AddIndexesRuns(blank, d.indexes);
    ColumnsMatchSelf(d.columns);
  }

  lemma {:induction false} SharedColumnsKnown(from: seq<ColumnDef>, to: seq<ColumnDef>)
    ensures forall p :: p in SharedColumns(from, to) ==> p.0 == p.1 && HasColumn(from, p.0) && HasColumn(to, p.1)
  {
    if from != [] {
      SharedColumnsKnown(from[1..], to);
      forall name | HasColumn(from[1..], name) ensures HasColumn(from, name) {
        var i :| 0 <= i < |from[1..]| && from[1..][i].name == name;
        assert from[i + 1].name == name;
      }
      assert from[0].name == from[0].name;
    }
  }

  /** Every retained pair names existing columns on both sides. */
  lemma RetainedIsKnown(from: TableDef, to: TableDef)
    ensures RetainedKnown(from, to.primaryKey, to.columns, Retained(from, to))
  {
    SharedColumnsKnown(from.columns, to.columns);
    var retained := Retained(from, to);
    forall i | 0 <= i < |retained|
      ensures Declares(from, retained[i].0)
                && (retained[i].1 == to.primaryKey.name || HasColumn(to.columns, retained[i].1))
    {
      if i > 0 { assert retained[i] in SharedColumns(from.columns, to.columns); }
    }
  }

  /** Every unmanaged index of the table names a column that the target keeps. */
  ghost predicate ReplaysKept(t: TableDef, d: TableDef) {
    forall x :: x in Unmanaged(t.indexes) ==> Declares(d, x.column)
  }

  lemma SwapSettles(engine: Engine, t: LiveTable, from: TableDef, d: TableDef)
    requires WellFormedTable(d) && t.def.name == d.name
    requires from.primaryKey == t.def.primaryKey && from.columns == t.def.columns
    ensures var r := SwapAlone(engine, t, from, d);
            match r
            case Err(e) => e == Constraint
            case Ok(u) => WellFormedTable(u.def) && u.def == d.(indexes := []) && Creatable(u, d.indexes)
  {
    RetainedIsKnown(from, d);
    assert RetainedKnown(t.def, d.primaryKey, d.columns, Retained(from, d)) by {
      assert forall name :: Declares(t.def, name) == Declares(from, name);
    }
    assert d.(name := t.def.name) == d;
    forall x | x in d.indexes ensures Declares(d.(indexes := []), x.column) { assert Declares(d, x.column); }
  }

  /** A rebuild is stopped only by stored data, provided the unmanaged indexes it replays name
      columns that survive. */
  lemma RebuildSettles(engine: Engine, t: LiveTable, from: TableDef, d: TableDef)
    requires WellFormedTable(t.def) && WellFormedTable(d) && t.def.name == d.name && ManagedTarget(d)
    requires from.primaryKey == t.def.primaryKey && from.columns == t.def.columns
    requires ReplaysKept(t.def, d)
    ensures var r := RebuildAlone(engine, t, from, d, Unmanaged(t.def.indexes));
            match r
            case Err(e) => e == Constraint
            case Ok(u) => Settled(u.def, d, Kept(t.def))
  {
    SwapSettles(engine, t, from, d);
    var swapped := SwapAlone(engine, t, from, d);
    if swapped.Ok? {
      AddIndexesRuns(swapped.value, d.indexes);
      var indexed := AddIndexes(swapped.value, d.indexes);
      if indexed.Ok? {
        var replay := Unmanaged(t.def.indexes);
        ManagedElements(t.def.indexes);
        ManagedDistinct(t.def.indexes);
        forall x | x in replay ensures Declares(indexed.value.def, x.column) { assert Declares(d, x.column); }
        AddIndexesRuns(indexed.value, replay);
        ColumnsMatchSelf(d.columns);
      }
    }
  }

  /** Conversely, an unmanaged index on a column that the target drops always stops the rebuild. */
  lemma {:induction false} DanglingIndexStops(t: LiveTable, indexes: seq<IndexDef>, x: IndexDef)
    requires x in indexes && !Declares(t.def, x.column)
    ensures AddIndexes(t, indexes).Err?
    decreases |indexes|
  {
    assert indexes == [indexes[0]] + indexes[1..];
    var next := AddIndexTo(t, indexes[0]);
    if next.Ok? && indexes[0] != x { DanglingIndexStops(next.value, indexes[1..], x); }
  }

  lemma {:induction false} AddIndexesKeepColumns(t: LiveTable, indexes: seq<IndexDef>)
    ensures AddIndexes(t, indexes).Ok? ==>
              AddIndexes(t, indexes).value.def == t.def.(indexes := AddIndexes(t, indexes).value.def.indexes)
    decreases |indexes|
  {
    if indexes != [] {
      var next := AddIndexTo(t, indexes[0]);
      if next.Ok? { AddIndexesKeepColumns(next.value, indexes[1..]); }
    }
  }

  lemma DroppedReplayStopsRebuild(engine: Engine, t: LiveTable, from: TableDef, d: TableDef)
    requires !ReplaysKept(t.def, d)
    ensures RebuildAlone(engine, t, from, d, Unmanaged(t.def.indexes)).Err?
  {
    var x :| x in Unmanaged(t.def.indexes) && !Declares(d, x.column);
    var swapped := SwapAlone(engine, t, from, d);
    if swapped.Ok? {
      AddIndexesKeepColumns(swapped.value, d.indexes);
      var indexed := AddIndexes(swapped.value, d.indexes);
      if indexed.Ok? {
        assert !Declares(indexed.value.def, x.column);
        DanglingIndexStops(indexed.value, Unmanaged(t.def.indexes), x);
      }
    }
  }

  /* ---------- Every table's share of the plan ---------- */

  ghost predicate DistinctActual(actual: seq<ActualTable>) {
    forall i, j :: 0 <= i < j < |actual| ==> actual[i].table.name != actual[j].table.name
  }

  ghost predicate DistinctTables(ts: seq<TableDef>) {
    forall i, j :: 0 <= i < j < |ts| ==> ts[i].name != ts[j].name
  }

  lemma {:induction false} ShareWhole(ops: seq<PlanOp>, name: string, n: string)
    requires forall op :: op in ops ==> op.Subject() == name
    ensures Share(ops, n) == if n == name then ops else []
  {
    if ops != [] {
      assert ops[0] in ops;
      ShareWhole(ops[1..], name, n);
      assert ops == [ops[0]] + ops[1..];
    }
  }

  function Needed(d: TableDef, a: Option<ActualTable>): seq<PlanOp> {
    if a.Some? then TableOps(d, a.value) else [CreateTable(d)]
  }

  lemma NeededSubject(d: TableDef, a: Option<ActualTable>)
    ensures forall op :: op in Needed(d, a) ==> op.Subject() == d.name
  {
    if a.Some? && Reasons(d, a.value.table) == [] {
      forall op | op in TableOps(d, a.value) ensures op.Subject() == d.name {
        AlterOpsShape(d, a.value.table, op);
      }
    }
  }

  lemma {:induction false} ShareOfTarget(ts: seq<TableDef>, actual: seq<ActualTable>, n: string)
    requires DistinctTables(ts)
    ensures Share(TargetOps(ts, actual), n)
         == match FindTarget(ts, n)
            case None => []
            case Some(d) => Needed(d, FindActual(actual, n))
  {
    if ts != [] {
      var d := ts[0];
      var head := Needed(d, FindActual(actual, d.name));
      forall i, j | 0 <= i < j < |ts[1..]| ensures ts[1..][i].name != ts[1..][j].name {
        assert ts[i + 1].name != ts[j + 1].name;
      }
      ShareOfTarget(ts[1..], actual, n);
      NeededSubject(d, FindActual(actual, d.name));
      ShareWhole(head, d.name, n);
      assert TargetOps(ts, actual) == head + TargetOps(ts[1..], actual);
      ShareAppend(head, TargetOps(ts[1..], actual), n);
      if d.name == n {
        FindTargetMeaning(ts[1..], n);
        forall t | t in ts[1..] ensures t.name != n {
          var i :| 0 <= i < |ts[1..]| && ts[1..][i] == t;
          assert ts[i + 1] == t;
        }
      }
    }
  }

  lemma {:induction false} FindActualMeaning(actual: seq<ActualTable>, n: string)
    ensures FindActual(actual, n).None? <==> forall a :: a in actual ==> a.table.name != n
    ensures FindActual(actual, n).Some? ==>
              FindActual(actual, n).value in actual && FindActual(actual, n).value.table.name == n
  {
    if actual != [] {
      FindActualMeaning(actual[1..], n);
      assert actual == [actual[0]] + actual[1..];
    }
  }

  lemma {:induction false} ShareOfSurplus(ts: seq<TableDef>, actual: seq<ActualTable>, n: string)
    requires DistinctActual(actual)
    ensures Share(SurplusOps(ts, actual), n)
         == if FindTarget(ts, n).None? && FindActual(actual, n).Some? then
              [DropTable(FindActual(actual, n).value.table)]
            else []
  {
    if actual != [] {
      var name := actual[0].table.name;
      var head := if FindTarget(ts, name).None? then [DropTable(actual[0].table)] else [];
      forall i, j | 0 <= i < j < |actual[1..]| ensures actual[1..][i].table.name != actual[1..][j].table.name {
        assert actual[i + 1].table.name != actual[j + 1].table.name;
      }
      ShareOfSurplus(ts, actual[1..], n);
      ShareWhole(head, name, n);
      ShareAppend(head, SurplusOps(ts, actual[1..]), n);
      if name == n {
        FindActualMeaning(actual[1..], n);
        forall a | a in actual[1..] ensures a.table.name != n {
          var i :| 0 <= i < |actual[1..]| && actual[1..][i] == a;
          assert actual[i + 1] == a;
        }
      }
    }
  }

  /** What the sorted plan holds for table `n`. */
  lemma ShareOfPlan(target: SchemaDef, actual: seq<ActualTable>, n: string)
    requires DistinctTables(target.tables) && DistinctActual(actual)
    ensures Share(SortBy(OpKey, TargetOps(target.tables, actual) + SurplusOps(target.tables, actual)), n)
         == match FindTarget(target.tables, n)
            case Some(d) => SortBy(OpKey, Needed(d, FindActual(actual, n)))
            case None => if FindActual(actual, n).Some? then [DropTable(FindActual(actual, n).value.table)] else []
  {
    var ts := target.tables;
    ShareOfSorted(TargetOps(ts, actual) + SurplusOps(ts, actual), n);
    ShareAppend(TargetOps(ts, actual), SurplusOps(ts, actual), n);
    ShareOfTarget(ts, actual, n);
    ShareOfSurplus(ts, actual, n);
    if FindTarget(ts, n).Some? {
      var needed := Needed(FindTarget(ts, n).value, FindActual(actual, n));
      assert needed + [] == needed;
    }
  }
}
