/** Exactly when an unblocked plan runs to the end, and what a completed one has done with the
    rows: conditions on the stored data that can be checked before the plan is run. */
module SchemaFit {
  import opened Prelude
  import opened Ordering
  import opened Affinity
  import opened SqlValues
  import opened SchemaTypes
  import opened SchemaNormalForm
  import opened SchemaPlan
  import opened SchemaDiff
  import opened SchemaDiffFacts
  import opened SchemaIntrospect
  import opened SchemaMachine
  import opened SchemaFrame
  import opened SchemaShares
  import opened SchemaAlter
  import opened SchemaConvergence
  import opened SchemaTheorems
  import opened SchemaData
  import opened SchemaApply
  import opened SchemaRuns

  /* ---------- Altered tables ---------- */

  /** What row `k` will hold in a column once the missing columns are added. */
  function AlteredCell(engine: Engine, t: LiveTable, d: TableDef, k: Value, column: string): Value
    requires k in t.rows
  {
    if Declares(t.def, column) then CellOf(t, k, column)
    else
      match FindColumn(d.columns, column)
      case None => Null
      case Some(c) => DefaultOf(engine, c)
  }

  predicate AlteredRepeats(engine: Engine, t: LiveTable, d: TableDef, column: string) {
    exists k, l :: k in t.rows && l in t.rows && k != l
                   && AlteredCell(engine, t, d, k, column) == AlteredCell(engine, t, d, l, column)
                   && AlteredCell(engine, t, d, k, column) != Null
  }

  /** An added column finds a value for every row. */
  predicate Fills(engine: Engine, t: LiveTable, c: ColumnDef) {
    c.nullable || t.rows == map[] || DefaultOf(engine, c) != Null
  }

  /** The stored data allows what is left to run. */
  ghost predicate OpsFit(engine: Engine, t: LiveTable, d: TableDef, ops: seq<PlanOp>) {
    && (forall c :: AddColumn(d.name, c) in ops ==> Fills(engine, t, c))
    && (forall x :: CreateIndex(d.name, x) in ops && x.unique ==> !AlteredRepeats(engine, t, d, x.column))
  }

  /** Tables that look alike to everything still to come. */
  ghost predicate SameCells(engine: Engine, t: LiveTable, u: LiveTable, d: TableDef) {
    && u.rows.Keys == t.rows.Keys
    && forall k, column :: k in t.rows ==> AlteredCell(engine, u, d, k, column) == AlteredCell(engine, t, d, k, column)
  }

  lemma SameCellsFit(engine: Engine, t: LiveTable, u: LiveTable, d: TableDef, ops: seq<PlanOp>)
    requires SameCells(engine, t, u, d)
    ensures OpsFit(engine, u, d, ops) <==> OpsFit(engine, t, d, ops)
  {
    hide AlteredCell;
    assert u.rows == map[] <==> u.rows.Keys == {};
    assert t.rows == map[] <==> t.rows.Keys == {};
    forall column ensures AlteredRepeats(engine, u, d, column) <==> AlteredRepeats(engine, t, d, column) {
    }
  }

  lemma AddColumnSameCells(engine: Engine, t: LiveTable, d: TableDef, c: ColumnDef)
    requires AddColumnTo(engine, t, c).Ok? && FindColumn(d.columns, c.name) == Some(c)
    ensures SameCells(engine, t, AddColumnTo(engine, t, c).value, d)
  {
    var u := AddColumnTo(engine, t, c).value;
    forall k, column | k in t.rows
      ensures AlteredCell(engine, u, d, k, column) == AlteredCell(engine, t, d, k, column)
    {
      HasColumnAppend(t.def.columns, c, column);
    }
  }

  lemma IndexSameCells(engine: Engine, t: LiveTable, indexes: seq<IndexDef>, d: TableDef)
    ensures SameCells(engine, t, t.(def := t.def.(indexes := indexes)), d)
  {
  }

  lemma OpsFitTail(engine: Engine, t: LiveTable, d: TableDef, ops: seq<PlanOp>)
    requires ops != []
    ensures OpsFit(engine, t, d, ops) <==>
            && OpsFit(engine, t, d, ops[1..])
            && (forall c :: ops[0] == AddColumn(d.name, c) ==> Fills(engine, t, c))
            && (forall x :: ops[0] == CreateIndex(d.name, x) && x.unique ==> !AlteredRepeats(engine, t, d, x.column))
  {
    hide Fills, AlteredRepeats;
    assert ops == [ops[0]] + ops[1..];
  }

  /** One operation runs exactly when the data allows it, and then leaves the rest of the condition
      as it was. */
  lemma StepFits(engine: Engine, t: LiveTable, d: TableDef, keep: set<IndexDef>, actual: seq<ActualTable>,
                 ops: seq<PlanOp>)
    requires Underway(t, d, keep, ops) && ops != []
    ensures var next := Alone(engine, Some(t), actual, ops[0]);
            && (next.Err? ==> !OpsFit(engine, t, d, ops))
            && (next.Ok? ==>
                 && next.value.Some? && Underway(next.value.value, d, keep, ops[1..])
                 && OpsFit(engine, next.value.value, d, ops[1..]) == OpsFit(engine, t, d, ops))
  {
    hide ColumnsUnderway, IndexesUnderway;
    var op := ops[0];
    assert op in ops;
    OpsFitTail(engine, t, d, ops);
    if op.DropIndex? {
      StepDropIndex(t, d, keep, ops);
      IndexSameCells(engine, t, RemoveIndex(t.def.indexes, op.index.name), d);
      SameCellsFit(engine, t, DropIndexFrom(t, op.index.name).value, d, ops[1..]);
    } else if op.AddColumn? {
      StepAddColumn(engine, t, d, keep, ops);
      FindColumnSelf(d.columns, op.column);
      if AddColumnTo(engine, t, op.column).Ok? {
        AddColumnSameCells(engine, t, d, op.column);
        SameCellsFit(engine, t, AddColumnTo(engine, t, op.column).value, d, ops[1..]);
      }
    } else {
      StepCreateIndex(t, d, keep, ops);
      CreateIndexFits(engine, t, d, op.index);
      if AddIndexTo(t, op.index).Ok? {
        IndexSameCells(engine, t, t.def.indexes + [op.index], d);
        SameCellsFit(engine, t, AddIndexTo(t, op.index).value, d, ops[1..]);
      }
    }
  }

  lemma CreateIndexFits(engine: Engine, t: LiveTable, d: TableDef, x: IndexDef)
    requires AddIndexTo(t, x).Err? ==> AddIndexTo(t, x).error == Constraint
    ensures AddIndexTo(t, x).Ok? <==> !(x.unique && AlteredRepeats(engine, t, d, x.column))
  {
    assert Declares(t.def, x.column);
    assert HasDuplicates(t, x.column) <==> AlteredRepeats(engine, t, d, x.column);
  }

  /** The operations of an altered table run to the end exactly when the data allows them all. */
  lemma {:induction false} AlterationRunsExactly(engine: Engine, t: LiveTable, d: TableDef, keep: set<IndexDef>,
                                                 actual: seq<ActualTable>, ops: seq<PlanOp>)
    requires Underway(t, d, keep, ops)
    ensures RunShare(engine, Some(t), actual, ops).Ok? <==> OpsFit(engine, t, d, ops)
    decreases |ops|
  {
    hide Underway, OpsFit, Alone;
    if ops == [] {
      NothingLeft(engine, t, d);
    } else {
      StepFits(engine, t, d, keep, actual, ops);
      var next := Alone(engine, Some(t), actual, ops[0]);
      if next.Ok? {
        AlterationRunsExactly(engine, next.value.value, d, keep, actual, ops[1..]);
      }
    }
  }

  lemma NothingLeft(engine: Engine, t: LiveTable, d: TableDef)
    ensures OpsFit(engine, t, d, [])
  {
  }

  /** The condition in the caller's terms: added columns find a value for every row, and new unique
      indexes find no value twice. */
  ghost predicate AlterFits(engine: Engine, t: LiveTable, d: TableDef) {
    && (forall c :: c in d.columns && !HasColumn(t.def.columns, c.name) ==> Fills(engine, t, c))
    && (forall x :: x in d.indexes && x !in t.def.indexes && x.unique ==> !AlteredRepeats(engine, t, d, x.column))
  }

  lemma AlterOpsFit(engine: Engine, t: LiveTable, d: TableDef, o: Obstacles)
    requires WellFormedTable(t.def) && WellFormedTable(d) && ManagedTarget(d)
    requires RequiredColumns(d.name, d.columns, t.def.columns) == []
    ensures OpsFit(engine, t, d, SortBy(OpKey, AlterOps(d, Report(t, o).table))) <==> AlterFits(engine, t, d)
  {
    hide Fills, AlteredRepeats, AlterOps, Managed, Unmanaged;
    var live := Report(t, o).table;
    var ops := AlterOps(d, live);
    SortByElements(OpKey, ops);
    ManagedElements(t.def.indexes);
    ManagedDistinct(t.def.indexes);
    forall x ensures CreateIndex(d.name, x) in ops <==> x in d.indexes && x !in t.def.indexes {
      CreatesOf(d, live, x);
    }
    forall c ensures AddColumn(d.name, c) in ops <==> c in d.columns && !HasColumn(t.def.columns, c.name) {
      if AddColumn(d.name, c) in ops { AlterOpsShape(d, live, AddColumn(d.name, c)); }
      if c in d.columns { AddsOf(d, live, c); }
    }
  }

  /* ---------- Rebuilt tables ---------- */

  /** What row `k` will hold in a column of the rebuilt table. */
  function RebuiltCell(engine: Engine, t: LiveTable, d: TableDef, k: Value, column: string): Value
    requires k in t.rows
  {
    if column == d.primaryKey.name then
      match KeyIn(engine, d, k)
      case None => Null
      case Some(key) => key
    else
      match FindColumn(d.columns, column)
      case None => Null
      case Some(c) =>
        if HasColumn(t.def.columns, column) then engine.store(FromDeclaredType(c.sqlType), CellOf(t, k, column))
        else DefaultOf(engine, c)
  }

  predicate RebuiltRepeats(engine: Engine, t: LiveTable, d: TableDef, column: string) {
    exists k, l :: k in t.rows && l in t.rows && k != l
                   && RebuiltCell(engine, t, d, k, column) == RebuiltCell(engine, t, d, l, column)
                   && RebuiltCell(engine, t, d, k, column) != Null
  }

  /** Every key converts, to a key of its own, and no `NOT NULL` column is left empty. */
  predicate RowsFit(engine: Engine, t: LiveTable, d: TableDef) {
    && (forall k :: k in t.rows ==> KeyIn(engine, d, k).Some?)
    && (forall k, l :: k in t.rows && l in t.rows && k != l ==> KeyIn(engine, d, k) != KeyIn(engine, d, l))
    && (forall k, i :: k in t.rows && 0 <= i < |d.columns| && !d.columns[i].nullable ==>
          RebuiltCell(engine, t, d, k, d.columns[i].name) != Null)
  }

  /** The rows can be copied, every index of the user's own sits on a column that stays, and no
      unique index finds a value twice. */
  ghost predicate RebuildFits(engine: Engine, t: LiveTable, d: TableDef) {
    && RowsFit(engine, t, d)
    && ReplaysKept(t.def, d)
    && (forall x :: (x in d.indexes || x in Unmanaged(t.def.indexes)) && x.unique ==>
          !RebuiltRepeats(engine, t, d, x.column))
  }

  lemma NewCellIsRebuilt(engine: Engine, t: LiveTable, from: TableDef, d: TableDef, k: Value, i: nat)
    requires WellFormedTable(d) && k in t.rows && i < |d.columns|
    requires from.primaryKey == t.def.primaryKey && from.columns == t.def.columns
    ensures NewCell(engine, t, Retained(from, d), k, d.columns[i]) == RebuiltCell(engine, t, d, k, d.columns[i].name)
    ensures NewKey(engine, t, d.primaryKey, Retained(from, d), k) == KeyIn(engine, d, k)
  {
    hide Retained, SourceOf;
    RetainedSources(from, d);
    FindColumnSelf(d.columns, d.columns[i]);
    assert HasColumn(d.columns, d.columns[i].name);
  }

  lemma SwapRunsExactly(engine: Engine, t: LiveTable, from: TableDef, d: TableDef)
    requires WellFormedTable(d) && t.def.name == d.name
    requires from.primaryKey == t.def.primaryKey && from.columns == t.def.columns
    ensures SwapAlone(engine, t, from, d).Ok? <==> RowsFit(engine, t, d)
  {
    hide Retained, SourceOf, NewCell, RebuiltCell, NewKey, WellFormedTable;
    var retained := Retained(from, d);
    RetainedIsKnown(from, d);
    assert RetainedKnown(t.def, d.primaryKey, d.columns, retained) by {
      assert forall name :: Declares(t.def, name) == Declares(from, name);
    }
    forall k | k in t.rows ensures NewKey(engine, t, d.primaryKey, retained, k) == KeyIn(engine, d, k) {
      KeyCopied(engine, t, from, d, k);
    }
    forall k, i | k in t.rows && 0 <= i < |d.columns|
      ensures NewCell(engine, t, retained, k, d.columns[i]) == RebuiltCell(engine, t, d, k, d.columns[i].name)
    {
      NewCellIsRebuilt(engine, t, from, d, k, i);
    }
    assert CopyAllowed(engine, t, d.primaryKey, d.columns, retained) <==> RowsFit(engine, t, d);
  }

  lemma KeyCopied(engine: Engine, t: LiveTable, from: TableDef, d: TableDef, k: Value)
    requires WellFormedTable(d) && k in t.rows
    requires from.primaryKey == t.def.primaryKey && from.columns == t.def.columns
    ensures NewKey(engine, t, d.primaryKey, Retained(from, d), k) == KeyIn(engine, d, k)
  {
    hide Retained, SourceOf;
    RetainedSources(from, d);
  }

  /** Indexes can be created exactly when no unique one finds a value twice. */
  lemma {:induction false} AddIndexesExactly(t: LiveTable, indexes: seq<IndexDef>)
    requires WellFormedTable(t.def) && Creatable(t, indexes)
    ensures AddIndexes(t, indexes).Ok? <==> forall x :: x in indexes && x.unique ==> !HasDuplicates(t, x.column)
    decreases |indexes|
  {
    if indexes != [] {
      CreatableTail(t, indexes);
      AddIndexWellFormed(t, indexes[0]);
      assert indexes == [indexes[0]] + indexes[1..];
      var next := AddIndexTo(t, indexes[0]);
      if next.Ok? {
        AddIndexesExactly(next.value, indexes[1..]);
        SameDuplicates(t, next.value);
      }
    }
  }

  lemma SameDuplicates(t: LiveTable, u: LiveTable)
    requires u.rows == t.rows && u.def.primaryKey == t.def.primaryKey
    ensures forall column :: HasDuplicates(u, column) <==> HasDuplicates(t, column)
  {
    forall column ensures HasDuplicates(u, column) <==> HasDuplicates(t, column) {
    }
  }

  /** A rebuilt table holds a value twice exactly when the copied cells do. */
  lemma RebuiltDuplicates(engine: Engine, t: LiveTable, from: TableDef, d: TableDef, column: string)
    requires WellFormedTable(t.def) && WellFormedTable(d) && t.def.name == d.name && Declares(d, column)
    requires from.primaryKey == t.def.primaryKey && from.columns == t.def.columns
    requires SwapAlone(engine, t, from, d).Ok?
    ensures HasDuplicates(SwapAlone(engine, t, from, d).value, column) <==> RebuiltRepeats(engine, t, d, column)
  {
    var u := SwapAlone(engine, t, from, d).value;
    SwapSettles(engine, t, from, d);
    SwapCarriesRows(engine, t, from, d);
    hide SwapAlone, WellFormedTable, Retained;
    forall k | k in t.rows
      ensures RowCarried(engine, t, d, u, k)
                && CellOf(u, KeyIn(engine, d, k).value, column) == RebuiltCell(engine, t, d, k, column)
    {
      CarriedCell(engine, t, d, u, k, column);
    }
    hide CellOf, RebuiltCell;
    if HasDuplicates(u, column) {
      var m, n :| m in u.rows && n in u.rows && m != n && CellOf(u, m, column) == CellOf(u, n, column)
                  && CellOf(u, m, column) != Null;
      var k :| k in t.rows && KeyIn(engine, d, k) == Some(m);
      var l :| l in t.rows && KeyIn(engine, d, l) == Some(n);
      assert RebuiltCell(engine, t, d, k, column) == RebuiltCell(engine, t, d, l, column);
    }
    if RebuiltRepeats(engine, t, d, column) {
      var k, l :| k in t.rows && l in t.rows && k != l
                  && RebuiltCell(engine, t, d, k, column) == RebuiltCell(engine, t, d, l, column)
                  && RebuiltCell(engine, t, d, k, column) != Null;
      var m, n := KeyIn(engine, d, k).value, KeyIn(engine, d, l).value;
      assert m != n && CellOf(u, m, column) == CellOf(u, n, column);
    }
  }

  lemma CarriedCell(engine: Engine, t: LiveTable, d: TableDef, u: LiveTable, k: Value, column: string)
    requires k in t.rows && RowCarried(engine, t, d, u, k) && WellFormedTable(d) && Declares(d, column)
    requires u.def.primaryKey == d.primaryKey
    ensures CellOf(u, KeyIn(engine, d, k).value, column) == RebuiltCell(engine, t, d, k, column)
  {
    if column != d.primaryKey.name {
      FindColumnMeaning(d.columns, column);
      var c := FindColumn(d.columns, column).value;
      assert c in d.columns;
    }
  }

  /** A rebuild runs to the end exactly when the data and the user's own indexes allow it. */
  lemma RebuildRunsExactly(engine: Engine, t: LiveTable, from: TableDef, d: TableDef)
    requires WellFormedTable(t.def) && WellFormedTable(d) && t.def.name == d.name && ManagedTarget(d)
    requires from.primaryKey == t.def.primaryKey && from.columns == t.def.columns
    ensures RebuildAlone(engine, t, from, d, Unmanaged(t.def.indexes)).Ok? <==> RebuildFits(engine, t, d)
  {
    hide RowsFit, ReplaysKept, RebuiltRepeats, SwapAlone, AddIndexes, WellFormedTable, ManagedTarget, Unmanaged;
    SwapRunsExactly(engine, t, from, d);
    if !ReplaysKept(t.def, d) {
      DroppedReplayStopsRebuild(engine, t, from, d);
    } else if SwapAlone(engine, t, from, d).Ok? {
      IndexesRunExactly(engine, t, from, d);
    }
  }

  lemma IndexesRunExactly(engine: Engine, t: LiveTable, from: TableDef, d: TableDef)
    requires WellFormedTable(t.def) && WellFormedTable(d) && t.def.name == d.name && ManagedTarget(d)
    requires from.primaryKey == t.def.primaryKey && from.columns == t.def.columns
    requires ReplaysKept(t.def, d) && SwapAlone(engine, t, from, d).Ok?
    ensures RebuildAlone(engine, t, from, d, Unmanaged(t.def.indexes)).Ok? <==>
            forall x :: (x in d.indexes || x in Unmanaged(t.def.indexes)) && x.unique ==>
              !RebuiltRepeats(engine, t, d, x.column)
  {
    var swapped, replay := SwapAlone(engine, t, from, d).value, Unmanaged(t.def.indexes);
    SwapSettles(engine, t, from, d);
    AddIndexesRuns(swapped, d.indexes);
    AddIndexesExactly(swapped, d.indexes);
    forall x | x in d.indexes || x in replay
      ensures HasDuplicates(swapped, x.column) <==> RebuiltRepeats(engine, t, d, x.column)
    {
      assert Declares(d, x.column);
      RebuiltDuplicates(engine, t, from, d, x.column);
    }
    var indexed := AddIndexes(swapped, d.indexes);
    if indexed.Ok? {
      ReplayCreatable(t, d, indexed.value);
      AddIndexesExactly(indexed.value, replay);
      SameDuplicates(swapped, indexed.value);
    }
  }

  lemma ReplayCreatable(t: LiveTable, d: TableDef, u: LiveTable)
    requires WellFormedTable(t.def) && WellFormedTable(u.def) && ManagedTarget(d) && ReplaysKept(t.def, d)
    requires u.def.primaryKey == d.primaryKey && u.def.columns == d.columns
    requires forall x :: x in u.def.indexes ==> x in d.indexes
    ensures Creatable(u, Unmanaged(t.def.indexes))
  {
    ManagedElements(t.def.indexes);
    ManagedDistinct(t.def.indexes);
    forall x | x in Unmanaged(t.def.indexes) ensures Declares(u.def, x.column) { assert Declares(d, x.column); }
  }

  /* ---------- Whole plans ---------- */

  /** The stored rows of a live table allow its target. */
  ghost predicate TableFits(engine: Engine, t: LiveTable, d: TableDef) {
    if Reasons(d, t.def) == [] then AlterFits(engine, t, d) else RebuildFits(engine, t, d)
  }

  ghost predicate PlanFits(engine: Engine, target: SchemaDef, db: Tables) {
    forall d :: d in target.tables && d.name in db ==> TableFits(engine, db[d.name], d)
  }

  lemma AlterShareExactly(engine: Engine, t: LiveTable, d: TableDef, o: Obstacles, actual: seq<ActualTable>)
    requires WellFormedTable(t.def) && WellFormedTable(d) && t.def.name == d.name && ManagedTarget(d)
    requires Reasons(d, Report(t, o).table) == [] && TableBlockers(d, Report(t, o)) == []
    ensures RunShare(engine, Some(t), actual, SortBy(OpKey, TableOps(d, Report(t, o)))).Ok? <==> AlterFits(engine, t, d)
  {
    hide WellFormedTable, ManagedTarget, Underway, RunShare, Reasons, AlterOps, OpsFit, AlterFits, SortBy;
    StartAlteration(t, d, o);
    AlterationRunsExactly(engine, t, d, Kept(t.def), actual, SortBy(OpKey, AlterOps(d, Report(t, o).table)));
    AlterOpsFit(engine, t, d, o);
  }

  lemma RebuildShare(engine: Engine, t: LiveTable, d: TableDef, o: Obstacles, actual: seq<ActualTable>)
    requires Reasons(d, Report(t, o).table) != [] && FindActual(actual, d.name) == Some(Report(t, o))
    ensures RunShare(engine, Some(t), actual, SortBy(OpKey, TableOps(d, Report(t, o))))
         == match RebuildAlone(engine, t, Report(t, o).table, d, Report(t, o).replay)
            case Err(e) => Err(e)
            case Ok(u) => Ok(Some(u))
  {
    hide Reasons, FindActual, RebuildAlone;
    var a := Report(t, o);
    var op := RebuildTable(d.name, a.table, d, Reasons(d, a.table));
    assert SortBy(OpKey, [op]) == [op];
    assert [op][1..] == [];
    assert Alone(engine, Some(t), actual, op)
        == match RebuildAlone(engine, t, a.table, d, a.replay)
           case Err(e) => Err(e)
           case Ok(u) => Ok(Some(u));
  }

  lemma SameReasons(t: LiveTable, d: TableDef, o: Obstacles)
    ensures Reasons(d, Report(t, o).table) == Reasons(d, t.def)
  {
    hide KeyReasons, ColumnReasons, RemovedColumns;
    assert KeyReasons(d, Report(t, o).table) == KeyReasons(d, t.def) by { SameKeyReasons(t, d, o); }
  }

  lemma SameKeyReasons(t: LiveTable, d: TableDef, o: Obstacles)
    ensures KeyReasons(d, Report(t, o).table) == KeyReasons(d, t.def)
  {
  }

  lemma TableRunsExactly(engine: Engine, t: LiveTable, d: TableDef, o: Obstacles, actual: seq<ActualTable>)
    requires WellFormedTable(t.def) && WellFormedTable(d) && t.def.name == d.name && ManagedTarget(d)
    requires TableBlockers(d, Report(t, o)) == [] && FindActual(actual, d.name) == Some(Report(t, o))
    ensures RunShare(engine, Some(t), actual, SortBy(OpKey, TableOps(d, Report(t, o)))).Ok? <==> TableFits(engine, t, d)
  {
    hide WellFormedTable, ManagedTarget, RunShare, Reasons, AlterFits, RebuildFits, SortBy, TableOps, RebuildAlone,
         TableBlockers, FindActual;
    SameReasons(t, d, o);
    if Reasons(d, t.def) == [] {
      AlterShareExactly(engine, t, d, o, actual);
    } else {
      RebuildShare(engine, t, d, o, actual);
      RebuildRunsExactly(engine, t, Report(t, o).table, d);
    }
  }

  lemma TargetRunsExactly(engine: Engine, target: SchemaDef, db: Tables, names: seq<string>,
                          obstacles: string -> Obstacles, owner: map<string, string>, t: TableDef)
    requires IsNormal(target) && WellFormedDb(db) && NamesApart(target, db, owner)
    requires t in target.tables && t.name in names
    requires TargetBlockers(target.tables, Introspect(db, names, obstacles)) == []
    ensures var actual := Introspect(db, names, obstacles);
            RunShare(engine, Get(db, t.name), actual, SortBy(OpKey, Needed(t, FindActual(actual, t.name)))).Ok?
            <==> (t.name in db ==> TableFits(engine, db[t.name], t))
  {
    hide TableBlockers, IsNormal, Introspect, TableFits, RunShare, WellFormedTable, TableOps, Report, SortBy;
    var actual := Introspect(db, names, obstacles);
    IsNormalMeaning(target);
    IntrospectFinds(db, names, obstacles, t.name);
    TargetBlockersEmpty(target.tables, actual);
    if t.name in db {
      TableRunsExactly(engine, db[t.name], t, obstacles(t.name), actual);
    } else {
      CreateRuns(engine, actual, t);
    }
  }

  /** The share of one name: a target table that exists runs exactly when it fits, all others always
      run. */
  lemma ShareRunsExactly(engine: Engine, target: SchemaDef, db: Tables, names: seq<string>,
                         obstacles: string -> Obstacles, d: DiffResult, owner: map<string, string>, n: string)
    requires IsNormal(target) && WellFormedDb(db) && Ascending(names) && NamesApart(target, db, owner)
    requires forall t :: t in target.tables ==> t.name in names
    requires Diff(target, Introspect(db, names, obstacles)) == Ok(d) && d.blockers == []
    ensures var found := FindTarget(target.tables, n);
            RunShare(engine, Get(db, n), Introspect(db, names, obstacles), Share(d.ops, n)).Ok?
            <==> (found.Some? && n in db ==> TableFits(engine, db[n], found.value))
  {
    hide TargetBlockers, SurplusBlockers, TargetOps, SurplusOps, Introspect, Needed, IsNormal, NamesApart, TableFits,
         RunShare;
    var actual := Introspect(db, names, obstacles);
    IsNormalMeaning(target);
    IntrospectLists(db, names, obstacles);
    IntrospectFinds(db, names, obstacles, n);
    ShareOfPlan(target, actual, n);
    SortedEmpty(BlockerKey, TargetBlockers(target.tables, actual) + SurplusBlockers(target.tables, actual));
    FindTargetMeaning(target.tables, n);
    if FindTarget(target.tables, n).Some? {
      TargetRunsExactly(engine, target, db, names, obstacles, owner, FindTarget(target.tables, n).value);
    } else {
      SurplusConverges(engine, db, actual, n);
    }
  }

  lemma CreateRuns(engine: Engine, actual: seq<ActualTable>, d: TableDef)
    requires WellFormedTable(d)
    ensures RunShare(engine, None, actual, SortBy(OpKey, [CreateTable(d)])).Ok?
  {
    hide WellFormedTable;
    assert SortBy(OpKey, [CreateTable(d)]) == [CreateTable(d)];
    CreateSettles(d);
  }

  /** Exactly when an unblocked plan runs to the end: when the stored rows of every altered or rebuilt
      table allow its target.  Anything else stops it. */
  lemma PlanRunsExactly(engine: Engine, target: SchemaDef, db: Tables, names: seq<string>,
                        obstacles: string -> Obstacles, d: DiffResult, owner: map<string, string>)
    requires IsNormal(target) && WellFormedDb(db) && Ascending(names) && NamesApart(target, db, owner)
    requires forall t :: t in target.tables ==> t.name in names
    requires Diff(target, Introspect(db, names, obstacles)) == Ok(d) && d.blockers == []
    ensures RunOps(engine, db, Introspect(db, names, obstacles), d.ops).Ok? <==> PlanFits(engine, target, db)
  {
    hide Diff, Introspect, IsNormal, TableFits, WellFormedDb, RunOps, RunShare, Share;
    var actual := Introspect(db, names, obstacles);
    forall op | op in d.ops ensures TidyOp(actual, op, owner, TempNames(target)) {
      PlanTidy(target, db, names, obstacles, d, owner, op);
    }
    var bad := RunOpsShares(engine, db, actual, d.ops, owner, TempNames(target));
    ShareRunsExactly(engine, target, db, names, obstacles, d, owner, bad);
    FindTargetMeaning(target.tables, bad);
    forall t | t in target.tables && t.name in db
      ensures RunShare(engine, Get(db, t.name), actual, Share(d.ops, t.name)).Ok? <==> TableFits(engine, db[t.name], t)
    {
      ShareRunsExactly(engine, target, db, names, obstacles, d, owner, t.name);
      TargetFound(target, t);
    }
  }

  lemma EmptyTableFits(engine: Engine, t: LiveTable, d: TableDef)
    requires WellFormedTable(t.def) && t.rows == map[]
    ensures TableFits(engine, t, d) <==> ReplaysKept(t.def, d)
  {
    hide WellFormedTable, Reasons;
    ReasonsEmpty(d, t.def);
    if Reasons(d, t.def) == [] {
      AlterableKeepsReplays(t.def, d, t.def);
    }
  }

  /** Without stored rows only the user's own indexes can stop an unblocked plan. */
  lemma EmptyTablesRunExactly(engine: Engine, target: SchemaDef, db: Tables, names: seq<string>,
                              obstacles: string -> Obstacles, d: DiffResult, owner: map<string, string>)
    requires IsNormal(target) && WellFormedDb(db) && Ascending(names) && NamesApart(target, db, owner)
    requires forall t :: t in target.tables ==> t.name in names
    requires Diff(target, Introspect(db, names, obstacles)) == Ok(d) && d.blockers == []
    requires forall t :: t in target.tables && t.name in db ==> db[t.name].rows == map[]
    ensures RunOps(engine, db, Introspect(db, names, obstacles), d.ops).Ok? <==> ReplaysSurvive(target, db)
  {
    hide Diff, Introspect, IsNormal, TableFits, RunOps, ReplaysKept, WellFormedTable;
    PlanRunsExactly(engine, target, db, names, obstacles, d, owner);
    forall t | t in target.tables && t.name in db
      ensures TableFits(engine, db[t.name], t) <==> ReplaysKept(db[t.name].def, t)
    {
      EmptyTableFits(engine, db[t.name], t);
    }
  }

  /* ---------- Rows after a completed apply ---------- */

  /** The rows of `u` are the rows of `t`, one to one, as the definition `d` stores them. */
  ghost predicate Carried(engine: Engine, t: LiveTable, d: TableDef, u: LiveTable) {
    && (forall k :: k in t.rows ==> RowCarried(engine, t, d, u, k))
    && (forall k, l :: k in t.rows && l in t.rows && k != l ==> KeyIn(engine, d, k) != KeyIn(engine, d, l))
    && (forall n :: n in u.rows ==> exists k :: k in t.rows && KeyIn(engine, d, k) == Some(n))
  }

  lemma {:induction false} AddIndexesKeepRows(t: LiveTable, indexes: seq<IndexDef>)
    ensures AddIndexes(t, indexes).Ok? ==>
              && AddIndexes(t, indexes).value.rows == t.rows
              && AddIndexes(t, indexes).value.def.primaryKey == t.def.primaryKey
    decreases |indexes|
  {
    if indexes != [] {
      var next := AddIndexTo(t, indexes[0]);
      if next.Ok? { AddIndexesKeepRows(next.value, indexes[1..]); }
    }
  }

  lemma SameRowsCarried(engine: Engine, t: LiveTable, d: TableDef, u: LiveTable, v: LiveTable)
    requires Carried(engine, t, d, u) && v.rows == u.rows && v.def.primaryKey == u.def.primaryKey
    ensures Carried(engine, t, d, v)
  {
    forall k | k in t.rows ensures RowCarried(engine, t, d, v, k) {
      assert RowCarried(engine, t, d, u, k);
    }
  }

  lemma RebuildCarries(engine: Engine, t: LiveTable, from: TableDef, d: TableDef, replay: seq<IndexDef>)
    requires WellFormedTable(t.def) && WellFormedTable(d)
    requires from.primaryKey == t.def.primaryKey && from.columns == t.def.columns
    ensures RebuildAlone(engine, t, from, d, replay).Ok? ==>
              Carried(engine, t, d, RebuildAlone(engine, t, from, d, replay).value)
  {
    hide RowCarried, SwapAlone, WellFormedTable, AddIndexes;
    if RebuildAlone(engine, t, from, d, replay).Ok? {
      var swapped := SwapAlone(engine, t, from, d).value;
      var indexed := AddIndexes(swapped, d.indexes).value;
      SwapCarriesRows(engine, t, from, d);
      AddIndexesKeepRows(swapped, d.indexes);
      AddIndexesKeepRows(indexed, replay);
      SameRowsCarried(engine, t, d, swapped, AddIndexes(indexed, replay).value);
    }
  }

  predicate Alters(op: PlanOp) {
    op.DropIndex? || op.AddColumn? || op.CreateIndex?
  }

  lemma KeepsCellsTransitive(a: LiveTable, b: LiveTable, c: LiveTable)
    requires KeepsCells(a, b) && KeepsCells(b, c)
    ensures KeepsCells(a, c)
  {
  }

  lemma AlterKeepsCells(engine: Engine, t: LiveTable, actual: seq<ActualTable>, op: PlanOp)
    requires Alters(op)
    ensures var r := Alone(engine, Some(t), actual, op);
            r.Ok? ==> r.value.Some? && KeepsCells(t, r.value.value)
  {
    if op.AddColumn? { AddColumnKeepsCells(engine, t, op.column); }
  }

  lemma {:induction false} AlterationKeepsCells(engine: Engine, t: LiveTable, actual: seq<ActualTable>,
                                                ops: seq<PlanOp>)
    requires forall op :: op in ops ==> Alters(op)
    ensures var r := RunShare(engine, Some(t), actual, ops);
            r.Ok? ==> r.value.Some? && KeepsCells(t, r.value.value)
    decreases |ops|
  {
    hide Alone, KeepsCells;
    if ops == [] {
      KeepsItself(t);
    } else {
      assert ops[0] in ops;
      AlterKeepsCells(engine, t, actual, ops[0]);
      var next := Alone(engine, Some(t), actual, ops[0]);
      if next.Ok? {
        AlterationKeepsCells(engine, next.value.value, actual, ops[1..]);
        var r := RunShare(engine, next.value, actual, ops[1..]);
        if r.Ok? { KeepsCellsTransitive(t, next.value.value, r.value.value); }
      }
    }
  }

  lemma KeepsItself(t: LiveTable)
    ensures KeepsCells(t, t)
  {
  }

  /** What a live table's rows become: an altered table keeps every row and cell, a rebuilt one carries
      its rows over one to one. */
  ghost predicate RowsKept(engine: Engine, t: LiveTable, d: TableDef, u: LiveTable) {
    if Reasons(d, t.def) == [] then KeepsCells(t, u) else Carried(engine, t, d, u)
  }

  lemma TableKeepsRows(engine: Engine, t: LiveTable, d: TableDef, o: Obstacles, actual: seq<ActualTable>)
    requires WellFormedTable(t.def) && WellFormedTable(d) && t.def.name == d.name
    requires FindActual(actual, d.name) == Some(Report(t, o))
    ensures var r := RunShare(engine, Some(t), actual, SortBy(OpKey, TableOps(d, Report(t, o))));
            r.Ok? ==> r.value.Some? && RowsKept(engine, t, d, r.value.value)
  {
    hide WellFormedTable, RunShare, Reasons, KeepsCells, Carried, RebuildAlone, FindActual, AlterOps;
    var a := Report(t, o);
    SameReasons(t, d, o);
    if Reasons(d, t.def) == [] {
      SortByElements(OpKey, AlterOps(d, a.table));
      forall op | op in SortBy(OpKey, AlterOps(d, a.table)) ensures Alters(op) {
        AlterOpsShape(d, a.table, op);
      }
      AlterationKeepsCells(engine, t, actual, SortBy(OpKey, AlterOps(d, a.table)));
    } else {
      RebuildShare(engine, t, d, o, actual);
      RebuildCarries(engine, t, a.table, d, a.replay);
    }
  }

  /** The rows after a completed apply, in whatever mode: every target table that was there keeps its
      rows, and the tables outside the plan's scope are untouched. */
  lemma AppliedKeepsRows(engine: Engine, before: DbState, plan: Plan, mode: ApplyMode, obstacles: string -> Obstacles,
                         after: DbState, owner: map<string, string>, t: TableDef)
    requires IsNormal(plan.target) && WellFormedDb(before.tables) && NamesApart(plan.target, before.tables, owner)
    requires Applied(engine, before, plan, mode, obstacles, after)
    requires t in plan.target.tables && t.name in before.tables
    ensures t.name in after.tables && RowsKept(engine, before.tables[t.name], t, after.tables[t.name])
  {
    hide Introspect, IsNormal, RunOps, RunShare, Share, RowsKept, WellFormedTable;
    var db, target, names, n := before.tables, plan.target, PlanScope(plan), t.name;
    var actual := Introspect(db, names, obstacles);
    var d := Diff(target, actual).value;
    TargetInScope(plan);
    forall op | op in d.ops ensures TidyOp(actual, op, owner, TempNames(target)) {
      PlanTidy(target, db, names, obstacles, d, owner, op);
    }
    var _ := RunOpsShares(engine, db, actual, d.ops, owner, TempNames(target));
    assert RunShare(engine, Get(db, n), actual, Share(d.ops, n)) == Ok(Get(after.tables, n));
    ShareOfExisting(target, db, names, obstacles, d, t);
    IsNormalMeaning(target);
    IntrospectFinds(db, names, obstacles, n);
    TableKeepsRows(engine, db[n], t, obstacles(n), actual);
  }

  lemma ShareOfExisting(target: SchemaDef, db: Tables, names: seq<string>, obstacles: string -> Obstacles,
                        d: DiffResult, t: TableDef)
    requires IsNormal(target) && WellFormedDb(db) && Ascending(names)
    requires t in target.tables && t.name in names && t.name in db
    requires Diff(target, Introspect(db, names, obstacles)) == Ok(d)
    ensures Share(d.ops, t.name) == SortBy(OpKey, TableOps(t, Report(db[t.name], obstacles(t.name))))
  {
    hide TargetOps, SurplusOps, TargetBlockers, SurplusBlockers, Introspect, IsNormal, WellFormedTable, TableOps,
         SortBy;
    var actual := Introspect(db, names, obstacles);
    IsNormalMeaning(target);
    TargetFound(target, t);
    IntrospectLists(db, names, obstacles);
    IntrospectFinds(db, names, obstacles, t.name);
    ShareOfPlan(target, actual, t.name);
  }

  /* ---------- The planner's gap ---------- */

  function NoObstacles(table: string): Obstacles {
    Obstacles([], false, [], [])
  }

  const GAP_KEY := PrimaryKeyDef("id", "INTEGER")
  const GAP_COLUMN := ColumnDef("a", "TEXT", true, None)
  const GAP_INDEX := IndexDef("mine", "a", false)
  const GAP_LIVE := LiveTable(TableDef("t", GAP_KEY, [GAP_COLUMN], [GAP_INDEX]), map[])
  const GAP_TARGET := TableDef("t", GAP_KEY, [], [])

  lemma GapIndexIsReplayed()
    ensures GAP_INDEX in Unmanaged(GAP_LIVE.def.indexes)
  {
    assert !IsManaged("mine") by { assert "mine"[0] != MANAGED_PREFIX[0]; }
    assert Unmanaged([GAP_INDEX]) == [GAP_INDEX];
  }

  lemma GapNeedsRebuild()
    ensures Reasons(GAP_TARGET, GAP_LIVE.def) != []
  {
    hide Reasons;
    ReasonsEmpty(GAP_TARGET, GAP_LIVE.def);
    assert GAP_COLUMN in GAP_LIVE.def.columns && FindColumn(GAP_TARGET.columns, "a").None?;
  }

  lemma GapTables()
    ensures WellFormedTable(GAP_LIVE.def) && WellFormedTable(GAP_TARGET) && !ReplaysKept(GAP_LIVE.def, GAP_TARGET)
    ensures Reasons(GAP_TARGET, GAP_LIVE.def) != []
  {
    hide Reasons, Unmanaged;
    GapIndexIsReplayed();
    GapNeedsRebuild();
    assert !Declares(GAP_TARGET, "a");
    assert GAP_LIVE.def.columns[0].name == "a";
  }

  lemma GapIsApart()
    ensures NamesApart(SchemaDef([GAP_TARGET]), map["t" := GAP_LIVE], map["mine" := "t"])
  {
    assert TempNames(SchemaDef([GAP_TARGET])) == {TempName("t")};
    assert |TempName("t")| > |"mine"|;
    assert "mine"[0] != "t"[0];
  }

  /** An unblocked plan that can never run: a live table with an index of the user's own on column
      `a`, and a target without that column. */
  lemma UnblockedPlanThatFails(engine: Engine)
    ensures var target, db := SchemaDef([GAP_TARGET]), map["t" := GAP_LIVE];
            var plan := Diff(target, Introspect(db, ["t"], NoObstacles));
            && IsNormal(target) && WellFormedDb(db) && !ReplaysSurvive(target, db)
            && plan.Ok? && plan.value.blockers == [] && plan.value.ops != []
            && RunOps(engine, db, Introspect(db, ["t"], NoObstacles), plan.value.ops).Err?
  {
    hide Introspect, Reasons, ReplaysKept, WellFormedTable, RunOps, NamesApart;
    var d, target, db := GAP_TARGET, SchemaDef([GAP_TARGET]), map["t" := GAP_LIVE];
    var actual := Introspect(db, ["t"], NoObstacles);
    GapTables();
    GapIsApart();
    GapIsNormal();
    DiffSucceeds(target, db, ["t"], NoObstacles);
    IntrospectFinds(db, ["t"], NoObstacles, "t");
    assert d in target.tables;
    var plan := Diff(target, actual).value;
    GapIsUnblocked(actual);
    GapIsPlanned(target, db, plan);
    DroppedReplayStopsPlan(engine, target, db, ["t"], NoObstacles, plan, map["mine" := "t"]);
  }

  lemma GapIsNormal()
    ensures IsNormal(SchemaDef([GAP_TARGET]))
  {
    hide Normalized, Reasons, ReplaysKept;
    GapTables();
    IsNormalMeaning(SchemaDef([GAP_TARGET]));
  }

  lemma GapIsUnblocked(actual: seq<ActualTable>)
    requires actual == Introspect(map["t" := GAP_LIVE], ["t"], NoObstacles)
    ensures SortBy(BlockerKey, TargetBlockers([GAP_TARGET], actual) + SurplusBlockers([GAP_TARGET], actual)) == []
  {
    hide Reasons;
    IntrospectFinds(map["t" := GAP_LIVE], ["t"], NoObstacles, "t");
    TargetBlockersEmpty([GAP_TARGET], actual);
    IntrospectLists(map["t" := GAP_LIVE], ["t"], NoObstacles);
    SurplusEmpty([GAP_TARGET], actual);
  }

  lemma GapIsPlanned(target: SchemaDef, db: Tables, plan: DiffResult)
    requires target == SchemaDef([GAP_TARGET]) && db == map["t" := GAP_LIVE] && plan.blockers == []
    requires Diff(target, Introspect(db, ["t"], NoObstacles)) == Ok(plan)
    ensures plan.ops != []
  {
    hide Introspect, Diff, IsNormal, Reasons;
    GapTables();
    GapIsNormal();
    NothingToDo(target, db, ["t"], NoObstacles, plan);
    assert GAP_TARGET in target.tables;
    assert FindColumn([], "a") == None && FindColumn(GAP_LIVE.def.columns, "a") == Some(GAP_COLUMN);
  }
}
