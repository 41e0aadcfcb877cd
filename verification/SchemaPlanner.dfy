/** The loops of `diff` (src/schema/diff.rs) and `retained_columns` (src/schema/apply.rs), which
    fill the lists that the functions `Diff` and `Retained` describe. */
module SchemaPlanner {
  import opened Prelude
  import opened Ordering
  import opened SchemaTypes
  import opened SchemaNormalForm
  import opened SchemaPlan
  import opened SchemaDiff
  import opened SchemaDiffFacts
  import opened SchemaMachine

  lemma Regroup<T>(done: seq<T>, here: seq<T>, rest: seq<T>, all: seq<T>)
    requires done + (here + rest) == all
    ensures done + here + rest == all
  {
  }

  /** What one desired column asks for. */
  function ColumnVerdict(table: string, d: ColumnDef, live: seq<ColumnDef>)
    : (seq<ColumnDef>, seq<PlanBlocker>, seq<RebuildReason>)
  {
    match FindColumn(live, d.name)
    case None => if CanAdd(d) then ([d], [], []) else ([], [RequiredColumnAddition(table, d.name)], [])
    case Some(l) => ([], [], ColumnChange(d, l))
  }

  lemma ColumnStep(table: string, desired: seq<ColumnDef>, live: seq<ColumnDef>, i: nat)
    requires i < |desired|
    ensures var (add, miss, change) := ColumnVerdict(table, desired[i], live);
            && AddedColumns(desired[i..], live) == add + AddedColumns(desired[i + 1..], live)
            && RequiredColumns(table, desired[i..], live) == miss + RequiredColumns(table, desired[i + 1..], live)
            && ColumnReasons(desired[i..], live) == change + ColumnReasons(desired[i + 1..], live)
  {
    assert desired[i..][1..] == desired[i + 1..];
  }

  method CompareColumns(table: string, desired: seq<ColumnDef>, live: seq<ColumnDef>)
    returns (added: seq<ColumnDef>, missing: seq<PlanBlocker>, reasons: seq<RebuildReason>)
    ensures added == AddedColumns(desired, live)
    ensures missing == RequiredColumns(table, desired, live)
    ensures reasons == ColumnReasons(desired, live)
  {
    added, missing, reasons := [], [], [];
    for i := 0 to |desired|
      invariant added + AddedColumns(desired[i..], live) == AddedColumns(desired, live)
      invariant missing + RequiredColumns(table, desired[i..], live) == RequiredColumns(table, desired, live)
      invariant reasons + ColumnReasons(desired[i..], live) == ColumnReasons(desired, live)
    {
      var d := desired[i];
      ColumnStep(table, desired, live, i);
      ghost var (add, miss, change) := ColumnVerdict(table, d, live);
      Regroup(added, add, AddedColumns(desired[i + 1..], live), AddedColumns(desired, live));
      Regroup(missing, miss, RequiredColumns(table, desired[i + 1..], live), RequiredColumns(table, desired, live));
      Regroup(reasons, change, ColumnReasons(desired[i + 1..], live), ColumnReasons(desired, live));
      match FindColumn(live, d.name) {
        case None =>
          if d.nullable || d.defaultSql.Some? {
            added := added + [d];
          } else {
            missing := missing + [RequiredColumnAddition(table, d.name)];
          }
        case Some(l) =>
          reasons := reasons + ColumnChange(d, l);
      }
    }
  }

  method FindRemoved(desired: seq<ColumnDef>, live: seq<ColumnDef>) returns (removed: seq<string>)
    ensures removed == RemovedColumns(desired, live)
  {
    removed := [];
    for i := 0 to |live|
      invariant removed + RemovedColumns(desired, live[i..]) == RemovedColumns(desired, live)
    {
      assert live[i..][1..] == live[i + 1..];
      if FindColumn(desired, live[i].name).None? {
        removed := removed + [live[i].name];
      }
    }
  }

  method AddColumnOps(table: string, added: seq<ColumnDef>) returns (ops: seq<PlanOp>)
    ensures ops == AddOps(table, added)
  {
    AddOpsAt(table, added);
    ops := [];
    for i := 0 to |added|
      invariant ops == AddOps(table, added)[..i]
    {
      ops := ops + [AddColumn(table, added[i])];
    }
  }

  /** What one desired index asks for. */
  function IndexChange(table: string, d: IndexDef, live: seq<IndexDef>): seq<PlanOp> {
    match FindIndex(live, d.name)
    case None => [CreateIndex(table, d)]
    case Some(x) =>
      if d.column != x.column || d.unique != x.unique then [DropIndex(table, x), CreateIndex(table, d)] else []
  }

  lemma IndexStep(table: string, desired: seq<IndexDef>, live: seq<IndexDef>, i: nat)
    requires i < |desired|
    ensures IndexOps(table, desired[i..], live)
              == IndexChange(table, desired[i], live) + IndexOps(table, desired[i + 1..], live)
  {
    assert desired[i..][1..] == desired[i + 1..];
  }

  method CompareIndexes(table: string, desired: seq<IndexDef>, live: seq<IndexDef>) returns (ops: seq<PlanOp>)
    ensures ops == IndexOps(table, desired, live)
  {
    ops := [];
    for i := 0 to |desired|
      invariant ops + IndexOps(table, desired[i..], live) == IndexOps(table, desired, live)
    {
      var d := desired[i];
      IndexStep(table, desired, live, i);
      Regroup(ops, IndexChange(table, d, live), IndexOps(table, desired[i + 1..], live),
           IndexOps(table, desired, live));
      match FindIndex(live, d.name) {
        case None =>
          ops := ops + [CreateIndex(table, d)];
        case Some(x) =>
          if d.column != x.column || d.unique != x.unique {
            ops := ops + [DropIndex(table, x), CreateIndex(table, d)];
          }
      }
    }
  }

  method DropStaleIndexes(table: string, desired: seq<IndexDef>, live: seq<IndexDef>) returns (ops: seq<PlanOp>)
    ensures ops == StaleOps(table, desired, live)
  {
    ops := [];
    for i := 0 to |live|
      invariant ops + StaleOps(table, desired, live[i..]) == StaleOps(table, desired, live)
    {
      assert live[i..][1..] == live[i + 1..];
      if FindIndex(desired, live[i].name).None? {
        ops := ops + [DropIndex(table, live[i])];
      }
    }
  }

  /** The body of the planner's loop over target tables that exist. */
  method CompareTable(d: TableDef, a: ActualTable) returns (ops: seq<PlanOp>, blockers: seq<PlanBlocker>)
    ensures ops == TableOps(d, a)
    ensures blockers == TableBlockers(d, a)
  {
    var reasons := KeyReasons(d, a.table);
    var added, missing, changes := CompareColumns(d.name, d.columns, a.table.columns);
    blockers := missing;
    reasons := reasons + changes;
    var removed := FindRemoved(d.columns, SortBy(ColumnKey, a.table.columns));
    if removed != [] {
      reasons := reasons + [DropColumns(removed)];
    }
    assert reasons == Reasons(d, a.table);
    if reasons != [] {
      blockers := blockers + (FeatureBlockers(d.name, a.obstacles.unsupported) + DropBlockers(d.name, a.obstacles));
      return [RebuildTable(d.name, a.table, d, reasons)], blockers;
    }
    ops := AddColumnOps(d.name, SortBy(ColumnKey, added));
    var changed := CompareIndexes(d.name, d.indexes, a.table.indexes);
    var stale := DropStaleIndexes(d.name, d.indexes, SortBy(IndexKey, a.table.indexes));
    ops := ops + (changed + stale);
  }

  function PlanFor(d: TableDef, found: Option<ActualTable>): (seq<PlanOp>, seq<PlanBlocker>) {
    if found.Some? then (TableOps(d, found.value), TableBlockers(d, found.value)) else ([CreateTable(d)], [])
  }

  lemma TargetStep(ts: seq<TableDef>, actual: seq<ActualTable>, i: nat, here: (seq<PlanOp>, seq<PlanBlocker>))
    requires i < |ts| && here == PlanFor(ts[i], FindActual(actual, ts[i].name))
    ensures TargetOps(ts[i..], actual) == here.0 + TargetOps(ts[i + 1..], actual)
    ensures TargetBlockers(ts[i..], actual) == here.1 + TargetBlockers(ts[i + 1..], actual)
  {
    assert ts[i..][1..] == ts[i + 1..];
  }

  method CompareTarget(d: TableDef, found: Option<ActualTable>) returns (ops: seq<PlanOp>, blockers: seq<PlanBlocker>)
    ensures (ops, blockers) == PlanFor(d, found)
  {
    if found.None? {
      return [CreateTable(d)], [];
    }
    ops, blockers := CompareTable(d, found.value);
  }

  method CompareTargets(ts: seq<TableDef>, actual: seq<ActualTable>)
    returns (ops: seq<PlanOp>, blockers: seq<PlanBlocker>)
    ensures ops == TargetOps(ts, actual)
    ensures blockers == TargetBlockers(ts, actual)
  {
    ops, blockers := [], [];
    for i := 0 to |ts|
      invariant ops + TargetOps(ts[i..], actual) == TargetOps(ts, actual)
      invariant blockers + TargetBlockers(ts[i..], actual) == TargetBlockers(ts, actual)
    {
      var more, against := CompareTarget(ts[i], FindActual(actual, ts[i].name));
      TargetStep(ts, actual, i, (more, against));
      Regroup(ops, more, TargetOps(ts[i + 1..], actual), TargetOps(ts, actual));
      Regroup(blockers, against, TargetBlockers(ts[i + 1..], actual), TargetBlockers(ts, actual));
      ops, blockers := ops + more, blockers + against;
    }
  }

  method DropSurplus(ts: seq<TableDef>, actual: seq<ActualTable>) returns (ops: seq<PlanOp>, blockers: seq<PlanBlocker>)
    ensures ops == SurplusOps(ts, actual)
    ensures blockers == SurplusBlockers(ts, actual)
  {
    ops, blockers := [], [];
    for i := 0 to |actual|
      invariant ops + SurplusOps(ts, actual[i..]) == SurplusOps(ts, actual)
      invariant blockers + SurplusBlockers(ts, actual[i..]) == SurplusBlockers(ts, actual)
    {
      assert actual[i..][1..] == actual[i + 1..];
      var a := actual[i];
      if FindTarget(ts, a.table.name).None? {
        blockers := blockers + DropBlockers(a.table.name, a.obstacles);
        ops := ops + [DropTable(a.table)];
      }
    }
  }

  /** `diff`: refuse an invalid live schema, collect, then sort.  A normalized target lists its
      members in the order in which the planner's maps iterate them. */
  method ComputeDiff(target: SchemaDef, actual: seq<ActualTable>) returns (r: Result<DiffResult, SchemaError>)
    ensures r == Diff(target, actual)
    ensures r.Ok? ==> SortedBy(OpKey, r.value.ops) && SortedBy(BlockerKey, r.value.blockers)
  {
    var source := Normalize(SchemaDef(LiveTables(actual)));
    if source.Err? {
      return Err(source.error);
    }
    var ops, blockers := CompareTargets(target.tables, actual);
    var moreOps, moreBlockers := DropSurplus(target.tables, actual);
    SortBySorts(OpKey, ops + moreOps);
    SortBySorts(BlockerKey, blockers + moreBlockers);
    r := Ok(DiffResult(source.value, SortBy(OpKey, ops + moreOps), SortBy(BlockerKey, blockers + moreBlockers)));
  }

  /** `retained_columns`. */
  method RetainColumns(from: TableDef, to: TableDef) returns (retained: seq<(string, string)>)
    ensures retained == Retained(from, to)
  {
    retained := [(from.primaryKey.name, to.primaryKey.name)];
    for i := 0 to |from.columns|
      invariant retained + SharedColumns(from.columns[i..], to.columns) == Retained(from, to)
    {
      assert from.columns[i..][1..] == from.columns[i + 1..];
      var name := from.columns[i].name;
      if HasColumn(to.columns, name) {
        retained := retained + [(name, name)];
      }
    }
  }
}
