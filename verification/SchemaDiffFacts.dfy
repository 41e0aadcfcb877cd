/** What the planner's lists contain, and when a table needs nothing: exactly when the live
    table matches the target. */
module SchemaDiffFacts {
  import opened Prelude
  import opened Ordering
  import opened Affinity
  import opened SchemaTypes
  import opened SchemaPlan
  import opened SchemaDiff
  import opened SchemaIntrospect

  /* ---------- Lookups ---------- */

  lemma {:induction false} FindColumnMeaning(cs: seq<ColumnDef>, name: string)
    ensures FindColumn(cs, name).Some? <==> HasColumn(cs, name)
    ensures FindColumn(cs, name).Some? ==>
              FindColumn(cs, name).value in cs && FindColumn(cs, name).value.name == name
  {
    if cs != [] {
      FindColumnMeaning(cs[1..], name);
      if HasColumn(cs, name) && cs[0].name != name {
        var i :| 0 <= i < |cs| && cs[i].name == name;
        assert cs[1..][i - 1].name == name;
      }
      if HasColumn(cs[1..], name) {
        var i :| 0 <= i < |cs[1..]| && cs[1..][i].name == name;
        assert cs[i + 1].name == name;
      }
    }
  }

  ghost predicate DistinctColumns(cs: seq<ColumnDef>) {
    forall i, j :: 0 <= i < j < |cs| ==> cs[i].name != cs[j].name
  }

  lemma FindColumnSelf(cs: seq<ColumnDef>, c: ColumnDef)
    requires DistinctColumns(cs) && c in cs
    ensures FindColumn(cs, c.name) == Some(c)
  {
    var i :| 0 <= i < |cs| && cs[i] == c;
    assert HasColumn(cs, c.name);
    FindColumnMeaning(cs, c.name);
  }

  lemma {:induction false} FindIndexMeaning(xs: seq<IndexDef>, name: string)
    ensures FindIndex(xs, name).None? <==> forall x :: x in xs ==> x.name != name
    ensures FindIndex(xs, name).Some? ==>
              FindIndex(xs, name).value in xs && FindIndex(xs, name).value.name == name
  {
    if xs != [] {
      FindIndexMeaning(xs[1..], name);
      assert xs == [xs[0]] + xs[1..];
    }
  }

  lemma FindIndexSelf(xs: seq<IndexDef>, x: IndexDef)
    requires DistinctIndexes(xs) && x in xs
    ensures FindIndex(xs, x.name) == Some(x)
  {
    FindIndexMeaning(xs, x.name);
  }

  lemma {:induction false} FindTargetMeaning(ts: seq<TableDef>, name: string)
    ensures FindTarget(ts, name).None? <==> forall t :: t in ts ==> t.name != name
    ensures FindTarget(ts, name).Some? ==>
              FindTarget(ts, name).value in ts && FindTarget(ts, name).value.name == name
  {
    if ts != [] {
      FindTargetMeaning(ts[1..], name);
      assert ts == [ts[0]] + ts[1..];
    }
  }

  /* ---------- Agreement of one table ---------- */

  /** Columns of one name agree: same affinity, nullability and default. */
  predicate SameShape(d: ColumnDef, live: ColumnDef) {
    FromDeclaredType(d.sqlType) == FromDeclaredType(live.sqlType)
    && d.nullable == live.nullable
    && d.defaultSql == live.defaultSql
  }

  ghost predicate ColumnsMatch(desired: seq<ColumnDef>, live: seq<ColumnDef>) {
    && (forall c :: c in live ==> FindColumn(desired, c.name).Some?)
    && (forall d :: d in desired ==> FindColumn(live, d.name).Some? && SameShape(d, FindColumn(live, d.name).value))
  }

  /** The live table, as reported, is the target table up to listing order and the spelling of
      column types. */
  ghost predicate Matches(d: TableDef, live: TableDef) {
    && d.name == live.name
    && d.primaryKey == live.primaryKey
    && ColumnsMatch(d.columns, live.columns)
    && (forall x :: x in d.indexes <==> x in live.indexes)
  }

  lemma {:induction false} ColumnReasonsEmpty(desired: seq<ColumnDef>, live: seq<ColumnDef>)
    ensures ColumnReasons(desired, live) == [] <==>
            forall d :: d in desired && FindColumn(live, d.name).Some? ==> SameShape(d, FindColumn(live, d.name).value)
  {
    if desired != [] {
      ColumnReasonsEmpty(desired[1..], live);
      assert desired == [desired[0]] + desired[1..];
    }
  }

  lemma {:induction false} AddedColumnsElements(desired: seq<ColumnDef>, live: seq<ColumnDef>)
    ensures forall c :: c in AddedColumns(desired, live)
              <==> c in desired && FindColumn(live, c.name).None? && CanAdd(c)
  {
    if desired != [] {
      AddedColumnsElements(desired[1..], live);
      assert desired == [desired[0]] + desired[1..];
    }
  }

  lemma {:induction false} AddedColumnsDistinct(desired: seq<ColumnDef>, live: seq<ColumnDef>)
    requires DistinctColumns(desired)
    ensures DistinctColumns(AddedColumns(desired, live))
  {
    if desired != [] {
      AddedColumnsDistinct(desired[1..], live);
      AddedColumnsElements(desired[1..], live);
      forall c | c in AddedColumns(desired[1..], live) ensures c.name != desired[0].name {
        var i :| 0 <= i < |desired[1..]| && desired[1..][i] == c;
        assert desired[i + 1] == c;
      }
    }
  }

  lemma {:induction false} RequiredColumnsEmpty(table: string, desired: seq<ColumnDef>, live: seq<ColumnDef>)
    ensures RequiredColumns(table, desired, live) == [] <==>
            forall c :: c in desired && FindColumn(live, c.name).None? ==> CanAdd(c)
  {
    if desired != [] {
      RequiredColumnsEmpty(table, desired[1..], live);
      assert desired == [desired[0]] + desired[1..];
    }
  }

  lemma {:induction false} RemovedColumnsElements(desired: seq<ColumnDef>, live: seq<ColumnDef>)
    ensures forall n :: n in RemovedColumns(desired, live) <==>
                        exists c :: c in live && c.name == n && FindColumn(desired, c.name).None?
  {
    if live != [] {
      RemovedColumnsElements(desired, live[1..]);
      assert live == [live[0]] + live[1..];
      forall n | n in RemovedColumns(desired, live)
        ensures exists c :: c in live && c.name == n && FindColumn(desired, c.name).None?
      {
        if n in RemovedColumns(desired, live[1..]) {
          var c :| c in live[1..] && c.name == n && FindColumn(desired, c.name).None?;
          assert c in live;
        } else {
          assert live[0].name == n;
        }
      }
    }
  }

  /** Same key, no live column is surplus, and shared columns have the same shape. */
  ghost predicate Alterable(d: TableDef, live: TableDef) {
    && d.primaryKey == live.primaryKey
    && (forall c :: c in live.columns ==> FindColumn(d.columns, c.name).Some?)
    && (forall c :: c in d.columns && FindColumn(live.columns, c.name).Some? ==>
          SameShape(c, FindColumn(live.columns, c.name).value))
  }

  /** The reasons list is empty exactly when nothing calls for a rebuild. */
  lemma ReasonsEmpty(d: TableDef, live: TableDef)
    ensures Reasons(d, live) == [] <==> Alterable(d, live)
  {
    ColumnReasonsEmpty(d.columns, live.columns);
    var sorted := SortBy(ColumnKey, live.columns);
    SortByElements(ColumnKey, live.columns);
    RemovedColumnsElements(d.columns, sorted);
    var removed := RemovedColumns(d.columns, sorted);
    if removed != [] {
      assert removed[0] in removed;
      var c :| c in sorted && c.name == removed[0] && FindColumn(d.columns, c.name).None?;
      assert c in live.columns;
    }
    if c :| c in live.columns && FindColumn(d.columns, c.name).None? {
      assert c in sorted;
      assert c.name in removed;
    }
  }

  /* ---------- Operations of one table ---------- */

  lemma {:induction false} AddOpsAt(table: string, added: seq<ColumnDef>)
    ensures |AddOps(table, added)| == |added|
    ensures forall i :: 0 <= i < |added| ==> AddOps(table, added)[i] == AddColumn(table, added[i])
  {
    if added != [] { AddOpsAt(table, added[1..]); }
  }

  /** `op` is called for by the desired index `d`. */
  ghost predicate IndexCallsFor(table: string, d: IndexDef, live: seq<IndexDef>, op: PlanOp) {
    match FindIndex(live, d.name)
    case None => op == CreateIndex(table, d)
    case Some(x) => d != x && (op == DropIndex(table, x) || op == CreateIndex(table, d))
  }

  lemma {:induction false} IndexOpsElements(table: string, desired: seq<IndexDef>, live: seq<IndexDef>, op: PlanOp)
    ensures op in IndexOps(table, desired, live) <==> exists d :: d in desired && IndexCallsFor(table, d, live, op)
  {
    if desired != [] {
      var d := desired[0];
      IndexOpsElements(table, desired[1..], live, op);
      FindIndexMeaning(live, d.name);
      assert desired == [d] + desired[1..];
      var head := IndexOps(table, [d], live);
      assert IndexOps(table, desired, live) == head + IndexOps(table, desired[1..], live) by {
        assert IndexOps(table, [d][1..], live) == [];
      }
      assert op in head <==> IndexCallsFor(table, d, live, op);
      if op in IndexOps(table, desired[1..], live) {
        var e :| e in desired[1..] && IndexCallsFor(table, e, live, op);
        assert e in desired;
      }
    }
  }

  lemma {:induction false} StaleOpsElements(table: string, desired: seq<IndexDef>, live: seq<IndexDef>, op: PlanOp)
    ensures op in StaleOps(table, desired, live) <==>
            exists x :: x in live && FindIndex(desired, x.name).None? && op == DropIndex(table, x)
  {
    if live != [] {
      StaleOpsElements(table, desired, live[1..], op);
      assert live == [live[0]] + live[1..];
      if op in StaleOps(table, desired, live[1..]) {
        var x :| x in live[1..] && FindIndex(desired, x.name).None? && op == DropIndex(table, x);
        assert x in live;
      }
    }
  }

  lemma IndexOpsEmpty(table: string, desired: seq<IndexDef>, live: seq<IndexDef>)
    ensures IndexOps(table, desired, live) == [] <==> forall d :: d in desired ==> FindIndex(live, d.name) == Some(d)
  {
    var ops := IndexOps(table, desired, live);
    forall d | d in desired && FindIndex(live, d.name) != Some(d) ensures CreateIndex(table, d) in ops {
      IndexOpsElements(table, desired, live, CreateIndex(table, d));
      assert IndexCallsFor(table, d, live, CreateIndex(table, d));
    }
    if ops != [] {
      IndexOpsElements(table, desired, live, ops[0]);
      var d :| d in desired && IndexCallsFor(table, d, live, ops[0]);
    }
  }

  lemma StaleOpsEmpty(table: string, desired: seq<IndexDef>, live: seq<IndexDef>)
    ensures StaleOps(table, desired, live) == [] <==> forall x :: x in live ==> FindIndex(desired, x.name).Some?
  {
    var ops := StaleOps(table, desired, live);
    forall x | x in live && FindIndex(desired, x.name).None? ensures DropIndex(table, x) in ops {
      StaleOpsElements(table, desired, live, DropIndex(table, x));
    }
    if ops != [] { StaleOpsElements(table, desired, live, ops[0]); }
  }

  lemma IndexesSettled(table: string, desired: seq<IndexDef>, live: seq<IndexDef>)
    requires DistinctIndexes(desired) && DistinctIndexes(live)
    ensures IndexOps(table, desired, live) == [] && StaleOps(table, desired, SortBy(IndexKey, live)) == []
       <==> forall x :: x in desired <==> x in live
  {
    IndexOpsEmpty(table, desired, live);
    StaleOpsEmpty(table, desired, SortBy(IndexKey, live));
    SortByElements(IndexKey, live);
    forall d | d in desired ensures FindIndex(live, d.name) == Some(d) <==> d in live {
      FindIndexMeaning(live, d.name);
      if d in live { FindIndexSelf(live, d); }
    }
    forall x | x in live ensures x in desired ==> FindIndex(desired, x.name).Some? {
      if x in desired { FindIndexSelf(desired, x); }
    }
    if IndexOps(table, desired, live) == [] && StaleOps(table, desired, SortBy(IndexKey, live)) == [] {
      forall x | x in live ensures x in desired {
        FindIndexMeaning(desired, x.name);
        var d := FindIndex(desired, x.name).value;
        FindIndexSelf(live, x);
        assert FindIndex(live, d.name) == Some(d);
      }
    }
  }

  /** Every target column is there exactly when none is added and none is missing. */
  lemma ColumnsSettled(table: string, desired: seq<ColumnDef>, live: seq<ColumnDef>)
    ensures AddOps(table, SortBy(ColumnKey, AddedColumns(desired, live))) == []
              && RequiredColumns(table, desired, live) == []
       <==> forall c :: c in desired ==> FindColumn(live, c.name).Some?
  {
    var added := AddedColumns(desired, live);
    AddedColumnsElements(desired, live);
    RequiredColumnsEmpty(table, desired, live);
    SortByElements(ColumnKey, added);
    AddOpsAt(table, SortBy(ColumnKey, added));
    if added != [] { assert added[0] in added; }
  }

  lemma TableOpsCases(d: TableDef, a: ActualTable)
    ensures Reasons(d, a.table) == [] ==>
              && TableOps(d, a) == AlterOps(d, a.table)
              && TableBlockers(d, a) == RequiredColumns(d.name, d.columns, a.table.columns)
    ensures Reasons(d, a.table) != [] ==> TableOps(d, a) == [RebuildTable(d.name, a.table, d, Reasons(d, a.table))]
  {
  }

  ghost predicate Complete(d: TableDef, live: TableDef) {
    && (forall c :: c in d.columns ==> FindColumn(live.columns, c.name).Some?)
    && (forall x :: x in d.indexes <==> x in live.indexes)
  }

  lemma AlterOpsEmpty(d: TableDef, live: TableDef)
    requires DistinctIndexes(d.indexes) && DistinctIndexes(live.indexes)
    ensures AlterOps(d, live) == [] && RequiredColumns(d.name, d.columns, live.columns) == [] <==> Complete(d, live)
  {
    ColumnsSettled(d.name, d.columns, live.columns);
    IndexesSettled(d.name, d.indexes, live.indexes);
  }

  lemma MatchesParts(d: TableDef, live: TableDef)
    requires d.name == live.name
    ensures Matches(d, live) <==> Alterable(d, live) && Complete(d, live)
  {
  }

  /** A table needs no operation and meets no blocker exactly when it already matches. */
  lemma TableSettled(d: TableDef, a: ActualTable)
    requires DistinctIndexes(d.indexes) && DistinctIndexes(a.table.indexes) && d.name == a.table.name
    ensures TableOps(d, a) == [] && TableBlockers(d, a) == [] <==> Matches(d, a.table)
  {
    TableOpsCases(d, a);
    ReasonsEmpty(d, a.table);
    AlterOpsEmpty(d, a.table);
    MatchesParts(d, a.table);
  }

  /* ---------- Keys of one table's operations do not repeat ---------- */

  lemma DistinctAppend(a: seq<PlanOp>, b: seq<PlanOp>)
    requires DistinctBy(OpKey, a) && DistinctBy(OpKey, b)
    requires forall x, y :: x in a && y in b ==> OpKey(x) != OpKey(y)
    ensures DistinctBy(OpKey, a + b)
  {
    forall i, j | 0 <= i < j < |a + b| ensures OpKey((a + b)[i]) != OpKey((a + b)[j]) {
      if j < |a| {
      } else if i < |a| {
        assert a[i] in a && b[j - |a|] in b;
      } else {
        assert OpKey(b[i - |a|]) != OpKey(b[j - |a|]);
      }
    }
  }

  lemma AddOpsDistinct(table: string, added: seq<ColumnDef>)
    requires DistinctColumns(added)
    ensures DistinctBy(OpKey, AddOps(table, SortBy(ColumnKey, added)))
  {
    var sorted := SortBy(ColumnKey, added);
    assert DistinctBy(ColumnKey, added) by {
      assert forall i :: 0 <= i < |added| ==> ColumnKey(added[i]).major == added[i].name;
    }
    DistinctAfterSort(ColumnKey, added);
    AddOpsAt(table, sorted);
    forall i, j | 0 <= i < j < |sorted| ensures OpKey(AddOps(table, sorted)[i]) != OpKey(AddOps(table, sorted)[j]) {
      assert ColumnKey(sorted[i]) != ColumnKey(sorted[j]);
    }
  }

  /** An index operation carries the name of the desired index that calls for it. */
  lemma IndexOpsName(table: string, desired: seq<IndexDef>, live: seq<IndexDef>, op: PlanOp) returns (d: IndexDef)
    requires op in IndexOps(table, desired, live)
    ensures d in desired && OpKey(op).minor == d.name && OpKey(op).rank in {0, 4}
  {
    IndexOpsElements(table, desired, live, op);
    d :| d in desired && IndexCallsFor(table, d, live, op);
    FindIndexMeaning(live, d.name);
  }

  lemma IndexOpsSplit(table: string, desired: seq<IndexDef>, live: seq<IndexDef>)
    requires desired != []
    ensures IndexOps(table, desired, live) == IndexOps(table, [desired[0]], live) + IndexOps(table, desired[1..], live)
    ensures DistinctBy(OpKey, IndexOps(table, [desired[0]], live))
  {
    assert IndexOps(table, [desired[0]][1..], live) == [];
  }

  lemma {:induction false} IndexOpsDistinct(table: string, desired: seq<IndexDef>, live: seq<IndexDef>)
    requires DistinctIndexes(desired)
    ensures DistinctBy(OpKey, IndexOps(table, desired, live))
  {
    if desired != [] {
      IndexOpsDistinct(table, desired[1..], live);
      IndexOpsSplit(table, desired, live);
      var head, rest := IndexOps(table, [desired[0]], live), IndexOps(table, desired[1..], live);
      forall x, y | x in head && y in rest ensures OpKey(x) != OpKey(y) {
        var d := IndexOpsName(table, [desired[0]], live, x);
        var e := IndexOpsName(table, desired[1..], live, y);
        var i :| 0 <= i < |desired[1..]| && desired[1..][i] == e;
        assert desired[i + 1] == e;
      }
      DistinctAppend(head, rest);
    }
  }

  lemma {:induction false} StaleOpsDistinct(table: string, desired: seq<IndexDef>, live: seq<IndexDef>)
    requires DistinctIndexes(live)
    ensures DistinctBy(OpKey, StaleOps(table, desired, live))
  {
    if live != [] {
      var rest := StaleOps(table, desired, live[1..]);
      StaleOpsDistinct(table, desired, live[1..]);
      if FindIndex(desired, live[0].name).None? {
        forall y | y in rest ensures OpKey(DropIndex(table, live[0])) != OpKey(y) {
          StaleOpsElements(table, desired, live[1..], y);
          var x :| x in live[1..] && y == DropIndex(table, x);
          var i :| 0 <= i < |live[1..]| && live[1..][i] == x;
          assert live[i + 1] == x;
        }
        DistinctAppend([DropIndex(table, live[0])], rest);
      }
    }
  }

  lemma SortedIndexesDistinct(xs: seq<IndexDef>)
    requires DistinctIndexes(xs)
    ensures DistinctIndexes(SortBy(IndexKey, xs))
  {
    var sorted := SortBy(IndexKey, xs);
    assert DistinctBy(IndexKey, xs) by {
      assert forall i :: 0 <= i < |xs| ==> IndexKey(xs[i]).major == xs[i].name;
    }
    DistinctAfterSort(IndexKey, xs);
    forall i, j | 0 <= i < j < |sorted| ensures sorted[i].name != sorted[j].name {
      assert IndexKey(sorted[i]) != IndexKey(sorted[j]);
    }
  }

  lemma IndexKeysApart(table: string, desired: seq<IndexDef>, live: seq<IndexDef>, stale: seq<IndexDef>)
    requires DistinctIndexes(desired) && DistinctIndexes(stale)
    ensures DistinctBy(OpKey, IndexOps(table, desired, live) + StaleOps(table, desired, stale))
  {
    IndexOpsDistinct(table, desired, live);
    StaleOpsDistinct(table, desired, stale);
    forall x, y | x in IndexOps(table, desired, live) && y in StaleOps(table, desired, stale)
      ensures OpKey(x) != OpKey(y)
    {
      var d := IndexOpsName(table, desired, live, x);
      StaleOpsElements(table, desired, stale, y);
      var z :| z in stale && FindIndex(desired, z.name).None? && y == DropIndex(table, z);
      FindIndexMeaning(desired, z.name);
    }
    DistinctAppend(IndexOps(table, desired, live), StaleOps(table, desired, stale));
  }

  lemma AddKeysApart(table: string, added: seq<ColumnDef>, others: seq<PlanOp>)
    requires DistinctColumns(added) && DistinctBy(OpKey, others)
    requires forall y :: y in others ==> OpKey(y).rank != 2
    ensures DistinctBy(OpKey, AddOps(table, SortBy(ColumnKey, added)) + others)
  {
    AddOpsDistinct(table, added);
    AddOpsAt(table, SortBy(ColumnKey, added));
    DistinctAppend(AddOps(table, SortBy(ColumnKey, added)), others);
  }

  lemma IndexOpRank(table: string, desired: seq<IndexDef>, live: seq<IndexDef>, stale: seq<IndexDef>, op: PlanOp)
    requires op in IndexOps(table, desired, live) + StaleOps(table, desired, stale)
    ensures OpKey(op).rank != 2
  {
    if op in IndexOps(table, desired, live) {
      var e := IndexOpsName(table, desired, live, op);
    } else {
      StaleOpsElements(table, desired, stale, op);
    }
  }

  /** No two operations on one table have the same place in the execution order. */
  lemma AlterOpsDistinct(d: TableDef, live: TableDef)
    requires DistinctColumns(d.columns) && DistinctIndexes(d.indexes) && DistinctIndexes(live.indexes)
    ensures DistinctBy(OpKey, AlterOps(d, live))
  {
    var sorted := SortBy(IndexKey, live.indexes);
    AddedColumnsDistinct(d.columns, live.columns);
    SortedIndexesDistinct(live.indexes);
    IndexKeysApart(d.name, d.indexes, live.indexes, sorted);
    var others := IndexOps(d.name, d.indexes, live.indexes) + StaleOps(d.name, d.indexes, sorted);
    forall y | y in others ensures OpKey(y).rank != 2 {
      IndexOpRank(d.name, d.indexes, live.indexes, sorted, y);
    }
    AddKeysApart(d.name, AddedColumns(d.columns, live.columns), others);
  }
}
