/** The normal form is canonical: it exists exactly for well-formed snapshots, normalizing is
    idempotent, and the order in which tables, columns and indexes were listed is forgotten,
    down to the error that is reported. */
module SchemaNormalForm {
  import opened Prelude
  import opened Ordering
  import opened SchemaTypes

  lemma {:induction false} SortTablesPointwise(ts: seq<TableDef>)
    ensures |SortTables(ts)| == |ts|
    ensures forall i :: 0 <= i < |ts| ==> SortTables(ts)[i] == SortTable(ts[i])
  {
    if ts != [] { SortTablesPointwise(ts[1..]); }
  }

  function SortedTables(s: SchemaDef): seq<TableDef> {
    SortTables(SortBy(TableKey, s.tables))
  }

  /** Every sorted table is some given table sorted, and the names line up. */
  lemma SortedTablesSource(s: SchemaDef)
    ensures |SortedTables(s)| == |SortBy(TableKey, s.tables)| == |s.tables|
    ensures forall i :: 0 <= i < |s.tables| ==>
              SortedTables(s)[i] == SortTable(SortBy(TableKey, s.tables)[i])
    ensures forall t :: t in s.tables ==> SortTable(t) in SortedTables(s)
    ensures forall t :: t in SortedTables(s) ==> exists u :: u in s.tables && t == SortTable(u)
  {
    var ordered := SortBy(TableKey, s.tables);
    SortTablesPointwise(ordered);
    SortByElements(TableKey, s.tables);
    forall t | t in s.tables ensures SortTable(t) in SortedTables(s) {
      assert t in ordered;
      var i :| 0 <= i < |ordered| && ordered[i] == t;
      assert SortedTables(s)[i] == SortTable(t);
    }
    forall t | t in SortedTables(s) ensures exists u :: u in s.tables && t == SortTable(u) {
      var i :| 0 <= i < |SortedTables(s)| && SortedTables(s)[i] == t;
      assert ordered[i] in s.tables;
    }
  }

  lemma SortedTablesInOrder(s: SchemaDef)
    ensures InOrder(SchemaDef(SortedTables(s)))
  {
    var ordered, ts := SortBy(TableKey, s.tables), SortedTables(s);
    SortedTablesSource(s);
    SortBySorts(TableKey, s.tables);
    forall i, j | 0 <= i < j < |ts| ensures KeyLeq(TableKey(ts[i]), TableKey(ts[j])) {
      assert KeyLeq(TableKey(ordered[i]), TableKey(ordered[j]));
    }
    forall t | t in ts ensures TableInOrder(t) {
      var u :| u in s.tables && t == SortTable(u);
      SortTableKeeps(u);
    }
  }

  lemma SortedTablesDistinct(s: SchemaDef)
    ensures DistinctBy(TableKey, SortedTables(s)) <==> DistinctBy(TableKey, s.tables)
  {
    var ordered, ts := SortBy(TableKey, s.tables), SortedTables(s);
    SortedTablesSource(s);
    DistinctAfterSort(TableKey, s.tables);
    assert forall i :: 0 <= i < |ts| ==> TableKey(ts[i]) == TableKey(ordered[i]);
  }

  lemma SortedTablesProperties(s: SchemaDef)
    ensures InOrder(SchemaDef(SortedTables(s)))
    ensures WellFormed(SchemaDef(SortedTables(s))) <==> WellFormed(s)
  {
    SortedTablesInOrder(s);
    SortedTablesDistinct(s);
    TableNamesDistinct(s.tables);
    TableNamesDistinct(SortedTables(s));
    SortedTablesSource(s);
    forall t | t in s.tables ensures WellFormedTable(SortTable(t)) <==> WellFormedTable(t) {
      SortTableKeeps(t);
    }
  }

  lemma TableNamesDistinct(ts: seq<TableDef>)
    ensures DistinctBy(TableKey, ts) <==> forall i, j :: 0 <= i < j < |ts| ==> ts[i].name != ts[j].name
  {
    assert forall i :: 0 <= i < |ts| ==> TableKey(ts[i]).major == ts[i].name;
  }

  /** Normalizing succeeds exactly on well-formed snapshots and then yields them in order. */
  lemma NormalizedMeaning(s: SchemaDef)
    ensures Normalized(s).Ok? <==> WellFormed(s)
    ensures Normalized(s).Ok? ==>
              && Normalized(s).value == SchemaDef(SortedTables(s))
              && WellFormed(Normalized(s).value)
              && InOrder(Normalized(s).value)
  {
    var ts := SortedTables(s);
    SortedTablesProperties(s);
    AdjacentDuplicateMeaning(TableKey, ts);
    TableNamesDistinct(ts);
    FirstFaultMeaning(ts);
  }

  lemma {:induction false} SortTablesFixed(ts: seq<TableDef>)
    requires forall t :: t in ts ==> TableInOrder(t)
    ensures SortTables(ts) == ts
  {
    if ts != [] {
      assert TableInOrder(ts[0]);
      SortByFixed(ColumnKey, ts[0].columns);
      SortByFixed(IndexKey, ts[0].indexes);
      SortTablesFixed(ts[1..]);
      assert ts == [ts[0]] + ts[1..];
    }
  }

  /** Being in normal form is being well formed and listed in name order. */
  lemma IsNormalMeaning(s: SchemaDef)
    ensures IsNormal(s) <==> WellFormed(s) && InOrder(s)
  {
    NormalizedMeaning(s);
    if InOrder(s) {
      SortByFixed(TableKey, s.tables);
      SortTablesFixed(s.tables);
    }
  }

  /** `normalized` is idempotent. */
  lemma NormalizedIdempotent(s: SchemaDef)
    ensures Normalized(s).Ok? ==> Normalized(Normalized(s).value) == Normalized(s)
  {
    NormalizedMeaning(s);
    if Normalized(s).Ok? { IsNormalMeaning(Normalized(s).value); }
  }

  /* ---------- The listing order does not matter ---------- */

  lemma {:induction false} AdjacentDuplicateByKeys<T>(key: T -> Key, xs: seq<T>, ys: seq<T>)
    requires |xs| == |ys|
    requires forall i :: 0 <= i < |xs| ==> key(xs[i]) == key(ys[i])
    ensures AdjacentDuplicate(key, xs) == AdjacentDuplicate(key, ys)
  {
    if |xs| >= 2 {
      forall i | 0 <= i < |xs[1..]| ensures key(xs[1..][i]) == key(ys[1..][i]) {
        assert key(xs[i + 1]) == key(ys[i + 1]);
      }
      AdjacentDuplicateByKeys(key, xs[1..], ys[1..]);
    }
  }

  /** Permuting the tables changes neither the result nor the error. */
  lemma NormalizedPermutedTables(a: SchemaDef, b: SchemaDef)
    requires multiset(a.tables) == multiset(b.tables)
    ensures Normalized(a) == Normalized(b)
  {
    SortByCanonical(TableKey, a.tables, b.tables);
    var x, y := SortBy(TableKey, a.tables), SortBy(TableKey, b.tables);
    SortTablesPointwise(x);
    SortTablesPointwise(y);
    forall i | 0 <= i < |x| ensures TableKey(SortTables(x)[i]) == TableKey(SortTables(y)[i]) {
      assert TableKey(x[i]) == TableKey(y[i]);
    }
    AdjacentDuplicateByKeys(TableKey, SortTables(x), SortTables(y));
    if AdjacentDuplicate(TableKey, SortTables(x)).None? {
      SortedTablesProperties(a);
      AdjacentDuplicateMeaning(TableKey, SortTables(x));
      forall i, j | 0 <= i < j < |x| ensures TableKey(x[i]) != TableKey(x[j]) {
        assert TableKey(SortTables(x)[i]) != TableKey(SortTables(x)[j]);
      }
    }
  }

  /** The same table with its columns and indexes listed in another order. */
  ghost predicate TablePermuted(a: TableDef, b: TableDef) {
    && a.name == b.name
    && a.primaryKey == b.primaryKey
    && multiset(a.columns) == multiset(b.columns)
    && multiset(a.indexes) == multiset(b.indexes)
  }

  ghost predicate Pointwise(a: seq<TableDef>, b: seq<TableDef>) {
    |a| == |b| && forall i :: 0 <= i < |a| ==> TablePermuted(a[i], b[i])
  }

  lemma {:induction false} InsertPointwise(x: TableDef, y: TableDef, a: seq<TableDef>, b: seq<TableDef>)
    requires TablePermuted(x, y) && Pointwise(a, b)
    ensures Pointwise(InsertBy(TableKey, x, a), InsertBy(TableKey, y, b))
  {
    if !(a == [] || KeyLeq(TableKey(x), TableKey(a[0]))) {
      assert TablePermuted(a[0], b[0]);
      InsertPointwise(x, y, a[1..], b[1..]);
    }
  }

  lemma {:induction false} SortPointwise(a: seq<TableDef>, b: seq<TableDef>)
    requires Pointwise(a, b)
    ensures Pointwise(SortBy(TableKey, a), SortBy(TableKey, b))
  {
    if a != [] {
      SortPointwise(a[1..], b[1..]);
      InsertPointwise(a[0], b[0], SortBy(TableKey, a[1..]), SortBy(TableKey, b[1..]));
    }
  }

  lemma {:induction false} HasColumnByKeys(a: seq<ColumnDef>, b: seq<ColumnDef>, name: string)
    requires |a| == |b| && forall i :: 0 <= i < |a| ==> ColumnKey(a[i]) == ColumnKey(b[i])
    ensures HasColumn(a, name) ==> HasColumn(b, name)
  {
    if HasColumn(a, name) {
      var i :| 0 <= i < |a| && a[i].name == name;
      assert ColumnKey(a[i]).major == ColumnKey(b[i]).major;
    }
  }

  /** A table's verdict does not depend on its listing order, and an accepted table sorts to
      one definition. */
  lemma TableFaultPermuted(a: TableDef, b: TableDef)
    requires TablePermuted(a, b)
    ensures TableFault(SortTable(a)) == TableFault(SortTable(b))
    ensures TableFault(SortTable(a)).None? ==> SortTable(a) == SortTable(b)
  {
    var x, y := SortTable(a), SortTable(b);
    SortTableKeeps(a);
    SortByCanonical(ColumnKey, a.columns, b.columns);
    SortByCanonical(IndexKey, a.indexes, b.indexes);
    AdjacentDuplicateByKeys(ColumnKey, x.columns, y.columns);
    AdjacentDuplicateByKeys(IndexKey, x.indexes, y.indexes);
    HasColumnByKeys(x.columns, y.columns, a.primaryKey.name);
    HasColumnByKeys(y.columns, x.columns, a.primaryKey.name);
    AdjacentDuplicateMeaning(ColumnKey, x.columns);
    AdjacentDuplicateMeaning(IndexKey, x.indexes);
  }

  lemma {:induction false} FirstFaultPermuted(a: seq<TableDef>, b: seq<TableDef>)
    requires Pointwise(a, b)
    ensures FirstFault(SortTables(a)) == FirstFault(SortTables(b))
    ensures FirstFault(SortTables(a)).None? ==> SortTables(a) == SortTables(b)
  {
    if a != [] {
      assert TablePermuted(a[0], b[0]);
      TableFaultPermuted(a[0], b[0]);
      FirstFaultPermuted(a[1..], b[1..]);
    }
  }

  /** Permuting columns and indexes inside the tables changes neither the result nor the error. */
  lemma NormalizedPermutedMembers(a: SchemaDef, b: SchemaDef)
    requires Pointwise(a.tables, b.tables)
    ensures Normalized(a) == Normalized(b)
  {
    var x, y := SortBy(TableKey, a.tables), SortBy(TableKey, b.tables);
    SortPointwise(a.tables, b.tables);
    SortTablesPointwise(x);
    SortTablesPointwise(y);
    forall i | 0 <= i < |x| ensures TableKey(SortTables(x)[i]) == TableKey(SortTables(y)[i]) {
      assert TablePermuted(x[i], y[i]);
    }
    AdjacentDuplicateByKeys(TableKey, SortTables(x), SortTables(y));
    FirstFaultPermuted(x, y);
  }

  /* ---------- The loop that computes it ---------- */

  method FindAdjacentDuplicate<T>(key: T -> Key, xs: seq<T>) returns (r: Option<Key>)
    ensures r == AdjacentDuplicate(key, xs)
  {
    var i := 0;
    while i + 1 < |xs|
      invariant 0 <= i && (i == 0 || i < |xs|)
      invariant AdjacentDuplicate(key, xs) == AdjacentDuplicate(key, xs[i..])
    {
      if key(xs[i]) == key(xs[i + 1]) {
        return Some(key(xs[i]));
      }
      assert xs[i..][1..] == xs[i + 1..];
      i := i + 1;
    }
    return None;
  }

  method FindDanglingIndex(t: TableDef) returns (r: Option<SchemaError>)
    ensures r == DanglingIndex(t, t.indexes)
  {
    for i := 0 to |t.indexes|
      invariant DanglingIndex(t, t.indexes) == DanglingIndex(t, t.indexes[i..])
    {
      var index := t.indexes[i];
      if index.column != t.primaryKey.name && !HasColumn(t.columns, index.column) {
        return Some(UnknownIndexColumn(index.name, t.name, index.column));
      }
      assert t.indexes[i..][1..] == t.indexes[i + 1..];
    }
    return None;
  }

  method CheckTable(t: TableDef) returns (r: Option<SchemaError>)
    ensures r == TableFault(t)
  {
    var column := FindAdjacentDuplicate(ColumnKey, t.columns);
    if column.Some? {
      return Some(DuplicateColumn(column.value.major, t.name));
    }
    if HasColumn(t.columns, t.primaryKey.name) {
      return Some(PrimaryKeyAmongColumns(t.primaryKey.name, t.name));
    }
    var index := FindAdjacentDuplicate(IndexKey, t.indexes);
    if index.Some? {
      return Some(DuplicateIndex(index.value.major, t.name));
    }
    r := FindDanglingIndex(t);
  }

  method CheckTables(ts: seq<TableDef>) returns (r: Option<SchemaError>)
    ensures r == FirstFault(ts)
  {
    for i := 0 to |ts|
      invariant FirstFault(ts) == FirstFault(ts[i..])
    {
      r := CheckTable(ts[i]);
      if r.Some? {
        return;
      }
      assert ts[i..][1..] == ts[i + 1..];
    }
    return None;
  }

  method SortMembers(ts: seq<TableDef>) returns (r: seq<TableDef>)
    ensures r == SortTables(ts)
  {
    SortTablesPointwise(ts);
    r := ts;
    for i := 0 to |r|
      invariant |r| == |ts|
      invariant forall k :: 0 <= k < i ==> r[k] == SortTable(ts[k])
      invariant forall k :: i <= k < |r| ==> r[k] == ts[k]
    {
      r := r[i := SortTable(r[i])];
    }
  }

  /** `SchemaDef::normalized`: sort everything, then run the checks table by table. */
  method Normalize(s: SchemaDef) returns (r: Result<SchemaDef, SchemaError>)
    ensures r == Normalized(s)
    ensures r.Ok? <==> WellFormed(s)
  {
    NormalizedMeaning(s);
    var tables := SortMembers(SortBy(TableKey, s.tables));
    var duplicate := FindAdjacentDuplicate(TableKey, tables);
    if duplicate.Some? {
      return Err(DuplicateTable(duplicate.value.major));
    }
    var fault := CheckTables(tables);
    r := if fault.Some? then Err(fault.value) else Ok(SchemaDef(tables));
  }
}
