/** Schema snapshots and their normal form (src/schema/types.rs). */
module SchemaTypes {
  import opened Prelude
  import opened Ordering

  datatype ColumnDef = ColumnDef(name: string, sqlType: string, nullable: bool, defaultSql: Option<string>)

  datatype IndexDef = IndexDef(name: string, column: string, unique: bool)

  datatype PrimaryKeyDef = PrimaryKeyDef(name: string, sqlType: string)

  datatype TableDef = TableDef(name: string, primaryKey: PrimaryKeyDef, columns: seq<ColumnDef>, indexes: seq<IndexDef>)

  datatype SchemaDef = SchemaDef(tables: seq<TableDef>)

  /** The `InvalidSchema` messages, by what they name. */
  datatype SchemaError =
    | DuplicateTable(table: string)
    | DuplicateColumn(column: string, table: string)
    | PrimaryKeyAmongColumns(column: string, table: string)
    | DuplicateIndex(index: string, table: string)
    | UnknownIndexColumn(index: string, table: string, column: string)
    | MissingField(kind: string)
    | TrailingData(kind: string)
    | UnknownTable(table: string)
    | BadFlag(flag: string)
    | UnknownKind(kind: string)

  function TableKey(t: TableDef): Key { NameKey(t.name) }

  function ColumnKey(c: ColumnDef): Key { NameKey(c.name) }

  function IndexKey(i: IndexDef): Key { NameKey(i.name) }

  predicate HasColumn(columns: seq<ColumnDef>, name: string) {
    exists i :: 0 <= i < |columns| && columns[i].name == name
  }

  /** `name` is the primary key or one of the columns. */
  predicate Declares(t: TableDef, name: string) {
    name == t.primaryKey.name || HasColumn(t.columns, name)
  }

  /* ---------- Normal form ---------- */

  function SortTable(t: TableDef): TableDef {
    t.(columns := SortBy(ColumnKey, t.columns), indexes := SortBy(IndexKey, t.indexes))
  }

  function SortTables(ts: seq<TableDef>): seq<TableDef> {
    if ts == [] then [] else [SortTable(ts[0])] + SortTables(ts[1..])
  }

  /** The first index naming no column of its table. */
  function DanglingIndex(t: TableDef, indexes: seq<IndexDef>): Option<SchemaError> {
    if indexes == [] then None
    else if !Declares(t, indexes[0].column) then
      Some(UnknownIndexColumn(indexes[0].name, t.name, indexes[0].column))
    else DanglingIndex(t, indexes[1..])
  }

  function AdjacentDuplicate<T>(key: T -> Key, xs: seq<T>): Option<Key> {
    if |xs| < 2 then None
    else if key(xs[0]) == key(xs[1]) then Some(key(xs[0]))
    else AdjacentDuplicate(key, xs[1..])
  }

  function TableFault(t: TableDef): Option<SchemaError> {
    var column := AdjacentDuplicate(ColumnKey, t.columns);
    if column.Some? then Some(DuplicateColumn(column.value.major, t.name))
    else if HasColumn(t.columns, t.primaryKey.name) then Some(PrimaryKeyAmongColumns(t.primaryKey.name, t.name))
    else
      var index := AdjacentDuplicate(IndexKey, t.indexes);
      if index.Some? then Some(DuplicateIndex(index.value.major, t.name))
      else DanglingIndex(t, t.indexes)
  }

  function FirstFault(ts: seq<TableDef>): Option<SchemaError> {
    if ts == [] then None
    else if TableFault(ts[0]).Some? then TableFault(ts[0])
    else FirstFault(ts[1..])
  }

  /** `SchemaDef::normalized`, as a function of the snapshot. */
  function Normalized(s: SchemaDef): Result<SchemaDef, SchemaError> {
    var tables := SortTables(SortBy(TableKey, s.tables));
    var table := AdjacentDuplicate(TableKey, tables);
    if table.Some? then Err(DuplicateTable(table.value.major))
    else
      var fault := FirstFault(tables);
      if fault.Some? then Err(fault.value) else Ok(SchemaDef(tables))
  }

  /** Already in normal form. */
  predicate IsNormal(s: SchemaDef) {
    Normalized(s) == Ok(s)
  }

  /* ---------- What the checks mean ---------- */

  ghost predicate WellFormedTable(t: TableDef) {
    && (forall i, j :: 0 <= i < j < |t.columns| ==> t.columns[i].name != t.columns[j].name)
    && !HasColumn(t.columns, t.primaryKey.name)
    && (forall i, j :: 0 <= i < j < |t.indexes| ==> t.indexes[i].name != t.indexes[j].name)
    && (forall i :: i in t.indexes ==> Declares(t, i.column))
  }

  ghost predicate WellFormed(s: SchemaDef) {
    && (forall i, j :: 0 <= i < j < |s.tables| ==> s.tables[i].name != s.tables[j].name)
    && (forall t :: t in s.tables ==> WellFormedTable(t))
  }

  ghost predicate TableInOrder(t: TableDef) {
    SortedBy(ColumnKey, t.columns) && SortedBy(IndexKey, t.indexes)
  }

  ghost predicate InOrder(s: SchemaDef) {
    SortedBy(TableKey, s.tables) && forall t :: t in s.tables ==> TableInOrder(t)
  }

  lemma {:induction false} AdjacentDuplicateMeaning<T>(key: T -> Key, xs: seq<T>)
    requires SortedBy(key, xs)
    ensures AdjacentDuplicate(key, xs).None? <==> DistinctBy(key, xs)
  {
    if |xs| >= 2 {
      if key(xs[0]) != key(xs[1]) {
        AdjacentDuplicateMeaning(key, xs[1..]);
        if DistinctBy(key, xs[1..]) {
          forall i, j | 0 <= i && j == i + 1 < |xs| ensures key(xs[i]) != key(xs[j]) {
            if i > 0 { assert key(xs[1..][i - 1]) != key(xs[1..][j - 1]); }
          }
          AdjacentDistinct(key, xs);
        } else {
          var i, j :| 0 <= i < j < |xs[1..]| && key(xs[1..][i]) == key(xs[1..][j]);
          assert key(xs[i + 1]) == key(xs[j + 1]);
        }
      }
    }
  }

  lemma {:induction false} DanglingIndexMeaning(t: TableDef, indexes: seq<IndexDef>)
    ensures DanglingIndex(t, indexes).None? <==> forall i :: i in indexes ==> Declares(t, i.column)
  {
    if indexes != [] {
      DanglingIndexMeaning(t, indexes[1..]);
      assert indexes == [indexes[0]] + indexes[1..];
    }
  }

  lemma TableFaultMeaning(t: TableDef)
    requires TableInOrder(t)
    ensures TableFault(t).None? <==> WellFormedTable(t)
  {
    AdjacentDuplicateMeaning(ColumnKey, t.columns);
    AdjacentDuplicateMeaning(IndexKey, t.indexes);
    DanglingIndexMeaning(t, t.indexes);
    assert DistinctBy(ColumnKey, t.columns)
      <==> forall i, j :: 0 <= i < j < |t.columns| ==> t.columns[i].name != t.columns[j].name by {
      assert forall i :: 0 <= i < |t.columns| ==> ColumnKey(t.columns[i]).major == t.columns[i].name;
    }
    assert DistinctBy(IndexKey, t.indexes)
      <==> forall i, j :: 0 <= i < j < |t.indexes| ==> t.indexes[i].name != t.indexes[j].name by {
      assert forall i :: 0 <= i < |t.indexes| ==> IndexKey(t.indexes[i]).major == t.indexes[i].name;
    }
  }

  lemma {:induction false} FirstFaultMeaning(ts: seq<TableDef>)
    requires forall t :: t in ts ==> TableInOrder(t)
    ensures FirstFault(ts).None? <==> forall t :: t in ts ==> WellFormedTable(t)
  {
    if ts != [] {
      TableFaultMeaning(ts[0]);
      FirstFaultMeaning(ts[1..]);
      assert ts == [ts[0]] + ts[1..];
    }
  }

  lemma SortTableKeeps(t: TableDef)
    ensures TableInOrder(SortTable(t))
    ensures forall c :: c in SortTable(t).columns <==> c in t.columns
    ensures forall i :: i in SortTable(t).indexes <==> i in t.indexes
    ensures WellFormedTable(SortTable(t)) <==> WellFormedTable(t)
    ensures forall name :: Declares(SortTable(t), name) <==> Declares(t, name)
  {
    var s := SortTable(t);
    SortBySorts(ColumnKey, t.columns);
    SortBySorts(IndexKey, t.indexes);
    SortByElements(ColumnKey, t.columns);
    SortByElements(IndexKey, t.indexes);
    forall name ensures HasColumn(s.columns, name) <==> HasColumn(t.columns, name) {
      SameColumnNames(s.columns, t.columns, name);
      SameColumnNames(t.columns, s.columns, name);
    }
    DistinctAfterSort(ColumnKey, t.columns);
    DistinctAfterSort(IndexKey, t.indexes);
    DistinctNames(t);
    DistinctNames(s);
  }

  lemma SameColumnNames(a: seq<ColumnDef>, b: seq<ColumnDef>, name: string)
    requires forall c :: c in a ==> c in b
    ensures HasColumn(a, name) ==> HasColumn(b, name)
  {
    if HasColumn(a, name) {
      var i :| 0 <= i < |a| && a[i].name == name;
      assert a[i] in b;
    }
  }

  lemma DistinctNames(t: TableDef)
    ensures DistinctBy(ColumnKey, t.columns)
       <==> forall i, j :: 0 <= i < j < |t.columns| ==> t.columns[i].name != t.columns[j].name
    ensures DistinctBy(IndexKey, t.indexes)
       <==> forall i, j :: 0 <= i < j < |t.indexes| ==> t.indexes[i].name != t.indexes[j].name
  {
    assert forall i :: 0 <= i < |t.columns| ==> ColumnKey(t.columns[i]).major == t.columns[i].name;
    assert forall i :: 0 <= i < |t.indexes| ==> IndexKey(t.indexes[i]).major == t.indexes[i].name;
  }

  /** Whether keys repeat does not depend on the order. */
  lemma DistinctAfterSort<T>(key: T -> Key, xs: seq<T>)
    ensures DistinctBy(key, SortBy(key, xs)) <==> DistinctBy(key, xs)
  {
    DistinctIsCount(key, xs);
    DistinctIsCount(key, SortBy(key, xs));
    forall k ensures KeyCount(key, SortBy(key, xs), k) == KeyCount(key, xs, k) {
      KeyCountSort(key, xs, k);
    }
    assert NoKeyTwice(key, xs) <==> NoKeyTwice(key, SortBy(key, xs));
  }

  ghost predicate NoKeyTwice<T>(key: T -> Key, xs: seq<T>) {
    forall k :: KeyCount(key, xs, k) <= 1
  }

  lemma {:induction false} DistinctIsCount<T>(key: T -> Key, xs: seq<T>)
    ensures DistinctBy(key, xs) <==> NoKeyTwice(key, xs)
  {
    if xs != [] {
      DistinctIsCount(key, xs[1..]);
      if KeyCount(key, xs[1..], key(xs[0])) > 0 {
        var i := KeyCountWitness(key, xs[1..], key(xs[0]));
        assert key(xs[0]) == key(xs[i + 1]);
        assert KeyCount(key, xs, key(xs[0])) > 1;
      } else {
        forall j | 0 < j < |xs| ensures key(xs[0]) != key(xs[j]) {
          KeyCountPositive(key, xs[1..], j - 1);
        }
        if DistinctBy(key, xs[1..]) {
          forall i, j | 0 <= i < j < |xs| ensures key(xs[i]) != key(xs[j]) {
            if i > 0 { assert key(xs[1..][i - 1]) != key(xs[1..][j - 1]); }
          }
          forall k ensures KeyCount(key, xs, k) <= 1 {
            assert KeyCount(key, xs[1..], k) <= 1;
          }
        } else {
          var i, j :| 0 <= i < j < |xs[1..]| && key(xs[1..][i]) == key(xs[1..][j]);
          assert key(xs[i + 1]) == key(xs[j + 1]);
          var k :| KeyCount(key, xs[1..], k) > 1;
          assert KeyCount(key, xs, k) > 1;
        }
      }
    }
  }
}
