/** The canonical text of a schema and its reader (src/schema/types.rs): one tab-separated
    record per table, column and index, one record per line. */
module CanonicalText {
  import opened Prelude
  import opened Ordering
  import opened SchemaTypes
  import opened SchemaNormalForm

  /* ---------- Splitting and joining ---------- */

  function Split(sep: char, s: string): (parts: seq<string>)
    ensures |parts| > 0
  {
    if s == [] then [[]]
    else
      var rest := Split(sep, s[1..]);
      if s[0] == sep then [[]] + rest else [[s[0]] + rest[0]] + rest[1..]
  }

  function Join(sep: char, fields: seq<string>): string {
    if fields == [] then ""
    else if |fields| == 1 then fields[0] else fields[0] + [sep] + Join(sep, fields[1..])
  }

  /** Every line followed by a newline, as `writeln!` leaves it. */
  function Text(lines: seq<string>): string {
    if lines == [] then "" else lines[0] + "\n" + Text(lines[1..])
  }

  /** One carriage return before the newline belongs to the line ending. */
  function StripCr(line: string): string {
    if line != "" && line[|line| - 1] == '\r' then line[..|line| - 1] else line
  }

  function StripEach(lines: seq<string>): seq<string> {
    if lines == [] then [] else [StripCr(lines[0])] + StripEach(lines[1..])
  }

  /** `str::lines`: an unterminated last line is kept as it is. */
  function Lines(text: string): seq<string> {
    var parts := Split('\n', text);
    var last := parts[|parts| - 1];
    StripEach(parts[..|parts| - 1]) + (if last == "" then [] else [last])
  }

  lemma {:induction false} SplitParts(sep: char, s: string)
    ensures forall part :: part in Split(sep, s) ==> sep !in part
  {
    if s != [] {
      SplitParts(sep, s[1..]);
      var rest := Split(sep, s[1..]);
      assert rest[0] in rest;
      forall part | part in Split(sep, s) ensures sep !in part {
        assert rest == [rest[0]] + rest[1..];
      }
    }
  }

  /** Characters of a part are characters of the text it was cut from. */
  lemma {:induction false} SplitSource(sep: char, s: string)
    ensures forall part, c :: part in Split(sep, s) && c in part ==> c in s
  {
    if s != [] {
      SplitSource(sep, s[1..]);
      var rest := Split(sep, s[1..]);
      assert rest[0] in rest;
      forall part, c | part in Split(sep, s) && c in part ensures c in s {
        if part in rest { assert c in s[1..]; }
        else if part != [] { assert part == [s[0]] + rest[0]; }
      }
    }
  }

  lemma {:induction false} SplitHead(sep: char, field: string, rest: string)
    requires sep !in field
    ensures Split(sep, field + [sep] + rest) == [field] + Split(sep, rest)
    ensures Split(sep, field) == [field]
  {
    if field == [] {
      assert field + [sep] + rest == [sep] + rest;
    } else {
      SplitHead(sep, field[1..], rest);
      assert (field + [sep] + rest)[1..] == field[1..] + [sep] + rest;
      assert field == [field[0]] + field[1..];
    }
  }

  lemma {:induction false} SplitJoin(sep: char, fields: seq<string>)
    requires fields != [] && forall f :: f in fields ==> sep !in f
    ensures Split(sep, Join(sep, fields)) == fields
  {
    if |fields| == 1 {
      SplitHead(sep, fields[0], "");
    } else {
      SplitJoin(sep, fields[1..]);
      SplitHead(sep, fields[0], Join(sep, fields[1..]));
      assert fields == [fields[0]] + fields[1..];
    }
  }

  lemma {:induction false} SplitText(lines: seq<string>)
    requires forall l :: l in lines ==> '\n' !in l
    ensures Split('\n', Text(lines)) == lines + [""]
  {
    if lines != [] {
      SplitText(lines[1..]);
      SplitHead('\n', lines[0], Text(lines[1..]));
      assert lines + [""] == [lines[0]] + (lines[1..] + [""]);
    }
  }

  lemma LinesOfText(lines: seq<string>)
    requires forall l :: l in lines ==> '\n' !in l
    ensures Lines(Text(lines)) == StripEach(lines)
  {
    SplitText(lines);
    assert (lines + [""])[..|lines|] == lines;
  }

  lemma {:induction false} JoinLacks(sep: char, fields: seq<string>, c: char)
    requires fields != [] && c != sep && forall f :: f in fields ==> c !in f
    ensures c !in Join(sep, fields)
  {
    if |fields| > 1 { JoinLacks(sep, fields[1..], c); }
  }

  function StripLast(fields: seq<string>): seq<string>
    requires fields != []
  {
    fields[..|fields| - 1] + [StripCr(fields[|fields| - 1])]
  }

  /** Stripping a joined line strips its last field: a tab protects the ones before. */
  lemma {:induction false} StripJoin(fields: seq<string>)
    requires fields != []
    ensures StripCr(Join('\t', fields)) == Join('\t', StripLast(fields))
  {
    if |fields| > 1 {
      StripJoin(fields[1..]);
      assert StripLast(fields)[1..] == StripLast(fields[1..]);
      var tail := Join('\t', fields[1..]);
      var line := fields[0] + ['\t'] + tail;
      if tail == "" {
        assert line[|line| - 1] == '\t';
      } else {
        assert line[|line| - 1] == tail[|tail| - 1];
        assert line[..|line| - 1] == fields[0] + ['\t'] + tail[..|tail| - 1];
      }
    }
  }

  /* ---------- Printing ---------- */

  function Flag(b: bool): string { if b then "1" else "0" }

  function TableRow(t: TableDef): seq<string> {
    ["table", t.name, t.primaryKey.name, t.primaryKey.sqlType]
  }

  function ColumnRow(table: string, c: ColumnDef): seq<string> {
    ["column", table, c.name, c.sqlType, Flag(c.nullable), if c.defaultSql.Some? then c.defaultSql.value else ""]
  }

  function IndexRow(table: string, i: IndexDef): seq<string> {
    ["index", table, i.name, i.column, Flag(i.unique)]
  }

  function ColumnRows(table: string, cs: seq<ColumnDef>): seq<seq<string>> {
    if cs == [] then [] else [ColumnRow(table, cs[0])] + ColumnRows(table, cs[1..])
  }

  function IndexRows(table: string, xs: seq<IndexDef>): seq<seq<string>> {
    if xs == [] then [] else [IndexRow(table, xs[0])] + IndexRows(table, xs[1..])
  }

  function TableRows(t: TableDef): seq<seq<string>> {
    [TableRow(t)] + ColumnRows(t.name, t.columns) + IndexRows(t.name, t.indexes)
  }

  function Rows(ts: seq<TableDef>): seq<seq<string>> {
    if ts == [] then [] else TableRows(ts[0]) + Rows(ts[1..])
  }

  function JoinRows(rows: seq<seq<string>>): seq<string> {
    if rows == [] then [] else [Join('\t', rows[0])] + JoinRows(rows[1..])
  }

  lemma {:induction false} ColumnRowsAt(table: string, cs: seq<ColumnDef>)
    ensures |ColumnRows(table, cs)| == |cs|
    ensures forall i :: 0 <= i < |cs| ==> ColumnRows(table, cs)[i] == ColumnRow(table, cs[i])
  {
    if cs != [] { ColumnRowsAt(table, cs[1..]); }
  }

  lemma {:induction false} IndexRowsAt(table: string, xs: seq<IndexDef>)
    ensures |IndexRows(table, xs)| == |xs|
    ensures forall i :: 0 <= i < |xs| ==> IndexRows(table, xs)[i] == IndexRow(table, xs[i])
  {
    if xs != [] { IndexRowsAt(table, xs[1..]); }
  }

  lemma {:induction false} RowsNonEmpty(ts: seq<TableDef>)
    ensures forall r :: r in Rows(ts) ==> |r| > 1 && r[0] != ""
  {
    if ts != [] {
      ColumnRowsAt(ts[0].name, ts[0].columns);
      IndexRowsAt(ts[0].name, ts[0].indexes);
      RowsNonEmpty(ts[1..]);
    }
  }

  /** `SchemaDef::canonical_string`, as a function. */
  function Canonical(s: SchemaDef): string {
    Text(JoinRows(Rows(s.tables)))
  }

  /* ---------- Reading ---------- */

  function FindTable(ts: seq<TableDef>, name: string): Option<nat> {
    if ts == [] then None
    else if ts[0].name == name then Some(0)
    else
      var rest := FindTable(ts[1..], name);
      if rest.Some? then Some(rest.value + 1) else None
  }

  lemma {:induction false} FindTableBounds(ts: seq<TableDef>, name: string)
    ensures FindTable(ts, name).Some? ==>
              FindTable(ts, name).value < |ts| && ts[FindTable(ts, name).value].name == name
  {
    if ts != [] && ts[0].name != name { FindTableBounds(ts[1..], name); }
  }

  function ReadFlag(flag: string): Option<bool> {
    if flag == "0" then Some(false) else if flag == "1" then Some(true) else None
  }

  function ReadTable(ts: seq<TableDef>, f: seq<string>): Result<seq<TableDef>, SchemaError> {
    if |f| < 2 then Err(MissingField("table"))
    else if |f| > 4 then Err(TrailingData("table"))
    else
      var key := PrimaryKeyDef(if |f| > 2 then f[2] else "id", if |f| > 3 then f[3] else "INTEGER");
      Ok(ts + [TableDef(f[1], key, [], [])])
  }

  function ReadColumn(ts: seq<TableDef>, f: seq<string>): Result<seq<TableDef>, SchemaError> {
    if |f| < 5 then Err(MissingField("column"))
    else if |f| > 6 then Err(TrailingData("column"))
    else
      FindTableBounds(ts, f[1]);
      match FindTable(ts, f[1])
      case None => Err(UnknownTable(f[1]))
      case Some(i) =>
        match ReadFlag(f[4])
        case None => Err(BadFlag(f[4]))
        case Some(nullable) =>
          var default := if |f| == 6 && f[5] != "" then Some(f[5]) else None;
          Ok(ts[i := ts[i].(columns := ts[i].columns + [ColumnDef(f[2], f[3], nullable, default)])])
  }

  function ReadIndex(ts: seq<TableDef>, f: seq<string>): Result<seq<TableDef>, SchemaError> {
    if |f| < 5 then Err(MissingField("index"))
    else if |f| > 5 then Err(TrailingData("index"))
    else
      FindTableBounds(ts, f[1]);
      match FindTable(ts, f[1])
      case None => Err(UnknownTable(f[1]))
      case Some(i) =>
        match ReadFlag(f[4])
        case None => Err(BadFlag(f[4]))
        case Some(unique) =>
          Ok(ts[i := ts[i].(indexes := ts[i].indexes + [IndexDef(f[2], f[3], unique)])])
  }

  function ReadRow(ts: seq<TableDef>, f: seq<string>): Result<seq<TableDef>, SchemaError>
    requires f != []
  {
    if f[0] == "table" then ReadTable(ts, f)
    else if f[0] == "column" then ReadColumn(ts, f)
    else if f[0] == "index" then ReadIndex(ts, f)
    else Err(UnknownKind(f[0]))
  }

  function ReadLines(ts: seq<TableDef>, lines: seq<string>): Result<seq<TableDef>, SchemaError>
    decreases |lines|
  {
    if lines == [] then Ok(ts)
    else if lines[0] == "" then ReadLines(ts, lines[1..])
    else
      match ReadRow(ts, Split('\t', lines[0]))
      case Err(e) => Err(e)
      case Ok(next) => ReadLines(next, lines[1..])
  }

  /** `SchemaDef::from_canonical`, as a function. */
  function FromCanonical(text: string): Result<SchemaDef, SchemaError> {
    match ReadLines([], Lines(text))
    case Err(e) => Err(e)
    case Ok(ts) => Normalized(SchemaDef(ts))
  }

  /* ---------- What survives the round trip ---------- */

  predicate NoBreaks(s: string) { '\t' !in s && '\n' !in s }

  predicate EndsInCr(s: string) { s != "" && s[|s| - 1] == '\r' }

  predicate ColumnPrintable(c: ColumnDef) {
    NoBreaks(c.name) && NoBreaks(c.sqlType) && (c.defaultSql.Some? ==> NoBreaks(c.defaultSql.value))
  }

  predicate IndexPrintable(i: IndexDef) {
    NoBreaks(i.name) && NoBreaks(i.column)
  }

  predicate TablePrintable(t: TableDef) {
    && NoBreaks(t.name) && NoBreaks(t.primaryKey.name) && NoBreaks(t.primaryKey.sqlType)
    && (forall c :: c in t.columns ==> ColumnPrintable(c))
    && (forall i :: i in t.indexes ==> IndexPrintable(i))
  }

  /** No string of the schema holds a tab or a newline. */
  predicate Printable(s: SchemaDef) {
    forall t :: t in s.tables ==> TablePrintable(t)
  }

  /** The strings that end a line end in no carriage return, and no default is empty. */
  predicate EndsCleanly(t: TableDef) {
    && !EndsInCr(t.primaryKey.sqlType)
    && forall c :: c in t.columns && c.defaultSql.Some? ==> c.defaultSql.value != "" && !EndsInCr(c.defaultSql.value)
  }

  predicate TextSafe(s: SchemaDef) {
    Printable(s) && forall t :: t in s.tables ==> EndsCleanly(t)
  }

  function ReadBackColumn(c: ColumnDef): ColumnDef {
    if c.defaultSql.Some? then
      var d := StripCr(c.defaultSql.value);
      c.(defaultSql := if d == "" then None else Some(d))
    else c
  }

  function ReadBackColumns(cs: seq<ColumnDef>): seq<ColumnDef> {
    if cs == [] then [] else [ReadBackColumn(cs[0])] + ReadBackColumns(cs[1..])
  }

  function ReadBackTable(t: TableDef): TableDef {
    t.(primaryKey := t.primaryKey.(sqlType := StripCr(t.primaryKey.sqlType)),
       columns := ReadBackColumns(t.columns))
  }

  function ReadBackTables(ts: seq<TableDef>): seq<TableDef> {
    if ts == [] then [] else [ReadBackTable(ts[0])] + ReadBackTables(ts[1..])
  }

  /** What a printed schema reads back as. */
  function ReadBack(s: SchemaDef): SchemaDef {
    SchemaDef(ReadBackTables(s.tables))
  }

  /* ---------- Reading back what was printed ---------- */

  function StripLasts(rows: seq<seq<string>>): seq<seq<string>> {
    if rows == [] then []
    else [if rows[0] == [] then [] else StripLast(rows[0])] + StripLasts(rows[1..])
  }

  /** Reading split rows in order; `ReadLines` after the splitting is done. */
  function ReadRows(ts: seq<TableDef>, rows: seq<seq<string>>): Result<seq<TableDef>, SchemaError>
    decreases |rows|
  {
    if rows == [] then Ok(ts)
    else if rows[0] == [] then ReadRows(ts, rows[1..])
    else
      match ReadRow(ts, rows[0])
      case Err(e) => Err(e)
      case Ok(next) => ReadRows(next, rows[1..])
  }

  ghost predicate RowPrintable(row: seq<string>) {
    |row| > 1 && row[0] != "" && forall f :: f in row ==> NoBreaks(f)
  }

  lemma SplitPrintedRow(row: seq<string>)
    requires RowPrintable(row)
    ensures StripCr(Join('\t', row)) != "" && '\n' !in Join('\t', row)
    ensures Split('\t', StripCr(Join('\t', row))) == StripLast(row)
  {
    JoinLacks('\t', row, '\n');
    StripJoin(row);
    forall f | f in StripLast(row) ensures '\t' !in f {
      assert NoBreaks(row[|row| - 1]);
      assert f in row || f == StripCr(row[|row| - 1]);
    }
    SplitJoin('\t', StripLast(row));
    assert StripLast(row)[0] == row[0];
  }

  lemma {:induction false} ReadPrintedLines(ts: seq<TableDef>, rows: seq<seq<string>>)
    requires forall r :: r in rows ==> RowPrintable(r)
    ensures ReadLines(ts, StripEach(JoinRows(rows))) == ReadRows(ts, StripLasts(rows))
    decreases |rows|
  {
    if rows != [] {
      assert rows[0] in rows;
      SplitPrintedRow(rows[0]);
      assert StripEach(JoinRows(rows)) == [StripCr(Join('\t', rows[0]))] + StripEach(JoinRows(rows[1..]));
      var fields := StripLast(rows[0]);
      match ReadRow(ts, fields) {
        case Err(_) =>
        case Ok(next) => ReadPrintedLines(next, rows[1..]);
      }
    }
  }

  lemma {:induction false} StripLastsAppend(a: seq<seq<string>>, b: seq<seq<string>>)
    ensures StripLasts(a + b) == StripLasts(a) + StripLasts(b)
  {
    if a == [] {
      assert a + b == b;
    } else {
      assert (a + b)[1..] == a[1..] + b;
      StripLastsAppend(a[1..], b);
    }
  }

  ghost predicate Unused(ts: seq<TableDef>, name: string) {
    forall t :: t in ts ==> t.name != name
  }

  lemma {:induction false} FindLast(ts: seq<TableDef>, t: TableDef)
    requires Unused(ts, t.name)
    ensures FindTable(ts + [t], t.name) == Some(|ts|)
  {
    if ts != [] {
      assert ts[0] in ts;
      assert (ts + [t])[1..] == ts[1..] + [t];
      FindLast(ts[1..], t);
    }
  }

  /** A printed column record appends the column, as it reads back, to its table. */
  lemma ReadBackColumnRow(ts: seq<TableDef>, t: TableDef, c: ColumnDef)
    requires Unused(ts, t.name)
    ensures ReadRow(ts + [t], StripLast(ColumnRow(t.name, c)))
         == Ok(ts + [t.(columns := t.columns + [ReadBackColumn(c)])])
  {
    var f := StripLast(ColumnRow(t.name, c));
    assert |f| == 6 && f[0] == "column" && f[0] != "table" && f[1] == t.name;
    FindLast(ts, t);
    var next := t.(columns := t.columns + [ReadBackColumn(c)]);
    assert (ts + [t])[|ts| := next] == ts + [next];
    assert f[5] == StripCr(if c.defaultSql.Some? then c.defaultSql.value else "");
    assert ReadFlag(f[4]) == Some(c.nullable);
  }

  lemma ReadBackIndexRow(ts: seq<TableDef>, t: TableDef, x: IndexDef)
    requires Unused(ts, t.name)
    ensures ReadRow(ts + [t], StripLast(IndexRow(t.name, x))) == Ok(ts + [t.(indexes := t.indexes + [x])])
  {
    var f := StripLast(IndexRow(t.name, x));
    assert f == IndexRow(t.name, x);
    assert f[0] == "index" && f[0] != "table" && f[0][0] != "column"[0];
    FindLast(ts, t);
    var next := t.(indexes := t.indexes + [x]);
    assert (ts + [t])[|ts| := next] == ts + [next];
    assert ReadFlag(f[4]) == Some(x.unique);
  }

  lemma {:induction false} ReadBackColumnRows(ts: seq<TableDef>, t: TableDef, cs: seq<ColumnDef>,
                                              rest: seq<seq<string>>)
    requires Unused(ts, t.name)
    ensures ReadRows(ts + [t], StripLasts(ColumnRows(t.name, cs)) + rest)
         == ReadRows(ts + [t.(columns := t.columns + ReadBackColumns(cs))], rest)
    decreases |cs|
  {
    hide ReadRow, ReadBackColumn;
    var rows := StripLasts(ColumnRows(t.name, cs));
    if cs == [] {
      assert rows + rest == rest;
      assert t.columns + [] == t.columns;
    } else {
      ReadBackColumnRow(ts, t, cs[0]);
      var next := t.(columns := t.columns + [ReadBackColumn(cs[0])]);
      assert (rows + rest)[1..] == StripLasts(ColumnRows(t.name, cs[1..])) + rest;
      ReadBackColumnRows(ts, next, cs[1..], rest);
      assert next.columns + ReadBackColumns(cs[1..]) == t.columns + ReadBackColumns(cs);
    }
  }

  lemma {:induction false} ReadBackIndexRows(ts: seq<TableDef>, t: TableDef, xs: seq<IndexDef>, rest: seq<seq<string>>)
    requires Unused(ts, t.name)
    ensures ReadRows(ts + [t], StripLasts(IndexRows(t.name, xs)) + rest)
         == ReadRows(ts + [t.(indexes := t.indexes + xs)], rest)
    decreases |xs|
  {
    hide ReadRow;
    var rows := StripLasts(IndexRows(t.name, xs));
    if xs == [] {
      assert rows + rest == rest;
      assert t.indexes + [] == t.indexes;
    } else {
      ReadBackIndexRow(ts, t, xs[0]);
      var next := t.(indexes := t.indexes + [xs[0]]);
      assert (rows + rest)[1..] == StripLasts(IndexRows(t.name, xs[1..])) + rest;
      ReadBackIndexRows(ts, next, xs[1..], rest);
      assert next.indexes + xs[1..] == t.indexes + xs;
    }
  }

  lemma ReadBackTableRow(ts: seq<TableDef>, t: TableDef)
    requires Unused(ts, t.name)
    ensures ReadRow(ts, StripLast(TableRow(t)))
         == Ok(ts + [TableDef(t.name, PrimaryKeyDef(t.primaryKey.name, StripCr(t.primaryKey.sqlType)), [], [])])
  {
    assert StripLast(TableRow(t)) == ["table", t.name, t.primaryKey.name, StripCr(t.primaryKey.sqlType)];
  }

  lemma StrippedTableRows(t: TableDef)
    ensures StripLasts(TableRows(t))
         == [StripLast(TableRow(t))]
              + (StripLasts(ColumnRows(t.name, t.columns)) + StripLasts(IndexRows(t.name, t.indexes)))
  {
    hide ColumnRows, IndexRows;
    StripLastsAppend([TableRow(t)] + ColumnRows(t.name, t.columns), IndexRows(t.name, t.indexes));
    StripLastsAppend([TableRow(t)], ColumnRows(t.name, t.columns));
    assert StripLasts([TableRow(t)]) == [StripLast(TableRow(t))];
  }

  /** The records of one table rebuild that table at the end of the list. */
  lemma ReadBackTableRows(ts: seq<TableDef>, t: TableDef, rest: seq<seq<string>>)
    requires Unused(ts, t.name)
    ensures ReadRows(ts, StripLasts(TableRows(t)) + rest) == ReadRows(ts + [ReadBackTable(t)], rest)
  {
    hide ColumnRows, IndexRows, ReadRow, ReadBackColumns, StripCr;
    var head := StripLast(TableRow(t));
    var columns, indexes := StripLasts(ColumnRows(t.name, t.columns)), StripLasts(IndexRows(t.name, t.indexes));
    StrippedTableRows(t);
    var records := StripLasts(TableRows(t)) + rest;
    var after := columns + (indexes + rest);
    assert records == [head] + after;
    assert records[1..] == after;
    var empty := TableDef(t.name, PrimaryKeyDef(t.primaryKey.name, StripCr(t.primaryKey.sqlType)), [], []);
    ReadBackTableRow(ts, t);
    ReadBackColumnRows(ts, empty, t.columns, indexes + rest);
    ReadBackIndexRows(ts, empty.(columns := [] + ReadBackColumns(t.columns)), t.indexes, rest);
    assert [] + ReadBackColumns(t.columns) == ReadBackColumns(t.columns) && [] + t.indexes == t.indexes;
  }

  lemma ReadBackFirstTable(ts: seq<TableDef>, more: seq<TableDef>)
    requires more != [] && Unused(ts, more[0].name)
    ensures ReadRows(ts, StripLasts(Rows(more))) == ReadRows(ts + [ReadBackTable(more[0])], StripLasts(Rows(more[1..])))
  {
    StripLastsAppend(TableRows(more[0]), Rows(more[1..]));
    ReadBackTableRows(ts, more[0], StripLasts(Rows(more[1..])));
  }

  /** The tables still to come have names of their own. */
  ghost predicate FreshTables(ts: seq<TableDef>, more: seq<TableDef>) {
    && (forall i :: 0 <= i < |more| ==> Unused(ts, more[i].name))
    && (forall i, j :: 0 <= i < j < |more| ==> more[i].name != more[j].name)
  }

  lemma FreshTablesStep(ts: seq<TableDef>, more: seq<TableDef>)
    requires more != [] && FreshTables(ts, more)
    ensures FreshTables(ts + [ReadBackTable(more[0])], more[1..])
  {
    var next := ts + [ReadBackTable(more[0])];
    forall i | 0 <= i < |more[1..]| ensures Unused(next, more[1..][i].name) {
      assert Unused(ts, more[i + 1].name) && more[0].name != more[i + 1].name;
    }
  }

  lemma {:induction false} ReadBackAllRows(ts: seq<TableDef>, more: seq<TableDef>)
    requires FreshTables(ts, more)
    ensures ReadRows(ts, StripLasts(Rows(more))) == Ok(ts + ReadBackTables(more))
    decreases |more|
  {
    if more == [] {
      assert ts + [] == ts;
    } else {
      ReadBackFirstTable(ts, more);
      FreshTablesStep(ts, more);
      ReadBackAllRows(ts + [ReadBackTable(more[0])], more[1..]);
      assert ts + [ReadBackTable(more[0])] + ReadBackTables(more[1..]) == ts + ReadBackTables(more);
    }
  }

  lemma ColumnRowPrintable(table: string, c: ColumnDef)
    requires NoBreaks(table) && ColumnPrintable(c)
    ensures RowPrintable(ColumnRow(table, c))
  {
  }

  lemma IndexRowPrintable(table: string, x: IndexDef)
    requires NoBreaks(table) && IndexPrintable(x)
    ensures RowPrintable(IndexRow(table, x))
  {
  }

  lemma TableRowsPrintable(t: TableDef, r: seq<string>)
    requires TablePrintable(t) && r in TableRows(t)
    ensures RowPrintable(r)
  {
    hide ColumnRow, IndexRow, ColumnPrintable, IndexPrintable;
    ColumnRowsAt(t.name, t.columns);
    IndexRowsAt(t.name, t.indexes);
    if r in ColumnRows(t.name, t.columns) {
      var i :| 0 <= i < |t.columns| && r == ColumnRow(t.name, t.columns[i]);
      ColumnRowPrintable(t.name, t.columns[i]);
    } else if r in IndexRows(t.name, t.indexes) {
      var i :| 0 <= i < |t.indexes| && r == IndexRow(t.name, t.indexes[i]);
      IndexRowPrintable(t.name, t.indexes[i]);
    } else {
      assert r == TableRow(t);
    }
  }

  lemma {:induction false} PrintableRows(ts: seq<TableDef>)
    requires forall t :: t in ts ==> TablePrintable(t)
    ensures forall r :: r in Rows(ts) ==> RowPrintable(r)
  {
    if ts != [] {
      assert ts[0] in ts;
      PrintableRows(ts[1..]);
      forall r | r in TableRows(ts[0]) ensures RowPrintable(r) {
        TableRowsPrintable(ts[0], r);
      }
    }
  }

  lemma {:induction false} ReadBackTablesAt(ts: seq<TableDef>)
    ensures |ReadBackTables(ts)| == |ts|
    ensures forall i :: 0 <= i < |ts| ==> ReadBackTables(ts)[i] == ReadBackTable(ts[i])
  {
    if ts != [] { ReadBackTablesAt(ts[1..]); }
  }

  lemma {:induction false} ReadBackColumnsAt(cs: seq<ColumnDef>)
    ensures |ReadBackColumns(cs)| == |cs|
    ensures forall i :: 0 <= i < |cs| ==> ReadBackColumns(cs)[i] == ReadBackColumn(cs[i])
  {
    if cs != [] { ReadBackColumnsAt(cs[1..]); }
  }

  lemma ReadBackTableNormal(t: TableDef)
    requires WellFormedTable(t) && TableInOrder(t)
    ensures WellFormedTable(ReadBackTable(t)) && TableInOrder(ReadBackTable(t))
  {
    var r := ReadBackTable(t);
    ReadBackColumnsAt(t.columns);
    forall i, j | 0 <= i < j < |r.columns|
      ensures KeyLeq(ColumnKey(r.columns[i]), ColumnKey(r.columns[j]))
      ensures r.columns[i].name != r.columns[j].name
    {
      assert KeyLeq(ColumnKey(t.columns[i]), ColumnKey(t.columns[j]));
    }
    forall name ensures HasColumn(r.columns, name) == HasColumn(t.columns, name) {
      HasColumnByKeys(r.columns, t.columns, name);
      HasColumnByKeys(t.columns, r.columns, name);
    }
  }

  /** What is read back is again in normal form and names the same tables. */
  lemma ReadBackNormal(s: SchemaDef)
    requires IsNormal(s)
    ensures IsNormal(ReadBack(s))
    ensures |ReadBack(s).tables| == |s.tables|
    ensures forall i :: 0 <= i < |s.tables| ==> ReadBack(s).tables[i].name == s.tables[i].name
  {
    var r := ReadBack(s);
    ReadBackTablesAt(s.tables);
    IsNormalMeaning(s);
    forall i, j | 0 <= i < j < |r.tables|
      ensures KeyLeq(TableKey(r.tables[i]), TableKey(r.tables[j])) && r.tables[i].name != r.tables[j].name
    {
      assert KeyLeq(TableKey(s.tables[i]), TableKey(s.tables[j]));
    }
    forall t | t in r.tables ensures WellFormedTable(t) && TableInOrder(t) {
      var i :| 0 <= i < |r.tables| && r.tables[i] == t;
      assert s.tables[i] in s.tables;
      ReadBackTableNormal(s.tables[i]);
    }
    IsNormalMeaning(r);
  }

  /** Reading what was printed, when no string breaks a line or a field: everything comes back
      except a carriage return that ended a line and the difference between an empty default
      and none. */
  lemma PrintedReadsBack(s: SchemaDef)
    requires IsNormal(s) && Printable(s)
    ensures FromCanonical(Canonical(s)) == Ok(ReadBack(s))
  {
    IsNormalMeaning(s);
    var lines := JoinRows(Rows(s.tables));
    PrintableRows(s.tables);
    PrintedLinesWhole(Rows(s.tables));
    LinesOfText(lines);
    ReadPrintedLines([], Rows(s.tables));
    ReadBackAllRows([], s.tables);
    assert [] + ReadBackTables(s.tables) == ReadBackTables(s.tables);
    ReadBackNormal(s);
  }

  lemma {:induction false} PrintedLinesWhole(rows: seq<seq<string>>)
    requires forall r :: r in rows ==> RowPrintable(r)
    ensures forall l :: l in JoinRows(rows) ==> '\n' !in l
  {
    if rows != [] {
      SplitPrintedRow(rows[0]);
      PrintedLinesWhole(rows[1..]);
    }
  }

  lemma {:induction false} ReadBackColumnsSame(cs: seq<ColumnDef>)
    ensures ReadBackColumns(cs) == cs
       <==> forall c :: c in cs && c.defaultSql.Some? ==> c.defaultSql.value != "" && !EndsInCr(c.defaultSql.value)
  {
    if cs != [] {
      ReadBackColumnsSame(cs[1..]);
      assert cs == [cs[0]] + cs[1..];
      assert ReadBackColumns(cs) == cs <==> ReadBackColumn(cs[0]) == cs[0] && ReadBackColumns(cs[1..]) == cs[1..];
    }
  }

  lemma {:induction false} ReadBackTablesSame(ts: seq<TableDef>)
    ensures ReadBackTables(ts) == ts <==> forall t :: t in ts ==> EndsCleanly(t)
  {
    if ts != [] {
      ReadBackTablesSame(ts[1..]);
      assert ts == [ts[0]] + ts[1..];
      assert ReadBackTable(ts[0]) == ts[0] <==> EndsCleanly(ts[0]) by {
        ReadBackColumnsSame(ts[0].columns);
      }
      assert ReadBackTables(ts) == ts <==> ReadBackTable(ts[0]) == ts[0] && ReadBackTables(ts[1..]) == ts[1..];
    }
  }

  /* ---------- Whatever is read holds no tab and no newline ---------- */

  lemma {:induction false} StripEachLacks(lines: seq<string>, c: char)
    requires forall l :: l in lines ==> c !in l
    ensures forall l :: l in StripEach(lines) ==> c !in l
  {
    if lines != [] {
      assert lines[0] in lines;
      StripEachLacks(lines[1..], c);
    }
  }

  lemma LinesLackNewlines(text: string)
    ensures forall l :: l in Lines(text) ==> '\n' !in l
  {
    var parts := Split('\n', text);
    SplitParts('\n', text);
    StripEachLacks(parts[..|parts| - 1], '\n');
  }

  lemma FieldsPrintable(line: string)
    requires '\n' !in line
    ensures forall f :: f in Split('\t', line) ==> NoBreaks(f)
  {
    SplitParts('\t', line);
    SplitSource('\t', line);
  }

  ghost predicate AllPrintable(ts: seq<TableDef>) {
    forall t :: t in ts ==> TablePrintable(t)
  }

  lemma UpdatePrintable(ts: seq<TableDef>, i: nat, t: TableDef)
    requires AllPrintable(ts) && i < |ts| && TablePrintable(t)
    ensures AllPrintable(ts[i := t])
  {
  }

  lemma ReadRowPrintable(ts: seq<TableDef>, f: seq<string>)
    requires f != [] && (forall x :: x in f ==> NoBreaks(x)) && AllPrintable(ts)
    ensures ReadRow(ts, f).Ok? ==> AllPrintable(ReadRow(ts, f).value)
  {
    if ReadRow(ts, f).Ok? {
      var next := ReadRow(ts, f).value;
      if f[0] != "table" {
        FindTableBounds(ts, f[1]);
        var i := FindTable(ts, f[1]).value;
        assert ts[i] in ts;
        assert TablePrintable(next[i]) by {
          if f[0] == "column" {
            assert ColumnPrintable(next[i].columns[|ts[i].columns|]);
          } else {
            assert IndexPrintable(next[i].indexes[|ts[i].indexes|]);
          }
        }
        UpdatePrintable(ts, i, next[i]);
      }
    }
  }

  lemma {:induction false} ReadLinesPrintable(ts: seq<TableDef>, lines: seq<string>)
    requires (forall l :: l in lines ==> '\n' !in l) && AllPrintable(ts)
    ensures ReadLines(ts, lines).Ok? ==> AllPrintable(ReadLines(ts, lines).value)
    decreases |lines|
  {
    if lines != [] {
      if lines[0] == "" {
        ReadLinesPrintable(ts, lines[1..]);
      } else {
        FieldsPrintable(lines[0]);
        ReadRowPrintable(ts, Split('\t', lines[0]));
        var next := ReadRow(ts, Split('\t', lines[0]));
        if next.Ok? { ReadLinesPrintable(next.value, lines[1..]); }
      }
    }
  }

  lemma ReadIsPrintable(text: string)
    ensures FromCanonical(text).Ok? ==> Printable(FromCanonical(text).value)
  {
    LinesLackNewlines(text);
    ReadLinesPrintable([], Lines(text));
    var read := ReadLines([], Lines(text));
    if read.Ok? && FromCanonical(text).Ok? {
      var given := SchemaDef(read.value);
      NormalizedMeaning(given);
      SortedTablesSource(given);
      forall t | t in FromCanonical(text).value.tables ensures TablePrintable(t) {
        var u :| u in given.tables && t == SortTable(u);
        SortTableKeeps(u);
      }
    }
  }

  /** The history round trip, exactly: a normalized schema is read back as itself if and only
      if no string holds a tab or newline, no default is empty, and no key type or default
      ends in a carriage return. */
  lemma CanonicalRoundTrip(s: SchemaDef)
    requires IsNormal(s)
    ensures FromCanonical(Canonical(s)) == Ok(s) <==> TextSafe(s)
  {
    ReadIsPrintable(Canonical(s));
    if Printable(s) {
      PrintedReadsBack(s);
      ReadBackTablesSame(s.tables);
    }
  }

  /** On text-safe schemas the canonical text identifies the schema. */
  lemma CanonicalInjective(a: SchemaDef, b: SchemaDef)
    requires IsNormal(a) && IsNormal(b) && TextSafe(a) && TextSafe(b)
    requires Canonical(a) == Canonical(b)
    ensures a == b
  {
    CanonicalRoundTrip(a);
    CanonicalRoundTrip(b);
  }

  /** A family that does not survive: an empty default is read back as no default. */
  lemma EmptyDefaultIsLost(t: TableDef, c: ColumnDef)
    requires t.columns == [c] && t.indexes == [] && c.name != t.primaryKey.name
    requires TablePrintable(t) && EndsCleanly(t.(columns := []))
    requires c.defaultSql == Some("")
    ensures IsNormal(SchemaDef([t]))
    ensures FromCanonical(Canonical(SchemaDef([t]))) == Ok(SchemaDef([t.(columns := [c.(defaultSql := None)])]))
  {
    var s := SchemaDef([t]);
    IsNormalMeaning(s);
    PrintedReadsBack(s);
    assert ReadBackColumns(t.columns) == [c.(defaultSql := None)];
    assert ReadBackTable(t) == t.(columns := [c.(defaultSql := None)]);
    assert ReadBackTables([t]) == [ReadBackTable(t)];
  }

  /* ---------- The loops ---------- */

  method AppendColumns(out: string, t: TableDef) returns (r: string)
    ensures r == out + Text(JoinRows(ColumnRows(t.name, t.columns)))
  {
    r := out;
    ColumnRowsAt(t.name, t.columns);
    for i := 0 to |t.columns|
      invariant r + Text(JoinRows(ColumnRows(t.name, t.columns[i..])))
             == out + Text(JoinRows(ColumnRows(t.name, t.columns)))
    {
      var c := t.columns[i];
      assert t.columns[i..][1..] == t.columns[i + 1..];
      var default := if c.defaultSql.Some? then c.defaultSql.value else "";
      var line := "column" + "\t" + t.name + "\t" + c.name + "\t" + c.sqlType + "\t" + Flag(c.nullable) + "\t"
          + default;
      JoinColumnRow(t.name, c);
      r := r + line + "\n";
    }
  }

  lemma JoinFrom(row: seq<string>, i: nat)
    requires i < |row|
    ensures Join('\t', row[i..]) == if i + 1 == |row| then row[i] else row[i] + "\t" + Join('\t', row[i + 1..])
    ensures row[0..] == row
  {
    assert row[i..][1..] == row[i + 1..];
  }

  lemma JoinColumnRow(table: string, c: ColumnDef)
    ensures Join('\t', ColumnRow(table, c))
         == "column" + "\t" + table + "\t" + c.name + "\t" + c.sqlType + "\t" + Flag(c.nullable) + "\t"
            + (if c.defaultSql.Some? then c.defaultSql.value else "")
  {
    hide Join;
    var row := ColumnRow(table, c);
    JoinFrom(row, 5);
    JoinFrom(row, 4);
    JoinFrom(row, 3);
    JoinFrom(row, 2);
    JoinFrom(row, 1);
    JoinFrom(row, 0);
    var second := row[0] + "\t" + row[1] + "\t";
    var third := second + row[2] + "\t";
    Absorb(row[0] + "\t", row[1], Join('\t', row[2..]));
    Absorb(second, row[2], Join('\t', row[3..]));
    Absorb(third, row[3], Join('\t', row[4..]));
    Absorb(third + row[3] + "\t", row[4], row[5]);
  }

  lemma Absorb(before: string, field: string, rest: string)
    ensures before + (field + "\t" + rest) == before + field + "\t" + rest
  {
  }

  method AppendIndexes(out: string, t: TableDef) returns (r: string)
    ensures r == out + Text(JoinRows(IndexRows(t.name, t.indexes)))
  {
    r := out;
    IndexRowsAt(t.name, t.indexes);
    for i := 0 to |t.indexes|
      invariant r + Text(JoinRows(IndexRows(t.name, t.indexes[i..])))
             == out + Text(JoinRows(IndexRows(t.name, t.indexes)))
    {
      var x := t.indexes[i];
      assert t.indexes[i..][1..] == t.indexes[i + 1..];
      var line := "index" + "\t" + t.name + "\t" + x.name + "\t" + x.column + "\t" + Flag(x.unique);
      JoinIndexRow(t.name, x);
      r := r + line + "\n";
    }
  }

  lemma JoinIndexRow(table: string, x: IndexDef)
    ensures Join('\t', IndexRow(table, x))
         == "index" + "\t" + table + "\t" + x.name + "\t" + x.column + "\t" + Flag(x.unique)
  {
    hide Join;
    var row := IndexRow(table, x);
    JoinFrom(row, 4);
    JoinFrom(row, 3);
    JoinFrom(row, 2);
    JoinFrom(row, 1);
    JoinFrom(row, 0);
  }

  lemma JoinTableRow(t: TableDef)
    ensures Join('\t', TableRow(t))
         == "table" + "\t" + t.name + "\t" + t.primaryKey.name + "\t" + t.primaryKey.sqlType
  {
    hide Join;
    var row := TableRow(t);
    JoinFrom(row, 3);
    JoinFrom(row, 2);
    JoinFrom(row, 1);
    JoinFrom(row, 0);
  }

  lemma {:induction false} TextOfRowsAppend(a: seq<seq<string>>, b: seq<seq<string>>)
    ensures Text(JoinRows(a + b)) == Text(JoinRows(a)) + Text(JoinRows(b))
  {
    if a == [] {
      assert a + b == b;
    } else {
      assert (a + b)[1..] == a[1..] + b;
      TextOfRowsAppend(a[1..], b);
      assert JoinRows(a + b) == [Join('\t', a[0])] + JoinRows(a[1..] + b);
    }
  }

  lemma TextOfTable(t: TableDef)
    ensures Text(JoinRows(TableRows(t)))
         == Join('\t', TableRow(t)) + "\n" + Text(JoinRows(ColumnRows(t.name, t.columns)))
            + Text(JoinRows(IndexRows(t.name, t.indexes)))
  {
    TextOfRowsAppend([TableRow(t)] + ColumnRows(t.name, t.columns), IndexRows(t.name, t.indexes));
    TextOfRowsAppend([TableRow(t)], ColumnRows(t.name, t.columns));
    assert JoinRows([TableRow(t)]) == [Join('\t', TableRow(t))];
    assert Text([Join('\t', TableRow(t))]) == Join('\t', TableRow(t)) + "\n";
  }

  method AppendTable(out: string, t: TableDef) returns (r: string)
    ensures r == out + Text(JoinRows(TableRows(t)))
  {
    JoinTableRow(t);
    TextOfTable(t);
    r := out + ("table" + "\t" + t.name + "\t" + t.primaryKey.name + "\t" + t.primaryKey.sqlType) + "\n";
    r := AppendColumns(r, t);
    r := AppendIndexes(r, t);
  }

  lemma TextOfTables(ts: seq<TableDef>, i: nat)
    requires i < |ts|
    ensures Canonical(SchemaDef(ts[i..])) == Text(JoinRows(TableRows(ts[i]))) + Canonical(SchemaDef(ts[i + 1..]))
  {
    TextOfRowsAppend(TableRows(ts[i]), Rows(ts[i + 1..]));
    assert ts[i..][1..] == ts[i + 1..];
  }

  lemma NothingIsEmptyText()
    ensures Canonical(SchemaDef([])) == ""
  {
  }

  /** `SchemaDef::canonical_string`: the buffer grows record by record. */
  method CanonicalString(s: SchemaDef) returns (out: string)
    ensures out == Canonical(s)
  {
    hide Canonical, Text, JoinRows, TableRows;
    var ts := s.tables;
    out := "";
    NothingIsEmptyText();
    assert ts[0..] == ts && s == SchemaDef(ts);
    for i := 0 to |ts|
      invariant out + Canonical(SchemaDef(ts[i..])) == Canonical(s)
    {
      TextOfTables(ts, i);
      ghost var before := out;
      out := AppendTable(out, ts[i]);
      assert out + Canonical(SchemaDef(ts[i + 1..])) == before + Canonical(SchemaDef(ts[i..]));
    }
    assert ts[|ts|..] == [];
  }

  /** `SchemaDef::from_canonical`: tables accumulate line by line until one line is refused. */
  method ReadCanonical(input: string) returns (r: Result<SchemaDef, SchemaError>)
    ensures r == FromCanonical(input)
    ensures r.Ok? ==> IsNormal(r.value) && Printable(r.value)
  {
    var lines := Lines(input);
    var tables := [];
    for i := 0 to |lines|
      invariant ReadLines([], lines) == ReadLines(tables, lines[i..])
    {
      assert lines[i..][1..] == lines[i + 1..];
      if lines[i] != "" {
        var row := ReadRow(tables, Split('\t', lines[i]));
        if row.Err? {
          return Err(row.error);
        }
        tables := row.value;
      }
    }
    ReadIsPrintable(input);
    NormalizedIdempotent(SchemaDef(tables));
    r := Normalize(SchemaDef(tables));
  }
}
