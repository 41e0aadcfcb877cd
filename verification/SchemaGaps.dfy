/** Default values that break the history: a target whose text cannot be read again, and one whose
    text names a table that no target names. */
module SchemaGaps {
  import opened Prelude
  import opened Ordering
  import opened SchemaTypes
  import opened SchemaNormalForm
  import opened CanonicalText
  import opened SchemaPlan
  import opened SchemaDiff
  import opened SchemaIntrospect
  import opened SchemaMachine
  import opened SchemaShares
  import opened SchemaConvergence
  import opened SchemaTheorems
  import opened SchemaApply
  import opened SchemaRuns

  /* ---------- A text that cannot be read ---------- */

  /** A line that is no record stops the reader. */
  lemma {:induction false} UnknownLineStops(ts: seq<TableDef>, lines: seq<string>, line: string)
    requires line in lines && line != ""
    requires forall now :: ReadRow(now, Split('\t', line)).Err?
    ensures ReadLines(ts, lines).Err?
    decreases |lines|
  {
    hide ReadRow, Split;
    if lines[0] == line {
    } else {
      assert line in lines[1..];
      if lines[0] == "" {
        UnknownLineStops(ts, lines[1..], line);
      } else {
        var row := ReadRow(ts, Split('\t', lines[0]));
        if row.Ok? { UnknownLineStops(row.value, lines[1..], line); }
      }
    }
  }

  lemma {:induction false} StrippedAt(lines: seq<string>, i: nat)
    requires i < |lines|
    ensures StripCr(lines[i]) in StripEach(lines)
  {
    hide StripCr;
    if i > 0 { StrippedAt(lines[1..], i - 1); }
  }

  predicate IsKind(word: string) {
    word == "table" || word == "column" || word == "index"
  }

  lemma StrayLine(line: string)
    requires line != "" && '\t' !in line && !IsKind(line)
    ensures forall now :: ReadRow(now, Split('\t', line)).Err?
  {
    SplitHead('\t', line, "");
  }

  lemma TextOfOneColumn(t: TableDef, c: ColumnDef)
    requires t.columns == [c] && t.indexes == []
    ensures Text(JoinRows(TableRows(t))) == Join('\t', TableRow(t)) + "\n" + (Join('\t', ColumnRow(t.name, c)) + "\n")
  {
    hide Join, ColumnRow, TableRow;
    TextOfTable(t);
    assert ColumnRows(t.name, [c]) == [ColumnRow(t.name, c)];
    assert JoinRows([ColumnRow(t.name, c)]) == [Join('\t', ColumnRow(t.name, c))];
    assert IndexRows(t.name, []) == [] && JoinRows([]) == [] && Text([]) == "";
  }

  lemma CanonicalOfOne(t: TableDef)
    ensures Canonical(SchemaDef([t])) == Text(JoinRows(TableRows(t)))
  {
    hide TableRows, JoinRows, Text;
    TextOfTables([t], 0);
    NothingIsEmptyText();
    assert [t][0..] == [t] && [t][1..] == [];
  }

  /** A default of the shape `u`, newline, `v`: the record of its column ends with `u`. */
  lemma SplitDefault(table: string, c: ColumnDef, u: string, rest: string)
    requires c.defaultSql == Some(u + "\n" + rest)
    ensures Join('\t', ColumnRow(table, c)) == Join('\t', ColumnRow(table, c.(defaultSql := Some(u)))) + "\n" + rest
  {
    hide Join, ColumnRow;
    JoinColumnRow(table, c);
    JoinColumnRow(table, c.(defaultSql := Some(u)));
    var head := "column" + "\t" + table + "\t" + c.name + "\t" + c.sqlType + "\t" + Flag(c.nullable) + "\t";
    assert head + (u + "\n" + rest) == head + u + "\n" + rest;
  }

  lemma TextOfThree(a: string, b: string, c: string)
    ensures a + "\n" + (b + "\n" + c + "\n") == Text([a, b, c])
  {
    assert [a, b, c][1..] == [b, c] && [b, c][1..] == [c] && [c][1..] == [];
    assert Text([c]) == c + "\n";
    assert Text([b, c]) == b + "\n" + (c + "\n");
  }

  /** A default value that goes on in a new line, with a word that starts no record, leaves a history
      text that cannot be read; after it no plan can be built, for any target. */
  lemma UnreadableDefault(t: TableDef, c: ColumnDef, u: string, v: string)
    requires t.columns == [c] && t.indexes == [] && c.defaultSql == Some(u + "\n" + v)
    requires TablePrintable(t.(columns := [c.(defaultSql := Some(u))]))
    requires NoBreaks(v) && StripCr(v) != "" && !IsKind(StripCr(v))
    ensures FromCanonical(Canonical(SchemaDef([t]))).Err?
    ensures forall tables, history, target, obstacles ::
              BuildPlan(DbState(tables, history + [Canonical(SchemaDef([t]))]), target, obstacles).Err?
  {
    var cut := c.(defaultSql := Some(u));
    var first, second := Join('\t', TableRow(t)), Join('\t', ColumnRow(t.name, cut));
    CanonicalOfOne(t);
    TextOfOneColumn(t, c);
    SplitDefault(t.name, c, u, v);
    TextOfThree(first, second, v);
    var lines := [first, second, v];
    WholeLines(t, cut);
    LinesOfText(lines);
    StrippedAt(lines, 2);
    StrayLine(StripCr(v));
    UnknownLineStops([], StripEach(lines), StripCr(v));
    forall tables, history, target, obstacles
      ensures BuildPlan(DbState(tables, history + [Canonical(SchemaDef([t]))]), target, obstacles).Err?
    {
      ScopeOfNext(history + [Canonical(SchemaDef([t]))], target);
    }
  }

  lemma WholeLines(t: TableDef, cut: ColumnDef)
    requires TablePrintable(t.(columns := [cut]))
    ensures '\n' !in Join('\t', TableRow(t)) && '\n' !in Join('\t', ColumnRow(t.name, cut))
  {
    var u := t.(columns := [cut]);
    assert ColumnPrintable(u.columns[0]);
    ColumnRowPrintable(t.name, cut);
    SplitPrintedRow(ColumnRow(t.name, cut));
    assert RowPrintable(TableRow(t));
    SplitPrintedRow(TableRow(t));
  }

  /* ---------- A text that names a stranger ---------- */

  lemma TextOfBareTable(b: TableDef)
    requires b.columns == [] && b.indexes == []
    ensures Text(JoinRows(TableRows(b))) == Join('\t', TableRow(b)) + "\n"
  {
    hide Join, TableRow;
    TextOfTable(b);
    assert ColumnRows(b.name, []) == [] && IndexRows(b.name, []) == [] && JoinRows([]) == [] && Text([]) == "";
  }

  lemma CanonicalOfTwo(t: TableDef, b: TableDef)
    ensures Canonical(SchemaDef([t, b])) == Text(JoinRows(TableRows(t))) + Text(JoinRows(TableRows(b)))
  {
    hide TableRows, JoinRows, Text;
    TextOfTables([t, b], 0);
    CanonicalOfOne(b);
    assert [t, b][0..] == [t, b] && [t, b][1..] == [b];
  }

  /** A default value that holds the record of a table: the text is that of a schema with the table. */
  lemma DefaultHidesTable(t: TableDef, c: ColumnDef, u: string, b: TableDef)
    requires t.columns == [c] && t.indexes == [] && b.columns == [] && b.indexes == []
    requires c.defaultSql == Some(u + "\n" + Join('\t', TableRow(b)))
    ensures Canonical(SchemaDef([t])) == Canonical(SchemaDef([t.(columns := [c.(defaultSql := Some(u))]), b]))
  {
    var cut := c.(defaultSql := Some(u));
    var whole := t.(columns := [cut]);
    var first, second, third := Join('\t', TableRow(t)), Join('\t', ColumnRow(t.name, cut)), Join('\t', TableRow(b));
    CanonicalOfOne(t);
    TextOfOneColumn(t, c);
    SplitDefault(t.name, c, u, third);
    CanonicalOfTwo(whole, b);
    TextOfOneColumn(whole, cut);
    TextOfBareTable(b);
    assert TableRow(whole) == TableRow(t);
    assert first + "\n" + (second + "\n" + third + "\n") == first + "\n" + (second + "\n") + (third + "\n");
  }

  /** If the last applied target's text names a live table that the next target does not, the next plan
      drops that table. */
  lemma StrangerIsDropped(last: SchemaDef, target: SchemaDef, s: DbState, n: string, obstacles: string -> Obstacles)
    requires WellFormedDb(s.tables) && IsNormal(target)
    requires s.history != [] && s.history[|s.history| - 1] == Canonical(last)
    requires TextNames(last, n) && n in s.tables && !Names(target, n)
    ensures var r := BuildPlan(s, target, obstacles);
            r.Ok? && DropTable(Report(s.tables[n], obstacles(n)).table) in r.value.ops
  {
    hide Canonical, FromCanonical, Names, Introspect, Diff, IsNormal, ManagedScope;
    ScopeOfNext(s.history, target);
    assert LastReads(s.history, n);
    var names := ManagedScope(s.history, target).value;
    var actual := Introspect(s.tables, names, obstacles);
    DiffSucceeds(target, s.tables, names, obstacles);
    PlanDropsSurplus(target, s.tables, names, obstacles, Diff(target, actual).value, n);
  }

  lemma PlanDropsSurplus(target: SchemaDef, db: Tables, names: seq<string>, obstacles: string -> Obstacles,
                         d: DiffResult, n: string)
    requires WellFormedDb(db) && IsNormal(target) && Ascending(names)
    requires Diff(target, Introspect(db, names, obstacles)) == Ok(d)
    requires n in names && n in db && !Names(target, n)
    ensures DropTable(Report(db[n], obstacles(n)).table) in d.ops
  {
    hide Introspect, IsNormal, Names, TargetOps, SurplusOps, TargetBlockers, SurplusBlockers, SortBy;
    var actual := Introspect(db, names, obstacles);
    IsNormalMeaning(target);
    TableNamesMeaning(target, n);
    IntrospectLists(db, names, obstacles);
    IntrospectFinds(db, names, obstacles, n);
    ShareOfPlan(target, actual, n);
    ShareElements(d.ops, n);
    assert DropTable(Report(db[n], obstacles(n)).table) in Share(d.ops, n);
  }

  const KEY := PrimaryKeyDef("id", "INTEGER")

  function OneColumn(default: string): TableDef {
    TableDef("a", KEY, [ColumnDef("x", "TEXT", true, Some(default))], [])
  }

  /** The default `'line1`, newline, `line2'`. */
  const UNREADABLE := SchemaDef([OneColumn("'line1" + "\n" + "line2'")])

  /** The table whose record the next default holds; the closing quote falls to its key's type. */
  const STRANGER := TableDef("b", PrimaryKeyDef("id", "INTEGER'"), [], [])

  /** The default `'x`, newline, and the record of a table `b`. */
  const MISLEADING := SchemaDef([OneColumn("'x" + "\n" + Join('\t', TableRow(STRANGER)))])

  lemma OneColumnIsNormal(default: string)
    ensures WellFormedTable(OneColumn(default)) && TableInOrder(OneColumn(default))
    ensures IsNormal(SchemaDef([OneColumn(default)]))
  {
    var s := SchemaDef([OneColumn(default)]);
    assert !HasColumn(OneColumn(default).columns, "id");
    IsNormalMeaning(s);
  }

  lemma CutDefaultPrintable(u: string)
    requires NoBreaks(u)
    ensures TablePrintable(OneColumn(u))
  {
    assert NoBreaks("a") && NoBreaks("id") && NoBreaks("INTEGER") && NoBreaks("x") && NoBreaks("TEXT");
  }

  lemma StrayWord()
    ensures NoBreaks("line2'") && StripCr("line2'") == "line2'" && !IsKind("line2'")
  {
    assert "line2'"[0] == 'l';
  }

  /** A legal target after which no plan can be built, for any target, until the history is repaired. */
  lemma NoPlanAfterUnreadable()
    ensures IsNormal(UNREADABLE) && FromCanonical(Canonical(UNREADABLE)).Err?
    ensures forall tables, history, target, obstacles ::
              BuildPlan(DbState(tables, history + [Canonical(UNREADABLE)]), target, obstacles).Err?
  {
    hide Canonical, FromCanonical, BuildPlan, IsNormal, TablePrintable, IsKind, StripCr, NoBreaks;
    var u, v := "'line1", "line2'";
    var t := OneColumn(u + "\n" + v);
    OneColumnIsNormal(u + "\n" + v);
    StrayWord();
    assert NoBreaks(u) by { FirstLineWhole(); }
    CutDefaultPrintable(u);
    assert t.(columns := [t.columns[0].(defaultSql := Some(u))]) == OneColumn(u);
    UnreadableDefault(t, t.columns[0], u, v);
  }

  lemma FirstLineWhole()
    ensures NoBreaks("'line1") && NoBreaks("'x")
  {
  }

  lemma MisleadingReadsAs()
    ensures Canonical(MISLEADING) == Canonical(SchemaDef([OneColumn("'x"), STRANGER]))
  {
    hide Canonical;
    var t := MISLEADING.tables[0];
    DefaultHidesTable(t, t.columns[0], "'x", STRANGER);
    assert t.(columns := [t.columns[0].(defaultSql := Some("'x"))]) == OneColumn("'x");
  }

  lemma StrangerPrintable()
    ensures TablePrintable(STRANGER)
  {
    assert NoBreaks("b") && NoBreaks("id") && NoBreaks("INTEGER'");
  }

  lemma MisleadingText()
    ensures IsNormal(MISLEADING) && !Names(MISLEADING, "b") && TextNames(MISLEADING, "b")
  {
    hide Canonical, FromCanonical, IsNormal, KeepsNames, TablePrintable, Join, NoBreaks, WellFormedTable, TableInOrder;
    var whole, read := OneColumn("'x"), SchemaDef([OneColumn("'x"), STRANGER]);
    OneColumnIsNormal("'x" + "\n" + Join('\t', TableRow(STRANGER)));
    OneColumnIsNormal("'x");
    MisleadingReadsAs();
    TwoTablesNormal(whole);
    FirstLineWhole();
    CutDefaultPrintable("'x");
    StrangerPrintable();
    PrintableKeepsNames(read);
    assert Names(read, "b") by { assert TableNames(read)[1] == "b"; }
    KeptNames(read, "b");
    assert "a" != "b";
  }

  lemma TwoTablesNormal(t: TableDef)
    requires WellFormedTable(t) && TableInOrder(t) && t.name == "a"
    ensures IsNormal(SchemaDef([t, STRANGER]))
  {
    assert !HasColumn(STRANGER.columns, "id");
    assert WellFormedTable(STRANGER) && TableInOrder(STRANGER);
    assert "a"[0] < "b"[0];
    IsNormalMeaning(SchemaDef([t, STRANGER]));
  }

  /** A legal target whose second plan drops a live table `b` that no target names. */
  lemma MisleadingPlanDropsStranger(s: DbState, obstacles: string -> Obstacles)
    requires WellFormedDb(s.tables) && "b" in s.tables
    requires s.history != [] && s.history[|s.history| - 1] == Canonical(MISLEADING)
    ensures !Names(MISLEADING, "b")
    ensures var r := BuildPlan(s, MISLEADING, obstacles);
            r.Ok? && DropTable(Report(s.tables["b"], obstacles("b")).table) in r.value.ops
  {
    MisleadingText();
    StrangerIsDropped(MISLEADING, MISLEADING, s, "b", obstacles);
  }

  /** And once that target has been applied twice, `b` is gone. */
  lemma TwoAppliesDropStranger(engine: Engine, start: Tables, attempts: seq<Attempt>)
    requires Sound(start) && forall a :: a in attempts ==> a.target == MISLEADING
    requires |Run(engine, DbState(start, []), attempts).1| >= 2
    ensures "b" !in Run(engine, DbState(start, []), attempts).0.tables
  {
    hide Sound, Names, TextNames, IsNormal;
    MisleadingText();
    RunsFollowTheTexts(engine, start, attempts);
    var done := Run(engine, DbState(start, []), attempts).1;
    var front := done[..|done| - 1];
    assert done[|done| - 1] in done && front[|front| - 1] in done;
    assert LastTextNames(front, "b");
  }
}
