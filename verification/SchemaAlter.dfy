/** Running the operations of one table that needs no rebuild: in sorted order each operation
    finds what it needs, and the table ends up matching the target. */
module SchemaAlter {
  import opened Prelude
  import opened Ordering
  import opened SchemaTypes
  import opened SchemaPlan
  import opened SchemaDiff
  import opened SchemaDiffFacts
  import opened SchemaIntrospect
  import opened SchemaMachine
  import opened SchemaFrame
  import opened SchemaShares

  /** The indexes the table ends with: the target's, and the unmanaged ones it had. */
  ghost predicate Wanted(d: TableDef, keep: set<IndexDef>, x: IndexDef) {
    x in d.indexes || x in keep
  }

  /** Column state while the operations `ops` are still to run. */
  ghost predicate ColumnsUnderway(t: TableDef, d: TableDef, ops: seq<PlanOp>) {
    && t.name == d.name && t.primaryKey == d.primaryKey
    && (forall c :: c in t.columns ==>
         FindColumn(d.columns, c.name).Some? && SameShape(FindColumn(d.columns, c.name).value, c))
    && (forall e :: e in d.columns ==> (HasColumn(t.columns, e.name) <==> AddColumn(d.name, e) !in ops))
  }

  /** Index state while the operations `ops` are still to run. */
  ghost predicate IndexesUnderway(t: TableDef, d: TableDef, keep: set<IndexDef>, ops: seq<PlanOp>) {
    && (forall x :: x in t.indexes <==>
          DropIndex(d.name, x) in ops || (Wanted(d, keep, x) && CreateIndex(d.name, x) !in ops))
    && (forall x, y :: Wanted(d, keep, x) && Wanted(d, keep, y) && x.name == y.name ==> x == y)
    && (forall x :: DropIndex(d.name, x) in ops ==> !Wanted(d, keep, x))
  }

  ghost predicate AlterationOps(d: TableDef, ops: seq<PlanOp>) {
    && SortedBy(OpKey, ops) && DistinctBy(OpKey, ops)
    && forall op :: op in ops ==>
         op.Subject() == d.name
         && (|| (op.AddColumn? && op.column in d.columns)
             || op.DropIndex?
             || (op.CreateIndex? && op.index in d.indexes))
  }

  lemma AlterationTail(d: TableDef, ops: seq<PlanOp>)
    requires ops != [] && AlterationOps(d, ops)
    ensures AlterationOps(d, ops[1..])
    ensures ops[0] !in ops[1..]
    ensures forall op :: op in ops <==> op == ops[0] || op in ops[1..]
    ensures forall op :: op in ops ==> OpKey(ops[0]).rank <= OpKey(op).rank
  {
    assert ops == [ops[0]] + ops[1..];
    forall op | op in ops ensures OpKey(ops[0]).rank <= OpKey(op).rank {
      var i :| 0 <= i < |ops| && ops[i] == op;
      if i > 0 { assert KeyLeq(OpKey(ops[0]), OpKey(ops[i])); }
    }
    forall i, j | 0 <= i < j < |ops[1..]|
      ensures KeyLeq(OpKey(ops[1..][i]), OpKey(ops[1..][j])) && OpKey(ops[1..][i]) != OpKey(ops[1..][j])
    {
      assert KeyLeq(OpKey(ops[i + 1]), OpKey(ops[j + 1])) && OpKey(ops[i + 1]) != OpKey(ops[j + 1]);
    }
  }

  lemma {:induction false} RemoveIndexMeaning(indexes: seq<IndexDef>, x: IndexDef)
    requires DistinctIndexes(indexes) && x in indexes
    ensures DistinctIndexes(RemoveIndex(indexes, x.name))
    ensures forall y :: y in RemoveIndex(indexes, x.name) <==> y in indexes && y != x
  {
    assert indexes == [indexes[0]] + indexes[1..];
    forall y | y in indexes[1..] ensures y.name != indexes[0].name {
      var i :| 0 <= i < |indexes[1..]| && indexes[1..][i] == y;
      assert indexes[i + 1] == y;
    }
    if indexes[0].name != x.name {
      assert DistinctIndexes(indexes[1..]) by {
        forall i, j | 0 <= i < j < |indexes[1..]| ensures indexes[1..][i].name != indexes[1..][j].name {
          assert indexes[i + 1].name != indexes[j + 1].name;
        }
      }
      RemoveIndexMeaning(indexes[1..], x);
    } else {
      assert indexes[0] == x;
    }
  }

  lemma HasIndexMeaning(t: LiveTable, name: string)
    ensures HasIndex(t, name) <==> exists x :: x in t.def.indexes && x.name == name
  {
    if x :| x in t.def.indexes && x.name == name {
      var i :| 0 <= i < |t.def.indexes| && t.def.indexes[i] == x;
    }
  }

  lemma HasColumnMeaning(cs: seq<ColumnDef>, name: string)
    ensures HasColumn(cs, name) <==> exists c :: c in cs && c.name == name
  {
    if c :| c in cs && c.name == name {
      var i :| 0 <= i < |cs| && cs[i] == c;
    }
  }

  /* ---------- Every operation keeps a table well formed ---------- */

  lemma AddIndexWellFormed(t: LiveTable, index: IndexDef)
    requires WellFormedTable(t.def)
    ensures AddIndexTo(t, index).Ok? ==>
              WellFormedTable(AddIndexTo(t, index).value.def)
              && AddIndexTo(t, index).value.rows == t.rows
              && (forall x :: x in AddIndexTo(t, index).value.def.indexes <==> x in t.def.indexes || x == index)
  {
    HasIndexMeaning(t, index.name);
    if AddIndexTo(t, index).Ok? {
      var u := AddIndexTo(t, index).value.def;
      forall i, j | 0 <= i < j < |u.indexes| ensures u.indexes[i].name != u.indexes[j].name {
        assert t.def.indexes[i] in t.def.indexes;
      }
    }
  }

  lemma DropIndexWellFormed(t: LiveTable, x: IndexDef)
    requires WellFormedTable(t.def) && x in t.def.indexes
    ensures DropIndexFrom(t, x.name).Ok?
    ensures WellFormedTable(DropIndexFrom(t, x.name).value.def)
    ensures DropIndexFrom(t, x.name).value.rows == t.rows
    ensures forall y :: y in DropIndexFrom(t, x.name).value.def.indexes <==> y in t.def.indexes && y != x
  {
    HasIndexMeaning(t, x.name);
    RemoveIndexMeaning(t.def.indexes, x);
    var u := DropIndexFrom(t, x.name).value.def;
    forall y | y in u.indexes ensures Declares(u, y.column) {
      assert Declares(t.def, y.column);
    }
  }

  lemma AddColumnWellFormed(engine: Engine, t: LiveTable, c: ColumnDef)
    requires WellFormedTable(t.def)
    ensures AddColumnTo(engine, t, c).Ok? ==> WellFormedTable(AddColumnTo(engine, t, c).value.def)
  {
    if AddColumnTo(engine, t, c).Ok? {
      var u := AddColumnTo(engine, t, c).value.def;
      forall name ensures HasColumn(u.columns, name) <==> HasColumn(t.def.columns, name) || name == c.name {
        HasColumnAppend(t.def.columns, c, name);
      }
      forall i, j | 0 <= i < j < |u.columns| ensures u.columns[i].name != u.columns[j].name {
        if j == |t.def.columns| { assert HasColumn(t.def.columns, u.columns[i].name); }
      }
      forall x | x in u.indexes ensures Declares(u, x.column) {
        assert Declares(t.def, x.column);
      }
    }
  }

  lemma HasColumnAppend(cs: seq<ColumnDef>, c: ColumnDef, name: string)
    ensures HasColumn(cs + [c], name) <==> HasColumn(cs, name) || name == c.name
  {
    if HasColumn(cs, name) {
      var i :| 0 <= i < |cs| && cs[i].name == name;
      assert (cs + [c])[i].name == name;
    }
    assert (cs + [c])[|cs|] == c;
  }

  /* ---------- One step ---------- */

  ghost predicate Underway(t: LiveTable, d: TableDef, keep: set<IndexDef>, ops: seq<PlanOp>) {
    && WellFormedTable(t.def) && WellFormedTable(d)
    && ColumnsUnderway(t.def, d, ops)
    && IndexesUnderway(t.def, d, keep, ops)
    && AlterationOps(d, ops)
  }

  lemma StepDropIndex(t: LiveTable, d: TableDef, keep: set<IndexDef>, ops: seq<PlanOp>)
    requires Underway(t, d, keep, ops) && ops != [] && ops[0].DropIndex?
    ensures DropIndexFrom(t, ops[0].index.name).Ok?
    ensures Underway(DropIndexFrom(t, ops[0].index.name).value, d, keep, ops[1..])
  {
    AlterationTail(d, ops);
    assert ops[0] == DropIndex(d.name, ops[0].index);
    DropIndexWellFormed(t, ops[0].index);
  }

  lemma StepAddColumn(engine: Engine, t: LiveTable, d: TableDef, keep: set<IndexDef>, ops: seq<PlanOp>)
    requires Underway(t, d, keep, ops) && ops != [] && ops[0].AddColumn?
    ensures AddColumnTo(engine, t, ops[0].column) != Err(ColumnExists)
    ensures AddColumnTo(engine, t, ops[0].column).Err? ==> AddColumnTo(engine, t, ops[0].column).error == Constraint
    ensures AddColumnTo(engine, t, ops[0].column).Ok? ==>
              Underway(AddColumnTo(engine, t, ops[0].column).value, d, keep, ops[1..])
  {
    AlterationTail(d, ops);
    var c := ops[0].column;
    assert ops[0] == AddColumn(d.name, c);
    HasColumnMeaning(d.columns, c.name);
    assert !Declares(t.def, c.name);
    AddColumnWellFormed(engine, t, c);
    if AddColumnTo(engine, t, c).Ok? {
      var u := AddColumnTo(engine, t, c).value;
      FindColumnSelf(d.columns, c);
      forall e | e in d.columns ensures HasColumn(u.def.columns, e.name) <==> AddColumn(d.name, e) !in ops[1..] {
        HasColumnAppend(t.def.columns, c, e.name);
        FindColumnSelf(d.columns, e);
        assert AddColumn(d.name, e) in ops <==> AddColumn(d.name, e) == ops[0] || AddColumn(d.name, e) in ops[1..];
      }
    }
  }

  lemma StepCreateIndex(t: LiveTable, d: TableDef, keep: set<IndexDef>, ops: seq<PlanOp>)
    requires Underway(t, d, keep, ops) && ops != [] && ops[0].CreateIndex?
    ensures AddIndexTo(t, ops[0].index).Err? ==> AddIndexTo(t, ops[0].index).error == Constraint
    ensures AddIndexTo(t, ops[0].index).Ok? ==> Underway(AddIndexTo(t, ops[0].index).value, d, keep, ops[1..])
  {
    AlterationTail(d, ops);
    var x := ops[0].index;
    assert ops[0] == CreateIndex(d.name, x);
    HasIndexMeaning(t, x.name);
    forall y | y in t.def.indexes ensures y.name != x.name {
      assert OpKey(DropIndex(d.name, y)).rank == 0;
    }
    assert Declares(t.def, x.column) by {
      assert Declares(d, x.column);
      HasColumnMeaning(d.columns, x.column);
      if HasColumn(d.columns, x.column) {
        var e :| e in d.columns && e.name == x.column;
        assert OpKey(AddColumn(d.name, e)).rank < OpKey(ops[0]).rank;
      }
    }
    AddIndexWellFormed(t, x);
  }

  /* ---------- The whole share ---------- */

  /** The table when nothing is left to run. */
  ghost predicate Settled(t: TableDef, d: TableDef, keep: set<IndexDef>) {
    && WellFormedTable(t)
    && t.name == d.name && t.primaryKey == d.primaryKey
    && ColumnsMatch(d.columns, t.columns)
    && (forall x :: x in t.indexes <==> Wanted(d, keep, x))
  }

  lemma UnderwayDone(t: LiveTable, d: TableDef, keep: set<IndexDef>)
    requires Underway(t, d, keep, [])
    ensures Settled(t.def, d, keep)
  {
    hide AlterationOps, FindColumn;
    forall e | e in d.columns
      ensures FindColumn(t.def.columns, e.name).Some? && SameShape(e, FindColumn(t.def.columns, e.name).value)
    {
      FindColumnMeaning(t.def.columns, e.name);
      FindColumnSelf(d.columns, e);
    }
  }

  /** Sorted, the operations never meet a missing or already existing object: only stored data
      can stop them, and if nothing does the table is settled. */
  lemma {:induction false} AlterationRuns(engine: Engine, t: LiveTable, d: TableDef, keep: set<IndexDef>,
                                          actual: seq<ActualTable>, ops: seq<PlanOp>)
    requires Underway(t, d, keep, ops)
    ensures var r := RunShare(engine, Some(t), actual, ops);
            match r
            case Err(e) => e == Constraint
            case Ok(u) => u.Some? && Settled(u.value.def, d, keep)
    decreases |ops|
  {
    if ops == [] {
      UnderwayDone(t, d, keep);
    } else {
      var op := ops[0];
      assert op in ops;
      match op {
        case DropIndex(_, _) => StepDropIndex(t, d, keep, ops);
        case AddColumn(_, _) => StepAddColumn(engine, t, d, keep, ops);
        case CreateIndex(_, _) => StepCreateIndex(t, d, keep, ops);
      }
      var next := Alone(engine, Some(t), actual, op);
      if next.Ok? { AlterationRuns(engine, next.value.value, d, keep, actual, ops[1..]); }
    }
  }
}
