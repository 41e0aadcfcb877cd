/** Sequences of plan-and-apply steps against one database: which tables stay managed, which are
    never touched, and what the history records. */
module SchemaRuns {
  import opened Prelude
  import opened Ordering
  import opened SchemaTypes
  import opened SchemaNormalForm
  import opened CanonicalText
  import opened SchemaPlan
  import opened SchemaDiff
  import opened SchemaDiffFacts
  import opened SchemaIntrospect
  import opened SchemaMachine
  import opened SchemaFrame
  import opened SchemaShares
  import opened SchemaConvergence
  import opened SchemaData
  import opened SchemaTheorems
  import opened SchemaApply

  /* ---------- Effects that need no naming convention ---------- */

  /** SQLite's own guarantee: one namespace for indexes. */
  ghost predicate UniqueIndexes(db: Tables) {
    forall n, m, name :: n in db && m in db && HasIndex(db[n], name) && HasIndex(db[m], name) ==> n == m
  }

  ghost predicate Sound(db: Tables) {
    Named(db) && UniqueIndexes(db)
  }

  lemma {:induction false} RemoveIndexNames(t: LiveTable, name: string, other: string)
    requires HasIndex(t.(def := t.def.(indexes := RemoveIndex(t.def.indexes, name))), other)
    ensures HasIndex(t, other)
  {
    var removed := RemoveIndex(t.def.indexes, name);
    RemoveIndexElements(t.def.indexes, name);
    var i :| 0 <= i < |removed| && removed[i].name == other;
    assert removed[i] in t.def.indexes;
  }

  lemma AddIndexNames(t: LiveTable, index: IndexDef, name: string)
    requires AddIndexTo(t, index).Ok? && HasIndex(AddIndexTo(t, index).value, name)
    ensures HasIndex(t, name) || name == index.name
  {
    var u := AddIndexTo(t, index).value;
    var i :| 0 <= i < |u.def.indexes| && u.def.indexes[i].name == name;
    if i < |t.def.indexes| { assert t.def.indexes[i].name == name; }
  }

  lemma CreateIndexSound(db: Tables, table: string, index: IndexDef)
    requires Sound(db) && RunCreateIndex(db, table, index).Ok?
    ensures Sound(RunCreateIndex(db, table, index).value)
  {
    var next := RunCreateIndex(db, table, index).value;
    forall n, m, name | n in next && m in next && HasIndex(next[n], name) && HasIndex(next[m], name) ensures n == m {
      if n == table { AddIndexNames(db[table], index, name); }
      if m == table { AddIndexNames(db[table], index, name); }
    }
  }

  /** `m` neither is the subject nor holds a dropped index. */
  ghost predicate Bystander(db: Tables, op: PlanOp, m: string) {
    op.Subject() != m && (op.DropIndex? && m in db ==> !HasIndex(db[m], op.index.name))
  }

  lemma {:induction false} CreateIndexesEffect(db: Tables, table: string, indexes: seq<IndexDef>)
    requires Sound(db) && RunCreateIndexes(db, table, indexes).Ok?
    ensures Sound(RunCreateIndexes(db, table, indexes).value)
    ensures RunCreateIndexes(db, table, indexes).value.Keys == db.Keys
    ensures forall m :: m != table ==> Get(RunCreateIndexes(db, table, indexes).value, m) == Get(db, m)
    decreases |indexes|
  {
    if indexes != [] {
      CreateIndexSound(db, table, indexes[0]);
      CreateIndexesEffect(RunCreateIndex(db, table, indexes[0]).value, table, indexes[1..]);
    }
  }

  lemma SwapEffect(engine: Engine, db: Tables, table: string, from: TableDef, to: TableDef)
    requires Sound(db) && RunSwap(engine, db, table, from, to).Ok?
    ensures Sound(RunSwap(engine, db, table, from, to).value)
    ensures RunSwap(engine, db, table, from, to).value.Keys == db.Keys
    ensures forall m :: m != table ==> Get(RunSwap(engine, db, table, from, to).value, m) == Get(db, m)
  {
    var temp, next := TempName(table), RunSwap(engine, db, table, from, to).value;
    assert temp !in db && table in db && next[table].def.indexes == [] && next[table].def.name == table;
    forall m | m != table ensures Get(next, m) == Get(db, m) {}
    forall n, m, name | n in next && m in next && HasIndex(next[n], name) && HasIndex(next[m], name) ensures n == m {
      assert n != table && m != table;
      assert next[n] == db[n] && next[m] == db[m];
    }
  }

  /** The tables that exist after `op`. */
  function KeysAfter(keys: set<string>, op: PlanOp): set<string> {
    if op.CreateTable? then keys + {op.def.name} else if op.DropTable? then keys - {op.def.name} else keys
  }

  lemma DropIndexEffect(db: Tables, name: string)
    requires Sound(db) && RunDropIndex(db, name).Ok?
    ensures Sound(RunDropIndex(db, name).value)
    ensures RunDropIndex(db, name).value.Keys == db.Keys
    ensures forall m :: m in db && !HasIndex(db[m], name) ==> RunDropIndex(db, name).value[m] == db[m]
  {
    var next := RunDropIndex(db, name).value;
    forall n, other | n in next && HasIndex(next[n], other) ensures HasIndex(db[n], other) {
      if HasIndex(db[n], name) { RemoveIndexNames(db[n], name, other); }
    }
  }

  lemma AddColumnEffect(engine: Engine, db: Tables, table: string, c: ColumnDef)
    requires Sound(db) && RunAddColumn(engine, db, table, c).Ok?
    ensures Sound(RunAddColumn(engine, db, table, c).value)
    ensures RunAddColumn(engine, db, table, c).value.Keys == db.Keys
  {
    var next := RunAddColumn(engine, db, table, c).value;
    forall n, other | n in next ensures HasIndex(next[n], other) == HasIndex(db[n], other) {}
  }

  lemma RebuildEffect(engine: Engine, db: Tables, table: string, from: TableDef, to: TableDef, replay: seq<IndexDef>)
    requires Sound(db) && RunRebuild(engine, db, table, from, to, replay).Ok?
    ensures Sound(RunRebuild(engine, db, table, from, to, replay).value)
    ensures RunRebuild(engine, db, table, from, to, replay).value.Keys == db.Keys
    ensures forall m :: m != table ==> Get(RunRebuild(engine, db, table, from, to, replay).value, m) == Get(db, m)
  {
    SwapEffect(engine, db, table, from, to);
    var swapped := RunSwap(engine, db, table, from, to).value;
    CreateIndexesEffect(swapped, table, to.indexes);
    CreateIndexesEffect(RunCreateIndexes(swapped, table, to.indexes).value, table, replay);
  }

  lemma CreateTableEffect(db: Tables, def: TableDef)
    requires Sound(db) && RunCreateTable(db, def.name, def).Ok?
    ensures Sound(RunCreateTable(db, def.name, def).value)
  {
    var next := RunCreateTable(db, def.name, def).value;
    forall n, other | n in next && HasIndex(next[n], other) ensures n in db && next[n] == db[n] {}
  }

  /** An operation keeps the database sound, creates or drops at most its subject, and leaves
      bystanders exactly as they were. */
  lemma OpEffect(engine: Engine, db: Tables, actual: seq<ActualTable>, op: PlanOp)
    requires Sound(db) && RunOp(engine, db, actual, op).Ok?
    ensures Sound(RunOp(engine, db, actual, op).value)
    ensures RunOp(engine, db, actual, op).value.Keys == KeysAfter(db.Keys, op)
    ensures forall m :: Bystander(db, op, m) ==> Get(RunOp(engine, db, actual, op).value, m) == Get(db, m)
  {
    match op {
      case CreateTable(def) =>
        CreateTableEffect(db, def);
        CreateIndexesEffect(RunCreateTable(db, def.name, def).value, def.name, def.indexes);
      case AddColumn(table, column) => AddColumnEffect(engine, db, table, column);
      case CreateIndex(table, index) => CreateIndexSound(db, table, index);
      case DropIndex(_, index) => DropIndexEffect(db, index.name);
      case RebuildTable(table, from, to, _) =>
        RebuildEffect(engine, db, table, from, to, FindActual(actual, table).value.replay);
      case DropTable(def) =>
        assert forall n, other :: n in db - {def.name} ==>
            HasIndex((db - {def.name})[n], other) == HasIndex(db[n], other);
    }
  }

  function KeysAfterAll(keys: set<string>, ops: seq<PlanOp>): set<string>
    decreases |ops|
  {
    if ops == [] then keys else KeysAfterAll(KeysAfter(keys, ops[0]), ops[1..])
  }

  lemma {:induction false} OpsEffect(engine: Engine, db: Tables, actual: seq<ActualTable>, ops: seq<PlanOp>)
    requires Sound(db) && RunOps(engine, db, actual, ops).Ok?
    ensures Sound(RunOps(engine, db, actual, ops).value)
    ensures RunOps(engine, db, actual, ops).value.Keys == KeysAfterAll(db.Keys, ops)
    ensures forall m :: (forall op :: op in ops ==> Bystander(db, op, m)) ==>
              Get(RunOps(engine, db, actual, ops).value, m) == Get(db, m)
    decreases |ops|
  {
    if ops != [] {
      OpEffect(engine, db, actual, ops[0]);
      var next := RunOp(engine, db, actual, ops[0]).value;
      OpsEffect(engine, next, actual, ops[1..]);
      assert ops == [ops[0]] + ops[1..];
      forall m | forall op :: op in ops ==> Bystander(db, op, m)
        ensures Get(RunOps(engine, db, actual, ops).value, m) == Get(db, m)
      {
        assert Bystander(db, ops[0], m);
        assert Get(next, m) == Get(db, m);
        forall op | op in ops[1..] ensures Bystander(next, op, m) {
          assert Bystander(db, op, m);
        }
      }
    }
  }

  /** Whether a table exists after its share of the plan. */
  lemma {:induction false} KeysByShare(keys: set<string>, ops: seq<PlanOp>, n: string)
    ensures n in KeysAfterAll(keys, ops) <==> n in KeysAfterAll(if n in keys then {n} else {}, Share(ops, n))
    decreases |ops|
  {
    if ops != [] {
      var own := if n in keys then {n} else {};
      KeysByShare(KeysAfter(keys, ops[0]), ops[1..], n);
      if ops[0].Subject() == n {
        assert Share(ops, n) == [ops[0]] + Share(ops[1..], n);
        assert KeysAfter(own, ops[0]) == if n in KeysAfter(keys, ops[0]) then {n} else {};
      } else {
        assert n in KeysAfter(keys, ops[0]) <==> n in keys;
      }
    }
  }

  lemma {:induction false} KeysUnchanged(keys: set<string>, ops: seq<PlanOp>)
    requires forall op :: op in ops ==> !op.CreateTable? && !op.DropTable?
    ensures KeysAfterAll(keys, ops) == keys
    decreases |ops|
  {
    if ops != [] {
      assert ops[0] in ops;
      KeysUnchanged(KeysAfter(keys, ops[0]), ops[1..]);
    }
  }

  /** A plan that runs to the end leaves every target table present, every other table of its
      scope absent, and tables outside its scope and target untouched. */
  lemma PlanEffect(engine: Engine, target: SchemaDef, db: Tables, names: seq<string>, obstacles: string -> Obstacles,
                   d: DiffResult)
    requires IsNormal(target) && Sound(db) && Ascending(names)
    requires forall t :: t in target.tables ==> t.name in names
    requires Diff(target, Introspect(db, names, obstacles)) == Ok(d)
    requires RunOps(engine, db, Introspect(db, names, obstacles), d.ops).Ok?
    ensures var after := RunOps(engine, db, Introspect(db, names, obstacles), d.ops).value;
            && Sound(after)
            && (forall n :: n in names ==> (n in after <==> FindTarget(target.tables, n).Some?))
            && (forall n :: n !in names ==> Get(after, n) == Get(db, n))
  {
    var actual := Introspect(db, names, obstacles);
    OpsEffect(engine, db, actual, d.ops);
    var after := RunOps(engine, db, actual, d.ops).value;
    IsNormalMeaning(target);
    IntrospectLists(db, names, obstacles);
    forall n | n in names ensures n in after <==> FindTarget(target.tables, n).Some? {
      KeysByShare(db.Keys, d.ops, n);
      ShareOfPlan(target, actual, n);
      IntrospectFinds(db, names, obstacles, n);
      if FindTarget(target.tables, n).Some? {
        TargetShareKeys(target, db, n, FindActual(actual, n));
      }
    }
    forall n | n !in names ensures Get(after, n) == Get(db, n) {
      forall op | op in d.ops ensures Bystander(db, op, n) {
        OutsiderIsBystander(target, db, names, obstacles, d, op, n);
      }
    }
  }

  lemma TargetShareKeys(target: SchemaDef, db: Tables, n: string, a: Option<ActualTable>)
    requires FindTarget(target.tables, n).Some? && (a.Some? <==> n in db)
    ensures n in KeysAfterAll(if n in db then {n} else {}, SortBy(OpKey, Needed(FindTarget(target.tables, n).value, a)))
  {
    var d := FindTarget(target.tables, n).value;
    FindTargetMeaning(target.tables, n);
    var ops := SortBy(OpKey, Needed(d, a));
    if n in db {
      SortByElements(OpKey, Needed(d, a));
      forall op | op in ops ensures !op.CreateTable? && !op.DropTable? {
        TableOpsCases(d, a.value);
        if Reasons(d, a.value.table) == [] { AlterOpsShape(d, a.value.table, op); }
      }
      KeysUnchanged({n}, ops);
    } else {
      SortOfCons(CreateTable(d), []);
      assert Needed(d, a) == [CreateTable(d)] + [];
      assert KeysAfterAll({}, ops) == KeysAfterAll({} + {d.name}, ops[1..]);
    }
  }

  /** A table that holds an index the plan drops is the subject, which is in scope. */
  lemma DroppedIndexIsOwn(target: SchemaDef, db: Tables, names: seq<string>, obstacles: string -> Obstacles,
                          op: PlanOp, n: string)
    requires IsNormal(target) && Sound(db)
    requires op.DropIndex? && n in db && HasIndex(db[n], op.index.name)
    requires FindTarget(target.tables, op.table).Some? && op.table in names
    requires op in Needed(FindTarget(target.tables, op.table).value,
               FindActual(Introspect(db, names, obstacles), op.table))
    ensures n == op.table
  {
    hide IsNormal, FindTarget, Introspect, Managed, Unmanaged, Reasons, AlterOps;
    var s := op.table;
    FindTargetMeaning(target.tables, s);
    IntrospectFinds(db, names, obstacles, s);
    var t, a := FindTarget(target.tables, s).value, FindActual(Introspect(db, names, obstacles), s).value;
    TableOpsCases(t, a);
    DropComesFromLive(t, a.table, op);
    ManagedElements(db[s].def.indexes);
    var i :| 0 <= i < |db[s].def.indexes| && db[s].def.indexes[i] == op.index;
    assert HasIndex(db[s], op.index.name);
  }

  /** No operation concerns a table outside the scope. */
  lemma OutsiderIsBystander(target: SchemaDef, db: Tables, names: seq<string>, obstacles: string -> Obstacles,
                            d: DiffResult, op: PlanOp, n: string)
    requires IsNormal(target) && Sound(db) && Ascending(names)
    requires forall t :: t in target.tables ==> t.name in names
    requires Diff(target, Introspect(db, names, obstacles)) == Ok(d)
    requires op in d.ops && n !in names
    ensures Bystander(db, op, n)
  {
    hide IsNormal, FindTarget, Introspect, Needed, HasIndex;
    var actual, s := Introspect(db, names, obstacles), op.Subject();
    IsNormalMeaning(target);
    IntrospectLists(db, names, obstacles);
    IntrospectFinds(db, names, obstacles, s);
    ShareOfPlan(target, actual, s);
    ShareElements(d.ops, s);
    FindTargetMeaning(target.tables, s);
    if op.DropIndex? && n in db && HasIndex(db[n], op.index.name) {
      SortByElements(OpKey, Needed(FindTarget(target.tables, s).value, FindActual(actual, s)));
      DroppedIndexIsOwn(target, db, names, obstacles, op, n);
    }
  }

  lemma DropComesFromLive(d: TableDef, live: TableDef, op: PlanOp)
    requires op in AlterOps(d, live) && op.DropIndex?
    ensures op.index in live.indexes
  {
    AlterOpsElements(d, live, op);
    if x :| x in d.indexes && IndexCallsFor(d.name, x, live.indexes, op) {
      FindIndexMeaning(live.indexes, x.name);
    }
  }

  /* ---------- Runs ---------- */

  datatype Attempt = Attempt(target: SchemaDef, mode: ApplyMode, planned: string -> Obstacles,
                             applied: string -> Obstacles)

  /** Plan against the live database, then apply the plan; a failing step changes nothing. */
  function Step(engine: Engine, s: DbState, a: Attempt): Option<DbState> {
    match BuildPlan(s, a.target, a.planned)
    case Err(_) => None
    case Ok(plan) => Outcome(engine, s, plan, a.mode, a.applied)
  }

  /** The state after a list of attempts, and the targets that were applied. */
  function Run(engine: Engine, s: DbState, attempts: seq<Attempt>): (DbState, seq<SchemaDef>)
    decreases |attempts|
  {
    if attempts == [] then (s, [])
    else
      var (mid, done) := Run(engine, s, attempts[..|attempts| - 1]);
      var last := attempts[|attempts| - 1];
      match Step(engine, mid, last)
      case None => (mid, done)
      case Some(next) => (next, done + [last.target])
  }

  predicate Names(s: SchemaDef, n: string) {
    n in TableNames(s)
  }

  /** The history text of `s` is read back as a schema with a table `n`. */
  predicate TextNames(s: SchemaDef, n: string) {
    var r := FromCanonical(Canonical(s));
    r.Ok? && Names(r.value, n)
  }

  /** The history text of `s` is read back with the table names of `s`. */
  predicate KeepsNames(s: SchemaDef) {
    var r := FromCanonical(Canonical(s));
    && r.Ok?
    && (forall t :: t in r.value.tables ==> Names(s, t.name))
    && (forall t :: t in s.tables ==> Names(r.value, t.name))
  }

  predicate EverNamed(done: seq<SchemaDef>, n: string) {
    exists i :: 0 <= i < |done| && Names(done[i], n)
  }

  function Texts(done: seq<SchemaDef>): seq<string> {
    if done == [] then [] else Texts(done[..|done| - 1]) + [Canonical(done[|done| - 1])]
  }

  lemma TableNamesMeaning(s: SchemaDef, n: string)
    ensures Names(s, n) <==> exists t :: t in s.tables && t.name == n
    ensures Names(s, n) <==> FindTarget(s.tables, n).Some?
  {
    FindTargetMeaning(s.tables, n);
    if t :| t in s.tables && t.name == n {
      var i :| 0 <= i < |s.tables| && s.tables[i] == t;
      assert TableNames(s)[i] == n;
    }
    if Names(s, n) {
      var i :| 0 <= i < |TableNames(s)| && TableNames(s)[i] == n;
      assert s.tables[i] in s.tables;
    }
  }

  /** The latest history text is read back with a table `n`. */
  predicate LastReads(history: seq<string>, n: string) {
    history != []
    && var r := FromCanonical(history[|history| - 1]);
       r.Ok? && Names(r.value, n)
  }

  /** The scope of the next plan: there is one if and only if the latest history text can be read, and
      it holds the target's tables and those the text names. */
  lemma ScopeOfNext(history: seq<string>, target: SchemaDef)
    ensures ManagedScope(history, target).Ok? <==> history == [] || FromCanonical(history[|history| - 1]).Ok?
    ensures ManagedScope(history, target).Ok? ==>
              && Ascending(ManagedScope(history, target).value)
              && forall n :: n in ManagedScope(history, target).value <==> Names(target, n) || LastReads(history, n)
  {
    hide FromCanonical, NameSet, TableNames;
    var previous := LatestTarget(history);
    if previous.Ok? {
      var before := if previous.value.Some? then TableNames(previous.value.value) else [];
      NameSetMeaning(TableNames(target) + before);
    }
  }

  /** Schemas whose strings break no line and no field keep their names. */
  lemma PrintableKeepsNames(s: SchemaDef)
    requires IsNormal(s) && Printable(s)
    ensures KeepsNames(s)
  {
    hide Canonical, FromCanonical, IsNormal, Printable, ReadBack;
    PrintedReadsBack(s);
    ReadBackNormal(s);
    assert TableNames(ReadBack(s)) == TableNames(s);
    forall n ensures Names(ReadBack(s), n) <==> Names(s, n) {
    }
    forall t | t in s.tables ensures Names(s, t.name) { TableNamesMeaning(s, t.name); }
    forall t | t in ReadBack(s).tables ensures Names(ReadBack(s), t.name) { TableNamesMeaning(ReadBack(s), t.name); }
  }

  lemma KeptNames(s: SchemaDef, n: string)
    requires KeepsNames(s)
    ensures TextNames(s, n) <==> Names(s, n)
  {
    hide Canonical, FromCanonical, Names;
    TableNamesMeaning(s, n);
    TableNamesMeaning(FromCanonical(Canonical(s)).value, n);
  }

  lemma NormalizedNames(s: SchemaDef, n: string)
    requires Normalized(s).Ok?
    ensures Names(Normalized(s).value, n) <==> exists t :: t in s.tables && t.name == n
  {
    var r := Normalized(s).value;
    NormalizedMeaning(s);
    SortedTablesSource(s);
    hide Normalized, SortedTables, TableNames;
    TableNamesMeaning(r, n);
    if Names(r, n) {
      var t :| t in r.tables && t.name == n;
      var u :| u in s.tables && t == SortTable(u);
      assert u.name == n;
    }
    if t :| t in s.tables && t.name == n {
      assert SortTable(t) in r.tables;
    }
  }

  lemma LiveNames(db: Tables, scope: seq<string>, obstacles: string -> Obstacles, n: string)
    requires Named(db) && Ascending(scope)
    ensures (exists t :: t in LiveTables(Introspect(db, scope, obstacles)) && t.name == n) <==> n in scope && n in db
  {
    hide Introspect;
    var actual := Introspect(db, scope, obstacles);
    LiveTablesAt(actual);
    IntrospectLists(db, scope, obstacles);
    IntrospectFinds(db, scope, obstacles, n);
    FindActualMeaning(actual, n);
    if n in scope && n in db {
      var i :| 0 <= i < |actual| && actual[i] == FindActual(actual, n).value;
      assert LiveTables(actual)[i] in LiveTables(actual);
    }
    if t :| t in LiveTables(actual) && t.name == n {
      var i :| 0 <= i < |actual| && LiveTables(actual)[i] == t;
      assert actual[i] in actual;
    }
  }

  /** The scope that `apply` uses: the target's tables and the live tables the plan saw. */
  lemma ScopeOfApply(s: DbState, target: SchemaDef, obstacles: string -> Obstacles, plan: Plan, scope: seq<string>,
                     n: string)
    requires Named(s.tables) && ManagedScope(s.history, target) == Ok(scope) && Ascending(scope)
    requires BuildPlan(s, target, obstacles) == Ok(plan)
    ensures Ascending(PlanScope(plan))
    ensures n in PlanScope(plan) <==> Names(target, n) || (n in scope && n in s.tables)
  {
    hide Normalized, Introspect, LiveTables, NameSet, TableNames, ManagedScope;
    NameSetMeaning(TableNames(plan.source) + TableNames(plan.target));
    NormalizedNames(SchemaDef(LiveTables(Introspect(s.tables, scope, obstacles))), n);
    LiveNames(s.tables, scope, obstacles, n);
  }

  /** The plan and the recheck behind a completed step. */
  lemma StepParts(engine: Engine, s: DbState, a: Attempt, next: DbState)
    returns (scope: seq<string>, plan: Plan, d: DiffResult)
    requires Step(engine, s, a) == Some(next)
    ensures ManagedScope(s.history, a.target) == Ok(scope)
    ensures BuildPlan(s, a.target, a.planned) == Ok(plan) && plan.target == a.target
    ensures Diff(a.target, Introspect(s.tables, PlanScope(plan), a.applied)) == Ok(d)
    ensures RunOps(engine, s.tables, Introspect(s.tables, PlanScope(plan), a.applied), d.ops) == Ok(next.tables)
    ensures next.history == s.history + [Canonical(a.target)]
  {
    scope := ManagedScope(s.history, a.target).value;
    plan := BuildPlan(s, a.target, a.planned).value;
    d := Diff(a.target, Introspect(s.tables, PlanScope(plan), a.applied)).value;
  }

  lemma StepScope(s: DbState, a: Attempt, scope: seq<string>, plan: Plan)
    requires Named(s.tables)
    requires ManagedScope(s.history, a.target) == Ok(scope)
    requires BuildPlan(s, a.target, a.planned) == Ok(plan)
    ensures Ascending(PlanScope(plan))
    ensures forall n :: n in PlanScope(plan) <==> Names(a.target, n) || (LastReads(s.history, n) && n in s.tables)
  {
    hide ManagedScope, BuildPlan, PlanScope, LastReads, Names;
    ScopeOfNext(s.history, a.target);
    ScopeOfApply(s, a.target, a.planned, plan, scope, "");
    forall n ensures n in PlanScope(plan) <==> Names(a.target, n) || (LastReads(s.history, n) && n in s.tables) {
      ScopeOfApply(s, a.target, a.planned, plan, scope, n);
    }
  }

  /** What a step does to table `n`: target tables exist, tables only the latest history text named
      are gone, all others are as they were. */
  ghost predicate StepOn(s: Tables, history: seq<string>, target: SchemaDef, next: Tables, n: string) {
    if Names(target, n) then n in next
    else if LastReads(history, n) then n !in next
    else Get(next, n) == Get(s, n)
  }

  /** What any completed step does, whatever the strings in its target and in the history. */
  lemma StepEffect(engine: Engine, s: DbState, a: Attempt, next: DbState)
    requires Sound(s.tables) && IsNormal(a.target)
    requires Step(engine, s, a) == Some(next)
    ensures Sound(next.tables) && next.history == s.history + [Canonical(a.target)]
    ensures forall n :: StepOn(s.tables, s.history, a.target, next.tables, n)
  {
    hide IsNormal, Step, Canonical, LastReads;
    var scope, plan, d := StepParts(engine, s, a, next);
    StepScope(s, a, scope, plan);
    var names := PlanScope(plan);
    forall t | t in a.target.tables ensures t.name in names {
      TableNamesMeaning(a.target, t.name);
    }
    PlanEffect(engine, a.target, s.tables, names, a.applied, d);
    forall n ensures StepOn(s.tables, s.history, a.target, next.tables, n) {
      TableNamesMeaning(a.target, n);
      if n !in names { assert Get(next.tables, n) == Get(s.tables, n); }
    }
  }

  /* ---------- Runs over any targets ---------- */

  predicate LastTextNames(done: seq<SchemaDef>, n: string) {
    done != [] && TextNames(done[|done| - 1], n)
  }

  /** Whether table `n` exists once the targets `done` have been applied. */
  predicate Present(start: Tables, done: seq<SchemaDef>, n: string) {
    if done == [] then n in start
    else
      var front, last := done[..|done| - 1], done[|done| - 1];
      Names(last, n) || (!LastTextNames(front, n) && Present(start, front, n))
  }

  /** Table `n` was named by an applied target, or by the history text of one before the last. */
  predicate Touched(done: seq<SchemaDef>, n: string) {
    done != []
    && var front, last := done[..|done| - 1], done[|done| - 1];
       Names(last, n) || LastTextNames(front, n) || Touched(front, n)
  }

  /** What holds after any run that started from `start` with an empty history. */
  ghost predicate FollowsTexts(start: Tables, s: DbState, done: seq<SchemaDef>) {
    && Sound(s.tables)
    && s.history == Texts(done)
    && (forall n :: n in s.tables <==> Present(start, done, n))
    && (forall n :: !Touched(done, n) ==> Get(s.tables, n) == Get(start, n))
  }

  lemma LastReadsIsLastText(done: seq<SchemaDef>, n: string)
    ensures LastReads(Texts(done), n) <==> LastTextNames(done, n)
  {
  }

  lemma StepFollows(engine: Engine, start: Tables, s: DbState, done: seq<SchemaDef>, a: Attempt, next: DbState)
    requires FollowsTexts(start, s, done)
    requires IsNormal(a.target) && Step(engine, s, a) == Some(next)
    ensures FollowsTexts(start, next, done + [a.target])
  {
    hide Sound, Step, IsNormal, Canonical, LastReads, LastTextNames, Names;
    StepEffect(engine, s, a, next);
    var all := done + [a.target];
    assert all[..|all| - 1] == done;
    forall n
      ensures n in next.tables <==> Present(start, all, n)
      ensures !Touched(all, n) ==> Get(next.tables, n) == Get(start, n)
    {
      LastReadsIsLastText(done, n);
      assert StepOn(s.tables, s.history, a.target, next.tables, n);
    }
  }

  /** Runs of applies over any targets.  Whatever plans are attempted, in whatever mode and against
      whatever obstacles: the history lists the texts of the applied targets in order, which tables
      exist follows from the targets and those texts, and tables neither names are exactly as they
      were at the start. */
  lemma {:induction false} RunsFollowTheTexts(engine: Engine, start: Tables, attempts: seq<Attempt>)
    requires Sound(start)
    requires forall a :: a in attempts ==> IsNormal(a.target)
    ensures var (s, done) := Run(engine, DbState(start, []), attempts);
            FollowsTexts(start, s, done) && forall t :: t in done ==> exists a :: a in attempts && a.target == t
    decreases |attempts|
  {
    hide FollowsTexts, Step, IsNormal;
    if attempts == [] {
      RunStarts(start);
    } else {
      var front, last := attempts[..|attempts| - 1], attempts[|attempts| - 1];
      RunsFollowTheTexts(engine, start, front);
      var (mid, done) := Run(engine, DbState(start, []), front);
      var next := Step(engine, mid, last);
      if next.Some? { StepFollows(engine, start, mid, done, last, next.value); }
    }
  }

  lemma RunStarts(start: Tables)
    requires Sound(start)
    ensures FollowsTexts(start, DbState(start, []), [])
  {
  }

  /* ---------- Runs over targets that keep their names ---------- */

  lemma EverNamedExtends(done: seq<SchemaDef>, target: SchemaDef, n: string)
    ensures EverNamed(done + [target], n) <==> EverNamed(done, n) || Names(target, n)
  {
    var all := done + [target];
    if EverNamed(done, n) {
      var i :| 0 <= i < |done| && Names(done[i], n);
      assert Names(all[i], n);
    }
    assert all[|done|] == target;
  }

  predicate LastNames(done: seq<SchemaDef>, n: string) {
    done != [] && Names(done[|done| - 1], n)
  }

  lemma LastTextKept(done: seq<SchemaDef>, n: string)
    requires forall t :: t in done ==> KeepsNames(t)
    ensures LastTextNames(done, n) <==> LastNames(done, n)
    ensures LastNames(done, n) ==> EverNamed(done, n)
  {
    hide KeepsNames, TextNames, Names;
    if done != [] {
      assert done[|done| - 1] in done;
      KeptNames(done[|done| - 1], n);
    }
  }

  lemma {:induction false} KeptNamesDecide(start: Tables, done: seq<SchemaDef>, n: string)
    requires forall t :: t in done ==> KeepsNames(t)
    ensures Touched(done, n) <==> EverNamed(done, n)
    ensures Present(start, done, n) <==> if EverNamed(done, n) then LastNames(done, n) else n in start
  {
    hide KeepsNames, Names, LastTextNames, EverNamed;
    if done == [] {
      NothingNamed(n);
    } else {
      var front, last := done[..|done| - 1], done[|done| - 1];
      assert done == front + [last];
      KeptNamesDecide(start, front, n);
      EverNamedExtends(front, last, n);
      LastTextKept(front, n);
    }
  }

  lemma NothingNamed(n: string)
    ensures !EverNamed([], n)
  {
  }

  /** What holds after a run whose targets keep their names. */
  ghost predicate RunInvariant(start: Tables, s: DbState, done: seq<SchemaDef>) {
    && Sound(s.tables)
    && s.history == Texts(done)
    && (forall n :: EverNamed(done, n) ==> (n in s.tables <==> LastNames(done, n)))
    && (forall n :: !EverNamed(done, n) ==> Get(s.tables, n) == Get(start, n))
  }

  /** When every target's history text reads back with the target's own table names: the history lists
      the applied targets in order, a table named by some applied target exists exactly when the last
      applied target names it, and every other table is exactly as it was at the start. */
  lemma RunsManageExactlyTheLastTarget(engine: Engine, start: Tables, attempts: seq<Attempt>)
    requires Sound(start)
    requires forall a :: a in attempts ==> IsNormal(a.target) && KeepsNames(a.target)
    ensures var (s, done) := Run(engine, DbState(start, []), attempts);
            RunInvariant(start, s, done)
  {
    hide KeepsNames, IsNormal, Present, Touched, EverNamed;
    RunsFollowTheTexts(engine, start, attempts);
    var (s, done) := Run(engine, DbState(start, []), attempts);
    forall n
      ensures EverNamed(done, n) ==> (n in s.tables <==> LastNames(done, n))
      ensures !EverNamed(done, n) ==> Get(s.tables, n) == Get(start, n)
    {
      KeptNamesDecide(start, done, n);
    }
  }

  /* ---------- Convergence of whole applies ---------- */

  lemma TargetInScope(plan: Plan)
    ensures Ascending(PlanScope(plan))
    ensures forall t :: t in plan.target.tables ==> t.name in PlanScope(plan)
  {
    NameSetMeaning(TableNames(plan.source) + TableNames(plan.target));
    forall t | t in plan.target.tables ensures t.name in PlanScope(plan) {
      TableNamesMeaning(plan.target, t.name);
    }
  }

  /** A completed apply in safe mode keeps every table, row key and existing cell. */
  lemma SafeApplyKeepsData(engine: Engine, before: DbState, plan: Plan, obstacles: string -> Obstacles, after: DbState)
    requires Applied(engine, before, plan, SafeOnly, obstacles, after)
    ensures KeepsData(before.tables, after.tables)
  {
    hide Diff, Introspect, RunOps, KeepsData;
    SafePlanKeepsData(engine, before.tables, Introspect(before.tables, PlanScope(plan), obstacles), plan.ops);
  }

  /** A completed apply leaves the target in place.  That it completed shows that no unmanaged
      index sat on a dropped column. */
  lemma AppliedReaches(engine: Engine, before: DbState, plan: Plan, mode: ApplyMode, obstacles: string -> Obstacles,
                       after: DbState, owner: map<string, string>)
    requires IsNormal(plan.target) && WellFormedDb(before.tables) && NamesApart(plan.target, before.tables, owner)
    requires Applied(engine, before, plan, mode, obstacles, after)
    ensures ReplaysSurvive(plan.target, before.tables)
    ensures Reached(plan.target, PlanScope(plan), before.tables, after.tables)
  {
    TargetInScope(plan);
    var names := PlanScope(plan);
    var d := Diff(plan.target, Introspect(before.tables, names, obstacles)).value;
    if !ReplaysSurvive(plan.target, before.tables) {
      DroppedReplayStopsPlan(engine, plan.target, before.tables, names, obstacles, d, owner);
    }
    PlanConverges(engine, plan.target, before.tables, names, obstacles, d, owner);
  }

  lemma LastTextRead(history: seq<string>, target: SchemaDef, n: string)
    ensures LastReads(history + [Canonical(target)], n) <==> TextNames(target, n)
  {
  }

  /** No live table is named by the target's history text alone. */
  ghost predicate NoStranger(target: SchemaDef, tables: Tables) {
    forall n :: TextNames(target, n) && n in tables ==> Names(target, n)
  }

  /** A target that keeps its names meets both conditions, whatever is live. */
  lemma KeptNamesReplan(target: SchemaDef, tables: Tables)
    requires KeepsNames(target)
    ensures FromCanonical(Canonical(target)).Ok? && NoStranger(target, tables)
  {
    hide Canonical, FromCanonical, Names, TextNames;
    assert FromCanonical(Canonical(target)).Ok?;
    forall n | TextNames(target, n) ensures Names(target, n) { KeptNames(target, n); }
  }

  lemma ReplanAfterApply(target: SchemaDef, names: seq<string>, before: Tables, after: Tables,
                         owner: map<string, string>, scope: seq<string>, again: string -> Obstacles, d: DiffResult)
    requires IsNormal(target) && WellFormedDb(before) && NamesApart(target, before, owner)
    requires Reached(target, names, before, after)
    requires Ascending(scope) && forall n :: n in scope <==> Names(target, n) || TextNames(target, n)
    requires Diff(target, Introspect(after, scope, again)) == Ok(d)
    ensures d.ops == [] && d.blockers == [] <==> NoStranger(target, after)
  {
    hide Diff, Introspect, IsNormal, TextNames, Names, WellFormedDb;
    ReachedWellFormed(target, names, before, after);
    forall t | t in target.tables ensures t.name in scope { TableNamesMeaning(target, t.name); }
    NothingToDo(target, after, scope, again, d);
    forall t | t in target.tables ensures Matches(t, Report(after[t.name], again(t.name)).table) {
      if t.name in before { ManagedElements(before[t.name].def.indexes); }
      SettledMatches(after[t.name], t, KeptIn(before, t.name), again(t.name));
    }
    forall n ensures Names(target, n) <==> FindTarget(target.tables, n).Some? { TableNamesMeaning(target, n); }
  }

  /** Planning the same target again, right after an apply completed, succeeds and asks for nothing if
      and only if the target's history text can be read and names no live table but the target's. */
  lemma ApplyThenPlanIsEmpty(engine: Engine, before: DbState, plan: Plan, mode: ApplyMode,
                             obstacles: string -> Obstacles, after: DbState, owner: map<string, string>,
                             again: string -> Obstacles)
    requires IsNormal(plan.target) && WellFormedDb(before.tables) && NamesApart(plan.target, before.tables, owner)
    requires Applied(engine, before, plan, mode, obstacles, after)
    ensures var r := BuildPlan(after, plan.target, again);
            (r.Ok? && r.value.ops == [] && r.value.blockers == [])
            <==> FromCanonical(Canonical(plan.target)).Ok? && NoStranger(plan.target, after.tables)
  {
    hide Diff, Introspect, IsNormal, TextNames, Names, WellFormedDb, FromCanonical, Canonical, NoStranger, LastReads,
         Reached, PlanScope, ManagedScope, NamesApart;
    var target := plan.target;
    AppliedReaches(engine, before, plan, mode, obstacles, after, owner);
    ScopeOfNext(after.history, target);
    if FromCanonical(Canonical(target)).Ok? {
      var scope := ManagedScope(after.history, target).value;
      forall n ensures n in scope <==> Names(target, n) || TextNames(target, n) {
        LastTextRead(before.history, target, n);
      }
      ReachedWellFormed(target, PlanScope(plan), before.tables, after.tables);
      DiffSucceeds(target, after.tables, scope, again);
      ReplanAfterApply(target, PlanScope(plan), before.tables, after.tables, owner, scope, again,
                       Diff(target, Introspect(after.tables, scope, again)).value);
    }
  }
}
