/** Running a list of operations on the database is running each table's share of the list on
    that table alone, and the list fails exactly when some share fails. */
module SchemaShares {
  import opened Prelude
  import opened Ordering
  import opened SchemaTypes
  import opened SchemaPlan
  import opened SchemaDiff
  import opened SchemaMachine
  import opened SchemaFrame

  function Share(ops: seq<PlanOp>, n: string): seq<PlanOp> {
    if ops == [] then []
    else if ops[0].Subject() == n then [ops[0]] + Share(ops[1..], n)
    else Share(ops[1..], n)
  }

  function RunShare(engine: Engine, t: Option<LiveTable>, actual: seq<ActualTable>,
                    ops: seq<PlanOp>): Result<Option<LiveTable>, SqlError>
    decreases |ops|
  {
    if ops == [] then Ok(t)
    else
      match Alone(engine, t, actual, ops[0])
      case Err(e) => Err(e)
      case Ok(next) => RunShare(engine, next, actual, ops[1..])
  }

  lemma {:induction false} RemoveIndexElements(indexes: seq<IndexDef>, name: string)
    ensures forall i :: i in RemoveIndex(indexes, name) ==> i in indexes
  {
    if indexes != [] && indexes[0].name != name { RemoveIndexElements(indexes[1..], name); }
  }

  /** An operation leaves its table with its own name and only its own index names. */
  lemma AloneOwned(engine: Engine, t: Option<LiveTable>, actual: seq<ActualTable>, op: PlanOp,
                   owner: map<string, string>, reserved: set<string>)
    requires TidyOp(actual, op, owner, reserved)
    requires t.Some? ==> t.value.def.name == op.Subject() && Owns(owner, op.Subject(), t.value.def.indexes)
    ensures var r := Alone(engine, t, actual, op);
            r.Ok? && r.value.Some? ==>
              && r.value.value.def.name == op.Subject()
              && Owns(owner, op.Subject(), r.value.value.def.indexes)
  {
    var n := op.Subject();
    match op {
      case CreateTable(def) =>
        AddIndexesOwned(LiveTable(def.(indexes := []), map[]), def.indexes, owner, n);
      case DropIndex(_, index) =>
        if t.Some? { RemoveIndexElements(t.value.def.indexes, index.name); }
      case RebuildTable(_, from, to, _) =>
        if t.Some? && FindActual(actual, n).Some? {
          var swapped := SwapAlone(engine, t.value, from, to);
          if swapped.Ok? {
            AddIndexesOwned(swapped.value, to.indexes, owner, n);
            var indexed := AddIndexes(swapped.value, to.indexes);
            if indexed.Ok? { AddIndexesOwned(indexed.value, FindActual(actual, n).value.replay, owner, n); }
          }
        }
      case _ =>
    }
  }

  lemma PutTidy(db: Tables, n: string, t: Option<LiveTable>, owner: map<string, string>, reserved: set<string>)
    requires Tidy(db, owner, reserved) && n !in owner && n !in reserved
    requires t.Some? ==> t.value.def.name == n && Owns(owner, n, t.value.def.indexes)
    ensures Tidy(Put(db, n, t), owner, reserved)
  {
  }

  lemma {:induction false} RunOpsShares(engine: Engine, db: Tables, actual: seq<ActualTable>, ops: seq<PlanOp>,
                                        owner: map<string, string>, reserved: set<string>) returns (bad: string)
    requires Tidy(db, owner, reserved)
    requires forall op :: op in ops ==> TidyOp(actual, op, owner, reserved)
    ensures RunOps(engine, db, actual, ops).Err? ==>
              RunShare(engine, Get(db, bad), actual, Share(ops, bad)) == Err(RunOps(engine, db, actual, ops).error)
    ensures RunOps(engine, db, actual, ops).Ok? ==>
              forall n :: RunShare(engine, Get(db, n), actual, Share(ops, n))
                == Ok(Get(RunOps(engine, db, actual, ops).value, n))
    decreases |ops|
  {
    bad := "";
    if ops != [] {
      var op := ops[0];
      var s := op.Subject();
      assert op in ops;
      RunOpAgrees(engine, db, actual, op, owner, reserved);
      var here := Alone(engine, Get(db, s), actual, op);
      assert Share(ops, s) == [op] + Share(ops[1..], s);
      if here.Err? {
        bad := s;
      } else {
        AloneOwned(engine, Get(db, s), actual, op, owner, reserved);
        PutTidy(db, s, here.value, owner, reserved);
        var next := Put(db, s, here.value);
        bad := RunOpsShares(engine, next, actual, ops[1..], owner, reserved);
        forall n ensures RunShare(engine, Get(db, n), actual, Share(ops, n))
                      == RunShare(engine, Get(next, n), actual, Share(ops[1..], n)) {
          if n == s {
            assert Share(ops, n)[1..] == Share(ops[1..], n);
          } else {
            assert Share(ops, n) == Share(ops[1..], n);
            assert Get(next, n) == Get(db, n);
          }
        }
      }
    }
  }

  /* ---------- Sorting a share is sharing the sorted list ---------- */

  lemma {:induction false} ShareAppend(a: seq<PlanOp>, b: seq<PlanOp>, n: string)
    ensures Share(a + b, n) == Share(a, n) + Share(b, n)
  {
    if a == [] {
      assert a + b == b;
    } else {
      assert (a + b)[1..] == a[1..] + b;
      ShareAppend(a[1..], b, n);
    }
  }

  lemma {:induction false} ShareElements(ops: seq<PlanOp>, n: string)
    ensures forall op :: op in Share(ops, n) <==> op in ops && op.Subject() == n
  {
    if ops != [] {
      ShareElements(ops[1..], n);
      assert ops == [ops[0]] + ops[1..];
    }
  }

  lemma {:induction false} InsertAtFront(op: PlanOp, ops: seq<PlanOp>)
    requires forall x :: x in ops ==> KeyLeq(OpKey(op), OpKey(x))
    ensures InsertBy(OpKey, op, ops) == [op] + ops
  {
    if ops != [] { assert ops[0] in ops; }
  }

  lemma {:induction false} ShareOfInsert(op: PlanOp, ops: seq<PlanOp>, n: string)
    requires SortedBy(OpKey, ops)
    ensures Share(InsertBy(OpKey, op, ops), n)
         == if op.Subject() == n then InsertBy(OpKey, op, Share(ops, n)) else Share(ops, n)
  {
    if ops == [] || KeyLeq(OpKey(op), OpKey(ops[0])) {
      assert ([op] + ops)[1..] == ops;
      ShareElements(ops, n);
      forall x | x in Share(ops, n) ensures KeyLeq(OpKey(op), OpKey(x)) {
        var i :| 0 <= i < |ops| && ops[i] == x;
        if i > 0 { KeyTransitive(OpKey(op), OpKey(ops[0]), OpKey(ops[i])); }
      }
      InsertAtFront(op, Share(ops, n));
    } else {
      ShareOfInsert(op, ops[1..], n);
      var rest := InsertBy(OpKey, op, ops[1..]);
      assert ([ops[0]] + rest)[1..] == rest;
      if op.Subject() == n && ops[0].Subject() == n {
        assert Share(ops, n) == [ops[0]] + Share(ops[1..], n);
        assert Share(ops, n)[1..] == Share(ops[1..], n);
      }
    }
  }

  /** The sort is stable, so a table's share of the plan is its own operations, sorted. */
  lemma {:induction false} ShareOfSorted(ops: seq<PlanOp>, n: string)
    ensures Share(SortBy(OpKey, ops), n) == SortBy(OpKey, Share(ops, n))
  {
    if ops != [] {
      ShareOfSorted(ops[1..], n);
      SortBySorts(OpKey, ops[1..]);
      ShareOfInsert(ops[0], SortBy(OpKey, ops[1..]), n);
      if ops[0].Subject() == n { SortOfCons(ops[0], Share(ops[1..], n)); }
    }
  }

  lemma SortOfCons(op: PlanOp, ops: seq<PlanOp>)
    ensures SortBy(OpKey, [op] + ops) == InsertBy(OpKey, op, SortBy(OpKey, ops))
  {
    assert ([op] + ops)[1..] == ops;
  }
}
