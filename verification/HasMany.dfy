/** Queries scoped to a parent record (src/model/association/has_many.rs), and the builder calls
    that lazy and chunked views pass on to the query inside them. */
module HasMany {
  import opened Prelude
  import opened SqlValues
  import opened QueryExpression
  import opened QueryMeaning
  import opened QueryTheorems
  import opened Queries

  const TWO_TO_THE_63 := 0x8000_0000_0000_0000
  const TWO_TO_THE_64 := 0x1_0000_0000_0000_0000

  type Id = n: nat | n < TWO_TO_THE_64

  datatype AssociationError = InvalidAssociation | Refused(error: QueryError) | ReadFailed | SaveFailed

  /** A `u64` as SQLite stores it: the same bits as a signed integer. */
  function StoredId(id: Id): Value {
    Integer(if id < TWO_TO_THE_63 then id else id - TWO_TO_THE_64)
  }

  lemma StoredIdInjective(a: Id, b: Id)
    requires StoredId(a) == StoredId(b)
    ensures a == b
  {
  }

  /* ---------- Scoped queries ---------- */

  datatype ScopedQuery = HasManyQuery(scope: Result<Query, AssociationError>, filters: Option<Query>)
  {
    function AndQuery(other: Query): ScopedQuery {
      this.(filters := Some(if filters.Some? then filters.value.AndQuery(other) else other))
    }

    function OrQuery(other: Query): ScopedQuery {
      this.(filters := Some(if filters.Some? then filters.value.OrQuery(other) else other))
    }

    function OrderQuery(terms: seq<OrderTerm>): ScopedQuery {
      if scope.Ok? then this.(scope := Ok(scope.value.OrderQuery(terms))) else this
    }

    function LimitQuery(n: Usize): ScopedQuery {
      if scope.Ok? then this.(scope := Ok(scope.value.LimitQuery(n))) else this
    }

    function OffsetQuery(n: Usize): ScopedQuery {
      if scope.Ok? then this.(scope := Ok(scope.value.OffsetQuery(n))) else this
    }

    function IntoPlan(): Result<Plan, AssociationError> {
      match scope
      case Err(x) => Err(x)
      case Ok(s) =>
        match PlanOf(if filters.Some? then s.AndQuery(filters.value) else s)
        case Err(x) => Err(Refused(x))
        case Ok(p) => Ok(p)
    }
  }

  /** `HasMany::query`: an unbound association has no parent to scope to, and one that was made without
      its generated handlers has no foreign key. */
  function QueryFor(parent: Option<Id>, foreignKey: Option<string>): ScopedQuery {
    HasManyQuery(
      if parent.Some? && foreignKey.Some? then Ok(Where(foreignKey.value, WithValue(Eq, Some(StoredId(parent.value)))))
      else Err(InvalidAssociation),
      None)
  }

  /* ---------- Views and builder calls ---------- */

  /** A query, or the lazy or chunked wrapper around it. */
  datatype View = Eager(inner: ScopedQuery) | Lazy(inner: ScopedQuery) | Chunked(inner: ScopedQuery, chunkSize: Usize)

  datatype Call =
    | AndCall(other: Query)
    | OrCall(other: Query)
    | OrderCall(terms: seq<OrderTerm>)
    | LimitCall(limit: Usize)
    | OffsetCall(offset: Usize)
    | LazyCall
    | ChunkedCall(size: Usize)

  /** One builder call; `None` is the panic of `chunked(0)`. */
  function Step(v: View, call: Call): Option<View> {
    match call
    case AndCall(other) => Some(v.(inner := v.inner.AndQuery(other)))
    case OrCall(other) => Some(v.(inner := v.inner.OrQuery(other)))
    case OrderCall(terms) => Some(v.(inner := v.inner.OrderQuery(terms)))
    case LimitCall(n) => Some(v.(inner := v.inner.LimitQuery(n)))
    case OffsetCall(n) => Some(v.(inner := v.inner.OffsetQuery(n)))
    case LazyCall => Some(Lazy(v.inner))
    case ChunkedCall(n) => if n == 0 then None else Some(Chunked(v.inner, n))
  }

  function Chain(v: View, calls: seq<Call>): Option<View> {
    if calls == [] then Some(v)
    else
      match Chain(v, calls[..|calls| - 1])
      case None => None
      case Some(u) => Step(u, calls[|calls| - 1])
  }

  /* ---------- What a chain of calls amounts to ---------- */

  /** The left-to-right fold of the and/or calls; the first of either kind starts the fold. */
  function FilterOf(calls: seq<Call>): Option<Expr> {
    if calls == [] then None
    else
      var before, last := FilterOf(calls[..|calls| - 1]), calls[|calls| - 1];
      if last.AndCall? then
        Some(if before.Some? then And(before.value, last.other.expression) else last.other.expression)
      else if last.OrCall? then
        Some(if before.Some? then Or(before.value, last.other.expression) else last.other.expression)
      else before
  }

  function OrderingOf(calls: seq<Call>): seq<OrderTerm> {
    if calls == [] then []
    else
      var before, last := OrderingOf(calls[..|calls| - 1]), calls[|calls| - 1];
      if last.OrderCall? then before + last.terms else before
  }

  /** The last limit and the last offset win. */
  function LimitOf(calls: seq<Call>): Option<Usize> {
    if calls == [] then None
    else if calls[|calls| - 1].LimitCall? then Some(calls[|calls| - 1].limit)
    else LimitOf(calls[..|calls| - 1])
  }

  function OffsetOf(calls: seq<Call>): Usize {
    if calls == [] then 0
    else if calls[|calls| - 1].OffsetCall? then calls[|calls| - 1].offset
    else OffsetOf(calls[..|calls| - 1])
  }

  /** What every chain keeps: the parent predicate stays the scope's expression, the filter is
      the fold of the and/or calls alone, and paging and ordering land on the scope. */
  lemma {:induction false} ChainShape(scope: Query, calls: seq<Call>)
    requires scope.ordering == [] && scope.limit == None && scope.offset == 0
    ensures var end := Chain(Eager(HasManyQuery(Ok(scope), None)), calls);
            && (end.None? <==> ChunkedCall(0) in calls)
            && (end.Some? ==>
                 && end.value.inner.scope
                      == Ok(Query(scope.expression, OrderingOf(calls), LimitOf(calls), OffsetOf(calls)))
                 && (end.value.inner.filters.Some? <==> FilterOf(calls).Some?)
                 && (FilterOf(calls).Some? ==> end.value.inner.filters.value.expression == FilterOf(calls).value))
  {
    if calls == [] {
      assert scope == Query(scope.expression, [], None, 0);
    } else {
      var before, last := calls[..|calls| - 1], calls[|calls| - 1];
      ChainShape(scope, before);
      assert calls == calls[..|calls| - 1] + [calls[|calls| - 1]];
    }
  }

  /** An association without a parent or without handlers stays an error through every chain. */
  lemma {:induction false} UnboundStaysUnbound(parent: Option<Id>, foreignKey: Option<string>, calls: seq<Call>)
    requires parent.None? || foreignKey.None?
    ensures var end := Chain(Eager(QueryFor(parent, foreignKey)), calls);
            && (end.None? <==> ChunkedCall(0) in calls)
            && (end.Some? ==>
                 && end.value.inner.scope == Err(InvalidAssociation)
                 && end.value.inner.IntoPlan() == Err(InvalidAssociation))
  {
    if calls != [] {
      UnboundStaysUnbound(parent, foreignKey, calls[..|calls| - 1]);
      assert calls == calls[..|calls| - 1] + [calls[|calls| - 1]];
    }
  }

  /* ---------- Rows ---------- */

  /** A plan returns the rows its clause is true of; without a clause, every row. */
  predicate Admits(k: Collation, p: Plan, row: Row, andTighter: bool) {
    p.clause.None? || ClauseTruth(k, p.clause, p.params, row, andTighter) == Some(True)
  }

  predicate Passes(k: Collation, filter: Option<Expr>, row: Row)
    requires filter.Some? ==> AllSupported(filter.value)
  {
    filter.None? || Meaning(k, filter.value, row) in {None, Some(True)}
  }

  predicate BelongsTo(k: Collation, foreignKey: string, parent: Id, row: Row) {
    Compare(k, foreignKey, Eq, row(foreignKey), StoredId(parent)) == True
  }

  /** After any chain of builder calls, planning fails exactly on an unsupported filter, and the
      plan admits exactly the parent's rows that pass the filter: no `or` reaches past the
      parent. */
  lemma ScopeIsInescapable(k: Collation, foreignKey: string, parent: Id, calls: seq<Call>, row: Row, andTighter: bool)
    requires ChunkedCall(0) !in calls
    ensures var end := Chain(Eager(QueryFor(Some(parent), Some(foreignKey))), calls);
            var filter := FilterOf(calls);
            && end.Some?
            && var plan := end.value.inner.IntoPlan();
            && (plan.Ok? <==> filter.None? || AllSupported(filter.value))
            && (plan.Ok? ==>
                 && Admits(k, plan.value, row, andTighter)
                      == (BelongsTo(k, foreignKey, parent, row) && Passes(k, filter, row))
                 && plan.value.ordering == OrderingOf(calls)
                 && plan.value.limit == LimitOf(calls)
                 && plan.value.offset == OffsetOf(calls))
  {
    var scope := Where(foreignKey, WithValue(Eq, Some(StoredId(parent))));
    ChainShape(scope, calls);
    var filter := FilterOf(calls);
    var whole := if filter.Some? then And(scope.expression, filter.value) else scope.expression;
    CompileFailsExactly(whole, []);
    if Compile(whole, []).Ok? {
      CompilePreservesMeaning(k, whole, [], [], row, andTighter);
      var bound := Compile(whole, []).value.1;
      assert bound + [] == bound;
    }
  }

  /** So every row of every page, eager, lazy or chunked, belongs to the parent. */
  lemma PagesStayInside(k: Collation, foreignKey: string, parent: Id, calls: seq<Call>, rows: seq<Row>,
                        andTighter: bool)
    requires ChunkedCall(0) !in calls
    requires var end := Chain(Eager(QueryFor(Some(parent), Some(foreignKey))), calls);
             end.Some? && end.value.inner.IntoPlan().Ok?
             && forall i :: 0 <= i < |rows| ==> Admits(k, end.value.inner.IntoPlan().value, rows[i], andTighter)
    ensures var end := Chain(Eager(QueryFor(Some(parent), Some(foreignKey))), calls).value;
            var page := Page(rows, end.inner.IntoPlan().value);
            forall i :: 0 <= i < |page| ==> BelongsTo(k, foreignKey, parent, page[i])
  {
    forall i | 0 <= i < |rows| ensures BelongsTo(k, foreignKey, parent, rows[i]) {
      ScopeIsInescapable(k, foreignKey, parent, calls, rows[i], andTighter);
    }
  }

  /* ---------- The association's cache ---------- */

  datatype Child = Child(id: nat, cells: map<string, Value>)
  {
    function Row(): Row {
      column => if column in cells then cells[column] else Null
    }
  }

  /** The rows a plan returns, in the order of the table. */
  function Selected(k: Collation, p: Plan, table: seq<Child>, andTighter: bool): seq<Child> {
    if table == [] then []
    else if Admits(k, p, table[0].Row(), andTighter) then [table[0]] + Selected(k, p, table[1..], andTighter)
    else Selected(k, p, table[1..], andTighter)
  }

  /** The children whose foreign key is the parent's id. */
  function ChildrenOf(k: Collation, foreignKey: string, parent: Id, table: seq<Child>): seq<Child> {
    if table == [] then []
    else
      var rest := ChildrenOf(k, foreignKey, parent, table[1..]);
      if BelongsTo(k, foreignKey, parent, table[0].Row()) then [table[0]] + rest else rest
  }

  lemma {:induction false} ChildrenAppend(k: Collation, foreignKey: string, parent: Id, a: seq<Child>, b: seq<Child>)
    ensures ChildrenOf(k, foreignKey, parent, a + b)
              == ChildrenOf(k, foreignKey, parent, a) + ChildrenOf(k, foreignKey, parent, b)
  {
    hide BelongsTo;
    if a == [] {
      assert a + b == b;
    } else {
      assert (a + b)[1..] == a[1..] + b;
      ChildrenAppend(k, foreignKey, parent, a[1..], b);
    }
  }

  /** The association's own query is planned, has no paging, and selects exactly the parent's
      children. */
  lemma {:induction false} QuerySelectsChildren(k: Collation, foreignKey: string, parent: Id, table: seq<Child>,
                                                andTighter: bool)
    ensures var plan := QueryFor(Some(parent), Some(foreignKey)).IntoPlan();
            && plan.Ok? && plan.value.limit == None && plan.value.offset == 0
            && Selected(k, plan.value, table, andTighter) == ChildrenOf(k, foreignKey, parent, table)
  {
    var first := (column: string) => Null;
    var start := Eager(QueryFor(Some(parent), Some(foreignKey)));
    assert Chain(start, []) == Some(start);
    ScopeIsInescapable(k, foreignKey, parent, [], first, andTighter);
    if table != [] {
      ScopeIsInescapable(k, foreignKey, parent, [], table[0].Row(), andTighter);
      QuerySelectsChildren(k, foreignKey, parent, table[1..], andTighter);
    }
  }

  /** The child table; a SELECT without ORDER BY is taken to return rows in insertion order. */
  class ChildTable {
    const foreignKey: string
    const collation: Collation
    const andTighter: bool
    var rows: seq<Child>

    constructor (foreignKey: string, collation: Collation, andTighter: bool)
      ensures this.foreignKey == foreignKey && this.collation == collation && this.andTighter == andTighter
                && rows == []
    {
      this.foreignKey, this.collation, this.andTighter, rows := foreignKey, collation, andTighter, [];
    }

    function Children(parent: Id): seq<Child>
      reads this
    {
      ChildrenOf(collation, foreignKey, parent, rows)
    }

    /** Runs a plan; `None` is an error. */
    function Query(p: Plan): Option<seq<Child>>
      reads this
    {
      Run(Selected(collation, p, rows, andTighter), AllTail(p))
    }

    /** Saves a child built from `cells` with its foreign key set to `parent`. */
    method Save(id: nat, cells: map<string, Value>, parent: Id) returns (child: Child)
      requires collation.equal(foreignKey, StoredId(parent), StoredId(parent))
      modifies this
      ensures rows == old(rows) + [child]
      ensures child.id == id && child.cells == cells[foreignKey := StoredId(parent)]
      ensures Children(parent) == old(Children(parent)) + [child]
    {
      child := Child(id, cells[foreignKey := StoredId(parent)]);
      ChildrenAppend(collation, foreignKey, parent, rows, [child]);
      rows := rows + [child];
      assert ChildrenOf(collation, foreignKey, parent, []) == [];
      assert [child][1..] == [];
      assert BelongsTo(collation, foreignKey, parent, child.Row());
    }
  }

  class Association {
    const parentId: Option<Id>
    /** Whether the generated handlers were given; `HasMany::new_bound` gives none. */
    const handled: bool
    var cached: Option<seq<Child>>

    constructor (parentId: Option<Id>, handled: bool)
      ensures this.parentId == parentId && this.handled == handled && cached == None
    {
      this.parentId, this.handled, cached := parentId, handled, None;
    }

    /** Bound to a parent, with the handlers to reach its children. */
    predicate Bound() {
      parentId.Some? && handled
    }

    /** A filled cache is what the database would answer. */
    predicate Coherent(table: ChildTable)
      reads this`cached, table
    {
      cached.Some? ==> Bound() && cached.value == table.Children(parentId.value)
    }

    /** Whatever was cached, and whatever else changed the children meanwhile. */
    method ClearCache()
      modifies this`cached
      ensures forall table: ChildTable :: Coherent(table)
    {
      cached := None;
    }

    /** `load`: the scoped query's rows, read once; `fault` is a failing read. */
    method Load(table: ChildTable, fault: bool) returns (r: Result<seq<Child>, AssociationError>)
      requires Coherent(table)
      modifies this`cached
      ensures Coherent(table)
      ensures r.Ok? <==> old(cached).Some? || (Bound() && !fault)
      ensures r.Ok? ==> r.value == table.Children(parentId.value) && cached == Some(r.value)
      ensures r.Err? ==> cached == old(cached)
    {
      if cached.Some? {
        return Ok(cached.value);
      }
      var plan := QueryFor(parentId, if handled then Some(table.foreignKey) else None).IntoPlan();
      if plan.Err? {
        return Err(plan.error);
      }
      QuerySelectsChildren(table.collation, table.foreignKey, parentId.value, table.rows, table.andTighter);
      var children := table.Query(plan.value);
      EagerAnswers(table.Children(parentId.value), plan.value);
      if fault || children.None? {
        return Err(ReadFailed);
      }
      cached := children;
      return Ok(children.value);
    }

    /** `append`: the handler saves the child for the parent; `fault` is a failing save. */
    method Append(table: ChildTable, id: nat, cells: map<string, Value>, fault: bool)
      returns (r: Result<Child, AssociationError>)
      requires Coherent(table)
      requires parentId.Some? ==>
                 table.collation.equal(table.foreignKey, StoredId(parentId.value), StoredId(parentId.value))
      modifies this`cached, table
      ensures Coherent(table)
      ensures r.Ok? <==> Bound() && !fault
      ensures r.Ok? ==> table.rows == old(table.rows) + [r.value] && r.value.id == id
      ensures r.Ok? ==> table.Children(parentId.value) == old(table.Children(parentId.value)) + [r.value]
      ensures cached.Some? == old(cached).Some?
      ensures r.Err? ==> table.rows == old(table.rows) && cached == old(cached)
    {
      if !Bound() {
        return Err(InvalidAssociation);
      }
      if fault {
        return Err(SaveFailed);
      }
      var child := table.Save(id, cells, parentId.value);
      if cached.Some? {
        cached := Some(cached.value + [child]);
      }
      return Ok(child);
    }
  }
}
