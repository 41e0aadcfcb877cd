/** What a filter means under SQL's three-valued logic, and a reader for printed clauses.
    Compiling a filter, reading the clause back under either precedence of AND and OR and
    evaluating it with the bound parameters gives the filter's own meaning on every row. */
module QueryMeaning {
  import opened Prelude
  import opened SqlValues
  import opened QueryExpression

  datatype Truth = True | False | Unknown

  function And3(a: Truth, b: Truth): Truth {
    if a.False? || b.False? then False else if a.True? && b.True? then True else Unknown
  }

  function Or3(a: Truth, b: Truth): Truth {
    if a.True? || b.True? then True else if a.False? && b.False? then False else Unknown
  }

  function Bool3(b: bool): Truth { if b then True else False }

  /** How SQLite compares two values that are not null, under the affinity and the collating sequence
      of the column the comparison is about. */
  datatype Collation = Collation(equal: (string, Value, Value) -> bool, less: (string, Value, Value) -> bool)

  type Row = string -> Value

  function Compare(k: Collation, column: string, op: Operator, a: Value, b: Value): Truth {
    if a.Null? || b.Null? then Unknown
    else
      match op
      case Eq => Bool3(k.equal(column, a, b))
      case Ne => Bool3(!k.equal(column, a, b))
      case Gt => Bool3(k.less(column, b, a))
      case Gte => Bool3(!k.less(column, a, b))
      case Lt => Bool3(k.less(column, a, b))
      case Lte => Bool3(!k.less(column, b, a))
      case _ => Unknown
  }

  /* ---------- Filters ---------- */

  /** `x IN (vs)`, as the standard defines it by cases. */
  predicate Among(k: Collation, column: string, x: Value, vs: seq<Value>) {
    exists i :: 0 <= i < |vs| && Compare(k, column, Eq, x, vs[i]).True?
  }

  function InTruth(k: Collation, column: string, x: Value, vs: seq<Value>): Truth {
    if vs == [] then False
    else if Among(k, column, x, vs) then True
    else if x.Null? || Null in vs then Unknown
    else False
  }

  /** A leaf's operand has the shape its operator supports. */
  predicate Supported(c: Comparison) {
    match c.operand
    case Single(None) => c.operator.Eq? || c.operator.IsNull? || c.operator.Ne? || c.operator.IsNotNull?
    case Single(Some(_)) => !c.operator.In?
    case Many(_) => c.operator.In?
  }

  function LeafTruth(k: Collation, column: string, c: Comparison, x: Value): Truth
    requires Supported(c)
  {
    match c.operand
    case Many(vs) => InTruth(k, column, x, vs)
    case Single(v) =>
      if c.operator.IsNull? || (c.operator.Eq? && v.None?) then Bool3(x.Null?)
      else if c.operator.IsNotNull? || (c.operator.Ne? && v.None?) then Bool3(!x.Null?)
      else Compare(k, column, c.operator, x, v.value)
  }

  predicate AllSupported(e: Expr) {
    match e
    case Empty => true
    case Predicate(_, c) => Supported(c)
    case And(l, r) => AllSupported(l) && AllSupported(r)
    case Or(l, r) => AllSupported(l) && AllSupported(r)
  }

  /** The truth of a filter on a row; `None` is the filter that says nothing and is the identity
      of both connectives. */
  function Meaning(k: Collation, e: Expr, row: Row): Option<Truth>
    requires AllSupported(e)
  {
    match e
    case Empty => None
    case Predicate(column, c) => Some(LeafTruth(k, column, c, row(column)))
    case And(l, r) =>
      var a, b := Meaning(k, l, row), Meaning(k, r, row);
      if a.None? then b else if b.None? then a else Some(And3(a.value, b.value))
    case Or(l, r) =>
      var a, b := Meaning(k, l, row), Meaning(k, r, row);
      if a.None? then b else if b.None? then a else Some(Or3(a.value, b.value))
  }

  /* ---------- Clauses ---------- */

  /** A parsed clause. */
  datatype Ast =
    | Cmp(column: string, operator: Operator, index: nat)
    | NullTest(column: string, isNull: bool)
    | InList(column: string, indexes: seq<nat>)
    | Numbers(a: nat, b: nat)
    | AndAst(l: Ast, r: Ast)
    | OrAst(l: Ast, r: Ast)

  /** `?n` reads the n-th bound value; an unbound one is null. */
  function Bound(params: seq<Value>, index: nat): Value {
    if 1 <= index <= |params| then params[index - 1] else Null
  }

  /** `IN` as the disjunction of equalities that SQLite evaluates. */
  function InValue(k: Collation, column: string, x: Value, params: seq<Value>, indexes: seq<nat>): Truth {
    if indexes == [] then False
    else Or3(Compare(k, column, Eq, x, Bound(params, indexes[0])), InValue(k, column, x, params, indexes[1..]))
  }

  function Evaluate(k: Collation, a: Ast, params: seq<Value>, row: Row): Truth {
    match a
    case Cmp(column, op, index) => Compare(k, column, op, row(column), Bound(params, index))
    case NullTest(column, isNull) => Bool3(row(column).Null? == isNull)
    case InList(column, indexes) => InValue(k, column, row(column), params, indexes)
    case Numbers(x, y) => Bool3(x == y)
    case AndAst(l, r) => And3(Evaluate(k, l, params, row), Evaluate(k, r, params, row))
    case OrAst(l, r) => Or3(Evaluate(k, l, params, row), Evaluate(k, r, params, row))
  }

  /* ---------- A reader for clauses ---------- */

  /** `Param (, Param)*`. */
  function ParseParams(ts: Clause): Option<(seq<nat>, Clause)> {
    if ts == [] || !ts[0].Param? then None
    else if |ts| >= 2 && ts[1].Comma? then
      match ParseParams(ts[2..])
      case None => None
      case Some(r) => Some(([ts[0].index] + r.0, r.1))
    else Some(([ts[0].index], ts[1..]))
  }

  function ParseAtom(ts: Clause): Option<(Ast, Clause)> {
    if |ts| >= 3 && ts[0].Num? && ts[1] == Symbol(Eq) && ts[2].Num? then Some((Numbers(ts[0].n, ts[2].n), ts[3..]))
    else if |ts| >= 3 && ts[0].Name? && ts[1].Symbol? && ts[2].Param? then
      Some((Cmp(ts[0].column, ts[1].operator, ts[2].index), ts[3..]))
    else if |ts| >= 3 && ts[0].Name? && ts[1].IsKw? && ts[2].NullKw? then Some((NullTest(ts[0].column, true), ts[3..]))
    else if |ts| >= 4 && ts[0].Name? && ts[1].IsKw? && ts[2].NotKw? && ts[3].NullKw? then
      Some((NullTest(ts[0].column, false), ts[4..]))
    else if |ts| >= 3 && ts[0].Name? && ts[1].InKw? && ts[2].LParen? then
      match ParseParams(ts[3..])
      case None => None
      case Some(r) =>
        if r.1 != [] && r.1[0].RParen? then Some((InList(ts[0].column, r.0), r.1[1..])) else None
    else None
  }

  /** The connective of a precedence level: 0 binds loosest. */
  function Connective(level: nat, andTighter: bool): Token {
    if (level == 1) == andTighter then AndKw else OrKw
  }

  function Connect(t: Token, l: Ast, r: Ast): Ast {
    if t.AndKw? then AndAst(l, r) else OrAst(l, r)
  }

  /** Precedence parser: `level 0 := level1 (op0 level1)*`, `level1 := primary (op1 primary)*`,
      `primary := ( level0 ) | atom`, with AND binding tighter than OR or the other way round. */
  function Parse(level: nat, ts: Clause, andTighter: bool): Option<(Ast, Clause)>
    requires level <= 2
    decreases |ts|, 2 - level, 1
  {
    if level == 2 then
      if ts != [] && ts[0].LParen? then
        match Parse(0, ts[1..], andTighter)
        case None => None
        case Some(r) => if r.1 != [] && r.1[0].RParen? then Some((r.0, r.1[1..])) else None
      else ParseAtom(ts)
    else
      match Parse(level + 1, ts, andTighter)
      case None => None
      case Some(r) => if |r.1| < |ts| then Continue(level, r.0, r.1, andTighter) else None
  }

  function Continue(level: nat, left: Ast, ts: Clause, andTighter: bool): Option<(Ast, Clause)>
    requires level <= 1
    decreases |ts|, 3, 0
  {
    if ts == [] || ts[0] != Connective(level, andTighter) then Some((left, ts))
    else
      match Parse(level + 1, ts[1..], andTighter)
      case None => None
      case Some(r) =>
        if |r.1| < |ts| then Continue(level, Connect(ts[0], left, r.0), r.1, andTighter) else None
  }
}
