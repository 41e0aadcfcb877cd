/** Filter expressions and their compilation to a clause with numbered placeholders
    (src/model/query/expression.rs, src/model/comparison.rs).  A clause is a sequence of SQL
    tokens. */
module QueryExpression {
  import opened Prelude
  import opened SqlValues

  datatype Operator = Eq | Ne | Gt | Gte | Lt | Lte | In | IsNull | IsNotNull

  datatype Operand = Single(value: Option<Value>) | Many(values: seq<Value>)

  datatype Comparison = Comparison(operator: Operator, operand: Operand)

  datatype Expr =
    | Empty
    | Predicate(column: string, comparison: Comparison)
    | And(left: Expr, right: Expr)
    | Or(left: Expr, right: Expr)

  datatype Token =
    | Name(column: string) | Num(n: nat) | Symbol(operator: Operator) | Param(index: nat)
    | IsKw | NotKw | NullKw | InKw | AndKw | OrKw | LParen | RParen | Comma

  type Clause = seq<Token>

  /** `InvalidQuery`, naming the operator that was given an unsupported operand. */
  datatype QueryError = InvalidQuery(operator: Operator)

  /* ---------- Building comparisons ---------- */

  /** `Comparison::Eq(value)` and its siblings; `None` is SQL `NULL`. */
  function WithValue(operator: Operator, value: Option<Value>): Comparison {
    Comparison(operator, Single(value))
  }

  function NonNull(values: seq<Option<Value>>): seq<Value> {
    if values == [] then []
    else (if values[0].Some? then [values[0].value] else []) + NonNull(values[1..])
  }

  /** `Comparison::In(values)`: absent operands are filtered out. */
  function OneOf(values: seq<Option<Value>>): Comparison {
    Comparison(In, Many(NonNull(values)))
  }

  const COLUMN_IS_NULL := Comparison(IsNull, Single(None))
  const COLUMN_IS_NOT_NULL := Comparison(IsNotNull, Single(None))

  /* ---------- Compilation, as functions ---------- */

  predicate IsRelational(op: Operator) {
    op.Eq? || op.Ne? || op.Gt? || op.Gte? || op.Lt? || op.Lte?
  }

  function ParamList(first: nat, count: nat): Clause
    decreases count
  {
    if count == 0 then []
    else if count == 1 then [Param(first)]
    else [Param(first), Comma] + ParamList(first + 1, count - 1)
  }

  function IsNullClause(column: string): Clause { [Name(column), IsKw, NullKw] }

  function IsNotNullClause(column: string): Clause { [Name(column), IsKw, NotKw, NullKw] }

  /** `PreparedComparison::into_clause`. */
  function CompileLeaf(column: string, c: Comparison, params: seq<Value>): Result<(Clause, seq<Value>), QueryError> {
    match c.operand
    case Single(None) =>
      if c.operator.Eq? || c.operator.IsNull? then Ok((IsNullClause(column), params))
      else if c.operator.Ne? || c.operator.IsNotNull? then Ok((IsNotNullClause(column), params))
      else Err(InvalidQuery(c.operator))
    case Single(Some(v)) =>
      if IsRelational(c.operator) then Ok(([Name(column), Symbol(c.operator), Param(|params| + 1)], params + [v]))
      else if c.operator.IsNull? then Ok((IsNullClause(column), params))
      else if c.operator.IsNotNull? then Ok((IsNotNullClause(column), params))
      else Err(InvalidQuery(c.operator))
    case Many(vs) =>
      if !c.operator.In? then Err(InvalidQuery(c.operator))
      else if vs == [] then Ok(([Num(0), Symbol(Eq), Num(1)], params))
      else Ok(([Name(column), InKw, LParen] + ParamList(|params| + 1, |vs|) + [RParen], params + vs))
  }

  /** `combine_clauses`. */
  function Combine(left: Option<Clause>, right: Option<Clause>, operator: Token): Option<Clause> {
    if left.None? then right
    else if right.None? then left
    else Some([LParen] + left.value + [RParen, operator, LParen] + right.value + [RParen])
  }

  /** `QueryExpression::into_clause`. */
  function Compile(e: Expr, params: seq<Value>): Result<(Option<Clause>, seq<Value>), QueryError>
    decreases e
  {
    match e
    case Empty => Ok((None, params))
    case Predicate(column, comparison) =>
      (match CompileLeaf(column, comparison, params)
       case Err(x) => Err(x)
       case Ok(r) => Ok((Some(r.0), r.1)))
    case And(left, right) =>
      (match Compile(left, params)
       case Err(x) => Err(x)
       case Ok(l) =>
         match Compile(right, l.1)
         case Err(x) => Err(x)
         case Ok(r) => Ok((Combine(l.0, r.0, AndKw), r.1)))
    case Or(left, right) =>
      (match Compile(left, params)
       case Err(x) => Err(x)
       case Ok(l) =>
         match Compile(right, l.1)
         case Err(x) => Err(x)
         case Ok(r) => Ok((Combine(l.0, r.0, OrKw), r.1)))
  }

  /* ---------- Compilation, in place ---------- */

  /** The `&mut Vec<Value>` that collects bound values. */
  class ParamBuffer {
    var values: seq<Value>

    constructor ()
      ensures values == []
    {
      values := [];
    }

    method PushPlaceholder(value: Value) returns (token: Token)
      modifies this
      ensures values == old(values) + [value]
      ensures token == Param(|values|)
    {
      var index := |values| + 1;
      values := values + [value];
      token := Param(index);
    }

    method PushList(vs: seq<Value>) returns (list: Clause)
      modifies this
      ensures values == old(values) + vs
      ensures list == ParamList(|old(values)| + 1, |vs|)
    {
      list := [];
      for i := 0 to |vs|
        invariant values == old(values) + vs[..i]
        invariant i < |vs| ==> list + ParamList(|old(values)| + 1 + i, |vs| - i) == ParamList(|old(values)| + 1, |vs|)
        invariant i == |vs| ==> list == ParamList(|old(values)| + 1, |vs|)
      {
        var token := PushPlaceholder(vs[i]);
        list := list + (if i + 1 < |vs| then [token, Comma] else [token]);
      }
    }

    method LeafIntoClause(column: string, c: Comparison) returns (r: Result<Clause, QueryError>)
      modifies this
      ensures old(values) <= values
      ensures r.Ok? ==> CompileLeaf(column, c, old(values)) == Ok((r.value, values))
      ensures r.Err? ==> CompileLeaf(column, c, old(values)) == Err(r.error)
    {
      match c.operand {
        case Single(None) =>
          if c.operator.Eq? || c.operator.IsNull? {
            return Ok(IsNullClause(column));
          } else if c.operator.Ne? || c.operator.IsNotNull? {
            return Ok(IsNotNullClause(column));
          }
          return Err(InvalidQuery(c.operator));
        case Single(Some(v)) =>
          if IsRelational(c.operator) {
            var token := PushPlaceholder(v);
            return Ok([Name(column), Symbol(c.operator), token]);
          } else if c.operator.IsNull? {
            return Ok(IsNullClause(column));
          } else if c.operator.IsNotNull? {
            return Ok(IsNotNullClause(column));
          }
          return Err(InvalidQuery(c.operator));
        case Many(vs) =>
          if !c.operator.In? {
            return Err(InvalidQuery(c.operator));
          } else if vs == [] {
            return Ok([Num(0), Symbol(Eq), Num(1)]);
          }
          var list := PushList(vs);
          return Ok([Name(column), InKw, LParen] + list + [RParen]);
      }
    }

    /** `into_clause`, pushing operands as it descends; on an error the buffer may have grown. */
    method IntoClause(e: Expr) returns (r: Result<Option<Clause>, QueryError>)
      modifies this
      ensures old(values) <= values
      ensures r.Ok? ==> Compile(e, old(values)) == Ok((r.value, values))
      ensures r.Err? ==> Compile(e, old(values)) == Err(r.error)
      decreases e
    {
      match e {
        case Empty =>
          return Ok(None);
        case Predicate(column, comparison) =>
          var leaf := LeafIntoClause(column, comparison);
          return match leaf case Ok(clause) => Ok(Some(clause)) case Err(x) => Err(x);
        case And(left, right) =>
          var l := IntoClause(left);
          if l.Err? {
            return l;
          }
          var r' := IntoClause(right);
          if r'.Err? {
            return r';
          }
          return Ok(Combine(l.value, r'.value, AndKw));
        case Or(left, right) =>
          var l := IntoClause(left);
          if l.Err? {
            return l;
          }
          var r' := IntoClause(right);
          if r'.Err? {
            return r';
          }
          return Ok(Combine(l.value, r'.value, OrKw));
      }
    }
  }
}
