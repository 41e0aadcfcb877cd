/** Query values and plans (src/model/query.rs, src/model/query/eager.rs), and the paging part of
    a SELECT (src/sql/select.rs) over a fixed sequence of matching rows. */
module Queries {
  import opened Prelude
  import opened SqlValues
  import opened QueryExpression

  const USIZE_MAX := 0xffff_ffff_ffff_ffff

  type Usize = n: nat | n <= USIZE_MAX

  datatype OrderTerm = OrderTerm(column: string, ascending: bool)

  datatype Query = Query(expression: Expr, ordering: seq<OrderTerm>, limit: Option<Usize>, offset: Usize)
  {
    function AndQuery(other: Query): Query {
      this.(expression := And(expression, other.expression))
    }

    function OrQuery(other: Query): Query {
      this.(expression := Or(expression, other.expression))
    }

    function OrderQuery(terms: seq<OrderTerm>): Query {
      this.(ordering := ordering + terms)
    }

    function LimitQuery(n: Usize): Query {
      this.(limit := Some(n))
    }

    function OffsetQuery(n: Usize): Query {
      this.(offset := n)
    }
  }

  const ROOT := Query(Empty, [], None, 0)

  function Where(column: string, comparison: Comparison): Query {
    ROOT.(expression := Predicate(column, comparison))
  }

  datatype Plan = Plan(clause: Option<Clause>, ordering: seq<OrderTerm>, params: seq<Value>, limit: Option<Usize>,
                       offset: Usize)

  /** `build_query_plan`, as a function. */
  function PlanOf(q: Query): Result<Plan, QueryError> {
    match Compile(q.expression, [])
    case Err(x) => Err(x)
    case Ok(r) => Ok(Plan(r.0, q.ordering, r.1, q.limit, q.offset))
  }

  method BuildQueryPlan(q: Query) returns (r: Result<Plan, QueryError>)
    ensures r == PlanOf(q)
  {
    var params := new ParamBuffer();
    var clause := params.IntoClause(q.expression);
    match clause {
      case Err(x) => return Err(x);
      case Ok(c) => return Ok(Plan(c, q.ordering, params.values, q.limit, q.offset));
    }
  }

  /* ---------- LIMIT and OFFSET ---------- */

  /** The tail of a SELECT: `LIMIT n` (negative for none) and `OFFSET n`. */
  datatype Tail = Tail(limit: Option<int>, offset: Option<nat>)

  /** `QueryPlan::select` with `append_limit_offset`: SQLite accepts OFFSET only after LIMIT. */
  function TailOf(limit: Option<Usize>, offset: Usize): Tail {
    if offset == 0 then Tail(if limit.Some? then Some(limit.value) else None, None)
    else Tail(Some(if limit.Some? then limit.value else -1), Some(offset))
  }

  function Drop<T>(rows: seq<T>, n: nat): seq<T> {
    if n <= |rows| then rows[n..] else []
  }

  function Take<T>(rows: seq<T>, n: nat): seq<T> {
    if n <= |rows| then rows[..n] else rows
  }

  /** The largest integer literal of SQLite; a larger one is a real number, which LIMIT and OFFSET
      refuse as a datatype mismatch. */
  const INTEGER_MAX := 0x7fff_ffff_ffff_ffff

  /** OFFSET alone is a syntax error; `LIMIT 0` ends the statement before its OFFSET is read. */
  predicate Accepted(tail: Tail) {
    && (tail.offset.Some? ==> tail.limit.Some?)
    && (tail.limit.Some? ==> tail.limit.value <= INTEGER_MAX)
    && (tail.offset.Some? && tail.limit != Some(0) ==> tail.offset.value <= INTEGER_MAX)
  }

  /** What SQLite returns for a tail over the matching rows; `None` is an error. */
  function Run<T>(rows: seq<T>, tail: Tail): Option<seq<T>> {
    if !Accepted(tail) then None
    else
      var from := Drop(rows, if tail.offset.Some? then tail.offset.value else 0);
      Some(if tail.limit.Some? && tail.limit.value >= 0 then Take(from, tail.limit.value) else from)
  }

  /** The rows a limit and an offset stand for: skip `offset`, then keep `limit`. */
  function Stretch<T>(rows: seq<T>, limit: Option<Usize>, offset: Usize): seq<T> {
    var from := Drop(rows, offset);
    if limit.Some? then Take(from, limit.value) else from
  }

  function Page<T>(rows: seq<T>, p: Plan): seq<T> {
    Stretch(rows, p.limit, p.offset)
  }

  function Least(a: nat, b: nat): nat { if a < b then a else b }

  function AllTail(p: Plan): Tail { TailOf(p.limit, p.offset) }

  /** `first_query` and `exists_query` cap the limit at one row. */
  function FirstTail(p: Plan): Tail {
    TailOf(Some(if p.limit.Some? then Least(p.limit.value, 1) else 1), p.offset)
  }

  /** `count_query`: a plain COUNT(*) without paging, else a count over the paged subquery. */
  function CountRows<T>(rows: seq<T>, p: Plan): Option<nat> {
    var tail := TailOf(p.limit, p.offset);
    if tail == Tail(None, None) then Some(|rows|)
    else
      match Run(rows, tail)
      case None => None
      case Some(page) => Some(|page|)
  }

  function RemainingLimit(p: Plan, consumed: Usize): Option<Usize> {
    if p.limit.None? then None
    else Some(if consumed <= p.limit.value then p.limit.value - consumed else 0)
  }

  function SaturatingAdd(a: Usize, b: Usize): Usize {
    if a + b <= USIZE_MAX then a + b else USIZE_MAX
  }

  /** `paged_query`. */
  function PagedTail(p: Plan, pageSize: Usize, consumed: Usize): Tail {
    var remaining := RemainingLimit(p, consumed);
    TailOf(Some(if remaining.Some? then Least(remaining.value, pageSize) else pageSize),
         SaturatingAdd(p.offset, consumed))
  }

  /* ---------- Which requests SQLite answers ---------- */

  /** A caller's limit and offset fit SQLite's integers, or nothing is asked for. */
  predicate Fits(limit: Option<Usize>, offset: Usize) {
    limit == Some(0) || ((limit.Some? ==> limit.value <= INTEGER_MAX) && offset <= INTEGER_MAX)
  }

  /** A rendered tail is answered if and only if the numbers fit, and then with the asked rows. */
  lemma TailMeaning<T>(rows: seq<T>, limit: Option<Usize>, offset: Usize)
    ensures Run(rows, TailOf(limit, offset)) == if Fits(limit, offset) then Some(Stretch(rows, limit, offset)) else None
  {
  }

  /** The eager query and `count` are answered if and only if limit and offset fit; `first` and
      `exists` need only the offset to.  The answers are the page, its length and its first row. */
  lemma EagerAnswers<T>(rows: seq<T>, p: Plan)
    ensures Run(rows, AllTail(p)) == if Fits(p.limit, p.offset) then Some(Page(rows, p)) else None
    ensures CountRows(rows, p) == if Fits(p.limit, p.offset) then Some(|Page(rows, p)|) else None
    ensures Run(rows, FirstTail(p))
         == if p.limit == Some(0) || p.offset <= INTEGER_MAX then Some(Take(Page(rows, p), 1)) else None
  {
    var from := Drop(rows, p.offset);
    if p.limit.Some? {
      assert Take(from, Least(p.limit.value, 1)) == Take(Take(from, p.limit.value), 1);
    }
  }

  /** How many rows a page request asks for: a page, or what is left of the limit. */
  function Asked(p: Plan, size: nat, consumed: nat): nat {
    if p.limit.None? then size
    else if consumed <= p.limit.value then Least(p.limit.value - consumed, size)
    else 0
  }

  /** The numbers of a page request fit SQLite's integers, or nothing is asked for. */
  predicate RequestFits(p: Plan, size: nat, consumed: nat) {
    var asked := Asked(p, size, consumed);
    asked == 0 || (asked <= INTEGER_MAX && p.offset + consumed <= INTEGER_MAX)
  }

  /** A page request returns the next stretch of the plan's rows if and only if its numbers fit. */
  lemma PagedAnswers<T>(rows: seq<T>, p: Plan, pageSize: Usize, consumed: Usize)
    requires |rows| <= USIZE_MAX && consumed <= |Page(rows, p)|
    ensures Run(rows, PagedTail(p, pageSize, consumed))
         == if RequestFits(p, pageSize, consumed) then Some(Take(Page(rows, p)[consumed..], pageSize)) else None
  {
    var page, from := Page(rows, p), Drop(rows, p.offset);
    assert consumed > 0 ==> p.offset + consumed <= |rows|;
    assert Drop(rows, SaturatingAdd(p.offset, consumed)) == Drop(from, consumed);
    if p.limit.Some? {
      var left := p.limit.value - consumed;
      assert Take(Drop(from, consumed), Least(left, pageSize)) == Take(page[consumed..], pageSize);
    }
  }

  /** While there are no more rows than SQLite can number, the first request decides for all. */
  lemma FirstRequestDecides<T>(rows: seq<T>, p: Plan, size: Usize, consumed: Usize)
    requires |rows| <= INTEGER_MAX && consumed <= |Page(rows, p)|
    requires RequestFits(p, size, 0)
    ensures RequestFits(p, size, consumed)
  {
    assert consumed > 0 ==> p.offset + consumed <= |rows|;
  }

  /** Legal calls whose queries fail, whatever the rows: the largest limit, which `first` still
      serves; an offset of 2^63; the largest chunk size. */
  lemma HugeNumbersAreRefused<T>(rows: seq<T>, p: Plan)
    ensures var q := p.(limit := Some(USIZE_MAX), offset := 0);
            Run(rows, AllTail(q)) == None && CountRows(rows, q) == None
                 && Run(rows, FirstTail(q)) == Some(Take(rows, 1))
    ensures var q := p.(limit := None, offset := INTEGER_MAX + 1);
            Run(rows, AllTail(q)) == None && Run(rows, FirstTail(q)) == None && CountRows(rows, q) == None
    ensures var q := p.(limit := None, offset := 0);
            Run(rows, AllTail(q)) == Some(rows) && Run(rows, PagedTail(q, USIZE_MAX, 0)) == None
  {
  }
}
