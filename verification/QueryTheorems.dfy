/** Compilation preserves meaning, keeps placeholders aligned with the bound values, and prints
    clauses that read back unambiguously. */
module QueryTheorems {
  import opened Prelude
  import opened SqlValues
  import opened QueryExpression
  import opened QueryMeaning

  /* ---------- The tree behind a clause ---------- */

  function Indexes(first: nat, count: nat): seq<nat>
    decreases count
  {
    if count == 0 then [] else [first] + Indexes(first + 1, count - 1)
  }

  function LeafTree(column: string, c: Comparison, base: nat): Ast
    requires Supported(c)
  {
    match c.operand
    case Many(vs) => if vs == [] then Numbers(0, 1) else InList(column, Indexes(base + 1, |vs|))
    case Single(v) =>
      if c.operator.IsNull? || (c.operator.Eq? && v.None?) then NullTest(column, true)
      else if c.operator.IsNotNull? || (c.operator.Ne? && v.None?) then NullTest(column, false)
      else Cmp(column, c.operator, base + 1)
  }

  function LeafOperands(c: Comparison): seq<Value> {
    match c.operand
    case Many(vs) => vs
    case Single(None) => []
    case Single(Some(v)) => if IsRelational(c.operator) then [v] else []
  }

  /** The operands of the leaves, left to right. */
  function Operands(e: Expr): seq<Value> {
    match e
    case Empty => []
    case Predicate(_, c) => LeafOperands(c)
    case And(l, r) => Operands(l) + Operands(r)
    case Or(l, r) => Operands(l) + Operands(r)
  }

  /** The filter with its empty parts collapsed and its operands numbered from `base + 1`. */
  function Tree(e: Expr, base: nat): Option<Ast>
    requires AllSupported(e)
  {
    match e
    case Empty => None
    case Predicate(column, c) => Some(LeafTree(column, c, base))
    case And(l, r) => Join(AndKw, Tree(l, base), Tree(r, base + |Operands(l)|))
    case Or(l, r) => Join(OrKw, Tree(l, base), Tree(r, base + |Operands(l)|))
  }

  /** An absent side leaves the other one alone. */
  function Join(t: Token, a: Option<Ast>, b: Option<Ast>): Option<Ast> {
    if a.None? then b else if b.None? then a else Some(Connect(t, a.value, b.value))
  }

  function PrintIndexes(indexes: seq<nat>): Clause {
    if indexes == [] then []
    else if |indexes| == 1 then [Param(indexes[0])]
    else [Param(indexes[0]), Comma] + PrintIndexes(indexes[1..])
  }

  function Group(a: Clause): Clause {
    [LParen] + a + [RParen]
  }

  function Print(a: Ast): Clause {
    match a
    case Cmp(column, op, index) => [Name(column), Symbol(op), Param(index)]
    case NullTest(column, isNull) => if isNull then IsNullClause(column) else IsNotNullClause(column)
    case InList(column, indexes) => [Name(column), InKw, LParen] + PrintIndexes(indexes) + [RParen]
    case Numbers(x, y) => [Num(x), Symbol(Eq), Num(y)]
    case AndAst(l, r) => Group(Print(l)) + [AndKw] + Group(Print(r))
    case OrAst(l, r) => Group(Print(l)) + [OrKw] + Group(Print(r))
  }

  lemma {:induction false} PrintIndexRange(first: nat, count: nat)
    ensures PrintIndexes(Indexes(first, count)) == ParamList(first, count)
    ensures |Indexes(first, count)| == count
    decreases count
  {
    if count > 0 {
      PrintIndexRange(first + 1, count - 1);
      assert Indexes(first, count)[1..] == Indexes(first + 1, count - 1);
    }
  }

  function Printed(t: Option<Ast>): Option<Clause> {
    if t.Some? then Some(Print(t.value)) else None
  }

  lemma CombinePrinted(t: Token, a: Option<Ast>, b: Option<Ast>)
    requires t.AndKw? || t.OrKw?
    ensures Combine(Printed(a), Printed(b), t) == Printed(Join(t, a, b))
  {
    if a.Some? && b.Some? {
      var x, y := Print(a.value), Print(b.value);
      assert [LParen] + x + [RParen, t, LParen] + y + [RParen] == Group(x) + [t] + Group(y);
    }
  }

  lemma CompileLeafIsTree(column: string, c: Comparison, params: seq<Value>)
    ensures CompileLeaf(column, c, params)
         == if Supported(c) then Ok((Print(LeafTree(column, c, |params|)), params + LeafOperands(c)))
            else Err(InvalidQuery(c.operator))
  {
    assert params + [] == params;
    if c.operand.Many? { PrintIndexRange(|params| + 1, |c.operand.values|); }
  }

  /** The statement of `CompileIsTree` for one filter. */
  predicate CompilesToTree(e: Expr, params: seq<Value>) {
    if AllSupported(e) then Compile(e, params) == Ok((Printed(Tree(e, |params|)), params + Operands(e)))
    else Compile(e, params).Err?
  }

  lemma Reassociate<T>(a: seq<T>, b: seq<T>, c: seq<T>)
    ensures a + b + c == a + (b + c)
  {
  }

  /** Two filters under the connective that prints as `t`. */
  function Both(t: Token, l: Expr, r: Expr): Expr {
    if t.AndKw? then And(l, r) else Or(l, r)
  }

  lemma CompileBoth(t: Token, l: Expr, r: Expr, params: seq<Value>, a: Option<Clause>, mid: seq<Value>,
                    b: Option<Clause>, end: seq<Value>)
    requires t.AndKw? || t.OrKw?
    requires Compile(l, params) == Ok((a, mid)) && Compile(r, mid) == Ok((b, end))
    ensures Compile(Both(t, l, r), params) == Ok((Combine(a, b, t), end))
  {
    hide Combine, CompileLeaf;
  }

  lemma CompileBothFails(t: Token, l: Expr, r: Expr, params: seq<Value>)
    requires t.AndKw? || t.OrKw?
    requires Compile(l, params).Err? || Compile(r, Compile(l, params).value.1).Err?
    ensures Compile(Both(t, l, r), params).Err?
  {
    hide Combine, CompileLeaf;
  }

  lemma CompileBothIsTree(t: Token, l: Expr, r: Expr, params: seq<Value>)
    requires t.AndKw? || t.OrKw?
    requires CompilesToTree(l, params) && CompilesToTree(r, params + Operands(l))
    ensures CompilesToTree(Both(t, l, r), params)
  {
    hide Print, Printed, Combine, Compile, LeafTree, LeafOperands, Join, Supported;
    if !AllSupported(l) || !AllSupported(r) {
      CompileBothFails(t, l, r, params);
    } else {
      var mid := params + Operands(l);
      var a, b := Tree(l, |params|), Tree(r, |mid|);
      CompileBoth(t, l, r, params, Printed(a), mid, Printed(b), mid + Operands(r));
      Reassociate(params, Operands(l), Operands(r));
      CombinePrinted(t, a, b);
      assert Tree(Both(t, l, r), |params|) == Join(t, a, b) by { assert |mid| == |params| + |Operands(l)|; }
    }
  }

  /** A filter compiles exactly when all its leaves are supported; the clause is then its
      numbered tree printed, and the buffer has grown by its operands. */
  lemma {:induction false} CompileIsTree(e: Expr, params: seq<Value>)
    ensures CompilesToTree(e, params)
    decreases e
  {
    match e {
      case Empty => assert params + [] == params;
      case Predicate(column, c) => CompileLeafIsTree(column, c, params);
      case And(l, r) =>
        CompileIsTree(l, params);
        CompileIsTree(r, params + Operands(l));
        CompileBothIsTree(AndKw, l, r, params);
      case Or(l, r) =>
        CompileIsTree(l, params);
        CompileIsTree(r, params + Operands(l));
        CompileBothIsTree(OrKw, l, r, params);
    }
  }

  /* ---------- Reading a clause back ---------- */

  /** What may follow a complete clause inside a larger one. */
  predicate Ends(rest: Clause) {
    rest == [] || !(rest[0].AndKw? || rest[0].OrKw?)
  }

  predicate Printable(a: Ast) {
    match a
    case InList(_, indexes) => indexes != []
    case AndAst(l, r) => Printable(l) && Printable(r)
    case OrAst(l, r) => Printable(l) && Printable(r)
    case _ => true
  }

  lemma {:induction false} ParsePrintedParams(indexes: seq<nat>, rest: Clause)
    requires indexes != [] && (rest == [] || !rest[0].Comma?)
    ensures ParseParams(PrintIndexes(indexes) + rest) == Some((indexes, rest))
  {
    var ts := PrintIndexes(indexes) + rest;
    if |indexes| == 1 {
      assert ts == [Param(indexes[0])] + rest;
      assert indexes == [indexes[0]];
      assert ts[1..] == rest;
    } else {
      ParsePrintedParams(indexes[1..], rest);
      assert ts == [Param(indexes[0]), Comma] + (PrintIndexes(indexes[1..]) + rest);
      assert ts[2..] == PrintIndexes(indexes[1..]) + rest;
      assert [indexes[0]] + indexes[1..] == indexes;
    }
  }

  lemma ParsePrintedIn(column: string, indexes: seq<nat>, rest: Clause)
    requires indexes != []
    ensures var a := InList(column, indexes);
            ParseAtom(Print(a) + rest) == Some((a, rest)) && |Print(a)| > 0 && !Print(a)[0].LParen?
  {
    var head, more := [Name(column), InKw, LParen], PrintIndexes(indexes) + ([RParen] + rest);
    ParsePrintedParams(indexes, [RParen] + rest);
    assert Print(InList(column, indexes)) + rest == head + more;
    assert (head + more)[3..] == more;
    assert ([RParen] + rest)[1..] == rest;
  }

  lemma ParsePrintedAtom(a: Ast, rest: Clause)
    requires Printable(a) && !a.AndAst? && !a.OrAst?
    ensures ParseAtom(Print(a) + rest) == Some((a, rest))
    ensures |Print(a)| > 0 && !Print(a)[0].LParen?
  {
    var ts := Print(a) + rest;
    match a {
      case InList(column, indexes) =>
        ParsePrintedIn(column, indexes, rest);
      case NullTest(_, isNull) =>
        if isNull { assert ts[3..] == rest; } else { assert ts[4..] == rest; }
      case Cmp(_, _, _) => assert ts[3..] == rest;
      case Numbers(_, _) => assert ts[3..] == rest;
    }
  }

  /** A primary followed by no connective is a whole expression at every level. */
  lemma ParsePrimary(ts: Clause, a: Ast, rest: Clause, andTighter: bool)
    requires Parse(2, ts, andTighter) == Some((a, rest)) && |rest| < |ts| && Ends(rest)
    ensures Parse(1, ts, andTighter) == Some((a, rest))
    ensures Parse(0, ts, andTighter) == Some((a, rest))
  {
    assert Continue(1, a, rest, andTighter) == Some((a, rest));
    assert Continue(0, a, rest, andTighter) == Some((a, rest));
  }

  lemma ParseGroup(a: Ast, rest: Clause, andTighter: bool)
    requires Parse(0, Print(a) + ([RParen] + rest), andTighter) == Some((a, [RParen] + rest))
    ensures Parse(2, Group(Print(a)) + rest, andTighter) == Some((a, rest))
  {
    var ts := Group(Print(a)) + rest;
    assert ts == [LParen] + (Print(a) + ([RParen] + rest));
    assert ts[1..] == Print(a) + ([RParen] + rest);
    assert ([RParen] + rest)[1..] == rest;
  }

  /** Two groups joined by a connective, whichever level the connective belongs to. */
  lemma ParseConnected(l: Ast, r: Ast, t: Token, rest: Clause, andTighter: bool)
    requires (t.AndKw? || t.OrKw?) && Ends(rest)
    requires Parse(2, Group(Print(l)) + ([t] + (Group(Print(r)) + rest)), andTighter)
               == Some((l, [t] + (Group(Print(r)) + rest)))
    requires Parse(2, Group(Print(r)) + rest, andTighter) == Some((r, rest))
    ensures Parse(0, Group(Print(l)) + ([t] + (Group(Print(r)) + rest)), andTighter) == Some((Connect(t, l, r), rest))
  {
    var second := Group(Print(r)) + rest;
    var tail := [t] + second;
    var ts := Group(Print(l)) + tail;
    assert tail[1..] == second;
    ParsePrimary(second, r, rest, andTighter);
    var joined := Connect(t, l, r);
    assert Continue(1, joined, rest, andTighter) == Some((joined, rest));
    assert Continue(0, joined, rest, andTighter) == Some((joined, rest));
    if t == Connective(1, andTighter) {
      assert Continue(1, l, tail, andTighter) == Some((joined, rest));
      assert Parse(1, ts, andTighter) == Some((joined, rest));
    } else {
      assert Continue(1, l, tail, andTighter) == Some((l, tail));
      assert Parse(1, ts, andTighter) == Some((l, tail));
      assert Continue(0, l, tail, andTighter) == Some((joined, rest));
    }
  }

  /** The statement of `ParsePrinted` for one tree. */
  predicate ReadsBack(a: Ast, rest: Clause, andTighter: bool) {
    Parse(0, Print(a) + rest, andTighter) == Some((a, rest))
  }

  lemma PrintConnected(l: Ast, r: Ast, t: Token)
    requires t.AndKw? || t.OrKw?
    ensures Print(Connect(t, l, r)) == Group(Print(l)) + [t] + Group(Print(r))
  {
  }

  lemma ParseJoined(l: Ast, r: Ast, t: Token, rest: Clause, andTighter: bool)
    requires (t.AndKw? || t.OrKw?) && Ends(rest)
    requires ReadsBack(l, [RParen] + ([t] + (Group(Print(r)) + rest)), andTighter)
    requires ReadsBack(r, [RParen] + rest, andTighter)
    ensures ReadsBack(Connect(t, l, r), rest, andTighter)
  {
    hide Parse, Ends, Print, Group, Connect;
    var second := Group(Print(r)) + rest;
    ParseGroup(l, [t] + second, andTighter);
    ParseGroup(r, rest, andTighter);
    ParseConnected(l, r, t, rest, andTighter);
    PrintConnected(l, r, t);
    var first, next := Group(Print(l)), Group(Print(r));
    Reassociate(first + [t], next, rest);
    Reassociate(first, [t], next + rest);
  }

  /** A printed tree reads back as itself, under either precedence. */
  lemma {:induction false} ParsePrinted(a: Ast, rest: Clause, andTighter: bool)
    requires Printable(a) && Ends(rest)
    ensures ReadsBack(a, rest, andTighter)
    decreases a
  {
    if a.AndAst? || a.OrAst? {
      var t := if a.AndAst? then AndKw else OrKw;
      ParsePrinted(a.l, [RParen] + ([t] + (Group(Print(a.r)) + rest)), andTighter);
      ParsePrinted(a.r, [RParen] + rest, andTighter);
      ParseJoined(a.l, a.r, t, rest, andTighter);
    } else {
      ParsePrintedAtom(a, rest);
      assert (Print(a) + rest)[0] == Print(a)[0];
      ParsePrimary(Print(a) + rest, a, rest, andTighter);
    }
  }

  lemma {:induction false} TreePrintable(e: Expr, base: nat)
    requires AllSupported(e)
    ensures Tree(e, base).Some? ==> Printable(Tree(e, base).value)
    decreases e
  {
    match e {
      case Empty =>
      case Predicate(_, c) =>
        if c.operand.Many? { PrintIndexRange(base + 1, |c.operand.values|); }
      case And(l, r) =>
        TreePrintable(l, base);
        TreePrintable(r, base + |Operands(l)|);
      case Or(l, r) =>
        TreePrintable(l, base);
        TreePrintable(r, base + |Operands(l)|);
    }
  }

  /* ---------- Meaning ---------- */

  lemma {:induction false} IndexesAt(first: nat, count: nat)
    ensures |Indexes(first, count)| == count
    ensures forall i :: 0 <= i < count ==> Indexes(first, count)[i] == first + i
    decreases count
  {
    if count > 0 { IndexesAt(first + 1, count - 1); }
  }

  /** The disjunction of equalities is `IN` by cases. */
  lemma {:induction false} InValueIsInTruth(k: Collation, column: string, x: Value, params: seq<Value>,
                                            indexes: seq<nat>, vs: seq<Value>)
    requires |indexes| == |vs| && forall i :: 0 <= i < |vs| ==> Bound(params, indexes[i]) == vs[i]
    ensures InValue(k, column, x, params, indexes) == InTruth(k, column, x, vs)
    decreases |vs|
  {
    if vs != [] {
      InValueIsInTruth(k, column, x, params, indexes[1..], vs[1..]);
      assert vs == [vs[0]] + vs[1..];
      if Among(k, column, x, vs[1..]) {
        var i :| 0 <= i < |vs[1..]| && Compare(k, column, Eq, x, vs[1..][i]).True?;
        assert Compare(k, column, Eq, x, vs[i + 1]).True?;
      }
      if Among(k, column, x, vs) && !Compare(k, column, Eq, x, vs[0]).True? {
        var i :| 0 <= i < |vs| && Compare(k, column, Eq, x, vs[i]).True?;
        assert vs[1..][i - 1] == vs[i];
      }
    }
  }

  /** The bound values hold `e`'s operands from position `base` on. */
  predicate Bindings(final: seq<Value>, base: nat, operands: seq<Value>) {
    base + |operands| <= |final| && final[base..base + |operands|] == operands
  }

  lemma LeafMeaning(k: Collation, column: string, c: Comparison, base: nat, final: seq<Value>, row: Row)
    requires Supported(c) && Bindings(final, base, LeafOperands(c))
    ensures Evaluate(k, LeafTree(column, c, base), final, row) == LeafTruth(k, column, c, row(column))
  {
    var operands := LeafOperands(c);
    forall i | 0 <= i < |operands| ensures Bound(final, base + 1 + i) == operands[i] {
      assert final[base..base + |operands|][i] == final[base + i];
    }
    if c.operand.Many? {
      IndexesAt(base + 1, |operands|);
      InValueIsInTruth(k, column, row(column), final, Indexes(base + 1, |operands|), operands);
    } else if operands != [] {
      assert Bound(final, base + 1 + 0) == operands[0];
    }
  }

  lemma BindingsSplit(final: seq<Value>, base: nat, a: seq<Value>, b: seq<Value>)
    requires Bindings(final, base, a + b)
    ensures Bindings(final, base, a) && Bindings(final, base + |a|, b)
  {
    var whole := final[base..base + |a + b|];
    assert final[base..base + |a|] == whole[..|a|];
    assert final[base + |a|..base + |a| + |b|] == whole[|a|..];
  }

  /** The numbered tree means what the filter means, once its operands are bound. */
  lemma {:induction false} TreeMeaning(k: Collation, e: Expr, base: nat, final: seq<Value>, row: Row)
    requires AllSupported(e) && Bindings(final, base, Operands(e))
    ensures Tree(e, base).None? <==> Meaning(k, e, row).None?
    ensures Tree(e, base).Some? ==> Evaluate(k, Tree(e, base).value, final, row) == Meaning(k, e, row).value
    decreases e
  {
    hide And3, Or3, Compare, LeafTree, LeafTruth, LeafOperands, InValue, InTruth, Bindings;
    match e {
      case Empty =>
      case Predicate(column, c) => LeafMeaning(k, column, c, base, final, row);
      case And(l, r) =>
        BindingsSplit(final, base, Operands(l), Operands(r));
        TreeMeaning(k, l, base, final, row);
        TreeMeaning(k, r, base + |Operands(l)|, final, row);
      case Or(l, r) =>
        BindingsSplit(final, base, Operands(l), Operands(r));
        TreeMeaning(k, l, base, final, row);
        TreeMeaning(k, r, base + |Operands(l)|, final, row);
    }
  }

  /* ---------- Main results ---------- */

  /** What a clause means to SQLite: read it, then evaluate it; no clause admits every row. */
  function ClauseTruth(k: Collation, clause: Option<Clause>, params: seq<Value>, row: Row,
                       andTighter: bool): Option<Truth>
  {
    if clause.None? then None
    else
      match Parse(0, clause.value, andTighter)
      case None => None
      case Some(r) => if r.1 == [] then Some(Evaluate(k, r.0, params, row)) else None
  }

  /** Compiling keeps the meaning on every row, whatever is bound after the filter's own
      operands and whichever of AND and OR the reader takes to bind tighter. */
  lemma CompilePreservesMeaning(k: Collation, e: Expr, params: seq<Value>, more: seq<Value>, row: Row, andTighter: bool)
    requires Compile(e, params).Ok?
    ensures AllSupported(e)
    ensures var (clause, bound) := Compile(e, params).value;
            && (clause.None? <==> Meaning(k, e, row).None?)
            && ClauseTruth(k, clause, bound + more, row, andTighter) == Meaning(k, e, row)
  {
    CompileIsTree(e, params);
    var tree, final := Tree(e, |params|), params + Operands(e) + more;
    assert final[|params|..|params| + |Operands(e)|] == Operands(e);
    TreeMeaning(k, e, |params|, final, row);
    TreePrintable(e, |params|);
    if tree.Some? {
      ParsePrinted(tree.value, [], andTighter);
      assert Print(tree.value) + [] == Print(tree.value);
    }
  }

  /** Compiling fails exactly on an unsupported leaf. */
  lemma {:induction false} CompileFailsExactly(e: Expr, params: seq<Value>)
    ensures Compile(e, params).Err? <==> !AllSupported(e)
  {
    CompileIsTree(e, params);
  }

  /** A comparison some public constructor builds. */
  predicate Constructible(c: Comparison) {
    || (IsRelational(c.operator) && c.operand.Single?)
    || (c.operator.In? && c.operand.Many?)
    || c == COLUMN_IS_NULL || c == COLUMN_IS_NOT_NULL
  }

  predicate OrdersNull(c: Comparison) {
    c.operand == Single(None) && (c.operator.Gt? || c.operator.Gte? || c.operator.Lt? || c.operator.Lte?)
  }

  predicate AllConstructible(e: Expr) {
    match e
    case Empty => true
    case Predicate(_, c) => Constructible(c)
    case And(l, r) => AllConstructible(l) && AllConstructible(r)
    case Or(l, r) => AllConstructible(l) && AllConstructible(r)
  }

  predicate SomeLeafOrdersNull(e: Expr) {
    match e
    case Empty => false
    case Predicate(_, c) => OrdersNull(c)
    case And(l, r) => SomeLeafOrdersNull(l) || SomeLeafOrdersNull(r)
    case Or(l, r) => SomeLeafOrdersNull(l) || SomeLeafOrdersNull(r)
  }

  lemma {:induction false} UnsupportedIsOrderingNull(e: Expr)
    requires AllConstructible(e)
    ensures !AllSupported(e) <==> SomeLeafOrdersNull(e)
    decreases e
  {
    match e {
      case Empty =>
      case Predicate(_, _) =>
      case And(l, r) =>
        UnsupportedIsOrderingNull(l);
        UnsupportedIsOrderingNull(r);
      case Or(l, r) =>
        UnsupportedIsOrderingNull(l);
        UnsupportedIsOrderingNull(r);
    }
  }

  /** A filter built from public constructors is refused exactly when some leaf orders a column
      against NULL. */
  lemma {:induction false} OnlyOrderingNullIsRefused(e: Expr, params: seq<Value>)
    requires AllConstructible(e)
    ensures Compile(e, params).Err? <==> SomeLeafOrdersNull(e)
  {
    CompileIsTree(e, params);
    UnsupportedIsOrderingNull(e);
  }

  /** `In` over nothing but absent operands matches no row. */
  lemma {:induction false} InOverNothingIsFalse(k: Collation, column: string, operands: seq<Option<Value>>, x: Value)
    requires forall o :: o in operands ==> o.None?
    ensures Supported(OneOf(operands)) && LeafTruth(k, column, OneOf(operands), x) == False
  {
    NonNullEmpty(operands);
  }

  lemma {:induction false} NonNullEmpty(operands: seq<Option<Value>>)
    requires forall o :: o in operands ==> o.None?
    ensures NonNull(operands) == []
  {
    if operands != [] {
      assert operands[0] in operands;
      NonNullEmpty(operands[1..]);
    }
  }

  /** The placeholders of a clause, left to right. */
  function Placeholders(ts: Clause): seq<nat> {
    if ts == [] then []
    else if ts[0].Param? then [ts[0].index] + Placeholders(ts[1..])
    else Placeholders(ts[1..])
  }

  lemma {:induction false} PlaceholdersAppend(a: Clause, b: Clause)
    ensures Placeholders(a + b) == Placeholders(a) + Placeholders(b)
  {
    if a == [] {
      assert a + b == b;
    } else {
      assert (a + b)[1..] == a[1..] + b;
      PlaceholdersAppend(a[1..], b);
    }
  }

  lemma {:induction false} PlaceholdersOfList(indexes: seq<nat>)
    ensures Placeholders(PrintIndexes(indexes)) == indexes
  {
    if |indexes| == 1 {
      assert indexes == [indexes[0]];
      assert Placeholders([Param(indexes[0])][1..]) == [];
    } else if |indexes| > 1 {
      PlaceholdersOfList(indexes[1..]);
      PlaceholdersAppend([Param(indexes[0]), Comma], PrintIndexes(indexes[1..]));
      assert [Param(indexes[0]), Comma][1..] == [Comma];
      assert indexes == [indexes[0]] + indexes[1..];
    }
  }

  lemma PlaceholdersOfGroup(a: Clause)
    ensures Placeholders(Group(a)) == Placeholders(a)
  {
    PlaceholdersAppend([LParen] + a, [RParen]);
    PlaceholdersAppend([LParen], a);
    assert Placeholders([LParen]) == [] && Placeholders([RParen]) == [];
  }

  lemma {:induction false} IndexesAppend(first: nat, m: nat, n: nat)
    ensures Indexes(first, m + n) == Indexes(first, m) + Indexes(first + m, n)
    decreases m
  {
    if m > 0 { IndexesAppend(first + 1, m - 1, n); }
  }

  lemma PlaceholdersOfIn(column: string, indexes: seq<nat>)
    ensures Placeholders(Print(InList(column, indexes))) == indexes
  {
    var head := [Name(column), InKw, LParen];
    PlaceholdersAppend(head + PrintIndexes(indexes), [RParen]);
    PlaceholdersAppend(head, PrintIndexes(indexes));
    PlaceholdersOfList(indexes);
    assert head[1..] == [InKw, LParen] && head[1..][1..] == [LParen];
    assert Placeholders([LParen]) == [] && Placeholders([RParen]) == [];
  }

  lemma PlaceholdersOfCmp(column: string, op: Operator, index: nat)
    ensures Placeholders(Print(Cmp(column, op, index))) == [index]
  {
    var ts := [Name(column), Symbol(op), Param(index)];
    assert ts[1..] == [Symbol(op), Param(index)] && ts[1..][1..] == [Param(index)];
    assert Placeholders([Param(index)]) == [index];
  }

  lemma {:induction false} NoPlaceholders(ts: Clause)
    requires forall t :: t in ts ==> !t.Param?
    ensures Placeholders(ts) == []
  {
    if ts != [] {
      assert ts[0] in ts;
      NoPlaceholders(ts[1..]);
    }
  }

  lemma PlaceholdersOfLeaf(column: string, c: Comparison, base: nat)
    requires Supported(c)
    ensures Placeholders(Print(LeafTree(column, c, base))) == Indexes(base + 1, |LeafOperands(c)|)
  {
    var a := LeafTree(column, c, base);
    if a.InList? {
      PlaceholdersOfIn(column, a.indexes);
    } else if a.Cmp? {
      PlaceholdersOfCmp(column, a.operator, a.index);
      assert Indexes(base + 1, 1) == [base + 1] + Indexes(base + 2, 0);
    } else {
      NoPlaceholders(Print(a));
    }
  }

  lemma PlaceholdersJoined(t: Token, a: Option<Ast>, b: Option<Ast>)
    requires t.AndKw? || t.OrKw?
    requires a.Some? && b.Some?
    ensures Placeholders(Print(Connect(t, a.value, b.value)))
              == Placeholders(Print(a.value)) + Placeholders(Print(b.value))
  {
    var x, y := Group(Print(a.value)), Group(Print(b.value));
    PlaceholdersAppend(x + [t], y);
    PlaceholdersAppend(x, [t]);
    PlaceholdersOfGroup(Print(a.value));
    PlaceholdersOfGroup(Print(b.value));
    assert Placeholders([t]) == [];
  }

  function TreePlaceholders(t: Option<Ast>): seq<nat> {
    if t.Some? then Placeholders(Print(t.value)) else []
  }

  /** The placeholders of `tree` are the `count` positions after `base`, in order. */
  predicate Numbered(tree: Option<Ast>, base: nat, count: nat) {
    TreePlaceholders(tree) == Indexes(base + 1, count)
  }

  lemma JoinedInOrder(t: Token, a: Option<Ast>, b: Option<Ast>, base: nat, m: nat, n: nat)
    requires t.AndKw? || t.OrKw?
    requires Numbered(a, base, m) && Numbered(b, base + m, n)
    ensures Numbered(Join(t, a, b), base, m + n)
  {
    hide Print, Placeholders;
    IndexesAppend(base + 1, m, n);
    if a.Some? && b.Some? { PlaceholdersJoined(t, a, b); }
    IndexesAt(base + 1, m);
    IndexesAt(base + m + 1, n);
  }

  lemma {:induction false} TreePlaceholdersInOrder(e: Expr, base: nat)
    requires AllSupported(e)
    ensures Numbered(Tree(e, base), base, |Operands(e)|)
    decreases e
  {
    hide Print, Placeholders, Join, LeafTree, LeafOperands;
    match e {
      case Empty =>
      case Predicate(column, c) => PlaceholdersOfLeaf(column, c, base);
      case And(l, r) =>
        TreePlaceholdersInOrder(l, base);
        TreePlaceholdersInOrder(r, base + |Operands(l)|);
        JoinedInOrder(AndKw, Tree(l, base), Tree(r, base + |Operands(l)|), base, |Operands(l)|, |Operands(r)|);
      case Or(l, r) =>
        TreePlaceholdersInOrder(l, base);
        TreePlaceholdersInOrder(r, base + |Operands(l)|);
        JoinedInOrder(OrKw, Tree(l, base), Tree(r, base + |Operands(l)|), base, |Operands(l)|, |Operands(r)|);
    }
  }

  /** Placeholder discipline: the buffer is only extended, and the clause's placeholders, read
      left to right, are exactly the new positions in order. */
  lemma PlaceholdersInOrder(e: Expr, params: seq<Value>)
    requires Compile(e, params).Ok?
    ensures var (clause, bound) := Compile(e, params).value;
            && params <= bound
            && (if clause.Some? then Placeholders(clause.value) else []) == Indexes(|params| + 1, |bound| - |params|)
  {
    CompileIsTree(e, params);
    TreePlaceholdersInOrder(e, |params|);
  }

  /** Grouping is unambiguous: the clause reads back as the collapsed tree under either
      precedence. */
  lemma GroupingIsUnambiguous(e: Expr, params: seq<Value>, andTighter: bool)
    requires Compile(e, params).Ok? && Compile(e, params).value.0.Some?
    ensures AllSupported(e) && Tree(e, |params|).Some?
    ensures Parse(0, Compile(e, params).value.0.value, andTighter) == Some((Tree(e, |params|).value, []))
  {
    CompileIsTree(e, params);
    TreePrintable(e, |params|);
    var a := Tree(e, |params|).value;
    ParsePrinted(a, [], andTighter);
    assert Print(a) + [] == Print(a);
  }
}
