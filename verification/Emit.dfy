/** SQL emission (sql/base.py, sql/boolean.py, sql/list_.py): the rule for each node and its soundness. */
module Emit {
  import opened Values
  import opened Ir
  import opened SqlStrings
  import opened Sql

  /** The pair every emitter returns: the SQL, if any, and whether it has the node's value on every
      row (`exact`) rather than merely being TRUE wherever the node is. */
  datatype Emitted = Emitted(sql: Option<Sql>, exact: bool)

  const NOTHING: Emitted := Emitted(None, false)

  function Exactly(s: Sql): Emitted { Emitted(Some(s), true) }

  predicate AllExact(results: seq<Emitted>) {
    forall i | 0 <= i < |results| :: results[i].sql.Some? && results[i].exact
  }

  function Sqls(results: seq<Emitted>): (sqls: seq<Sql>)
    requires AllExact(results)
    ensures |sqls| == |results|
  {
    seq(|results|, i requires 0 <= i < |results| => results[i].sql.value)
  }

  predicate IsNullOrList(e: Expr) { IsNullLiteral(e) || IsListLiteral(e) }

  // --- Literals ---

  function LiteralSql(l: Lit): Sql {
    match l
    case NullLit => SqlNull
    case BoolLit(b) => SqlBool(b)
    case IntLit(i) => SqlInt(i)
    case FloatLit(f) => SqlFloat(f)
    case StringLit(s) => SqlString(EscapeSqlString(s))
    case DateLit(days) => SqlDateOfSeconds(days * SECONDS_PER_DAY)
    case TimestampLit(ticks, unit, tz) =>
      var stamp := if unit == Microseconds then SqlTimestampMicros(ticks) else SqlTimestampMillis(ticks);
      if tz == None then SqlDatetime(stamp) else stamp
    case ListLit(values) => SqlTuple(LiteralSqls(values))
  }

  function LiteralSqls(ls: seq<Lit>): (ss: seq<Sql>)
    ensures |ss| == |ls| && forall i | 0 <= i < |ls| :: ss[i] == LiteralSql(ls[i])
  {
    if ls == [] then [] else [LiteralSql(ls[0])] + LiteralSqls(ls[1..])
  }

  /** Items that keep a list from being emitted. */
  predicate IsBadItem(l: Lit) {
    l.NullLit? || l.ListLit? || l == FloatLit(NaN)
  }

  function EmitLiteral(l: Lit): Emitted {
    if l.ListLit? && (l.values == [] || exists i :: 0 <= i < |l.values| && IsBadItem(l.values[i])) then NOTHING
    else Exactly(LiteralSql(l))
  }

  // --- Operators ---

  /** `format_operator_sql`: the SQL of an operator over the SQL of its operands. */
  function FormatOperator(node: Expr, sqls: seq<Sql>): Option<Sql>
    requires |sqls| == |Children(node)|
  {
    match node
    case Unary(NotOp, _) => Some(SqlNot(sqls[0]))
    case Unary(IsNullOp, _) => Some(SqlIsNull(sqls[0]))
    case Unary(IsNotNullOp, _) => Some(SqlIsNotNull(sqls[0]))
    case Unary(DropNullsOp, _) => None
    case Unary(IsNotNanOp, _) => Some(SqlNot(SqlFn(IsNanOp, sqls[0])))
    case Unary(IsFiniteOp, _) =>
      Some(SqlAnd(SqlNot(SqlFn(IsInfiniteOp, sqls[0])), SqlNot(SqlFn(IsNanOp, sqls[0]))))
    case Unary(op, _) => Some(SqlFn(op, sqls[0]))
    case Binary(FillNullOp, _, _) => Some(SqlIfNull(sqls[0], sqls[1]))
    case Binary(op, _, _) => Some(SqlOp(op, sqls[0], sqls[1]))
    case Variadic(CoalesceOp, _) => if sqls == [] then None else Some(SqlCoalesce(sqls))
    case _ => None
  }

  /** The rule for operators that are not monotone: every operand exact, none a bare NULL or list. */
  function EmitOperator(node: Expr, results: seq<Emitted>): Emitted
    requires |results| == |Children(node)|
  {
    if !AllExact(results) || exists kid :: kid in Children(node) && IsNullOrList(kid) then NOTHING
    else match FormatOperator(node, Sqls(results))
      case Some(s) => Exactly(s)
      case None => NOTHING
  }

  /** AND may lose an operand. */
  function EmitAnd(l: Emitted, r: Emitted): Emitted {
    if l.sql.None? && r.sql.None? then NOTHING
    else if l.sql.None? then Emitted(r.sql, false)
    else if r.sql.None? then Emitted(l.sql, false)
    else Emitted(Some(SqlAnd(l.sql.value, r.sql.value)), l.exact && r.exact)
  }

  function EmitOr(l: Emitted, r: Emitted): Emitted {
    if l.sql.None? || r.sql.None? then NOTHING
    else Emitted(Some(SqlOr(l.sql.value, r.sql.value)), l.exact && r.exact)
  }

  function EmitTernary(node: Expr, results: seq<Emitted>): Emitted
    requires node.Ternary? && |results| == 3
  {
    if !AllExact(results) then NOTHING
    else if IsNullOrList(node.pred) || IsListLiteral(node.truthy) || IsListLiteral(node.falsy) then NOTHING
    else if IsNullLiteral(node.truthy) && IsNullLiteral(node.falsy) then NOTHING
    else Exactly(SqlIf(results[0].sql.value, results[1].sql.value, results[2].sql.value))
  }

  function EmitWhen(operands: seq<Expr>, results: seq<Emitted>): Emitted
    requires |results| == |operands|
  {
    var n := |results|;
    if n < 3 || n % 2 == 0 then NOTHING
    else if !AllExact(results) then NOTHING
    else if exists i :: 0 <= i < n && IsListLiteral(operands[i]) then NOTHING
    else if exists i :: 0 <= i < n - 1 && i % 2 == 0 && IsNullLiteral(operands[i]) then NOTHING
    else if forall i | 0 <= i < n && (i % 2 == 1 || i == n - 1) :: IsNullLiteral(operands[i]) then NOTHING
    else
      var sqls := Sqls(results);
      var otherwise := if IsNullLiteral(operands[n - 1]) then None else Some(sqls[n - 1]);
      Exactly(SqlCase(sqls[..n - 1], otherwise))
  }

  function EmitIsIn(node: Expr, results: seq<Emitted>): Emitted
    requires node.Binary? && |results| == 2
  {
    if !AllExact(results) || IsNullOrList(node.left) || !IsListLiteral(node.right) then NOTHING
    else Exactly(SqlIn(results[0].sql.value, results[1].sql.value))
  }

  /** `emit_node_sql`: dispatch on the kind of the node. */
  function EmitNode(node: Expr, results: seq<Emitted>): Emitted
    requires |results| == |Children(node)|
  {
    match node
    case Unsupported(_, _) => NOTHING
    case Column(name) => Exactly(SqlColumn(QuotedIdentifier(name)))
    case Literal(l) => EmitLiteral(l)
    case Binary(AndOp, _, _) => EmitAnd(results[0], results[1])
    case Binary(OrOp, _, _) => EmitOr(results[0], results[1])
    case Binary(IsInOp, _, _) => EmitIsIn(node, results)
    case Ternary(_, _, _) => EmitTernary(node, results)
    case Variadic(WhenOp, operands) => EmitWhen(operands, results)
    case _ => EmitOperator(node, results)
  }

  /** Emission of a tree, bottom up. */
  function Emission(e: Expr): Emitted
    decreases e, 1
  {
    match e
    case Unsupported(_, operands) => EmitNode(e, EmitAll(operands))
    case Column(_) => EmitNode(e, [])
    case Literal(_) => EmitNode(e, [])
    case Unary(_, x) => EmitNode(e, [Emission(x)])
    case Binary(_, l, r) => EmitNode(e, [Emission(l), Emission(r)])
    case Ternary(p, t, f) => EmitNode(e, [Emission(p), Emission(t), Emission(f)])
    case Variadic(_, operands) => EmitNode(e, EmitAll(operands))
  }

  function EmitAll(es: seq<Expr>): (rs: seq<Emitted>)
    ensures |rs| == |es| && forall i | 0 <= i < |es| :: rs[i] == Emission(es[i])
    decreases es, 0
  {
    if es == [] then [] else [Emission(es[0])] + EmitAll(es[1..])
  }

  lemma {:induction false} EmissionOfNode(e: Expr)
    ensures Emission(e) == EmitNode(e, EmitAll(Children(e)))
  {
    var kids := EmitAll(Children(e));
    match e
    case Unary(_, x) => assert kids == [Emission(x)];
    case Binary(_, l, r) => assert kids == [Emission(l), Emission(r)];
    case Ternary(p, t, f) => assert kids == [Emission(p), Emission(t), Emission(f)];
    case _ =>
  }

  // --- Soundness ---

  /** What an emitted pair promises about the value of its node. */
  predicate Promises(r: Emitted, v: Value, env: Env) {
    && (r.exact ==> r.sql.Some? && SqlEval(r.sql.value, env) == v)
    && (r.sql.Some? && v == TRUE ==> SqlEval(r.sql.value, env) == TRUE)
  }

  predicate AllPromise(rs: seq<Emitted>, vs: seq<Value>, env: Env) {
    |rs| == |vs| && forall i | 0 <= i < |rs| :: Promises(rs[i], vs[i], env)
  }

  lemma {:induction false} LiteralKeepsValue(l: Lit, env: Env)
    ensures SqlEval(LiteralSql(l), env) == LitValue(l)
    decreases l
  {
    match l
    case StringLit(s) => StringLiteralRoundTrip(s);
    case ListLit(values) =>
      forall i | 0 <= i < |values| ensures SqlEvalAll(LiteralSqls(values), env)[i] == LitValues(values)[i] {
        LiteralKeepsValue(values[i], env);
      }
    case _ =>
  }

  /** On a list without NULLs, the disjunction that IN stands for decides membership. */
  lemma {:induction false} InIsMembership(v: Value, items: seq<Value>, env: Env)
    requires v != Null && forall i | 0 <= i < |items| :: items[i] != Null
    ensures InDisjunction(v, items, env) == Bool(Member(v, items, env))
  {
    if items != [] {
      InIsMembership(v, items[1..], env);
      if Member(v, items[1..], env) {
        var i :| 0 <= i < |items[1..]| && items[1..][i] != Null && env.same(v, items[1..][i]);
        assert items[i + 1] == items[1..][i];
      }
      if Member(v, items, env) && !env.same(v, items[0]) {
        var i :| 0 <= i < |items| && items[i] != Null && env.same(v, items[i]);
        assert items[1..][i - 1] == items[i];
      }
    }
  }

  lemma {:induction false} InOfNull(items: seq<Value>, env: Env)
    requires items != []
    ensures InDisjunction(Null, items, env) == Null
  {
    if |items| > 1 {
      InOfNull(items[1..], env);
    }
  }

  lemma {:induction false} SqlsEval(results: seq<Emitted>, vs: seq<Value>, env: Env)
    requires AllExact(results) && AllPromise(results, vs, env)
    ensures SqlEvalAll(Sqls(results), env) == vs
  {
  }

  /** CASE over paired clauses takes the first TRUE predicate. */
  lemma {:induction false} CaseChoosesFirst(vs: seq<Value>)
    requires |vs| % 2 == 1
    ensures CaseValue(vs[..|vs| - 1], vs[|vs| - 1]) == FirstTrue(vs)
  {
    if |vs| > 1 {
      CaseChoosesFirst(vs[2..]);
      assert vs[..|vs| - 1][2..] == vs[2..][..|vs[2..]| - 1];
    }
  }

  /** A list is emitted only if it is not empty and every item may stand in it. */
  lemma {:induction false} EmittedListIsPlain(l: Lit)
    requires l.ListLit? && EmitLiteral(l) != NOTHING
    ensures l.values != [] && forall i | 0 <= i < |l.values| :: LitValues(l.values)[i] != Null
  {
    forall i | 0 <= i < |l.values| ensures LitValues(l.values)[i] != Null {
      assert !IsBadItem(l.values[i]);
    }
  }

  /** The list test of a value against items of which none is NULL. */
  lemma {:induction false} InTestValue(v: Value, items: seq<Value>, env: Env)
    requires items != [] && forall i | 0 <= i < |items| :: items[i] != Null
    ensures InDisjunction(v, items, env) == IsInValue(v, List(items), env)
  {
    if v == Null {
      InOfNull(items, env);
    } else {
      InIsMembership(v, items, env);
    }
  }

  lemma {:induction false} ListTestKeepsValue(s: Sql, q: Sql, v: Value, items: seq<Value>, env: Env)
    requires SqlEval(s, env) == v && SqlEval(q, env) == List(items)
    requires items != [] && forall i | 0 <= i < |items| :: items[i] != Null
    ensures SqlEval(SqlIn(s, q), env) == IsInValue(v, List(items), env)
  {
    InTestValue(v, items, env);
  }

  lemma {:induction false} ListLiteralValue(r: Expr, env: Env)
    requires IsListLiteral(r)
    ensures Eval(r, env) == List(LitValues(r.lit.values))
  {
  }

  /** A list test is emitted only for exact operands, the right one a literal list. */
  lemma {:induction false} EmittedIn(l: Expr, r: Expr, results: seq<Emitted>)
    requires results == [Emission(l), Emission(r)] && EmitIsIn(Binary(IsInOp, l, r), results) != NOTHING
    ensures results[0].exact && results[0].sql.Some? && results[1].exact && results[1].sql.Some?
    ensures IsListLiteral(r) && results[1] == EmitLiteral(r.lit)
    ensures EmitIsIn(Binary(IsInOp, l, r), results) == Exactly(SqlIn(results[0].sql.value, results[1].sql.value))
  {
  }

  lemma {:induction false} IsInPromises(l: Expr, r: Expr, results: seq<Emitted>, v: Value, w: Value, env: Env)
    requires results == [Emission(l), Emission(r)]
    requires Promises(results[0], v, env) && Promises(results[1], w, env) && w == Eval(r, env)
    ensures Promises(EmitIsIn(Binary(IsInOp, l, r), results), IsInValue(v, w, env), env)
  {
    if EmitIsIn(Binary(IsInOp, l, r), results) != NOTHING {
      EmittedIn(l, r, results);
      EmittedListIsPlain(r.lit);
      ListLiteralValue(r, env);
      ListTestKeepsValue(results[0].sql.value, results[1].sql.value, v, LitValues(r.lit.values), env);
    }
  }

  /** The value of an emitted CASE; a NULL default is the same as none. */
  lemma {:induction false} CaseValueIsFirstTrue(sqls: seq<Sql>, otherwise: Option<Sql>, env: Env)
    requires |sqls| % 2 == 1
    requires otherwise == Some(sqls[|sqls| - 1]) || (otherwise == None && SqlEval(sqls[|sqls| - 1], env) == Null)
    ensures SqlEval(SqlCase(sqls[..|sqls| - 1], otherwise), env) == FirstTrue(SqlEvalAll(sqls, env))
  {
    var vs, whens := SqlEvalAll(sqls, env), sqls[..|sqls| - 1];
    CaseChoosesFirst(vs);
    PrefixValues(sqls, |sqls| - 1, env);
    assert SqlEval(sqls[|sqls| - 1], env) == vs[|vs| - 1];
    CaseEval(whens, otherwise, env);
  }

  lemma {:induction false} CaseEval(whens: seq<Sql>, otherwise: Option<Sql>, env: Env)
    ensures SqlEval(SqlCase(whens, otherwise), env)
         == CaseValue(SqlEvalAll(whens, env), if otherwise.Some? then SqlEval(otherwise.value, env) else Null)
  {
  }

  lemma {:induction false} PrefixValues(sqls: seq<Sql>, n: nat, env: Env)
    requires n <= |sqls|
    ensures SqlEvalAll(sqls[..n], env) == SqlEvalAll(sqls, env)[..n]
  {
  }

  lemma {:induction false} WhenPromises(operands: seq<Expr>, results: seq<Emitted>, env: Env)
    requires |results| == |operands| && AllPromise(results, EvalAll(operands, env), env)
    ensures Promises(EmitWhen(operands, results), FirstTrue(EvalAll(operands, env)), env)
  {
    if EmitWhen(operands, results) != NOTHING {
      var n, sqls := |operands|, Sqls(results);
      var otherwise := EmittedCase(operands, results);
      var vs := EvalAll(operands, env);
      SqlsEval(results, vs, env);
      assert SqlEval(sqls[n - 1], env) == vs[n - 1] == Eval(operands[n - 1], env);
      CaseValueIsFirstTrue(sqls, otherwise, env);
    }
  }

  lemma {:induction false} EmittedCase(operands: seq<Expr>, results: seq<Emitted>) returns (otherwise: Option<Sql>)
    requires |results| == |operands| && EmitWhen(operands, results) != NOTHING
    ensures AllExact(results) && |results| % 2 == 1
    ensures EmitWhen(operands, results) == Exactly(SqlCase(Sqls(results)[..|results| - 1], otherwise))
    ensures otherwise == (if IsNullLiteral(operands[|results| - 1]) then None else Some(Sqls(results)[|results| - 1]))
  {
    otherwise := if IsNullLiteral(operands[|results| - 1]) then None else Some(Sqls(results)[|results| - 1]);
  }

  lemma {:induction false} TernaryPromises(e: Expr, p: Emitted, t: Emitted, f: Emitted, env: Env)
    requires e.Ternary?
    requires Promises(p, Eval(e.pred, env), env) && Promises(t, Eval(e.truthy, env), env)
    requires Promises(f, Eval(e.falsy, env), env)
    ensures Promises(EmitTernary(e, [p, t, f]), Eval(e, env), env)
  {
    if EmitTernary(e, [p, t, f]) != NOTHING {
      assert p.exact && t.exact && f.exact by {
        assert [p, t, f][0] == p && [p, t, f][1] == t && [p, t, f][2] == f;
      }
    }
  }

  lemma {:induction false} ConnectivePromises(l: Emitted, r: Emitted, v: Value, w: Value, env: Env)
    requires Promises(l, v, env) && Promises(r, w, env)
    ensures Promises(EmitAnd(l, r), KleeneAnd(v, w), env)
    ensures Promises(EmitOr(l, r), KleeneOr(v, w), env)
  {
  }

  lemma {:induction false} FormatUnaryValue(op: UnaryOp, x: Expr, s: Sql, env: Env)
    ensures
      var formatted := FormatOperator(Unary(op, x), [s]);
      formatted.Some? ==> SqlEval(formatted.value, env) == UnaryValue(op, SqlEval(s, env), env)
  {
    assert SqlEval(SqlNot(SqlFn(IsNanOp, s)), env) == KleeneNot(Strict1(IsNanOp, SqlEval(s, env), env));
    assert SqlEval(SqlNot(SqlFn(IsInfiniteOp, s)), env) == KleeneNot(Strict1(IsInfiniteOp, SqlEval(s, env), env));
  }

  lemma {:induction false} FormatBinaryValue(op: BinaryOp, l: Expr, r: Expr, s: Sql, q: Sql, env: Env)
    requires op !in {AndOp, OrOp, IsInOp}
    ensures
      var formatted := FormatOperator(Binary(op, l, r), [s, q]);
      formatted.Some? && SqlEval(formatted.value, env) == BinaryValue(op, SqlEval(s, env), SqlEval(q, env), env)
  {
    assert FirstNonNull([SqlEval(s, env), SqlEval(q, env)][1..]) == SqlEval(q, env);
  }

  lemma {:induction false} UnaryPromises(op: UnaryOp, x: Expr, r: Emitted, env: Env)
    requires Promises(r, Eval(x, env), env)
    ensures Promises(EmitOperator(Unary(op, x), [r]), Eval(Unary(op, x), env), env)
  {
    if EmitOperator(Unary(op, x), [r]) != NOTHING {
      assert [r][0].exact;
      assert Sqls([r]) == [r.sql.value];
      FormatUnaryValue(op, x, r.sql.value, env);
    }
  }

  lemma {:induction false} BinaryPromises(op: BinaryOp, l: Expr, r: Expr, rl: Emitted, rr: Emitted, env: Env)
    requires op !in {AndOp, OrOp, IsInOp}
    requires Promises(rl, Eval(l, env), env) && Promises(rr, Eval(r, env), env)
    ensures Promises(EmitOperator(Binary(op, l, r), [rl, rr]), Eval(Binary(op, l, r), env), env)
  {
    if EmitOperator(Binary(op, l, r), [rl, rr]) != NOTHING {
      assert [rl, rr][0].exact && [rl, rr][1].exact;
      assert Sqls([rl, rr]) == [rl.sql.value, rr.sql.value];
      FormatBinaryValue(op, l, r, rl.sql.value, rr.sql.value, env);
    }
  }

  lemma {:induction false} CoalescePromises(operands: seq<Expr>, results: seq<Emitted>, env: Env)
    requires |results| == |operands| && AllPromise(results, EvalAll(operands, env), env)
    ensures Promises(EmitOperator(Variadic(CoalesceOp, operands), results),
                     Eval(Variadic(CoalesceOp, operands), env), env)
  {
    if EmitOperator(Variadic(CoalesceOp, operands), results) != NOTHING {
      SqlsEval(results, EvalAll(operands, env), env);
    }
  }

  /** The name of a column can be quoted. */
  predicate IsQuotable(n: Expr) { n.Column? ==> IdentifierText(QuotedIdentifier(n.name)) == Some(n.name) }

  /** Emission soundness, for all kinds of nodes, rows and values of unsupported nodes: exact SQL has
      the value of the node, other SQL is TRUE wherever the node is. */
  lemma {:induction false} EmissionSound(e: Expr, env: Env)
    requires Everywhere(e, IsQuotable)
    ensures Promises(Emission(e), Eval(e, env), env)
    decreases e, 1
  {
    assert IsQuotable(e) && forall i | 0 <= i < |Children(e)| :: Children(e)[i] in Children(e);
    match e
    case Unsupported(_, _) =>
    case Column(_) =>
    case Literal(l) => LiteralKeepsValue(l, env);
    case Unary(_, x) =>
      EmissionSound(x, env);
      UnaryPromises(e.uop, x, Emission(x), env);
    case Binary(op, l, r) =>
      EmissionSound(l, env);
      EmissionSound(r, env);
      ConnectivePromises(Emission(l), Emission(r), Eval(l, env), Eval(r, env), env);
      if op == IsInOp {
        IsInPromises(l, r, [Emission(l), Emission(r)], Eval(l, env), Eval(r, env), env);
      } else if op != AndOp && op != OrOp {
        BinaryPromises(op, l, r, Emission(l), Emission(r), env);
      }
    case Ternary(p, t, f) =>
      EmissionSound(p, env);
      EmissionSound(t, env);
      EmissionSound(f, env);
      TernaryPromises(e, Emission(p), Emission(t), Emission(f), env);
    case Variadic(op, operands) =>
      EmissionsSound(operands, env);
      if op == WhenOp {
        WhenPromises(operands, EmitAll(operands), env);
      } else {
        CoalescePromises(operands, EmitAll(operands), env);
      }
  }

  lemma {:induction false} EmissionsSound(es: seq<Expr>, env: Env)
    requires forall e | e in es :: Everywhere(e, IsQuotable)
    ensures AllPromise(EmitAll(es), EvalAll(es, env), env)
    decreases es, 0
  {
    if es != [] {
      EmissionSound(es[0], env);
      EmissionsSound(es[1..], env);
    }
  }

  /** Only connectives relax: everything else is emitted exactly or not at all. */
  lemma {:induction false} OnlyConnectivesRelax(e: Expr)
    requires !(e.Binary? && (e.bop == AndOp || e.bop == OrOp))
    ensures Emission(e).sql.Some? <==> Emission(e).exact
  {
    EmissionOfNode(e);
  }
}
