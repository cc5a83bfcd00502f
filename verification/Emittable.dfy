/** Which filters become SQL, and which of them exactly: a condition on each node by itself. */
module Emittable {
  import opened Ir
  import opened NodeRewriters
  import opened TreeRewriter
  import opened Sql
  import opened Emit
  import opened ColumnNames
  import opened CompileSql
  import opened DropNullsPass
  import opened RowSafety
  import opened Pushdown

  /** The positions of a CASE that hold a result. */
  predicate IsResult(i: nat, n: nat) { i % 2 == 1 || i == n - 1 }

  /** SQL can say what this node says, if it can say what its operands say. */
  predicate IsEmittable(n: Expr) {
    match n
    case Unsupported(_, _) => false
    case Column(_) => true
    case Literal(l) => l.ListLit? ==> l.values != [] && forall i | 0 <= i < |l.values| :: !IsBadItem(l.values[i])
    case Unary(op, x) => op != DropNullsOp && !IsNullOrList(x)
    case Binary(AndOp, _, _) => true
    case Binary(OrOp, _, _) => true
    case Binary(IsInOp, l, r) => !IsNullOrList(l) && IsListLiteral(r)
    case Binary(_, l, r) => !IsNullOrList(l) && !IsNullOrList(r)
    case Ternary(p, t, f) =>
      && !IsNullOrList(p) && !IsListLiteral(t) && !IsListLiteral(f)
      && !(IsNullLiteral(t) && IsNullLiteral(f))
    case Variadic(CoalesceOp, operands) => operands != [] && forall x | x in operands :: !IsNullOrList(x)
    case Variadic(WhenOp, operands) =>
      && |operands| >= 3 && |operands| % 2 == 1
      && (forall i | 0 <= i < |operands| :: !IsListLiteral(operands[i]))
      && (forall i | 0 <= i < |operands| && !IsResult(i, |operands|) :: !IsNullLiteral(operands[i]))
      && (exists i | 0 <= i < |operands| && IsResult(i, |operands|) :: !IsNullLiteral(operands[i]))
  }

  lemma {:induction false} WhenExactIff(operands: seq<Expr>, results: seq<Emitted>)
    requires |results| == |operands|
    ensures EmitWhen(operands, results).exact <==> AllExact(results) && IsEmittable(Variadic(WhenOp, operands))
  {
    var n := |operands|;
    if n >= 3 && n % 2 == 1 && AllExact(results) {
      assert forall i | 0 <= i < n :: !IsResult(i, n) <==> i < n - 1 && i % 2 == 0;
      if IsEmittable(Variadic(WhenOp, operands)) {
        var i :| 0 <= i < n && IsResult(i, n) && !IsNullLiteral(operands[i]);
        assert i % 2 == 1 || i == n - 1;
      }
    }
  }

  lemma {:induction false} LiteralExactIff(l: Lit)
    ensures EmitLiteral(l).exact <==> IsEmittable(Literal(l))
  {
  }

  lemma {:induction false} OperatorExactIff(e: Expr, results: seq<Emitted>)
    requires |results| == |Children(e)|
    requires e.Unary? || (e.Binary? && e.bop !in {AndOp, OrOp, IsInOp}) || (e.Variadic? && e.vop == CoalesceOp)
    ensures EmitOperator(e, results).exact <==> AllExact(results) && IsEmittable(e)
  {
    match e
    case Unary(_, x) => assert x in Children(e) && Children(e) == [x];
    case Binary(_, l, r) => assert l in Children(e) && r in Children(e) && Children(e) == [l, r];
    case _ =>
  }

  lemma {:induction false} NodeExactIff(e: Expr, results: seq<Emitted>)
    requires |results| == |Children(e)|
    requires forall i | 0 <= i < |results| :: results[i].exact ==> results[i].sql.Some?
    ensures EmitNode(e, results).exact <==> AllExact(results) && IsEmittable(e)
    ensures EmitNode(e, results).exact ==> EmitNode(e, results).sql.Some?
  {
    match e
    case Literal(l) => LiteralExactIff(l);
    case Variadic(WhenOp, operands) => WhenExactIff(operands, results);
    case Unary(_, _) => OperatorExactIff(e, results);
    case Variadic(CoalesceOp, _) => OperatorExactIff(e, results);
    case Binary(op, _, _) =>
      if op !in {AndOp, OrOp, IsInOp} {
        OperatorExactIff(e, results);
      }
    case _ =>
  }

  /** A filter is emitted exactly if and only if every one of its nodes is emittable. */
  lemma {:induction false} ExactIff(e: Expr)
    ensures Emission(e).exact <==> Everywhere(e, IsEmittable)
    ensures Emission(e).exact ==> Emission(e).sql.Some?
    decreases e
  {
    var kids, results := Children(e), EmitAll(Children(e));
    forall i | 0 <= i < |kids|
      ensures results[i].exact <==> Everywhere(kids[i], IsEmittable)
      ensures results[i].exact ==> results[i].sql.Some?
    {
      ExactIff(kids[i]);
    }
    EmissionOfNode(e);
    NodeExactIff(e, results);
    if Everywhere(e, IsEmittable) {
      assert forall i | 0 <= i < |kids| :: kids[i] in kids;
    }
  }

  /** What of a filter can be pushed down: of a conjunction either side, of a disjunction both sides. */
  predicate Pushes(e: Expr)
    decreases e
  {
    match e
    case Binary(AndOp, l, r) => Pushes(l) || Pushes(r)
    case Binary(OrOp, l, r) => Pushes(l) && Pushes(r)
    case _ => Everywhere(e, IsEmittable)
  }

  /** There is SQL for a filter if and only if something of it can be pushed down. */
  lemma {:induction false} PushesIff(e: Expr)
    ensures Emission(e).sql.Some? <==> Pushes(e)
    decreases e
  {
    if IsAnd(e) || IsOr(e) {
      PushesIff(e.left);
      PushesIff(e.right);
    } else {
      ExactIff(e);
      OnlyConnectivesRelax(e);
    }
  }

  lemma {:induction false} CompilesIff(e: Expr, u: Unicode)
    ensures Compiled(e, u).Ok? && Compiled(e, u).value.sql.Some? <==> Everywhere(e, ColumnNamed(u)) && Pushes(e)
  {
    PushesIff(e);
  }

  /** The compiler emits a restriction if and only if column names allow it and something of the rewritten
      filter can be pushed down. */
  lemma {:induction false} RestrictsIff(root: Expr, u: Unicode)
    ensures
      Restriction(root, u).Ok? && Restriction(root, u).value.Some?
      <==> Everywhere(RewrittenIr(root), ColumnNamed(u)) && Pushes(RewrittenIr(root))
  {
    CompilesIff(RewrittenIr(root), u);
  }

  /** A filter whose rewriting is emittable node by node is restricted exactly: BigQuery returns the rows it
      keeps and no others. */
  lemma {:induction false} EmittableIsExact(root: Expr, env: Env, u: Unicode)
    requires !HasUnsupported(root) && SafeChecks(root, env) && NoNullOperands(DropNullsRewritten(root), true)
    requires Safe(Rewritten(UnwrapDropNulls, root), Predicate, env)
    requires Everywhere(RewrittenIr(root), ColumnNamed(u)) && Everywhere(RewrittenIr(root), IsEmittable)
    ensures Restriction(root, u).Ok? && Restriction(root, u).value.Some?
    ensures Admits(Restriction(root, u).value, env) <==> Keeps(root, env)
  {
    ExactIff(RewrittenIr(root));
    ExactRestriction(root, env, u);
  }
}
