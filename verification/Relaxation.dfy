/** What a relaxed restriction says: exactly which rows BigQuery returns for a filter that SQL can say only in part. */
module Relaxation {
  import opened Values
  import opened Ir
  import opened Sql
  import opened Emit
  import opened ColumnNames
  import opened CompileSql
  import opened Pushdown
  import opened Emittable

  /** The value of what can be pushed down: a conjunction of those operands that push, a disjunction of both. */
  function RelaxedValue(e: Expr, env: Env): Value
    decreases e
  {
    match e
    case Binary(AndOp, l, r) =>
      if !Pushes(l) then RelaxedValue(r, env)
      else if !Pushes(r) then RelaxedValue(l, env)
      else KleeneAnd(RelaxedValue(l, env), RelaxedValue(r, env))
    case Binary(OrOp, l, r) => KleeneOr(RelaxedValue(l, env), RelaxedValue(r, env))
    case _ => Eval(e, env)
  }

  /** The SQL of a conjunction or disjunction says what the SQL of its operands says. */
  lemma {:induction false} ConnectiveSays(l: Emitted, r: Emitted, env: Env)
    ensures EmitAnd(l, r).sql.Some? <==> l.sql.Some? || r.sql.Some?
    ensures EmitOr(l, r).sql.Some? <==> l.sql.Some? && r.sql.Some?
    ensures EmitAnd(l, r).sql.Some? ==>
              SqlEval(EmitAnd(l, r).sql.value, env)
              == if l.sql.None? then SqlEval(r.sql.value, env)
                 else if r.sql.None? then SqlEval(l.sql.value, env)
                 else KleeneAnd(SqlEval(l.sql.value, env), SqlEval(r.sql.value, env))
    ensures EmitOr(l, r).sql.Some? ==>
              SqlEval(EmitOr(l, r).sql.value, env)
              == KleeneOr(SqlEval(l.sql.value, env), SqlEval(r.sql.value, env))
  {
  }

  /** The emitted SQL has that value on every row: no operand that can be pushed down is left out. */
  lemma {:induction false} EmissionIsRelaxed(e: Expr, env: Env)
    requires Emission(e).sql.Some? && Everywhere(e, IsQuotable)
    ensures SqlEval(Emission(e).sql.value, env) == RelaxedValue(e, env)
    decreases e
  {
    if IsAnd(e) || IsOr(e) {
      assert e.left in Children(e) && e.right in Children(e);
      ConnectiveSays(Emission(e.left), Emission(e.right), env);
      PushesIff(e.left);
      PushesIff(e.right);
      if Pushes(e.left) {
        EmissionIsRelaxed(e.left, env);
      }
      if Pushes(e.right) {
        EmissionIsRelaxed(e.right, env);
      }
    } else {
      OnlyConnectivesRelax(e);
      EmissionSound(e, env);
    }
  }

  /** Where nothing is left out the relaxed value is the value. */
  lemma {:induction false} NothingLeftOut(e: Expr, env: Env)
    requires Everywhere(e, IsEmittable) && Everywhere(e, IsQuotable)
    ensures RelaxedValue(e, env) == Eval(e, env)
  {
    ExactIff(e);
    EmissionSound(e, env);
    EmissionIsRelaxed(e, env);
  }

  /** The rows that the SQL of a filter admits, if it has any. */
  predicate LetsThrough(e: Expr, env: Env) { Pushes(e) ==> RelaxedValue(e, env) == TRUE }

  lemma {:induction false} EmissionAdmitsIff(e: Expr, env: Env)
    requires Everywhere(e, IsQuotable)
    ensures Admits(Emission(e).sql, env) <==> LetsThrough(e, env)
  {
    PushesIff(e);
    if Emission(e).sql.Some? {
      EmissionIsRelaxed(e, env);
    }
  }

  /** The rows the restriction of any filter admits: all of them if nothing can be pushed down, and otherwise those on
      which what can be is TRUE. */
  lemma {:induction false} AdmitsIff(root: Expr, env: Env, u: Unicode)
    ensures Restriction(root, u).Ok? <==> Everywhere(RewrittenIr(root), ColumnNamed(u))
    ensures Restriction(root, u).Ok? ==>
              (Admits(Restriction(root, u).value, env) <==> LetsThrough(RewrittenIr(root), env))
  {
    if Restriction(root, u).Ok? {
      NamedIsQuotable(RewrittenIr(root), u);
      EmissionAdmitsIff(RewrittenIr(root), env);
    }
  }
}
