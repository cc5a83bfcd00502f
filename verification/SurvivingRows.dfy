/** Exactly which rows the restriction of an emittable filter admits, and so which of the kept rows it loses. */
module SurvivingRows {
  import opened Values
  import opened Ir
  import opened NodeRewriters
  import opened TreeRewriter
  import opened NormalForms
  import opened Conditionals
  import opened Positions
  import opened Unwrapping
  import opened DropNullsPass
  import opened RowSafety
  import opened Sql
  import opened Emit
  import opened ColumnNames
  import opened CompileSql
  import opened Pushdown
  import opened Emittable

  /** SQL can say every node of the rewritten filter, and its columns can be named. */
  predicate IsPushedWhole(root: Expr, u: Unicode) {
    Everywhere(RewrittenIr(root), ColumnNamed(u)) && Everywhere(RewrittenIr(root), IsEmittable)
  }

  lemma {:induction false} PushedWholeValue(root: Expr, env: Env, u: Unicode)
    requires IsPushedWhole(root, u)
    ensures Restriction(root, u).Ok? && Restriction(root, u).value.Some?
    ensures Admits(Restriction(root, u).value, env) <==> Eval(RewrittenIr(root), env) == TRUE
  {
    ExactIff(RewrittenIr(root));
    CompiledAdmits(RewrittenIr(root), env, u);
  }

  /** The restriction admits exactly the rows that survive and on which no dropped operand is NULL. Hence it loses
      a row the filter keeps if and only if the row does not survive: no conditional with a NULL predicate is to
      blame unless the filter depends on it, and none is excused by another that would let the row through. */
  lemma {:induction false} AdmittedIff(root: Expr, env: Env, u: Unicode)
    requires OffSpineSafe(Rewritten(UnwrapDropNulls, root), env) && SafeChecks(root, env)
    requires NoNullOperands(DropNullsRewritten(root), true) && IsPushedWhole(root, u)
    ensures Restriction(root, u).Ok? && Restriction(root, u).value.Some?
    ensures Admits(Restriction(root, u).value, env)
       <==> Survives(Rewritten(UnwrapDropNulls, root), env) && NoneNull(DroppedOperands(root), env)
    ensures Keeps(root, env) ==>
              (Admits(Restriction(root, u).value, env) <==> Survives(Rewritten(UnwrapDropNulls, root), env))
  {
    var filter := Rewritten(UnwrapDropNulls, root);
    SurvivesIff(filter, env);
    RewrittenValue(root, env);
    CleanedValues(DroppedOperands(root), env);
    PushedWholeValue(root, env, u);
    DropNullsKeepsRows(root, env);
    ConjoinedValue(filter, Cleaned(DroppedOperands(root)), env);
  }

  /** A conditional as the whole filter: the restriction keeps the row whenever the filter does if and only if the
      predicate is not NULL on the row or the falsy branch not TRUE. */
  lemma {:induction false} ConditionalFilterIff(p: Expr, t: Expr, f: Expr, env: Env, u: Unicode)
    requires Stable(UnwrapDropNulls, Ternary(p, t, f)) && IsValidBooleanTernary(Ternary(p, t, f))
    requires NoNullOperands(Ternary(p, t, f), true) && IsPushedWhole(Ternary(p, t, f), u)
    requires Safe(p, Predicate, env) && Safe(t, Predicate, env) && Safe(f, Predicate, env)
    requires Eval(p, env).Bool? || Eval(p, env) == Null
    ensures Restriction(Ternary(p, t, f), u).Ok?
    ensures (Eval(Ternary(p, t, f), env) == TRUE ==> Admits(Restriction(Ternary(p, t, f), u).value, env))
       <==> RowKeptOn(Eval(p, env), Eval(f, env))
  {
    var root := Ternary(p, t, f);
    NoDropNullsUnchanged(root);
    NoDropNullsRewriting(root);
    PushedWholeValue(root, env, u);
    NothingToCheck(root, env);
    RewrittenValue(root, env);
    ConditionalsKeepValue(p, Predicate, env);
    ConditionalsKeepValue(t, Predicate, env);
    ConditionalsKeepValue(f, Predicate, env);
    ConnectivesValue(WhenToBool(p, true), WhenToBool(t, true), WhenToBool(f, true), env);
    RowKeptIff(Eval(p, env), Eval(t, env), Eval(f, env));
  }

  lemma {:induction false} NothingToCheck(root: Expr, env: Env)
    requires Stable(UnwrapDropNulls, root)
    ensures SafeChecks(root, env)
  {
    NoUses(root, true);
  }

  lemma {:induction false} NoUses(e: Expr, boolean: bool)
    requires Stable(UnwrapDropNulls, e)
    ensures DroppedUses(e, boolean) == {}
    decreases e
  {
    StableChildren(UnwrapDropNulls, e);
    forall i | 0 <= i < |Children(e)| ensures DroppedKidUses(e, boolean, i) == {} {
      assert Children(e)[i] in Children(e);
      NoUses(Children(e)[i], KidUse(e, boolean, IsValidUnwrapped(e), i));
    }
  }
}
