/** The side conditions under which rewriting conditionals and folding literals keep a row. */
module RowSafety {
  import opened Values
  import opened Ir
  import opened NodeRewriters
  import opened Conditionals
  import opened LiteralFolding

  /** How the value of a node is used: `Filter` from the root through connectives and the branches of
      rewritten conditionals, where only TRUE matters; `Predicate` the same starting from a
      conditional's predicate, whose negation is used as well; `Other` anywhere else. */
  datatype Position = Filter | Predicate | Other

  predicate IsConnective(op: BinaryOp) {
    op == AndOp || op == OrOp
  }

  /** No connective has a NULL literal operand once the conditionals in `e` have been rewritten. */
  predicate NoNullOperands(e: Expr, boolean: bool)
    decreases e
  {
    match e
    case Unsupported(_, _) => true
    case Column(_) => true
    case Literal(_) => true
    case Unary(_, x) => NoNullOperands(x, false)
    case Binary(op, l, r) =>
      && (IsConnective(op) ==> !IsNullLiteral(l) && !IsNullLiteral(r))
      && NoNullOperands(l, boolean && IsConnective(op)) && NoNullOperands(r, boolean && IsConnective(op))
    case Ternary(p, t, f) =>
      && NoNullOperands(p, true)
      && if boolean && IsValidBooleanTernary(e) then
           !IsNullLiteral(t) && !IsNullLiteral(f) && NoNullOperands(t, true) && NoNullOperands(f, true)
         else
           NoNullOperands(t, false) && NoNullOperands(f, false)
    case Variadic(_, operands) => forall x | x in operands :: NoNullOperands(x, false)
  }

  /** The condition on a predicate (without DropNulls) and a row. A conditional that becomes
      connectives must not be decided by a NULL predicate in favour of a TRUE falsy branch; one that
      stays must have a predicate that folding cannot turn from NULL to TRUE; and beneath operators
      that tell NULL no connective may have a NULL literal operand. */
  predicate Safe(e: Expr, pos: Position, env: Env)
    decreases e
  {
    match e
    case Unsupported(_, _) => true
    case Column(_) => true
    case Literal(_) => true
    case Unary(_, x) =>
      Safe(x, Other, env) && (TellsNull(e) ==> NoNullOperands(x, false))
    case Binary(op, l, r) =>
      var down := if IsConnective(op) then pos else Other;
      && Safe(l, down, env) && Safe(r, down, env)
      && (TellsNull(e) ==> NoNullOperands(l, false) && NoNullOperands(r, false))
    case Ternary(p, t, f) =>
      && Safe(p, Predicate, env)
      && if pos != Other && IsValidBooleanTernary(e) then
           && Safe(t, pos, env) && Safe(f, pos, env)
           && if pos == Filter then RowKeptOn(Eval(p, env), Eval(f, env))
              else SameValueOn(Eval(p, env), Eval(t, env), Eval(f, env))
         else
           && Safe(t, Other, env) && Safe(f, Other, env)
           && (NoNullOperands(p, true) || Eval(p, env).Bool?)
    case Variadic(_, operands) =>
      forall x | x in operands :: Safe(x, Other, env) && NoNullOperands(x, false)
  }

  lemma {:induction false} NullOnlyFromNull(e: Expr, boolean: bool)
    ensures IsNullLiteral(WhenToBool(e, boolean)) <==> IsNullLiteral(e)
  {
  }

  lemma {:induction false} NoNullOperandsAfter(e: Expr, boolean: bool)
    requires NoNullOperands(e, boolean)
    ensures NullOperandFree(WhenToBool(e, boolean))
    decreases e
  {
    match e
    case Unsupported(_, _) =>
    case Column(_) =>
    case Literal(_) =>
    case Unary(_, x) => NoNullOperandsAfter(x, false);
    case Binary(op, l, r) =>
      var down := boolean && IsConnective(op);
      NoNullOperandsAfter(l, down);
      NoNullOperandsAfter(r, down);
      NullOnlyFromNull(l, down);
      NullOnlyFromNull(r, down);
    case Ternary(p, t, f) =>
      NoNullOperandsAfter(p, true);
      var down := boolean && IsValidBooleanTernary(e);
      NoNullOperandsAfter(t, down);
      NoNullOperandsAfter(f, down);
      NullOnlyFromNull(p, true);
      NullOnlyFromNull(t, down);
      NullOnlyFromNull(f, down);
      if down {
        ConditionalNullFree(WhenToBool(p, true), WhenToBool(t, true), WhenToBool(f, true));
      }
    case Variadic(_, operands) =>
      forall x | x in operands ensures NullOperandFree(WhenToBool(x, false)) {
        NoNullOperandsAfter(x, false);
      }
  }

  lemma {:induction false} ConditionalNullFree(p: Expr, t: Expr, f: Expr)
    requires NullOperandFree(p) && NullOperandFree(t) && NullOperandFree(f)
    requires !IsNullLiteral(p) && !IsNullLiteral(t) && !IsNullLiteral(f)
    ensures NullOperandFree(BooleanConditional(p, t, f))
  {
    assert NullOperandFree(Not(p));
    assert NullOperandFree(And(p, t)) && NullOperandFree(And(Not(p), f));
  }

  // --- Rewriting conditionals ---

  /** Outside the filter position the rewriting keeps the value. */
  lemma {:induction false} ConditionalsKeepValue(e: Expr, pos: Position, env: Env)
    requires pos != Filter && Safe(e, pos, env)
    ensures Eval(WhenToBool(e, pos == Predicate), env) == Eval(e, env)
    decreases e, 1
  {
    match e
    case Unsupported(_, _) =>
    case Column(_) =>
    case Literal(_) =>
    case Unary(_, x) => ConditionalsKeepValue(x, Other, env);
    case Binary(op, l, r) =>
      var down := if IsConnective(op) then pos else Other;
      ConditionalsKeepValue(l, down, env);
      ConditionalsKeepValue(r, down, env);
    case Ternary(p, t, f) =>
      ConditionalsKeepValue(p, Predicate, env);
      var down := if pos == Predicate && IsValidBooleanTernary(e) then Predicate else Other;
      ConditionalsKeepValue(t, down, env);
      ConditionalsKeepValue(f, down, env);
      ConnectivesValue(WhenToBool(p, true), WhenToBool(t, true), WhenToBool(f, true), env);
    case Variadic(_, operands) => ConditionalsKeepValues(operands, env);
  }

  lemma {:induction false} ConditionalsKeepValues(es: seq<Expr>, env: Env)
    requires forall e | e in es :: Safe(e, Other, env)
    ensures EvalAll(WhenToBoolAll(es), env) == EvalAll(es, env)
    decreases es, 0
  {
    if es != [] {
      ConditionalsKeepValue(es[0], Other, env);
      ConditionalsKeepValues(es[1..], env);
    }
  }

  /** In the filter position the rewriting keeps TRUE. */
  lemma {:induction false} ConditionalsKeepRow(e: Expr, env: Env)
    requires Safe(e, Filter, env) && Eval(e, env) == TRUE
    ensures Eval(WhenToBool(e, true), env) == TRUE
    decreases e
  {
    match e
    case Unsupported(_, _) =>
    case Column(_) =>
    case Literal(_) =>
    case Unary(_, x) => ConditionalsKeepValue(x, Other, env);
    case Binary(op, l, r) =>
      if !IsConnective(op) {
        ConditionalsKeepValue(l, Other, env);
        ConditionalsKeepValue(r, Other, env);
      } else {
        if Eval(l, env) == TRUE {
          ConditionalsKeepRow(l, env);
        }
        if Eval(r, env) == TRUE {
          ConditionalsKeepRow(r, env);
        }
      }
    case Ternary(p, t, f) =>
      ConditionalsKeepValue(p, Predicate, env);
      ConnectivesValue(WhenToBool(p, true), WhenToBool(t, true), WhenToBool(f, true), env);
      if !IsValidBooleanTernary(e) {
        ConditionalsKeepValue(t, Other, env);
        ConditionalsKeepValue(f, Other, env);
      } else if Eval(p, env) == TRUE {
        ConditionalsKeepRow(t, env);
      } else {
        ConditionalsKeepRow(f, env);
      }
    case Variadic(_, operands) => ConditionalsKeepValues(operands, env);
  }

  /** The result may safely be folded. */
  lemma {:induction false} SafeToFoldAfter(e: Expr, pos: Position, env: Env)
    requires Safe(e, pos, env)
    ensures FoldSafe(WhenToBool(e, pos != Other), env)
    decreases e
  {
    match e
    case Unsupported(_, _) =>
    case Column(_) =>
    case Literal(_) =>
    case Unary(_, x) =>
      SafeToFoldAfter(x, Other, env);
      if TellsNull(e) {
        NoNullOperandsAfter(x, false);
      }
    case Binary(op, l, r) =>
      var down := if IsConnective(op) then pos else Other;
      SafeToFoldAfter(l, down, env);
      SafeToFoldAfter(r, down, env);
      if TellsNull(e) {
        NoNullOperandsAfter(l, false);
        NoNullOperandsAfter(r, false);
      }
    case Ternary(p, t, f) =>
      SafeToFoldAfter(p, Predicate, env);
      var down := if pos != Other && IsValidBooleanTernary(e) then pos else Other;
      SafeToFoldAfter(t, down, env);
      SafeToFoldAfter(f, down, env);
      ConditionalsKeepValue(p, Predicate, env);
      if NoNullOperands(p, true) {
        NoNullOperandsAfter(p, true);
      }
      if down != Other {
        ConditionalFoldSafe(WhenToBool(p, true), WhenToBool(t, true), WhenToBool(f, true), env);
      }
    case Variadic(_, operands) =>
      forall x | x in operands
        ensures FoldSafe(WhenToBool(x, false), env) && NullOperandFree(WhenToBool(x, false))
      {
        SafeToFoldAfter(x, Other, env);
        NoNullOperandsAfter(x, false);
      }
  }

  lemma {:induction false} ConditionalFoldSafe(p: Expr, t: Expr, f: Expr, env: Env)
    requires FoldSafe(p, env) && FoldSafe(t, env) && FoldSafe(f, env)
    ensures FoldSafe(BooleanConditional(p, t, f), env)
  {
    assert FoldSafe(Not(p), env);
    assert FoldSafe(And(p, t), env) && FoldSafe(And(Not(p), f), env);
  }

  // --- Checked operands ---

  lemma {:induction false} NullFreeOperandsAreSafe(e: Expr, env: Env)
    requires NullOperandFree(e)
    ensures FoldSafe(e, env)
    decreases e
  {
    if !e.Unsupported? {
      forall kid | kid in Children(e) ensures FoldSafe(kid, env) {
        NullFreeOperandsAreSafe(kid, env);
      }
      if e.Ternary? {
        assert e.pred in Children(e);
      }
    }
  }

  /** However much of an operand is rewritten, its value stays. */
  lemma {:induction false} BecomesKeepsValue(e: Expr, shared: bool, r: Expr, env: Env)
    requires Becomes(e, shared, r) && Safe(e, Predicate, env)
    ensures Eval(r, env) == Eval(e, env)
    decreases e
  {
    if IsAnd(e) || IsOr(e) {
      BecomesKeepsValue(e.left, shared, r.left, env);
      BecomesKeepsValue(e.right, shared, r.right, env);
    } else if IsValidBooleanTernary(e) {
      ConditionalsKeepValue(e.pred, Predicate, env);
      if r.Ternary? {
        BecomesKeepsValue(e.truthy, shared, r.truthy, env);
        BecomesKeepsValue(e.falsy, shared, r.falsy, env);
      } else {
        var p, t, f := r.left.left, r.left.right, r.right.right;
        BecomesKeepsValue(e.truthy, shared, t, env);
        BecomesKeepsValue(e.falsy, shared, f, env);
        assert r == BooleanConditional(p, t, f);
        ConnectivesValue(p, t, f, env);
      }
    } else {
      ConditionalsKeepValue(e, Predicate, env);
    }
  }

  lemma {:induction false} BecomesNullFree(e: Expr, shared: bool, r: Expr)
    requires Becomes(e, shared, r) && NoNullOperands(e, true)
    ensures NullOperandFree(r) && (IsNullLiteral(r) <==> IsNullLiteral(e))
    decreases e
  {
    if IsAnd(e) || IsOr(e) {
      BecomesNullFree(e.left, shared, r.left);
      BecomesNullFree(e.right, shared, r.right);
    } else if IsValidBooleanTernary(e) {
      NoNullOperandsAfter(e.pred, true);
      NullOnlyFromNull(e.pred, true);
      if r.Ternary? {
        BecomesNullFree(e.truthy, shared, r.truthy);
        BecomesNullFree(e.falsy, shared, r.falsy);
      } else {
        var p, t, f := r.left.left, r.left.right, r.right.right;
        BecomesNullFree(e.truthy, shared, t);
        BecomesNullFree(e.falsy, shared, f);
        assert r == BooleanConditional(p, t, f);
        ConditionalNullFree(p, t, f);
      }
    } else {
      NoNullOperandsAfter(e, true);
      NullOnlyFromNull(e, true);
    }
  }

  // --- Which rows survive ---

  /** Whether the filter with its conditionals turned into connectives is TRUE: a conditional only lets a row
      through whose predicate is TRUE or FALSE. */
  predicate Survives(e: Expr, env: Env)
    decreases e
  {
    if IsAnd(e) then Survives(e.left, env) && Survives(e.right, env)
    else if IsOr(e) then Survives(e.left, env) || Survives(e.right, env)
    else if IsValidBooleanTernary(e) then
      || (Eval(e.pred, env) == TRUE && Survives(e.truthy, env))
      || (Eval(e.pred, env) == FALSE && Survives(e.falsy, env))
    else Eval(e, env) == TRUE
  }

  /** `Safe` everywhere except at the conditionals that decide whether the row survives. */
  predicate OffSpineSafe(e: Expr, env: Env)
    decreases e
  {
    if IsAnd(e) || IsOr(e) then OffSpineSafe(e.left, env) && OffSpineSafe(e.right, env)
    else if IsValidBooleanTernary(e) then
      && Safe(e.pred, Predicate, env) && (Eval(e.pred, env).Bool? || Eval(e.pred, env) == Null)
      && OffSpineSafe(e.truthy, env) && OffSpineSafe(e.falsy, env)
    else Safe(e, Predicate, env)
  }

  lemma {:induction false} SurvivesIff(e: Expr, env: Env)
    requires OffSpineSafe(e, env)
    ensures Eval(WhenToBool(e, true), env) == TRUE <==> Survives(e, env)
    decreases e
  {
    if IsAnd(e) || IsOr(e) {
      SurvivesIff(e.left, env);
      SurvivesIff(e.right, env);
    } else if IsValidBooleanTernary(e) {
      ConditionalsKeepValue(e.pred, Predicate, env);
      SurvivesIff(e.truthy, env);
      SurvivesIff(e.falsy, env);
      ConnectivesValue(WhenToBool(e.pred, true), WhenToBool(e.truthy, true), WhenToBool(e.falsy, true), env);
    } else {
      ConditionalsKeepValue(e, Predicate, env);
    }
  }
}
