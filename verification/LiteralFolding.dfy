/** `rewrite_boolean_literals`: folding moves values up the information order, exactly so beneath the
    operators that can tell NULL from FALSE when no connective there has a NULL literal operand. */
module LiteralFolding {
  import opened Values
  import opened Ir
  import opened NodeRewriters
  import opened TreeRewriter

  /** No connective of the tree has a NULL literal as an operand. */
  predicate NullOperandFree(e: Expr) {
    e.Unsupported?
    || (((IsAnd(e) || IsOr(e)) ==> !IsNullLiteral(e.left) && !IsNullLiteral(e.right))
        && forall kid | kid in Children(e) :: NullOperandFree(kid))
  }

  /** The operators whose value can differ between a NULL operand and any other. */
  predicate TellsNull(e: Expr) {
    || (e.Unary? && (e.uop == IsNullOp || e.uop == IsNotNullOp))
    || (e.Binary? && e.bop == FillNullOp)
    || e.Variadic?
  }

  /** Folding may change NULL operands of `e` only where that cannot lower its value: not beneath an
      operator that tells NULL, and not in the predicate of a conditional which is NULL on the row. */
  predicate FoldSafe(e: Expr, env: Env)
    decreases e
  {
    e.Unsupported?
    || ((forall kid | kid in Children(e) :: FoldSafe(kid, env))
        && (TellsNull(e) ==> forall kid | kid in Children(e) :: NullOperandFree(kid))
        && (e.Ternary? ==> NullOperandFree(e.pred) || Eval(e.pred, env).Bool?))
  }

  // --- Folding at one node ---

  lemma {:induction false} FoldRefines(e: Expr, env: Env)
    ensures Refines(Eval(e, env), Eval(FoldLiterals(e), env))
  {
  }

  lemma {:induction false} FoldKeepsValue(e: Expr, env: Env)
    requires NullOperandFree(e)
    ensures Eval(FoldLiterals(e), env) == Eval(e, env)
    ensures NullOperandFree(FoldLiterals(e))
    ensures IsNullLiteral(FoldLiterals(e)) <==> IsNullLiteral(e)
  {
    if e.Binary? {
      assert e.left in Children(e) && e.right in Children(e);
    }
  }

  lemma {:induction false} FoldKeepsSafe(e: Expr, env: Env)
    requires FoldSafe(e, env)
    ensures FoldSafe(FoldLiterals(e), env)
  {
    if e.Binary? {
      assert e.left in Children(e) && e.right in Children(e);
    }
  }

  lemma {:induction false} FixFoldRefines(e: Expr, env: Env)
    ensures Refines(Eval(e, env), Eval(Fix(BooleanLiterals, e), env))
    decreases Weight(BooleanLiterals, e)
  {
    var next := Step(BooleanLiterals, e);
    if next != e {
      StepLosesWeight(BooleanLiterals, e);
      FoldRefines(e, env);
      FixFoldRefines(next, env);
    }
  }

  lemma {:induction false} FixFoldKeepsSafe(e: Expr, env: Env)
    requires FoldSafe(e, env)
    ensures FoldSafe(Fix(BooleanLiterals, e), env)
    decreases Weight(BooleanLiterals, e)
  {
    var next := Step(BooleanLiterals, e);
    if next != e {
      StepLosesWeight(BooleanLiterals, e);
      FoldKeepsSafe(e, env);
      FixFoldKeepsSafe(next, env);
    }
  }

  // --- The sweep, where it is exact ---

  /** `r` has the value of `e`, again has no NULL operand, and is a NULL literal only if `e` is. */
  predicate FoldedExactly(e: Expr, r: Expr, env: Env) {
    Eval(r, env) == Eval(e, env) && NullOperandFree(r) && (IsNullLiteral(r) <==> IsNullLiteral(e))
  }

  predicate AllFoldedExactly(es: seq<Expr>, rs: seq<Expr>, env: Env) {
    |es| == |rs| && forall i | 0 <= i < |es| :: FoldedExactly(es[i], rs[i], env)
  }

  lemma {:induction false} RebuildExact(e: Expr, kids: seq<Expr>, env: Env)
    requires NullOperandFree(e)
    requires |kids| == |Children(e)|
    requires e.Unsupported? || AllFoldedExactly(Children(e), kids, env)
    ensures FoldedExactly(e, ReplaceChildren(e, kids), env)
  {
    if !e.Unsupported? {
      assert EvalAll(kids, env) == EvalAll(Children(e), env);
      EvalCongruence(e, kids, env);
      ReplacedChildren(e, kids);
    }
  }

  lemma {:induction false} FixFoldExact(e: Expr, env: Env)
    requires NullOperandFree(e)
    ensures FoldedExactly(e, Fix(BooleanLiterals, e), env)
    decreases Weight(BooleanLiterals, e)
  {
    var next := Step(BooleanLiterals, e);
    if next != e {
      StepLosesWeight(BooleanLiterals, e);
      FoldKeepsValue(e, env);
      FixFoldExact(next, env);
    }
  }

  lemma {:induction false} FoldedTwice(e: Expr, f: Expr, g: Expr, r: Expr, env: Env)
    requires FoldedExactly(e, f, env) && FoldedExactly(f, g, env) && FoldedExactly(g, r, env)
    ensures FoldedExactly(e, r, env)
  {
  }

  /** Without NULL operands folding keeps every value. */
  lemma {:induction false} FoldSweepExact(e: Expr, env: Env)
    requires NullOperandFree(e)
    ensures FoldedExactly(e, Rewritten(BooleanLiterals, e), env)
    decreases Weight(BooleanLiterals, e), 0
  {
    var fixed := Fix(BooleanLiterals, e);
    ChildrenWeighLess(BooleanLiterals, fixed);
    var kids := RewrittenAll(BooleanLiterals, Children(fixed));
    FixFoldExact(e, env);
    if !fixed.Unsupported? {
      FoldSweepsExact(Children(fixed), env);
    }
    var g := ReplaceChildren(fixed, kids);
    RebuildExact(fixed, kids, env);
    FixFoldExact(g, env);
    FoldedTwice(e, fixed, g, Fix(BooleanLiterals, g), env);
  }

  lemma {:induction false} FoldSweepsExact(es: seq<Expr>, env: Env)
    requires forall e | e in es :: NullOperandFree(e)
    ensures AllFoldedExactly(es, RewrittenAll(BooleanLiterals, es), env)
    decreases SumWeight(BooleanLiterals, es), 1
  {
    if es != [] {
      FoldSweepExact(es[0], env);
      FoldSweepsExact(es[1..], env);
    }
  }

  // --- The sweep in general ---

  /** Children that refine the old ones, and equal them where folding is exact. */
  predicate FoldedKids(es: seq<Expr>, rs: seq<Expr>, env: Env) {
    |es| == |rs|
    && forall i | 0 <= i < |es| ::
         && Refines(Eval(es[i], env), Eval(rs[i], env))
         && (NullOperandFree(es[i]) ==> Eval(rs[i], env) == Eval(es[i], env))
  }

  /** Every operator that cannot tell NULL is monotone in the information order. */
  lemma {:induction false} RebuildRefines(e: Expr, kids: seq<Expr>, env: Env)
    requires FoldSafe(e, env) && FoldedKids(Children(e), kids, env)
    ensures Refines(Eval(e, env), Eval(ReplaceChildren(e, kids), env))
  {
    match e
    case Unsupported(_, _) =>
    case Column(_) =>
    case Literal(_) =>
    case Unary(op, x) =>
      assert x in Children(e);
      KleeneMonotone(Eval(x, env), Null, Eval(kids[0], env), Null);
    case Binary(op, l, r) =>
      assert l in Children(e) && r in Children(e);
      KleeneMonotone(Eval(l, env), Eval(r, env), Eval(kids[0], env), Eval(kids[1], env));
    case Ternary(p, t, f) =>
      assert p in Children(e);
    case Variadic(_, operands) =>
      forall i | 0 <= i < |operands| ensures EvalAll(kids, env)[i] == EvalAll(operands, env)[i] {
        assert operands[i] in Children(e);
      }
      EvalCongruence(e, kids, env);
  }

  /** Folding a whole tree keeps every value that is not NULL; so a TRUE filter stays TRUE, under any
      nesting of negation. */
  lemma {:induction false} FoldSweepRefines(e: Expr, env: Env)
    requires FoldSafe(e, env)
    ensures Refines(Eval(e, env), Eval(Rewritten(BooleanLiterals, e), env))
    decreases Weight(BooleanLiterals, e), 0
  {
    var fixed := Fix(BooleanLiterals, e);
    FixFoldRefines(e, env);
    FixFoldKeepsSafe(e, env);
    ChildrenWeighLess(BooleanLiterals, fixed);
    var kids := RewrittenAll(BooleanLiterals, Children(fixed));
    var g := ReplaceChildren(fixed, kids);
    if !fixed.Unsupported? {
      FoldSweepsRefine(Children(fixed), env);
      RebuildRefines(fixed, kids, env);
    }
    FixFoldRefines(g, env);
  }

  lemma {:induction false} FoldSweepsRefine(es: seq<Expr>, env: Env)
    requires forall e | e in es :: FoldSafe(e, env)
    ensures FoldedKids(es, RewrittenAll(BooleanLiterals, es), env)
    decreases SumWeight(BooleanLiterals, es), 1
  {
    if es != [] {
      FoldSweepRefines(es[0], env);
      if NullOperandFree(es[0]) {
        FoldSweepExact(es[0], env);
      }
      FoldSweepsRefine(es[1..], env);
    }
  }
}
