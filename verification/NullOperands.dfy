/** What folding makes of connectives, whatever literals their operands are or become. */
module NullOperands {
  import opened Values
  import opened Ir
  import opened NodeRewriters
  import opened TreeRewriter
  import opened NormalForms

  const NULL: Expr := Literal(NullLit)

  function Folded(e: Expr): Expr { Rewritten(BooleanLiterals, e) }

  lemma {:induction false} LiteralStays(l: Lit)
    ensures Folded(Literal(l)) == Literal(l)
  {
    StableChildren(BooleanLiterals, Literal(l));
    StableIsLeftAlone(BooleanLiterals, Literal(l));
  }

  /** A connective that folds at once to something else is folded as that is. */
  lemma {:induction false} FoldsFirst(e: Expr, f: Expr)
    requires f == FoldLiterals(e) && f != e
    ensures Folded(e) == Folded(f)
  {
    StepLosesWeight(BooleanLiterals, e);
  }

  /** Any other is folded once more over its folded operands. */
  lemma {:induction false} FoldsLast(e: Expr, l: Expr, r: Expr)
    requires (e == And(l, r) || e == Or(l, r)) && FoldLiterals(e) == e
    ensures Folded(e) == FoldLiterals(Binary(e.bop, Folded(l), Folded(r)))
  {
    var g := Binary(e.bop, Folded(l), Folded(r));
    ChildrenWeighLess(BooleanLiterals, e);
    assert Children(e) == [l, r];
    RewrittenAllAt(BooleanLiterals, [l, r], 0);
    RewrittenAllAt(BooleanLiterals, [l, r], 1);
    SweepIsStable(BooleanLiterals, l);
    SweepIsStable(BooleanLiterals, r);
    FoldedOnce(g);
  }

  lemma {:induction false} FoldedOnce(g: Expr)
    requires g.Binary? && Stable(BooleanLiterals, g.left) && Stable(BooleanLiterals, g.right)
    ensures Fix(BooleanLiterals, g) == FoldLiterals(g)
  {
    var next := FoldLiterals(g);
    if next != g {
      StepLosesWeight(BooleanLiterals, g);
      StableChildren(BooleanLiterals, next);
      NormalFixes(BooleanLiterals, next);
    }
  }

  /** A conjunction with a NULL literal is FALSE, on whichever side it stands. */
  lemma {:induction false} AndNullFolds(x: Expr)
    ensures Folded(And(x, NULL)) == BoolLiteral(false) == Folded(And(NULL, x))
  {
    FoldsFirst(And(x, NULL), BoolLiteral(false));
    FoldsFirst(And(NULL, x), BoolLiteral(false));
    LiteralStays(BoolLit(false));
  }

  lemma {:induction false} OrNullNode(x: Expr)
    ensures FoldLiterals(Or(NULL, x)) == x
    ensures FoldLiterals(Or(x, NULL)) == if x == BoolLiteral(false) then NULL else x
  {
  }

  /** A disjunction with a NULL literal is the other operand; only beside a literal FALSE on its left NULL is left. */
  lemma {:induction false} OrNullFolds(x: Expr)
    ensures Folded(Or(NULL, x)) == Folded(x)
    ensures Folded(Or(x, NULL)) == if x == BoolLiteral(false) then NULL else Folded(x)
  {
    OrNullNode(x);
    FoldedOperandDiffers(Or(x, NULL));
    FoldedOperandDiffers(Or(NULL, x));
    FoldsFirst(Or(NULL, x), x);
    FoldsFirst(Or(x, NULL), if x == BoolLiteral(false) then NULL else x);
    LiteralStays(NullLit);
  }

  /** A folded conjunction is TRUE exactly where both folded operands are, a folded disjunction where one of them is;
      whatever literals stand there, or appear there by folding. */
  lemma {:induction false} ConnectiveFoldsIff(e: Expr, l: Expr, r: Expr, env: Env)
    requires e == And(l, r) || e == Or(l, r)
    ensures Eval(Folded(e), env) == TRUE
       <==> if IsAnd(e) then Eval(Folded(l), env) == TRUE && Eval(Folded(r), env) == TRUE
            else Eval(Folded(l), env) == TRUE || Eval(Folded(r), env) == TRUE
  {
    var f := FoldLiterals(e);
    if f == e {
      FoldsLast(e, l, r);
      FoldedNodeIff(e.bop, Folded(l), Folded(r), env);
    } else {
      FoldsFirst(e, f);
      FoldedLiteral(l);
      FoldedLiteral(r);
      FoldedLiteral(f);
      FoldedAtOnceIff(e, l, r, f, Folded(l), Folded(r), Folded(f), env);
    }
  }

  lemma {:induction false} FoldedLiteral(e: Expr)
    ensures e.Literal? ==> Folded(e) == e
  {
    if e.Literal? {
      LiteralStays(e.lit);
    }
  }

  /** A connective `e` that becomes `f` at once; `fl`, `fr` and `ff` are `l`, `r` and `f` folded. */
  lemma {:induction false} FoldedAtOnceIff(e: Expr, l: Expr, r: Expr, f: Expr, fl: Expr, fr: Expr, ff: Expr, env: Env)
    requires (e == And(l, r) || e == Or(l, r)) && f == FoldLiterals(e) != e
    requires (l.Literal? ==> fl == l) && (r.Literal? ==> fr == r) && (f.Literal? ==> ff == f)
    requires (f == l ==> ff == fl) && (f == r ==> ff == fr)
    ensures Eval(ff, env) == TRUE
       <==> if IsAnd(e) then Eval(fl, env) == TRUE && Eval(fr, env) == TRUE
            else Eval(fl, env) == TRUE || Eval(fr, env) == TRUE
  {
  }

  lemma {:induction false} FoldedNodeIff(op: BinaryOp, l: Expr, r: Expr, env: Env)
    requires op == AndOp || op == OrOp
    ensures Eval(FoldLiterals(Binary(op, l, r)), env) == TRUE
       <==> if op == AndOp then Eval(l, env) == TRUE && Eval(r, env) == TRUE
            else Eval(l, env) == TRUE || Eval(r, env) == TRUE
  {
  }
}
