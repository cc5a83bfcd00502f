/** What the whole rewriter leaves behind, whatever the predicate: later passes do not undo what earlier ones
    reached. */
module RewrittenForm {
  import opened Ir
  import opened NodeRewriters
  import opened TreeRewriter
  import opened NormalForms
  import opened Conditionals
  import opened Unwrapping
  import opened DropNullsPass
  import opened SharedChecks
  import opened Pushdown

  /** The pass leaves alone what the earlier one reached. */
  predicate Preserves(pass: ValuePass, earlier: ValuePass) {
    match pass
    case BooleanLiterals => earlier == StripDropNulls
    case CollapseWhen => earlier == StripDropNulls || earlier == BooleanLiterals
    case DeMorgan => earlier == StripDropNulls || earlier == BooleanLiterals || earlier == CollapseWhen
    case _ => false
  }

  lemma {:induction false} WhenOperandsStable(e: Expr, q: ValuePass)
    requires Stable(q, e)
    ensures forall x | x in WhenOperands(e) :: Stable(q, x)
    decreases e
  {
    if e.Ternary? {
      StableChildren(q, e);
      assert Children(e) == [e.pred, e.truthy, e.falsy];
      WhenOperandsStable(e.falsy, q);
    }
  }

  /** One application of a node rewriter keeps the earlier normal form. */
  lemma {:induction false} StepPreserves(pass: ValuePass, q: ValuePass, e: Expr)
    requires Preserves(pass, q) && Stable(q, e)
    ensures Stable(q, Step(pass, e))
  {
    var next := Step(pass, e);
    if next != e {
      StableChildren(q, e);
      StableChildren(q, next);
      if pass == CollapseWhen {
        WhenOperandsStable(e, q);
      } else if pass == DeMorgan {
        assert e.expr in Children(e);
        StableChildren(q, e.expr);
        assert e.expr.left in Children(e.expr) && e.expr.right in Children(e.expr);
        StableChildren(q, Not(e.expr.left));
        StableChildren(q, Not(e.expr.right));
      } else {
        assert next in Children(e) || next.Literal?;
      }
    }
  }

  lemma {:induction false} FixPreserves(pass: ValuePass, q: ValuePass, e: Expr)
    requires Preserves(pass, q) && Stable(q, e)
    ensures Stable(q, Fix(pass, e))
    decreases Weight(pass, e)
  {
    var next := Step(pass, e);
    StepPreserves(pass, q, e);
    if next != e {
      StepLosesWeight(pass, e);
      FixPreserves(pass, q, next);
    }
  }

  /** What the earlier normal form asks of a node's children is kept when a child is rewritten. */
  predicate Alike(q: ValuePass, kid: Expr, r: Expr) {
    && (q == BooleanLiterals && r.Literal? ==> kid == r)
    && (q == CollapseWhen && r.Ternary? ==> kid.Ternary?)
  }

  lemma {:induction false} FixAlike(pass: ValuePass, q: ValuePass, e: Expr)
    requires Preserves(pass, q)
    ensures Alike(q, e, Fix(pass, e))
    decreases Weight(pass, e)
  {
    var next := Step(pass, e);
    if next != e {
      StepLosesWeight(pass, e);
      FixAlike(pass, q, next);
    }
  }

  lemma {:induction false} SweepAlike(pass: ValuePass, q: ValuePass, e: Expr)
    requires Preserves(pass, q)
    ensures Alike(q, e, Rewritten(pass, e))
  {
    var fixed := Fix(pass, e);
    ChildrenWeighLess(pass, fixed);
    FixAlike(pass, q, e);
    FixAlike(pass, q, ReplaceChildren(fixed, RewrittenAll(pass, Children(fixed))));
  }

  lemma {:induction false} RebuiltPreserves(pass: ValuePass, q: ValuePass, e: Expr, kids: seq<Expr>)
    requires Preserves(pass, q) && Stable(q, e) && |kids| == |Children(e)|
    requires forall i | 0 <= i < |kids| :: Stable(q, kids[i]) && Alike(q, Children(e)[i], kids[i])
    ensures Stable(q, ReplaceChildren(e, kids))
  {
    StableChildren(q, e);
    StableChildren(q, ReplaceChildren(e, kids));
    ReplacedChildren(e, kids);
  }

  /** A sweep of a later pass keeps the normal form of an earlier one throughout the tree. */
  lemma {:induction false} SweepPreserves(pass: ValuePass, q: ValuePass, e: Expr)
    requires Preserves(pass, q) && Stable(q, e)
    ensures Stable(q, Rewritten(pass, e))
    decreases Weight(pass, e), 0
  {
    var fixed := Fix(pass, e);
    ChildrenWeighLess(pass, fixed);
    var kids := RewrittenAll(pass, Children(fixed));
    FixPreserves(pass, q, e);
    StableChildren(q, fixed);
    SweepsPreserve(pass, q, Children(fixed));
    RebuiltPreserves(pass, q, fixed, kids);
    FixPreserves(pass, q, ReplaceChildren(fixed, kids));
  }

  lemma {:induction false} SweepsPreserve(pass: ValuePass, q: ValuePass, es: seq<Expr>)
    requires Preserves(pass, q) && forall e | e in es :: Stable(q, e)
    ensures forall i | 0 <= i < |es| ::
              Stable(q, RewrittenAll(pass, es)[i]) && Alike(q, es[i], RewrittenAll(pass, es)[i])
    decreases SumWeight(pass, es), 1
  {
    if es != [] {
      SweepPreserves(pass, q, es[0]);
      SweepAlike(pass, q, es[0]);
      SweepsPreserve(pass, q, es[1..]);
    }
  }

  // --- The conditional rewriter creates no DropNulls ---

  predicate DropFree(e: Expr) { Stable(StripDropNulls, e) }

  lemma {:induction false} ConditionalDropFree(p: Expr, t: Expr, f: Expr)
    requires DropFree(p) && DropFree(t) && DropFree(f)
    ensures DropFree(BooleanConditional(p, t, f))
  {
    StableChildren(StripDropNulls, Not(p));
    StableChildren(StripDropNulls, And(p, t));
    StableChildren(StripDropNulls, And(Not(p), f));
    StableChildren(StripDropNulls, BooleanConditional(p, t, f));
  }

  lemma {:induction false} WhenToBoolDropFree(e: Expr, boolean: bool)
    requires DropFree(e)
    ensures DropFree(WhenToBool(e, boolean))
    decreases e
  {
    StableChildren(StripDropNulls, e);
    forall kid, b | kid in Children(e) ensures DropFree(WhenToBool(kid, b)) {
      WhenToBoolDropFree(kid, b);
    }
    if boolean && IsValidBooleanTernary(e) {
      assert e.pred in Children(e) && e.truthy in Children(e) && e.falsy in Children(e);
      ConditionalDropFree(WhenToBool(e.pred, true), WhenToBool(e.truthy, true), WhenToBool(e.falsy, true));
    } else {
      var r := WhenToBool(e, boolean);
      forall i | 0 <= i < |Children(r)| ensures DropFree(Children(r)[i]) {
        var b := !IsDropNulls(e) && KidUse(e, boolean, IsValidBooleanTernary(e), i);
        assert Children(e)[i] in Children(e) && DropFree(WhenToBool(Children(e)[i], b));
        assert Children(r)[i] == WhenToBool(Children(e)[i], b);
      }
      StableChildren(StripDropNulls, r);
    }
  }

  lemma {:induction false} BecomesDropFree(e: Expr, shared: bool, r: Expr)
    requires DropFree(e) && Becomes(e, shared, r)
    ensures DropFree(r)
    decreases e
  {
    StableChildren(StripDropNulls, e);
    StableChildren(StripDropNulls, r);
    assert forall i | 0 <= i < |Children(e)| :: Children(e)[i] in Children(e);
    if IsAnd(e) || IsOr(e) {
      assert Children(e)[0] == e.left && Children(e)[1] == e.right;
      BecomesDropFree(e.left, shared, r.left);
      BecomesDropFree(e.right, shared, r.right);
    } else if IsValidBooleanTernary(e) {
      assert Children(e)[0] == e.pred && Children(e)[1] == e.truthy && Children(e)[2] == e.falsy;
      WhenToBoolDropFree(e.pred, true);
      if r.Ternary? {
        BecomesDropFree(e.truthy, shared, r.truthy);
        BecomesDropFree(e.falsy, shared, r.falsy);
      } else {
        BecomesDropFree(e.truthy, shared, r.left.right);
        BecomesDropFree(e.falsy, shared, r.right.right);
        ConditionalDropFree(r.left.left, r.left.right, r.right.right);
      }
    } else {
      WhenToBoolDropFree(e, true);
    }
  }

  lemma {:induction false} BooleanRewrittenDropFree(root: Expr)
    ensures DropFree(BooleanRewritten(root))
  {
    var filter := Rewritten(UnwrapDropNulls, root);
    var rs := BooleanRewriting(root);
    SweepIsStable(UnwrapDropNulls, root);
    SameNormalForm(filter);
    WhenToBoolDropFree(filter, true);
    forall i | 0 <= i < |rs| ensures DropFree(rs[i]) {
      var x := DroppedOperands(root)[i];
      assert CheckBecomes(DroppedUses(root, true), x, rs[i]);
      SweepIsStable(StripDropNulls, x);
      if rs[i] == WhenToBool(Rewritten(StripDropNulls, x), false) {
        WhenToBoolDropFree(Rewritten(StripDropNulls, x), false);
      } else {
        BecomesDropFree(Rewritten(StripDropNulls, x), Stable(UnwrapDropNulls, x), rs[i]);
      }
    }
    ConjoinedDropFree(WhenToBool(filter, true), rs);
  }

  // --- The whole rewriter ---

  /** In the rewritten predicate there is no DropNulls, no connective with a literal that folding could use, no
      conditional in the falsy branch of another, and no negated disjunction. */
  lemma {:induction false} RewrittenIsNormal(root: Expr, e: Expr)
    requires e == RewrittenIr(root)
    ensures Stable(StripDropNulls, e) && Stable(BooleanLiterals, e) && Stable(CollapseWhen, e) && Stable(DeMorgan, e)
  {
    var e2 := BooleanRewritten(root);
    var e3 := Rewritten(BooleanLiterals, e2);
    var e4 := Rewritten(CollapseWhen, e3);
    PassOrder(root);
    BooleanRewrittenDropFree(root);
    SweepPreserves(BooleanLiterals, StripDropNulls, e2);
    SweepIsStable(BooleanLiterals, e2);
    SweepPreserves(CollapseWhen, StripDropNulls, e3);
    SweepPreserves(CollapseWhen, BooleanLiterals, e3);
    SweepIsStable(CollapseWhen, e3);
    SweepPreserves(DeMorgan, StripDropNulls, e4);
    SweepPreserves(DeMorgan, BooleanLiterals, e4);
    SweepPreserves(DeMorgan, CollapseWhen, e4);
    SweepIsStable(DeMorgan, e4);
  }
}
