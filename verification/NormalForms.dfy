/** What a sweep leaves behind: one sweep reaches the fixed point of the whole tree. */
module NormalForms {
  import opened Ir
  import opened NodeRewriters
  import opened TreeRewriter

  predicate IsFoldable(e: Expr) {
    IsFalsyLiteral(e) || IsBoolLiteral(e, true)
  }

  /** What a node looks like when the pass has nothing to do there. */
  predicate Normal(pass: ValuePass, n: Expr) {
    match pass
    case UnwrapDropNulls => !IsDropNulls(n)
    case StripDropNulls => !IsDropNulls(n)
    case BooleanLiterals => (IsAnd(n) || IsOr(n)) ==> !IsFoldable(n.left) && !IsFoldable(n.right)
    case CollapseWhen => !(n.Ternary? && n.falsy.Ternary?)
    case DeMorgan => !(IsNot(n) && IsOr(n.expr))
  }

  function NormalNode(pass: ValuePass): Expr -> bool {
    n => Normal(pass, n)
  }

  /** No node of the tree can be rewritten by the pass. */
  predicate Stable(pass: ValuePass, e: Expr) {
    Everywhere(e, NormalNode(pass))
  }

  lemma {:induction false} StableChildren(pass: ValuePass, e: Expr)
    ensures Stable(pass, e) <==> Normal(pass, e) && forall kid | kid in Children(e) :: Stable(pass, kid)
  {
    assert NormalNode(pass)(e) == Normal(pass, e);
  }

  lemma {:induction false} FoldedOperandDiffers(n: Expr)
    ensures n.Binary? ==> n.left != n && n.right != n
  {
    if n.Binary? {
      assert n.left < n && n.right < n;
    }
  }

  /** The normal nodes are exactly the fixed points of the node rewriter. */
  lemma {:induction false} NormalIffFixed(pass: ValuePass, n: Expr)
    ensures Normal(pass, n) <==> Step(pass, n) == n
  {
    NotItsOwnOperand(n);
    FoldedOperandDiffers(n);
  }

  /** A kind of node that a pass never creates out of another kind. */
  predicate NeverCreated(pass: ValuePass, e: Expr) {
    (pass == DeMorgan && IsOr(e)) || (pass == CollapseWhen && e.Ternary?)
  }

  lemma {:induction false} FixCreatesNone(pass: ValuePass, e: Expr)
    requires NeverCreated(pass, Fix(pass, e))
    ensures Fix(pass, e) == e
    decreases Weight(pass, e)
  {
    var next := Step(pass, e);
    if next != e {
      StepLosesWeight(pass, e);
      FixCreatesNone(pass, next);
    }
  }

  lemma {:induction false} SweepCreatesNone(pass: ValuePass, e: Expr)
    requires NeverCreated(pass, Rewritten(pass, e))
    ensures NeverCreated(pass, e)
  {
    var fixed := Fix(pass, e);
    ChildrenWeighLess(pass, fixed);
    var kids := RewrittenAll(pass, Children(fixed));
    FixCreatesNone(pass, ReplaceChildren(fixed, kids));
    FixCreatesNone(pass, e);
  }

  lemma {:induction false} NormalFixes(pass: ValuePass, e: Expr)
    requires Normal(pass, e)
    ensures Fix(pass, e) == e
  {
    NormalIffFixed(pass, e);
  }

  /** Folding over stable children yields a literal, a child, or the node itself. */
  lemma {:induction false} FoldOverStableChildren(g: Expr)
    requires forall kid | kid in Children(g) :: Stable(BooleanLiterals, kid)
    ensures Stable(BooleanLiterals, Fix(BooleanLiterals, g))
  {
    var next := FoldLiterals(g);
    StableChildren(BooleanLiterals, g);
    StableChildren(BooleanLiterals, next);
    NormalIffFixed(BooleanLiterals, g);
    if next != g {
      assert next == g.left || next == g.right || (next.Literal? && Children(next) == []);
      NormalFixes(BooleanLiterals, next);
    }
  }

  /** Rebuilding a normal node over stable children leaves the whole subtree stable. */
  lemma {:induction false} FixOverStableChildren(pass: ValuePass, g: Expr)
    requires forall kid | kid in Children(g) :: Stable(pass, kid)
    requires pass == BooleanLiterals || Normal(pass, g)
    ensures Stable(pass, Fix(pass, g))
  {
    if pass == BooleanLiterals {
      FoldOverStableChildren(g);
    } else {
      StableChildren(pass, g);
      NormalFixes(pass, g);
    }
  }

  /** A rebuilt node is as normal as it was, unless literals may have appeared beneath it. */
  lemma {:induction false} RebuiltIsNormal(pass: ValuePass, fixed: Expr)
    requires pass != BooleanLiterals && Normal(pass, fixed)
    ensures Normal(pass, ReplaceChildren(fixed, RewrittenAll(pass, Children(fixed))))
  {
    forall i | 0 <= i < |Children(fixed)|
      ensures NeverCreated(pass, RewrittenAll(pass, Children(fixed))[i]) ==> NeverCreated(pass, Children(fixed)[i])
    {
      RewrittenAllAt(pass, Children(fixed), i);
      if NeverCreated(pass, Rewritten(pass, Children(fixed)[i])) {
        SweepCreatesNone(pass, Children(fixed)[i]);
      }
    }
  }

  /** One sweep is enough: nothing in its result can be rewritten. */
  lemma {:induction false} SweepIsStable(pass: ValuePass, e: Expr)
    ensures Stable(pass, Rewritten(pass, e))
    decreases Weight(pass, e), 0
  {
    var fixed := Fix(pass, e);
    ChildrenWeighLess(pass, fixed);
    SweepsAreStable(pass, Children(fixed));
    var kids := RewrittenAll(pass, Children(fixed));
    ReplacedChildren(fixed, kids);
    NormalIffFixed(pass, fixed);
    if pass != BooleanLiterals {
      RebuiltIsNormal(pass, fixed);
    }
    FixOverStableChildren(pass, ReplaceChildren(fixed, kids));
  }

  lemma {:induction false} SweepsAreStable(pass: ValuePass, es: seq<Expr>)
    ensures forall kid | kid in RewrittenAll(pass, es) :: Stable(pass, kid)
    decreases SumWeight(pass, es), 1
  {
    if es != [] {
      SweepIsStable(pass, es[0]);
      SweepsAreStable(pass, es[1..]);
    }
  }

  /** A stable tree is left alone, so every pass is idempotent. */
  lemma {:induction false} StableIsLeftAlone(pass: ValuePass, e: Expr)
    requires Stable(pass, e)
    ensures Rewritten(pass, e) == e
    decreases Weight(pass, e), 0
  {
    StableChildren(pass, e);
    NormalFixes(pass, e);
    ChildrenWeighLess(pass, e);
    StableAreLeftAlone(pass, Children(e));
    ReplacedChildren(e, Children(e));
    NormalFixes(pass, e);
  }

  lemma {:induction false} StableAreLeftAlone(pass: ValuePass, es: seq<Expr>)
    requires forall e | e in es :: Stable(pass, e)
    ensures RewrittenAll(pass, es) == es
    decreases SumWeight(pass, es), 1
  {
    if es != [] {
      StableIsLeftAlone(pass, es[0]);
      StableAreLeftAlone(pass, es[1..]);
    }
  }
}
