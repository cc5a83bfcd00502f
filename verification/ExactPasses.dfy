/** The passes that keep every value on every row: unwrapping and stripping DropNulls, collapsing
    chains of conditionals into CASE, and De Morgan. */
module ExactPasses {
  import opened Values
  import opened Ir
  import opened NodeRewriters
  import opened TreeRewriter

  predicate KeepsValues(pass: ValuePass) {
    pass.UnwrapDropNulls? || pass.StripDropNulls? || pass.CollapseWhen? || pass.DeMorgan?
  }

  lemma {:induction false} EvalAllConcat(es: seq<Expr>, fs: seq<Expr>, env: Env)
    ensures EvalAll(es + fs, env) == EvalAll(es, env) + EvalAll(fs, env)
  {
    if es == [] {
      assert es + fs == fs;
    } else {
      assert (es + fs)[1..] == es[1..] + fs;
      EvalAllConcat(es[1..], fs, env);
    }
  }

  /** A CASE over the chain takes the branch the nested conditionals take. */
  lemma {:induction false} ChainValue(e: Expr, env: Env)
    ensures FirstTrue(EvalAll(WhenOperands(e), env)) == Eval(e, env)
  {
    if e.Ternary? {
      ChainValue(e.falsy, env);
      EvalAllConcat([e.pred, e.truthy], WhenOperands(e.falsy), env);
      var vs := EvalAll(WhenOperands(e), env);
      assert vs[0] == Eval(e.pred, env) && vs[1] == Eval(e.truthy, env);
      assert vs[2..] == EvalAll(WhenOperands(e.falsy), env);
      assert |WhenOperands(e.falsy)| > 0;
    }
  }

  lemma {:induction false} StepKeepsValue(pass: ValuePass, e: Expr, env: Env)
    requires KeepsValues(pass)
    ensures Eval(Step(pass, e), env) == Eval(e, env)
  {
    if pass.CollapseWhen? {
      ChainValue(e, env);
    }
    if pass.DeMorgan? && IsNot(e) && IsOr(e.expr) {
      DeMorganLaw(Eval(e.expr.left, env), Eval(e.expr.right, env));
    }
  }

  lemma {:induction false} FixKeepsValue(pass: ValuePass, e: Expr, env: Env)
    requires KeepsValues(pass)
    ensures Eval(Fix(pass, e), env) == Eval(e, env)
    decreases Weight(pass, e)
  {
    var next := Step(pass, e);
    if next != e {
      StepLosesWeight(pass, e);
      StepKeepsValue(pass, e, env);
      FixKeepsValue(pass, next, env);
    }
  }

  /** A whole sweep keeps the value of the tree on every row. */
  lemma {:induction false} SweepKeepsValue(pass: ValuePass, e: Expr, env: Env)
    requires KeepsValues(pass)
    ensures Eval(Rewritten(pass, e), env) == Eval(e, env)
    decreases Weight(pass, e), 0
  {
    var fixed := Fix(pass, e);
    ChildrenWeighLess(pass, fixed);
    FixKeepsValue(pass, e, env);
    SweepKeepsValues(pass, Children(fixed), env);
    var kids := RewrittenAll(pass, Children(fixed));
    EvalCongruence(fixed, kids, env);
    FixKeepsValue(pass, ReplaceChildren(fixed, kids), env);
  }

  lemma {:induction false} SweepKeepsValues(pass: ValuePass, es: seq<Expr>, env: Env)
    requires KeepsValues(pass)
    ensures EvalAll(RewrittenAll(pass, es), env) == EvalAll(es, env)
    decreases SumWeight(pass, es), 1
  {
    if es != [] {
      SweepKeepsValue(pass, es[0], env);
      SweepKeepsValues(pass, es[1..], env);
      var rs := RewrittenAll(pass, es);
      assert rs[0] == Rewritten(pass, es[0]) && rs[1..] == RewrittenAll(pass, es[1..]);
    }
  }
}
