/** `rewrite_boolean_when`: the marks, as a recursion on the position of a node, and exactly when
    replacing a conditional by `(p & t) | (~p & f)` keeps its value, or at least keeps the row. */
module Conditionals {
  import opened Values
  import opened Ir
  import opened NodeRewriters

  /** The pass as a recursion: a conditional used as a boolean becomes connectives; a predicate is
      always used as a boolean; `&` and `|` pass their own use on to both operands. */
  function WhenToBool(e: Expr, boolean: bool): Expr
    decreases e, 1
  {
    match e
    case Unsupported(m, operands) => Unsupported(m, WhenToBoolAll(operands))
    case Column(_) => e
    case Literal(_) => e
    case Unary(op, x) => Unary(op, WhenToBool(x, false))
    case Binary(op, l, r) =>
      var down := boolean && (op == AndOp || op == OrOp);
      Binary(op, WhenToBool(l, down), WhenToBool(r, down))
    case Ternary(p, t, f) =>
      if boolean && IsValidBooleanTernary(e) then
        BooleanConditional(WhenToBool(p, true), WhenToBool(t, true), WhenToBool(f, true))
      else
        Ternary(WhenToBool(p, true), WhenToBool(t, false), WhenToBool(f, false))
    case Variadic(op, operands) => Variadic(op, WhenToBoolAll(operands))
  }

  function WhenToBoolAll(es: seq<Expr>): (rs: seq<Expr>)
    ensures |rs| == |es| && forall i | 0 <= i < |es| :: rs[i] == WhenToBool(es[i], false)
    decreases es, 0
  {
    if es == [] then [] else [WhenToBool(es[0], false)] + WhenToBoolAll(es[1..])
  }

  /** Whether a child of a node is used as a boolean: both operands of a connective if the node is; a predicate
      always; the branches of a conditional if it is to be rewritten. DropNulls passes its own use on. */
  predicate KidUse(e: Expr, boolean: bool, valid: bool, i: nat) {
    if IsDropNulls(e) || IsAnd(e) || IsOr(e) then boolean else e.Ternary? && (i == 0 || (boolean && valid))
  }

  /** A node that is not rewritten is rebuilt over its rewritten children. */
  lemma {:induction false} WhenToBoolUnchanged(e: Expr, boolean: bool, rs: seq<Expr>)
    requires !(boolean && IsValidBooleanTernary(e)) && !IsDropNulls(e) && |rs| == |Children(e)|
    requires forall i | 0 <= i < |rs| ::
               rs[i] == WhenToBool(Children(e)[i], KidUse(e, boolean, IsValidBooleanTernary(e), i))
    ensures ReplaceChildren(e, rs) == WhenToBool(e, boolean)
  {
    match e
    case Unsupported(_, operands) => assert rs == WhenToBoolAll(operands);
    case Variadic(_, operands) => assert rs == WhenToBoolAll(operands);
    case _ =>
  }

  // --- One sweep is enough ---

  /** No conditional that is used as a boolean could still be rewritten. */
  predicate NoneLeft(e: Expr, boolean: bool)
    decreases e, 1
  {
    && !(boolean && IsValidBooleanTernary(e))
    && forall i | 0 <= i < |Children(e)| :: NoneLeftAt(e, boolean, i)
  }

  predicate NoneLeftAt(e: Expr, boolean: bool, i: nat)
    requires i < |Children(e)|
    decreases e, 0
  {
    assert Children(e)[i] in Children(e);
    NoneLeft(Children(e)[i], !IsDropNulls(e) && KidUse(e, boolean, IsValidBooleanTernary(e), i))
  }

  lemma {:induction false} NoneLeftUnused(e: Expr, boolean: bool)
    requires NoneLeft(e, boolean)
    ensures NoneLeft(e, false)
    decreases e
  {
    forall i | 0 <= i < |Children(e)| ensures NoneLeftAt(e, false, i) {
      assert NoneLeftAt(e, boolean, i) && Children(e)[i] in Children(e);
      if IsAnd(e) || IsOr(e) || (e.Ternary? && i > 0) {
        NoneLeftUnused(Children(e)[i], !IsDropNulls(e) && KidUse(e, boolean, IsValidBooleanTernary(e), i));
      }
    }
  }

  /** A conditional that is not rewritten is as valid as before. */
  lemma {:induction false} ShapeKept(e: Expr)
    ensures NoNullPredicate(WhenToBool(e, false)) == NoNullPredicate(e)
    ensures HasNonNullLeaf(WhenToBool(e, false)) == HasNonNullLeaf(e)
    decreases e
  {
    if e.Ternary? {
      ShapeKept(e.truthy);
      ShapeKept(e.falsy);
    }
  }

  lemma {:induction false} ArmsNoneLeft(p: Expr, t: Expr, f: Expr)
    requires NoneLeft(p, true) && NoneLeft(t, true) && NoneLeft(f, true)
    ensures NoneLeft(BooleanConditional(p, t, f), true)
  {
    NoneLeftUnused(p, true);
    assert NoneLeftAt(Not(p), true, 0) && NoneLeft(Not(p), true);
    assert NoneLeftAt(And(p, t), true, 0) && NoneLeftAt(And(p, t), true, 1);
    assert NoneLeftAt(And(Not(p), f), true, 0) && NoneLeftAt(And(Not(p), f), true, 1);
    assert NoneLeftAt(BooleanConditional(p, t, f), true, 0) && NoneLeftAt(BooleanConditional(p, t, f), true, 1);
  }

  lemma {:induction false} RebuiltNoneLeft(e: Expr, boolean: bool, r: Expr)
    requires r == WhenToBool(e, boolean) && !(boolean && IsValidBooleanTernary(e))
    requires |Children(r)| == |Children(e)| && IsDropNulls(r) == IsDropNulls(e)
    requires IsAnd(r) == IsAnd(e) && IsOr(r) == IsOr(e) && r.Ternary? == e.Ternary?
    requires forall i | 0 <= i < |Children(e)| ::
               NoneLeft(Children(r)[i], !IsDropNulls(e) && KidUse(e, boolean, IsValidBooleanTernary(e), i))
    ensures NoneLeft(r, boolean)
  {
    if e.Ternary? {
      ShapeKept(e.truthy);
      ShapeKept(e.falsy);
    }
    assert boolean ==> IsValidBooleanTernary(r) == IsValidBooleanTernary(e);
    forall i | 0 <= i < |Children(r)| ensures NoneLeftAt(r, boolean, i) {
    }
  }

  /** One sweep leaves no conditional that a second one would rewrite. */
  lemma {:induction false} WhenToBoolLeavesNone(e: Expr, boolean: bool)
    ensures NoneLeft(WhenToBool(e, boolean), boolean)
    decreases e
  {
    if boolean && IsValidBooleanTernary(e) {
      WhenToBoolLeavesNone(e.pred, true);
      WhenToBoolLeavesNone(e.truthy, true);
      WhenToBoolLeavesNone(e.falsy, true);
      ArmsNoneLeft(WhenToBool(e.pred, true), WhenToBool(e.truthy, true), WhenToBool(e.falsy, true));
    } else {
      var r := WhenToBool(e, boolean);
      forall i | 0 <= i < |Children(e)|
        ensures |Children(r)| == |Children(e)|
        ensures NoneLeft(Children(r)[i], !IsDropNulls(e) && KidUse(e, boolean, IsValidBooleanTernary(e), i))
      {
        assert Children(e)[i] in Children(e);
        WhenToBoolLeavesNone(Children(e)[i], !IsDropNulls(e) && KidUse(e, boolean, IsValidBooleanTernary(e), i));
      }
      RebuiltNoneLeft(e, boolean, r);
    }
  }

  /** And where none is left, a sweep changes nothing. */
  lemma {:induction false} NoneLeftIsLeftAlone(e: Expr, boolean: bool)
    requires NoneLeft(e, boolean)
    ensures WhenToBool(e, boolean) == e
    decreases e
  {
    forall i | 0 <= i < |Children(e)|
      ensures WhenToBool(Children(e)[i], !IsDropNulls(e) && KidUse(e, boolean, IsValidBooleanTernary(e), i))
           == Children(e)[i]
    {
      assert NoneLeftAt(e, boolean, i) && Children(e)[i] in Children(e);
      NoneLeftIsLeftAlone(Children(e)[i], !IsDropNulls(e) && KidUse(e, boolean, IsValidBooleanTernary(e), i));
    }
    if IsDropNulls(e) {
      assert Children(e)[0] == e.expr;
    } else {
      WhenToBoolUnchanged(e, boolean, Children(e));
      ReplacedChildren(e, Children(e));
    }
  }

  // --- Conditionals that occur twice ---

  /** What may become of an operand that is used as a boolean and occurs again beneath a check for NULL. There it
      has the mark of its other occurrence only if it came out of `rewrite_drop_nulls` unchanged, and where the
      mark comes too late for its branches it is only rewritten over branches that have not changed. `shared`
      says that the object occurs in both places: then it is rewritten unless something beneath it is. */
  predicate Becomes(e: Expr, shared: bool, r: Expr)
    decreases e
  {
    if IsAnd(e) || IsOr(e) then
      r.Binary? && r.bop == e.bop && Becomes(e.left, shared, r.left) && Becomes(e.right, shared, r.right)
    else if IsValidBooleanTernary(e) then
      if r.Ternary? then
        && r.pred == WhenToBool(e.pred, true) && Becomes(e.truthy, shared, r.truthy)
        && Becomes(e.falsy, shared, r.falsy)
        && !(shared && r == e)
      else
        && IsBooleanConditional(r) && r.left.left == WhenToBool(e.pred, true)
        && Becomes(e.truthy, shared, r.left.right) && Becomes(e.falsy, shared, r.right.right)
    else r == WhenToBool(e, true)
  }

  predicate IsBooleanConditional(r: Expr) {
    && IsOr(r) && IsAnd(r.left) && IsAnd(r.right) && IsNot(r.right.left) && r.right.left.expr == r.left.left
  }

  lemma {:induction false} BecomesWhenToBool(e: Expr, shared: bool)
    ensures Becomes(e, shared, WhenToBool(e, true))
    decreases e
  {
    if IsAnd(e) || IsOr(e) {
      BecomesWhenToBool(e.left, shared);
      BecomesWhenToBool(e.right, shared);
    } else if IsValidBooleanTernary(e) {
      BecomesWhenToBool(e.truthy, shared);
      BecomesWhenToBool(e.falsy, shared);
    }
  }

  lemma {:induction false} BecomesUnshared(e: Expr, shared: bool, r: Expr)
    requires Becomes(e, shared, r)
    ensures Becomes(e, false, r)
    decreases e
  {
    if IsAnd(e) || IsOr(e) {
      BecomesUnshared(e.left, shared, r.left);
      BecomesUnshared(e.right, shared, r.right);
    } else if IsValidBooleanTernary(e) {
      if r.Ternary? {
        BecomesUnshared(e.truthy, shared, r.truthy);
        BecomesUnshared(e.falsy, shared, r.falsy);
      } else {
        BecomesUnshared(e.truthy, shared, r.left.right);
        BecomesUnshared(e.falsy, shared, r.right.right);
      }
    }
  }

  // --- One conditional ---

  /** The value of `(p & t) | (~p & f)`. */
  function ConnectiveValue(p: Value, t: Value, f: Value): Value {
    KleeneOr(KleeneAnd(p, t), KleeneAnd(KleeneNot(p), f))
  }

  lemma {:induction false} ConnectivesValue(p: Expr, t: Expr, f: Expr, env: Env)
    ensures Eval(BooleanConditional(p, t, f), env) == ConnectiveValue(Eval(p, env), Eval(t, env), Eval(f, env))
  {
    assert Eval(Not(p), env) == KleeneNot(Eval(p, env));
    assert Eval(And(p, t), env) == KleeneAnd(Eval(p, env), Eval(t, env));
    assert Eval(And(Not(p), f), env) == KleeneAnd(KleeneNot(Eval(p, env)), Eval(f, env));
  }

  /** The condition for the connectives to have the conditional's value. */
  predicate SameValueOn(p: Value, t: Value, f: Value) {
    p.Bool? || (p == Null && (f == Null || (f == FALSE && t == FALSE)))
  }

  /** The condition for the connectives to keep a row the conditional keeps. */
  predicate RowKeptOn(p: Value, f: Value) {
    p.Bool? || f != TRUE
  }

  lemma {:induction false} SameValueIff(p: Value, t: Value, f: Value)
    requires p.Bool? || p == Null
    ensures ConnectiveValue(p, t, f) == Choose(p, t, f) <==> SameValueOn(p, t, f)
  {
  }

  lemma {:induction false} RowKeptIff(p: Value, t: Value, f: Value)
    requires p.Bool? || p == Null
    ensures (Choose(p, t, f) == TRUE ==> ConnectiveValue(p, t, f) == TRUE) <==> RowKeptOn(p, f)
  {
  }
}
