/** The node rewriters of rewriter/boolean.py: what each does to one node, and why none can loop. */
module NodeRewriters {
  import opened Ir

  /** The rewriters handed to `rewrite_tree`. `UnwrapDropNulls` is the stateful rewriter of
      `rewrite_drop_nulls`, `StripDropNulls` the one that cleans the collected operands. */
  datatype Pass =
    | UnwrapDropNulls | StripDropNulls | BooleanWhen | BooleanLiterals | CollapseWhen | DeMorgan

  /** The rewriters that look at nothing but the node. `BooleanWhen` also looks at marks on nodes. */
  type ValuePass = pass: Pass | pass != BooleanWhen witness DeMorgan

  predicate IsFalsyLiteral(e: Expr) {
    IsBoolLiteral(e, false) || IsNullLiteral(e)
  }

  // A conditional is a valid boolean one unless, along its branches, some predicate is a NULL
  // literal or every leaf is.

  predicate NoNullPredicate(e: Expr) {
    e.Ternary? ==> !IsNullLiteral(e.pred) && NoNullPredicate(e.truthy) && NoNullPredicate(e.falsy)
  }

  predicate HasNonNullLeaf(e: Expr) {
    if e.Ternary? then HasNonNullLeaf(e.truthy) || HasNonNullLeaf(e.falsy) else !IsNullLiteral(e)
  }

  predicate IsValidBooleanTernary(e: Expr) {
    e.Ternary? && NoNullPredicate(e) && HasNonNullLeaf(e)
  }

  /** `(p & t) | (~p & f)`. */
  function BooleanConditional(p: Expr, t: Expr, f: Expr): Expr {
    Or(And(p, t), And(Not(p), f))
  }

  /** The literal that decides a connective: FALSE for AND, TRUE for OR. */
  function Absorbing(op: BinaryOp): Expr {
    BoolLiteral(op == OrOp)
  }

  /** What folding makes of a node: nothing new, one of its operands, or a literal. */
  datatype Folding = Keep | TakeLeft | TakeRight | Absorb

  function FoldingOf(e: Expr): Folding {
    if IsAnd(e) then
      if IsFalsyLiteral(e.left) || IsFalsyLiteral(e.right) then Absorb
      else if IsBoolLiteral(e.left, true) then TakeRight
      else if IsBoolLiteral(e.right, true) then TakeLeft
      else Keep
    else if IsOr(e) then
      if IsBoolLiteral(e.left, true) || IsBoolLiteral(e.right, true) then Absorb
      else if IsFalsyLiteral(e.left) then TakeRight
      else if IsFalsyLiteral(e.right) then TakeLeft
      else Keep
    else Keep
  }

  function FoldLiterals(e: Expr): Expr {
    match FoldingOf(e)
    case Keep => e
    case TakeLeft => e.left
    case TakeRight => e.right
    case Absorb => Absorbing(e.bop)
  }

  /** The operands of the CASE for a chain of conditionals. */
  function WhenOperands(e: Expr): seq<Expr> {
    if e.Ternary? then [e.pred, e.truthy] + WhenOperands(e.falsy) else [e]
  }

  /** One application of a pass's node rewriter. */
  function Step(pass: ValuePass, e: Expr): Expr {
    match pass
    case UnwrapDropNulls =>
      if !IsDropNulls(e) then e
      else if HasUnsupported(e.expr) then Unsupported(Replaced(e.expr), [])
      else e.expr
    case StripDropNulls => if IsDropNulls(e) then e.expr else e
    case BooleanLiterals => FoldLiterals(e)
    case CollapseWhen =>
      if e.Ternary? && e.falsy.Ternary? then Variadic(WhenOp, WhenOperands(e)) else e
    case DeMorgan =>
      if IsNot(e) && IsOr(e.expr) then And(Not(e.expr.left), Not(e.expr.right)) else e
  }

  /** One application of the rewriter of conditionals, to a node that is in `boolean_nodes` or not. */
  function BooleanStep(e: Expr, marked: bool): Expr {
    if marked && IsValidBooleanTernary(e) then BooleanConditional(e.pred, e.truthy, e.falsy) else e
  }

  /** The operands that one application adds to `not_null_exprs`. */
  function Collected(pass: ValuePass, e: Expr): seq<Expr> {
    if pass == UnwrapDropNulls && IsDropNulls(e) && !HasUnsupported(e.expr) then [e.expr] else []
  }

  // --- Termination weights ---

  /** A bound on the nodes a pass visits under `e`: the size of the tree, except that a pass which
      duplicates a conditional's predicate, or a negation, counts it twice. */
  function Weight(pass: Pass, e: Expr): (w: nat)
    ensures w >= 1
    decreases pass, e, 1
  {
    match e
    case Unsupported(_, operands) => 1 + SumWeight(pass, operands)
    case Column(_) => 1
    case Literal(_) => 1
    case Unary(op, x) => if pass == DeMorgan && op == NotOp then 2 * Weight(pass, x) else 1 + Weight(pass, x)
    case Binary(_, l, r) => 1 + Weight(pass, l) + Weight(pass, r)
    case Ternary(p, t, f) =>
      if pass == BooleanWhen then 2 * Weight(pass, p) + Weight(pass, t) + Weight(pass, f) + 5
      else 1 + Weight(pass, p) + Weight(pass, t) + Weight(pass, f)
    case Variadic(_, operands) => 1 + SumWeight(pass, operands)
  }

  function SumWeight(pass: Pass, es: seq<Expr>): nat
    decreases pass, es, 0
  {
    if es == [] then 0 else Weight(pass, es[0]) + SumWeight(pass, es[1..])
  }

  lemma {:induction false} SumWeightConcat(pass: Pass, es: seq<Expr>, fs: seq<Expr>)
    ensures SumWeight(pass, es + fs) == SumWeight(pass, es) + SumWeight(pass, fs)
  {
    if es == [] {
      assert es + fs == fs;
    } else {
      assert (es + fs)[1..] == es[1..] + fs;
      SumWeightConcat(pass, es[1..], fs);
    }
  }

  lemma {:induction false} SumWeightDisplays(pass: Pass, a: Expr, b: Expr, c: Expr)
    ensures SumWeight(pass, [a]) == Weight(pass, a)
    ensures SumWeight(pass, [a, b]) == Weight(pass, a) + Weight(pass, b)
    ensures SumWeight(pass, [a, b, c]) == Weight(pass, a) + Weight(pass, b) + Weight(pass, c)
  {
    SumWeightConcat(pass, [a], [b]);
    SumWeightConcat(pass, [a, b], [c]);
    assert [a] + [b] == [a, b] && [a, b] + [c] == [a, b, c];
    assert [a][1..] == [b][1..] == [c][1..] == [];
  }

  lemma {:induction false} ChildrenWeighLess(pass: Pass, e: Expr)
    ensures SumWeight(pass, Children(e)) < Weight(pass, e)
  {
    match e
    case Unary(_, x) => SumWeightDisplays(pass, x, x, x);
    case Binary(_, l, r) => SumWeightDisplays(pass, l, r, r);
    case Ternary(p, t, f) => SumWeightDisplays(pass, p, t, f);
    case _ =>
  }

  lemma {:induction false} WhenOperandsWeight(e: Expr)
    ensures SumWeight(CollapseWhen, WhenOperands(e)) <= Weight(CollapseWhen, e)
    ensures e.Ternary? ==> SumWeight(CollapseWhen, WhenOperands(e)) < Weight(CollapseWhen, e)
  {
    if e.Ternary? {
      WhenOperandsWeight(e.falsy);
      SumWeightConcat(CollapseWhen, [e.pred, e.truthy], WhenOperands(e.falsy));
      SumWeightDisplays(CollapseWhen, e.pred, e.truthy, e);
    } else {
      SumWeightDisplays(CollapseWhen, e, e, e);
    }
  }

  /** Every rewriting step loses weight, so no node rewriter can be applied forever. */
  lemma {:induction false} StepLosesWeight(pass: ValuePass, e: Expr)
    requires Step(pass, e) != e
    ensures Weight(pass, Step(pass, e)) < Weight(pass, e)
  {
    if pass == CollapseWhen {
      WhenOperandsWeight(e.falsy);
      SumWeightConcat(CollapseWhen, [e.pred, e.truthy], WhenOperands(e.falsy));
      SumWeightDisplays(CollapseWhen, e.pred, e.truthy, e);
    }
  }

  lemma {:induction false} BooleanStepLosesWeight(e: Expr, marked: bool)
    requires BooleanStep(e, marked) != e
    ensures Weight(BooleanWhen, BooleanStep(e, marked)) < Weight(BooleanWhen, e)
  {
    assert Weight(BooleanWhen, Not(e.pred)) == 1 + Weight(BooleanWhen, e.pred);
  }

  /** Applying the node rewriter until nothing changes. */
  function Fix(pass: ValuePass, e: Expr): (fixed: Expr)
    ensures Step(pass, fixed) == fixed
    ensures Weight(pass, fixed) <= Weight(pass, e)
    decreases Weight(pass, e)
  {
    var next := Step(pass, e);
    if next == e then e
    else
      StepLosesWeight(pass, e);
      Fix(pass, next)
  }

  /** The operands collected on the way to the fixed point. */
  function FixCollected(pass: ValuePass, e: Expr): seq<Expr>
    decreases Weight(pass, e)
  {
    var next := Step(pass, e);
    if next == e then []
    else
      StepLosesWeight(pass, e);
      Collected(pass, e) + FixCollected(pass, next)
  }

  // --- The node rewriters as the source runs them ---

  /** `has_descendant(Unsupported)`: breadth first over a queue. */
  method HasDescendantUnsupported(e: Expr) returns (found: bool)
    ensures found == HasUnsupported(e)
  {
    var queue := [e];
    ghost var pass: Pass :| true;  // any weight bounds the walk
    while queue != []
      invariant HasUnsupported(e) <==> exists x :: x in queue && HasUnsupported(x)
      decreases SumWeight(pass, queue)
    {
      var node := queue[0];
      if node.Unsupported? {
        assert node in queue && !IsSupported(node);
        return true;
      }
      ChildrenWeighLess(pass, node);
      SumWeightConcat(pass, queue[1..], Children(node));
      assert queue == [node] + queue[1..];
      assert HasUnsupported(node) <==> exists kid :: kid in Children(node) && HasUnsupported(kid);
      queue := queue[1..] + Children(node);
    }
    return false;
  }

  predicate AllWithoutNullPredicate(es: seq<Expr>) {
    forall x | x in es :: NoNullPredicate(x)
  }

  predicate AnyNonNullLeaf(es: seq<Expr>) {
    exists x :: x in es && HasNonNullLeaf(x)
  }

  lemma {:induction false} StackConcat(es: seq<Expr>, fs: seq<Expr>)
    ensures AnyNonNullLeaf(es + fs) <==> AnyNonNullLeaf(es) || AnyNonNullLeaf(fs)
    ensures AllWithoutNullPredicate(es + fs) <==> AllWithoutNullPredicate(es) && AllWithoutNullPredicate(fs)
  {
    assert forall x :: x in es + fs <==> x in es || x in fs;
  }

  lemma {:induction false} PushBranches(pass: Pass, rest: seq<Expr>, curr: Expr, pushed: seq<Expr>)
    requires pushed == (if curr.Ternary? then [curr.falsy, curr.truthy] else [])
    ensures AnyNonNullLeaf(rest + [curr])
       <==> AnyNonNullLeaf(rest + pushed) || (!curr.Ternary? && !IsNullLiteral(curr))
    ensures AllWithoutNullPredicate(rest + [curr])
       <==> AllWithoutNullPredicate(rest + pushed) && (curr.Ternary? ==> !IsNullLiteral(curr.pred))
    ensures SumWeight(pass, rest + pushed) < SumWeight(pass, rest + [curr])
  {
    SumWeightConcat(pass, rest, [curr]);
    SumWeightConcat(pass, rest, pushed);
    SumWeightDisplays(pass, curr, curr, curr);
    StackConcat(rest, [curr]);
    StackConcat(rest, pushed);
    assert curr in [curr];
    if curr.Ternary? {
      SumWeightDisplays(pass, curr.falsy, curr.truthy, curr);
      assert curr.falsy in pushed && curr.truthy in pushed;
    }
  }

  /** `_is_valid_boolean_ternary`: depth first over a stack. */
  method CheckBooleanTernary(e: Expr) returns (valid: bool)
    requires e.Ternary?
    ensures valid == IsValidBooleanTernary(e)
  {
    var stack := [e];
    ghost var pass: Pass :| true;  // any weight bounds the walk
    var hasNonNullLeaf := false;
    assert AllWithoutNullPredicate(stack) == NoNullPredicate(e);
    assert AnyNonNullLeaf(stack) == HasNonNullLeaf(e);
    while stack != []
      invariant NoNullPredicate(e) <==> AllWithoutNullPredicate(stack)
      invariant HasNonNullLeaf(e) <==> hasNonNullLeaf || AnyNonNullLeaf(stack)
      decreases SumWeight(pass, stack)
    {
      var curr, rest := stack[|stack| - 1], stack[..|stack| - 1];
      assert stack == rest + [curr];
      if curr.Ternary? {
        PushBranches(pass, rest, curr, [curr.falsy, curr.truthy]);
        if IsNullLiteral(curr.pred) {
          return false;
        }
        stack := rest + [curr.falsy] + [curr.truthy];
        assert stack == rest + [curr.falsy, curr.truthy];
      } else {
        PushBranches(pass, rest, curr, []);
        if !IsNullLiteral(curr) {
          hasNonNullLeaf := true;
        }
        assert rest + [] == rest;
        stack := rest;
      }
    }
    return hasNonNullLeaf;
  }
}
