/** `rewrite_drop_nulls`: DropNulls becomes its operand, and a top-level IsNotNull per dropped operand. */
module DropNullsPass {
  import opened Values
  import opened Ir
  import opened NodeRewriters
  import opened TreeRewriter
  import opened Objects
  import opened RewriteLoops
  import opened Unwrapping
  import opened ExactPasses
  import opened NormalForms

  /** The filter with an IsNotNull of each check conjoined, in order. */
  function Conjoined(result: Expr, checks: seq<Expr>): Expr
    decreases |checks|
  {
    if checks == [] then result
    else
      var last := |checks| - 1;
      And(Conjoined(result, checks[..last]), IsNotNull(checks[last]))
  }

  function DroppedOperands(root: Expr): seq<Expr> {
    CollectedBreadthFirst(UnwrapDropNulls, [root])
  }

  /** The dropped operands without the DropNulls within them. */
  function Cleaned(operands: seq<Expr>): (checks: seq<Expr>)
    ensures |checks| == |operands|
    ensures forall i | 0 <= i < |operands| :: checks[i] == Rewritten(StripDropNulls, operands[i])
  {
    seq(|operands|, i requires 0 <= i < |operands| => Rewritten(StripDropNulls, operands[i]))
  }

  function DropNullsRewritten(root: Expr): Expr {
    Conjoined(Rewritten(UnwrapDropNulls, root), Cleaned(DroppedOperands(root)))
  }

  // --- The objects ---

  /** A dropped operand, stripped by a sweep of its own. */
  function CleanedObject(dropped: Object, i: nat): Object { SweptObject(Sweep(StripDropNulls, i), dropped, {}) }

  function CheckObject(dropped: Object, i: nat): Object {
    var cleaned := CleanedObject(dropped, i);
    Object1(Check(i), IsNotNull(cleaned.expr), cleaned)
  }

  function JoinedObject(rest: Object, check: Object, i: nat): (n: Object)
    ensures n.expr == And(rest.expr, check.expr)
  {
    Object2(Conjunct(i), And(rest.expr, check.expr), rest, check)
  }

  function ConjoinedObject(filter: Object, dropped: seq<Object>): Object
    decreases |dropped|
  {
    if dropped == [] then filter
    else
      var last := |dropped| - 1;
      JoinedObject(ConjoinedObject(filter, dropped[..last]), CheckObject(dropped[last], last), last)
  }

  function DropNullsObject(root: Object): Object {
    ConjoinedObject(SweptObject(UNWRAP, root, {}), SweptDropped(UNWRAP, root, {}))
  }

  lemma {:induction false} ConjoinedObjectValue(filter: Object, dropped: seq<Object>)
    ensures ConjoinedObject(filter, dropped).expr == Conjoined(filter.expr, Cleaned(Exprs(dropped)))
    decreases |dropped|
  {
    if dropped != [] {
      var last := |dropped| - 1;
      ConjoinedObjectValue(filter, dropped[..last]);
      CheckObjectValue(dropped[last], last);
      CleanedFront(Exprs(dropped), last);
      assert Exprs(dropped[..last]) == Exprs(dropped)[..last];
    }
  }

  lemma {:induction false} CheckObjectValue(dropped: Object, i: nat)
    ensures CheckObject(dropped, i).expr == IsNotNull(Rewritten(StripDropNulls, dropped.expr))
  {
    SweptIsRewritten(Sweep(StripDropNulls, i), dropped, {});
  }

  lemma {:induction false} CleanedFront(operands: seq<Expr>, last: nat)
    requires last <= |operands|
    ensures Cleaned(operands[..last]) == Cleaned(operands)[..last]
  {
  }

  lemma {:induction false} DropNullsObjectValue(root: Object)
    ensures DropNullsObject(root).expr == DropNullsRewritten(root.expr)
    ensures Exprs(SweptDropped(UNWRAP, root, {})) == DroppedOperands(root.expr)
  {
    SweptIsRewritten(UNWRAP, root, {});
    ConjoinedObjectValue(SweptObject(UNWRAP, root, {}), SweptDropped(UNWRAP, root, {}));
  }

  lemma {:induction false} ConjoinedNext(filter: Object, dropped: seq<Object>, i: nat)
    requires i < |dropped|
    ensures ConjoinedObject(filter, dropped[..i + 1])
         == JoinedObject(ConjoinedObject(filter, dropped[..i]), CheckObject(dropped[i], i), i)
  {
    assert dropped[..i + 1][..i] == dropped[..i];
  }

  method CheckDropped(dropped: Object, i: nat) returns (check: Object)
    ensures check == CheckObject(dropped, i)
  {
    var cleaned, none, visits := RewriteTree(Sweep(StripDropNulls, i), dropped, {});
    check := Object1(Check(i), IsNotNull(cleaned.expr), cleaned);
  }

  method ConjoinChecks(filter: Object, notNullExprs: seq<Object>) returns (result: Object)
    ensures result == ConjoinedObject(filter, notNullExprs)
  {
    result := filter;
    for i := 0 to |notNullExprs|
      invariant result == ConjoinedObject(filter, notNullExprs[..i])
    {
      var check := CheckDropped(notNullExprs[i], i);
      ConjoinedNext(filter, notNullExprs, i);
      result := JoinedObject(result, check, i);
    }
    assert notNullExprs[..|notNullExprs|] == notNullExprs;
  }

  method RewriteDropNulls(root: Object) returns (result: Object)
    ensures result == DropNullsObject(root) && result.expr == DropNullsRewritten(root.expr)
  {
    var filter, notNullExprs, visits := RewriteTree(UNWRAP, root, {});
    result := ConjoinChecks(filter, notNullExprs);
    DropNullsObjectValue(root);
  }

  // --- Meaning ---

  /** Polars drops a row on which the operand of some DropNulls is NULL. */
  function DropHolds(env: Env): Expr -> bool {
    (n: Expr) => IsDropNulls(n) ==> Eval(n.expr, env) != Null
  }

  predicate DropsHold(e: Expr, env: Env) {
    Everywhere(e, DropHolds(env))
  }

  /** The rows a filter keeps. */
  predicate Keeps(root: Expr, env: Env) {
    Eval(root, env) == TRUE && DropsHold(root, env)
  }

  predicate NoneNull(es: seq<Expr>, env: Env) {
    forall e | e in es :: Eval(e, env) != Null
  }

  lemma {:induction false} ConjoinedValue(result: Expr, checks: seq<Expr>, env: Env)
    ensures Eval(Conjoined(result, checks), env) == TRUE <==> Eval(result, env) == TRUE && NoneNull(checks, env)
    decreases |checks|
  {
    if checks != [] {
      var last := |checks| - 1;
      ConjoinedValue(result, checks[..last], env);
      CheckValue(Conjoined(result, checks[..last]), checks[last], env);
      assert checks == checks[..last] + [checks[last]];
    }
  }

  lemma {:induction false} CleanedValues(operands: seq<Expr>, env: Env)
    ensures NoneNull(Cleaned(operands), env) <==> NoneNull(operands, env)
  {
    var checks := Cleaned(operands);
    forall i | 0 <= i < |operands| ensures Eval(checks[i], env) == Eval(operands[i], env) {
      SweepKeepsValue(StripDropNulls, operands[i], env);
    }
    assert forall i | 0 <= i < |operands| :: checks[i] in checks && operands[i] in operands;
  }

  lemma {:induction false} CheckValue(result: Expr, cleaned: Expr, env: Env)
    ensures Eval(And(result, IsNotNull(cleaned)), env) == TRUE
         <==> Eval(result, env) == TRUE && Eval(cleaned, env) != Null
  {
    assert Eval(IsNotNull(cleaned), env) == Bool(Eval(cleaned, env) != Null);
  }

  lemma {:induction false} FixDrops(e: Expr, env: Env)
    ensures DropsHold(e, env) ==>
              DropsHold(Fix(UnwrapDropNulls, e), env) && NoneNull(FixCollected(UnwrapDropNulls, e), env)
    ensures !HasUnsupported(e) ==>
              !HasUnsupported(Fix(UnwrapDropNulls, e))
              && (DropsHold(Fix(UnwrapDropNulls, e), env) && NoneNull(FixCollected(UnwrapDropNulls, e), env)
                  ==> DropsHold(e, env))
    decreases Weight(UnwrapDropNulls, e)
  {
    if IsDropNulls(e) {
      var next := Step(UnwrapDropNulls, e);
      NotItsOwnOperand(e);
      StepLosesWeight(UnwrapDropNulls, e);
      FixDrops(next, env);
      assert e.expr in Children(e) && DropHolds(env)(e) == (Eval(e.expr, env) != Null);
    }
  }

  /** A kept row has no NULL among the collected operands; without unsupported nodes, conversely, the
      collected operands account for every DropNulls. */
  lemma {:induction false} CollectedDrops(e: Expr, env: Env)
    ensures DropsHold(e, env) ==> NoneNull(CollectedIn(UnwrapDropNulls, e), env)
    ensures !HasUnsupported(e) && NoneNull(CollectedIn(UnwrapDropNulls, e), env) ==> DropsHold(e, env)
    decreases Weight(UnwrapDropNulls, e), 0
  {
    var fixed := Fix(UnwrapDropNulls, e);
    ChildrenWeighLess(UnwrapDropNulls, fixed);
    FixDrops(e, env);
    CollectedDropsAll(Children(fixed), env);
    NormalIffFixed(UnwrapDropNulls, fixed);
    assert DropHolds(env)(fixed);
  }

  lemma {:induction false} CollectedDropsAll(es: seq<Expr>, env: Env)
    ensures (forall e | e in es :: DropsHold(e, env)) ==> NoneNull(CollectedInAll(UnwrapDropNulls, es), env)
    ensures (forall e | e in es :: !HasUnsupported(e)) && NoneNull(CollectedInAll(UnwrapDropNulls, es), env)
        ==> forall e | e in es :: DropsHold(e, env)
    decreases SumWeight(UnwrapDropNulls, es), 1
  {
    if es != [] {
      CollectedDrops(es[0], env);
      CollectedDropsAll(es[1..], env);
      assert es == [es[0]] + es[1..];
    }
  }

  lemma {:induction false} DroppedOperandsAre(root: Expr, env: Env)
    ensures NoneNull(DroppedOperands(root), env) <==> NoneNull(CollectedIn(UnwrapDropNulls, root), env)
  {
    var found := CollectedIn(UnwrapDropNulls, root);
    BreadthFirstCollectsTheSame(UnwrapDropNulls, [root]);
    assert CollectedInAll(UnwrapDropNulls, [root]) == found + [];
    assert forall x :: x in DroppedOperands(root) <==> x in multiset(DroppedOperands(root));
    assert forall x :: x in found <==> x in multiset(found);
  }

  /** The rewritten predicate is TRUE on every row the filter keeps, and, when nothing is unsupported,
      on no other row. */
  lemma {:induction false} DropNullsKeepsRows(root: Expr, env: Env)
    ensures Keeps(root, env) ==> Eval(DropNullsRewritten(root), env) == TRUE
    ensures !HasUnsupported(root) && Eval(DropNullsRewritten(root), env) == TRUE ==> Keeps(root, env)
  {
    SweepKeepsValue(UnwrapDropNulls, root, env);
    ConjoinedValue(Rewritten(UnwrapDropNulls, root), Cleaned(DroppedOperands(root)), env);
    CleanedValues(DroppedOperands(root), env);
    DroppedOperandsAre(root, env);
    CollectedDrops(root, env);
  }

  lemma {:induction false} ConjoinedDropFree(result: Expr, checks: seq<Expr>)
    requires Stable(StripDropNulls, result) && forall c | c in checks :: Stable(StripDropNulls, c)
    ensures Stable(StripDropNulls, Conjoined(result, checks))
    decreases |checks|
  {
    if checks != [] {
      var last := |checks| - 1;
      ConjoinedDropFree(result, checks[..last]);
      StableChildren(StripDropNulls, IsNotNull(checks[last]));
      StableChildren(StripDropNulls, Conjoined(result, checks));
    }
  }

  lemma {:induction false} SameNormalForm(e: Expr)
    requires Stable(UnwrapDropNulls, e)
    ensures Stable(StripDropNulls, e)
    decreases e
  {
    StableChildren(UnwrapDropNulls, e);
    StableChildren(StripDropNulls, e);
    forall kid | kid in Children(e) ensures Stable(StripDropNulls, kid) {
      SameNormalForm(kid);
    }
  }

  /** No DropNulls is left anywhere. */
  lemma {:induction false} DropNullsGone(root: Expr)
    ensures Stable(StripDropNulls, DropNullsRewritten(root))
  {
    SweepIsStable(UnwrapDropNulls, root);
    SameNormalForm(Rewritten(UnwrapDropNulls, root));
    forall i | 0 <= i < |DroppedOperands(root)| ensures Stable(StripDropNulls, Cleaned(DroppedOperands(root))[i]) {
      SweepIsStable(StripDropNulls, DroppedOperands(root)[i]);
    }
    ConjoinedDropFree(Rewritten(UnwrapDropNulls, root), Cleaned(DroppedOperands(root)));
  }
}
