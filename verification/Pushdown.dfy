/** The whole compiler, `rewrite_ir` then `ir_to_sql`: the emitted restriction never drops a row that the
    filter keeps, under the conditions stated here, and the rows it does drop without them. */
module Pushdown {
  import opened Values
  import opened Ir
  import opened NodeRewriters
  import opened TreeRewriter
  import opened ExactPasses
  import opened NormalForms
  import opened Objects
  import opened RewriteLoops
  import opened Unwrapping
  import opened SharedChecks
  import opened DropNullsPass
  import opened Conditionals
  import opened LiteralFolding
  import opened RowSafety
  import opened Sql
  import opened Emit
  import opened ColumnNames
  import opened CompileSql

  /** `_REWRITERS`, in order. */
  const REWRITERS: seq<Pass> := [UnwrapDropNulls, BooleanWhen, BooleanLiterals, CollapseWhen, DeMorgan]

  /** One pass over the objects; the root is marked before conditionals are rewritten. */
  function Applied(pass: Pass, n: Object): Object {
    if pass == UnwrapDropNulls then DropNullsObject(n)
    else SweptObject(Sweep(pass, 0), n, if pass == BooleanWhen then {n.id} else {})
  }

  function AppliedAll(passes: seq<Pass>, n: Object): Object
    decreases |passes|
  {
    if passes == [] then n else AppliedAll(passes[1..], Applied(passes[0], n))
  }

  function RewrittenIr(root: Expr): Expr {
    AppliedAll(REWRITERS, Labelled(root, [])).expr
  }

  method ApplyPass(pass: Pass, n: Object) returns (rewritten: Object)
    ensures rewritten == Applied(pass, n)
  {
    if pass == UnwrapDropNulls {
      rewritten := RewriteDropNulls(n);
    } else {
      var marks := if pass == BooleanWhen then {n.id} else {};
      var swept, dropped, visits := RewriteTree(Sweep(pass, 0), n, marks);
      rewritten := swept;
    }
  }

  /** `rewrite_ir`. */
  method RewriteIr(root: Expr) returns (rewritten: Expr)
    ensures rewritten == RewrittenIr(root)
  {
    var curr := Labelled(root, []);
    for i := 0 to |REWRITERS|
      invariant AppliedAll(REWRITERS[i..], curr) == AppliedAll(REWRITERS, Labelled(root, []))
    {
      assert REWRITERS[i..][1..] == REWRITERS[i + 1..];
      curr := ApplyPass(REWRITERS[i], curr);
    }
    assert REWRITERS[|REWRITERS|..] == [];
    rewritten := curr.expr;
  }

  function Restriction(root: Expr, u: Unicode): Result<Option<Sql>> {
    match Compiled(RewrittenIr(root), u)
    case Ok(emitted) => Ok(emitted.sql)
    case InvalidColumnName => InvalidColumnName
  }

  /** `_json_expr_to_row_restriction` behind the parser. */
  method PredicateToRowRestriction(root: Expr, u: Unicode) returns (r: Result<Option<Sql>>)
    ensures r == Restriction(root, u)
  {
    var rewritten := RewriteIr(root);
    r := IrToSql(rewritten, u);
  }

  // --- The value of the rewritten predicate ---

  lemma {:induction false} AppliedNext(pass: Pass, passes: seq<Pass>, n: Object)
    ensures AppliedAll([pass] + passes, n) == AppliedAll(passes, Applied(pass, n))
  {
    assert ([pass] + passes)[1..] == passes;
  }

  lemma {:induction false} AppliedFive(a: Pass, b: Pass, c: Pass, d: Pass, e: Pass, n: Object)
    ensures AppliedAll([a, b, c, d, e], n) == Applied(e, Applied(d, Applied(c, Applied(b, Applied(a, n)))))
  {
    assert [a] + [b, c, d, e] == [a, b, c, d, e] && [b] + [c, d, e] == [b, c, d, e];
    assert [c] + [d, e] == [c, d, e] && [d] + [e] == [d, e] && [e] + [] == [e];
    AppliedNext(a, [b, c, d, e], n);
    AppliedNext(b, [c, d, e], Applied(a, n));
    AppliedNext(c, [d, e], Applied(b, Applied(a, n)));
    AppliedNext(d, [e], Applied(c, Applied(b, Applied(a, n))));
    AppliedNext(e, [], Applied(d, Applied(c, Applied(b, Applied(a, n)))));
  }

  lemma {:induction false} PassOrder(root: Expr)
    ensures
      var e3 := Rewritten(BooleanLiterals, BooleanRewritten(root));
      RewrittenIr(root) == Rewritten(DeMorgan, Rewritten(CollapseWhen, e3))
  {
    AppliedFive(UnwrapDropNulls, BooleanWhen, BooleanLiterals, CollapseWhen, DeMorgan, Labelled(root, []));
    var n2 := BooleanObject(root);
    var n3 := SweptObject(Sweep(BooleanLiterals, 0), n2, {});
    var n4 := SweptObject(Sweep(CollapseWhen, 0), n3, {});
    SweptIsRewritten(Sweep(BooleanLiterals, 0), n2, {});
    SweptIsRewritten(Sweep(CollapseWhen, 0), n3, {});
    SweptIsRewritten(Sweep(DeMorgan, 0), n4, {});
  }

  /** Folding aside, what follows the conditional rewriter keeps values. */
  lemma {:induction false} LaterPassesKeepValue(root: Expr, env: Env)
    ensures Eval(RewrittenIr(root), env) == Eval(Rewritten(BooleanLiterals, BooleanRewritten(root)), env)
  {
    PassOrder(root);
    var e3 := Rewritten(BooleanLiterals, BooleanRewritten(root));
    SweepKeepsValue(CollapseWhen, e3, env);
    SweepKeepsValue(DeMorgan, Rewritten(CollapseWhen, e3), env);
  }

  // --- The conditions ---

  /** The condition on a check's operand: its value is the same however much of it is rewritten, and no connective
      in it has a NULL literal operand. */
  predicate SafeCheck(cleaned: Expr, used: bool, env: Env) {
    Safe(cleaned, if used then Predicate else Other, env) && NoNullOperands(cleaned, used)
  }

  predicate SafeChecks(root: Expr, env: Env) {
    forall use | use in DroppedUses(root, true) :: SafeCheck(Rewritten(StripDropNulls, use.0), use.1, env)
  }

  /** The condition on a filter and a row. */
  predicate SafeFilter(root: Expr, env: Env) {
    Safe(Rewritten(UnwrapDropNulls, root), Filter, env) && SafeChecks(root, env)
  }

  /** A check keeps its value and its operand becomes free of NULL operands. */
  lemma {:induction false} CheckKept(root: Expr, x: Expr, r: Expr, env: Env)
    requires SafeChecks(root, env) && CheckBecomes(DroppedUses(root, true), x, r)
    ensures Eval(r, env) == Eval(Rewritten(StripDropNulls, x), env) && NullOperandFree(r)
  {
    var cleaned := Rewritten(StripDropNulls, x);
    if (x, true) in DroppedUses(root, true) && Becomes(cleaned, Stable(UnwrapDropNulls, x), r) {
      assert SafeCheck(cleaned, true, env);
      BecomesKeepsValue(cleaned, Stable(UnwrapDropNulls, x), r, env);
      BecomesNullFree(cleaned, Stable(UnwrapDropNulls, x), r);
    } else {
      assert SafeCheck(cleaned, false, env);
      ConditionalsKeepValue(cleaned, Other, env);
      NoNullOperandsAfter(cleaned, false);
    }
  }

  lemma {:induction false} NoneNullAlike(xs: seq<Expr>, ys: seq<Expr>, env: Env)
    requires |xs| == |ys| && forall i | 0 <= i < |xs| :: Eval(xs[i], env) == Eval(ys[i], env)
    ensures NoneNull(xs, env) <==> NoneNull(ys, env)
  {
    assert forall i | 0 <= i < |xs| :: xs[i] in xs && ys[i] in ys;
  }

  lemma {:induction false} ChecksKept(root: Expr, rs: seq<Expr>, env: Env)
    requires SafeChecks(root, env) && ChecksBecome(DroppedUses(root, true), DroppedOperands(root), rs)
    ensures NoneNull(rs, env) <==> NoneNull(Cleaned(DroppedOperands(root)), env)
    ensures forall r | r in rs :: NullOperandFree(r)
  {
    var operands := DroppedOperands(root);
    var cleaned := Cleaned(operands);
    forall i | 0 <= i < |rs| ensures Eval(rs[i], env) == Eval(cleaned[i], env) && NullOperandFree(rs[i]) {
      CheckKept(root, operands[i], rs[i], env);
    }
    NoneNullAlike(rs, cleaned, env);
  }

  lemma {:induction false} ConjoinedFoldSafe(result: Expr, rs: seq<Expr>, env: Env)
    requires FoldSafe(result, env) && forall r | r in rs :: NullOperandFree(r)
    ensures FoldSafe(Conjoined(result, rs), env)
    decreases |rs|
  {
    if rs != [] {
      var last := |rs| - 1;
      ConjoinedFoldSafe(result, rs[..last], env);
      NullFreeOperandsAreSafe(rs[last], env);
      assert FoldSafe(IsNotNull(rs[last]), env);
    }
  }

  /** On a row that satisfies the conditions, a kept row makes the rewritten predicate TRUE. */
  lemma {:induction false} RewritingKeepsRow(root: Expr, env: Env)
    requires Keeps(root, env) && SafeFilter(root, env)
    ensures Eval(RewrittenIr(root), env) == TRUE
  {
    var filter := Rewritten(UnwrapDropNulls, root);
    DropNullsKeepsRows(root, env);
    ConjoinedValue(filter, Cleaned(DroppedOperands(root)), env);
    var rs := BooleanRewriting(root);
    ConditionalsKeepRow(filter, env);
    ChecksKept(root, rs, env);
    ConjoinedValue(WhenToBool(filter, true), rs, env);
    SafeToFoldAfter(filter, Filter, env);
    ConjoinedFoldSafe(WhenToBool(filter, true), rs, env);
    FoldSweepRefines(BooleanRewritten(root), env);
    LaterPassesKeepValue(root, env);
  }

  /** The superset theorem: for every predicate, row and choice of values for the unsupported nodes
      that satisfy the conditions, the restriction admits the row whenever the filter keeps it. */
  lemma {:induction false} RestrictionAdmitsKeptRows(root: Expr, env: Env, u: Unicode)
    requires Keeps(root, env) && SafeFilter(root, env)
    ensures Restriction(root, u).Ok? ==> Admits(Restriction(root, u).value, env)
  {
    RewritingKeepsRow(root, env);
    if Restriction(root, u).Ok? {
      CompiledAdmits(RewrittenIr(root), env, u);
    }
  }

  // --- Exactly which rows ---

  lemma {:induction false} ConjoinedNullFree(filter: Expr, cleaned: seq<Expr>, rs: seq<Expr>)
    requires |rs| == |cleaned| && NoNullOperands(Conjoined(filter, cleaned), true)
    requires forall r | r in rs :: NullOperandFree(r)
    ensures NullOperandFree(Conjoined(WhenToBool(filter, true), rs))
    ensures IsNullLiteral(Conjoined(WhenToBool(filter, true), rs)) <==> IsNullLiteral(Conjoined(filter, cleaned))
    decreases |rs|
  {
    if rs == [] {
      NoNullOperandsAfter(filter, true);
      NullOnlyFromNull(filter, true);
    } else {
      var last := |rs| - 1;
      ConjoinedNullFree(filter, cleaned[..last], rs[..last]);
      assert rs[last] in rs && NullOperandFree(IsNotNull(rs[last]));
    }
  }

  /** Without NULL operands the rewritten predicate is TRUE exactly where the filter, with its conditionals
      rewritten, is TRUE and no dropped operand is NULL. */
  lemma {:induction false} RewrittenValue(root: Expr, env: Env)
    requires SafeChecks(root, env) && NoNullOperands(DropNullsRewritten(root), true)
    ensures
      Eval(RewrittenIr(root), env) == TRUE
      <==> Eval(WhenToBool(Rewritten(UnwrapDropNulls, root), true), env) == TRUE
           && NoneNull(Cleaned(DroppedOperands(root)), env)
  {
    var filter := Rewritten(UnwrapDropNulls, root);
    var rs := BooleanRewriting(root);
    ChecksKept(root, rs, env);
    ConjoinedNullFree(filter, Cleaned(DroppedOperands(root)), rs);
    ConjoinedValue(WhenToBool(filter, true), rs, env);
    FoldSweepExact(BooleanRewritten(root), env);
    LaterPassesKeepValue(root, env);
  }

  /** When nothing is unsupported, nothing is relaxed and rewriting is exact, the restriction admits
      exactly the kept rows. */
  lemma {:induction false} ExactRestriction(root: Expr, env: Env, u: Unicode)
    requires !HasUnsupported(root) && SafeChecks(root, env) && NoNullOperands(DropNullsRewritten(root), true)
    requires Safe(Rewritten(UnwrapDropNulls, root), Predicate, env)
    requires Compiled(RewrittenIr(root), u).Ok? && Compiled(RewrittenIr(root), u).value.exact
    ensures Admits(Restriction(root, u).value, env) <==> Keeps(root, env)
  {
    var filter := Rewritten(UnwrapDropNulls, root);
    DropNullsKeepsRows(root, env);
    ConjoinedValue(filter, Cleaned(DroppedOperands(root)), env);
    ConditionalsKeepValue(filter, Predicate, env);
    RewrittenValue(root, env);
    CompiledAdmits(RewrittenIr(root), env, u);
  }

  /** A tree without DropNulls passes the first rewriter unchanged. */
  lemma {:induction false} NoDropNullsUnchanged(root: Expr)
    requires Stable(UnwrapDropNulls, root)
    ensures DroppedOperands(root) == [] && DropNullsRewritten(root) == Rewritten(UnwrapDropNulls, root) == root
  {
    StableIsLeftAlone(UnwrapDropNulls, root);
    NothingCollected(root);
    BreadthFirstCollectsTheSame(UnwrapDropNulls, [root]);
    assert multiset(DroppedOperands(root)) == multiset(CollectedIn(UnwrapDropNulls, root) + []);
    assert |multiset(DroppedOperands(root))| == 0;
  }

  lemma {:induction false} NothingCollected(e: Expr)
    requires Stable(UnwrapDropNulls, e)
    ensures CollectedIn(UnwrapDropNulls, e) == []
    decreases Weight(UnwrapDropNulls, e), 0
  {
    StableChildren(UnwrapDropNulls, e);
    NormalFixes(UnwrapDropNulls, e);
    ChildrenWeighLess(UnwrapDropNulls, e);
    NothingCollectedAll(Children(e));
  }

  lemma {:induction false} NothingCollectedAll(es: seq<Expr>)
    requires forall e | e in es :: Stable(UnwrapDropNulls, e)
    ensures CollectedInAll(UnwrapDropNulls, es) == []
    decreases SumWeight(UnwrapDropNulls, es), 1
  {
    if es != [] {
      NothingCollected(es[0]);
      NothingCollectedAll(es[1..]);
    }
  }

  /** Such a filter is rewritten by the use of its nodes alone. */
  lemma {:induction false} NoDropNullsRewriting(root: Expr)
    requires Stable(UnwrapDropNulls, root)
    ensures BooleanRewritten(root) == WhenToBool(root, true)
  {
    NoDropNullsUnchanged(root);
    var rs := BooleanRewriting(root);
  }
}
