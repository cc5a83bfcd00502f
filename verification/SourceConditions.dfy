/** The superset theorem under conditions read off the filter itself, before any rewriting. */
module SourceConditions {
  import opened Ir
  import opened NodeRewriters
  import opened TreeRewriter
  import opened ExactPasses
  import opened Conditionals
  import opened Positions
  import opened Unwrapping
  import opened DropNullsPass
  import opened LiteralFolding
  import opened RowSafety
  import opened ColumnNames
  import opened CompileSql
  import opened Sql
  import opened Pushdown

  predicate IsNotNullLiteral(e: Expr) { !IsNullLiteral(e) }

  predicate NullFree(e: Expr) { Everywhere(e, IsNotNullLiteral) }

  /** At a node: a conditional's predicate is TRUE or FALSE on the row, and no NULL literal lies
      beneath an operator that tells NULL or beneath DropNulls. */
  predicate IsPlain(n: Expr, env: Env) {
    && (n.Ternary? ==> Eval(n.pred, env).Bool?)
    && (TellsNull(n) || IsDropNulls(n) ==> forall kid | kid in Children(n) :: NullFree(kid))
  }

  function PlainNode(env: Env): Expr -> bool {
    (n: Expr) => IsPlain(n, env)
  }

  predicate PlainOn(e: Expr, env: Env) {
    Everywhere(e, PlainNode(env))
  }

  lemma {:induction false} NullFreeHasNoNullOperands(e: Expr, boolean: bool)
    requires NullFree(e)
    ensures NoNullOperands(e, boolean)
    decreases e
  {
    if !e.Unsupported? {
      forall kid, b | kid in Children(e) ensures NoNullOperands(kid, b) {
        NullFreeHasNoNullOperands(kid, b);
      }
      forall kid | kid in Children(e) ensures !IsNullLiteral(kid) {
        assert Everywhere(kid, IsNotNullLiteral);
      }
      match e
      case Unary(_, x) => assert x in Children(e);
      case Binary(_, l, r) => assert l in Children(e) && r in Children(e);
      case Ternary(p, t, f) => assert p in Children(e) && t in Children(e) && f in Children(e);
      case _ =>
    }
  }

  lemma {:induction false} PlainIsSafe(e: Expr, pos: Position, env: Env)
    requires PlainOn(e, env)
    ensures Safe(e, pos, env)
    decreases e
  {
    if !e.Unsupported? {
      assert PlainNode(env)(e);
      forall kid, at | kid in Children(e) ensures Safe(kid, at, env) {
        PlainIsSafe(kid, at, env);
      }
      forall kid | kid in Children(e) && TellsNull(e) ensures NoNullOperands(kid, false) {
        NullFreeHasNoNullOperands(kid, false);
      }
      match e
      case Unary(_, x) => assert x in Children(e);
      case Binary(_, l, r) => assert l in Children(e) && r in Children(e);
      case Ternary(p, t, f) => assert p in Children(e) && t in Children(e) && f in Children(e);
      case _ =>
    }
  }

  // --- Unwrapping DropNulls keeps the conditions ---

  /** Every dropped operand is the operand of a DropNulls in the tree. */
  lemma {:induction false} UsesWithin(e: Expr, boolean: bool, use: (Expr, bool), p: Expr -> bool)
    requires Everywhere(e, p) && use in DroppedUses(e, boolean)
    ensures Everywhere(Unary(DropNullsOp, use.0), p)
    decreases e
  {
    if !IsDropNulls(e) || use != (e.expr, boolean) {
      var i :| 0 <= i < |Children(e)| && use in DroppedKidUses(e, boolean, i);
      assert Children(e)[i] in Children(e);
      UsesWithin(Children(e)[i], KidUse(e, boolean, IsValidUnwrapped(e), i), use, p);
    }
  }

  lemma {:induction false} NullFreeRebuilt(e: Expr, kids: seq<Expr>)
    requires NullFree(e) && |kids| == |Children(e)| && forall kid | kid in kids :: NullFree(kid)
    ensures NullFree(ReplaceChildren(e, kids))
  {
    ReplacedChildren(e, kids);
    assert IsNotNullLiteral(ReplaceChildren(e, kids)) by { assert IsNotNullLiteral(e); }
  }

  lemma {:induction false} UnwrappedNullFree(pass: ValuePass, e: Expr)
    requires Unwraps(pass) && NullFree(e)
    ensures NullFree(Rewritten(pass, e))
    decreases e
  {
    UnwrappedNode(pass, e);
    if IsGivenUp(pass, e) {
      assert IsNotNullLiteral(Rewritten(pass, e));
    } else if IsDropNulls(e) {
      assert e.expr in Children(e);
      UnwrappedNullFree(pass, e.expr);
    } else {
      var kids, rs := Children(e), RewrittenAll(pass, Children(e));
      forall i | 0 <= i < |kids| ensures NullFree(rs[i]) {
        RewrittenAllAt(pass, kids, i);
        assert kids[i] in kids;
        UnwrappedNullFree(pass, kids[i]);
      }
      NullFreeRebuilt(e, rs);
    }
  }

  lemma {:induction false} UnwrappedPlain(pass: ValuePass, e: Expr, env: Env)
    requires Unwraps(pass) && PlainOn(e, env)
    ensures PlainOn(Rewritten(pass, e), env)
    decreases e
  {
    UnwrappedNode(pass, e);
    if IsGivenUp(pass, e) {
      assert PlainNode(env)(Rewritten(pass, e));
    } else if IsDropNulls(e) {
      assert e.expr in Children(e);
      UnwrappedPlain(pass, e.expr, env);
    } else {
      PlainKids(pass, e, env);
      RebuiltPlain(e, RewrittenAll(pass, Children(e)), env);
    }
  }

  /** Children with the same values, again without NULL literals where they had none. */
  predicate PlainAlike(es: seq<Expr>, rs: seq<Expr>, env: Env) {
    |es| == |rs| && forall i | 0 <= i < |es| ::
      PlainOn(rs[i], env) && Eval(rs[i], env) == Eval(es[i], env) && (NullFree(es[i]) ==> NullFree(rs[i]))
  }

  lemma {:induction false} PlainKids(pass: ValuePass, e: Expr, env: Env)
    requires Unwraps(pass) && PlainOn(e, env)
    ensures PlainAlike(Children(e), RewrittenAll(pass, Children(e)), env)
    decreases e, 0
  {
    var kids, rs := Children(e), RewrittenAll(pass, Children(e));
    forall i | 0 <= i < |kids|
      ensures PlainOn(rs[i], env) && Eval(rs[i], env) == Eval(kids[i], env) && (NullFree(kids[i]) ==> NullFree(rs[i]))
    {
      RewrittenAllAt(pass, kids, i);
      assert kids[i] in kids;
      UnwrappedPlain(pass, kids[i], env);
      SweepKeepsValue(pass, kids[i], env);
      if NullFree(kids[i]) {
        UnwrappedNullFree(pass, kids[i]);
      }
    }
  }

  lemma {:induction false} RebuiltPlain(e: Expr, rs: seq<Expr>, env: Env)
    requires PlainOn(e, env) && !IsDropNulls(e) && PlainAlike(Children(e), rs, env)
    ensures PlainOn(ReplaceChildren(e, rs), env)
  {
    var r := ReplaceChildren(e, rs);
    ReplacedChildren(e, rs);
    assert IsPlain(e, env) by { assert PlainNode(env)(e); }
    assert forall i | 0 <= i < |rs| :: Children(e)[i] in Children(e);
    if r.Ternary? {
      assert Children(e)[0] == e.pred && rs[0] == r.pred;
    }
    assert IsPlain(r, env);
    assert PlainNode(env)(r);
  }

  /** A filter and its checks meet the conditions of the superset theorem. */
  lemma {:induction false} PlainFilterIsSafe(root: Expr, env: Env)
    requires PlainOn(root, env)
    ensures SafeFilter(root, env)
  {
    UnwrappedPlain(UnwrapDropNulls, root, env);
    PlainIsSafe(Rewritten(UnwrapDropNulls, root), Filter, env);
    forall use | use in DroppedUses(root, true)
      ensures SafeCheck(Rewritten(StripDropNulls, use.0), use.1, env)
    {
      var dropped, cleaned := Unary(DropNullsOp, use.0), Rewritten(StripDropNulls, use.0);
      UsesWithin(root, true, use, PlainNode(env));
      assert PlainNode(env)(dropped) && use.0 in Children(dropped);
      UnwrappedPlain(StripDropNulls, use.0, env);
      UnwrappedNullFree(StripDropNulls, use.0);
      PlainIsSafe(cleaned, if use.1 then Predicate else Other, env);
      NullFreeHasNoNullOperands(cleaned, use.1);
    }
  }

  // --- The theorem ---

  /** On a row where every conditional's predicate is known, a filter with no NULL literal beneath
      IsNull, IsNotNull, Coalesce, FillNull, When or DropNulls loses no row it keeps. */
  lemma {:induction false} PlainFilterLosesNoRow(root: Expr, env: Env, u: Unicode)
    requires Keeps(root, env) && PlainOn(root, env)
    ensures Restriction(root, u).Ok? ==> Admits(Restriction(root, u).value, env)
  {
    PlainFilterIsSafe(root, env);
    RestrictionAdmitsKeptRows(root, env, u);
  }

  predicate IsUnconditional(e: Expr) { !e.Ternary? }

  /** A filter without conditionals and NULL literals loses no row at all. */
  lemma {:induction false} UnconditionalFilterLosesNoRow(root: Expr, env: Env, u: Unicode)
    requires Keeps(root, env)
    requires Everywhere(root, IsUnconditional) && NullFree(root)
    ensures Restriction(root, u).Ok? ==> Admits(Restriction(root, u).value, env)
  {
    UnconditionalIsPlain(root, env);
    PlainFilterLosesNoRow(root, env, u);
  }

  lemma {:induction false} UnconditionalIsPlain(e: Expr, env: Env)
    requires Everywhere(e, IsUnconditional) && NullFree(e)
    ensures PlainOn(e, env)
    decreases e
  {
    forall kid | kid in Children(e) ensures PlainOn(kid, env) {
      UnconditionalIsPlain(kid, env);
    }
    assert PlainNode(env)(e);
  }
}
