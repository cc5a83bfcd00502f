/** The rows that compilation loses when the conditions of the superset theorem do not hold. */
module LostRows {
  import opened Values
  import opened Ir
  import opened NodeRewriters
  import opened TreeRewriter
  import opened NormalForms
  import opened Conditionals
  import opened Unwrapping
  import opened SharedChecks
  import opened LiteralFolding
  import opened DropNullsPass
  import opened RowSafety
  import opened Sql
  import opened Emit
  import opened ColumnNames
  import opened CompileSql
  import opened Pushdown
  import opened Emittable
  import opened SourceConditions
  import opened SurvivingRows

  // --- A NULL predicate ---

  /** Nothing is left to rewrite once conditionals are connectives. */
  lemma {:induction false} DoneAfterConditionals(root: Expr, e2: Expr)
    requires BooleanRewritten(root) == e2
    requires Stable(BooleanLiterals, e2) && Stable(CollapseWhen, e2) && Stable(DeMorgan, e2)
    ensures RewrittenIr(root) == e2
  {
    StableIsLeftAlone(BooleanLiterals, e2);
    StableIsLeftAlone(CollapseWhen, e2);
    StableIsLeftAlone(DeMorgan, e2);
    PassOrder(root);
  }

  /** `when(p).then(t).otherwise(f)` over columns. */
  function ColumnConditional(p: string, t: string, f: string): Expr {
    Ternary(Column(p), Column(t), Column(f))
  }

  /** `(p AND t) OR ((NOT p) AND f)` over columns. */
  function ColumnConnectives(p: string, t: string, f: string): Expr {
    BooleanConditional(Column(p), Column(t), Column(f))
  }

  lemma {:induction false} ConnectivesAreNormal(p: string, t: string, f: string, pass: ValuePass)
    requires pass in {UnwrapDropNulls, BooleanLiterals, CollapseWhen, DeMorgan}
    ensures Stable(pass, ColumnConnectives(p, t, f))
  {
    StableChildren(pass, Column(p));
    StableChildren(pass, Column(t));
    StableChildren(pass, Column(f));
    StableChildren(pass, Not(Column(p)));
    StableChildren(pass, And(Column(p), Column(t)));
    StableChildren(pass, And(Not(Column(p)), Column(f)));
    StableChildren(pass, ColumnConnectives(p, t, f));
  }

  lemma {:induction false} ColumnConditionalIsPlain(p: string, t: string, f: string)
    ensures Stable(UnwrapDropNulls, ColumnConditional(p, t, f)) && !HasUnsupported(ColumnConditional(p, t, f))
    ensures IsValidBooleanTernary(ColumnConditional(p, t, f))
    ensures NoNullOperands(ColumnConditional(p, t, f), true)
    ensures WhenToBool(ColumnConditional(p, t, f), true) == ColumnConnectives(p, t, f)
  {
    var root := ColumnConditional(p, t, f);
    StableChildren(UnwrapDropNulls, Column(p));
    StableChildren(UnwrapDropNulls, Column(t));
    StableChildren(UnwrapDropNulls, Column(f));
    StableChildren(UnwrapDropNulls, root);
    assert Everywhere(Column(p), IsSupported) && Everywhere(Column(t), IsSupported);
    assert Everywhere(Column(f), IsSupported);
    assert NoNullPredicate(root.truthy) && NoNullPredicate(root.falsy) && HasNonNullLeaf(root.truthy);
  }

  /** A property of every node holds in a tree of connectives over columns. */
  lemma {:induction false} HoldsInConnectives(p: string, t: string, f: string, holds: Expr -> bool)
    requires holds(Column(p)) && holds(Column(t)) && holds(Column(f)) && holds(Not(Column(p)))
    requires holds(And(Column(p), Column(t))) && holds(And(Not(Column(p)), Column(f)))
    requires holds(ColumnConnectives(p, t, f))
    ensures Everywhere(ColumnConnectives(p, t, f), holds)
  {
    assert Everywhere(Column(p), holds) && Everywhere(Column(t), holds) && Everywhere(Column(f), holds);
    assert Everywhere(Not(Column(p)), holds);
    assert Everywhere(And(Column(p), Column(t)), holds) && Everywhere(And(Not(Column(p)), Column(f)), holds);
  }

  lemma {:induction false} ColumnConditionalRewritten(p: string, t: string, f: string)
    ensures RewrittenIr(ColumnConditional(p, t, f)) == ColumnConnectives(p, t, f)
  {
    ColumnConditionalIsPlain(p, t, f);
    NoDropNullsRewriting(ColumnConditional(p, t, f));
    ConnectivesAreNormal(p, t, f, BooleanLiterals);
    ConnectivesAreNormal(p, t, f, CollapseWhen);
    ConnectivesAreNormal(p, t, f, DeMorgan);
    DoneAfterConditionals(ColumnConditional(p, t, f), ColumnConnectives(p, t, f));
  }

  lemma {:induction false} ConnectivesPushed(p: string, t: string, f: string, u: Unicode)
    requires IsColumnName(p, u) && IsColumnName(t, u) && IsColumnName(f, u)
    ensures Everywhere(ColumnConnectives(p, t, f), ColumnNamed(u))
    ensures Everywhere(ColumnConnectives(p, t, f), IsEmittable)
  {
    HoldsInConnectives(p, t, f, ColumnNamed(u));
    HoldsInConnectives(p, t, f, IsEmittable);
  }

  /** With a NULL predicate and a TRUE falsy branch the row is kept by the filter and lost by the
      restriction. */
  lemma {:induction false} NullPredicateLosesRow(p: string, t: string, f: string, env: Env, u: Unicode)
    requires IsColumnName(p, u) && IsColumnName(t, u) && IsColumnName(f, u)
    requires env.row(p) == Null && env.row(f) == TRUE
    ensures
      var root := ColumnConditional(p, t, f);
      Keeps(root, env) && Restriction(root, u).Ok? && !Admits(Restriction(root, u).value, env)
  {
    ColumnConditionalIsPlain(p, t, f);
    ColumnConditionalRewritten(p, t, f);
    ConnectivesPushed(p, t, f, u);
    ConditionalFilterIff(Column(p), Column(t), Column(f), env, u);
    NoDropsHold(ColumnConditional(p, t, f), env);
  }

  lemma {:induction false} NoDropsHold(e: Expr, env: Env)
    requires Stable(UnwrapDropNulls, e)
    ensures DropsHold(e, env)
    decreases e
  {
    StableChildren(UnwrapDropNulls, e);
    forall kid | kid in Children(e) ensures DropsHold(kid, env) {
      NoDropsHold(kid, env);
    }
    assert DropHolds(env)(e);
  }

  // --- A check that shares its operand with the filter ---

  /** `when(p).then(t).otherwise(f).drop_nulls() | y`. */
  function CheckedConditional(p: Expr, t: Expr, f: Expr, y: Expr): Expr {
    Or(Unary(DropNullsOp, Ternary(p, t, f)), y)
  }

  /** A node that neither of the first two passes looks at, and no NULL. */
  predicate IsSettledNode(n: Expr) { !n.Ternary? && !IsNullLiteral(n) && !IsDropNulls(n) && IsSupported(n) }

  predicate IsSettled(e: Expr) { Everywhere(e, IsSettledNode) }

  lemma {:induction false} SettledKeptWhole(e: Expr, boolean: bool)
    requires IsSettled(e)
    ensures WhenToBool(e, boolean) == e
    decreases e
  {
    var kids := Children(e);
    forall i | 0 <= i < |kids|
      ensures kids[i] == WhenToBool(kids[i], KidUse(e, boolean, IsValidBooleanTernary(e), i))
    {
      assert kids[i] in kids;
      SettledKeptWhole(kids[i], KidUse(e, boolean, IsValidBooleanTernary(e), i));
    }
    WhenToBoolUnchanged(e, boolean, kids);
    ReplacedChildren(e, kids);
  }

  /** However it is shared, the expression stays. */
  lemma {:induction false} SettledBecomesItself(e: Expr, shared: bool, r: Expr)
    requires IsSettled(e) && Becomes(e, shared, r)
    ensures r == e
    decreases e
  {
    if IsAnd(e) || IsOr(e) {
      assert e.left in Children(e) && e.right in Children(e);
      SettledBecomesItself(e.left, shared, r.left);
      SettledBecomesItself(e.right, shared, r.right);
    } else {
      SettledKeptWhole(e, true);
    }
  }

  lemma {:induction false} SettledIsPlain(e: Expr)
    requires IsSettled(e)
    ensures Stable(UnwrapDropNulls, e) && !HasUnsupported(e) && NullFree(e)
    decreases e
  {
    forall kid | kid in Children(e) ensures Stable(UnwrapDropNulls, kid) && !HasUnsupported(kid) && NullFree(kid) {
      SettledIsPlain(kid);
    }
    StableChildren(UnwrapDropNulls, e);
  }

  predicate AreSettled(p: Expr, t: Expr, f: Expr, y: Expr) {
    IsSettled(p) && IsSettled(t) && IsSettled(f) && IsSettled(y)
  }

  lemma {:induction false} SettledConditional(p: Expr, t: Expr, f: Expr)
    requires IsSettled(p) && IsSettled(t) && IsSettled(f)
    ensures Stable(UnwrapDropNulls, Ternary(p, t, f)) && !HasUnsupported(Ternary(p, t, f)) && NullFree(Ternary(p, t, f))
    ensures IsValidBooleanTernary(Ternary(p, t, f))
    ensures WhenToBool(Ternary(p, t, f), true) == BooleanConditional(p, t, f)
  {
    var e := Ternary(p, t, f);
    SettledIsPlain(p);
    SettledIsPlain(t);
    SettledIsPlain(f);
    StableChildren(UnwrapDropNulls, e);
    assert IsSettledNode(p) && IsSettledNode(t) && IsSettledNode(f);
    assert Everywhere(e, IsNotNullLiteral);
    SettledKeptWhole(p, true);
    SettledKeptWhole(t, true);
    SettledKeptWhole(f, true);
  }

  lemma {:induction false} CheckedConditionalUnwrapped(p: Expr, t: Expr, f: Expr, y: Expr)
    requires AreSettled(p, t, f, y)
    ensures Rewritten(UnwrapDropNulls, CheckedConditional(p, t, f, y)) == Or(Ternary(p, t, f), y)
  {
    var root, e := CheckedConditional(p, t, f, y), Ternary(p, t, f);
    SettledConditional(p, t, f);
    SettledIsPlain(y);
    StableIsLeftAlone(UnwrapDropNulls, e);
    StableIsLeftAlone(UnwrapDropNulls, y);
    UnwrappedNode(UnwrapDropNulls, root);
    UnwrappedNode(UnwrapDropNulls, root.left);
    RewrittenAllAt(UnwrapDropNulls, Children(root), 0);
    RewrittenAllAt(UnwrapDropNulls, Children(root), 1);
  }

  lemma {:induction false} OneDropped(e: Expr)
    requires Stable(UnwrapDropNulls, e) && !HasUnsupported(e)
    ensures CollectedIn(UnwrapDropNulls, Unary(DropNullsOp, e)) == [e]
  {
    var dropped := Unary(DropNullsOp, e);
    StableChildren(UnwrapDropNulls, e);
    NormalFixes(UnwrapDropNulls, e);
    StepLosesWeight(UnwrapDropNulls, dropped);
    ChildrenWeighLess(UnwrapDropNulls, e);
    NothingCollectedAll(Children(e));
    assert FixCollected(UnwrapDropNulls, dropped) == [e] + FixCollected(UnwrapDropNulls, e);
  }

  lemma {:induction false} OneDroppedOf(l: Expr, r: Expr, e: Expr)
    requires CollectedIn(UnwrapDropNulls, l) == [e] && Stable(UnwrapDropNulls, r)
    ensures CollectedIn(UnwrapDropNulls, Or(l, r)) == [e]
  {
    NothingCollected(r);
    assert [l, r][1..] == [r] && [r][1..] == [];
    assert CollectedInAll(UnwrapDropNulls, [r]) == [];
    assert CollectedInAll(UnwrapDropNulls, [l, r]) == [e];
  }

  lemma {:induction false} DroppedIs(root: Expr, e: Expr)
    requires CollectedIn(UnwrapDropNulls, root) == [e]
    ensures DroppedOperands(root) == [e]
  {
    BreadthFirstCollectsTheSame(UnwrapDropNulls, [root]);
    assert CollectedInAll(UnwrapDropNulls, [root]) == [e] + CollectedInAll(UnwrapDropNulls, [root][1..]);
    IsSingle(DroppedOperands(root), e);
  }

  lemma {:induction false} CheckedConditionalDrops(p: Expr, t: Expr, f: Expr, y: Expr)
    requires AreSettled(p, t, f, y)
    ensures DroppedOperands(CheckedConditional(p, t, f, y)) == [Ternary(p, t, f)]
  {
    SettledConditional(p, t, f);
    SettledIsPlain(y);
    OneDropped(Ternary(p, t, f));
    OneDroppedOf(Unary(DropNullsOp, Ternary(p, t, f)), y, Ternary(p, t, f));
    DroppedIs(CheckedConditional(p, t, f, y), Ternary(p, t, f));
  }

  lemma {:induction false} IsSingle<T>(xs: seq<T>, x: T)
    requires multiset(xs) == multiset([x])
    ensures xs == [x]
  {
    assert |multiset(xs)| == 1;
    assert xs[0] in multiset(xs);
  }

  lemma {:induction false} DropUses(e: Expr, boolean: bool)
    requires Stable(UnwrapDropNulls, e)
    ensures DroppedUses(Unary(DropNullsOp, e), boolean) <= {(e, boolean)}
  {
    NoUses(e, boolean);
    assert DroppedKidUses(Unary(DropNullsOp, e), boolean, 0) == DroppedUses(e, boolean);
  }

  lemma {:induction false} CheckedConditionalUses(p: Expr, t: Expr, f: Expr, y: Expr, use: (Expr, bool))
    requires AreSettled(p, t, f, y) && use in DroppedUses(CheckedConditional(p, t, f, y), true)
    ensures use == (Ternary(p, t, f), true)
  {
    var root, e := CheckedConditional(p, t, f, y), Ternary(p, t, f);
    SettledConditional(p, t, f);
    SettledIsPlain(y);
    DropUses(e, true);
    NoUses(y, true);
    assert DroppedKidUses(root, true, 0) == DroppedUses(root.left, true);
    assert DroppedKidUses(root, true, 1) == DroppedUses(y, true);
  }

  lemma {:induction false} ConditionalCheckBecomes(root: Expr, p: Expr, t: Expr, f: Expr, y: Expr, r: Expr)
    requires root == CheckedConditional(p, t, f, y) && AreSettled(p, t, f, y)
    requires CheckBecomes(DroppedUses(root, true), Ternary(p, t, f), r)
    ensures r == BooleanConditional(p, t, f)
  {
    var e := Ternary(p, t, f);
    SettledConditional(p, t, f);
    SameNormalForm(e);
    StableIsLeftAlone(StripDropNulls, e);
    if (e, false) in DroppedUses(root, true) {
      CheckedConditionalUses(p, t, f, y, (e, false));
    }
    SharedConditionalRewritten(p, t, f, r);
  }

  /** The conditional is rewritten in the filter and, being one object, beneath its check as well. */
  lemma {:induction false} CheckedConditionalRewritten(root: Expr, p: Expr, t: Expr, f: Expr, y: Expr)
    requires root == CheckedConditional(p, t, f, y) && AreSettled(p, t, f, y)
    ensures BooleanRewritten(root) == And(Or(BooleanConditional(p, t, f), y), IsNotNull(BooleanConditional(p, t, f)))
  {
    CheckedConditionalUnwrapped(p, t, f, y);
    CheckedConditionalDrops(p, t, f, y);
    SettledConditional(p, t, f);
    SettledKeptWhole(y, true);
    var rs := BooleanRewriting(root);
    ConditionalCheckBecomes(root, p, t, f, y, rs[0]);
    assert WhenToBool(Or(Ternary(p, t, f), y), true) == Or(BooleanConditional(p, t, f), y);
    assert [] + [rs[0]] == rs;
    ConjoinedNextExpr(Or(BooleanConditional(p, t, f), y), [], rs[0]);
  }

  lemma {:induction false} SharedConditionalRewritten(p: Expr, t: Expr, f: Expr, r: Expr)
    requires IsSettled(p) && IsSettled(t) && IsSettled(f) && Becomes(Ternary(p, t, f), true, r)
    ensures r == BooleanConditional(p, t, f)
  {
    SettledConditional(p, t, f);
    SettledKeptWhole(p, true);
    if r.Ternary? {
      SettledBecomesItself(t, true, r.truthy);
      SettledBecomesItself(f, true, r.falsy);
    } else {
      SettledBecomesItself(t, true, r.left.right);
      SettledBecomesItself(f, true, r.right.right);
    }
  }

  predicate IsTruth(v: Value) { v.Bool? || v == Null }

  /** The values for which the rewritten check is NULL although the conditional is not. */
  predicate IsLost(p: Value, t: Value, f: Value, y: Value) {
    p == Null && f != Null && (f == TRUE || y == TRUE) && !(t == FALSE && f == FALSE)
  }

  lemma {:induction false} CheckedConditionalKept(p: Expr, t: Expr, f: Expr, y: Expr, env: Env)
    requires AreSettled(p, t, f, y)
    ensures
      var value := Choose(Eval(p, env), Eval(t, env), Eval(f, env));
      Keeps(CheckedConditional(p, t, f, y), env) <==> KleeneOr(value, Eval(y, env)) == TRUE && value != Null
  {
    var root, e := CheckedConditional(p, t, f, y), Ternary(p, t, f);
    SettledConditional(p, t, f);
    SettledIsPlain(y);
    NoDropsHold(e, env);
    NoDropsHold(y, env);
    assert DropHolds(env)(root);
    assert DropHolds(env)(root.left) == (Eval(e, env) != Null);
    assert Children(root.left) == [e];
    assert DropsHold(root.left, env) == DropHolds(env)(root.left);
    assert Children(root) == [root.left, y];
    assert Eval(root.left, env) == Eval(e, env);
  }

  lemma {:induction false} LostValues(p: Value, t: Value, f: Value, y: Value)
    requires IsTruth(p) && IsTruth(t) && IsTruth(f) && IsTruth(y)
    ensures
      var kept := KleeneOr(Choose(p, t, f), y) == TRUE && Choose(p, t, f) != Null;
      var admitted := KleeneOr(ConnectiveValue(p, t, f), y) == TRUE && ConnectiveValue(p, t, f) != Null;
      kept && !admitted <==> IsLost(p, t, f, y)
  {
  }

  lemma {:induction false} CheckedValue(c: Expr, y: Expr, env: Env)
    ensures Eval(And(Or(c, y), IsNotNull(c)), env) == TRUE
       <==> KleeneOr(Eval(c, env), Eval(y, env)) == TRUE && Eval(c, env) != Null
  {
    CheckValue(Or(c, y), c, env);
    assert Eval(Or(c, y), env) == KleeneOr(Eval(c, env), Eval(y, env));
  }

  /** Where no NULL is an operand, the rewritten filter is TRUE where the filter over connectives is. */
  lemma {:induction false} NullFreeRewriting(root: Expr, e2: Expr, env: Env)
    requires BooleanRewritten(root) == e2 && NullOperandFree(e2)
    ensures Eval(RewrittenIr(root), env) == Eval(e2, env)
  {
    FoldSweepExact(e2, env);
    LaterPassesKeepValue(root, env);
  }

  lemma {:induction false} CheckedConditionalAdmitted(root: Expr, p: Expr, t: Expr, f: Expr, y: Expr, env: Env)
    requires root == CheckedConditional(p, t, f, y) && AreSettled(p, t, f, y)
    ensures
      var value := ConnectiveValue(Eval(p, env), Eval(t, env), Eval(f, env));
      Eval(RewrittenIr(root), env) == TRUE <==> KleeneOr(value, Eval(y, env)) == TRUE && value != Null
  {
    var c := BooleanConditional(p, t, f);
    CheckedConditionalRewritten(root, p, t, f, y);
    ConnectedIsNullFree(p, t, f, y);
    NullFreeRewriting(root, And(Or(c, y), IsNotNull(c)), env);
    ConnectivesValue(p, t, f, env);
    CheckedValue(c, y, env);
  }

  /** The restriction of `when(p).then(t).otherwise(f).drop_nulls() | y` loses a row the filter keeps exactly when
      the predicate is NULL and the conditional not, but its connectives are. */
  lemma {:induction false} SharedCheckIff(root: Expr, p: Expr, t: Expr, f: Expr, y: Expr, env: Env, u: Unicode)
    requires root == CheckedConditional(p, t, f, y) && AreSettled(p, t, f, y) && IsPushedWhole(root, u)
    requires AreTruths(p, t, f, y, env)
    ensures Restriction(root, u).Ok?
    ensures Keeps(root, env) && !Admits(Restriction(root, u).value, env)
       <==> IsLost(Eval(p, env), Eval(t, env), Eval(f, env), Eval(y, env))
  {
    CheckedConditionalKept(p, t, f, y, env);
    CheckedConditionalAdmitted(root, p, t, f, y, env);
    PushedWholeValue(root, env, u);
    LostValues(Eval(p, env), Eval(t, env), Eval(f, env), Eval(y, env));
  }

  lemma {:induction false} SettledNullFree(e: Expr)
    requires IsSettled(e)
    ensures NullOperandFree(e) && !IsNullLiteral(e)
  {
    SettledIsPlain(e);
    NullFreeHasNoNullOperands(e, true);
    NoNullOperandsAfter(e, true);
    SettledKeptWhole(e, true);
    assert IsSettledNode(e);
  }

  lemma {:induction false} ConnectedIsNullFree(p: Expr, t: Expr, f: Expr, y: Expr)
    requires AreSettled(p, t, f, y)
    ensures NullOperandFree(And(Or(BooleanConditional(p, t, f), y), IsNotNull(BooleanConditional(p, t, f))))
  {
    var c := BooleanConditional(p, t, f);
    SettledNullFree(p);
    SettledNullFree(t);
    SettledNullFree(f);
    SettledNullFree(y);
    ConditionalNullFree(p, t, f);
    assert NullOperandFree(Or(c, y)) && NullOperandFree(IsNotNull(c));
  }

  lemma {:induction false} ColumnsSettled(name: string)
    ensures IsSettled(Column(name))
  {
    assert IsSettledNode(Column(name));
  }

  /** A property of every node holds in the rewritten filter over columns. */
  lemma {:induction false} HoldsInChecked(p: string, t: string, f: string, y: string, holds: Expr -> bool)
    requires Everywhere(ColumnConnectives(p, t, f), holds) && holds(Column(y))
    requires
      var c := ColumnConnectives(p, t, f);
      holds(Or(c, Column(y))) && holds(IsNotNull(c)) && holds(And(Or(c, Column(y)), IsNotNull(c)))
    ensures
      var c := ColumnConnectives(p, t, f);
      Everywhere(And(Or(c, Column(y)), IsNotNull(c)), holds)
  {
    var c := ColumnConnectives(p, t, f);
    assert Everywhere(Column(y), holds);
    assert Everywhere(Or(c, Column(y)), holds) && Everywhere(IsNotNull(c), holds);
  }

  lemma {:induction false} CheckedIsNormal(p: string, t: string, f: string, y: string, pass: ValuePass)
    requires pass in {BooleanLiterals, CollapseWhen, DeMorgan}
    ensures
      var c := ColumnConnectives(p, t, f);
      Stable(pass, And(Or(c, Column(y)), IsNotNull(c)))
  {
    var c := ColumnConnectives(p, t, f);
    ConnectivesAreNormal(p, t, f, pass);
    StableChildren(pass, Column(y));
    StableChildren(pass, Or(c, Column(y)));
    StableChildren(pass, IsNotNull(c));
    StableChildren(pass, And(Or(c, Column(y)), IsNotNull(c)));
  }

  lemma {:induction false} CheckedColumnsRewritten(root: Expr, p: string, t: string, f: string, y: string)
    requires root == CheckedConditional(Column(p), Column(t), Column(f), Column(y))
    ensures
      var c := ColumnConnectives(p, t, f);
      RewrittenIr(root) == And(Or(c, Column(y)), IsNotNull(c))
  {
    var c := ColumnConnectives(p, t, f);
    ColumnsSettled(p);
    ColumnsSettled(t);
    ColumnsSettled(f);
    ColumnsSettled(y);
    CheckedConditionalRewritten(root, Column(p), Column(t), Column(f), Column(y));
    CheckedIsNormal(p, t, f, y, BooleanLiterals);
    CheckedIsNormal(p, t, f, y, CollapseWhen);
    CheckedIsNormal(p, t, f, y, DeMorgan);
    DoneAfterConditionals(root, And(Or(c, Column(y)), IsNotNull(c)));
  }

  lemma {:induction false} CheckedConnectivesPushed(p: string, t: string, f: string, y: string, u: Unicode)
    requires IsColumnName(p, u) && IsColumnName(t, u) && IsColumnName(f, u) && IsColumnName(y, u)
    ensures
      var c := ColumnConnectives(p, t, f);
      var e2 := And(Or(c, Column(y)), IsNotNull(c));
      Everywhere(e2, ColumnNamed(u)) && Everywhere(e2, IsEmittable)
  {
    ConnectivesPushed(p, t, f, u);
    HoldsInChecked(p, t, f, y, ColumnNamed(u));
    HoldsInChecked(p, t, f, y, IsEmittable);
  }

  predicate IsNamedColumn(e: Expr, u: Unicode) { e.Column? && IsColumnName(e.name, u) }

  lemma {:induction false} CheckedColumnsPushed(root: Expr, p: Expr, t: Expr, f: Expr, y: Expr, u: Unicode)
    requires root == CheckedConditional(p, t, f, y)
    requires IsNamedColumn(p, u) && IsNamedColumn(t, u) && IsNamedColumn(f, u) && IsNamedColumn(y, u)
    ensures AreSettled(p, t, f, y) && IsPushedWhole(root, u)
  {
    ColumnsSettled(p.name);
    ColumnsSettled(t.name);
    ColumnsSettled(f.name);
    ColumnsSettled(y.name);
    CheckedColumnsRewritten(root, p.name, t.name, f.name, y.name);
    CheckedConnectivesPushed(p.name, t.name, f.name, y.name, u);
  }

  predicate AreTruths(p: Expr, t: Expr, f: Expr, y: Expr, env: Env) {
    IsTruth(Eval(p, env)) && IsTruth(Eval(t, env)) && IsTruth(Eval(f, env)) && IsTruth(Eval(y, env))
  }

  lemma {:induction false} ColumnsLost(p: Expr, t: Expr, f: Expr, y: Expr, env: Env)
    requires p.Column? && t.Column? && f.Column? && y.Column?
    requires env.row(p.name) == Null && env.row(t.name) == TRUE && env.row(f.name) == FALSE && env.row(y.name) == TRUE
    ensures AreTruths(p, t, f, y, env) && IsLost(Eval(p, env), Eval(t, env), Eval(f, env), Eval(y, env))
  {
  }

  /** So over columns: with p NULL, t TRUE, f FALSE and y TRUE the filter keeps the row, and the restriction,
      `(((p AND t) OR (NOT p AND f)) OR y) AND ((p AND t) OR (NOT p AND f)) IS NOT NULL`, loses it. */
  lemma {:induction false} SharedCheckLosesRow(root: Expr, p: Expr, t: Expr, f: Expr, y: Expr, env: Env, u: Unicode)
    requires root == CheckedConditional(p, t, f, y)
    requires IsNamedColumn(p, u) && IsNamedColumn(t, u) && IsNamedColumn(f, u) && IsNamedColumn(y, u)
    requires env.row(p.name) == Null && env.row(t.name) == TRUE && env.row(f.name) == FALSE && env.row(y.name) == TRUE
    ensures Keeps(root, env) && Restriction(root, u).Ok? && !Admits(Restriction(root, u).value, env)
  {
    CheckedColumnsPushed(root, p, t, f, y, u);
    ColumnsLost(p, t, f, y, env);
    SharedCheckIff(root, p, t, f, y, env, u);
  }

  // --- A NULL literal beneath an operator that tells NULL ---

  /** `(x & NULL).is_null()`, `(x & NULL).fill_null(y)` or `coalesce(x & NULL, ...)`. */
  predicate AsksNullFirst(e: Expr, x: Expr) {
    AsksNull(e) && Children(e) != [] && Children(e)[0] == And(x, Literal(NullLit))
  }

  predicate AsksNull(e: Expr) {
    (e.Unary? && e.uop == IsNullOp) || (e.Binary? && e.bop == FillNullOp) || (e.Variadic? && e.vop == CoalesceOp)
  }

  /** No later pass touches such a node itself. */
  lemma {:induction false} AskerIsRebuilt(pass: ValuePass, e: Expr)
    requires AsksNull(e) && pass in {BooleanLiterals, CollapseWhen, DeMorgan}
    ensures Rewritten(pass, e) == ReplaceChildren(e, RewrittenAll(pass, Children(e))) && AsksNull(Rewritten(pass, e))
  {
    var rs := RewrittenAll(pass, Children(e));
    assert Normal(pass, e);
    NormalFixes(pass, e);
    assert Normal(pass, ReplaceChildren(e, rs));
    NormalFixes(pass, ReplaceChildren(e, rs));
  }

  lemma {:induction false} NullConjunctionFolds(x: Expr)
    ensures Rewritten(BooleanLiterals, And(x, Literal(NullLit))) == BoolLiteral(false)
  {
    var e := And(x, Literal(NullLit));
    StepLosesWeight(BooleanLiterals, e);
    assert Step(BooleanLiterals, e) == BoolLiteral(false);
    assert Fix(BooleanLiterals, e) == BoolLiteral(false);
  }

  lemma {:induction false} AskerWhenToBool(e: Expr, x: Expr)
    requires AsksNullFirst(e, x)
    ensures AsksNullFirst(WhenToBool(e, true), WhenToBool(x, false))
  {
    var nothing := Literal(NullLit);
    assert WhenToBool(And(x, nothing), false) == And(WhenToBool(x, false), WhenToBool(nothing, false));
    assert WhenToBool(nothing, false) == nothing;
    if e.Variadic? {
      assert WhenToBoolAll(e.operands)[0] == WhenToBool(e.operands[0], false);
    }
  }

  lemma {:induction false} AskerFolds(e: Expr, x: Expr)
    requires AsksNullFirst(e, x)
    ensures AsksNull(Rewritten(BooleanLiterals, e)) && Children(Rewritten(BooleanLiterals, e)) != []
    ensures Children(Rewritten(BooleanLiterals, e))[0] == BoolLiteral(false)
  {
    AskerIsRebuilt(BooleanLiterals, e);
    ReplacedChildren(e, RewrittenAll(BooleanLiterals, Children(e)));
    RewrittenAllAt(BooleanLiterals, Children(e), 0);
    NullConjunctionFolds(x);
  }

  /** Whatever `x` is, the conjunction folds to FALSE, and so does the filter on every row. */
  lemma {:induction false} NullConjunctionValue(e: Expr, x: Expr, env: Env)
    requires Stable(UnwrapDropNulls, e) && AsksNullFirst(e, x)
    ensures Eval(RewrittenIr(e), env) == FALSE && AsksNull(RewrittenIr(e))
  {
    NoDropNullsRewriting(e);
    AskerWhenToBool(e, x);
    AskerFolds(WhenToBool(e, true), WhenToBool(x, false));
    var e3 := Rewritten(BooleanLiterals, WhenToBool(e, true));
    AskerIsRebuilt(CollapseWhen, e3);
    AskerIsRebuilt(DeMorgan, Rewritten(CollapseWhen, e3));
    PassOrder(e);
    LaterPassesKeepValue(e, env);
    AskerValue(e3, env);
  }

  lemma {:induction false} AskerValue(e: Expr, env: Env)
    requires AsksNull(e) && Children(e) != [] && Children(e)[0] == BoolLiteral(false)
    ensures Eval(e, env) == FALSE
  {
    assert Eval(BoolLiteral(false), env) == FALSE;
    if e.Variadic? {
      assert EvalAll(e.operands, env)[0] == FALSE;
    }
  }

  /** So the restriction admits a row only if there is none. */
  lemma {:induction false} NullConjunctionAdmits(e: Expr, x: Expr, env: Env, u: Unicode)
    requires Stable(UnwrapDropNulls, e) && AsksNullFirst(e, x) && Restriction(e, u).Ok?
    ensures Admits(Restriction(e, u).value, env) <==> Restriction(e, u).value == None
  {
    NullConjunctionValue(e, x, env);
    OnlyConnectivesRelax(RewrittenIr(e));
    CompilationSound(RewrittenIr(e), env, u);
  }

  lemma {:induction false} ConjunctionValue(x: Expr, env: Env)
    ensures Eval(And(x, Literal(NullLit)), env) == if Eval(x, env) == FALSE then FALSE else Null
  {
    assert Eval(And(x, Literal(NullLit)), env) == KleeneAnd(Eval(x, env), Null);
  }

  lemma {:induction false} ConjunctionIsStable(x: Expr)
    requires Stable(UnwrapDropNulls, x)
    ensures Stable(UnwrapDropNulls, And(x, Literal(NullLit)))
  {
    StableChildren(UnwrapDropNulls, Literal(NullLit));
    StableChildren(UnwrapDropNulls, And(x, Literal(NullLit)));
  }

  /** Where anything is pushed down, the restriction respects the filter exactly where the filter is not TRUE. */
  lemma {:induction false} NothingAdmittedIff(e: Expr, x: Expr, env: Env, u: Unicode)
    requires Stable(UnwrapDropNulls, e) && AsksNullFirst(e, x)
    requires Restriction(e, u).Ok? && Restriction(e, u).value != None
    ensures (Eval(e, env) == TRUE ==> Admits(Restriction(e, u).value, env)) <==> Eval(e, env) != TRUE
  {
    NullConjunctionAdmits(e, x, env, u);
  }

  lemma {:induction false} NullCheckShape(e: Expr, x: Expr, env: Env)
    requires Stable(UnwrapDropNulls, x) && e == Unary(IsNullOp, And(x, Literal(NullLit)))
    ensures Stable(UnwrapDropNulls, e) && AsksNullFirst(e, x)
    ensures Eval(e, env) == TRUE <==> Eval(x, env) != FALSE
  {
    ConjunctionIsStable(x);
    StableChildren(UnwrapDropNulls, e);
    ConjunctionValue(x, env);
  }

  lemma {:induction false} NullFillShape(e: Expr, x: Expr, y: Expr, env: Env)
    requires Stable(UnwrapDropNulls, x) && Stable(UnwrapDropNulls, y)
    requires e == Binary(FillNullOp, And(x, Literal(NullLit)), y)
    ensures Stable(UnwrapDropNulls, e) && AsksNullFirst(e, x)
    ensures Eval(e, env) == TRUE <==> Eval(x, env) != FALSE && Eval(y, env) == TRUE
  {
    ConjunctionIsStable(x);
    StableChildren(UnwrapDropNulls, e);
    ConjunctionValue(x, env);
  }

  /** `(x & NULL).is_null()`: a row is lost exactly if `x` is not FALSE. */
  lemma {:induction false} NullCheckIff(e: Expr, x: Expr, env: Env, u: Unicode)
    requires Stable(UnwrapDropNulls, x) && e == Unary(IsNullOp, And(x, Literal(NullLit)))
    requires Restriction(e, u).Ok? && Restriction(e, u).value != None
    ensures (Eval(e, env) == TRUE ==> Admits(Restriction(e, u).value, env)) <==> Eval(x, env) == FALSE
  {
    NullCheckShape(e, x, env);
    NothingAdmittedIff(e, x, env, u);
  }

  /** `(x & NULL).fill_null(y)`: a row is lost exactly if `x` is not FALSE and `y` is TRUE. */
  lemma {:induction false} NullFillIff(e: Expr, x: Expr, y: Expr, env: Env, u: Unicode)
    requires Stable(UnwrapDropNulls, x) && Stable(UnwrapDropNulls, y)
    requires e == Binary(FillNullOp, And(x, Literal(NullLit)), y)
    requires Restriction(e, u).Ok? && Restriction(e, u).value != None
    ensures (Eval(e, env) == TRUE ==> Admits(Restriction(e, u).value, env))
       <==> Eval(x, env) == FALSE || Eval(y, env) != TRUE
  {
    NullFillShape(e, x, y, env);
    NothingAdmittedIff(e, x, env, u);
  }

  /** `coalesce(x & NULL, ...)`: likewise with the first operand after it that is not NULL. */
  lemma {:induction false} NullCoalesceIff(e: Expr, x: Expr, rest: seq<Expr>, env: Env, u: Unicode)
    requires Stable(UnwrapDropNulls, x) && forall y | y in rest :: Stable(UnwrapDropNulls, y)
    requires e == Variadic(CoalesceOp, [And(x, Literal(NullLit))] + rest)
    requires Restriction(e, u).Ok? && Restriction(e, u).value != None
    ensures (Eval(e, env) == TRUE ==> Admits(Restriction(e, u).value, env))
       <==> Eval(x, env) == FALSE || FirstNonNull(EvalAll(rest, env)) != TRUE
  {
    ConjunctionIsStable(x);
    StableChildren(UnwrapDropNulls, e);
    CoalesceValue(x, rest, env);
    NothingAdmittedIff(e, x, env, u);
  }

  lemma {:induction false} CoalesceValue(x: Expr, rest: seq<Expr>, env: Env)
    ensures Eval(Variadic(CoalesceOp, [And(x, Literal(NullLit))] + rest), env)
         == if Eval(x, env) == FALSE then FALSE else FirstNonNull(EvalAll(rest, env))
  {
    var operands := [And(x, Literal(NullLit))] + rest;
    ConjunctionValue(x, env);
    assert operands[1..] == rest && EvalAll(operands, env)[1..] == EvalAll(rest, env);
    assert EvalAll(operands, env)[0] == Eval(And(x, Literal(NullLit)), env);
  }
}
