/** `rewrite_boolean_when` after `rewrite_drop_nulls`: a dropped operand that comes out of the sweep unchanged is one
    object in the filter and beneath its check, so the mark it gets in the filter counts beneath the check too. */
module SharedChecks {
  import opened Ir
  import opened NodeRewriters
  import opened TreeRewriter
  import opened NormalForms
  import opened Objects
  import opened RewriteLoops
  import opened Conditionals
  import opened Positions
  import opened Marks
  import opened Unwrapping
  import opened DropNullsPass

  /** The filter after the first two passes. */
  function BooleanObject(root: Expr): Object {
    var n := DropNullsObject(Labelled(root, []));
    SweptObject(BOOLEAN_WHEN, n, {n.id})
  }

  function BooleanRewritten(root: Expr): Expr { BooleanObject(root).expr }

  /** What the check of a dropped operand becomes, by the uses of the operand in the filter: it is rewritten as
      any other operand of IsNotNull, unless the filter uses it as a boolean. */
  predicate CheckBecomes(uses: set<(Expr, bool)>, x: Expr, r: Expr) {
    var cleaned := Rewritten(StripDropNulls, x);
    || ((x, true) in uses && Becomes(cleaned, Stable(UnwrapDropNulls, x), r))
    || ((x, false) in uses && r == WhenToBool(cleaned, false))
  }

  predicate ChecksBecome(uses: set<(Expr, bool)>, operands: seq<Expr>, rs: seq<Expr>) {
    |rs| == |operands| && forall i | 0 <= i < |rs| :: CheckBecomes(uses, operands[i], rs[i])
  }

  predicate AllFit(dropped: seq<Object>, root: Expr) {
    forall i | 0 <= i < |dropped| ::
      Fits(CleanedObject(dropped[i], i), true, root) || Fits(CleanedObject(dropped[i], i), false, root)
  }

  lemma {:induction false} CheckShape(dropped: Object, i: nat)
    ensures
      var check := CheckObject(dropped, i);
      check.id == Check(i) && IsCheck(check.expr) && check.kids == [CleanedObject(dropped, i)]
  {
  }

  lemma {:induction false} ConjoinedShape(filter: Object, dropped: seq<Object>)
    requires dropped != []
    ensures
      var n, last := ConjoinedObject(filter, dropped), |dropped| - 1;
      && n.id == Conjunct(last) && IsAnd(n.expr)
      && n.kids == [ConjoinedObject(filter, dropped[..last]), CheckObject(dropped[last], last)]
  {
  }

  lemma {:induction false} AllFitFront(dropped: seq<Object>, last: nat, root: Expr)
    requires AllFit(dropped, root) && last < |dropped|
    ensures AllFit(dropped[..last], root)
    ensures FitsCheck(CheckObject(dropped[last], last), root)
  {
    CheckShape(dropped[last], last);
    forall i | 0 <= i < last
      ensures Fits(CleanedObject(dropped[..last][i], i), true, root)
           || Fits(CleanedObject(dropped[..last][i], i), false, root)
    {
      assert dropped[..last][i] == dropped[i];
    }
  }

  lemma {:induction false} JoinedFits(n: Object, rest: Object, check: Object, checks: nat, filter: Object, root: Expr)
    requires n.id.Conjunct? && IsAnd(n.expr) && n.kids == [rest, check] && check.id.Check?
    requires FitsConjunction(rest, checks, root) && Filtered(rest, checks) == filter && FitsCheck(check, root)
    ensures FitsConjunction(n, checks + 1, root) && Filtered(n, checks + 1) == filter
  {
  }

  lemma {:induction false} ConjoinedFits(filter: Object, dropped: seq<Object>, root: Expr)
    requires Fits(filter, true, root) && AllFit(dropped, root)
    ensures FitsConjunction(ConjoinedObject(filter, dropped), |dropped|, root)
    ensures Filtered(ConjoinedObject(filter, dropped), |dropped|) == filter
    decreases |dropped|
  {
    if dropped == [] {
      assert ConjoinedObject(filter, dropped) == filter;
    } else {
      var last := |dropped| - 1;
      AllFitFront(dropped, last, root);
      ConjoinedFits(filter, dropped[..last], root);
      ConjoinedShape(filter, dropped);
      CheckShape(dropped[last], last);
      JoinedFits(ConjoinedObject(filter, dropped), ConjoinedObject(filter, dropped[..last]),
                 CheckObject(dropped[last], last), last, filter, root);
    }
  }

  lemma {:induction false} JoinedOutcome(n: Object, rest: Object, check: Object, cleaned: Object, checks: nat, r: Expr,
                                         ids: set<Id>, root: Expr)
    requires n.kids == [rest, check] && check.kids == [cleaned]
    requires Outcome(n, Conjunction(checks + 1), r, ids, root)
    ensures IsAnd(r) && IsCheck(r.right) && Outcome(rest, Conjunction(checks), r.left, ids, root)
    ensures Outcome(cleaned, Shared, r.right.expr, ids, root)
  {
    assert Outcome(check, Checked, r.right, ids, root);
  }

  lemma {:induction false} OutcomeOfConjunction(filter: Object, dropped: seq<Object>, r: Expr, ids: set<Id>, root: Expr)
    requires dropped != [] && Outcome(ConjoinedObject(filter, dropped), Conjunction(|dropped|), r, ids, root)
    ensures
      var last := |dropped| - 1;
      && IsAnd(r) && IsCheck(r.right)
      && Outcome(ConjoinedObject(filter, dropped[..last]), Conjunction(last), r.left, ids, root)
      && Outcome(CleanedObject(dropped[last], last), Shared, r.right.expr, ids, root)
  {
    var last := |dropped| - 1;
    ConjoinedShape(filter, dropped);
    CheckShape(dropped[last], last);
    JoinedOutcome(ConjoinedObject(filter, dropped), ConjoinedObject(filter, dropped[..last]),
                  CheckObject(dropped[last], last), CleanedObject(dropped[last], last), last, r, ids, root);
  }

  predicate AreOutcomes(dropped: seq<Object>, rs: seq<Expr>, ids: set<Id>, root: Expr) {
    |rs| == |dropped| && forall i | 0 <= i < |rs| :: Outcome(CleanedObject(dropped[i], i), Shared, rs[i], ids, root)
  }

  lemma {:induction false} AreOutcomesNext(dropped: seq<Object>, last: nat, front: seq<Expr>, r: Expr, ids: set<Id>,
                                           root: Expr)
    requires |dropped| == last + 1 && AreOutcomes(dropped[..last], front, ids, root)
    requires Outcome(CleanedObject(dropped[last], last), Shared, r, ids, root)
    ensures AreOutcomes(dropped, front + [r], ids, root)
  {
    var rs := front + [r];
    forall i | 0 <= i < |rs| ensures Outcome(CleanedObject(dropped[i], i), Shared, rs[i], ids, root) {
      if i < last {
        assert dropped[..last][i] == dropped[i] && rs[i] == front[i];
      }
    }
  }

  lemma {:induction false} ConjoinedNextExpr(result: Expr, front: seq<Expr>, check: Expr)
    ensures Conjoined(result, front + [check]) == And(Conjoined(result, front), IsNotNull(check))
  {
    assert (front + [check])[..|front|] == front;
  }

  lemma {:induction false} NoChecksOutcome(filter: Object, dropped: seq<Object>, r: Expr, ids: set<Id>, root: Expr)
    requires dropped == [] && Outcome(ConjoinedObject(filter, dropped), Conjunction(0), r, ids, root)
    ensures r == Conjoined(WhenToBool(filter.expr, true), [])
  {
    assert ConjoinedObject(filter, dropped) == filter;
  }

  /** The checks of a swept conjunction. */
  lemma {:induction false} ConjoinedOutcome(filter: Object, dropped: seq<Object>, checks: nat, r: Expr, ids: set<Id>,
                                            root: Expr)
    returns (rs: seq<Expr>)
    requires checks == |dropped| && Outcome(ConjoinedObject(filter, dropped), Conjunction(checks), r, ids, root)
    ensures r == Conjoined(WhenToBool(filter.expr, true), rs) && AreOutcomes(dropped, rs, ids, root)
    decreases checks
  {
    rs := [];
    if checks == 0 {
      NoChecksOutcome(filter, dropped, r, ids, root);
    } else {
      OutcomeOfConjunction(filter, dropped, r, ids, root);
      var front := ConjoinedOutcome(filter, dropped[..checks - 1], checks - 1, r.left, ids, root);
      AreOutcomesNext(dropped, checks - 1, front, r.right.expr, ids, root);
      ConjoinedNextExpr(WhenToBool(filter.expr, true), front, r.right.expr);
      rs := front + [r.right.expr];
    }
  }

  /** A cleaned operand fits its use, and what becomes of it is what `CheckBecomes` says. */
  lemma {:induction false} CleanedFits(root: Expr, x: Object, i: nat, used: bool, filter: Object)
    requires (x, used) in DroppedObjects(root, [], true) && Derives(UNWRAP, Labelled(root, []), filter)
    ensures CleanedObject(x, i).expr == Rewritten(StripDropNulls, x.expr)
    ensures Fits(CleanedObject(x, i), used, root) && (x.expr, used) in DroppedUses(root, true)
    ensures used && Stable(UnwrapDropNulls, x.expr) ==>
                BooleanIds(CleanedObject(x, i), true) <= BooleanIds(filter, true)
  {
    var strip := Sweep(StripDropNulls, i);
    assert forall more: seq<nat> :: [] + more == more;
    assert StandsAt(root, [], true, root);
    DroppedObjectStands(x, used, root, [], true, root);
    SweptDerives(strip, x, {});
    SweptIsRewritten(strip, x, {});
    DerivedFits(strip, x.expr, x.id.path, used, root, CleanedObject(x, i));
    if used && Stable(UnwrapDropNulls, x.expr) {
      DropFreeIsKept(strip, x, CleanedObject(x, i));
      DroppedObjectKept(x, used, root, [], true, filter);
    }
  }

  lemma {:induction false} FilterFits(root: Expr, filter: Object)
    requires Derives(UNWRAP, Labelled(root, []), filter)
    ensures Fits(filter, true, root) && filter.expr == Rewritten(UnwrapDropNulls, root)
  {
    assert forall more: seq<nat> :: [] + more == more;
    assert StandsAt(root, [], true, root);
    DerivedFits(UNWRAP, root, [], true, root, filter);
    DerivesValue(UNWRAP, Labelled(root, []), filter);
  }

  lemma {:induction false} CheckOutcome(root: Expr, x: Object, i: nat, filter: Object, r: Expr)
    requires IsDropped(x, DroppedObjects(root, [], true)) && Derives(UNWRAP, Labelled(root, []), filter)
    requires Outcome(CleanedObject(x, i), Shared, r, BooleanIds(filter, true), root)
    ensures CheckBecomes(DroppedUses(root, true), x.expr, r)
  {
    var used := (x, true) in DroppedObjects(root, [], true);
    CleanedFits(root, x, i, used, filter);
    if used && !Stable(UnwrapDropNulls, x.expr) {
      BecomesUnshared(CleanedObject(x, i).expr, BooleanIds(CleanedObject(x, i), true) <= BooleanIds(filter, true), r);
    }
  }

  lemma {:induction false} DroppedFit(root: Expr, filter: Object, dropped: seq<Object>)
    requires AreDropped(dropped, DroppedObjects(root, [], true)) && Derives(UNWRAP, Labelled(root, []), filter)
    ensures AllFit(dropped, root)
  {
    forall i | 0 <= i < |dropped|
      ensures Fits(CleanedObject(dropped[i], i), true, root) || Fits(CleanedObject(dropped[i], i), false, root)
    {
      CleanedFits(root, dropped[i], i, (dropped[i], true) in DroppedObjects(root, [], true), filter);
    }
  }

  lemma {:induction false} CheckOutcomes(root: Expr, filter: Object, dropped: seq<Object>, rs: seq<Expr>)
    requires AreDropped(dropped, DroppedObjects(root, [], true)) && Derives(UNWRAP, Labelled(root, []), filter)
    requires AreOutcomes(dropped, rs, BooleanIds(filter, true), root)
    ensures ChecksBecome(DroppedUses(root, true), Exprs(dropped), rs)
  {
    forall i | 0 <= i < |rs| ensures CheckBecomes(DroppedUses(root, true), Exprs(dropped)[i], rs[i]) {
      CheckOutcome(root, dropped[i], i, filter, rs[i]);
    }
  }

  /** The filter after the first two passes: the filter itself is rewritten by the use of its nodes, and each check
      becomes what the use of its operand in the filter allows. */
  lemma {:induction false} BooleanRewriting(root: Expr) returns (rs: seq<Expr>)
    ensures BooleanRewritten(root) == Conjoined(WhenToBool(Rewritten(UnwrapDropNulls, root), true), rs)
    ensures ChecksBecome(DroppedUses(root, true), DroppedOperands(root), rs)
  {
    var n := Labelled(root, []);
    var filter, dropped := SweptObject(UNWRAP, n, {}), SweptDropped(UNWRAP, n, {});
    SweptDerives(UNWRAP, n, {});
    SweptDrops(root);
    FilterFits(root, filter);
    DroppedFit(root, filter, dropped);
    ConjoinedFits(filter, dropped, root);
    BooleanWhenSwept(DropNullsObject(n), |dropped|, root);
    rs := ConjoinedOutcome(filter, dropped, |dropped|, BooleanRewritten(root), BooleanIds(filter, true), root);
    DropNullsObjectValue(n);
    CheckOutcomes(root, filter, dropped, rs);
  }
}
