/** `rewrite_boolean_when` on objects: which nodes end up marked, and what each becomes. */
module Marks {
  import opened Ir
  import opened Lists
  import opened NodeRewriters
  import opened Objects
  import opened RewriteLoops
  import opened Conditionals
  import opened Positions

  const BOOLEAN_WHEN: Sweep := Sweep(BooleanWhen, 0)

  /** How an entry of the sweep is used: as a boolean or not, or as an operand of a check for NULL, where it
      may have the mark of another place; `ElseArm` and `NegatedPredicate` are `~p & f` and `~p` of a
      rewritten conditional; `Conjunction` is the filter with that many checks conjoined. */
  datatype Role = Plain | Boolean | Shared | ElseArm | NegatedPredicate | Conjunction(checks: nat) | Checked

  predicate IsCheck(e: Expr) { e.Unary? && e.uop == IsNotNullOp }

  /** The conjunction that ends `rewrite_drop_nulls`. */
  predicate FitsConjunction(n: Object, checks: nat, root: Expr)
    decreases checks
  {
    if checks == 0 then Fits(n, true, root)
    else
      && IsAnd(n.expr) && |n.kids| == 2 && IsTree(n.kids[0]) && IsTree(n.kids[1])
      && IsMarkable(n.id, root) && IsMarkable(n.kids[1].id, root)
      && FitsConjunction(n.kids[0], checks - 1, root) && FitsCheck(n.kids[1], root)
  }

  /** An identity of the filter that may be marked. */
  predicate IsMarkable(id: Id, root: Expr) { MayBeMarked(id, root) && !MadeByBooleanWhen(id) }

  predicate FitsCheck(n: Object, root: Expr) {
    && IsCheck(n.expr) && |n.kids| == 1 && IsTree(n.kids[0])
    && (Fits(n.kids[0], true, root) || Fits(n.kids[0], false, root))
  }

  /** The filter itself, inside the conjunction. */
  function Filtered(n: Node, checks: nat): Node {
    if checks == 0 || n.kids == [] then n else Filtered(n.kids[0], checks - 1)
  }

  /** An entry with its role, under the marks so far. */
  predicate FitsRole(n: Object, role: Role, marks: set<Id>, root: Expr) {
    !MadeByBooleanWhen(n.id)
    && match role
       case Plain => Fits(n, false, root)
       case Boolean => Fits(n, true, root) && n.id in marks
       case Shared => Fits(n, true, root) || Fits(n, false, root)
       case ElseArm =>
         && IsAnd(n.expr) && |n.kids| == 2 && n.id in marks && IsTree(n.kids[0]) && IsTree(n.kids[1])
         && FitsNegated(n.kids[0], marks, root) && Fits(n.kids[1], true, root)
       case NegatedPredicate => FitsNegated(n, marks, root)
       case Conjunction(checks) => FitsConjunction(n, checks, root) && n.id in marks
       case Checked => FitsCheck(n, root)
  }

  predicate FitsNegated(n: Object, marks: set<Id>, root: Expr) {
    && IsNot(n.expr) && |n.kids| == 1 && IsTree(n.kids[0]) && n.id.Made?
    && Fits(n.kids[0], true, root) && n.kids[0].id in marks
  }

  /** The roles of the children that an entry's visit appends. */
  function KidRoles(n: Object, role: Role, marked: bool, node: Object): (roles: seq<Role>)
    ensures |roles| == |node.kids|
  {
    if IsTernaryRewritten(n, marked) && |node.kids| == 2 then [Boolean, ElseArm]
    else if role == ElseArm && |node.kids| == 2 then [NegatedPredicate, Boolean]
    else if role == NegatedPredicate then seq(|node.kids|, _ => Boolean)
    else if role.Conjunction? && role.checks > 0 && |node.kids| == 2 then [Conjunction(role.checks - 1), Checked]
    else if role == Checked then seq(|node.kids|, _ => Shared)
    else seq(|node.kids|, i requires 0 <= i < |node.kids| => KidRole(n.expr, role, marked, i))
  }

  predicate IsTernaryRewritten(n: Object, marked: bool) { marked && IsValidBooleanTernary(n.expr) }

  function KidRole(e: Expr, role: Role, marked: bool, i: nat): Role {
    if role == Shared && !marked && (IsAnd(e) || IsOr(e) || (e.Ternary? && i > 0)) then Shared
    else if KidUse(e, role != Plain, IsValidBooleanTernary(e), i) then Boolean
    else Plain
  }

  /** What becomes of an entry: `r`, with `filter` the identities used as booleans in the filter itself. */
  predicate Outcome(n: Object, role: Role, r: Expr, filter: set<Id>, root: Expr)
    decreases n
  {
    match role
    case Plain => r == WhenToBool(n.expr, false)
    case Boolean => r == WhenToBool(n.expr, true)
    case Shared =>
      && (Fits(n, true, root) ==> Becomes(n.expr, BooleanIds(n, true) <= filter, r))
      && (Fits(n, false, root) ==> r == WhenToBool(n.expr, false))
    case ElseArm =>
      IsAnd(n.expr) && IsNot(n.expr.left)
      && r == And(Not(WhenToBool(n.expr.left.expr, true)), WhenToBool(n.expr.right, true))
    case NegatedPredicate => IsNot(n.expr) && r == Not(WhenToBool(n.expr.expr, true))
    case Conjunction(checks) =>
      if checks == 0 then r == WhenToBool(n.expr, true)
      else
        && |n.kids| == 2 && IsTree(n.kids[0]) && IsTree(n.kids[1]) && IsAnd(r)
        && Outcome(n.kids[0], Conjunction(checks - 1), r.left, filter, root)
        && Outcome(n.kids[1], Checked, r.right, filter, root)
    case Checked =>
      && |n.kids| == 1 && IsTree(n.kids[0]) && IsCheck(r)
      && Outcome(n.kids[0], Shared, r.expr, filter, root)
  }

  // --- One entry ---

  lemma {:induction false} FixUnrewritten(at: nat, n: Object, marks: set<Id>)
    requires !IsTernaryRewritten(n, n.id in marks)
    ensures FixObject(BOOLEAN_WHEN, at, n, marks)
         == Fixed(n, marks + MarksAdded(BooleanWhen, n, n.id in marks, n), [])
  {
  }

  lemma {:induction false} FixRewritten(at: nat, n: Object, marks: set<Id>)
    requires IsTernaryRewritten(n, n.id in marks)
    ensures |n.kids| == 3
    ensures FixObject(BOOLEAN_WHEN, at, n, marks).node == ConditionalObject(n, BOOLEAN_WHEN, at)
    ensures FixObject(BOOLEAN_WHEN, at, n, marks).marks
         == marks + {n.kids[0].id, Made(BOOLEAN_WHEN, at, 0)} + {Made(BOOLEAN_WHEN, at, 1), Made(BOOLEAN_WHEN, at, 2)}
  {
    KidExprs(n);
    var next := ObjectStep(BOOLEAN_WHEN, at, n, true);
    assert next == ConditionalObject(n, BOOLEAN_WHEN, at);
    var marks' := marks + {n.kids[0].id, next.id};
    ExprStepLosesWeight(BooleanWhen, n.expr, true);
    FixUnrewritten(at, next, marks');
    assert MarksAdded(BooleanWhen, n, true, next) == {n.kids[0].id, next.id};
    assert MarksAdded(BooleanWhen, next, true, next) == {Made(BOOLEAN_WHEN, at, 1), Made(BOOLEAN_WHEN, at, 2)};
    assert FixObject(BOOLEAN_WHEN, at, n, marks).marks == FixObject(BOOLEAN_WHEN, at, next, marks').marks;
  }

  predicate MarksFit(marks: set<Id>, root: Expr) {
    forall id | id in marks :: IsMarkable(id, root)
  }

  lemma {:induction false} ConjunctionMarkable(n: Object, checks: nat, root: Expr)
    requires FitsConjunction(n, checks, root)
    ensures IsMarkable(n.id, root)
  {
  }

  lemma {:induction false} FitsUnmade(n: Object, boolean: bool, root: Expr)
    requires Fits(n, boolean, root)
    ensures !MadeByBooleanWhen(n.id)
  {
  }

  /** A marked connective or conditional is used as a boolean. */
  lemma {:induction false} MarkedIsUsed(n: Object, role: Role, marks: set<Id>, root: Expr)
    requires FitsRole(n, role, marks, root) && n.id in marks && MayBeMarked(n.id, root)
    ensures role == Plain ==> !Matters(n.expr)
    ensures role == Shared && Matters(n.expr) ==> Fits(n, true, root)
    ensures n.expr.Ternary? ==> Fits(n, true, root)
  {
  }

  /** The marks a visit adds to a node it does not rewrite. */
  lemma {:induction false} MarksAddedFit(n: Object, role: Role, marks: set<Id>, root: Expr)
    requires FitsRole(n, role, marks, root) && (n.id in marks ==> MayBeMarked(n.id, root))
    ensures MarksFit(MarksAdded(BooleanWhen, n, n.id in marks, n), root)
  {
    KidExprs(n);
    if (IsAnd(n.expr) || IsOr(n.expr)) && n.id in marks {
      MarkedIsUsed(n, role, marks, root);
      AddedOperandsFit(n, role, marks, root);
    } else if n.expr.Ternary? {
      PredicateFits(n, role, marks, root);
    }
  }

  lemma {:induction false} AddedOperandsFit(n: Object, role: Role, marks: set<Id>, root: Expr)
    requires FitsRole(n, role, marks, root) && (IsAnd(n.expr) || IsOr(n.expr)) && |n.kids| == 2
    requires role != Plain && (role == Shared ==> Fits(n, true, root))
    ensures MarksFit({n.kids[0].id, n.kids[1].id}, root)
  {
    KidExprs(n);
    if role == ElseArm {
      FitsUnmade(n.kids[1], true, root);
    } else if role.Conjunction? && role.checks > 0 {
      ConjunctionMarkable(n.kids[0], role.checks - 1, root);
    } else {
      FittingKid(n, true, root, 0);
      FittingKid(n, true, root, 1);
    }
  }

  lemma {:induction false} PredicateFits(n: Object, role: Role, marks: set<Id>, root: Expr)
    requires FitsRole(n, role, marks, root) && n.expr.Ternary? && |n.kids| == 3
    ensures Fits(n.kids[0], true, root)
  {
    if Fits(n, true, root) {
      FittingKid(n, true, root, 0);
    } else {
      FittingKid(n, false, root, 0);
    }
  }

  /** The children of a node in the filter, or not used as a boolean, or beneath a check. */
  lemma {:induction false} OrdinaryKidFits(n: Object, role: Role, marks: set<Id>, after: set<Id>, root: Expr, i: nat)
    requires role == Plain || role == Boolean || role == Shared || role == Conjunction(0)
    requires FitsRole(n, role, marks, root) && MarksFit(marks, root) && i < |n.kids|
    requires !IsTernaryRewritten(n, n.id in marks) && MarksAdded(BooleanWhen, n, n.id in marks, n) <= after
    ensures IsTree(n.kids[i]) && FitsRole(n.kids[i], KidRole(n.expr, role, n.id in marks, i), after, root)
  {
    KidExprs(n);
    if n.id in marks {
      MarkedIsUsed(n, role, marks, root);
    }
    var valid := IsValidBooleanTernary(n.expr);
    if Fits(n, true, root) && (role != Plain || !Matters(n.expr)) {
      FittingKid(n, true, root, i);
      FitsUnmade(n.kids[i], KidUse(n.expr, true, valid, i), root);
    } else {
      FittingKid(n, false, root, i);
      FitsUnmade(n.kids[i], KidUse(n.expr, false, valid, i), root);
    }
  }

  lemma {:induction false} KidFitsRole(n: Object, role: Role, marks: set<Id>, after: set<Id>, root: Expr, i: nat)
    requires FitsRole(n, role, marks, root) && MarksFit(marks, root) && i < |n.kids|
    requires !IsTernaryRewritten(n, n.id in marks)
    requires marks <= after && MarksAdded(BooleanWhen, n, n.id in marks, n) <= after
    ensures IsTree(n.kids[i]) && FitsRole(n.kids[i], KidRoles(n, role, n.id in marks, n)[i], after, root)
  {
    if role == Plain || role == Boolean || role == Shared || role == Conjunction(0) {
      OrdinaryKidFits(n, role, marks, after, root, i);
    } else {
      SpecialKidFits(n, role, marks, after, root, i);
    }
  }

  lemma {:induction false} SpecialKidFits(n: Object, role: Role, marks: set<Id>, after: set<Id>, root: Expr, i: nat)
    requires role == ElseArm || role == NegatedPredicate || role == Checked || (role.Conjunction? && role.checks > 0)
    requires FitsRole(n, role, marks, root) && i < |n.kids|
    requires marks <= after && MarksAdded(BooleanWhen, n, n.id in marks, n) <= after
    ensures IsTree(n.kids[i]) && FitsRole(n.kids[i], KidRoles(n, role, n.id in marks, n)[i], after, root)
  {
    if role == ElseArm {
      ElseArmKidFits(n, marks, after, root, i);
    } else if role.Conjunction? {
      ConjunctKidFits(n, role.checks, marks, after, root, i);
    } else if role == Checked {
      CheckedUnmade(n, root);
    } else {
      FitsUnmade(n.kids[0], true, root);
    }
  }

  lemma {:induction false} ElseArmKidFits(n: Object, marks: set<Id>, after: set<Id>, root: Expr, i: nat)
    requires FitsRole(n, ElseArm, marks, root) && i < |n.kids|
    requires marks <= after && MarksAdded(BooleanWhen, n, n.id in marks, n) <= after
    ensures IsTree(n.kids[i]) && FitsRole(n.kids[i], KidRoles(n, ElseArm, n.id in marks, n)[i], after, root)
  {
    KidExprs(n);
    FitsUnmade(n.kids[1], true, root);
    assert n.kids[1].id in MarksAdded(BooleanWhen, n, n.id in marks, n);
    assert KidRoles(n, ElseArm, n.id in marks, n) == [NegatedPredicate, Boolean];
  }

  lemma {:induction false} ConjunctKidFits(n: Object, checks: nat, marks: set<Id>, after: set<Id>, root: Expr, i: nat)
    requires checks > 0 && FitsRole(n, Conjunction(checks), marks, root) && i < |n.kids|
    requires marks <= after && MarksAdded(BooleanWhen, n, n.id in marks, n) <= after
    ensures IsTree(n.kids[i]) && FitsRole(n.kids[i], KidRoles(n, Conjunction(checks), n.id in marks, n)[i], after, root)
  {
    ConjunctRoles(n, checks, n.id in marks);
    if i == 0 {
      RestFits(n, checks, marks, after, root);
    } else {
      CheckedUnmade(n.kids[1], root);
    }
  }

  lemma {:induction false} ConjunctRoles(n: Object, checks: nat, marked: bool)
    requires checks > 0 && IsAnd(n.expr) && |n.kids| == 2
    ensures KidRoles(n, Conjunction(checks), marked, n) == [Conjunction(checks - 1), Checked]
  {
  }

  lemma {:induction false} RestFits(n: Object, checks: nat, marks: set<Id>, after: set<Id>, root: Expr)
    requires checks > 0 && FitsConjunction(n, checks, root) && n.id in marks
    requires MarksAdded(BooleanWhen, n, true, n) <= after
    ensures |n.kids| == 2 && IsTree(n.kids[0]) && FitsRole(n.kids[0], Conjunction(checks - 1), after, root)
  {
    ConjunctionMarkable(n.kids[0], checks - 1, root);
    assert n.kids[0].id in MarksAdded(BooleanWhen, n, true, n);
  }

  lemma {:induction false} CheckedUnmade(n: Object, root: Expr)
    requires FitsCheck(n, root)
    ensures |n.kids| == 1 && !MadeByBooleanWhen(n.kids[0].id)
  {
  }

  lemma {:induction false} ArmsFit(n: Object, at: nat, after: set<Id>, root: Expr)
    requires Fits(n, true, root) && IsValidBooleanTernary(n.expr) && |n.kids| == 3
    requires {n.kids[0].id, Made(BOOLEAN_WHEN, at, 1), Made(BOOLEAN_WHEN, at, 2)} <= after
    ensures
      var arms := ConditionalObject(n, BOOLEAN_WHEN, at).kids;
      && |arms| == 2 && IsTree(arms[0]) && IsTree(arms[1])
      && FitsRole(arms[0], Boolean, after, root) && FitsRole(arms[1], ElseArm, after, root)
  {
    KidExprs(n);
    forall i | 0 <= i < 3 ensures Fits(n.kids[i], true, root) {
      FittingKid(n, true, root, i);
    }
    var arm := ConditionalObject(n, BOOLEAN_WHEN, at).kids[0];
    assert arm.kids == [n.kids[0], n.kids[1]] && IsAnd(arm.expr);
    assert Fits(arm, true, root);
  }

  /** The children of a visited entry fit the roles they get. */
  predicate VisitFits(n: Object, role: Role, marked: bool, f: Fixed, root: Expr) {
    && MarksFit(f.marks, root)
    && forall i | 0 <= i < |f.node.kids| ::
         IsTree(f.node.kids[i]) && FitsRole(f.node.kids[i], KidRoles(n, role, marked, f.node)[i], f.marks, root)
  }

  lemma {:induction false} RewrittenMarksFit(n: Object, role: Role, marks: set<Id>, at: nat, after: set<Id>, root: Expr)
    requires FitsRole(n, role, marks, root) && MarksFit(marks, root) && n.expr.Ternary? && |n.kids| == 3
    requires
      after == marks + {n.kids[0].id, Made(BOOLEAN_WHEN, at, 0)}
               + {Made(BOOLEAN_WHEN, at, 1), Made(BOOLEAN_WHEN, at, 2)}
    ensures MarksFit(after, root)
  {
    PredicateFits(n, role, marks, root);
    FitsUnmade(n.kids[0], true, root);
  }

  lemma {:induction false} VisitRewritten(at: nat, n: Object, role: Role, marks: set<Id>, root: Expr)
    requires FitsRole(n, role, marks, root) && MarksFit(marks, root) && IsTernaryRewritten(n, n.id in marks)
    ensures VisitFits(n, role, true, FixObject(BOOLEAN_WHEN, at, n, marks), root)
  {
    var f := FixObject(BOOLEAN_WHEN, at, n, marks);
    FixRewritten(at, n, marks);
    MarkedIsUsed(n, role, marks, root);
    RewrittenMarksFit(n, role, marks, at, f.marks, root);
    ArmsFit(n, at, f.marks, root);
    ArmRoles(n, role, f.node);
  }

  lemma {:induction false} ArmRoles(n: Object, role: Role, node: Object)
    requires IsValidBooleanTernary(n.expr) && |node.kids| == 2
    ensures KidRoles(n, role, true, node) == [Boolean, ElseArm]
  {
  }

  lemma {:induction false} VisitUnrewritten(at: nat, n: Object, role: Role, marks: set<Id>, root: Expr)
    requires FitsRole(n, role, marks, root) && MarksFit(marks, root) && !IsTernaryRewritten(n, n.id in marks)
    ensures VisitFits(n, role, n.id in marks, FixObject(BOOLEAN_WHEN, at, n, marks), root)
  {
    FixUnrewritten(at, n, marks);
    MarksAddedFit(n, role, marks, root);
    var after := FixObject(BOOLEAN_WHEN, at, n, marks).marks;
    forall i | 0 <= i < |n.kids|
      ensures IsTree(n.kids[i]) && FitsRole(n.kids[i], KidRoles(n, role, n.id in marks, n)[i], after, root)
    {
      KidFitsRole(n, role, marks, after, root, i);
    }
  }

  /** Visiting an entry gives its children fitting roles and leaves fitting marks. */
  lemma {:induction false} VisitEntry(at: nat, n: Object, role: Role, marks: set<Id>, root: Expr)
    requires FitsRole(n, role, marks, root) && MarksFit(marks, root)
    ensures VisitFits(n, role, n.id in marks, FixObject(BOOLEAN_WHEN, at, n, marks), root)
  {
    if IsTernaryRewritten(n, n.id in marks) {
      VisitRewritten(at, n, role, marks, root);
    } else {
      VisitUnrewritten(at, n, role, marks, root);
    }
  }

  lemma {:induction false} FitsRoleStill(n: Object, role: Role, marks: set<Id>, more: set<Id>, root: Expr)
    requires FitsRole(n, role, marks, root) && marks <= more
    ensures FitsRole(n, role, more, root)
  {
  }

  // --- The first pass ---

  /** Entry `k` was visited in its role, and its children have the roles that follow. */
  predicate WasRoled(w: Walk, roles: seq<Role>, k: nat, root: Expr) {
    && k < |w.seen| == |roles| == |w.nodes| == |w.kidsOf| && k < |w.marksAt|
    && FitsRole(w.seen[k], roles[k], w.marksAt[k], root) && MarksFit(w.marksAt[k], root)
    && HaveRoles(roles, w.kidsOf[k], KidRoles(w.seen[k], roles[k], w.seen[k].id in w.marksAt[k], w.nodes[k]))
  }

  predicate HaveRoles(roles: seq<Role>, idx: seq<nat>, kidRoles: seq<Role>) {
    |idx| == |kidRoles| && forall j | 0 <= j < |idx| :: idx[j] < |roles| && roles[idx[j]] == kidRoles[j]
  }

  predicate Roled(w: Walk, roles: seq<Role>, at: nat, root: Expr) {
    && |roles| == |w.seen| && at < |w.marksAt| && MarksFit(w.marksAt[at], root)
    && (forall k | 0 <= k < at :: WasRoled(w, roles, k, root))
    && (forall k | at <= k < |w.seen| :: FitsRole(w.seen[k], roles[k], w.marksAt[at], root))
  }

  lemma {:induction false} HaveRolesStill(roles: seq<Role>, more: seq<Role>, idx: seq<nat>, kidRoles: seq<Role>)
    requires HaveRoles(roles, idx, kidRoles)
    ensures HaveRoles(roles + more, idx, kidRoles)
  {
  }

  lemma {:induction false} HaveRolesNow(roles: seq<Role>, kidRoles: seq<Role>)
    ensures HaveRoles(roles + kidRoles, Indices(|roles|, |kidRoles|), kidRoles)
  {
    AppendedIndices(roles, kidRoles);
  }

  function VisitRoles(w: Walk, roles: seq<Role>, at: nat): seq<Role>
    requires Discovered(BOOLEAN_WHEN, w, at) && at < |w.seen| == |roles|
  {
    KidRoles(w.seen[at], roles[at], w.seen[at].id in w.marksAt[at],
             FixObject(BOOLEAN_WHEN, at, w.nodes[at], w.marksAt[at]).node)
  }

  lemma {:induction false} RolesJoined(seen: seq<Object>, roles: seq<Role>, kids: seq<Object>, kidRoles: seq<Role>,
                                       at: nat, marks: set<Id>, more: set<Id>, root: Expr)
    requires |seen| == |roles| && |kids| == |kidRoles| && marks <= more
    requires forall k | at <= k < |seen| :: FitsRole(seen[k], roles[k], marks, root)
    requires forall i | 0 <= i < |kids| :: FitsRole(kids[i], kidRoles[i], more, root)
    ensures forall k | at <= k < |seen + kids| :: FitsRole((seen + kids)[k], (roles + kidRoles)[k], more, root)
  {
    forall k | at <= k < |seen + kids| ensures FitsRole((seen + kids)[k], (roles + kidRoles)[k], more, root) {
      if k < |seen| {
        FitsRoleStill(seen[k], roles[k], marks, more, root);
      } else {
        assert (seen + kids)[k] == kids[k - |seen|] && (roles + kidRoles)[k] == kidRoles[k - |seen|];
      }
    }
  }

  lemma {:induction false} WasRoledNext(w: Walk, roles: seq<Role>, at: nat, root: Expr, k: nat)
    requires Discovered(BOOLEAN_WHEN, w, at) && at < |w.seen| && Roled(w, roles, at, root) && k <= at
    ensures WasRoled(VisitNext(BOOLEAN_WHEN, w, at), roles + VisitRoles(w, roles, at), k, root)
  {
    var kidRoles := VisitRoles(w, roles, at);
    if k < at {
      assert WasRoled(w, roles, k, root);
      HaveRolesStill(roles, kidRoles, w.kidsOf[k],
                     KidRoles(w.seen[k], roles[k], w.seen[k].id in w.marksAt[k], w.nodes[k]));
    } else {
      HaveRolesNow(roles, kidRoles);
    }
  }

  lemma {:induction false} RoledNext(w: Walk, roles: seq<Role>, at: nat, root: Expr)
    requires Discovered(BOOLEAN_WHEN, w, at) && at < |w.seen| && Roled(w, roles, at, root)
    ensures Roled(VisitNext(BOOLEAN_WHEN, w, at), roles + VisitRoles(w, roles, at), at + 1, root)
  {
    var next, kidRoles := VisitNext(BOOLEAN_WHEN, w, at), VisitRoles(w, roles, at);
    VisitEntry(at, w.seen[at], roles[at], w.marksAt[at], root);
    forall k | 0 <= k < at + 1 ensures WasRoled(next, roles + kidRoles, k, root) {
      WasRoledNext(w, roles, at, root, k);
    }
    var f := FixObject(BOOLEAN_WHEN, at, w.seen[at], w.marksAt[at]);
    RolesJoined(w.seen, roles, Kids(f.node), kidRoles, at, w.marksAt[at], f.marks, root);
  }

  lemma {:induction false} RolesFromHere(w: Walk, roles: seq<Role>, at: nat, root: Expr) returns (all: seq<Role>)
    requires Discovered(BOOLEAN_WHEN, w, at) && Roled(w, roles, at, root)
    ensures roles <= all && Roled(Discover(BOOLEAN_WHEN, w, at), all, |all|, root)
    decreases Pending(BOOLEAN_WHEN, w, at)
  {
    if at == |w.seen| {
      all := roles;
    } else {
      DiscoveredNext(BOOLEAN_WHEN, w, at);
      PendingNext(BOOLEAN_WHEN, w, at);
      RoledNext(w, roles, at, root);
      all := RolesFromHere(VisitNext(BOOLEAN_WHEN, w, at), roles + VisitRoles(w, roles, at), at + 1, root);
    }
  }

  /** A finished first pass over a fitting conjunction. */
  predicate IsRoledWalk(w: Walk, roles: seq<Role>, root: Expr) {
    Discovered(BOOLEAN_WHEN, w, |w.seen|) && Roled(w, roles, |w.seen|, root)
  }

  lemma {:induction false} MarksGrow(w: Walk, k: nat, m: nat)
    requires Discovered(BOOLEAN_WHEN, w, |w.seen|) && k <= m <= |w.seen|
    ensures w.marksAt[k] <= w.marksAt[m]
    decreases m - k
  {
    if k < m {
      assert Visited(BOOLEAN_WHEN, w, k);
      MarksGrow(w, k + 1, m);
    }
  }

  /** The identities that an entry of the filter is bound to mark, itself and through its children. */
  function Marked(n: Node, role: Role): set<Id> {
    match role
    case Plain => BooleanIds(n, false)
    case Boolean => BooleanIds(n, true)
    case ElseArm =>
      if |n.kids| == 2 && |n.kids[0].kids| == 1 then BooleanIds(n.kids[0].kids[0], true) + BooleanIds(n.kids[1], true)
      else {}
    case NegatedPredicate => if |n.kids| == 1 then BooleanIds(n.kids[0], true) else {}
    case Conjunction(checks) => BooleanIds(Filtered(n, checks), true)
    case Shared => {}
    case Checked => {}
  }

  lemma {:induction false} BooleanIdsWithin(n: Object, boolean: bool, last: set<Id>)
    requires boolean ==> n.id in last
    requires forall i | 0 <= i < |n.kids| ::
               BooleanIds(n.kids[i], KidUse(n.expr, boolean, IsValidBooleanTernary(n.expr), i)) <= last
    ensures BooleanIds(n, boolean) <= last
  {
  }

  lemma {:induction false} ArmsOf(n: Object, at: nat)
    requires n.expr.Ternary?
    ensures |n.kids| == 3
    ensures
      var arms := ConditionalObject(n, BOOLEAN_WHEN, at).kids;
      && |arms| == 2 && IsAnd(arms[0].expr) && arms[0].kids == [n.kids[0], n.kids[1]]
      && |arms[1].kids| == 2 && arms[1].kids[0].kids == [n.kids[0]] && arms[1].kids[1] == n.kids[2]
  {
    KidExprs(n);
  }

  lemma {:induction false} ArmMarked(arm: Node, last: set<Id>)
    requires IsAnd(arm.expr) && |arm.kids| == 2 && BooleanIds(arm, true) <= last
    ensures BooleanIds(arm.kids[0], true) <= last && BooleanIds(arm.kids[1], true) <= last
  {
    KidBooleanIds(arm, true, 0);
    KidBooleanIds(arm, true, 1);
  }

  lemma {:induction false} ArmsMarked(n: Object, at: nat, last: set<Id>)
    requires IsValidBooleanTernary(n.expr) && n.id in last
    requires
      var arms := ConditionalObject(n, BOOLEAN_WHEN, at).kids;
      |arms| == 2 && Marked(arms[0], Boolean) <= last && Marked(arms[1], ElseArm) <= last
    ensures BooleanIds(n, true) <= last
  {
    ArmsOf(n, at);
    var arms := ConditionalObject(n, BOOLEAN_WHEN, at).kids;
    ConditionalMarked(n, arms[0], arms[1], last);
  }

  lemma {:induction false} ConditionalMarked(n: Object, thenArm: Node, elseArm: Node, last: set<Id>)
    requires IsValidBooleanTernary(n.expr) && |n.kids| == 3 && n.id in last
    requires IsAnd(thenArm.expr) && thenArm.kids == [n.kids[0], n.kids[1]]
    requires |elseArm.kids| == 2 && elseArm.kids[0].kids == [n.kids[0]] && elseArm.kids[1] == n.kids[2]
    requires BooleanIds(thenArm, true) <= last && Marked(elseArm, ElseArm) <= last
    ensures BooleanIds(n, true) <= last
  {
    ArmMarked(thenArm, last);
    forall i | 0 <= i < 3 ensures BooleanIds(n.kids[i], true) <= last {
    }
    BooleanIdsWithin(n, true, last);
  }

  lemma {:induction false} MarkedByUse(n: Object, role: Role, marks: set<Id>, last: set<Id>)
    requires role == Plain || role == Boolean || role == Conjunction(0)
    requires !IsTernaryRewritten(n, n.id in marks) && (role != Plain ==> n.id in last)
    requires forall i | 0 <= i < |n.kids| :: Marked(n.kids[i], KidRoles(n, role, n.id in marks, n)[i]) <= last
    ensures BooleanIds(n, role != Plain) <= last
  {
    forall i | 0 <= i < |n.kids|
      ensures BooleanIds(n.kids[i], KidUse(n.expr, role != Plain, IsValidBooleanTernary(n.expr), i)) <= last
    {
      assert KidRoles(n, role, n.id in marks, n)[i] == KidRole(n.expr, role, n.id in marks, i);
    }
    BooleanIdsWithin(n, role != Plain, last);
  }

  lemma {:induction false} MarkedByKids(n: Object, role: Role, marks: set<Id>, last: set<Id>, root: Expr)
    requires FitsRole(n, role, marks, root) && marks <= last && !IsTernaryRewritten(n, n.id in marks)
    requires forall i | 0 <= i < |n.kids| :: Marked(n.kids[i], KidRoles(n, role, n.id in marks, n)[i]) <= last
    ensures Marked(n, role) <= last
  {
    if role == Plain || role == Boolean || role == Conjunction(0) {
      MarkedByUse(n, role, marks, last);
    } else if role == ElseArm {
      assert Marked(n.kids[0], NegatedPredicate) <= last && Marked(n.kids[1], Boolean) <= last;
    } else if role == NegatedPredicate {
      assert Marked(n.kids[0], Boolean) <= last;
    } else if role.Conjunction? {
      assert Marked(n.kids[0], Conjunction(role.checks - 1)) <= last;
    }
  }

  /** By the end of the first pass everything the filter uses as a boolean is marked. */
  lemma {:induction false} EntryMarked(w: Walk, roles: seq<Role>, k: nat, root: Expr)
    requires IsRoledWalk(w, roles, root) && k < |w.seen|
    ensures Marked(w.seen[k], roles[k]) <= w.marksAt[|w.seen|]
    decreases |w.seen| - k
  {
    assert WasRoled(w, roles, k, root) && Visited(BOOLEAN_WHEN, w, k);
    var n, role, idx, node := w.seen[k], roles[k], w.kidsOf[k], w.nodes[k];
    var marks, last := w.marksAt[k], w.marksAt[|w.seen|];
    var kidRoles := KidRoles(n, role, n.id in marks, node);
    forall i | 0 <= i < |node.kids| ensures Marked(node.kids[i], kidRoles[i]) <= last {
      EntryMarked(w, roles, idx[i], root);
    }
    MarksGrow(w, k, |w.seen|);
    MarkedSoFar(n, role, marks, last, root, k);
  }

  lemma {:induction false} MarkedSoFar(n: Object, role: Role, marks: set<Id>, last: set<Id>, root: Expr, k: nat)
    requires FitsRole(n, role, marks, root) && MarksFit(marks, root) && marks <= last
    requires
      var node := FixObject(BOOLEAN_WHEN, k, n, marks).node;
      forall i | 0 <= i < |node.kids| :: Marked(node.kids[i], KidRoles(n, role, n.id in marks, node)[i]) <= last
    ensures Marked(n, role) <= last
  {
    if IsTernaryRewritten(n, n.id in marks) {
      FixRewritten(k, n, marks);
      var node := ConditionalObject(n, BOOLEAN_WHEN, k);
      assert KidRoles(n, role, true, node) == [Boolean, ElseArm];
      assert Marked(node.kids[0], Boolean) <= last && Marked(node.kids[1], ElseArm) <= last;
      ArmsMarked(n, k, last);
      MarkedIsUsed(n, role, marks, root);
    } else {
      FixUnrewritten(k, n, marks);
      MarkedByKids(n, role, marks, last, root);
    }
  }

  // --- The second pass ---

  /** Marks under which the entries before `k` are rebuilt: what has been rebuilt comes from entries behind. */
  predicate MarksFrom(marks: set<Id>, k: nat, root: Expr) {
    forall id | id in marks :: MayBeMarked(id, root) && (MadeByBooleanWhen(id) ==> id.at >= k)
  }

  /** What an entry's node can be rebuilt to, by identity. */
  predicate RebuiltFrom(n: Object, k: nat, r: Object) {
    r.id == n.id || r.id.Made? || (MadeByBooleanWhen(r.id) && r.id.at >= k)
  }

  function Rebuilding(node: Object, kids: seq<Object>, k: nat): (rep: Object)
    requires |kids| == |node.kids|
    ensures rep.kids == kids && rep.expr == ReplaceChildren(node.expr, Exprs(kids))
    ensures if kids == node.kids then rep == node else MadeByBooleanWhen(rep.id) && rep.id.at == k
  {
    ReplacedObject(node, kids, Rebuilt(BOOLEAN_WHEN, k, node.id))
  }

  /** A node rebuilt over new children has no mark; so only an unchanged conditional is still rewritten. */
  lemma {:induction false} RebuiltNode(node: Object, kids: seq<Object>, k: nat, marks: set<Id>, root: Expr)
    requires |kids| == |node.kids| && MarksFrom(marks, k + 1, root)
    ensures
      var f := Reconstructed(BOOLEAN_WHEN, node, kids, k, marks);
      if kids == node.kids && IsTernaryRewritten(node, node.id in marks) then
        && f.node == ConditionalObject(node, BOOLEAN_WHEN, k) && |node.kids| == 3
        && f.marks == marks + {node.kids[0].id, Made(BOOLEAN_WHEN, k, 0)}
                      + {Made(BOOLEAN_WHEN, k, 1), Made(BOOLEAN_WHEN, k, 2)}
      else
        var rep := Rebuilding(node, kids, k);
        && f.node == rep
        && f.marks == marks + (if kids == [] then {} else MarksAdded(BooleanWhen, rep, rep.id in marks, rep))
  {
    KidExprs(node);
    var rep := Rebuilding(node, kids, k);
    if kids != [] {
      if IsTernaryRewritten(rep, rep.id in marks) {
        FixRewritten(k, rep, marks);
      } else {
        FixUnrewritten(k, rep, marks);
      }
    } else {
      ReplacedChildren(node.expr, Exprs(kids));
    }
  }

  lemma {:induction false} MarksJoined(marks: set<Id>, more: set<Id>, k: nat, root: Expr)
    requires MarksFrom(marks, k + 1, root) && MarksFrom(more, k, root)
    ensures MarksFrom(marks + more, k, root)
  {
  }

  lemma {:induction false} RewrittenMarks(n: Object, role: Role, marks: set<Id>, k: nat, root: Expr)
    requires FitsRole(n, role, marks, root) && n.expr.Ternary? && |n.kids| == 3 && MarksFrom(marks, k + 1, root)
    ensures MarksFrom(marks + {n.kids[0].id, Made(BOOLEAN_WHEN, k, 0)}
                      + {Made(BOOLEAN_WHEN, k, 1), Made(BOOLEAN_WHEN, k, 2)}, k, root)
  {
    PredicateFits(n, role, marks, root);
    FitsUnmade(n.kids[0], true, root);
    var more := {n.kids[0].id, Made(BOOLEAN_WHEN, k, 0)} + {Made(BOOLEAN_WHEN, k, 1), Made(BOOLEAN_WHEN, k, 2)};
    MarksJoined(marks, more, k, root);
    assert marks + more
         == marks + {n.kids[0].id, Made(BOOLEAN_WHEN, k, 0)} + {Made(BOOLEAN_WHEN, k, 1), Made(BOOLEAN_WHEN, k, 2)};
  }

  /** A changed node adds only the mark of its predicate. */
  lemma {:induction false} ChangedMarks(n: Object, role: Role, before: set<Id>, kids: seq<Object>, k: nat,
                                        marks: set<Id>, root: Expr)
    requires FitsRole(n, role, before, root) && MarksFrom(marks, k + 1, root)
    requires |kids| == |n.kids| && kids != n.kids
    requires forall i | 0 <= i < |kids| :: IsTree(n.kids[i]) && RebuiltFrom(n.kids[i], k, kids[i])
    ensures
      var rep := Rebuilding(n, kids, k);
      MarksFrom(marks + MarksAdded(BooleanWhen, rep, rep.id in marks, rep), k, root)
  {
    KidExprs(n);
    var rep := Rebuilding(n, kids, k);
    KidExprs(rep);
    ReplacedChildren(n.expr, Exprs(kids));
    assert rep.id !in marks;
    if rep.expr.Ternary? {
      assert n.expr.Ternary?;
      PredicateFits(n, role, before, root);
      FitsUnmade(n.kids[0], true, root);
      MarksJoined(marks, {kids[0].id}, k, root);
    } else {
      MarksJoined(marks, {}, k, root);
    }
  }

  lemma {:induction false} RebuiltMarks(n: Object, role: Role, before: set<Id>, kids: seq<Object>, k: nat,
                                        marks: set<Id>, root: Expr)
    requires FitsRole(n, role, before, root) && before <= marks && MarksFrom(marks, k + 1, root)
    requires |kids| == |n.kids| && forall i | 0 <= i < |kids| :: IsTree(n.kids[i]) && RebuiltFrom(n.kids[i], k, kids[i])
    ensures MarksFrom(Reconstructed(BOOLEAN_WHEN, n, kids, k, marks).marks, k, root)
  {
    KidExprs(n);
    RebuiltNode(n, kids, k, marks, root);
    FitsRoleStill(n, role, before, marks, root);
    if kids != n.kids {
      ChangedMarks(n, role, before, kids, k, marks, root);
    } else if IsTernaryRewritten(n, n.id in marks) {
      RewrittenMarks(n, role, marks, k, root);
    } else {
      MarksAddedFit(n, role, marks, root);
      MarksJoined(marks, MarksAdded(BooleanWhen, n, n.id in marks, n), k, root);
      MarksJoined(marks, {}, k, root);
    }
  }

  /** Likewise for the disjunction a conditional became in the first pass. */
  lemma {:induction false} DisjunctionMarks(node: Object, kids: seq<Object>, k: nat, marks: set<Id>, root: Expr)
    requires IsOr(node.expr) && |node.kids| == 2 && node.kids[0].id.Made? && node.kids[1].id.Made?
    requires MarksFrom(marks, k + 1, root) && |kids| == 2
    ensures MarksFrom(Reconstructed(BOOLEAN_WHEN, node, kids, k, marks).marks, k, root)
  {
    KidExprs(node);
    RebuiltNode(node, kids, k, marks, root);
    var rep := Rebuilding(node, kids, k);
    KidExprs(rep);
    ReplacedChildren(node.expr, Exprs(kids));
    MarksJoined(marks, MarksAdded(BooleanWhen, rep, rep.id in marks, rep), k, root);
  }

  // --- What an entry becomes ---

  /** The children have become what their roles say, and those that kept their value are the very same objects. */
  predicate KidsBecome(node: Object, kidRoles: seq<Role>, kids: seq<Object>, filter: set<Id>, root: Expr) {
    && |kids| == |node.kids| == |kidRoles|
    && forall i | 0 <= i < |kids| ::
         && IsTree(node.kids[i]) && Outcome(node.kids[i], kidRoles[i], kids[i].expr, filter, root)
         && (kids[i].expr == node.kids[i].expr ==> kids[i] == node.kids[i])
  }

  lemma {:induction false} RebuildingKeeps(node: Object, kidRoles: seq<Role>, kids: seq<Object>, k: nat,
                                           filter: set<Id>, root: Expr)
    requires KidsBecome(node, kidRoles, kids, filter, root)
    ensures var rep := Rebuilding(node, kids, k); rep.expr == node.expr ==> rep == node
  {
    var rep := Rebuilding(node, kids, k);
    KidExprs(node);
    ReplacedChildren(node.expr, Exprs(kids));
    if rep.expr == node.expr {
      assert Exprs(kids) == Exprs(node.kids);
      forall i | 0 <= i < |kids| ensures kids[i] == node.kids[i] {
        assert Exprs(kids)[i] == Exprs(node.kids)[i];
      }
    }
  }

  /** A node used as a boolean or not, and not rewritten. */
  lemma {:induction false} OrdinaryOutcome(n: Object, boolean: bool, kidRoles: seq<Role>, kids: seq<Object>, k: nat,
                                           filter: set<Id>, root: Expr)
    requires KidsBecome(n, kidRoles, kids, filter, root) && !IsDropNulls(n.expr)
    requires !(boolean && IsValidBooleanTernary(n.expr))
    requires forall i | 0 <= i < |kids| ::
               kidRoles[i] == if KidUse(n.expr, boolean, IsValidBooleanTernary(n.expr), i) then Boolean else Plain
    ensures Rebuilding(n, kids, k).expr == WhenToBool(n.expr, boolean)
  {
    KidExprs(n);
    forall i | 0 <= i < |kids|
      ensures Exprs(kids)[i]
           == WhenToBool(Children(n.expr)[i], KidUse(n.expr, boolean, IsValidBooleanTernary(n.expr), i))
    {
      assert Outcome(n.kids[i], kidRoles[i], kids[i].expr, filter, root);
    }
    WhenToBoolUnchanged(n.expr, boolean, Exprs(kids));
  }

  lemma {:induction false} DisjunctionOutcome(n: Object, kids: seq<Object>, k: nat, filter: set<Id>, root: Expr)
    requires IsValidBooleanTernary(n.expr)
    requires KidsBecome(ConditionalObject(n, BOOLEAN_WHEN, k), [Boolean, ElseArm], kids, filter, root)
    ensures Rebuilding(ConditionalObject(n, BOOLEAN_WHEN, k), kids, k).expr == WhenToBool(n.expr, true)
  {
    KidExprs(n);
    var node := ConditionalObject(n, BOOLEAN_WHEN, k);
    KidExprs(node);
    var p, t, f := n.expr.pred, n.expr.truthy, n.expr.falsy;
    assert node.kids[0].expr == And(p, t) && node.kids[1].expr == And(Not(p), f);
    assert kids[0].expr == And(WhenToBool(p, true), WhenToBool(t, true));
    assert kids[1].expr == And(Not(WhenToBool(p, true)), WhenToBool(f, true));
    assert Exprs(kids) == [kids[0].expr, kids[1].expr];
  }

  /** A connective beneath a check that has no mark of its own. */
  lemma {:induction false} SharedConnective(n: Object, kids: seq<Object>, k: nat, filter: set<Id>, root: Expr)
    requires (IsAnd(n.expr) || IsOr(n.expr)) && (Fits(n, true, root) || Fits(n, false, root))
    requires KidsBecome(n, [Shared, Shared], kids, filter, root)
    ensures Outcome(n, Shared, Rebuilding(n, kids, k).expr, filter, root)
  {
    KidExprs(n);
    var r := Rebuilding(n, kids, k).expr;
    assert r.left == kids[0].expr && r.right == kids[1].expr;
    forall i, boolean | 0 <= i < 2 && Fits(n, boolean, root)
      ensures Fits(n.kids[i], boolean, root)
    {
      FittingKid(n, boolean, root, i);
    }
    if Fits(n, true, root) {
      forall i | 0 <= i < 2 ensures Becomes(n.kids[i].expr, BooleanIds(n, true) <= filter, kids[i].expr) {
        KidBooleanIds(n, true, i);
        assert Outcome(n.kids[i], Shared, kids[i].expr, filter, root);
        BecomesUnshared(n.kids[i].expr, BooleanIds(n.kids[i], true) <= filter, kids[i].expr);
      }
    }
    if Fits(n, false, root) {
      assert Outcome(n.kids[0], Shared, kids[0].expr, filter, root);
      assert Outcome(n.kids[1], Shared, kids[1].expr, filter, root);
    }
  }

  /** A conditional beneath a check that had no mark when it was visited. */
  lemma {:induction false} SharedConditional(n: Object, kids: seq<Object>, k: nat, marks: set<Id>, filter: set<Id>,
                                             root: Expr)
    requires n.expr.Ternary? && (Fits(n, true, root) || Fits(n, false, root))
    requires KidsBecome(n, [Boolean, Shared, Shared], kids, filter, root)
    requires MarksFrom(marks, k + 1, root) && filter <= marks
    ensures Outcome(n, Shared, Reconstructed(BOOLEAN_WHEN, n, kids, k, marks).node.expr, filter, root)
  {
    KidExprs(n);
    RebuiltNode(n, kids, k, marks, root);
    RebuildingKeeps(n, [Boolean, Shared, Shared], kids, k, filter, root);
    assert Outcome(n.kids[0], Boolean, kids[0].expr, filter, root);
    assert Outcome(n.kids[1], Shared, kids[1].expr, filter, root);
    assert Outcome(n.kids[2], Shared, kids[2].expr, filter, root);
    if Fits(n, false, root) {
      FittingKid(n, false, root, 1);
      FittingKid(n, false, root, 2);
    }
    if Fits(n, true, root) {
      SharedConditionalBecomes(n, kids, k, marks, filter, root);
    }
  }

  lemma {:induction false} SharedBranch(n: Object, i: nat, kid: Object, filter: set<Id>, root: Expr)
    requires n.expr.Ternary? && Fits(n, true, root) && |n.kids| == 3 && 1 <= i < 3 && IsTree(n.kids[i])
    requires Outcome(n.kids[i], Shared, kid.expr, filter, root)
    ensures IsValidBooleanTernary(n.expr) ==> Becomes(n.kids[i].expr, BooleanIds(n, true) <= filter, kid.expr)
    ensures !IsValidBooleanTernary(n.expr) ==> kid.expr == WhenToBool(n.kids[i].expr, false)
  {
    FittingKid(n, true, root, i);
    KidBooleanIds(n, true, i);
    if IsValidBooleanTernary(n.expr) {
      BecomesUnshared(n.kids[i].expr, BooleanIds(n.kids[i], true) <= filter, kid.expr);
    }
  }

  lemma {:induction false} TernaryOver(n: Object, kids: seq<Object>, k: nat)
    requires n.expr.Ternary? && |n.kids| == |kids| == 3
    ensures Rebuilding(n, kids, k).expr == Ternary(kids[0].expr, kids[1].expr, kids[2].expr)
    ensures ConditionalObject(n, BOOLEAN_WHEN, k).expr
         == BooleanConditional(n.kids[0].expr, n.kids[1].expr, n.kids[2].expr)
    ensures n.expr == Ternary(n.kids[0].expr, n.kids[1].expr, n.kids[2].expr)
  {
    KidExprs(n);
  }

  lemma {:induction false} SharedConditionalBecomes(n: Object, kids: seq<Object>, k: nat, marks: set<Id>,
                                                    filter: set<Id>, root: Expr)
    requires n.expr.Ternary? && Fits(n, true, root)
    requires KidsBecome(n, [Boolean, Shared, Shared], kids, filter, root)
    requires MarksFrom(marks, k + 1, root) && filter <= marks
    ensures Becomes(n.expr, BooleanIds(n, true) <= filter, Reconstructed(BOOLEAN_WHEN, n, kids, k, marks).node.expr)
  {
    KidExprs(n);
    assert Outcome(n.kids[0], Boolean, kids[0].expr, filter, root);
    SharedBranch(n, 1, kids[1], filter, root);
    SharedBranch(n, 2, kids[2], filter, root);
    RebuiltNode(n, kids, k, marks, root);
    RebuildingKeeps(n, [Boolean, Shared, Shared], kids, k, filter, root);
    TernaryOver(n, kids, k);
    assert n.id in BooleanIds(n, true);
    SharedResult(n.expr, BooleanIds(n, true) <= filter, kids[0].expr, kids[1].expr, kids[2].expr,
                 Reconstructed(BOOLEAN_WHEN, n, kids, k, marks).node.expr);
  }

  /** A conditional over what its branches have become, or, unchanged, its connectives. */
  lemma {:induction false} SharedResult(e: Expr, shared: bool, p: Expr, t: Expr, f: Expr, r: Expr)
    requires e.Ternary? && p == WhenToBool(e.pred, true)
    requires IsValidBooleanTernary(e) ==> Becomes(e.truthy, shared, t) && Becomes(e.falsy, shared, f)
    requires !IsValidBooleanTernary(e) ==> t == WhenToBool(e.truthy, false) && f == WhenToBool(e.falsy, false)
    requires
      || (r == Ternary(p, t, f) && !(shared && IsValidBooleanTernary(e) && r == e))
      || (IsValidBooleanTernary(e) && e == Ternary(p, t, f) && r == BooleanConditional(p, t, f))
    ensures Becomes(e, shared, r)
  {
  }

  /** An entry that the first pass rewrote, which was used as a boolean. */
  lemma {:induction false} RewrittenOutcome(n: Object, role: Role, before: set<Id>, kids: seq<Object>, k: nat,
                                            marks: set<Id>,
                                            filter: set<Id>, root: Expr)
    requires FitsRole(n, role, before, root) && MarksFit(before, root) && IsTernaryRewritten(n, n.id in before)
    requires KidsBecome(ConditionalObject(n, BOOLEAN_WHEN, k), [Boolean, ElseArm], kids, filter, root)
    requires MarksFrom(marks, k + 1, root)
    ensures
      var f := Reconstructed(BOOLEAN_WHEN, ConditionalObject(n, BOOLEAN_WHEN, k), kids, k, marks);
      Outcome(n, role, f.node.expr, filter, root) && f.node.expr != n.expr && MarksFrom(f.marks, k, root)
  {
    var node := ConditionalObject(n, BOOLEAN_WHEN, k);
    MarkedIsUsed(n, role, before, root);
    RebuiltNode(node, kids, k, marks, root);
    DisjunctionMarks(node, kids, k, marks, root);
    DisjunctionOutcome(n, kids, k, filter, root);
    BecomesWhenToBool(n.expr, BooleanIds(n, true) <= filter);
  }

  /** Every other entry. */
  lemma {:induction false} OtherOutcome(n: Object, role: Role, before: set<Id>, kids: seq<Object>, k: nat,
                                        marks: set<Id>,
                                        filter: set<Id>, root: Expr)
    requires FitsRole(n, role, before, root) && MarksFit(before, root) && !IsTernaryRewritten(n, n.id in before)
    requires KidsBecome(n, KidRoles(n, role, n.id in before, n), kids, filter, root)
    requires MarksFrom(marks, k + 1, root) && before <= marks && filter <= marks
    ensures Outcome(n, role, Reconstructed(BOOLEAN_WHEN, n, kids, k, marks).node.expr, filter, root)
  {
    KidExprs(n);
    var kidRoles := KidRoles(n, role, n.id in before, n);
    if role == ElseArm || role == NegatedPredicate || role == Checked || (role.Conjunction? && role.checks > 0) {
      SpecialOutcome(n, role, before, kids, k, marks, filter, root);
    } else if role == Shared && n.id !in before && Matters(n.expr) {
      if n.expr.Ternary? {
        assert kidRoles == [Boolean, Shared, Shared];
        SharedConditional(n, kids, k, marks, filter, root);
      } else {
        assert kidRoles == [Shared, Shared];
        RebuiltNode(n, kids, k, marks, root);
        SharedConnective(n, kids, k, filter, root);
      }
    } else {
      UsedOutcome(n, role, before, kids, k, marks, filter, root);
    }
  }

  lemma {:induction false} SpecialOutcome(n: Object, role: Role, before: set<Id>, kids: seq<Object>, k: nat,
                                          marks: set<Id>,
                                          filter: set<Id>, root: Expr)
    requires role == ElseArm || role == NegatedPredicate || role == Checked || (role.Conjunction? && role.checks > 0)
    requires FitsRole(n, role, before, root)
    requires KidsBecome(n, KidRoles(n, role, n.id in before, n), kids, filter, root)
    requires MarksFrom(marks, k + 1, root)
    ensures Outcome(n, role, Reconstructed(BOOLEAN_WHEN, n, kids, k, marks).node.expr, filter, root)
  {
    KidExprs(n);
    RebuiltNode(n, kids, k, marks, root);
    var rep := Rebuilding(n, kids, k);
    assert Reconstructed(BOOLEAN_WHEN, n, kids, k, marks).node == rep;
    if |n.kids| == 2 {
      PairOutcome(n, role, before, kids, rep.expr, filter, root);
    } else {
      SingleOutcome(n, role, before, kids, rep.expr, filter, root);
    }
  }

  lemma {:induction false} PairOutcome(n: Object, role: Role, before: set<Id>, kids: seq<Object>, r: Expr,
                                       filter: set<Id>, root: Expr)
    requires role == ElseArm || (role.Conjunction? && role.checks > 0)
    requires FitsRole(n, role, before, root) && |n.kids| == 2
    requires KidsBecome(n, KidRoles(n, role, n.id in before, n), kids, filter, root)
    requires r == ReplaceChildren(n.expr, Exprs(kids))
    ensures Outcome(n, role, r, filter, root)
  {
    KidExprs(n);
    var kidRoles := KidRoles(n, role, n.id in before, n);
    assert Outcome(n.kids[0], kidRoles[0], kids[0].expr, filter, root);
    assert Outcome(n.kids[1], kidRoles[1], kids[1].expr, filter, root);
    assert r == And(kids[0].expr, kids[1].expr);
  }

  lemma {:induction false} SingleOutcome(n: Object, role: Role, before: set<Id>, kids: seq<Object>, r: Expr,
                                         filter: set<Id>, root: Expr)
    requires role == NegatedPredicate || role == Checked
    requires FitsRole(n, role, before, root) && |n.kids| == 1
    requires KidsBecome(n, KidRoles(n, role, n.id in before, n), kids, filter, root)
    requires r == ReplaceChildren(n.expr, Exprs(kids))
    ensures Outcome(n, role, r, filter, root)
  {
    KidExprs(n);
    var kidRoles := KidRoles(n, role, n.id in before, n);
    assert Outcome(n.kids[0], kidRoles[0], kids[0].expr, filter, root);
    assert r == Unary(n.expr.uop, kids[0].expr);
  }

  predicate IsUsed(n: Object, role: Role, before: set<Id>, root: Expr) {
    && (role == Plain || role == Boolean || role == Shared || role == Conjunction(0))
    && (role == Shared && Matters(n.expr) ==> n.id in before)
    && FitsRole(n, role, before, root) && MarksFit(before, root) && !IsTernaryRewritten(n, n.id in before)
  }

  lemma {:induction false} UsedIsLeft(n: Object, role: Role, before: set<Id>, kids: seq<Object>, k: nat, marks: set<Id>,
                                      root: Expr)
    requires IsUsed(n, role, before, root) && |kids| == |n.kids| && MarksFrom(marks, k + 1, root)
    ensures Reconstructed(BOOLEAN_WHEN, n, kids, k, marks).node == Rebuilding(n, kids, k)
    ensures !(role != Plain && IsValidBooleanTernary(n.expr))
  {
    RebuiltNode(n, kids, k, marks, root);
    if n.expr.Ternary? && role == Plain {
      assert n.id !in marks;
    }
  }

  lemma {:induction false} UsedKidRoles(n: Object, role: Role, before: set<Id>, root: Expr)
    requires IsUsed(n, role, before, root)
    ensures forall i | 0 <= i < |n.kids| ::
              KidRoles(n, role, n.id in before, n)[i]
              == if KidUse(n.expr, role != Plain, IsValidBooleanTernary(n.expr), i) then Boolean else Plain
  {
    KidExprs(n);
    forall i | 0 <= i < |n.kids|
      ensures KidRoles(n, role, n.id in before, n)[i] == KidRole(n.expr, role, n.id in before, i)
    {
    }
  }

  lemma {:induction false} UnusedEither(e: Expr)
    requires !Matters(e)
    ensures WhenToBool(e, true) == WhenToBool(e, false)
  {
  }

  /** Entries whose own mark, if it matters, says how they are used. */
  lemma {:induction false} UsedOutcome(n: Object, role: Role, before: set<Id>, kids: seq<Object>, k: nat,
                                       marks: set<Id>,
                                       filter: set<Id>, root: Expr)
    requires IsUsed(n, role, before, root)
    requires KidsBecome(n, KidRoles(n, role, n.id in before, n), kids, filter, root)
    requires MarksFrom(marks, k + 1, root)
    ensures Outcome(n, role, Reconstructed(BOOLEAN_WHEN, n, kids, k, marks).node.expr, filter, root)
  {
    UsedIsLeft(n, role, before, kids, k, marks, root);
    UsedKidRoles(n, role, before, root);
    OrdinaryOutcome(n, role != Plain, KidRoles(n, role, n.id in before, n), kids, k, filter, root);
    if role == Shared {
      BecomesWhenToBool(n.expr, BooleanIds(n, true) <= filter);
      if Matters(n.expr) {
        MarkedIsUsed(n, role, before, root);
      } else {
        UnusedEither(n.expr);
      }
    }
  }

  // --- The whole sweep ---

  /** Entry `k` is rebuilt, under marks that fit, to what its role says. */
  predicate IsDone(w: Walk, b: Built, roles: seq<Role>, k: nat, filter: set<Id>, root: Expr) {
    && k < |w.seen| == |b.nodes| == |roles| && |b.marks| == |w.seen| + 1
    && Outcome(w.seen[k], roles[k], b.nodes[k].expr, filter, root)
    && (b.nodes[k].expr == w.seen[k].expr ==> b.nodes[k] == w.seen[k])
    && RebuiltFrom(w.seen[k], k, b.nodes[k])
  }

  lemma {:induction false} EntryDone(n: Object, role: Role, before: set<Id>, node: Object, kids: seq<Object>, k: nat,
                                     marks: set<Id>,
                                     filter: set<Id>, root: Expr)
    requires FitsRole(n, role, before, root) && MarksFit(before, root)
    requires node == FixObject(BOOLEAN_WHEN, k, n, before).node
    requires KidsBecome(node, KidRoles(n, role, n.id in before, node), kids, filter, root)
    requires forall i | 0 <= i < |kids| :: RebuiltFrom(node.kids[i], k, kids[i])
    requires MarksFrom(marks, k + 1, root) && before <= marks && filter <= marks
    ensures
      var f := Reconstructed(BOOLEAN_WHEN, node, kids, k, marks);
      && Outcome(n, role, f.node.expr, filter, root) && (f.node.expr == n.expr ==> f.node == n)
      && RebuiltFrom(n, k, f.node) && MarksFrom(f.marks, k, root)
  {
    RebuiltNode(node, kids, k, marks, root);
    if IsTernaryRewritten(n, n.id in before) {
      FixRewritten(k, n, before);
      RewrittenOutcome(n, role, before, kids, k, marks, filter, root);
    } else {
      FixUnrewritten(k, n, before);
      OtherOutcome(n, role, before, kids, k, marks, filter, root);
      RebuiltMarks(n, role, before, kids, k, marks, root);
      RebuildingKeeps(n, KidRoles(n, role, n.id in before, n), kids, k, filter, root);
    }
  }

  predicate IsBuilt(w: Walk, b: Built, roles: seq<Role>, root: Expr) {
    IsRoledWalk(w, roles, root) && |w.nodes| == |w.seen| && RebuiltDownTo(BOOLEAN_WHEN, w, b, 0)
  }

  /** The entries from `k` on are done, under marks that have only grown since the first pass. */
  lemma {:induction false} BuiltFrom(w: Walk, b: Built, roles: seq<Role>, k: nat, filter: set<Id>, root: Expr)
    requires IsBuilt(w, b, roles, root) && filter <= w.marksAt[|w.seen|] && k <= |w.seen|
    ensures forall c | k <= c < |w.seen| :: IsDone(w, b, roles, c, filter, root)
    ensures |b.marks| == |w.seen| + 1 && MarksFrom(b.marks[k], k, root) && w.marksAt[|w.seen|] <= b.marks[k]
    decreases |w.seen| - k
  {
    if k < |w.seen| {
      BuiltFrom(w, b, roles, k + 1, filter, root);
      NextDone(w, b, roles, k, filter, root);
    }
  }

  lemma {:induction false} NextDone(w: Walk, b: Built, roles: seq<Role>, k: nat, filter: set<Id>, root: Expr)
    requires IsBuilt(w, b, roles, root) && filter <= w.marksAt[|w.seen|] && k < |w.seen|
    requires forall c | k < c < |w.seen| :: IsDone(w, b, roles, c, filter, root)
    requires |b.marks| == |w.seen| + 1 && MarksFrom(b.marks[k + 1], k + 1, root)
    requires w.marksAt[|w.seen|] <= b.marks[k + 1]
    ensures IsDone(w, b, roles, k, filter, root)
    ensures MarksFrom(b.marks[k], k, root) && w.marksAt[|w.seen|] <= b.marks[k]
  {
    assert WasRoled(w, roles, k, root) && Visited(BOOLEAN_WHEN, w, k);
    var n, role, before, node, idx := w.seen[k], roles[k], w.marksAt[k], w.nodes[k], w.kidsOf[k];
    assert IsRebuilt(BOOLEAN_WHEN, node, b.nodes, idx, k, b.marks[k + 1], b.marks[k]);
    var kids, kidRoles := Picked(b.nodes, idx), KidRoles(n, role, n.id in before, node);
    KidsDone(w, b, roles, k, kids, kidRoles, filter, root);
    MarksGrow(w, k, |w.seen|);
    EntryDone(n, role, before, node, kids, k, b.marks[k + 1], filter, root);
  }

  lemma {:induction false} KidsDone(w: Walk, b: Built, roles: seq<Role>, k: nat, kids: seq<Object>, kidRoles: seq<Role>,
                                    filter: set<Id>, root: Expr)
    requires k < |w.seen| == |w.nodes| == |w.kidsOf| == |b.nodes| && AreKids(w.seen, w.kidsOf[k], k, w.nodes[k].kids)
    requires HaveRoles(roles, w.kidsOf[k], kidRoles) && kids == Picked(b.nodes, w.kidsOf[k])
    requires forall c | k < c < |w.seen| :: IsDone(w, b, roles, c, filter, root)
    ensures KidsBecome(w.nodes[k], kidRoles, kids, filter, root)
    ensures forall i | 0 <= i < |kids| :: RebuiltFrom(w.nodes[k].kids[i], k, kids[i])
  {
    KidExprs(w.nodes[k]);
    forall i | 0 <= i < |kids|
      ensures IsTree(w.nodes[k].kids[i]) && Outcome(w.nodes[k].kids[i], kidRoles[i], kids[i].expr, filter, root)
      ensures kids[i].expr == w.nodes[k].kids[i].expr ==> kids[i] == w.nodes[k].kids[i]
      ensures RebuiltFrom(w.nodes[k].kids[i], k, kids[i])
    {
      assert IsDone(w, b, roles, w.kidsOf[k][i], filter, root);
    }
  }

  /** The sweep of a filter with its checks: the filter is rewritten by the use of its nodes alone, and what a
      check's operand becomes depends on what it shares with the filter. */
  lemma {:induction false} BooleanWhenSwept(n: Object, checks: nat, root: Expr)
    requires FitsConjunction(n, checks, root)
    ensures Outcome(n, Conjunction(checks), SweptObject(BOOLEAN_WHEN, n, {n.id}).expr,
                    BooleanIds(Filtered(n, checks), true), root)
  {
    ConjunctionMarkable(n, checks, root);
    SweptAll(BOOLEAN_WHEN, n, {n.id});
    var start, s := Start(n, {n.id}), Swept(BOOLEAN_WHEN, n, {n.id});
    assert FitsRole(n, Conjunction(checks), {n.id}, root);
    assert Roled(start, [Conjunction(checks)], 0, root);
    var roles := RolesFromHere(start, [Conjunction(checks)], 0, root);
    assert s.walk == Discover(BOOLEAN_WHEN, start, 0);
    assert roles[0] == Conjunction(checks);
    EntryMarked(s.walk, roles, 0, root);
    BuiltFrom(s.walk, s.built, roles, 0, BooleanIds(Filtered(n, checks), true), root);
    assert IsDone(s.walk, s.built, roles, 0, BooleanIds(Filtered(n, checks), true), root);
  }
}
