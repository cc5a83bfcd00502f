/** What `rewrite_drop_nulls` does to objects: which nodes of the filter and of the checks are the parser's own
    objects, and which place of the filter every node comes from. */
module Unwrapping {
  import opened Ir
  import opened Lists
  import opened NodeRewriters
  import opened TreeRewriter
  import opened NormalForms
  import opened Objects
  import opened RewriteLoops
  import opened Conditionals
  import opened Positions

  predicate Unwraps(pass: Pass) { pass == UnwrapDropNulls || pass == StripDropNulls }

  /** A DropNulls that gives way to an unsupported node. */
  predicate IsGivenUp(pass: Pass, e: Expr) {
    pass == UnwrapDropNulls && IsDropNulls(e) && HasUnsupported(e.expr)
  }

  // --- On expressions ---

  lemma {:induction false} UnwrapFixesTwice(pass: ValuePass, fixed: Expr, kids: seq<Expr>)
    requires Unwraps(pass) && Step(pass, fixed) == fixed && |kids| == |Children(fixed)|
    ensures Fix(pass, ReplaceChildren(fixed, kids)) == ReplaceChildren(fixed, kids)
  {
    NormalIffFixed(pass, fixed);
    NormalFixes(pass, ReplaceChildren(fixed, kids));
  }

  /** A sweep removes a DropNulls, gives it up, or rebuilds the node over the swept children. */
  lemma {:induction false} UnwrappedNode(pass: ValuePass, e: Expr)
    requires Unwraps(pass)
    ensures IsGivenUp(pass, e) ==> Rewritten(pass, e) == Unsupported(Replaced(e.expr), [])
    ensures IsDropNulls(e) && !IsGivenUp(pass, e) ==> Rewritten(pass, e) == Rewritten(pass, e.expr)
    ensures !IsDropNulls(e) ==> Rewritten(pass, e) == ReplaceChildren(e, RewrittenAll(pass, Children(e)))
  {
    NotItsOwnOperand(e);
    if IsDropNulls(e) {
      StepLosesWeight(pass, e);
      if IsGivenUp(pass, e) {
        var hole := Unsupported(Replaced(e.expr), []);
        assert Fix(pass, e) == Fix(pass, hole) == hole;
        assert RewrittenAll(pass, Children(hole)) == [];
      }
    } else {
      NormalIffFixed(pass, e);
      NormalFixes(pass, e);
      UnwrapFixesTwice(pass, e, RewrittenAll(pass, Children(e)));
    }
  }

  /** Without unsupported nodes there is nothing to give up. */
  lemma {:induction false} SupportedUnwrapsAsStrips(e: Expr)
    requires !HasUnsupported(e)
    ensures Rewritten(StripDropNulls, e) == Rewritten(UnwrapDropNulls, e)
    decreases e
  {
    UnwrappedNode(StripDropNulls, e);
    UnwrappedNode(UnwrapDropNulls, e);
    if IsDropNulls(e) {
      assert e.expr in Children(e);
      SupportedUnwrapsAsStrips(e.expr);
    } else {
      var kids := Children(e);
      forall i | 0 <= i < |kids|
        ensures RewrittenAll(StripDropNulls, kids)[i] == RewrittenAll(UnwrapDropNulls, kids)[i]
      {
        RewrittenAllAt(StripDropNulls, kids, i);
        RewrittenAllAt(UnwrapDropNulls, kids, i);
        assert kids[i] in kids;
        SupportedUnwrapsAsStrips(kids[i]);
      }
      assert RewrittenAll(StripDropNulls, kids) == RewrittenAll(UnwrapDropNulls, kids);
    }
  }

  // --- On objects ---

  const UNWRAP: Sweep := Sweep(UnwrapDropNulls, 0)

  /** `m` is what the sweep makes of the object `n`: `n` itself, unless something beneath it has changed. */
  predicate Derives(sweep: Sweep, n: Object, m: Object)
    decreases n
  {
    if IsGivenUp(sweep.pass, n.expr) then
      && m.expr == Unsupported(Replaced(n.expr.expr), []) && m.kids == []
      && m.id.Rebuilt? && m.id.sweep == sweep && m.id.of == n.id
    else if IsDropNulls(n.expr) then
      |n.kids| == 1 && IsTree(n.kids[0]) && Derives(sweep, n.kids[0], m)
    else
      && |m.kids| == |n.kids|
      && (forall i | 0 <= i < |n.kids| ::
           IsTree(n.kids[i]) && IsTree(m.kids[i]) && Derives(sweep, n.kids[i], m.kids[i]))
      && (m == n || (&& m.kids != n.kids && m.expr == ReplaceChildren(n.expr, Exprs(m.kids))
                     && m.id.Rebuilt? && m.id.sweep == sweep && m.id.of == n.id))
  }

  lemma {:induction false} Peeled(sweep: Sweep, at: nat, n: Object, marks: set<Id>, m: Object)
    requires Unwraps(sweep.pass)
    requires Derives(sweep, FixObject(sweep, at, n, marks).node, m)
    ensures Derives(sweep, n, m)
    decreases Weight(sweep.pass, n.expr)
  {
    KidExprs(n);
    var next := ObjectStep(sweep, at, n, n.id in marks);
    if next.expr != n.expr {
      ExprStepLosesWeight(sweep.pass, n.expr, n.id in marks);
      Peeled(sweep, at, next, marks + MarksAdded(sweep.pass, n, n.id in marks, next), m);
    }
  }

  lemma {:induction false} PeeledIsNoDrop(sweep: Sweep, at: nat, n: Object, marks: set<Id>)
    requires Unwraps(sweep.pass)
    ensures !IsDropNulls(FixObject(sweep, at, n, marks).node.expr)
  {
    FixObjectValue(sweep, at, n, marks);
    NormalIffFixed(sweep.pass, Fix(sweep.pass, n.expr));
  }

  lemma {:induction false} RebuiltDerives(sweep: Sweep, node: Object, kids: seq<Object>, k: nat, marks: set<Id>)
    requires Unwraps(sweep.pass) && !IsDropNulls(node.expr) && |kids| == |node.kids|
    requires forall i | 0 <= i < |kids| :: IsTree(node.kids[i]) && Derives(sweep, node.kids[i], kids[i])
    ensures Derives(sweep, node, Reconstructed(sweep, node, kids, k, marks).node)
  {
    KidExprs(node);
    if kids != [] {
      var rep := ReplacedObject(node, kids, Rebuilt(sweep, k, node.id));
      assert !IsDropNulls(rep.expr);
      assert FixObject(sweep, k, rep, marks).node == rep;
    }
  }

  lemma {:induction false} EntryDerives(sweep: Sweep, w: Walk, b: Built, k: nat)
    requires Unwraps(sweep.pass)
    requires Discovered(sweep, w, |w.nodes|) && RebuiltDownTo(sweep, w, b, 0) && k < |w.nodes|
    ensures Derives(sweep, w.seen[k], b.nodes[k])
    decreases |w.nodes| - k
  {
    assert Visited(sweep, w, k);
    var node, idx := w.nodes[k], w.kidsOf[k];
    assert IsRebuilt(sweep, node, b.nodes, idx, k, b.marks[k + 1], b.marks[k]);
    KidExprs(node);
    var kids := Picked(b.nodes, idx);
    forall i | 0 <= i < |kids| ensures Derives(sweep, node.kids[i], kids[i]) {
      EntryDerives(sweep, w, b, idx[i]);
    }
    PeeledIsNoDrop(sweep, k, w.seen[k], w.marksAt[k]);
    RebuiltDerives(sweep, node, kids, k, b.marks[k + 1]);
    Peeled(sweep, k, w.seen[k], w.marksAt[k], b.nodes[k]);
  }

  lemma {:induction false} SweptDerives(sweep: Sweep, n: Object, marks: set<Id>)
    requires Unwraps(sweep.pass)
    ensures Derives(sweep, n, SweptObject(sweep, n, marks))
  {
    var s := Swept(sweep, n, marks);
    SweptAll(sweep, n, marks);
    EntryDerives(sweep, s.walk, s.built, 0);
  }

  lemma {:induction false} DerivesValue(sweep: Sweep, n: Object, m: Object)
    requires Unwraps(sweep.pass) && Derives(sweep, n, m)
    ensures m.expr == Rewritten(sweep.pass, n.expr)
    decreases n
  {
    KidExprs(n);
    KidExprs(m);
    UnwrappedNode(sweep.pass, n.expr);
    if IsGivenUp(sweep.pass, n.expr) {
    } else if IsDropNulls(n.expr) {
      DerivesValue(sweep, n.kids[0], m);
    } else {
      var kids := Children(n.expr);
      forall i | 0 <= i < |n.kids| ensures Exprs(m.kids)[i] == RewrittenAll(sweep.pass, kids)[i] {
        DerivesValue(sweep, n.kids[i], m.kids[i]);
        RewrittenAllAt(sweep.pass, kids, i);
      }
      assert Exprs(m.kids) == RewrittenAll(sweep.pass, kids);
      ReplacedChildren(n.expr, Exprs(m.kids));
    }
  }

  /** A tree without DropNulls comes out as the very same object. */
  lemma {:induction false} DropFreeIsKept(sweep: Sweep, n: Object, m: Object)
    requires Derives(sweep, n, m) && Stable(UnwrapDropNulls, n.expr)
    ensures m == n
    decreases n
  {
    KidExprs(n);
    StableChildren(UnwrapDropNulls, n.expr);
    forall i | 0 <= i < |n.kids| ensures m.kids[i] == n.kids[i] {
      assert n.kids[i].expr in Children(n.expr);
      DropFreeIsKept(sweep, n.kids[i], m.kids[i]);
    }
    assert m.kids == n.kids;
  }

  // --- Places ---

  /** `e` stands at `path` in the filter and is used there as `boolean` says. */
  ghost predicate StandsAt(e: Expr, path: seq<nat>, boolean: bool, root: Expr) {
    forall more: seq<nat> :: UsedAt(root, true, path + more) == UsedAt(e, boolean, more)
  }

  lemma {:induction false} KidStandsAt(e: Expr, path: seq<nat>, boolean: bool, root: Expr, i: nat)
    requires StandsAt(e, path, boolean, root) && i < |Children(e)|
    ensures StandsAt(Children(e)[i], path + [i], KidUse(e, boolean, IsValidUnwrapped(e), i), root)
  {
    forall more: seq<nat>
      ensures UsedAt(root, true, path + [i] + more)
           == UsedAt(Children(e)[i], KidUse(e, boolean, IsValidUnwrapped(e), i), more)
    {
      assert path + [i] + more == path + ([i] + more);
      assert ([i] + more)[1..] == more;
    }
  }

  lemma {:induction false} StandsAtMark(e: Expr, path: seq<nat>, boolean: bool, root: Expr)
    requires StandsAt(e, path, boolean, root)
    ensures MayBeMarked(Parsed(path), root) == boolean
  {
    assert path + [] == path;
  }

  lemma {:induction false} LabelledKids(e: Expr, path: seq<nat>)
    ensures |Labelled(e, path).kids| == |Children(e)|
    ensures forall i | 0 <= i < |Children(e)| ::
              Children(e)[i] in Children(e) && Labelled(e, path).kids[i] == Labelled(Children(e)[i], path + [i])
  {
  }

  predicate UnwrapsWell(sweep: Sweep, e: Expr) {
    sweep.pass == UnwrapDropNulls || (sweep.pass == StripDropNulls && !HasUnsupported(e))
  }

  lemma {:induction false} SupportedKids(sweep: Sweep, e: Expr)
    requires UnwrapsWell(sweep, e)
    ensures forall kid | kid in Children(e) :: UnwrapsWell(sweep, kid)
  {
  }

  /** Sweeping a node that is no DropNulls changes no use of a child. */
  lemma {:induction false} UnwrappedUse(pass: ValuePass, e: Expr, boolean: bool)
    requires Unwraps(pass) && !IsDropNulls(e) && Rewritten(pass, e) == Rewritten(UnwrapDropNulls, e)
    ensures !IsDropNulls(Rewritten(pass, e)) && (Matters(Rewritten(pass, e)) ==> Matters(e))
    ensures forall i: nat ::
              KidUse(Rewritten(pass, e), boolean, IsValidBooleanTernary(Rewritten(pass, e)), i)
              == KidUse(e, boolean, IsValidUnwrapped(e), i)
  {
    UnwrappedNode(pass, e);
  }

  lemma {:induction false} DerivedUse(sweep: Sweep, e: Expr, path: seq<nat>, boolean: bool, m: Object)
    requires UnwrapsWell(sweep, e) && !IsDropNulls(e) && Derives(sweep, Labelled(e, path), m)
    ensures |m.kids| == |Children(e)| && !IsDropNulls(m.expr) && (Matters(m.expr) ==> Matters(e))
    ensures forall i | 0 <= i < |m.kids| ::
              && IsTree(m.kids[i]) && Derives(sweep, Labelled(Children(e)[i], path + [i]), m.kids[i])
              && KidUse(m.expr, boolean, IsValidBooleanTernary(m.expr), i) == KidUse(e, boolean, IsValidUnwrapped(e), i)
  {
    LabelledKids(e, path);
    DerivesValue(sweep, Labelled(e, path), m);
    if sweep.pass == StripDropNulls {
      SupportedUnwrapsAsStrips(e);
    }
    UnwrappedUse(sweep.pass, e, boolean);
  }

  lemma {:induction false} DerivedMark(sweep: Sweep, e: Expr, path: seq<nat>, boolean: bool, root: Expr, m: Object)
    requires Unwraps(sweep.pass) && StandsAt(e, path, boolean, root)
    requires (!IsDropNulls(e) || IsGivenUp(sweep.pass, e)) && Derives(sweep, Labelled(e, path), m)
    ensures MayBeMarked(m.id, root) == boolean && !MadeByBooleanWhen(m.id)
  {
    StandsAtMark(e, path, boolean, root);
  }

  lemma {:induction false} FitsOver(m: Object, boolean: bool, root: Expr)
    requires !IsDropNulls(m.expr) && !MadeByBooleanWhen(m.id) && MayBeMarked(m.id, root) == boolean
    requires forall i | 0 <= i < |m.kids| ::
               IsTree(m.kids[i]) && Fits(m.kids[i], KidUse(m.expr, boolean, IsValidBooleanTernary(m.expr), i), root)
    ensures Fits(m, boolean, root)
  {
  }

  /** Whatever a sweep makes of a place, marks are possible in it just where the filter uses it as a boolean. */
  lemma {:induction false} DerivedFits(sweep: Sweep, e: Expr, path: seq<nat>, boolean: bool, root: Expr, m: Object)
    requires UnwrapsWell(sweep, e)
    requires StandsAt(e, path, boolean, root) && Derives(sweep, Labelled(e, path), m)
    ensures Fits(m, boolean, root)
    decreases e, 1
  {
    if IsGivenUp(sweep.pass, e) {
      DerivedMark(sweep, e, path, boolean, root, m);
      FitsOver(m, boolean, root);
    } else if IsDropNulls(e) {
      LabelledKids(e, path);
      SupportedKids(sweep, e);
      KidStandsAt(e, path, boolean, root, 0);
      DerivedFits(sweep, e.expr, path + [0], boolean, root, m);
    } else {
      DerivedMark(sweep, e, path, boolean, root, m);
      DerivedKidsFit(sweep, e, path, boolean, root, m);
      FitsOver(m, boolean, root);
    }
  }

  lemma {:induction false} DerivedKidsFit(sweep: Sweep, e: Expr, path: seq<nat>, boolean: bool, root: Expr, m: Object)
    requires UnwrapsWell(sweep, e) && !IsDropNulls(e)
    requires StandsAt(e, path, boolean, root) && Derives(sweep, Labelled(e, path), m)
    ensures !IsDropNulls(m.expr)
    ensures forall i | 0 <= i < |m.kids| ::
              IsTree(m.kids[i]) && Fits(m.kids[i], KidUse(m.expr, boolean, IsValidBooleanTernary(m.expr), i), root)
    decreases e, 0, 1
  {
    DerivedUse(sweep, e, path, boolean, m);
    forall i | 0 <= i < |m.kids|
      ensures Fits(m.kids[i], KidUse(m.expr, boolean, IsValidBooleanTernary(m.expr), i), root)
    {
      DerivedKidFits(sweep, e, path, boolean, root, i, m.kids[i]);
    }
  }

  lemma {:induction false} DerivedKidFits(sweep: Sweep, e: Expr, path: seq<nat>, boolean: bool, root: Expr, i: nat,
                                          m: Object)
    requires UnwrapsWell(sweep, e) && i < |Children(e)|
    requires StandsAt(e, path, boolean, root) && Derives(sweep, Labelled(Children(e)[i], path + [i]), m)
    ensures Fits(m, KidUse(e, boolean, IsValidUnwrapped(e), i), root)
    decreases e, 0, 0
  {
    assert Children(e)[i] in Children(e);
    SupportedKids(sweep, e);
    KidStandsAt(e, path, boolean, root, i);
    DerivedFits(sweep, Children(e)[i], path + [i], KidUse(e, boolean, IsValidUnwrapped(e), i), root, m);
  }

  // --- Dropped operands ---

  /** The operands dropped in a tree, each with whether it is used as a boolean. */
  function DroppedUses(e: Expr, boolean: bool): set<(Expr, bool)>
    decreases e
  {
    if IsGivenUp(UnwrapDropNulls, e) then {}
    else
      (if IsDropNulls(e) then {(e.expr, boolean)} else {})
      + set i, d | 0 <= i < |Children(e)|
                   && d in DroppedKidUses(e, boolean, i) :: d
  }

  function DroppedKidUses(e: Expr, boolean: bool, i: nat): set<(Expr, bool)>
    requires i < |Children(e)|
    decreases e, 0
  {
    assert Children(e)[i] in Children(e);
    DroppedUses(Children(e)[i], KidUse(e, boolean, IsValidUnwrapped(e), i))
  }

  /** The same operands as the parser's objects. */
  function DroppedObjects(e: Expr, path: seq<nat>, boolean: bool): set<(Object, bool)>
    decreases e
  {
    if IsGivenUp(UnwrapDropNulls, e) then {}
    else
      (if IsDropNulls(e) then {(Labelled(e.expr, path + [0]), boolean)} else {})
      + set i, d | 0 <= i < |Children(e)| && d in DroppedKidObjects(e, path, boolean, i) :: d
  }

  function DroppedKidObjects(e: Expr, path: seq<nat>, boolean: bool, i: nat): set<(Object, bool)>
    requires i < |Children(e)|
    decreases e, 0
  {
    assert Children(e)[i] in Children(e);
    DroppedObjects(Children(e)[i], path + [i], KidUse(e, boolean, IsValidUnwrapped(e), i))
  }

  /** Where a dropped operand was dropped: here, or beneath a child. */
  lemma {:induction false} DroppedWhere(x: Object, used: bool, e: Expr, path: seq<nat>, boolean: bool) returns (i: nat)
    requires (x, used) in DroppedObjects(e, path, boolean)
    ensures !IsGivenUp(UnwrapDropNulls, e) && i < |Children(e)| && Children(e)[i] in Children(e)
    ensures
      || (IsDropNulls(e) && x == Labelled(e.expr, path + [0]) && used == boolean)
      || (x, used) in DroppedObjects(Children(e)[i], path + [i], KidUse(e, boolean, IsValidUnwrapped(e), i))
  {
    i := 0;
    if !(IsDropNulls(e) && (x, used) == (Labelled(e.expr, path + [0]), boolean)) {
      i :| 0 <= i < |Children(e)| && (x, used) in DroppedKidObjects(e, path, boolean, i);
    }
  }

  lemma {:induction false} UseAppears(use: (Expr, bool), e: Expr, boolean: bool, i: nat)
    requires !IsGivenUp(UnwrapDropNulls, e) && i < |Children(e)|
    requires
      || (IsDropNulls(e) && use == (e.expr, boolean))
      || use in DroppedUses(Children(e)[i], KidUse(e, boolean, IsValidUnwrapped(e), i))
    ensures use in DroppedUses(e, boolean)
  {
    if !(IsDropNulls(e) && use == (e.expr, boolean)) {
      assert use in DroppedKidUses(e, boolean, i);
    }
  }

  /** A dropped operand is one of the filter's places, without unsupported nodes. */
  lemma {:induction false} DroppedObjectStands(x: Object, used: bool, e: Expr, path: seq<nat>, boolean: bool,
                                               root: Expr)
    requires (x, used) in DroppedObjects(e, path, boolean) && StandsAt(e, path, boolean, root)
    ensures x.id.Parsed? && x == Labelled(x.expr, x.id.path) && !HasUnsupported(x.expr)
    ensures StandsAt(x.expr, x.id.path, used, root)
    ensures (x.expr, used) in DroppedUses(e, boolean)
    decreases e
  {
    var i := DroppedWhere(x, used, e, path, boolean);
    KidStandsAt(e, path, boolean, root, i);
    if !(IsDropNulls(e) && x == Labelled(e.expr, path + [0]) && used == boolean) {
      DroppedObjectStands(x, used, Children(e)[i], path + [i], KidUse(e, boolean, IsValidUnwrapped(e), i), root);
    }
    UseAppears((x.expr, used), e, boolean, i);
  }

  /** And if it has no DropNulls of its own, the filter that is left contains the very object, in the same use. */
  lemma {:induction false} DroppedObjectKept(x: Object, used: bool, e: Expr, path: seq<nat>, boolean: bool, m: Object)
    requires (x, used) in DroppedObjects(e, path, boolean) && used && Stable(UnwrapDropNulls, x.expr)
    requires Derives(UNWRAP, Labelled(e, path), m)
    ensures BooleanIds(x, true) <= BooleanIds(m, boolean)
    decreases e
  {
    LabelledKids(e, path);
    var i := DroppedWhere(x, used, e, path, boolean);
    if IsDropNulls(e) && x == Labelled(e.expr, path + [0]) && used == boolean {
      DropFreeIsKept(UNWRAP, x, m);
    } else {
      var kid, use := Children(e)[i], KidUse(e, boolean, IsValidUnwrapped(e), i);
      if IsDropNulls(e) {
        DroppedObjectKept(x, used, kid, path + [i], use, m);
      } else {
        DerivedUse(UNWRAP, e, path, boolean, m);
        DroppedObjectKept(x, used, kid, path + [i], use, m.kids[i]);
        KidBooleanIds(m, boolean, i);
      }
    }
  }

  // --- The sweep drops nothing else ---

  /** A place of the filter whose dropped operands are among `all`. */
  ghost predicate IsPlace(n: Object, all: set<(Object, bool)>) {
    && n.id.Parsed? && n == Labelled(n.expr, n.id.path)
    && exists boolean :: DroppedObjects(n.expr, n.id.path, boolean) <= all
  }

  ghost predicate ArePlaces(ns: seq<Object>, all: set<(Object, bool)>) {
    forall i | 0 <= i < |ns| :: IsPlace(ns[i], all)
  }

  predicate IsDropped(x: Object, all: set<(Object, bool)>) { (x, true) in all || (x, false) in all }

  predicate AreDropped(xs: seq<Object>, all: set<(Object, bool)>) {
    forall i | 0 <= i < |xs| :: IsDropped(xs[i], all)
  }

  lemma {:induction false} KidIsPlace(e: Expr, path: seq<nat>, boolean: bool, all: set<(Object, bool)>, i: nat)
    requires DroppedObjects(e, path, boolean) <= all && !IsGivenUp(UnwrapDropNulls, e) && i < |Children(e)|
    ensures IsPlace(Labelled(Children(e)[i], path + [i]), all)
  {
    var kid, use := Children(e)[i], KidUse(e, boolean, IsValidUnwrapped(e), i);
    var here := DroppedKidObjects(e, path, boolean, i);
    forall d | d in here ensures d in DroppedObjects(e, path, boolean) {
    }
    assert here == DroppedObjects(kid, path + [i], use);
  }

  lemma {:induction false} KidsArePlaces(n: Object, all: set<(Object, bool)>)
    requires IsPlace(n, all) && !IsGivenUp(UnwrapDropNulls, n.expr)
    ensures ArePlaces(Kids(n), all)
    ensures IsDropNulls(n.expr) ==> IsDropped(n.kids[0], all)
  {
    var e, path := n.expr, n.id.path;
    var boolean :| DroppedObjects(e, path, boolean) <= all;
    LabelledKids(e, path);
    forall i | 0 <= i < |n.kids| ensures IsPlace(n.kids[i], all) {
      KidIsPlace(e, path, boolean, all, i);
    }
    if IsDropNulls(e) {
      assert (n.kids[0], boolean) in DroppedObjects(e, path, boolean);
    }
  }

  lemma {:induction false} DropsJoined(xs: seq<Object>, ys: seq<Object>, all: set<(Object, bool)>)
    requires AreDropped(xs, all) && AreDropped(ys, all)
    ensures AreDropped(xs + ys, all)
  {
  }

  lemma {:induction false} FixedPlace(at: nat, n: Object, marks: set<Id>, all: set<(Object, bool)>)
    requires IsPlace(n, all)
    ensures
      var f := FixObject(UNWRAP, at, n, marks);
      ArePlaces(Kids(f.node), all) && AreDropped(f.dropped, all)
    decreases n
  {
    KidExprs(n);
    NotItsOwnOperand(n.expr);
    if IsGivenUp(UnwrapDropNulls, n.expr) {
      var hole := ObjectStep(UNWRAP, at, n, n.id in marks);
      assert hole.kids == [] && FixObject(UNWRAP, at, hole, marks) == Fixed(hole, marks, []);
      assert FixObject(UNWRAP, at, n, marks).node == hole;
    } else {
      KidsArePlaces(n, all);
      if IsDropNulls(n.expr) {
        assert IsPlace(Kids(n)[0], all);
        FixedPlace(at, n.kids[0], marks + {}, all);
        var rest := FixObject(UNWRAP, at, n.kids[0], marks + {});
        DropsJoined([n.kids[0]], rest.dropped, all);
        assert FixObject(UNWRAP, at, n, marks) == rest.(dropped := [n.kids[0]] + rest.dropped);
      }
    }
  }

  lemma {:induction false} PlacesJoined(nodes: seq<Object>, at: nat, node: Object, kids: seq<Object>,
                                        all: set<(Object, bool)>)
    requires at < |nodes| && ArePlaces(nodes[at..], all) && ArePlaces(kids, all)
    ensures ArePlaces((nodes[at := node] + kids)[at + 1..], all)
  {
    DroppedNext(nodes, node, kids, at);
    assert forall i | 0 <= i < |nodes[at..]| - 1 :: nodes[at..][1..][i] == nodes[at..][i + 1];
  }

  lemma {:induction false} DropsFromHere(w: Walk, at: nat, all: set<(Object, bool)>)
    requires Discovered(UNWRAP, w, at) && ArePlaces(w.nodes[at..], all) && AreDropped(w.dropped, all)
    ensures AreDropped(Discover(UNWRAP, w, at).dropped, all)
    decreases Pending(UNWRAP, w, at)
  {
    if at < |w.seen| {
      assert IsPlace(w.nodes[at..][0], all);
      var f := FixObject(UNWRAP, at, w.nodes[at], w.marksAt[at]);
      FixedPlace(at, w.nodes[at], w.marksAt[at], all);
      DropsJoined(w.dropped, f.dropped, all);
      PlacesJoined(w.nodes, at, f.node, Kids(f.node), all);
      DiscoveredNext(UNWRAP, w, at);
      PendingNext(UNWRAP, w, at);
      DropsFromHere(VisitNext(UNWRAP, w, at), at + 1, all);
    }
  }

  /** Every object in `not_null_exprs` is one of the filter's dropped operands. */
  lemma {:induction false} SweptDrops(e: Expr)
    ensures AreDropped(SweptDropped(UNWRAP, Labelled(e, []), {}), DroppedObjects(e, [], true))
  {
    var n, all := Labelled(e, []), DroppedObjects(e, [], true);
    var start := Start(n, {});
    assert start.nodes[0..] == [n];
    assert IsPlace(n, all);
    DropsFromHere(start, 0, all);
  }
}
