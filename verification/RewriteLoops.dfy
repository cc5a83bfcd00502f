/** `rewrite_tree` (rewriter/base.py) as it runs: breadth-first discovery and reverse rebuild over lists of
    objects, with the marks and the dropped operands that the node rewriters keep. */
module RewriteLoops {
  import opened Ir
  import opened NodeRewriters
  import opened TreeRewriter
  import opened Objects
  import opened Lists

  // --- The first pass ---

  /** The lists of the first pass: the objects as they were discovered and as they are now, their children's
      indices, the marks when each entry was visited and now, and the dropped operands. */
  datatype Walk = Walk(seen: seq<Object>, nodes: seq<Object>, kidsOf: seq<seq<nat>>, marksAt: seq<set<Id>>,
                       dropped: seq<Object>)

  /** Entry `k` is at its fixed point, and its children are recorded behind it, in order. */
  predicate Visited(sweep: Sweep, w: Walk, k: nat) {
    && k < |w.seen| == |w.nodes| == |w.kidsOf| && k + 1 < |w.marksAt|
    && w.nodes[k] == FixObject(sweep, k, w.seen[k], w.marksAt[k]).node
    && w.marksAt[k + 1] == FixObject(sweep, k, w.seen[k], w.marksAt[k]).marks
    && AreKids(w.seen, w.kidsOf[k], k, w.nodes[k].kids)
  }

  predicate AreKids(seen: seq<Object>, idx: seq<nat>, k: nat, kids: seq<Node>) {
    |idx| == |kids| && forall j | 0 <= j < |idx| :: k < idx[j] < |seen| && seen[idx[j]] == kids[j]
  }

  /** The lists have one entry for each object, and one set of marks for each visit. */
  predicate HasShape(w: Walk, at: nat) {
    |w.seen| == |w.nodes| == |w.kidsOf| && |w.marksAt| == at + 1 && at <= |w.seen|
  }

  /** The first `at` entries have been visited. */
  predicate Discovered(sweep: Sweep, w: Walk, at: nat) {
    && HasShape(w, at)
    && (forall k | 0 <= k < at :: Visited(sweep, w, k))
    && (forall k | at <= k < |w.seen| :: w.nodes[k] == w.seen[k])
  }

  function Start(root: Object, marks: set<Id>): Walk {
    Walk([root], [root], [[]], [marks], [])
  }

  function Kids(n: Object): (kids: seq<Object>)
    ensures kids == n.kids && Exprs(kids) == Children(n.expr)
  {
    n.kids
  }

  /** Visiting an entry: it is fixed, and its children join the lists. */
  function VisitNext(sweep: Sweep, w: Walk, at: nat): (next: Walk)
    requires HasShape(w, at) && at < |w.seen|
    ensures HasShape(next, at + 1) && |w.seen| <= |next.seen|
  {
    var f := FixObject(sweep, at, w.nodes[at], w.marksAt[at]);
    var kids := Kids(f.node);
    Walk(w.seen + kids, w.nodes[at := f.node] + kids,
         w.kidsOf[at := Indices(|w.nodes|, |kids|)] + NoKidsYet(|kids|), w.marksAt + [f.marks], w.dropped + f.dropped)
  }

  lemma {:induction false} AreKidsStill(seen: seq<Object>, more: seq<Object>, idx: seq<nat>, k: nat, kids: seq<Node>)
    requires AreKids(seen, idx, k, kids)
    ensures AreKids(seen + more, idx, k, kids)
  {
  }

  lemma {:induction false} AreKidsNow(seen: seq<Object>, k: nat, kids: seq<Object>)
    requires k < |seen|
    ensures AreKids(seen + kids, Indices(|seen|, |kids|), k, kids)
  {
    AppendedIndices(seen, kids);
  }

  lemma {:induction false} VisitedStill(sweep: Sweep, w: Walk, at: nat, k: nat)
    requires Discovered(sweep, w, at) && k < at < |w.seen|
    ensures Visited(sweep, VisitNext(sweep, w, at), k)
  {
    var kids := Kids(FixObject(sweep, at, w.nodes[at], w.marksAt[at]).node);
    assert Visited(sweep, w, k);
    AreKidsStill(w.seen, kids, w.kidsOf[k], k, w.nodes[k].kids);
  }

  lemma {:induction false} VisitedNow(sweep: Sweep, w: Walk, at: nat)
    requires Discovered(sweep, w, at) && at < |w.seen|
    ensures Visited(sweep, VisitNext(sweep, w, at), at)
  {
    var kids := Kids(FixObject(sweep, at, w.nodes[at], w.marksAt[at]).node);
    AreKidsNow(w.seen, at, kids);
  }

  lemma {:induction false} DiscoveredNext(sweep: Sweep, w: Walk, at: nat)
    requires Discovered(sweep, w, at) && at < |w.seen|
    ensures Discovered(sweep, VisitNext(sweep, w, at), at + 1)
  {
    var next := VisitNext(sweep, w, at);
    forall k | 0 <= k < at + 1 ensures Visited(sweep, next, k) {
      if k < at {
        VisitedStill(sweep, w, at, k);
      } else {
        VisitedNow(sweep, w, at);
      }
    }
  }

  /** What the entries not yet visited weigh. */
  function Pending(sweep: Sweep, w: Walk, at: nat): nat
    requires at <= |w.nodes|
  {
    SumWeight(sweep.pass, Exprs(w.nodes[at..]))
  }

  lemma {:induction false} DroppedNext<T>(xs: seq<T>, x: T, more: seq<T>, at: nat)
    requires at < |xs|
    ensures (xs[at := x] + more)[at + 1..] == xs[at..][1..] + more
  {
  }

  lemma {:induction false} ExprsTail(ns: seq<Node>)
    requires ns != []
    ensures Exprs(ns)[0] == ns[0].expr && Exprs(ns[1..]) == Exprs(ns)[1..]
  {
  }

  lemma {:induction false} PendingNext(sweep: Sweep, w: Walk, at: nat)
    requires HasShape(w, at) && at < |w.seen|
    ensures
      var next, node := VisitNext(sweep, w, at), FixObject(sweep, at, w.nodes[at], w.marksAt[at]).node;
      Exprs(next.nodes[at + 1..]) == Exprs(w.nodes[at..])[1..] + Children(node.expr)
    ensures Pending(sweep, VisitNext(sweep, w, at), at + 1) < Pending(sweep, w, at)
  {
    var node := FixObject(sweep, at, w.nodes[at], w.marksAt[at]).node;
    DroppedNext(w.nodes, node, Kids(node), at);
    ExprsTail(w.nodes[at..]);
    ExprsConcat(w.nodes[at..][1..], Kids(node));
    WeightAfterVisit(sweep.pass, Exprs(w.nodes[at..]), node.expr);
  }

  /** The first pass from entry `at` on. */
  function Discover(sweep: Sweep, w: Walk, at: nat): (end: Walk)
    requires HasShape(w, at)
    ensures HasShape(end, |end.seen|) && |w.seen| <= |end.seen|
    decreases Pending(sweep, w, at)
  {
    if at == |w.seen| then w
    else
      PendingNext(sweep, w, at);
      Discover(sweep, VisitNext(sweep, w, at), at + 1)
  }

  lemma {:induction false} DiscoversAll(sweep: Sweep, w: Walk, at: nat)
    requires Discovered(sweep, w, at)
    ensures
      var end := Discover(sweep, w, at);
      Discovered(sweep, end, |end.seen|) && w.seen <= end.seen && w.marksAt <= end.marksAt
    decreases Pending(sweep, w, at)
  {
    if at < |w.seen| {
      DiscoveredNext(sweep, w, at);
      PendingNext(sweep, w, at);
      DiscoversAll(sweep, VisitNext(sweep, w, at), at + 1);
    }
  }

  // --- The second pass ---

  predicate AreBehind(idx: seq<nat>, k: nat, count: nat) {
    forall j | 0 <= j < |idx| :: k < idx[j] < count
  }

  /** The lists of the second pass: the objects, and for each entry the marks after it was rebuilt; the last
      marks are those the first pass left. */
  datatype Built = Built(nodes: seq<Object>, marks: seq<set<Id>>)

  /** Entry `k` rebuilt over its children and brought to a fixed point again; one without children is left. */
  function Reconstructed(sweep: Sweep, node: Object, kids: seq<Object>, k: nat, marks: set<Id>): (fixed: Fixed)
    requires |kids| == |node.kids|
    ensures marks <= fixed.marks
  {
    if kids == [] then Fixed(node, marks, [])
    else FixObject(sweep, k, ReplacedObject(node, kids, Rebuilt(sweep, k, node.id)), marks)
  }

  /** Entry `k`, `node` after the first pass, has been rebuilt under the marks `before`, leaving those `after`. */
  predicate IsRebuilt(sweep: Sweep, node: Object, nodes: seq<Object>, idx: seq<nat>, k: nat, before: set<Id>,
                      after: set<Id>)
  {
    && k < |nodes| && |idx| == |node.kids| && AreBehind(idx, k, |nodes|)
    && Reconstructed(sweep, node, Picked(nodes, idx), k, before).node == nodes[k]
    && Reconstructed(sweep, node, Picked(nodes, idx), k, before).marks == after
  }

  /** Entries below `at` are as the first pass left them, the others have been rebuilt. */
  predicate RebuiltDownTo(sweep: Sweep, w: Walk, b: Built, at: nat)
    requires Discovered(sweep, w, |w.nodes|)
  {
    && at <= |w.nodes| == |b.nodes| && |b.marks| == |w.nodes| + 1
    && b.marks[|w.nodes|] == w.marksAt[|w.nodes|]
    && (forall k | 0 <= k < at :: b.nodes[k] == w.nodes[k])
    && AreRebuilt(sweep, w.nodes, w.kidsOf, b, at)
  }

  predicate FitsWalk(w: Walk, b: Built) {
    |b.nodes| == |w.nodes| == |w.kidsOf| && |b.marks| == |w.nodes| + 1
  }

  /** The entry before `at` is rebuilt over the entries recorded as its children, which always exist. */
  function RebuildNext(sweep: Sweep, w: Walk, b: Built, at: nat): (next: Built)
    requires FitsWalk(w, b) && 0 < at <= |w.nodes|
    ensures FitsWalk(w, next)
  {
    var node, idx := w.nodes[at - 1], w.kidsOf[at - 1];
    if |idx| == |node.kids| && AreBehind(idx, at - 1, |b.nodes|) then
      var f := Reconstructed(sweep, node, Picked(b.nodes, idx), at - 1, b.marks[at]);
      Built(b.nodes[at - 1 := f.node], b.marks[at - 1 := f.marks])
    else b
  }

  /** Children come behind their parents, so rebuilding a parent leaves them alone. */
  lemma {:induction false} PickedStill<T>(xs: seq<T>, idx: seq<nat>, at: nat, x: T)
    requires at < |xs| && AreBehind(idx, at, |xs|)
    ensures Picked(xs[at := x], idx) == Picked(xs, idx)
  {
  }

  lemma {:induction false} IsRebuiltStill(sweep: Sweep, node: Object, nodes: seq<Object>, idx: seq<nat>, k: nat,
                                          before: set<Id>, after: set<Id>, at: nat, x: Object)
    requires IsRebuilt(sweep, node, nodes, idx, k, before, after) && at < k
    ensures IsRebuilt(sweep, node, nodes[at := x], idx, k, before, after)
  {
    PickedStill(nodes, idx, at, x);
  }

  lemma {:induction false} IsRebuiltNow(sweep: Sweep, node: Object, nodes: seq<Object>, idx: seq<nat>, k: nat,
                                        before: set<Id>, f: Fixed)
    requires k < |nodes| && |idx| == |node.kids| && AreBehind(idx, k, |nodes|)
    requires f == Reconstructed(sweep, node, Picked(nodes, idx), k, before)
    ensures IsRebuilt(sweep, node, nodes[k := f.node], idx, k, before, f.marks)
  {
    PickedStill(nodes, idx, k, f.node);
  }

  /** The entries from `at` on have been rebuilt. */
  predicate AreRebuilt(sweep: Sweep, nodes: seq<Object>, kidsOf: seq<seq<nat>>, b: Built, at: nat) {
    && |nodes| == |kidsOf| == |b.nodes| && |b.marks| == |nodes| + 1
    && forall k | at <= k < |nodes| :: IsRebuilt(sweep, nodes[k], b.nodes, kidsOf[k], k, b.marks[k + 1], b.marks[k])
  }

  /** Rebuilding an entry leaves those behind it rebuilt. */
  lemma {:induction false} StillRebuilt(sweep: Sweep, nodes: seq<Object>, kidsOf: seq<seq<nat>>, b: Built, at: nat,
                                        x: Object)
    requires AreRebuilt(sweep, nodes, kidsOf, b, at + 1) && at < |nodes|
    ensures AreRebuilt(sweep, nodes, kidsOf, Built(b.nodes[at := x], b.marks), at + 1)
  {
    forall k | at + 1 <= k < |nodes|
      ensures IsRebuilt(sweep, nodes[k], b.nodes[at := x], kidsOf[k], k, b.marks[k + 1], b.marks[k])
    {
      IsRebuiltStill(sweep, nodes[k], b.nodes, kidsOf[k], k, b.marks[k + 1], b.marks[k], at, x);
    }
  }

  lemma {:induction false} MarksUpdated(sweep: Sweep, nodes: seq<Object>, kidsOf: seq<seq<nat>>, b: Built, at: nat,
                                        after: set<Id>)
    requires AreRebuilt(sweep, nodes, kidsOf, b, at + 1) && at < |nodes|
    requires IsRebuilt(sweep, nodes[at], b.nodes, kidsOf[at], at, b.marks[at + 1], after)
    ensures AreRebuilt(sweep, nodes, kidsOf, Built(b.nodes, b.marks[at := after]), at)
  {
    Updated(b.marks, at, after);
  }

  lemma {:induction false} AreRebuiltNext(sweep: Sweep, nodes: seq<Object>, kidsOf: seq<seq<nat>>, b: Built, at: nat,
                                          f: Fixed)
    requires AreRebuilt(sweep, nodes, kidsOf, b, at) && 0 < at <= |nodes|
    requires |kidsOf[at - 1]| == |nodes[at - 1].kids| && AreBehind(kidsOf[at - 1], at - 1, |nodes|)
    requires f == Reconstructed(sweep, nodes[at - 1], Picked(b.nodes, kidsOf[at - 1]), at - 1, b.marks[at])
    ensures AreRebuilt(sweep, nodes, kidsOf, Built(b.nodes[at - 1 := f.node], b.marks[at - 1 := f.marks]), at - 1)
  {
    StillRebuilt(sweep, nodes, kidsOf, b, at - 1, f.node);
    IsRebuiltNow(sweep, nodes[at - 1], b.nodes, kidsOf[at - 1], at - 1, b.marks[at], f);
    MarksUpdated(sweep, nodes, kidsOf, Built(b.nodes[at - 1 := f.node], b.marks), at - 1, f.marks);
  }

  lemma {:induction false} RebuiltNext(sweep: Sweep, w: Walk, b: Built, at: nat)
    requires Discovered(sweep, w, |w.nodes|) && RebuiltDownTo(sweep, w, b, at) && at > 0
    ensures RebuiltDownTo(sweep, w, RebuildNext(sweep, w, b, at), at - 1)
  {
    assert Visited(sweep, w, at - 1);
    var f := Reconstructed(sweep, w.nodes[at - 1], Picked(b.nodes, w.kidsOf[at - 1]), at - 1, b.marks[at]);
    AreRebuiltNext(sweep, w.nodes, w.kidsOf, b, at, f);
  }

  function RebuildDown(sweep: Sweep, w: Walk, b: Built, at: nat): (end: Built)
    requires FitsWalk(w, b) && at <= |w.nodes|
    ensures FitsWalk(w, end)
    decreases at
  {
    if at == 0 then b else RebuildDown(sweep, w, RebuildNext(sweep, w, b, at), at - 1)
  }

  lemma {:induction false} RebuildUnfolds(sweep: Sweep, w: Walk, b: Built, at: nat)
    requires FitsWalk(w, b) && 0 < at <= |w.nodes|
    ensures RebuildDown(sweep, w, b, at) == RebuildDown(sweep, w, RebuildNext(sweep, w, b, at), at - 1)
  {
  }

  lemma {:induction false} RebuildsAll(sweep: Sweep, w: Walk, b: Built, at: nat)
    requires Discovered(sweep, w, |w.nodes|) && RebuiltDownTo(sweep, w, b, at)
    ensures RebuiltDownTo(sweep, w, RebuildDown(sweep, w, b, at), 0)
    decreases at
  {
    if at > 0 {
      RebuiltNext(sweep, w, b, at);
      RebuildUnfolds(sweep, w, b, at);
      RebuildsAll(sweep, w, RebuildNext(sweep, w, b, at), at - 1);
    }
  }

  /** Before the second pass. */
  function Unbuilt(w: Walk): (b: Built)
    requires HasShape(w, |w.nodes|)
    ensures FitsWalk(w, b)
  {
    Built(w.nodes, seq(|w.nodes| + 1, _ => w.marksAt[|w.nodes|]))
  }

  /** What `rewrite_tree` leaves behind: the lists of both passes. */
  datatype Sweeping = Sweeping(walk: Walk, built: Built)

  function Swept(sweep: Sweep, root: Object, marks: set<Id>): (s: Sweeping)
    ensures s.built.nodes != []
  {
    var walk := Discover(sweep, Start(root, marks), 0);
    Sweeping(walk, RebuildDown(sweep, walk, Unbuilt(walk), |walk.nodes|))
  }

  lemma {:induction false} StartIsRebuilt(sweep: Sweep, w: Walk)
    requires Discovered(sweep, w, |w.nodes|)
    ensures RebuiltDownTo(sweep, w, Unbuilt(w), |w.nodes|)
  {
  }

  lemma {:induction false} SweptAll(sweep: Sweep, root: Object, marks: set<Id>)
    ensures
      var s := Swept(sweep, root, marks);
      && Discovered(sweep, s.walk, |s.walk.nodes|) && RebuiltDownTo(sweep, s.walk, s.built, 0)
      && s.walk.seen != [] && s.walk.seen[0] == root && s.walk.marksAt[0] == marks
  {
    var walk := Discover(sweep, Start(root, marks), 0);
    DiscoversAll(sweep, Start(root, marks), 0);
    StartIsRebuilt(sweep, walk);
    RebuildsAll(sweep, walk, Unbuilt(walk), |walk.nodes|);
  }

  function SweptObject(sweep: Sweep, root: Object, marks: set<Id>): Object {
    Swept(sweep, root, marks).built.nodes[0]
  }

  function SweptDropped(sweep: Sweep, root: Object, marks: set<Id>): seq<Object> {
    Swept(sweep, root, marks).walk.dropped
  }

  // --- Rewriters that look at nothing but the node ---

  lemma {:induction false} ReconstructedValue(sweep: Sweep, node: Object, kids: seq<Object>, k: nat, marks: set<Id>,
                                              e: Expr)
    requires sweep.pass != BooleanWhen && |kids| == |node.kids|
    requires node.expr == Fix(sweep.pass, e) && Exprs(kids) == RewrittenAll(sweep.pass, Children(node.expr))
    ensures Reconstructed(sweep, node, kids, k, marks).node.expr == Rewritten(sweep.pass, e)
  {
    KidExprs(node);
    if kids == [] {
      ReplacedChildren(node.expr, Exprs(kids));
    } else {
      FixObjectValue(sweep, k, ReplacedObject(node, kids, Rebuilt(sweep, k, node.id)), marks);
    }
  }

  /** Every entry becomes the recursive rewriting of the object it was discovered as. */
  lemma {:induction false} EntryRewritten(sweep: Sweep, w: Walk, b: Built, k: nat)
    requires sweep.pass != BooleanWhen
    requires Discovered(sweep, w, |w.nodes|) && RebuiltDownTo(sweep, w, b, 0) && k < |w.nodes|
    ensures b.nodes[k].expr == Rewritten(sweep.pass, w.seen[k].expr)
    decreases |w.nodes| - k
  {
    assert Visited(sweep, w, k);
    var node, idx := w.nodes[k], w.kidsOf[k];
    assert IsRebuilt(sweep, node, b.nodes, idx, k, b.marks[k + 1], b.marks[k]);
    FixObjectValue(sweep, k, w.seen[k], w.marksAt[k]);
    KidExprs(node);
    var kids := Picked(b.nodes, idx);
    forall j | 0 <= j < |idx| ensures Exprs(kids)[j] == RewrittenAll(sweep.pass, Children(node.expr))[j] {
      EntryRewritten(sweep, w, b, idx[j]);
      RewrittenAllAt(sweep.pass, Children(node.expr), j);
    }
    assert Exprs(kids) == RewrittenAll(sweep.pass, Children(node.expr));
    ReconstructedValue(sweep, node, kids, k, b.marks[k + 1], w.seen[k].expr);
  }

  lemma {:induction false} DroppedFromHere(sweep: Sweep, w: Walk, at: nat)
    requires sweep.pass != BooleanWhen && Discovered(sweep, w, at)
    ensures Exprs(Discover(sweep, w, at).dropped)
         == Exprs(w.dropped) + CollectedBreadthFirst(sweep.pass, Exprs(w.nodes[at..]))
    decreases Pending(sweep, w, at)
  {
    if at < |w.seen| {
      var f := FixObject(sweep, at, w.nodes[at], w.marksAt[at]);
      FixObjectValue(sweep, at, w.nodes[at], w.marksAt[at]);
      DiscoveredNext(sweep, w, at);
      PendingNext(sweep, w, at);
      DroppedFromHere(sweep, VisitNext(sweep, w, at), at + 1);
      ExprsConcat(w.dropped, f.dropped);
      ExprsTail(w.nodes[at..]);
      Regrouped(Exprs(w.dropped), Exprs(f.dropped),
                CollectedBreadthFirst(sweep.pass, Exprs(VisitNext(sweep, w, at).nodes[at + 1..])));
    }
  }

  /** Both loops compute the recursive rewriting, whatever the marks, and collect what it collects. */
  lemma {:induction false} SweptIsRewritten(sweep: Sweep, root: Object, marks: set<Id>)
    requires sweep.pass != BooleanWhen
    ensures SweptObject(sweep, root, marks).expr == Rewritten(sweep.pass, root.expr)
    ensures Exprs(SweptDropped(sweep, root, marks)) == CollectedBreadthFirst(sweep.pass, [root.expr])
  {
    var s := Swept(sweep, root, marks);
    SweptAll(sweep, root, marks);
    EntryRewritten(sweep, s.walk, s.built, 0);
    var start := Start(root, marks);
    DroppedFromHere(sweep, start, 0);
    assert start.nodes[0..] == [root] && Exprs([root]) == [root.expr];
  }

  // --- The number of visits ---

  lemma {:induction false} VisitsFromHere(sweep: Sweep, w: Walk, at: nat)
    requires Discovered(sweep, w, at)
    ensures |Discover(sweep, w, at).seen| <= at + Pending(sweep, w, at)
    decreases Pending(sweep, w, at)
  {
    if at < |w.seen| {
      DiscoveredNext(sweep, w, at);
      PendingNext(sweep, w, at);
      VisitsFromHere(sweep, VisitNext(sweep, w, at), at + 1);
    }
  }

  /** No sweep visits more nodes than its root weighs. */
  lemma {:induction false} VisitsAtMostWeight(sweep: Sweep, root: Object, marks: set<Id>)
    ensures |Swept(sweep, root, marks).walk.seen| <= Weight(sweep.pass, root.expr)
  {
    var start := Start(root, marks);
    VisitsFromHere(sweep, start, 0);
    SumWeightDisplays(sweep.pass, root.expr, root.expr, root.expr);
    assert start.nodes[0..] == [root] && Exprs([root]) == [root.expr];
  }

  // --- The loops ---

  /** The first pass has come to entry `at`. */
  predicate Walking(sweep: Sweep, root: Object, marks: set<Id>, w: Walk, at: nat) {
    Discovered(sweep, w, at) && Discover(sweep, w, at) == Discover(sweep, Start(root, marks), 0)
  }

  lemma {:induction false} WalkingNext(sweep: Sweep, root: Object, marks: set<Id>, w: Walk, at: nat, f: Fixed,
                                       kids: seq<Object>)
    requires Walking(sweep, root, marks, w, at) && at < |w.seen|
    requires f == FixObject(sweep, at, w.nodes[at], w.marksAt[at]) && kids == Kids(f.node)
    ensures
      var next := VisitNext(sweep, w, at);
      && Walking(sweep, root, marks, next, at + 1) && Pending(sweep, next, at + 1) < Pending(sweep, w, at)
      && next.nodes == w.nodes[at := f.node] + kids && next.dropped == w.dropped + f.dropped
      && next.kidsOf == w.kidsOf[at := Indices(|w.nodes|, |kids|)] + NoKidsYet(|kids|)
      && next.marksAt[at + 1] == f.marks
  {
    DiscoveredNext(sweep, w, at);
    PendingNext(sweep, w, at);
  }

  /** The variables of the first loop at entry `at`. */
  predicate Frontier(sweep: Sweep, root: Object, start: set<Id>, w: Walk, at: nat, nodes: seq<Object>,
                     childrenMap: seq<seq<nat>>, queue: seq<nat>, marks: set<Id>, dropped: seq<Object>) {
    && Walking(sweep, root, start, w, at)
    && nodes == w.nodes && childrenMap == w.kidsOf && marks == w.marksAt[at] && dropped == w.dropped
    && queue == Indices(at, |nodes| - at)
  }

  lemma {:induction false} FrontierHead(sweep: Sweep, root: Object, start: set<Id>, w: Walk, at: nat,
                                        nodes: seq<Object>,
                                        childrenMap: seq<seq<nat>>, queue: seq<nat>, marks: set<Id>,
                                        dropped: seq<Object>)
    requires Frontier(sweep, root, start, w, at, nodes, childrenMap, queue, marks, dropped)
    ensures HasShape(w, at)
    ensures queue != [] ==> queue[0] == at < |nodes| == |w.seen| == |childrenMap|
    ensures queue == [] ==> w == Discover(sweep, Start(root, start), 0) && marks == w.marksAt[|nodes|]
    ensures queue == [] ==> nodes == w.nodes && childrenMap == w.kidsOf && dropped == w.dropped
  {
  }

  lemma {:induction false} FrontierNext(sweep: Sweep, root: Object, start: set<Id>, w: Walk, at: nat,
                                        nodes: seq<Object>,
                                        childrenMap: seq<seq<nat>>, queue: seq<nat>, marks: set<Id>,
                                        dropped: seq<Object>, f: Fixed, kids: seq<Object>)
    requires Frontier(sweep, root, start, w, at, nodes, childrenMap, queue, marks, dropped)
    requires HasShape(w, at) && at < |nodes| == |childrenMap| && |nodes| == |w.seen|
    requires f == FixObject(sweep, at, nodes[at], marks) && kids == Kids(f.node)
    ensures
      var idx := Indices(|nodes|, |kids|);
      Frontier(sweep, root, start, VisitNext(sweep, w, at), at + 1, nodes[at := f.node] + kids,
               childrenMap[at := idx] + NoKidsYet(|kids|), queue[1..] + idx, f.marks, dropped + f.dropped)
    ensures HasShape(VisitNext(sweep, w, at), at + 1)
    ensures Pending(sweep, VisitNext(sweep, w, at), at + 1) < Pending(sweep, w, at)
  {
    WalkingNext(sweep, root, start, w, at, f, kids);
    QueueNext(at, |nodes|, |kids|);
  }

  lemma {:induction false} FrontierStarts(sweep: Sweep, root: Object, marks: set<Id>)
    ensures Frontier(sweep, root, marks, Start(root, marks), 0, [root], [[]], [0], marks, [])
  {
    assert Indices(0, 1) == [0];
  }

  /** The first pass: breadth first, every node brought to a fixed point before its children join. */
  method DiscoverTopDown(sweep: Sweep, root: Object, marks: set<Id>)
    returns (nodes: seq<Object>, childrenMap: seq<seq<nat>>, marks': set<Id>, dropped: seq<Object>, ghost w: Walk)
    ensures w == Discover(sweep, Start(root, marks), 0)
    ensures
      var end := Discover(sweep, Start(root, marks), 0);
      nodes == end.nodes && childrenMap == end.kidsOf && dropped == end.dropped && marks' == end.marksAt[|nodes|]
  {
    nodes, childrenMap, marks', dropped, w := [root], [[]], marks, [], Start(root, marks);
    var queue: seq<nat> := [0];
    ghost var done := 0;
    FrontierStarts(sweep, root, marks);
    while queue != []
      invariant HasShape(w, done) && Frontier(sweep, root, marks, w, done, nodes, childrenMap, queue, marks', dropped)
      decreases Pending(sweep, w, done)
    {
      FrontierHead(sweep, root, marks, w, done, nodes, childrenMap, queue, marks', dropped);
      var curr := queue[0];
      var f := ApplyNodeRewriter(sweep, curr, nodes[curr], marks');
      var kids := Kids(f.node);
      FrontierNext(sweep, root, marks, w, done, nodes, childrenMap, queue, marks', dropped, f, kids);
      var kidIdx := Indices(|nodes|, |kids|);
      nodes := nodes[curr := f.node] + kids;
      childrenMap := childrenMap[curr := kidIdx] + NoKidsYet(|kids|);
      queue := queue[1..] + kidIdx;
      marks', dropped := f.marks, dropped + f.dropped;
      w, done := VisitNext(sweep, w, done), done + 1;
    }
    FrontierHead(sweep, root, marks, w, done, nodes, childrenMap, queue, marks', dropped);
  }

  lemma {:induction false} RebuildDropsNothing(sweep: Sweep, w: Walk, k: nat, kids: seq<Object>, marks: set<Id>)
    requires Discovered(sweep, w, |w.nodes|) && k < |w.nodes| && |kids| == |w.nodes[k].kids|
    ensures Reconstructed(sweep, w.nodes[k], kids, k, marks).dropped == []
  {
    assert Visited(sweep, w, k);
    KidExprs(w.nodes[k]);
    var replaced := ReplacedObject(w.nodes[k], kids, Rebuilt(sweep, k, w.nodes[k].id));
    if sweep.pass == BooleanWhen {
      ConditionalsDropNothing(sweep, k, replaced, marks);
    } else {
      FixObjectValue(sweep, k, w.seen[k], w.marksAt[k]);
      FixObjectValue(sweep, k, replaced, marks);
      NothingCollectedTwice(sweep.pass, w.nodes[k].expr, Exprs(kids));
      assert |Exprs(FixObject(sweep, k, replaced, marks).dropped)| == 0;
    }
  }

  lemma {:induction false} ConditionalsDropNothing(sweep: Sweep, at: nat, n: Object, marks: set<Id>)
    requires sweep.pass == BooleanWhen
    ensures FixObject(sweep, at, n, marks).dropped == []
    decreases Weight(sweep.pass, n.expr)
  {
    var next := ObjectStep(sweep, at, n, n.id in marks);
    if next.expr != n.expr {
      ExprStepLosesWeight(sweep.pass, n.expr, n.id in marks);
      ConditionalsDropNothing(sweep, at, next, marks + MarksAdded(sweep.pass, n, n.id in marks, next));
    }
  }

  /** The second pass has come down to entry `at`. */
  predicate Building(sweep: Sweep, w: Walk, start: Built, b: Built, at: nat) {
    && FitsWalk(w, start) && Discovered(sweep, w, |w.nodes|) && RebuiltDownTo(sweep, w, b, at)
    && RebuildDown(sweep, w, b, at) == RebuildDown(sweep, w, start, |w.nodes|)
  }

  lemma {:induction false} BuildingNext(sweep: Sweep, w: Walk, start: Built, b: Built, at: nat)
    requires Building(sweep, w, start, b, at) && at > 0
    ensures FitsWalk(w, b) && at <= |w.nodes|
    ensures
      var node, idx := b.nodes[at - 1], w.kidsOf[at - 1];
      && |idx| == |node.kids| && AreBehind(idx, at - 1, |b.nodes|)
      && var f := Reconstructed(sweep, node, Picked(b.nodes, idx), at - 1, b.marks[at]);
      && f.dropped == [] && RebuildNext(sweep, w, b, at) == Built(b.nodes[at - 1 := f.node], b.marks[at - 1 := f.marks])
    ensures Building(sweep, w, start, RebuildNext(sweep, w, b, at), at - 1)
  {
    assert Visited(sweep, w, at - 1);
    RebuiltNext(sweep, w, b, at);
    RebuildUnfolds(sweep, w, b, at);
    RebuildDropsNothing(sweep, w, at - 1, Picked(b.nodes, w.kidsOf[at - 1]), b.marks[at]);
  }

  /** The variables of the second loop at entry `at`. */
  predicate Assembly(sweep: Sweep, w: Walk, start: Built, b: Built, at: nat, rebuilt: seq<Object>, marks: set<Id>) {
    Building(sweep, w, start, b, at) && rebuilt == b.nodes && at < |b.marks| && marks == b.marks[at]
  }

  lemma {:induction false} AssemblyHead(sweep: Sweep, w: Walk, start: Built, b: Built, at: nat, rebuilt: seq<Object>,
                                        marks: set<Id>)
    requires Assembly(sweep, w, start, b, at, rebuilt, marks)
    ensures FitsWalk(w, b) && at <= |w.nodes| == |rebuilt| == |w.kidsOf|
    ensures at > 0 ==>
              |w.kidsOf[at - 1]| == |rebuilt[at - 1].kids| && AreBehind(w.kidsOf[at - 1], at - 1, |rebuilt|)
    ensures at == 0 ==> b == RebuildDown(sweep, w, start, |w.nodes|) && rebuilt == b.nodes
  {
    if at > 0 {
      BuildingNext(sweep, w, start, b, at);
    }
  }

  lemma {:induction false} AssemblyNext(sweep: Sweep, w: Walk, start: Built, b: Built, at: nat, rebuilt: seq<Object>,
                                        marks: set<Id>, f: Fixed)
    requires Assembly(sweep, w, start, b, at, rebuilt, marks) && at > 0
    requires FitsWalk(w, b) && at <= |w.nodes| == |rebuilt| == |w.kidsOf|
    requires |w.kidsOf[at - 1]| == |rebuilt[at - 1].kids| && AreBehind(w.kidsOf[at - 1], at - 1, |rebuilt|)
    requires f == Reconstructed(sweep, rebuilt[at - 1], Picked(rebuilt, w.kidsOf[at - 1]), at - 1, marks)
    ensures Assembly(sweep, w, start, RebuildNext(sweep, w, b, at), at - 1, rebuilt[at - 1 := f.node], f.marks)
    ensures f.dropped == []
  {
    BuildingNext(sweep, w, start, b, at);
  }

  lemma {:induction false} AssemblyStarts(sweep: Sweep, w: Walk, marks: set<Id>)
    requires Discovered(sweep, w, |w.nodes|) && marks == w.marksAt[|w.nodes|]
    ensures Assembly(sweep, w, Unbuilt(w), Unbuilt(w), |w.nodes|, w.nodes, marks)
  {
    StartIsRebuilt(sweep, w);
  }

  /** One step of the second loop: a node without children stays. */
  method RebuildEntry(sweep: Sweep, rebuilt: seq<Object>, idx: nat, kidIdx: seq<nat>, marks: set<Id>) returns (f: Fixed)
    requires idx < |rebuilt| && |kidIdx| == |rebuilt[idx].kids| && AreBehind(kidIdx, idx, |rebuilt|)
    ensures f == Reconstructed(sweep, rebuilt[idx], Picked(rebuilt, kidIdx), idx, marks)
  {
    f := Fixed(rebuilt[idx], marks, []);
    if kidIdx != [] {
      var replaced := ReplacedObject(rebuilt[idx], Picked(rebuilt, kidIdx), Rebuilt(sweep, idx, rebuilt[idx].id));
      f := ApplyNodeRewriter(sweep, idx, replaced, marks);
    }
  }

  /** The second loop's body for entry `idx`. */
  method RebuildStep(sweep: Sweep, rebuilt: seq<Object>, childrenMap: seq<seq<nat>>, idx: nat, marks: set<Id>,
                     ghost w: Walk, ghost start: Built, ghost b: Built)
    returns (rebuilt': seq<Object>, marks': set<Id>, dropped: seq<Object>, ghost b': Built)
    requires Assembly(sweep, w, start, b, idx + 1, rebuilt, marks) && childrenMap == w.kidsOf
    ensures Assembly(sweep, w, start, b', idx, rebuilt', marks') && dropped == []
  {
    AssemblyHead(sweep, w, start, b, idx + 1, rebuilt, marks);
    var f := RebuildEntry(sweep, rebuilt, idx, childrenMap[idx], marks);
    AssemblyNext(sweep, w, start, b, idx + 1, rebuilt, marks, f);
    b' := RebuildNext(sweep, w, b, idx + 1);
    rebuilt', marks', dropped := rebuilt[idx := f.node], f.marks, f.dropped;
  }

  /** The second pass: reverse order, so every child is rewritten before its parent is rebuilt. */
  method RebuildBottomUp(sweep: Sweep, nodes: seq<Object>, childrenMap: seq<seq<nat>>, marks: set<Id>,
                         dropped: seq<Object>, ghost w: Walk, ghost start: Built)
    returns (rebuilt: seq<Object>, dropped': seq<Object>, ghost b: Built)
    requires Assembly(sweep, w, start, start, |nodes|, nodes, marks) && childrenMap == w.kidsOf
    ensures b == RebuildDown(sweep, w, start, |w.nodes|)
    ensures rebuilt == RebuildDown(sweep, w, start, |w.nodes|).nodes && dropped' == dropped
  {
    rebuilt, dropped', b := nodes, dropped, start;
    var idx: nat, marks', more := |nodes|, marks, [];
    while idx > 0
      invariant Assembly(sweep, w, start, b, idx, rebuilt, marks') && dropped' == dropped
    {
      idx := idx - 1;
      rebuilt, marks', more, b := RebuildStep(sweep, rebuilt, childrenMap, idx, marks', w, start, b);
      dropped' := dropped' + more;
    }
    AssemblyHead(sweep, w, start, b, 0, rebuilt, marks');
  }

  /** `rewrite_tree`. */
  method RewriteTree(sweep: Sweep, root: Object, marks: set<Id>)
    returns (result: Object, dropped: seq<Object>, ghost visits: nat)
    ensures result == SweptObject(sweep, root, marks) && dropped == SweptDropped(sweep, root, marks)
    ensures visits == |Swept(sweep, root, marks).walk.seen|
  {
    var nodes, childrenMap, marks', found, w := DiscoverTopDown(sweep, root, marks);
    SweptAll(sweep, root, marks);
    SweptParts(sweep, root, marks);
    visits := |nodes|;
    AssemblyStarts(sweep, w, marks');
    ghost var b;
    nodes, dropped, b := RebuildBottomUp(sweep, nodes, childrenMap, marks', found, w, Unbuilt(w));
    result := nodes[0];
  }

  lemma {:induction false} SweptParts(sweep: Sweep, root: Object, marks: set<Id>)
    ensures
      var w := Discover(sweep, Start(root, marks), 0);
      && Swept(sweep, root, marks).walk == w
      && Swept(sweep, root, marks).built == RebuildDown(sweep, w, Unbuilt(w), |w.nodes|)
  {
  }
}
