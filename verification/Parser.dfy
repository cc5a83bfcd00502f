/** `json_to_ir` (parser/__init__.py): the two-pass construction with a node budget. Subtrees beyond the budget
    become unsupported, the deepest first; the rest is parsed. */
module Parser {
  import opened Ir
  import opened Lists
  import opened Records
  import opened NodeBudget

  // --- The first pass ---

  /** A recorded node: the record kept for it and where its children are. */
  datatype Entry = Entry(record: Record, kids: seq<nat>)

  /** The entry of a node that was given up. */
  function GivenUp(j: Json): Entry { Entry(LeafRecord(Unsupported(Replaced(FullParse(j)), [])), []) }

  /** Entry `k` records what dispatching the JSON node returned, its children one level deeper. */
  ghost predicate RecordedWhole(raw: seq<Json>, depths: seq<nat>, entry: Entry, k: nat)
    requires |depths| == |raw|
  {
    && k < |raw| && entry.record == DispatchedRecord(raw[k])
    && |entry.kids| == |DispatchedChildren(raw[k])|
    && forall j | 0 <= j < |entry.kids| ::
         && k < entry.kids[j] < |raw| && raw[entry.kids[j]] == DispatchedChildren(raw[k])[j]
         && depths[entry.kids[j]] == depths[k] + 1
  }

  /** Or the node was given up; that happens to no node above `level`. */
  ghost predicate Recorded(raw: seq<Json>, depths: seq<nat>, entry: Entry, k: nat, level: nat, degraded: bool)
    requires |depths| == |raw|
  {
    || RecordedWhole(raw, depths, entry, k)
    || (k < |raw| && degraded && entry == GivenUp(raw[k]) && depths[k] >= level)
  }

  ghost predicate AllRecorded(raw: seq<Json>, depths: seq<nat>, entries: seq<Entry>, level: nat, degraded: bool) {
    && |entries| <= |raw| == |depths|
    && forall k | 0 <= k < |entries| :: Recorded(raw, depths, entries[k], k, level, degraded)
  }

  /** Until something is degraded, the nodes seen and those beneath the pending ones are all the nodes
      the budget has to hold. */
  ghost predicate BudgetKept(root: Json, raw: seq<Json>, done: nat, ipcLeafNodes: nat, degraded: bool) {
    && done <= |raw| && |raw| + ipcLeafNodes <= MAX_AST_NODES
    && (!degraded ==> done + ipcLeafNodes + CountAll(raw[done..]) == CountNodes(root))
    && (degraded ==> CountNodes(root) > MAX_AST_NODES)
  }

  /** Visiting a node: it fits the budget unless the whole tree does not. */
  lemma {:induction false} BudgetNext(root: Json, raw: seq<Json>, done: nat, ipcLeafNodes: nat, degraded: bool)
    requires done < |raw| && BudgetKept(root, raw, done, ipcLeafNodes, degraded)
    ensures
      var kids, fanout := DispatchedChildren(raw[done]), LeafFanout(DispatchedRecord(raw[done]));
      if |raw| + ipcLeafNodes + |kids| + fanout <= MAX_AST_NODES then
        BudgetKept(root, raw + kids, done + 1, ipcLeafNodes + fanout, degraded)
      else
        BudgetKept(root, raw, done + 1, ipcLeafNodes, true)
  {
    var curr, kids := raw[done], DispatchedChildren(raw[done]);
    assert raw[done..] == [curr] + raw[done + 1..];
    CountOf(curr);
    CountAllConcat(raw[done + 1..], kids);
    assert (raw + kids)[done + 1..] == raw[done + 1..] + kids;
    CountAtLeast(raw[done + 1..]);
    CountAtLeast(kids);
  }

  /** Where the pass stands in the layers of the tree: the pending nodes up to `split` end the layer `level`, the
      others begin the next, until something is given up. */
  ghost predicate Layered(root: Json, raw: seq<Json>, depths: seq<nat>, done: nat, ipcLeafNodes: nat, level: nat,
                          split: nat, degraded: bool) {
    && |depths| == |raw| && done <= split <= |raw|
    && (forall k | done <= k < |raw| :: depths[k] >= level)
    && if degraded then !FitsDownTo(root, level)
       else
         && (forall k | done <= k < |raw| :: depths[k] == if k < split then level else level + 1)
         && raw[split..] + KidsOf(raw[done..split]) == Layer(root, level + 1)
         && |raw| + ipcLeafNodes + |KidsOf(raw[done..split])| + FanoutOf(raw[done..split])
            == NodesDownTo(root, level + 1)
  }

  /** At the end of a layer the next one begins. */
  lemma {:induction false} LayerEnds(root: Json, raw: seq<Json>, depths: seq<nat>, done: nat, ipcLeafNodes: nat,
                                     level: nat)
    requires Layered(root, raw, depths, done, ipcLeafNodes, level, done, false)
    ensures Layered(root, raw, depths, done, ipcLeafNodes, level + 1, |raw|, false)
  {
    assert raw[done..done] == [];
    assert raw[done..|raw|] == raw[done..] == Layer(root, level + 1);
    assert raw[|raw|..] + KidsOf(raw[done..|raw|]) == KidsOf(raw[done..|raw|]);
  }

  ghost function KidDepths(depth: nat, count: nat): (ds: seq<nat>)
    ensures |ds| == count
  {
    seq(count, _ => depth + 1)
  }

  /** A node of the layer is recorded: its children go to the end of the next layer. */
  lemma {:induction false} LayerNext(root: Json, raw: seq<Json>, depths: seq<nat>, done: nat, ipcLeafNodes: nat,
                                     level: nat, split: nat, kids: seq<Json>)
    requires Layered(root, raw, depths, done, ipcLeafNodes, level, split, false) && done < split
    requires kids == DispatchedChildren(raw[done])
    ensures
      Layered(root, raw + kids, depths + KidDepths(depths[done], |kids|), done + 1,
              ipcLeafNodes + LeafFanout(DispatchedRecord(raw[done])), level, split, false)
  {
    var curr := raw[done..split];
    assert curr[0] == raw[done] && curr[1..] == raw[done + 1..split];
    assert (raw + kids)[done + 1..split] == raw[done + 1..split];
    assert (raw + kids)[split..] == raw[split..] + kids;
    Regrouped(raw[split..], kids, KidsOf(curr[1..]));
  }

  /** Once something was given up, what joins lies no higher. */
  lemma {:induction false} StaysBelow(root: Json, raw: seq<Json>, depths: seq<nat>, done: nat, ipcLeafNodes: nat,
                                      level: nat, split: nat, kids: seq<Json>, ipcLeafNodes': nat)
    requires Layered(root, raw, depths, done, ipcLeafNodes, level, split, true) && done < |raw|
    ensures Layered(root, raw + kids, depths + KidDepths(depths[done], |kids|), done + 1, ipcLeafNodes', level,
                    |raw + kids|, true)
  {
  }

  /** A node that does not fit shows that the layers down to its children do not. */
  lemma {:induction false} LayerOverflows(root: Json, raw: seq<Json>, depths: seq<nat>, done: nat, ipcLeafNodes: nat,
                                          level: nat, split: nat)
    requires Layered(root, raw, depths, done, ipcLeafNodes, level, split, false) && done < split
    requires |raw| + ipcLeafNodes + |DispatchedChildren(raw[done])| + LeafFanout(DispatchedRecord(raw[done]))
             > MAX_AST_NODES
    ensures Layered(root, raw, depths, done, ipcLeafNodes, level, |raw|, true)
  {
    var curr := raw[done..split];
    assert curr[0] == raw[done];
    assert |KidsOf(curr)| >= |DispatchedChildren(raw[done])|;
    assert FanoutOf(curr) >= LeafFanout(DispatchedRecord(raw[done]));
  }

  lemma {:induction false} RecordedStays(raw: seq<Json>, depths: seq<nat>, entries: seq<Entry>, more: seq<Json>,
                                         deeper: seq<nat>, level: nat, degraded: bool, degraded': bool)
    requires AllRecorded(raw, depths, entries, level, degraded) && (degraded ==> degraded') && |more| == |deeper|
    ensures AllRecorded(raw + more, depths + deeper, entries, level, degraded')
  {
    forall k | 0 <= k < |entries| ensures Recorded(raw + more, depths + deeper, entries[k], k, level, degraded') {
      assert Recorded(raw, depths, entries[k], k, level, degraded);
    }
  }

  lemma {:induction false} AllRecordedNext(raw: seq<Json>, depths: seq<nat>, entries: seq<Entry>, entry: Entry,
                                           level: nat, degraded: bool)
    requires AllRecorded(raw, depths, entries, level, degraded) && |entries| < |raw|
    requires Recorded(raw, depths, entry, |entries|, level, degraded)
    ensures AllRecorded(raw, depths, entries + [entry], level, degraded)
  {
  }

  lemma {:induction false} RecordedNow(raw: seq<Json>, depths: seq<nat>, k: nat, kids: seq<Json>)
    requires k < |raw| == |depths| && kids == DispatchedChildren(raw[k])
    ensures RecordedWhole(raw + kids, depths + KidDepths(depths[k], |kids|),
                          Entry(DispatchedRecord(raw[k]), Indices(|raw|, |kids|)), k)
  {
    assert (raw + kids)[k] == raw[k];
    assert forall j | 0 <= j < |kids| :: (raw + kids)[|raw| + j] == kids[j];
  }

  lemma {:induction false} RecordedNext(raw: seq<Json>, depths: seq<nat>, entries: seq<Entry>, level: nat,
                                        degraded: bool, k: nat, record: Record, kids: seq<Json>)
    requires AllRecorded(raw, depths, entries, level, degraded) && k == |entries| < |raw|
    requires record == DispatchedRecord(raw[k]) && kids == DispatchedChildren(raw[k])
    ensures AllRecorded(raw + kids, depths + KidDepths(depths[k], |kids|),
                        entries + [Entry(record, Indices(|raw|, |kids|))], level, degraded)
  {
    var depths' := depths + KidDepths(depths[k], |kids|);
    RecordedStays(raw, depths, entries, kids, KidDepths(depths[k], |kids|), level, degraded, degraded);
    RecordedNow(raw, depths, k, kids);
    AllRecordedNext(raw + kids, depths', entries, Entry(record, Indices(|raw|, |kids|)), level, degraded);
  }

  /** While nothing is degraded, the level does not matter to what is recorded. */
  lemma {:induction false} AnyLevel(raw: seq<Json>, depths: seq<nat>, entries: seq<Entry>, level: nat, level': nat)
    requires AllRecorded(raw, depths, entries, level, false)
    ensures AllRecorded(raw, depths, entries, level', false)
  {
    forall k | 0 <= k < |entries| ensures Recorded(raw, depths, entries[k], k, level', false) {
      assert Recorded(raw, depths, entries[k], k, level, false);
    }
  }

  /** The nodes recorded but not visited, in order. */
  predicate Queued(queue: seq<nat>, done: nat, count: nat) { done <= count && queue == Indices(done, count - done) }

  lemma {:induction false} QueueHead(queue: seq<nat>, done: nat, count: nat)
    requires Queued(queue, done, count)
    ensures queue == [] <==> done == count
    ensures queue != [] ==> queue[0] == done
  {
  }

  lemma {:induction false} QueuedNext(queue: seq<nat>, done: nat, count: nat, kids: nat)
    requires Queued(queue, done, count) && queue != []
    ensures Queued(queue[1..] + Indices(count, kids), done + 1, count + kids)
    ensures Queued(queue[1..], done + 1, count)
  {
    QueueHead(queue, done, count);
    QueueNext(done, count, kids);
    QueueNext(done, count, 0);
    assert queue[1..] + Indices(count, 0) == queue[1..];
  }

  /** The invariant of the first pass. */
  ghost predicate Parsing(root: Json, raw: seq<Json>, depths: seq<nat>, entries: seq<Entry>, queue: seq<nat>,
                          ipcLeafNodes: nat, level: nat, degraded: bool) {
    && Queued(queue, |entries|, |raw|)
    && |raw| > 0 && raw[0] == root
    && AllRecorded(raw, depths, entries, level, degraded) && depths[0] == 0
    && BudgetKept(root, raw, |entries|, ipcLeafNodes, degraded)
  }

  lemma {:induction false} FitsBudget(root: Json, raw: seq<Json>, depths: seq<nat>, entries: seq<Entry>,
                                      queue: seq<nat>, ipcLeafNodes: nat, level: nat, degraded: bool,
                                      k: nat, record: Record, kids: seq<Json>, fanout: nat)
    requires Parsing(root, raw, depths, entries, queue, ipcLeafNodes, level, degraded) && k == |entries| < |raw|
    requires record == DispatchedRecord(raw[k]) && kids == DispatchedChildren(raw[k]) && fanout == LeafFanout(record)
    requires |raw| + ipcLeafNodes + |kids| + fanout <= MAX_AST_NODES
    ensures Parsing(root, raw + kids, depths + KidDepths(depths[k], |kids|),
                    entries + [Entry(record, Indices(|raw|, |kids|))], queue[1..] + Indices(|raw|, |kids|),
                    ipcLeafNodes + fanout, level, degraded)
  {
    BudgetNext(root, raw, k, ipcLeafNodes, degraded);
    RecordedNext(raw, depths, entries, level, degraded, k, record, kids);
    QueuedNext(queue, k, |raw|, |kids|);
  }

  lemma {:induction false} ExceedsBudget(root: Json, raw: seq<Json>, depths: seq<nat>, entries: seq<Entry>,
                                         queue: seq<nat>, ipcLeafNodes: nat, level: nat, degraded: bool)
    requires Parsing(root, raw, depths, entries, queue, ipcLeafNodes, level, degraded) && |entries| < |raw|
    requires depths[|entries|] >= level
    requires
      |raw| + ipcLeafNodes + |DispatchedChildren(raw[|entries|])|
      + LeafFanout(DispatchedRecord(raw[|entries|])) > MAX_AST_NODES
    ensures Parsing(root, raw, depths, entries + [GivenUp(raw[|entries|])], queue[1..], ipcLeafNodes, level, true)
  {
    var k := |entries|;
    BudgetNext(root, raw, k, ipcLeafNodes, degraded);
    RecordedStays(raw, depths, entries, [], [], level, degraded, true);
    assert raw + [] == raw && depths + [] == depths;
    AllRecordedNext(raw, depths, entries, GivenUp(raw[k]), level, true);
    QueuedNext(queue, k, |raw|, 0);
  }

  /** The first pass: breadth first. A node that would exceed the budget loses its whole subtree, the
      entries already found stay. (The source tests the budget once more before dispatching; that test
      never succeeds, since the invariant holds there.) */
  method DiscoverNodes(root: Json)
    returns (raw: seq<Json>, entries: seq<Entry>, ipcLeafNodes: nat, ghost depths: seq<nat>, ghost level: nat,
             ghost degraded: bool)
    ensures |entries| == |raw| > 0 && raw[0] == root && AllRecorded(raw, depths, entries, level, degraded)
    ensures depths[0] == 0 && (degraded ==> !FitsDownTo(root, level))
    ensures |raw| + ipcLeafNodes <= MAX_AST_NODES
    ensures degraded <==> CountNodes(root) > MAX_AST_NODES
  {
    raw, entries, ipcLeafNodes, depths, level, degraded := [root], [], 0, [0], 0, false;
    var queue: seq<nat> := [0];
    ghost var split: nat := 1;
    RootLayered(root);
    while queue != []
      invariant Parsing(root, raw, depths, entries, queue, ipcLeafNodes, level, degraded)
      invariant Layered(root, raw, depths, |entries|, ipcLeafNodes, level, split, degraded)
      decreases MAX_AST_NODES - |entries|
    {
      QueueHead(queue, |entries|, |raw|);
      var curr := raw[queue[0]];
      var record, kids := DispatchedRecord(curr), DispatchedChildren(curr);
      var fanout := LeafFanout(record);
      level, split := BeginLayer(root, raw, depths, entries, queue, ipcLeafNodes, level, split, degraded);
      if |raw| + ipcLeafNodes + |kids| + fanout > MAX_AST_NODES {
        LayerExceeds(root, raw, depths, queue[0], ipcLeafNodes, level, split, degraded);
        ExceedsBudget(root, raw, depths, entries, queue, ipcLeafNodes, level, degraded);
        entries := entries + [GivenUp(curr)];
        queue := queue[1..];
        split, degraded := |raw|, true;
      } else {
        LayerFits(root, raw, depths, queue[0], ipcLeafNodes, level, split, degraded, kids, fanout);
        FitsBudget(root, raw, depths, entries, queue, ipcLeafNodes, level, degraded, queue[0], record, kids, fanout);
        var kidIdx := Indices(|raw|, |kids|);
        depths := depths + KidDepths(depths[queue[0]], |kids|);
        entries := entries + [Entry(record, kidIdx)];
        raw := raw + kids;
        ipcLeafNodes := ipcLeafNodes + fanout;
        queue := queue[1..] + kidIdx;
        split := if degraded then |raw| else split;
      }
    }
    Discovered(root, raw, depths, entries, queue, ipcLeafNodes, level, split, degraded);
  }

  /** The next pending node lies in the layer `level'`. */
  lemma {:induction false} BeginLayer(root: Json, raw: seq<Json>, depths: seq<nat>, entries: seq<Entry>,
                                      queue: seq<nat>, ipcLeafNodes: nat, level: nat, split: nat, degraded: bool)
    returns (level': nat, split': nat)
    requires Parsing(root, raw, depths, entries, queue, ipcLeafNodes, level, degraded) && |entries| < |raw|
    requires Layered(root, raw, depths, |entries|, ipcLeafNodes, level, split, degraded)
    ensures Parsing(root, raw, depths, entries, queue, ipcLeafNodes, level', degraded)
    ensures Layered(root, raw, depths, |entries|, ipcLeafNodes, level', split', degraded)
    ensures depths[|entries|] >= level' && (!degraded ==> |entries| < split')
  {
    level', split' := level, split;
    if !degraded && |entries| == split {
      LayerEnds(root, raw, depths, |entries|, ipcLeafNodes, level);
      AnyLevel(raw, depths, entries, level, level + 1);
      level', split' := level + 1, |raw|;
    }
  }

  lemma {:induction false} LayerFits(root: Json, raw: seq<Json>, depths: seq<nat>, done: nat, ipcLeafNodes: nat,
                                     level: nat, split: nat, degraded: bool, kids: seq<Json>, fanout: nat)
    requires Layered(root, raw, depths, done, ipcLeafNodes, level, split, degraded) && done < |raw|
    requires kids == DispatchedChildren(raw[done]) && fanout == LeafFanout(DispatchedRecord(raw[done]))
    requires !degraded ==> done < split
    ensures Layered(root, raw + kids, depths + KidDepths(depths[done], |kids|), done + 1, ipcLeafNodes + fanout, level,
                    if degraded then |raw + kids| else split, degraded)
  {
    if degraded {
      StaysBelow(root, raw, depths, done, ipcLeafNodes, level, split, kids, ipcLeafNodes + fanout);
    } else {
      LayerNext(root, raw, depths, done, ipcLeafNodes, level, split, kids);
    }
  }

  lemma {:induction false} LayerExceeds(root: Json, raw: seq<Json>, depths: seq<nat>, done: nat, ipcLeafNodes: nat,
                                        level: nat, split: nat, degraded: bool)
    requires Layered(root, raw, depths, done, ipcLeafNodes, level, split, degraded) && done < |raw|
    requires !degraded ==> done < split
    requires |raw| + ipcLeafNodes + |DispatchedChildren(raw[done])| + LeafFanout(DispatchedRecord(raw[done]))
             > MAX_AST_NODES
    ensures Layered(root, raw, depths, done + 1, ipcLeafNodes, level, |raw|, true)
  {
    if !degraded {
      LayerOverflows(root, raw, depths, done, ipcLeafNodes, level, split);
    }
  }

  lemma {:induction false} Discovered(root: Json, raw: seq<Json>, depths: seq<nat>, entries: seq<Entry>,
                                      queue: seq<nat>, ipcLeafNodes: nat, level: nat, split: nat, degraded: bool)
    requires Parsing(root, raw, depths, entries, queue, ipcLeafNodes, level, degraded)
    requires Layered(root, raw, depths, |entries|, ipcLeafNodes, level, split, degraded) && queue == []
    ensures |entries| == |raw| > 0 && raw[0] == root && AllRecorded(raw, depths, entries, level, degraded)
    ensures depths[0] == 0 && (degraded ==> !FitsDownTo(root, level))
    ensures |raw| + ipcLeafNodes <= MAX_AST_NODES
    ensures degraded <==> CountNodes(root) > MAX_AST_NODES
  {
    QueueHead(queue, |entries|, |raw|);
    assert raw[|entries|..] == [];
  }

  lemma {:induction false} RootLayered(root: Json)
    ensures Parsing(root, [root], [0], [], [0], 0, 0, false)
    ensures Layered(root, [root], [0], 0, 0, 0, 1, false)
  {
    var raw := [root];
    assert raw[0..] == raw && raw[0..1] == raw && raw[1..] == [];
    assert KidsOf(raw) == Layer(root, 1) by { assert Layer(root, 0) == raw; }
    assert raw[1..] + KidsOf(raw) == KidsOf(raw);
    assert CountAll(raw) == CountNodes(root) by { assert raw[1..] == [] && CountAll(raw[1..]) == 0; }
  }

  // --- The second pass ---

  /** Nothing was given up at this depth or above it. */
  predicate IsKeptDepth(d: nat, level: nat, degraded: bool) { degraded ==> d < level }

  /** A node at some depth is made of what its record builds, for as many levels as are kept. */
  ghost predicate KeptNode(j: Json, got: Expr, depth: nat, level: nat, degraded: bool) {
    forall d: nat | IsKeptDepth(depth + d, level, degraded) :: KeptTo(j, got, d)
  }

  ghost predicate KeptKids(js: seq<Json>, gots: seq<Expr>, depth: nat, level: nat, degraded: bool) {
    |js| == |gots| && forall i | 0 <= i < |js| :: KeptNode(js[i], gots[i], depth, level, degraded)
  }

  ghost predicate ConstructedFrom(raw: seq<Json>, irNodes: seq<Expr>, from: nat, degraded: bool) {
    |raw| == |irNodes| && forall k | from <= k < |raw| :: Degrades(FullParse(raw[k]), irNodes[k], degraded)
  }

  ghost predicate KeptBehind(raw: seq<Json>, depths: seq<nat>, irNodes: seq<Expr>, from: nat, level: nat,
                             degraded: bool) {
    && |raw| == |irNodes| == |depths|
    && forall k {:trigger irNodes[k]} | from <= k < |raw| ::
         KeptNode(raw[k], irNodes[k], depths[k], level, degraded)
  }

  lemma {:induction false} ConstructNext(raw: seq<Json>, depths: seq<nat>, entry: Entry, irNodes: seq<Expr>, k: nat,
                                         level: nat, degraded: bool)
    requires ConstructedFrom(raw, irNodes, k + 1, degraded)
    requires k < |raw| == |depths| && Recorded(raw, depths, entry, k, level, degraded)
    ensures forall j | 0 <= j < |entry.kids| :: entry.kids[j] < |irNodes|
    ensures ArityFits(entry.record, |entry.kids|)
    ensures
      var kids := Picked(irNodes, entry.kids);
      Degrades(FullParse(raw[k]), Built(entry.record, kids, Replaced(FullParse(raw[k]))), degraded)
  {
    FullParseOf(raw[k]);
    if RecordedWhole(raw, depths, entry, k) {
      var full, kids := FullParseAll(DispatchedChildren(raw[k])), Picked(irNodes, entry.kids);
      forall j | 0 <= j < |kids| ensures Degrades(full[j], kids[j], degraded) {
        assert raw[entry.kids[j]] == DispatchedChildren(raw[k])[j];
      }
      BuiltDegrades(raw[k], full, kids, degraded);
    }
  }

  /** The children of a recorded node were constructed before it, one level deeper. */
  lemma {:induction false} KidsConstructed(raw: seq<Json>, depths: seq<nat>, entry: Entry, irNodes: seq<Expr>, k: nat,
                                           level: nat, degraded: bool, js: seq<Json>)
    requires KeptBehind(raw, depths, irNodes, k + 1, level, degraded)
    requires k < |raw| && RecordedWhole(raw, depths, entry, k) && js == DispatchedChildren(raw[k])
    ensures KeptKids(js, Picked(irNodes, entry.kids), depths[k] + 1, level, degraded)
  {
    forall i | 0 <= i < |js| ensures KeptNode(js[i], irNodes[entry.kids[i]], depths[k] + 1, level, degraded) {
      assert raw[entry.kids[i]] == js[i] && depths[entry.kids[i]] == depths[k] + 1;
    }
  }

  /** A node over children that are kept for as many levels as possible is itself. */
  lemma {:induction false} KeptOver(j: Json, node: Expr, kids: seq<Expr>, depth: nat, level: nat, degraded: bool)
    requires BuiltFrom(j, node, kids) && KeptKids(DispatchedChildren(j), kids, depth + 1, level, degraded)
    ensures KeptNode(j, node, depth, level, degraded)
  {
    forall d: nat | IsKeptDepth(depth + d, level, degraded) ensures KeptTo(j, node, d) {
      if d > 0 {
        AllKept(DispatchedChildren(j), kids, depth + 1, level, degraded, d - 1);
      }
      KeptFrom(j, node, kids, d);
    }
  }

  lemma {:induction false} AllKept(js: seq<Json>, kids: seq<Expr>, depth: nat, level: nat, degraded: bool, d: nat)
    requires KeptKids(js, kids, depth, level, degraded) && IsKeptDepth(depth + d, level, degraded)
    ensures AllKeptTo(js, kids, d)
  {
  }

  lemma {:induction false} GivenUpBelow(j: Json, node: Expr, depth: nat, level: nat)
    requires depth >= level
    ensures KeptNode(j, node, depth, level, true)
  {
  }

  lemma {:induction false} KeptNext(raw: seq<Json>, depths: seq<nat>, entry: Entry, irNodes: seq<Expr>, k: nat,
                                    level: nat, degraded: bool, kids: seq<Expr>, node: Expr)
    requires KeptBehind(raw, depths, irNodes, k + 1, level, degraded)
    requires k < |raw| && Recorded(raw, depths, entry, k, level, degraded)
    requires forall j | 0 <= j < |entry.kids| :: entry.kids[j] < |irNodes|
    requires kids == Picked(irNodes, entry.kids) && ArityFits(entry.record, |kids|)
    requires node == Built(entry.record, kids, Replaced(FullParse(raw[k])))
    ensures KeptNode(raw[k], node, depths[k], level, degraded)
  {
    if RecordedWhole(raw, depths, entry, k) {
      KidsConstructed(raw, depths, entry, irNodes, k, level, degraded, DispatchedChildren(raw[k]));
      KeptOver(raw[k], node, kids, depths[k], level, degraded);
    } else {
      GivenUpBelow(raw[k], node, depths[k], level);
    }
  }

  method ConstructBottomUp(raw: seq<Json>, ghost depths: seq<nat>, entries: seq<Entry>, ghost level: nat,
                           ghost degraded: bool)
    returns (irNodes: seq<Expr>)
    requires |raw| == |entries| && AllRecorded(raw, depths, entries, level, degraded)
    ensures ConstructedFrom(raw, irNodes, 0, degraded) && KeptBehind(raw, depths, irNodes, 0, level, degraded)
  {
    irNodes := seq(|raw|, k requires 0 <= k < |raw| => UnsupportedLeaf(raw[k]));
    var idx := |raw|;
    while idx > 0
      invariant 0 <= idx <= |raw|
      invariant ConstructedFrom(raw, irNodes, idx, degraded)
      invariant KeptBehind(raw, depths, irNodes, idx, level, degraded)
    {
      idx := idx - 1;
      ConstructNext(raw, depths, entries[idx], irNodes, idx, level, degraded);
      var kids := Picked(irNodes, entries[idx].kids);
      var node := Construct(entries[idx].record, kids, Replaced(FullParse(raw[idx])));
      KeptNext(raw, depths, entries[idx], irNodes, idx, level, degraded, kids, node);
      irNodes := irNodes[idx := node];
    }
  }

  /** `json_to_ir`: the tree is the full parse with some subtrees given up, none if the predicate fits
      the budget, and none above the first level that does not fit it; at most `MAX_AST_NODES` nodes are ever
      recorded. */
  method JsonToIr(root: Json) returns (tree: Expr, recorded: nat)
    ensures Degrades(FullParse(root), tree, CountNodes(root) > MAX_AST_NODES)
    ensures forall d | FitsDownTo(root, d) :: KeptTo(root, tree, d)
    ensures recorded <= MAX_AST_NODES
  {
    var raw, entries, ipcLeafNodes, depths, level, degraded := DiscoverNodes(root);
    var irNodes := ConstructBottomUp(raw, depths, entries, level, degraded);
    forall d | FitsDownTo(root, d) ensures KeptTo(root, irNodes[0], d) {
      FitsAbove(root, d, level);
      assert KeptNode(raw[0], irNodes[0], depths[0], level, degraded) && IsKeptDepth(depths[0] + d, level, degraded);
    }
    return irNodes[0], |raw| + ipcLeafNodes;
  }
}
