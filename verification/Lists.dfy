/** Lists with indices into them, as the breadth-first loops of rewriter, emitter and parser keep them. */
module Lists {

  /** The child indices recorded for a node whose children start at `first`. */
  function Indices(first: nat, count: nat): (idx: seq<nat>)
    ensures |idx| == count && forall j | 0 <= j < count :: idx[j] == first + j
  {
    seq(count, j requires 0 <= j < count => first + j)
  }

  /** The entries at the recorded indices. */
  function Picked<T>(xs: seq<T>, idx: seq<nat>): (picked: seq<T>)
    requires forall j | 0 <= j < |idx| :: idx[j] < |xs|
    ensures |picked| == |idx| && forall j | 0 <= j < |idx| :: picked[j] == xs[idx[j]]
  {
    seq(|idx|, j requires 0 <= j < |idx| => xs[idx[j]])
  }

  /** Entries that join the lists have no children recorded yet. */
  function NoKidsYet(count: nat): (kids: seq<seq<nat>>)
    ensures |kids| == count
  {
    seq(count, _ => [])
  }

  lemma {:induction false} AppendedAt<T>(xs: seq<T>, ys: seq<T>, j: nat)
    requires j < |ys|
    ensures (xs + ys)[|xs| + j] == ys[j]
  {
  }

  /** Every recorded index of some appended entries leads to its entry. */
  lemma {:induction false} AppendedIndices<T>(xs: seq<T>, ys: seq<T>)
    ensures forall j | 0 <= j < |ys| :: Indices(|xs|, |ys|)[j] < |xs + ys|
    ensures forall j | 0 <= j < |ys| :: (xs + ys)[Indices(|xs|, |ys|)[j]] == ys[j]
  {
    forall j | 0 <= j < |ys| ensures (xs + ys)[Indices(|xs|, |ys|)[j]] == ys[j] {
      AppendedAt(xs, ys, j);
    }
  }

  lemma {:induction false} Updated<T>(xs: seq<T>, i: nat, x: T)
    requires i < |xs|
    ensures xs[i := x][i] == x && forall j | 0 <= j < |xs| && j != i :: xs[i := x][j] == xs[j]
  {
  }

  lemma {:induction false} QueueNext(done: nat, count: nat, kids: nat)
    requires done < count
    ensures Indices(done, count - done)[0] == done
    ensures Indices(done, count - done)[1..] + Indices(count, kids) == Indices(done + 1, count + kids - done - 1)
  {
  }

  lemma {:induction false} Regrouped<T>(a: seq<T>, b: seq<T>, c: seq<T>)
    ensures a + (b + c) == a + b + c
  {
  }
}
