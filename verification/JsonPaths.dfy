/** JSON paths and the dispatch trie (parser/base.py:57-206): paths are parsed into steps, and parsers are
    registered for paths both in a map and in the trie of the steps. */
module JsonPaths {
  import opened Values
  import opened Lists

  const MAX_TRIE_DEPTH: nat := 16

  /** `.segment`, or `..segment` when `deep`. */
  datatype PathStep = PathStep(deep: bool, segment: string)

  function Operator(deep: bool): string { if deep then ".." else "." }

  /** The text of some steps. */
  function Printed(steps: seq<PathStep>): string {
    if steps == [] then "" else Operator(steps[0].deep) + steps[0].segment + Printed(steps[1..])
  }

  predicate IsSegment(s: string) { s != "" && forall i | 0 <= i < |s| :: s[i] != '.' }

  predicate AreSteps(steps: seq<PathStep>) { forall i | 0 <= i < |steps| :: IsSegment(steps[i].segment) }

  lemma {:induction false} PrintedNext(steps: seq<PathStep>, step: PathStep)
    ensures Printed(steps + [step]) == Printed(steps) + (Operator(step.deep) + step.segment)
    decreases |steps|
  {
    if steps == [] {
      assert steps + [step] == [step] && Printed([step][1..]) == "";
    } else {
      assert (steps + [step])[0] == steps[0] && (steps + [step])[1..] == steps[1..] + [step];
      PrintedNext(steps[1..], step);
      Regrouped(Operator(steps[0].deep) + steps[0].segment, Printed(steps[1..]), Operator(step.deep) + step.segment);
    }
  }

  /** A path is `$` and the text of one step or more, not too many. */
  predicate IsPathOf(path: string, steps: seq<PathStep>) {
    0 < |steps| <= MAX_TRIE_DEPTH && AreSteps(steps) && path == "$" + Printed(steps)
  }

  // --- The steps of a path are determined by its text ---

  /** A segment ends where the text ends or a dot follows. */
  predicate IsFirstSegment(s: string, n: nat) {
    && 0 < n <= |s| && (forall i | 0 <= i < n :: s[i] != '.') && (n < |s| ==> s[n] == '.')
  }

  lemma {:induction false} FirstSegment(a: string, more: string)
    requires IsSegment(a) && (more == "" || more[0] == '.')
    ensures IsFirstSegment(a + more, |a|) && (a + more)[..|a|] == a && (a + more)[|a|..] == more
  {
    assert forall i | 0 <= i < |a| :: (a + more)[i] == a[i];
  }

  lemma {:induction false} SameFirstSegment(a: string, b: string, more: string, rest: string)
    requires IsSegment(a) && IsSegment(b) && a + more == b + rest
    requires (more == "" || more[0] == '.') && (rest == "" || rest[0] == '.')
    ensures a == b && more == rest
  {
    FirstSegment(a, more);
    FirstSegment(b, rest);
  }

  lemma {:induction false} PrintedStart(steps: seq<PathStep>)
    ensures Printed(steps) == "" <==> steps == []
    ensures steps != [] ==> Printed(steps)[0] == '.'
    ensures steps != [] && IsSegment(steps[0].segment) ==>
                |Printed(steps)| >= 2 && (Printed(steps)[1] == '.' <==> steps[0].deep)
  {
    if steps != [] {
      var text := Operator(steps[0].deep) + steps[0].segment;
      assert Printed(steps) == text + Printed(steps[1..]);
      assert steps[0].segment != "" ==> text[1] == if steps[0].deep then '.' else steps[0].segment[0];
    }
  }

  lemma {:induction false} PrintedSplits(steps: seq<PathStep>)
    requires steps != []
    ensures
      var op := Operator(steps[0].deep);
      |op| <= |Printed(steps)| && Printed(steps)[|op|..] == steps[0].segment + Printed(steps[1..])
  {
    Regrouped(Operator(steps[0].deep), steps[0].segment, Printed(steps[1..]));
  }

  lemma {:induction false} PrintedInjective(xs: seq<PathStep>, ys: seq<PathStep>)
    requires AreSteps(xs) && AreSteps(ys) && Printed(xs) == Printed(ys)
    ensures xs == ys
    decreases |xs|
  {
    PrintedStart(xs);
    PrintedStart(ys);
    if xs != [] {
      PrintedSplits(xs);
      PrintedSplits(ys);
      PrintedStart(xs[1..]);
      PrintedStart(ys[1..]);
      SameFirstSegment(xs[0].segment, ys[0].segment, Printed(xs[1..]), Printed(ys[1..]));
      PrintedInjective(xs[1..], ys[1..]);
      assert xs == [xs[0]] + xs[1..] && ys == [ys[0]] + ys[1..];
    }
  }

  /** `parse_json_path` is injective. */
  lemma {:induction false} PathsDiffer(p: string, q: string, xs: seq<PathStep>, ys: seq<PathStep>)
    requires IsPathOf(p, xs) && IsPathOf(q, ys)
    ensures p == q <==> xs == ys
  {
    if p == q {
      assert ("$" + Printed(xs))[1..] == Printed(xs) && ("$" + Printed(ys))[1..] == Printed(ys);
      PrintedInjective(xs, ys);
    }
  }

  /** Whatever steps print to a text begin with the steps that were read off its beginning. */
  lemma {:induction false} StepsThrough(all: seq<PathStep>, steps: seq<PathStep>, rest: string)
    requires AreSteps(all) && AreSteps(steps) && Printed(all) == Printed(steps) + rest
    requires rest == "" || rest[0] == '.'
    ensures steps <= all && Printed(all[|steps|..]) == rest
    decreases |steps|
  {
    if steps == [] {
      assert Printed(steps) + rest == rest && all[0..] == all;
    } else {
      FirstStepThrough(all, steps, rest);
      StepsThrough(all[1..], steps[1..], rest);
      PrefixNext(all, steps);
    }
  }

  lemma {:induction false} PrefixNext<T>(all: seq<T>, steps: seq<T>)
    requires all != [] && steps != [] && all[0] == steps[0] && steps[1..] <= all[1..]
    ensures steps <= all && all[1..][|steps| - 1..] == all[|steps|..]
  {
    assert steps == [steps[0]] + steps[1..] && all == [all[0]] + all[1..];
  }

  lemma {:induction false} PrintedThen(steps: seq<PathStep>, rest: string)
    requires steps != []
    ensures Printed(steps) + rest == Operator(steps[0].deep) + (steps[0].segment + (Printed(steps[1..]) + rest))
  {
    var op, first, more := Operator(steps[0].deep), steps[0].segment, Printed(steps[1..]);
    Regrouped(op, first, more);
    Regrouped(op, first + more, rest);
    Regrouped(first, more, rest);
  }

  lemma {:induction false} FirstStepThrough(all: seq<PathStep>, steps: seq<PathStep>, rest: string)
    requires AreSteps(all) && AreSteps(steps) && steps != [] && Printed(all) == Printed(steps) + rest
    requires rest == "" || rest[0] == '.'
    ensures all != [] && all[0] == steps[0] && Printed(all[1..]) == Printed(steps[1..]) + rest
  {
    PrintedThen(steps, rest);
    PrintedStart(steps[1..]);
    SameFirstStep(all, steps[0], Printed(steps[1..]) + rest);
  }

  lemma {:induction false} SameFirstStep(all: seq<PathStep>, step: PathStep, rest: string)
    requires AreSteps(all) && IsSegment(step.segment) && Printed(all) == Operator(step.deep) + (step.segment + rest)
    requires rest == "" || rest[0] == '.'
    ensures all != [] && all[0] == step && Printed(all[1..]) == rest
  {
    PrintedStart(all);
    var op, after := Operator(step.deep), step.segment + rest;
    assert after[0] == step.segment[0] != '.';
    assert Printed(all)[0] == '.' && (Printed(all)[1] == '.' <==> step.deep);
    PrintedSplits(all);
    assert (op + after)[|op|..] == after;
    PrintedStart(all[1..]);
    SameFirstSegment(all[0].segment, step.segment, Printed(all[1..]), rest);
  }

  // --- Parsing ---

  ghost predicate IsNoPath(path: string) { forall steps: seq<PathStep> :: !IsPathOf(path, steps) }

  lemma {:induction false} BadStart(path: string)
    requires |path| < 2 || path[..2] != "$."
    ensures IsNoPath(path)
  {
    forall steps: seq<PathStep> ensures !IsPathOf(path, steps) {
      if steps != [] && AreSteps(steps) {
        PrintedStart(steps);
        assert ("$" + Printed(steps))[..2] == "$.";
      }
    }
  }

  /** Nothing follows an operator but another dot, or nothing at all. */
  lemma {:induction false} BadSegment(path: string, steps: seq<PathStep>, rest: string, deep: bool)
    requires AreSteps(steps) && path == "$" + (Printed(steps) + rest)
    requires rest != "" && rest[0] == '.' && (deep <==> |rest| > 1 && rest[1] == '.')
    requires |rest| == |Operator(deep)| || rest[|Operator(deep)|] == '.'
    ensures IsNoPath(path)
  {
    forall all: seq<PathStep> ensures !IsPathOf(path, all) {
      if AreSteps(all) && path == "$" + Printed(all) {
        assert Printed(all) == path[1..] == Printed(steps) + rest;
        StepsThrough(all, steps, rest);
        var tail := all[|steps|..];
        assert AreSteps(tail);
        PrintedStart(tail);
        PrintedSplits(tail);
      }
    }
  }

  lemma {:induction false} TooDeep(path: string, steps: seq<PathStep>)
    requires AreSteps(steps) && path == "$" + Printed(steps) && |steps| > MAX_TRIE_DEPTH
    ensures IsNoPath(path)
  {
    forall all: seq<PathStep> ensures !IsPathOf(path, all) {
      if AreSteps(all) && path == "$" + Printed(all) {
        assert Printed(all) == path[1..] == Printed(steps);
        PrintedInjective(all, steps);
      }
    }
  }

  /** `find(".", start)`, or the end of the path. */
  method NextDot(path: string, start: nat) returns (end: nat)
    requires start <= |path|
    ensures start <= end <= |path| && (end < |path| ==> path[end] == '.')
    ensures forall i | start <= i < end :: path[i] != '.'
  {
    end := start;
    while end < |path| && path[end] != '.'
      invariant start <= end <= |path|
      invariant forall i | start <= i < end :: path[i] != '.'
    {
      end := end + 1;
    }
  }

  /** What has been read up to `idx`. */
  predicate HasRead(path: string, steps: seq<PathStep>, idx: nat) {
    && 1 <= idx <= |path| && AreSteps(steps)
    && path[0] == '$' && Printed(steps) == path[1..idx]
    && (idx < |path| ==> path[idx] == '.') && (idx == |path| ==> steps != [])
  }

  /** An operator and the segment up to `end`. */
  predicate IsNextStep(path: string, idx: nat, deep: bool, end: nat) {
    var start := idx + |Operator(deep)|;
    && idx < |path| && path[idx] == '.' && (deep <==> idx + 1 < |path| && path[idx + 1] == '.')
    && start <= end <= |path| && (end < |path| ==> path[end] == '.')
    && forall i | start <= i < end :: path[i] != '.'
  }

  lemma {:induction false} SlicedAt(path: string, idx: nat, deep: bool, end: nat)
    requires 1 <= idx && IsNextStep(path, idx, deep, end)
    ensures path[1..end] == path[1..idx] + (Operator(deep) + path[idx + |Operator(deep)|..end])
  {
    var start := idx + |Operator(deep)|;
    assert path[idx..start] == Operator(deep);
    assert path[1..end] == path[1..idx] + (path[idx..start] + path[start..end]);
  }

  lemma {:induction false} ReadSegment(path: string, steps: seq<PathStep>, idx: nat, deep: bool, end: nat)
    requires HasRead(path, steps, idx) && IsNextStep(path, idx, deep, end)
    requires idx + |Operator(deep)| < end
    ensures HasRead(path, steps + [PathStep(deep, path[idx + |Operator(deep)|..end])], end)
  {
    SlicedAt(path, idx, deep, end);
    PrintedNext(steps, PathStep(deep, path[idx + |Operator(deep)|..end]));
  }

  lemma {:induction false} NoSegment(path: string, steps: seq<PathStep>, idx: nat, deep: bool, end: nat)
    requires HasRead(path, steps, idx) && IsNextStep(path, idx, deep, end)
    requires idx + |Operator(deep)| == end
    ensures IsNoPath(path)
  {
    assert path == "$" + (path[1..idx] + path[idx..]);
    BadSegment(path, steps, path[idx..], deep);
  }

  lemma {:induction false} AllRead(path: string, steps: seq<PathStep>)
    requires HasRead(path, steps, |path|)
    ensures path == "$" + Printed(steps) && steps != []
  {
    assert path == "$" + path[1..|path|];
  }

  /** `parse_json_path`: the steps of a path if it has any, and an error only if it has none. */
  method ParseJsonPath(path: string) returns (r: Option<seq<PathStep>>)
    ensures r.Some? ==> IsPathOf(path, r.value)
    ensures r.None? ==> IsNoPath(path)
  {
    if |path| < 2 || path[..2] != "$." {
      BadStart(path);
      return None;
    }
    var steps: seq<PathStep> := [];
    var idx := 1;
    assert path[0] == path[..2][0] && path[1] == path[..2][1];
    while idx < |path|
      invariant HasRead(path, steps, idx)
      decreases |path| - idx
    {
      var deep := idx + 1 < |path| && path[idx + 1] == '.';
      var start := idx + if deep then 2 else 1;
      var end := NextDot(path, start);
      if start == end {
        NoSegment(path, steps, idx, deep, end);
        return None;
      }
      ReadSegment(path, steps, idx, deep, end);
      steps := steps + [PathStep(deep, path[start..end])];
      idx := end;
    }
    AllRead(path, steps);
    if |steps| > MAX_TRIE_DEPTH {
      TooDeep(path, steps);
      return None;
    }
    return Some(steps);
  }
}
