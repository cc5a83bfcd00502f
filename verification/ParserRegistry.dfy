/** The parser registry (parser/base.py:57-206): a map from paths to parsers and a trie of their steps,
    registered together. */
module ParserRegistry {
  import opened Values
  import opened JsonPaths

  /** Parser functions are told apart by number. */
  type ParserId = nat

  datatype CompiledRoute = CompiledRoute(path: string, parser: ParserId)

  datatype Trie = Trie(children: map<string, Trie>, descendants: map<string, Trie>, route: Option<CompiledRoute>)

  function EmptyTrie(): Trie { Trie(map[], map[], None) }

  function Table(t: Trie, deep: bool): map<string, Trie> { if deep then t.descendants else t.children }

  function WithEntry(t: Trie, step: PathStep, sub: Trie): Trie {
    if step.deep then t.(descendants := t.descendants[step.segment := sub])
    else t.(children := t.children[step.segment := sub])
  }

  function SubTrie(t: Trie, step: PathStep): Trie {
    if step.segment in Table(t, step.deep) then Table(t, step.deep)[step.segment] else EmptyTrie()
  }

  function RouteAt(t: Trie, steps: seq<PathStep>): Option<CompiledRoute>
    decreases |steps|
  {
    if steps == [] then t.route else RouteAt(SubTrie(t, steps[0]), steps[1..])
  }

  /** `_insert_compiled_route`; `None` is the conflict error. */
  function Inserted(t: Trie, steps: seq<PathStep>, route: CompiledRoute): Option<Trie>
    decreases |steps|
  {
    if steps == [] then
      if t.route.Some? && t.route.value.parser != route.parser then None else Some(t.(route := Some(route)))
    else
      match Inserted(SubTrie(t, steps[0]), steps[1..], route)
      case None => None
      case Some(sub) => Some(WithEntry(t, steps[0], sub))
  }

  /** The conflict error is raised exactly when the steps lead to another parser's route. */
  lemma {:induction false} ConflictIff(t: Trie, steps: seq<PathStep>, route: CompiledRoute)
    ensures Inserted(t, steps, route).None?
         <==> RouteAt(t, steps).Some? && RouteAt(t, steps).value.parser != route.parser
    decreases |steps|
  {
    if steps != [] {
      ConflictIff(SubTrie(t, steps[0]), steps[1..], route);
    }
  }

  lemma {:induction false} EntryOf(t: Trie, step: PathStep, sub: Trie, other: PathStep)
    ensures SubTrie(WithEntry(t, step, sub), other) == if other == step then sub else SubTrie(t, other)
  {
  }

  /** Inserting a route changes the trie at its steps and nowhere else. */
  lemma {:induction false} RouteAfter(t: Trie, steps: seq<PathStep>, route: CompiledRoute, other: seq<PathStep>)
    requires Inserted(t, steps, route).Some?
    ensures RouteAt(Inserted(t, steps, route).value, other) == if other == steps then Some(route) else RouteAt(t, other)
    decreases |steps|
  {
    var after := Inserted(t, steps, route).value;
    if steps != [] && other != [] {
      var sub := Inserted(SubTrie(t, steps[0]), steps[1..], route).value;
      EntryOf(t, steps[0], sub, other[0]);
      RouteAfter(SubTrie(t, steps[0]), steps[1..], route, other[1..]);
      assert steps == [steps[0]] + steps[1..] && other == [other[0]] + other[1..];
    }
  }

  // --- The registry ---

  function PathOf(steps: seq<PathStep>): string { "$" + Printed(steps) }

  /** What the map says about the path that the steps are of. */
  function RouteFor(parsers: map<string, ParserId>, steps: seq<PathStep>): Option<CompiledRoute> {
    var path := PathOf(steps);
    if IsPathOf(path, steps) && path in parsers then Some(CompiledRoute(path, parsers[path])) else None
  }

  ghost predicate Agrees(t: Trie, parsers: map<string, ParserId>) {
    forall steps: seq<PathStep> :: RouteAt(t, steps) == RouteFor(parsers, steps)
  }

  lemma {:induction false} EmptyAgrees()
    ensures Agrees(EmptyTrie(), map[])
  {
    forall steps: seq<PathStep> ensures RouteAt(EmptyTrie(), steps) == None {
      NothingAt(steps);
    }
  }

  lemma {:induction false} NothingAt(steps: seq<PathStep>)
    ensures RouteAt(EmptyTrie(), steps) == None
    decreases |steps|
  {
    if steps != [] {
      NothingAt(steps[1..]);
    }
  }

  /** Registering a parser for a path that is free, or has that parser already, never conflicts in the trie,
      and trie and map agree afterwards: different paths have different steps. */
  lemma {:induction false} InsertAgrees(t: Trie, parsers: map<string, ParserId>, path: string, steps: seq<PathStep>,
                                        parser: ParserId)
    requires Agrees(t, parsers) && IsPathOf(path, steps)
    requires path in parsers ==> parsers[path] == parser
    ensures Inserted(t, steps, CompiledRoute(path, parser)).Some?
    ensures Agrees(Inserted(t, steps, CompiledRoute(path, parser)).value, parsers[path := parser])
  {
    var route := CompiledRoute(path, parser);
    assert RouteAt(t, steps) == RouteFor(parsers, steps);
    ConflictIff(t, steps, route);
    forall other: seq<PathStep>
      ensures RouteAt(Inserted(t, steps, route).value, other) == RouteFor(parsers[path := parser], other)
    {
      RouteAfter(t, steps, route, other);
      assert RouteAt(t, other) == RouteFor(parsers, other);
      if IsPathOf(PathOf(other), other) {
        PathsDiffer(PathOf(other), path, other, steps);
      }
    }
  }

  datatype Registered = Registered | InvalidPath | Duplicate | Conflict

  /** There are paths, every one parses, and none is taken by another parser. */
  ghost predicate MayRegister(parsers: map<string, ParserId>, paths: seq<string>, parser: ParserId) {
    && paths != []
    && (forall i | 0 <= i < |paths| :: !IsNoPath(paths[i]))
    && (forall i | 0 <= i < |paths| :: paths[i] in parsers ==> parsers[paths[i]] == parser)
  }

  class Registry {
    var parsers: map<string, ParserId>
    var trie: Trie

    ghost predicate Valid()
      reads this
    {
      Agrees(trie, parsers)
    }

    constructor ()
      ensures Valid() && parsers == map[]
    {
      parsers, trie := map[], EmptyTrie();
      new;
      EmptyAgrees();
    }

    /** `register_parser(*paths)(parser)`: all paths are registered or, if one is invalid or taken, none; a
        conflict in the trie never arises. */
    method Register(paths: seq<string>, parser: ParserId) returns (r: Registered)
      requires Valid()
      modifies this
      ensures Valid()
      ensures r.Registered? <==> MayRegister(old(parsers), paths, parser)
      ensures r.Registered? ==>
                && (forall p :: p in parsers <==> p in old(parsers) || p in paths)
                && (forall p | p in parsers :: parsers[p] == if p in paths then parser else old(parsers)[p])
      ensures !r.Registered? ==> parsers == old(parsers) && trie == old(trie)
      ensures !r.Conflict?
    {
      if paths == [] {
        return InvalidPath;
      }
      var parsed: seq<seq<PathStep>> := [];
      for i := 0 to |paths|
        invariant parsers == old(parsers) && trie == old(trie)
        invariant |parsed| == i && forall k | 0 <= k < i :: IsPathOf(paths[k], parsed[k])
      {
        var steps := ParseJsonPath(paths[i]);
        if steps.None? {
          return InvalidPath;
        }
        parsed := parsed + [steps.value];
      }
      for i := 0 to |paths|
        invariant parsers == old(parsers) && trie == old(trie)
        invariant forall k | 0 <= k < i :: paths[k] in parsers ==> parsers[paths[k]] == parser
      {
        if paths[i] in parsers && parsers[paths[i]] != parser {
          return Duplicate;
        }
      }
      for i := 0 to |paths|
        invariant Valid()
        invariant forall p :: p in parsers <==> p in old(parsers) || p in paths[..i]
        invariant forall p | p in parsers :: parsers[p] == if p in paths[..i] then parser else old(parsers)[p]
      {
        InsertAgrees(trie, parsers, paths[i], parsed[i], parser);
        assert paths[..i + 1] == paths[..i] + [paths[i]];
        parsers := parsers[paths[i] := parser];
        var inserted := Inserted(trie, parsed[i], CompiledRoute(paths[i], parser));
        if inserted.None? {
          return Conflict;
        }
        trie := inserted.value;
      }
      assert paths[..|paths|] == paths;
      return Registered;
    }
  }
}
