/** Table ids (lib.rs:31-115): the parser, which moves a cursor over the text, and the printer. */
module TableIds {
  import opened Values

  datatype BigQueryTableId = BigQueryTableId(projectId: string, datasetId: string, tableId: string)

  /** The dataset and the table behind the project. */
  function Tail(dataset: string, table: string): string {
    "." + (dataset + "." + table)
  }

  /** `Display`. */
  function Printed(id: BigQueryTableId): string {
    id.projectId + Tail(id.datasetId, id.tableId)
  }

  // --- Text ---

  predicate IsSpan(s: string, c: char, d: char, n: nat) {
    && n <= |s|
    && (forall i | 0 <= i < n :: s[i] != c && s[i] != d)
    && (n < |s| ==> s[n] == c || s[n] == d)
  }

  lemma {:induction false} SpanExists(s: string, c: char, d: char)
    ensures exists n: nat :: IsSpan(s, c, d, n)
  {
    var n := 0;
    while n < |s| && s[n] != c && s[n] != d
      invariant n <= |s| && forall i | 0 <= i < n :: s[i] != c && s[i] != d
    {
      n := n + 1;
    }
    assert IsSpan(s, c, d, n);
  }

  /** The length of the longest prefix free of the two characters. */
  ghost function Span(s: string, c: char, d: char): (n: nat)
    ensures IsSpan(s, c, d, n)
  {
    SpanExists(s, c, d);
    var n: nat :| IsSpan(s, c, d, n);
    n
  }

  lemma {:induction false} Sliced(a: string, b: string)
    ensures (a + b)[..|a|] == a && (a + b)[|a|..] == b
    ensures forall i | 0 <= i < |a| :: (a + b)[i] == a[i]
    ensures forall i | 0 <= i < |b| :: (a + b)[|a| + i] == b[i]
  {
  }

  lemma {:induction false} Associates(a: string, b: string, c: string)
    ensures a + b + c == a + (b + c)
  {
  }

  predicate HasNone(s: string, c: char) { forall i | 0 <= i < |s| :: s[i] != c }

  lemma {:induction false} SpanIs(s: string, c: char, d: char, n: nat)
    requires IsSpan(s, c, d, n)
    ensures Span(s, c, d) == n
  {
  }

  function Joined(parts: seq<string>): string {
    if parts == [] then ""
    else if |parts| == 1 then parts[0]
    else parts[0] + "." + Joined(parts[1..])
  }

  predicate ArePlain(parts: seq<string>) {
    forall i | 0 <= i < |parts| :: parts[i] != "" && HasNone(parts[i], '.')
  }

  lemma {:induction false} JoinedConcat(parts: seq<string>, more: seq<string>)
    requires parts != [] && more != []
    ensures Joined(parts + more) == Joined(parts) + "." + Joined(more)
    decreases |parts|
  {
    assert (parts + more)[1..] == parts[1..] + more;
    if |parts| == 1 {
      assert parts + more == [parts[0]] + more && (parts + more)[1..] == more;
    } else {
      JoinedConcat(parts[1..], more);
      assert Joined(parts + more) == parts[0] + "." + (Joined(parts[1..]) + "." + Joined(more));
    }
  }

  /** Dot-separated, non-empty parts: what `separated` reads, or nothing if the text is not of that form. */
  ghost function Parts(s: string): Option<seq<string>>
    decreases |s|
  {
    var n := Span(s, '.', '.');
    if n == 0 then None
    else if n == |s| then Some([s])
    else
      match Parts(s[n + 1..])
      case None => None
      case Some(rest) => Some([s[..n]] + rest)
  }

  lemma {:induction false} PartsAre(s: string)
    requires Parts(s).Some?
    ensures Parts(s).value != [] && ArePlain(Parts(s).value) && Joined(Parts(s).value) == s
    decreases |s|
  {
    var n := Span(s, '.', '.');
    if n < |s| {
      PartsAre(s[n + 1..]);
      var rest := Parts(s[n + 1..]).value;
      assert ([s[..n]] + rest)[1..] == rest;
      assert s == s[..n] + "." + s[n + 1..];
    }
  }

  lemma {:induction false} FirstPart(first: string, rest: string)
    requires HasNone(first, '.')
    ensures
      var s := first + "." + rest;
      Span(s, '.', '.') == |first| < |s| && s[..|first|] == first && s[|first| + 1..] == rest
  {
    var s := first + "." + rest;
    Associates(first, ".", rest);
    Sliced(first, "." + rest);
    assert s[|first|] == ("." + rest)[0];
    SpanIs(s, '.', '.', |first|);
    Sliced(first + ".", rest);
  }

  lemma {:induction false} PartsOfJoined(parts: seq<string>)
    requires parts != [] && ArePlain(parts)
    ensures Parts(Joined(parts)) == Some(parts)
    decreases |parts|
  {
    if |parts| == 1 {
      SpanIs(parts[0], '.', '.', |parts[0]|);
      assert parts == [parts[0]];
    } else {
      PartsOfJoined(parts[1..]);
      PartsOfFirst(parts[0], Joined(parts[1..]), parts[1..]);
      assert parts == [parts[0]] + parts[1..];
    }
  }

  lemma {:induction false} PartsOfFirst(first: string, rest: string, more: seq<string>)
    requires first != "" && HasNone(first, '.') && Parts(rest) == Some(more)
    ensures Parts(first + "." + rest) == Some([first] + more)
  {
    FirstPart(first, rest);
  }

  // --- Parsing ---

  /** After the optional domain: project, dot, two parts at least. */
  ghost function ParsedRest(domain: string, rest: string): Option<BigQueryTableId> {
    var n := Span(rest, '.', ':');
    if n == 0 || n == |rest| || rest[n] != '.' then None
    else
      match Parts(rest[n + 1..])
      case None => None
      case Some(parts) =>
        if |parts| < 2 then None
        else Some(BigQueryTableId(domain + rest[..n], Joined(parts[..|parts| - 1]), parts[|parts| - 1]))
  }

  /** `FromStr`: what precedes the first colon is the domain of the project. */
  ghost function Parsed(s: string): Option<BigQueryTableId> {
    if !HasNone(s, '`') || !HasNone(s, '/') then None
    else
      var k := Span(s, ':', ':');
      if 0 < k < |s| then ParsedRest(s[..k + 1], s[k + 1..]) else ParsedRest("", s)
  }

  method TakeWhile(s: string, start: nat, c: char, d: char) returns (end: nat)
    requires start <= |s|
    ensures end == start + Span(s[start..], c, d)
  {
    end := start;
    while end < |s| && s[end] != c && s[end] != d
      invariant start <= end <= |s|
      invariant forall i | start <= i < end :: s[i] != c && s[i] != d
    {
      end := end + 1;
    }
    SpanIs(s[start..], c, d, end - start);
  }

  lemma {:induction false} Slices(s: string, cursor: nat, end: nat)
    requires cursor <= end < |s|
    ensures s[cursor..][..end - cursor] == s[cursor..end] && s[cursor..][end - cursor + 1..] == s[end + 1..]
    ensures s[cursor..][end - cursor] == s[end]
  {
  }

  /** `read` and then the parts of the rest. */
  ghost function ReadThen(read: seq<string>, rest: Option<seq<string>>): Option<seq<string>> {
    if rest.None? then None else Some(read + rest.value)
  }

  lemma {:induction false} PartsNext(s: string, n: nat, read: seq<string>)
    requires n == Span(s, '.', '.')
    ensures n == 0 ==> Parts(s) == None
    ensures 0 < n == |s| ==> ReadThen(read, Parts(s)) == Some(read + [s])
    ensures 0 < n < |s| ==> ReadThen(read, Parts(s)) == ReadThen(read + [s[..n]], Parts(s[n + 1..]))
  {
    if 0 < n < |s| && Parts(s[n + 1..]).Some? {
      assert read + ([s[..n]] + Parts(s[n + 1..]).value) == read + [s[..n]] + Parts(s[n + 1..]).value;
    }
  }

  lemma {:induction false} ReadNext(s: string, cursor: nat, end: nat, read: seq<string>)
    requires cursor <= |s| && end == cursor + Span(s[cursor..], '.', '.')
    ensures end == cursor ==> Parts(s[cursor..]) == None
    ensures cursor < end == |s| ==> ReadThen(read, Parts(s[cursor..])) == Some(read + [s[cursor..]])
    ensures cursor < end < |s| ==>
              ReadThen(read, Parts(s[cursor..])) == ReadThen(read + [s[cursor..end]], Parts(s[end + 1..]))
  {
    PartsNext(s[cursor..], end - cursor, read);
    if end < |s| {
      Slices(s, cursor, end);
    }
  }

  /** `separated(2.., ..)` followed by `eof`, from the cursor to the end. */
  method ParseParts(s: string, start: nat) returns (parts: Option<seq<string>>)
    requires start <= |s|
    ensures parts == Parts(s[start..])
  {
    var read: seq<string> := [];
    var cursor := start;
    assert Parts(s[start..]).Some? ==> read + Parts(s[start..]).value == Parts(s[start..]).value;
    while true
      invariant start <= cursor <= |s|
      invariant Parts(s[start..]) == ReadThen(read, Parts(s[cursor..]))
      decreases |s| - cursor
    {
      var end := TakeWhile(s, cursor, '.', '.');
      ReadNext(s, cursor, end, read);
      if end == cursor {
        return None;
      }
      if end == |s| {
        return Some(read + [s[cursor..]]);
      }
      read := read + [s[cursor..end]];
      cursor := end + 1;
    }
  }

  method ParseAfterDomain(s: string, cursor: nat, domain: string) returns (id: Option<BigQueryTableId>)
    requires cursor <= |s|
    ensures id == ParsedRest(domain, s[cursor..])
  {
    var end := TakeWhile(s, cursor, '.', ':');
    if end == cursor || end == |s| || s[end] != '.' {
      return None;
    }
    Slices(s, cursor, end);
    var parts := ParseParts(s, end + 1);
    if parts.None? || |parts.value| < 2 {
      return None;
    }
    var last := |parts.value| - 1;
    return Some(BigQueryTableId(domain + s[cursor..end], Joined(parts.value[..last]), parts.value[last]));
  }

  method ParseTableId(s: string) returns (id: Option<BigQueryTableId>)
    ensures id == Parsed(s)
  {
    if !HasNone(s, '`') || !HasNone(s, '/') {
      return None;
    }
    assert s[0..] == s;
    var colon := TakeWhile(s, 0, ':', ':');
    if 0 < colon < |s| {
      id := ParseAfterDomain(s, colon + 1, s[..colon + 1]);
    } else {
      id := ParseAfterDomain(s, 0, "");
    }
  }

  // --- Round trips ---

  lemma {:induction false} SplitAt(rest: string, n: nat, after: string)
    requires n < |rest| && rest[n] == '.' && rest[n + 1..] == after
    ensures rest == rest[..n] + ("." + after)
  {
  }

  lemma {:induction false} RestPrintsBack(domain: string, rest: string)
    requires ParsedRest(domain, rest).Some?
    ensures Printed(ParsedRest(domain, rest).value) == domain + rest
  {
    var n := Span(rest, '.', ':');
    var parts := Parts(rest[n + 1..]).value;
    PartsAre(rest[n + 1..]);
    var dataset, table := parts[..|parts| - 1], parts[|parts| - 1];
    assert parts == dataset + [table];
    JoinedConcat(dataset, [table]);
    SplitAt(rest, n, Joined(dataset) + "." + table);
    Associates(domain, rest[..n], Tail(Joined(dataset), table));
  }

  /** Every accepted text prints back to itself. */
  lemma {:induction false} PrintsBack(s: string)
    requires Parsed(s).Some?
    ensures Printed(Parsed(s).value) == s
  {
    var k := Span(s, ':', ':');
    if 0 < k < |s| {
      RestPrintsBack(s[..k + 1], s[k + 1..]);
      assert s == s[..k + 1] + s[k + 1..];
    } else {
      RestPrintsBack("", s);
      assert "" + s == s;
    }
  }

  /** A project, optionally behind a domain; a dataset of one or more dotted parts; a table. A colon beyond
      the project would be taken for the end of a domain if there is none. */
  ghost predicate IsWellFormed(id: BigQueryTableId) {
    var k := Span(id.projectId, ':', ':');
    var project := if k < |id.projectId| then id.projectId[k + 1..] else id.projectId;
    && (k < |id.projectId| ==> k > 0)
    && project != "" && HasNone(project, '.') && HasNone(project, ':')
    && Parts(id.datasetId).Some?
    && id.tableId != "" && HasNone(id.tableId, '.')
    && (k == |id.projectId| ==> HasNone(id.datasetId, ':') && HasNone(id.tableId, ':'))
    && HasNone(Printed(id), '`') && HasNone(Printed(id), '/')
  }

  lemma {:induction false} RestParsesBack(domain: string, project: string, dataset: string, table: string)
    requires project != "" && HasNone(project, '.') && HasNone(project, ':')
    requires Parts(dataset).Some? && table != "" && HasNone(table, '.')
    ensures ParsedRest(domain, project + Tail(dataset, table))
         == Some(BigQueryTableId(domain + project, dataset, table))
  {
    var rest, n := project + Tail(dataset, table), |project|;
    Sliced(project, Tail(dataset, table));
    assert rest[n] == '.';
    SpanIs(rest, '.', ':', n);
    assert rest[n + 1..] == Tail(dataset, table)[1..] == dataset + "." + table;
    TailParts(dataset, table);
  }

  lemma {:induction false} TailParts(dataset: string, table: string)
    requires Parts(dataset).Some? && table != "" && HasNone(table, '.')
    ensures Parts(dataset + "." + table) == Some(Parts(dataset).value + [table])
    ensures Joined((Parts(dataset).value + [table])[..|Parts(dataset).value|]) == dataset
  {
    var parts := Parts(dataset).value;
    PartsAre(dataset);
    JoinedConcat(parts, [table]);
    PartsOfJoined(parts + [table]);
    assert (parts + [table])[..|parts|] == parts;
  }

  lemma {:induction false} DomainParsesBack(id: BigQueryTableId, k: nat)
    requires IsWellFormed(id) && k == Span(id.projectId, ':', ':') < |id.projectId|
    ensures Parsed(Printed(id)) == Some(id)
  {
    var domain, project, tail := id.projectId[..k + 1], id.projectId[k + 1..], Tail(id.datasetId, id.tableId);
    assert id.projectId == domain + project;
    Associates(domain, project, tail);
    Sliced(domain, project + tail);
    SpanIs(domain + (project + tail), ':', ':', k);
    RestParsesBack(domain, project, id.datasetId, id.tableId);
  }

  lemma {:induction false} TailHasNone(dataset: string, table: string)
    requires HasNone(dataset, ':') && HasNone(table, ':')
    ensures HasNone(Tail(dataset, table), ':')
  {
  }

  lemma {:induction false} PlainParsesBack(id: BigQueryTableId)
    requires IsWellFormed(id) && Span(id.projectId, ':', ':') == |id.projectId|
    ensures Parsed(Printed(id)) == Some(id)
  {
    var tail := Tail(id.datasetId, id.tableId);
    TailHasNone(id.datasetId, id.tableId);
    SpanIs(id.projectId + tail, ':', ':', |id.projectId + tail|);
    RestParsesBack("", id.projectId, id.datasetId, id.tableId);
    assert "" + id.projectId == id.projectId;
  }

  /** What is read after the domain is well formed as far as it goes. */
  lemma {:induction false} RestIsWellFormed(domain: string, rest: string)
    requires ParsedRest(domain, rest).Some?
    ensures
      var id, n := ParsedRest(domain, rest).value, Span(rest, '.', ':');
      && id.projectId == domain + rest[..n] && 0 < n < |rest|
      && HasNone(rest[..n], '.') && HasNone(rest[..n], ':')
      && Parts(id.datasetId).Some? && id.tableId != "" && HasNone(id.tableId, '.')
  {
    var parts := Parts(rest[Span(rest, '.', ':') + 1..]).value;
    PartsAre(rest[Span(rest, '.', ':') + 1..]);
    PartsOfJoined(parts[..|parts| - 1]);
  }

  lemma {:induction false} ParsedIsWellFormed(s: string)
    requires Parsed(s).Some?
    ensures IsWellFormed(Parsed(s).value)
  {
    PrintsBack(s);
    var id, k := Parsed(s).value, Span(s, ':', ':');
    if 0 < k < |s| {
      RestIsWellFormed(s[..k + 1], s[k + 1..]);
      var project := s[k + 1..][..Span(s[k + 1..], '.', ':')];
      assert id.projectId == s[..k + 1] + project;
      assert forall i | 0 <= i <= k :: id.projectId[i] == s[i];
      SpanIs(id.projectId, ':', ':', k);
      assert id.projectId[k + 1..] == project;
    } else {
      PlainIsWellFormed(s);
    }
  }

  lemma {:induction false} PlainIsWellFormed(s: string)
    requires Parsed(s).Some? && !(0 < Span(s, ':', ':') < |s|)
    ensures IsWellFormed(Parsed(s).value)
  {
    PrintsBack(s);
    var id, n := Parsed(s).value, Span(s, '.', ':');
    RestIsWellFormed("", s);
    assert id.projectId == s[..n];
    SpanIs(id.projectId, ':', ':', n);
    assert HasNone(s, ':');
    var tail := Tail(id.datasetId, id.tableId);
    Sliced(id.projectId, tail);
    TailFree(id.datasetId, id.tableId);
    assert forall i | 0 <= i < |tail| :: tail[i] == s[n + i];
  }

  lemma {:induction false} TailFree(dataset: string, table: string)
    ensures HasNone(Tail(dataset, table), ':') ==> HasNone(dataset, ':') && HasNone(table, ':')
  {
    var tail, first := Tail(dataset, table), dataset + ".";
    Sliced(".", first + table);
    Sliced(first, table);
    Sliced(dataset, ".");
    assert forall i | 0 <= i < |dataset| :: dataset[i] == tail[1 + i];
    assert forall i | 0 <= i < |table| :: table[i] == tail[1 + |first| + i];
  }

  /** An id survives printing and parsing if and only if it is well formed. */
  lemma {:induction false} ParsesBackIff(id: BigQueryTableId)
    ensures Parsed(Printed(id)) == Some(id) <==> IsWellFormed(id)
  {
    if IsWellFormed(id) {
      var k := Span(id.projectId, ':', ':');
      if k < |id.projectId| {
        DomainParsesBack(id, k);
      } else {
        PlainParsesBack(id);
      }
    }
    if Parsed(Printed(id)) == Some(id) {
      ParsedIsWellFormed(Printed(id));
    }
  }
}
