/** String literals of the emitted SQL: `escape_sql_string` and GoogleSQL's reading of a literal. */
module SqlStrings {
  import opened Values

  /** Python's `str.replace` for a pattern of one character. */
  function Replace(s: string, c: char, sub: string): string {
    if s == "" then "" else (if s[0] == c then sub else [s[0]]) + Replace(s[1..], c, sub)
  }

  /** `escape_sql_string` before quoting: six replacements, one after the other. */
  function EscapeChain(s: string): string {
    var s1 := Replace(s, '\\', "\\\\");
    var s2 := Replace(s1, '\'', "\\'");
    var s3 := Replace(s2, '\n', "\\n");
    var s4 := Replace(s3, '\r', "\\r");
    var s5 := Replace(s4, '\t', "\\t");
    Replace(s5, '\0', "\\x00")
  }

  function EscapeSqlString(s: string): string {
    "'" + EscapeChain(s) + "'"
  }

  /** What the chain makes of one character. */
  function EscapeChar(c: char): string {
    if c == '\\' then "\\\\"
    else if c == '\'' then "\\'"
    else if c == '\n' then "\\n"
    else if c == '\r' then "\\r"
    else if c == '\t' then "\\t"
    else if c == '\0' then "\\x00"
    else [c]
  }

  function EscapeEach(s: string): string {
    if s == "" then "" else EscapeChar(s[0]) + EscapeEach(s[1..])
  }

  lemma {:induction false} ReplaceConcat(s: string, t: string, c: char, sub: string)
    ensures Replace(s + t, c, sub) == Replace(s, c, sub) + Replace(t, c, sub)
  {
    if s == "" {
      assert s + t == t;
    } else {
      assert (s + t)[1..] == s[1..] + t;
      ReplaceConcat(s[1..], t, c, sub);
    }
  }

  lemma {:induction false} ChainConcat(s: string, t: string)
    ensures EscapeChain(s + t) == EscapeChain(s) + EscapeChain(t)
  {
    ReplaceConcat(s, t, '\\', "\\\\");
    var a1, b1 := Replace(s, '\\', "\\\\"), Replace(t, '\\', "\\\\");
    ReplaceConcat(a1, b1, '\'', "\\'");
    var a2, b2 := Replace(a1, '\'', "\\'"), Replace(b1, '\'', "\\'");
    ReplaceConcat(a2, b2, '\n', "\\n");
    var a3, b3 := Replace(a2, '\n', "\\n"), Replace(b2, '\n', "\\n");
    ReplaceConcat(a3, b3, '\r', "\\r");
    var a4, b4 := Replace(a3, '\r', "\\r"), Replace(b3, '\r', "\\r");
    ReplaceConcat(a4, b4, '\t', "\\t");
    var a5, b5 := Replace(a4, '\t', "\\t"), Replace(b4, '\t', "\\t");
    ReplaceConcat(a5, b5, '\0', "\\x00");
  }

  /** A replacement that does not concern the characters of `s` leaves it alone. */
  lemma {:induction false} ReplaceAbsent(s: string, c: char, sub: string)
    requires c !in s
    ensures Replace(s, c, sub) == s
  {
    if s != "" {
      ReplaceAbsent(s[1..], c, sub);
      assert s == [s[0]] + s[1..];
    }
  }

  lemma {:induction false} ReplaceOne(c: char, sub: string)
    ensures Replace([c], c, sub) == sub
  {
    assert [c][1..] == "";
  }

  /** No replacement disturbs the text an earlier one produced. */
  lemma {:induction false} ChainOfChar(c: char)
    ensures EscapeChain([c]) == EscapeChar(c)
  {
    var s1 := if c == '\\' then "\\\\" else [c];
    if c == '\\' { ReplaceOne(c, "\\\\"); } else { ReplaceAbsent([c], '\\', "\\\\"); }
    var s2 := if c == '\'' then "\\'" else s1;
    if c == '\'' { ReplaceOne(c, "\\'"); } else { ReplaceAbsent(s1, '\'', "\\'"); }
    var s3 := if c == '\n' then "\\n" else s2;
    if c == '\n' { ReplaceOne(c, "\\n"); } else { ReplaceAbsent(s2, '\n', "\\n"); }
    var s4 := if c == '\r' then "\\r" else s3;
    if c == '\r' { ReplaceOne(c, "\\r"); } else { ReplaceAbsent(s3, '\r', "\\r"); }
    var s5 := if c == '\t' then "\\t" else s4;
    if c == '\t' { ReplaceOne(c, "\\t"); } else { ReplaceAbsent(s4, '\t', "\\t"); }
    if c == '\0' { ReplaceOne(c, "\\x00"); } else { ReplaceAbsent(s5, '\0', "\\x00"); }
  }

  /** The six replacements in a row are one character-wise map. */
  lemma {:induction false} ChainIsCharacterwise(s: string)
    ensures EscapeChain(s) == EscapeEach(s)
  {
    if s == "" {
    } else {
      assert s == [s[0]] + s[1..];
      ChainConcat([s[0]], s[1..]);
      ChainOfChar(s[0]);
      ChainIsCharacterwise(s[1..]);
    }
  }

  // --- GoogleSQL's reading ---

  function HexDigit(c: char): (digit: Option<nat>)
    ensures digit.Some? ==> digit.value < 16
  {
    if '0' <= c <= '9' then Some((c - '0') as nat)
    else if 'a' <= c <= 'f' then Some(10 + (c - 'a') as nat)
    else if 'A' <= c <= 'F' then Some(10 + (c - 'A') as nat)
    else None
  }

  /** The character of a simple escape sequence, by the letter after the backslash. */
  function SimpleEscape(c: char): Option<char> {
    match c
    case 'a' => Some(7 as char)
    case 'b' => Some(8 as char)
    case 'f' => Some(12 as char)
    case 'n' => Some('\n')
    case 'r' => Some('\r')
    case 't' => Some('\t')
    case 'v' => Some(11 as char)
    case '\\' => Some('\\')
    case '?' => Some('?')
    case '"' => Some('"')
    case '\'' => Some('\'')
    case '`' => Some('`')
    case _ => None
  }

  /** Reads the text after an opening quote `q`, up to and including the closing one; the result is
      what it denotes and the text behind it. A raw line break is not allowed. */
  function ReadQuoted(text: string, q: char): Option<(string, string)>
    decreases |text|
  {
    if text == "" || text[0] == '\n' || text[0] == '\r' then None
    else if text[0] == q then Some(("", text[1..]))
    else if text[0] != '\\' then Prefixed(text[0], ReadQuoted(text[1..], q))
    else if |text| < 2 then None
    else if text[1] == 'x' || text[1] == 'X' then
      if |text| < 4 then None
      else match (HexDigit(text[2]), HexDigit(text[3]))
        case (Some(h), Some(l)) => Prefixed((16 * h + l) as char, ReadQuoted(text[4..], q))
        case _ => None
    else match SimpleEscape(text[1])
      case Some(c) => Prefixed(c, ReadQuoted(text[2..], q))
      case None => None
  }

  function Prefixed(c: char, read: Option<(string, string)>): Option<(string, string)> {
    match read
    case Some((s, rest)) => Some(([c] + s, rest))
    case None => None
  }

  /** What a whole text in quotes `q` denotes, if it is one. */
  function QuotedText(quoted: string, q: char): Option<string> {
    if quoted == "" || quoted[0] != q then None
    else match ReadQuoted(quoted[1..], q)
      case Some((s, rest)) => if rest == "" then Some(s) else None
      case None => None
  }

  /** The string denoted by a string literal in single quotes. */
  function LiteralText(quoted: string): Option<string> { QuotedText(quoted, '\'') }

  lemma {:induction false} ReadEscapedChar(c: char, rest: string)
    ensures ReadQuoted(EscapeChar(c) + rest, '\'') == Prefixed(c, ReadQuoted(rest, '\''))
  {
    var esc := EscapeChar(c);
    var text := esc + rest;
    assert text[|esc|..] == rest;
    if c == '\0' {
      assert text[..4] == "\\x00";
      assert text[1] == 'x' && text[2] == '0' && text[3] == '0';
      assert (0 as char) == '\0';
    } else if |esc| == 2 {
      assert text[0] == '\\' && text[1] == esc[1];
    }
  }

  /** Reading an escaped string back gives the string and stops at its closing quote, whatever
      follows: no character of the value can end the literal. */
  lemma {:induction false} ReadEscaped(s: string, rest: string)
    ensures ReadQuoted(EscapeEach(s) + "'" + rest, '\'') == Some((s, rest))
  {
    if s == "" {
      assert EscapeEach(s) + "'" + rest == "'" + rest;
    } else {
      var tail := EscapeEach(s[1..]) + "'" + rest;
      assert EscapeEach(s) + "'" + rest == EscapeChar(s[0]) + tail;
      ReadEscaped(s[1..], rest);
      ReadEscapedChar(s[0], tail);
      assert [s[0]] + s[1..] == s;
    }
  }

  /** The literal emitted for a string denotes that string. */
  lemma {:induction false} StringLiteralRoundTrip(s: string)
    ensures LiteralText(EscapeSqlString(s)) == Some(s)
  {
    ChainIsCharacterwise(s);
    ReadEscaped(s, "");
    assert EscapeSqlString(s)[1..] == EscapeEach(s) + "'" + "";
  }

  // --- Quoted identifiers ---

  /** `column_to_sql_identifier` of a valid name. */
  function QuotedIdentifier(name: string): string { "`" + name + "`" }

  /** The name that an identifier in backticks denotes; no name is empty. */
  function IdentifierText(quoted: string): Option<string> {
    match QuotedText(quoted, '`')
    case Some(name) => if name == "" then None else Some(name)
    case None => None
  }

  /** The character stands for itself within backticks. */
  predicate IsPlainChar(c: char) { c !in {'`', '\\', '\n', '\r'} }

  /** Reading a plain name gives the name and stops at the closing backtick, whatever follows. */
  lemma {:induction false} ReadPlain(name: string, rest: string)
    requires forall c | c in name :: IsPlainChar(c)
    ensures ReadQuoted(name + "`" + rest, '`') == Some((name, rest))
  {
    var text := name + "`" + rest;
    if name == "" {
      assert text == "`" + rest && text[1..] == rest;
    } else {
      assert text[1..] == name[1..] + "`" + rest;
      assert text[0] == name[0] && IsPlainChar(name[0]);
      ReadPlain(name[1..], rest);
      assert [name[0]] + name[1..] == name;
    }
  }

  /** What is read is never longer than the text, and as long only if every character stood for itself. */
  lemma {:induction false} ReadShrinks(text: string, q: char)
    ensures ReadQuoted(text, q).Some? ==>
              var (s, rest) := ReadQuoted(text, q).value;
              && |s| + |rest| < |text|
              && (|s| + |rest| + 1 == |text| ==> forall i | 0 <= i < |s| :: text[i] !in {q, '\\', '\n', '\r'})
    decreases |text|
  {
    if ReadQuoted(text, q).Some? && text[0] != q {
      if text[0] != '\\' {
        ReadShrinks(text[1..], q);
        var (s, rest) := ReadQuoted(text[1..], q).value;
        if |s| + |rest| + 1 == |text[1..]| {
          assert forall i | 0 < i < |s| + 1 :: text[i] == text[1..][i - 1];
        }
      } else if text[1] == 'x' || text[1] == 'X' {
        ReadShrinks(text[4..], q);
      } else {
        ReadShrinks(text[2..], q);
      }
    }
  }

  /** A quoted name reads back to itself, and is consumed whole, if and only if it is not empty and holds no backtick,
      backslash or line break. */
  lemma {:induction false} IdentifierReadsBackIff(name: string)
    ensures IdentifierText(QuotedIdentifier(name)) == Some(name)
       <==> name != "" && forall c | c in name :: IsPlainChar(c)
  {
    var text := name + "`" + "";
    assert QuotedIdentifier(name)[1..] == text;
    if forall c | c in name :: IsPlainChar(c) {
      ReadPlain(name, "");
    }
    ReadShrinks(text, '`');
    if IdentifierText(QuotedIdentifier(name)) == Some(name) {
      forall c | c in name ensures IsPlainChar(c) {
        var i :| 0 <= i < |name| && name[i] == c;
        assert text[i] == c;
      }
    }
  }
}
