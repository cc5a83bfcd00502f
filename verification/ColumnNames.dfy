/** Column names in SQL (sql/base.py): which names are accepted, and that those can be quoted. */
module ColumnNames {
  import opened Values
  import opened SqlStrings

  /** The facts about Unicode that column names depend on. */
  datatype Unicode = Unicode(inAllowedCategory: char -> bool, isSpace: char -> bool)

  const ALLOWED_SPECIAL_CHARS: set<char> := {'&', '%', '=', '+', ':', '\'', '<', '>', '#', '|'}
  const UNSUPPORTED_COLUMN_CHARS: set<char> :=
    {'!', '"', '$', '(', ')', '*', ',', '.', '/', ';', '?', '@', '[', '\\', ']', '^', '`', '{', '}', '~'}

  predicate IsColumnChar(c: char, u: Unicode) {
    c !in UNSUPPORTED_COLUMN_CHARS && c !in {'\n', '\r', '\0'}
    && (u.inAllowedCategory(c) || c in ALLOWED_SPECIAL_CHARS || u.isSpace(c))
  }

  predicate IsColumnName(name: string, u: Unicode) {
    name != "" && forall c | c in name :: IsColumnChar(c, u)
  }

  /** `column_to_sql_identifier`. */
  method ColumnToSqlIdentifier(name: string, u: Unicode) returns (identifier: Option<string>)
    ensures identifier == if IsColumnName(name, u) then Some(QuotedIdentifier(name)) else None
  {
    if name == "" {
      return None;
    }
    for i := 0 to |name|
      invariant forall k | 0 <= k < i :: IsColumnChar(name[k], u)
    {
      if !IsColumnChar(name[i], u) {
        return None;
      }
    }
    return Some(QuotedIdentifier(name));
  }

  /** An accepted name in backticks is an identifier that denotes the name. */
  lemma {:induction false} ColumnNameRoundTrip(name: string, u: Unicode)
    requires IsColumnName(name, u)
    ensures IdentifierText(QuotedIdentifier(name)) == Some(name)
  {
    forall c | c in name ensures IsPlainChar(c) {
      assert IsColumnChar(c, u);
    }
    IdentifierReadsBackIff(name);
  }
}
