/** The closed set of SQLite-only binary operators and the SQL token each one
    renders as. */
module SqliteOper {
  import opened Wrappers

  datatype SqliteBinOper = Glob | Match | GetJsonField | CastJsonField

  /** The operator's SQL token: `GLOB`, `MATCH`, `->` and `->>`. */
  function Token(op: SqliteBinOper): (r: string)
    ensures r == "GLOB" <==> op == Glob
    ensures r == "MATCH" <==> op == Match
    ensures r == "->" <==> op == GetJsonField
    ensures r == "->>" <==> op == CastJsonField
  {
    match op
    case Glob => "GLOB"
    case Match => "MATCH"
    case GetJsonField => "->"
    case CastJsonField => "->>"
  }

  /** Reads an operator back from its token. */
  function ParseToken(s: string): (r: Option<SqliteBinOper>)
    ensures r.Some? ==> Token(r.value) == s
  {
    if s == "GLOB" then Some(Glob)
    else if s == "MATCH" then Some(Match)
    else if s == "->" then Some(GetJsonField)
    else if s == "->>" then Some(CastJsonField)
    else None
  }

  /** Each operator is read back from its own token, and no string that is not
      a token reads as an operator. */
  lemma TokenRoundTrip(op: SqliteBinOper, s: string)
    ensures ParseToken(Token(op)) == Some(op)
    ensures ParseToken(s) == Some(op) <==> Token(op) == s
  {
  }

  /** Distinct operators render as distinct tokens. */
  lemma TokenInjective(a: SqliteBinOper, b: SqliteBinOper)
    ensures Token(a) == Token(b) <==> a == b
  {
    TokenRoundTrip(a, Token(b));
  }
}
