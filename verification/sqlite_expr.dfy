/** SQLite operator methods for every `ExprTrait` value. The blanket impl
    grants them to every such type; here each method is
    a generic function over the operand types, given the conversions into `Expr`
    (`lift` for the receiver, `into` for the right operand). */
module SqliteExpr {
  import opened Wrappers
  import opened SqliteOper
  import opened Exprs

  /** The one primitive every operator method goes through: the receiver and
      the right operand converted into expressions, joined under a SQLite tag. */
  function SqliteBinary<L, R>(self: L, op: SqliteBinOper, right: R, lift: L -> Expr, into: R -> Expr): (e: Expr)
    ensures SqliteOperatorOf(e) == Some(op)
    ensures e.Binary? && e.left == lift(self) && e.right == into(right)
  {
    Binary(lift(self), SqliteOperator(op), into(right))
  }

  /** `GLOB` pattern match. */
  function Glob<L, R>(self: L, right: R, lift: L -> Expr, into: R -> Expr): (e: Expr)
    ensures SqliteOperatorOf(e) == Some(SqliteBinOper.Glob)
    ensures e.Binary? && e.left == lift(self) && e.right == into(right)
  {
    SqliteBinary(self, SqliteBinOper.Glob, right, lift, into)
  }

  /** Full-text `MATCH`. */
  function Matches<L, R>(self: L, right: R, lift: L -> Expr, into: R -> Expr): (e: Expr)
    ensures SqliteOperatorOf(e) == Some(SqliteBinOper.Match)
    ensures e.Binary? && e.left == lift(self) && e.right == into(right)
  {
    SqliteBinary(self, SqliteBinOper.Match, right, lift, into)
  }

  /** JSON field extraction as a JSON value, `->`. */
  function GetJsonField<L, R>(self: L, right: R, lift: L -> Expr, into: R -> Expr): (e: Expr)
    ensures SqliteOperatorOf(e) == Some(SqliteBinOper.GetJsonField)
    ensures e.Binary? && e.left == lift(self) && e.right == into(right)
  {
    SqliteBinary(self, SqliteBinOper.GetJsonField, right, lift, into)
  }

  /** JSON field extraction cast to an SQL value, `->>`. */
  function CastJsonField<L, R>(self: L, right: R, lift: L -> Expr, into: R -> Expr): (e: Expr)
    ensures SqliteOperatorOf(e) == Some(SqliteBinOper.CastJsonField)
    ensures e.Binary? && e.left == lift(self) && e.right == into(right)
  {
    SqliteBinary(self, SqliteBinOper.CastJsonField, right, lift, into)
  }

  /** The blanket grant: calling a method on any convertible value is the same
      as converting it first and calling the method on the expression. */
  lemma BlanketImpl<L, R>(self: L, right: R, lift: L -> Expr, into: R -> Expr)
    ensures Glob(self, right, lift, into) == Glob(lift(self), right, FromExpr, into)
    ensures Matches(self, right, lift, into) == Matches(lift(self), right, FromExpr, into)
    ensures GetJsonField(self, right, lift, into) == GetJsonField(lift(self), right, FromExpr, into)
    ensures CastJsonField(self, right, lift, into) == CastJsonField(lift(self), right, FromExpr, into)
  {
  }

  /** For the same operands the four methods build four different
      expressions: they differ exactly in the operator tag. */
  lemma MethodsDistinct<L, R>(self: L, right: R, lift: L -> Expr, into: R -> Expr)
    ensures Glob(self, right, lift, into) != Matches(self, right, lift, into)
    ensures Glob(self, right, lift, into) != GetJsonField(self, right, lift, into)
    ensures Glob(self, right, lift, into) != CastJsonField(self, right, lift, into)
    ensures Matches(self, right, lift, into) != GetJsonField(self, right, lift, into)
    ensures Matches(self, right, lift, into) != CastJsonField(self, right, lift, into)
    ensures GetJsonField(self, right, lift, into) != CastJsonField(self, right, lift, into)
  {
  }

  /** The text of a condition `<column> <op> '<string>'` as SQLite writes it
      in a WHERE clause: identifiers in double quotes, string literals in single
      quotes. Other shapes are outside this fragment. */
  function RenderSqliteCondition(e: Expr): (r: Option<string>)
    ensures r.Some? <==> e.Binary? && e.left.Column? && e.op.SqliteOperator? && e.right.Value? && e.right.literal.String?
  {
    match e
    case Binary(Column(n), SqliteOperator(op), Value(String(s))) =>
      Some("\"" + n + "\" " + Token(op) + " '" + s + "'")
    case _ => None
  }

  /** The documented `GLOB` example: column `name` against the literal "a". */
  lemma GlobExample()
    ensures RenderSqliteCondition(Glob(Column("name"), "a", FromExpr, FromStr)) == Some("\"name\" GLOB 'a'")
  {
    assert Glob(Column("name"), "a", FromExpr, FromStr) == Binary(Column("name"), SqliteOperator(SqliteBinOper.Glob), FromStr("a"));
    assert "\"" + "name" + "\" " + "GLOB" + " '" + "a" + "'" == "\"name\" GLOB 'a'";
  }

  /** The documented `MATCH` example. */
  lemma MatchesExample()
    ensures RenderSqliteCondition(Matches(Column("name"), "a", FromExpr, FromStr)) == Some("\"name\" MATCH 'a'")
  {
    assert Matches(Column("name"), "a", FromExpr, FromStr) == Binary(Column("name"), SqliteOperator(SqliteBinOper.Match), FromStr("a"));
    assert "\"" + "name" + "\" " + "MATCH" + " '" + "a" + "'" == "\"name\" MATCH 'a'";
  }

  /** The documented `->` example. */
  lemma GetJsonFieldExample()
    ensures RenderSqliteCondition(GetJsonField(Column("variant"), "a", FromExpr, FromStr)) == Some("\"variant\" -> 'a'")
  {
    assert GetJsonField(Column("variant"), "a", FromExpr, FromStr) == Binary(Column("variant"), SqliteOperator(SqliteBinOper.GetJsonField), FromStr("a"));
    assert "\"" + "variant" + "\" " + "->" + " '" + "a" + "'" == "\"variant\" -> 'a'";
  }

  /** The documented `->>` example. */
  lemma CastJsonFieldExample()
    ensures RenderSqliteCondition(CastJsonField(Column("variant"), "a", FromExpr, FromStr)) == Some("\"variant\" ->> 'a'")
  {
    assert CastJsonField(Column("variant"), "a", FromExpr, FromStr) == Binary(Column("variant"), SqliteOperator(SqliteBinOper.CastJsonField), FromStr("a"));
    assert "\"" + "variant" + "\" " + "->>" + " '" + "a" + "'" == "\"variant\" ->> 'a'";
  }
}
