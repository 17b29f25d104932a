/** The dialect-neutral expression tree that every dialect shares. A dialect
    adds operators by wrapping its own tag in `BinOper`, never by changing
    `Expr` itself. */
module Exprs {
  import opened Wrappers
  import opened SqliteOper

  datatype Literal = String(s: string) | Int(i: int)

  /** Binary operator tags. The shared ones are abridged; the SQLite ones are
      carried as a wrapped `SqliteBinOper`. */
  datatype BinOper =
    | And
    | Or
    | Equal
    | NotEqual
    | Like
    | SqliteOperator(sqlite: SqliteBinOper)

  datatype Expr =
    | Column(name: string)
    | Value(literal: Literal)
    | Binary(left: Expr, op: BinOper, right: Expr)

  /** `Into<Expr>` for a string literal. */
  function FromStr(s: string): Expr {
    Value(String(s))
  }

  /** `Into<Expr>` for an expression is the identity. */
  function FromExpr(e: Expr): Expr {
    e
  }

  /** The SQLite tag of a binary node, if it has one. */
  function SqliteOperatorOf(e: Expr): Option<SqliteBinOper> {
    if e.Binary? && e.op.SqliteOperator? then Some(e.op.sqlite) else None
  }
}
