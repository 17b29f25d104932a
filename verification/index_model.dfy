/** The index statement trees the builder renders. All values are immutable
    and owned by the caller. */
module IndexModel {
  import opened Wrappers
  import opened Exprs

  /** Rust's `u32`, the type of a key-length prefix. */
  newtype u32 = x: int | 0 <= x < 0x1_0000_0000

  datatype IndexOrder = Asc | Desc

  /** A column of the indexed table: its name, an optional key length and an
      optional explicit sort order. */
  datatype IndexColumnTableColumn = IndexColumnTableColumn(
    name: string,
    prefix: Option<u32>,
    order: Option<IndexOrder>)

  /** A column of an index: a table column, or an expression (declared but not
      supported by the renderer). */
  datatype IndexColumn =
    | TableColumn(column: IndexColumnTableColumn)
    | Expr(expr: Exprs.Expr)

  datatype IndexType = BTree | FullText | Hash | Custom(name: string)

  /** A table reference, consumed only through the dialect's own rendering. */
  datatype TableRef = TableRef(name: string)

  /** The WHERE predicate of a partial index; no conditions means no filter. */
  datatype ConditionHolder = ConditionHolder(conditions: seq<Exprs.Expr>)

  datatype TableIndex = TableIndex(name: Option<string>, columns: seq<IndexColumn>)

  datatype IndexCreateStatement = IndexCreateStatement(
    table: Option<TableRef>,
    index: TableIndex,
    primary: bool,
    unique: bool,
    nullsNotDistinct: bool,
    indexType: Option<IndexType>,
    ifNotExists: bool,
    condition: ConditionHolder)

  datatype IndexDropStatement = IndexDropStatement(table: Option<TableRef>, index: TableIndex, ifExists: bool)

  /** Every column is a table column: the renderer supports exactly these lists. */
  predicate AllTableColumns(columns: seq<IndexColumn>) {
    forall i :: 0 <= i < |columns| ==> columns[i].TableColumn?
  }
}
