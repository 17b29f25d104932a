# Index DDL rendering and SQLite operators, modelled in Dafny

A model of two pieces of the sea-query rendering layer.

1. **The shared index renderer.** `IndexBuilder` is the trait every SQL dialect implements. It
   renders the index of a `CREATE TABLE` inline. First comes an optional
   `CONSTRAINT "<name>" `, then the dialect's index prefix (`UNIQUE`, `PRIMARY KEY`, ...).
   Then comes the parenthesised column list, and last the dialect's partial-index filter.
   Each column is its identifier, then an optional key length ` (n)`, then an optional
   ` ASC`/` DESC`. An expression column is declared in the data model but is not supported:
   rendering it aborts.
2. **The SQLite operator extension.** `SqliteExpr` gives every expression-like value four
   methods: `glob`, `matches`, `get_json_field` and `cast_json_field`. Each wraps
   `(self, operator, right)` into a binary expression node tagged with a SQLite-only
   operator. The operators render as `GLOB`, `MATCH`, `->` and `->>`.

Files and modules:

| file | module | contents |
|---|---|---|
| `wrappers.dfy` | `Wrappers` | `Option`, `Result` |
| `strings.dfy` | `Strings` | `Join` (the reference for separator placement) and its lemmas |
| `decimal.dfy` | `Decimal` | decimal text of naturals and its inverse parser |
| `sqlite_oper.dfy` | `SqliteOper` | `SqliteBinOper` and its token map |
| `expr.dfy` | `Exprs` | the shared expression tree `Expr` and the `BinOper` tags |
| `sqlite_expr.dfy` | `SqliteExpr` | the four operator methods, generic over the receiver |
| `index_model.dfy` | `IndexModel` | index statements, columns, orders, `u32` |
| `index_builder.dfy` | `IndexBuilder` | the dialect hook record and the shared algorithm |

A dialect is the record `IndexBuilder.Dialect`. It has one field per operation the shared
algorithm relies on. The trait's methods without a body are `prepare_index_create_statement`,
`prepare_table_ref_index_stmt`, `prepare_index_drop_statement` and `prepare_index_prefix`
(index_builder.rs:31-41, :49). Each of them is a plain field, so a dialect value cannot be built
without them. Identifier rendering (`prepare_iden`, called at :66) and the quote characters
(`quote()`, used at :16 and :18) come from the supertraits `QuotedBuilder` and
`TableRefBuilder` (:3), which are not part of this model; they are modelled as the record
fields `prepareIden` and `quote`. The two hooks that do have a default (`prepare_index_type`, `prepare_filter`)
are fields too. `WithDefaultHooks` fills them with the shared defaults `DefaultIndexType`
and `DefaultFilter`.

The trait's blanket implementation gives the operator methods to every `ExprTrait` type.
Here each method is a generic function over the receiver type `L` and the operand type `R`.
It takes the two conversions into `Expr` as parameters (`lift` and `into`).

Rendering is modelled by pure functions, so the same statement and dialect always give the
same text. `SameHooksSameOutput` says more than that: the text depends on the dialect only
through the hooks the algorithm calls.

An empty column list is not rejected: the code writes `(` and `)` (index_builder.rs:79, :92),
and the model follows it (`EmptyColumns`).

## Model

| member | source | states |
|---|---|---|
| `IndexBuilder.PrepareTableIndexExpression` | src/backend/index_builder.rs:7-28 | It succeeds exactly when every column is a table column. Otherwise the error is `NotSupported`. On success the text is the constraint part, the prefix hook's text, `(` + the column texts joined by `, ` + `)`, and the filter hook's text, in that order. |
| `IndexBuilder.ConstraintPart` | src/backend/index_builder.rs:12-21 | There is no text exactly when the index has no name. Otherwise the text is `CONSTRAINT `, the left quote, the name unchanged, the right quote and one space. |
| `IndexBuilder.WithDefaultHooks` | src/backend/index_builder.rs:43-45 | A dialect built from its quote characters, identifier rendering and the four hooks without a body keeps each of them unchanged. Its index-type hook writes nothing for any index type, and its filter hook writes nothing for any condition. |
| `IndexBuilder.DefaultIndexType` | src/backend/index_builder.rs:45 | The shared index-type hook writes nothing, whatever the index type; `WithDefaultHooks` installs it. |
| `IndexBuilder.DefaultFilter` | src/backend/index_builder.rs:97 | The shared filter hook writes nothing, whatever the condition; `DefaultFilterWritesNothing` shows the inline expression then ends with the column list. |
| `IndexBuilder.PrepareIndexColumnWithTableColumn` | src/backend/index_builder.rs:61-74 | The column text starts with the identifier text, and nothing follows it exactly when the column has neither a key length nor an order. `TableColumnRoundTrip` shows that the rest reads back as exactly the column's key length and order. |
| `IndexBuilder.WriteColumnIndexPrefix` | src/backend/index_builder.rs:53-57 | There is no text exactly when there is no key length. Any text it writes starts with ` (` and ends with `)`. |
| `IndexBuilder.KeyLengthRoundTrip` | src/backend/index_builder.rs:53-57 | The key-length text and the key length determine each other: the text is ` (` + the decimal digits + `)`, and it is read back as the same `u32`. |
| `IndexBuilder.KeyLengthExample` | src/backend/index_builder.rs:55 | A column with key length 10 and order `Desc` renders as its identifier followed by exactly ` (10) DESC`. |
| `IndexBuilder.OrderText` | src/backend/index_builder.rs:68-73 | There is no order text exactly when no order was requested. Any order text starts with a space. |
| `IndexBuilder.OrderRoundTrip` | src/backend/index_builder.rs:68-73 | The order text follows the key-length text and is split off it again: ` ASC` reads as `Asc`, ` DESC` reads as `Desc`, and no suffix reads as no order. |
| `IndexBuilder.ColumnSuffixRoundTrip` | src/backend/index_builder.rs:66-73 | The text after a column's identifier parses back to the pair (key length, order) exactly when it is the text that pair renders to. |
| `IndexBuilder.TableColumnRoundTrip` | src/backend/index_builder.rs:61-74 | A rendered table column starts with the dialect's identifier text for the column name. The rest reads back as exactly the column's key length and order. |
| `IndexBuilder.FoldColumns` | src/backend/index_builder.rs:80-91 | The fold succeeds exactly when every column is a table column, and fails with `NotSupported` otherwise. On success it appends the column texts in input order. There is a `, ` between neighbours, and a leading `, ` only if a column was already written. |
| `IndexBuilder.PrepareIndexColumns` | src/backend/index_builder.rs:78-93 | It succeeds exactly when every column is a table column, and fails with `NotSupported` otherwise. On success the text is `(` + the column texts in input order, joined by `, ` + `)`. |
| `IndexBuilder.EmptyColumns` | src/backend/index_builder.rs:79-92 | An empty column list renders as `()` and is not rejected. |
| `IndexBuilder.ExprColumnFails` | src/backend/index_builder.rs:88 | An expression column at any position makes the whole list fail with `NotSupported`. No partial text is returned. |
| `IndexBuilder.ColumnsAppend` | src/backend/index_builder.rs:80-91 | The list for two non-empty lists of table columns is the first list's texts, one `, `, then the second list's texts, inside one pair of parentheses. |
| `IndexBuilder.DefaultFilterWritesNothing` | src/backend/index_builder.rs:95-97 | With the default filter hook, the condition adds no text for any condition. The inline expression is the constraint part, the prefix and the column list, and it ends with `)`. |
| `IndexBuilder.SameHooksSameOutput` | src/backend/index_builder.rs:7-28 | Two dialects that agree on the quote characters, the identifier rendering, the prefix hook and the filter hook render a statement to the same result. |
| `IndexBuilder.NamedIndexExample` | src/backend/index_builder.rs:12-27 | Take the index `idx_name` on the one column `name`, in a double-quoting dialect with the default filter. It renders as `CONSTRAINT "idx_name" `, then the prefix hook's text, then `("name")`. |
| `Strings.JoinAppend` | src/backend/index_builder.rs:80-91 | Joining two non-empty lists puts exactly one separator between the two parts. |
| `Decimal.DecimalRoundTrip` | src/backend/index_builder.rs:55 | A natural number's decimal text and the parse of a canonical digit string determine each other. |
| `SqliteExpr.SqliteBinary` | src/extension/sqlite/expr.rs:29 | The node is binary. Its left operand is the converted receiver, its right operand is the converted argument, and its tag is the given SQLite operator. |
| `SqliteExpr.Glob` | src/extension/sqlite/expr.rs:25-30 | The node is binary, tagged `Glob`, with the receiver on the left unchanged apart from conversion and the converted argument on the right. |
| `SqliteExpr.Matches` | src/extension/sqlite/expr.rs:50-55 | The node is binary, tagged `Match`, with the converted receiver on the left and the converted argument on the right. |
| `SqliteExpr.GetJsonField` | src/extension/sqlite/expr.rs:75-80 | The node is binary, tagged `GetJsonField`, with the converted receiver on the left and the converted argument on the right. |
| `SqliteExpr.CastJsonField` | src/extension/sqlite/expr.rs:100-105 | The node is binary, tagged `CastJsonField`, with the converted receiver on the left and the converted argument on the right. |
| `SqliteExpr.BlanketImpl` | src/extension/sqlite/expr.rs:109 | For a value of any type, calling a method gives the same node as converting the value to an expression first and calling the method on that. |
| `SqliteExpr.MethodsDistinct` | src/extension/sqlite/expr.rs:25-105 | For the same operands, the four methods build four different expressions. |
| `SqliteExpr.GlobExample` | src/extension/sqlite/expr.rs:15-22 | `glob` on column `name` with the literal `"a"` renders as `"name" GLOB 'a'`. |
| `SqliteExpr.MatchesExample` | src/extension/sqlite/expr.rs:40-47 | `matches` on column `name` with the literal `"a"` renders as `"name" MATCH 'a'`. |
| `SqliteExpr.GetJsonFieldExample` | src/extension/sqlite/expr.rs:65-72 | `get_json_field` on column `variant` with the literal `"a"` renders as `"variant" -> 'a'`. |
| `SqliteExpr.CastJsonFieldExample` | src/extension/sqlite/expr.rs:90-97 | `cast_json_field` on column `variant` with the literal `"a"` renders as `"variant" ->> 'a'`. |
| `SqliteOper.Token` | src/extension/sqlite/expr.rs:22-97 | The token is `GLOB` exactly for `Glob`, `MATCH` exactly for `Match`, `->` exactly for `GetJsonField` and `->>` exactly for `CastJsonField`; `TokenRoundTrip` and `TokenInjective` give its inverse. |
| `SqliteOper.ParseToken` | src/extension/sqlite/expr.rs:22-97 | Any operator read from a string has that string as its token. |
| `SqliteOper.TokenRoundTrip` | src/extension/sqlite/expr.rs:22-97 | Each operator is read back from its own token (`GLOB`, `MATCH`, `->`, `->>`), and only from it. |
| `SqliteOper.TokenInjective` | src/extension/sqlite/expr.rs:22-97 | Two operators have the same token exactly when they are the same operator. |

## Left out

- The `SqlWriter` sink and the `write!(...).unwrap()` calls: each renderer returns its text. Appending to a writer is string concatenation.
- The `panic!` on an expression column is modelled as `Err(NotSupported)`. The `, ` the source writes just before panicking is not part of any result, because the render is aborted.
- `prepare_iden`, `quote()` and the table-reference rendering are parameters of the dialect record. Their escaping rules are not modelled, and `DoubleQuoted` in the examples does no escaping.
- `prepare_index_create_statement`, `prepare_table_ref_index_stmt`, `prepare_index_drop_statement` and `prepare_index_prefix` are dialect fields without properties, because the trait gives them no body.
- The MySQL override of `prepare_table_index_expression` and all other per-dialect overrides are not modelled. The shared functions (`WriteColumnIndexPrefix`, `PrepareIndexColumnWithTableColumn`, `PrepareIndexColumns`) are modelled as fixed, although the trait would let a dialect override them.
- `ConditionHolder` is an opaque list of expressions. Its predicate rendering is not modelled; it reaches the text only through the filter hook.
- General expression rendering is not modelled. `RenderSqliteCondition` covers only the shape in the documentation examples: a column, a SQLite operator, and a string literal, without quote escaping.
- `Into<Expr>` for the many Rust operand types is abstracted as the `into` conversion parameter. `FromStr` and `FromExpr` are the two conversions the examples use.
- The shared `BinOper` enumeration is abridged to a few tags besides the wrapped SQLite operator, because only the SQLite operators are part of this model.
