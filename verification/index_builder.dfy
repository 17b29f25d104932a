/** The shared rendering of index DDL. A dialect is a record with one field
    per operation the algorithm relies on. The trait's methods without a body
    (the index prefix and the three whole-statement renderers) are fields that
    must be supplied when the record is built, so no dialect can omit them.
    Identifier rendering (`prepare_iden`) and the quote characters (`quote()`)
    come from supertraits that are not part of this model; they are fields too.
    `DefaultIndexType` and `DefaultFilter` are the shared defaults a dialect may
    keep. The functions below are the shared algorithm, written once for every
    dialect. */
module IndexBuilder {
  import opened Wrappers
  import opened Strings
  import opened Decimal
  import opened IndexModel

  /** The identifier quote characters of a dialect. */
  datatype Quote = Quote(left: char, right: char)

  /** Why a render was aborted. */
  datatype RenderError = NotSupported

  datatype Dialect = Dialect(
    quote: Quote,
    prepareIden: string -> string,
    prepareIndexPrefix: IndexCreateStatement -> string,
    prepareIndexType: Option<IndexType> -> string,
    prepareFilter: ConditionHolder -> string,
    prepareIndexCreateStatement: IndexCreateStatement -> string,
    prepareTableRefIndexStmt: TableRef -> string,
    prepareIndexDropStatement: IndexDropStatement -> string)

  /** Shared default of the index-type hook: nothing is written. */
  function DefaultIndexType(indexType: Option<IndexType>): (r: string)
    ensures |r| == 0
  {
    ""
  }

  /** Shared default of the partial-index filter hook: nothing is written. */
  function DefaultFilter(condition: ConditionHolder): (r: string)
    ensures |r| == 0
  {
    ""
  }

  /** A dialect built from its mandatory hooks, keeping both shared defaults. */
  function WithDefaultHooks(
    quote: Quote,
    prepareIden: string -> string,
    prepareIndexPrefix: IndexCreateStatement -> string,
    prepareIndexCreateStatement: IndexCreateStatement -> string,
    prepareTableRefIndexStmt: TableRef -> string,
    prepareIndexDropStatement: IndexDropStatement -> string): (d: Dialect)
    ensures HasDefaultFilter(d)
    ensures forall t :: d.prepareIndexType(t) == ""
    ensures d.quote == quote
    ensures forall n :: d.prepareIden(n) == prepareIden(n)
    ensures forall s :: d.prepareIndexPrefix(s) == prepareIndexPrefix(s)
    ensures forall s :: d.prepareIndexCreateStatement(s) == prepareIndexCreateStatement(s)
    ensures forall t :: d.prepareTableRefIndexStmt(t) == prepareTableRefIndexStmt(t)
    ensures forall s :: d.prepareIndexDropStatement(s) == prepareIndexDropStatement(s)
  {
    Dialect(quote, prepareIden, prepareIndexPrefix, DefaultIndexType, DefaultFilter,
            prepareIndexCreateStatement, prepareTableRefIndexStmt, prepareIndexDropStatement)
  }

  /** The dialect's filter hook writes nothing for any condition. */
  ghost predicate HasDefaultFilter(d: Dialect) {
    forall c :: d.prepareFilter(c) == ""
  }

  // ---------------------------------------------------------------------------
  // One column

  /** The key-length text written right after a column name: ` (<n>)` for a
      prefix `n`, nothing when there is none. */
  function WriteColumnIndexPrefix(prefix: Option<u32>): (r: string)
    ensures prefix.None? <==> r == ""
    ensures r != "" ==> |r| >= 4 && r[..2] == " (" && r[|r| - 1] == ')'
  {
    match prefix
    case None => ""
    case Some(p) => " (" + ToDecimal(p as nat) + ")"
  }

  /** The explicit sort order written after a column: ` ASC`, ` DESC`, or
      nothing when the order is left to the dialect. */
  function OrderText(order: Option<IndexOrder>): (r: string)
    ensures order.None? <==> r == ""
    ensures r != "" ==> r[0] == ' '
  {
    match order
    case None => ""
    case Some(Asc) => " ASC"
    case Some(Desc) => " DESC"
  }

  /** Everything a table column writes after its identifier. */
  function ColumnSuffix(prefix: Option<u32>, order: Option<IndexOrder>): string {
    WriteColumnIndexPrefix(prefix) + OrderText(order)
  }

  /** A table column: its identifier, then its key length, then its order.
      The identifier comes first, and nothing follows it exactly when the
      column has neither a key length nor an explicit order. */
  function PrepareIndexColumnWithTableColumn(d: Dialect, column: IndexColumnTableColumn): (r: string)
    ensures |d.prepareIden(column.name)| <= |r|
    ensures r[..|d.prepareIden(column.name)|] == d.prepareIden(column.name)
    ensures |r| == |d.prepareIden(column.name)| <==> column.prefix.None? && column.order.None?
  {
    var iden := d.prepareIden(column.name);
    var suffix := ColumnSuffix(column.prefix, column.order);
    AppendSlices(iden, suffix);
    iden + suffix
  }

  /** A rendered table column starts with the column's identifier, and the
      rest reads back as exactly the column's key length and order. */
  lemma TableColumnRoundTrip(d: Dialect, column: IndexColumnTableColumn)
    ensures |d.prepareIden(column.name)| <= |PrepareIndexColumnWithTableColumn(d, column)|
    ensures PrepareIndexColumnWithTableColumn(d, column)[..|d.prepareIden(column.name)|] == d.prepareIden(column.name)
    ensures ParseColumnSuffix(PrepareIndexColumnWithTableColumn(d, column)[|d.prepareIden(column.name)|..])
         == Some((column.prefix, column.order))
  {
    var iden := d.prepareIden(column.name);
    var suffix := ColumnSuffix(column.prefix, column.order);
    assert (iden + suffix)[|iden|..] == suffix;
    SuffixRenderThenParse(column.prefix, column.order);
  }

  // ---------------------------------------------------------------------------
  // Reading a column suffix back

  /** Splits a trailing ` ASC` or ` DESC` off `s`. */
  function ParseOrderSuffix(s: string): (string, Option<IndexOrder>) {
    if EndsWith(s, " ASC") then (s[..|s| - 4], Some(Asc))
    else if EndsWith(s, " DESC") then (s[..|s| - 5], Some(Desc))
    else (s, None)
  }

  /** Reads a key-length text: the empty string, or ` (<digits>)` with the
      digits in canonical form and in the range of `u32`. */
  function ParseKeyLength(s: string): Option<Option<u32>> {
    if s == "" then Some(None)
    else if && |s| >= 3 && s[..2] == " (" && s[|s| - 1] == ')'
            && Canonical(s[2..|s| - 1]) && ParseDecimal(s[2..|s| - 1]) < 0x1_0000_0000
    then Some(Some(ParseDecimal(s[2..|s| - 1]) as u32))
    else None
  }

  function ParseColumnSuffix(s: string): Option<(Option<u32>, Option<IndexOrder>)> {
    var (rest, order) := ParseOrderSuffix(s);
    var prefix :- ParseKeyLength(rest);
    Some((prefix, order))
  }

  lemma KeyLengthRenderThenParse(prefix: Option<u32>)
    ensures ParseKeyLength(WriteColumnIndexPrefix(prefix)) == Some(prefix)
  {
    if prefix.Some? {
      var digits := ToDecimal(prefix.value as nat);
      var r := " (" + digits + ")";
      AppendSlices(" (" + digits, ")");
      AppendSlices(" (", digits);
      assert r[2..|r| - 1] == (" (" + digits)[2..];
      ParseDecimalOfDecimal(prefix.value as nat);
    }
  }

  lemma KeyLengthParseThenRender(s: string)
    requires ParseKeyLength(s).Some?
    ensures WriteColumnIndexPrefix(ParseKeyLength(s).value) == s
  {
    if s != "" {
      var digits := s[2..|s| - 1];
      DecimalOfParseDecimal(digits);
      assert s == s[..2] + digits + [s[|s| - 1]];
    }
  }

  /** The key-length text and the key length determine each other. */
  lemma KeyLengthRoundTrip(prefix: Option<u32>, s: string)
    ensures ParseKeyLength(s) == Some(prefix) <==> WriteColumnIndexPrefix(prefix) == s
  {
    KeyLengthRenderThenParse(prefix);
    if ParseKeyLength(s).Some? {
      KeyLengthParseThenRender(s);
    }
  }

  /** The order text follows the key-length text and is split off it again. */
  lemma OrderRoundTrip(order: Option<IndexOrder>, rest: string)
    requires rest == "" || rest[|rest| - 1] == ')'
    ensures ParseOrderSuffix(rest + OrderText(order)) == (rest, order)
  {
    match order
    case None => NoOrderParse(rest);
    case Some(Asc) => AscParse(rest);
    case Some(Desc) => DescParse(rest);
  }

  lemma NoOrderParse(rest: string)
    requires rest == "" || rest[|rest| - 1] == ')'
    ensures ParseOrderSuffix(rest + "") == (rest, None)
  {
    AppendEmpty(rest);
    EndsWithLast(rest, " ASC");
    EndsWithLast(rest, " DESC");
  }

  lemma AscParse(rest: string)
    ensures ParseOrderSuffix(rest + " ASC") == (rest, Some(Asc))
  {
    AppendSlices(rest, " ASC");
  }

  lemma DescParse(rest: string)
    ensures ParseOrderSuffix(rest + " DESC") == (rest, Some(Desc))
  {
    var s := rest + " DESC";
    AppendSlices(rest, " DESC");
    assert s[|s| - 4] == 'D';
    assert s[|s| - 4..][0] == 'D';
  }

  lemma SuffixRenderThenParse(prefix: Option<u32>, order: Option<IndexOrder>)
    ensures ParseColumnSuffix(ColumnSuffix(prefix, order)) == Some((prefix, order))
  {
    var p := WriteColumnIndexPrefix(prefix);
    KeyLengthRenderThenParse(prefix);
    OrderRoundTrip(order, p);
  }

  lemma OrderParseThenRender(s: string)
    ensures ParseOrderSuffix(s).0 + OrderText(ParseOrderSuffix(s).1) == s
  {
    if EndsWith(s, " ASC") {
      SplitAt(s, |s| - 4);
    } else if EndsWith(s, " DESC") {
      SplitAt(s, |s| - 5);
    } else {
      AppendEmpty(s);
    }
  }

  lemma SuffixParseThenRender(s: string)
    requires ParseColumnSuffix(s).Some?
    ensures ColumnSuffix(ParseColumnSuffix(s).value.0, ParseColumnSuffix(s).value.1) == s
  {
    var split := ParseOrderSuffix(s);
    assert ParseKeyLength(split.0).Some?;
    KeyLengthParseThenRender(split.0);
    OrderParseThenRender(s);
  }

  /** The text after a column's identifier and its (key length, order) pair
      determine each other. */
  lemma ColumnSuffixRoundTrip(prefix: Option<u32>, order: Option<IndexOrder>, s: string)
    ensures ParseColumnSuffix(s) == Some((prefix, order)) <==> ColumnSuffix(prefix, order) == s
  {
    SuffixRenderThenParse(prefix, order);
    if ParseColumnSuffix(s).Some? {
      SuffixParseThenRender(s);
    }
  }

  // ---------------------------------------------------------------------------
  // The column list

  /** Reference: the text of each column, in input order. */
  function ColumnTexts(d: Dialect, columns: seq<IndexColumn>): (texts: seq<string>)
    requires AllTableColumns(columns)
    ensures |texts| == |columns|
    decreases |columns|
  {
    if |columns| == 0 then []
    else
      AllTableColumnsCons(columns);
      [PrepareIndexColumnWithTableColumn(d, columns[0].column)] + ColumnTexts(d, columns[1..])
  }

  /** What is written before a column: nothing before the first one. */
  function Separator(first: bool): string {
    if first then "" else ", "
  }

  /** The column fold: `first` says whether no column has been written yet,
      `sql` is the text written so far. A separator goes before every column
      but the first; an expression column aborts the render. */
  function FoldColumns(d: Dialect, columns: seq<IndexColumn>, first: bool, sql: string): (r: Result<string, RenderError>)
    ensures r.Ok? <==> AllTableColumns(columns)
    ensures r.Err? ==> r.error == NotSupported
    ensures AllTableColumns(columns) ==>
      r.value == sql + (if |columns| == 0 then "" else Separator(first)) + Join(", ", ColumnTexts(d, columns))
    decreases |columns|
  {
    if |columns| == 0 then Ok(sql)
    else
      var sql' := sql + Separator(first);
      match columns[0]
      case TableColumn(column) =>
        var text := PrepareIndexColumnWithTableColumn(d, column);
        var r := FoldColumns(d, columns[1..], false, sql' + text);
        AllTableColumnsCons(columns);
        assert AllTableColumns(columns) ==>
          r.value == sql' + Join(", ", ColumnTexts(d, columns)) by {
          if AllTableColumns(columns) {
            FoldStep(d, columns, sql', text, r.value);
          }
        }
        r
      case Expr(_) => Err(NotSupported)
  }

  /** One step of the fold: the first column's text followed by what the rest
      of the fold writes is what the whole fold promises. */
  lemma FoldStep(d: Dialect, columns: seq<IndexColumn>, head: string, text: string, v: string)
    requires |columns| > 0 && AllTableColumns(columns)
    requires text == PrepareIndexColumnWithTableColumn(d, columns[0].column)
    requires AllTableColumns(columns[1..])
    requires v == head + text + (if |columns| == 1 then "" else ", ") + Join(", ", ColumnTexts(d, columns[1..]))
    ensures v == head + Join(", ", ColumnTexts(d, columns))
  {
    var rest := ColumnTexts(d, columns[1..]);
    assert ColumnTexts(d, columns) == [text] + rest;
    JoinCons(", ", text, rest);
    if |columns| == 1 {
      AppendEmpty(head + text);
      AppendEmpty(head + text + "");
    } else {
      AppendAssoc(head + text, ", ", Join(", ", rest));
      AppendAssoc(head, text, ", " + Join(", ", rest));
    }
  }

  lemma AllTableColumnsCons(columns: seq<IndexColumn>)
    requires |columns| > 0
    ensures AllTableColumns(columns) <==> columns[0].TableColumn? && AllTableColumns(columns[1..])
  {
    if columns[0].TableColumn? && AllTableColumns(columns[1..]) {
      forall i | 0 < i < |columns| ensures columns[i].TableColumn? {
        assert columns[i] == columns[1..][i - 1];
      }
    }
  }

  /** The parenthesised, comma-separated column list. */
  function PrepareIndexColumns(d: Dialect, columns: seq<IndexColumn>): (r: Result<string, RenderError>)
    ensures r.Ok? <==> AllTableColumns(columns)
    ensures r.Err? ==> r.error == NotSupported
    ensures AllTableColumns(columns) ==> r.value == "(" + Join(", ", ColumnTexts(d, columns)) + ")"
  {
    var inner :- FoldColumns(d, columns, true, "(");
    AppendEmpty("(");
    Ok(inner + ")")
  }

  /** An empty column list is rendered, as `()`, not rejected. */
  lemma EmptyColumns(d: Dialect)
    ensures PrepareIndexColumns(d, []) == Ok("()")
  {
    assert ColumnTexts(d, []) == [];
    assert "(" + "" + ")" == "()";
  }

  /** One expression column anywhere in the list fails the whole list. */
  lemma ExprColumnFails(d: Dialect, before: seq<IndexColumn>, e: Exprs.Expr, after: seq<IndexColumn>)
    ensures PrepareIndexColumns(d, before + [IndexColumn.Expr(e)] + after) == Err(NotSupported)
  {
    assert (before + [IndexColumn.Expr(e)] + after)[|before|].Expr?;
  }

  /** The list of two concatenated column lists is the first list's columns, one
      separator, then the second list's columns. */
  lemma ColumnsAppend(d: Dialect, xs: seq<IndexColumn>, ys: seq<IndexColumn>)
    requires |xs| > 0 && |ys| > 0
    requires AllTableColumns(xs) && AllTableColumns(ys)
    ensures AllTableColumns(xs + ys)
    ensures PrepareIndexColumns(d, xs + ys)
         == Ok("(" + Join(", ", ColumnTexts(d, xs)) + ", " + Join(", ", ColumnTexts(d, ys)) + ")")
  {
    ColumnTextsAppend(d, xs, ys);
    var jx := Join(", ", ColumnTexts(d, xs));
    var jy := Join(", ", ColumnTexts(d, ys));
    JoinAppend(", ", ColumnTexts(d, xs), ColumnTexts(d, ys));
    AppendAssoc("(", jx + ", ", jy);
    AppendAssoc("(", jx, ", ");
  }

  lemma AllTableColumnsAppend(xs: seq<IndexColumn>, ys: seq<IndexColumn>)
    requires AllTableColumns(xs) && AllTableColumns(ys)
    ensures AllTableColumns(xs + ys)
  {
    forall i | 0 <= i < |xs + ys| ensures (xs + ys)[i].TableColumn? {
      if i >= |xs| {
        assert (xs + ys)[i] == ys[i - |xs|];
      }
    }
  }

  lemma {:induction false} ColumnTextsAppend(d: Dialect, xs: seq<IndexColumn>, ys: seq<IndexColumn>)
    requires AllTableColumns(xs) && AllTableColumns(ys)
    ensures AllTableColumns(xs + ys)
    ensures ColumnTexts(d, xs + ys) == ColumnTexts(d, xs) + ColumnTexts(d, ys)
    decreases |xs|
  {
    AllTableColumnsAppend(xs, ys);
    if |xs| == 0 {
      assert xs + ys == ys;
    } else {
      AllTableColumnsCons(xs);
      assert (xs + ys)[1..] == xs[1..] + ys;
      ColumnTextsAppend(d, xs[1..], ys);
      AppendAssoc([PrepareIndexColumnWithTableColumn(d, xs[0].column)], ColumnTexts(d, xs[1..]), ColumnTexts(d, ys));
    }
  }

  /** Two dialects with the same identifier rendering give the same column texts. */
  lemma {:induction false} ColumnTextsSameIden(d1: Dialect, d2: Dialect, columns: seq<IndexColumn>)
    requires AllTableColumns(columns)
    requires forall n :: d1.prepareIden(n) == d2.prepareIden(n)
    ensures ColumnTexts(d1, columns) == ColumnTexts(d2, columns)
    decreases |columns|
  {
    if |columns| > 0 {
      AllTableColumnsCons(columns);
      ColumnTextsSameIden(d1, d2, columns[1..]);
    }
  }

  // ---------------------------------------------------------------------------
  // The inline index expression

  /** `CONSTRAINT <quoted name> ` for a named index, nothing otherwise. */
  function ConstraintPart(quote: Quote, name: Option<string>): (r: string)
    ensures name.None? <==> r == ""
    ensures name.Some? ==>
      && |r| == 14 + |name.value|
      && r[..11] == "CONSTRAINT "
      && r[11] == quote.left
      && r[12..12 + |name.value|] == name.value
      && r[12 + |name.value|..] == [quote.right, ' ']
  {
    match name
    case None => ""
    case Some(n) => "CONSTRAINT " + [quote.left] + n + [quote.right] + " "
  }

  /** The index as written inline in a table definition: the constraint name,
      the dialect's index prefix, the column list, then the dialect's filter. */
  function PrepareTableIndexExpression(d: Dialect, create: IndexCreateStatement): (r: Result<string, RenderError>)
    ensures r.Ok? <==> AllTableColumns(create.index.columns)
    ensures r.Err? ==> r.error == NotSupported
    ensures AllTableColumns(create.index.columns) ==>
      r.value == ConstraintPart(d.quote, create.index.name)
               + d.prepareIndexPrefix(create)
               + "(" + Join(", ", ColumnTexts(d, create.index.columns)) + ")"
               + d.prepareFilter(create.condition)
  {
    var constraint := ConstraintPart(d.quote, create.index.name);
    var prefix := d.prepareIndexPrefix(create);
    var columns :- PrepareIndexColumns(d, create.index.columns);
    var filter := d.prepareFilter(create.condition);
    var joined := Join(", ", ColumnTexts(d, create.index.columns));
    AppendAssoc(constraint + prefix, "(" + joined, ")");
    AppendAssoc(constraint + prefix, "(", joined);
    Ok(constraint + prefix + columns + filter)
  }

  /** With the shared filter default, the condition contributes no text: the
      expression ends with the column list's closing parenthesis. */
  lemma DefaultFilterWritesNothing(d: Dialect, create: IndexCreateStatement)
    requires HasDefaultFilter(d)
    requires AllTableColumns(create.index.columns)
    ensures PrepareTableIndexExpression(d, create).Ok?
    ensures PrepareTableIndexExpression(d, create).value
         == ConstraintPart(d.quote, create.index.name) + d.prepareIndexPrefix(create)
          + PrepareIndexColumns(d, create.index.columns).value
    ensures EndsWith(PrepareTableIndexExpression(d, create).value, ")")
  {
    assert d.prepareFilter(create.condition) == "";
  }

  /** The output depends on the dialect only through its quote characters and
      the hooks the algorithm calls: two dialects that agree on those render
      the same statement to the same text. */
  lemma SameHooksSameOutput(d1: Dialect, d2: Dialect, create: IndexCreateStatement)
    requires d1.quote == d2.quote
    requires forall n :: d1.prepareIden(n) == d2.prepareIden(n)
    requires d1.prepareIndexPrefix(create) == d2.prepareIndexPrefix(create)
    requires d1.prepareFilter(create.condition) == d2.prepareFilter(create.condition)
    ensures PrepareTableIndexExpression(d1, create) == PrepareTableIndexExpression(d2, create)
  {
    if AllTableColumns(create.index.columns) {
      ColumnTextsSameIden(d1, d2, create.index.columns);
    }
  }

  // ---------------------------------------------------------------------------
  // Worked examples

  /** Double-quoted identifiers without escaping, as the examples below use. */
  function DoubleQuoted(name: string): string {
    "\"" + name + "\""
  }

  /** A column with key length 10 and descending order. */
  lemma KeyLengthExample(d: Dialect)
    ensures PrepareIndexColumnWithTableColumn(d, IndexColumnTableColumn("name", Some(10), Some(Desc)))
         == d.prepareIden("name") + " (10) DESC"
  {
    assert ToDecimal(1) == "1";
    assert ToDecimal(10) == "10";
    assert " (" + "10" + ")" + " DESC" == " (10) DESC";
  }

  /** The named single-column index `idx_name` on `name`, in a double-quoting
      dialect with the shared filter default. */
  lemma NamedIndexExample(d: Dialect, create: IndexCreateStatement)
    requires d.quote == Quote('"', '"')
    requires forall n :: d.prepareIden(n) == DoubleQuoted(n)
    requires HasDefaultFilter(d)
    requires create.index == TableIndex(Some("idx_name"), [TableColumn(IndexColumnTableColumn("name", None, None))])
    ensures PrepareTableIndexExpression(d, create)
         == Ok("CONSTRAINT \"idx_name\" " + d.prepareIndexPrefix(create) + "(\"name\")")
  {
    var columns := create.index.columns;
    var text := PrepareIndexColumnWithTableColumn(d, columns[0].column);
    assert ColumnSuffix(None, None) == "";
    AppendEmpty(DoubleQuoted("name"));
    assert text == DoubleQuoted("name");
    assert columns[1..] == [];
    AppendEmpty([text]);
    assert ColumnTexts(d, columns) == [text];
    assert ConstraintPart(d.quote, create.index.name) == "CONSTRAINT \"idx_name\" ";
    assert "(" + DoubleQuoted("name") + ")" == "(\"name\")";
    assert d.prepareFilter(create.condition) == "";
    AppendEmpty("CONSTRAINT \"idx_name\" " + d.prepareIndexPrefix(create) + "(\"name\")");
  }
}
