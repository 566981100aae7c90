/** The result outputs of the notebook controller (src/controller.ts:97-164):
    an HTML table, the result set as JSON, and a tab-separated text, or the
    status line for a statement without columns. The stylesheet the HTML
    table embeds is a parameter: its text is styling only. */
module Controller {
  import opened Wrappers
  import opened Text
  import opened Types
  import opened Html
  import opened Rows
  import opened Markup
  import opened Outputs
  import opened ResultRenderer

  // ---------------------------------------------------------------------
  // renderHtmlTable
  // ---------------------------------------------------------------------

  const EmNull: seq<Token> := Element("em", "", [Chars("NULL")])

  /** `<td><em>NULL</em></td>` for `null` only; any other value, `undefined`
      included, is its escaped `String(val)`. */
  function HtmlCell(v: JsVal): seq<Token>
  {
    Element("td", "", if v.Null? then EmNull else [Chars(EscapeHtml(Stringify(v)))])
  }

  function HtmlCells(columns: seq<ColumnInfo>, row: Row): seq<seq<Token>>
  {
    seq(|columns|, i requires 0 <= i < |columns| => HtmlCell(Get(row, columns[i].name)))
  }

  function HtmlRow(columns: seq<ColumnInfo>, row: Row): seq<Token>
  {
    Element("tr", "", Flatten(HtmlCells(columns, row)))
  }

  /** `<th>name</th>`, without the type. */
  function HtmlHeaderCell(c: ColumnInfo): seq<Token>
  {
    Element("th", "", [Chars(EscapeHtml(c.name))])
  }

  function HtmlHeaderCells(columns: seq<ColumnInfo>): seq<seq<Token>>
  {
    seq(|columns|, i requires 0 <= i < |columns| => HtmlHeaderCell(columns[i]))
  }

  function HtmlRows(result: SqlResultSet): seq<seq<Token>>
  {
    seq(|result.rows|, j requires 0 <= j < |result.rows| => HtmlRow(result.columns, result.rows[j]))
  }

  /** The `sql-context` line `resultToOutput` passes in: empty without a
      connection label. */
  function ContextLine(connLabel: string, dbLabel: string): seq<Token>
  {
    if connLabel == "" then []
    else Element("div", " class=\"sql-context\"",
                 [Chars("$(server) " + EscapeHtml(connLabel) + " | $(database) " + EscapeHtml(dbLabel))])
  }

  /** "N row(s) returned in Tms". */
  function HtmlMeta(rowCount: int, executionTime: int): string
  {
    IntToString(rowCount) + " row(s) returned in " + IntToString(executionTime) + "ms"
  }

  /** The template of `renderHtmlTable`, token by token: the style element,
      the context line, the table with its header row and its body rows
      joined by line breaks, and the meta line. */
  function HtmlTableTokens(result: SqlResultSet, contextLine: seq<Token>, css: string): seq<Token>
  {
    [Chars("\n")] + Element("style", "", [Chars(css)]) + [Chars("\n")]
    + contextLine
    + [Chars("\n")]
    + TableElement(result)
    + [Chars("\n")]
    + Element("div", " class=\"sql-meta\"", [Chars(HtmlMeta(result.rowCount, result.executionTime))])
  }

  /** `renderHtmlTable(result, contextLine)`. */
  function RenderHtmlTable(result: SqlResultSet, contextLine: seq<Token>, css: string): string
  {
    Serialize(HtmlTableTokens(result, contextLine, css))
  }

  /** Reads a cell of this table back as a browser shows it. */
  function ReadHtmlCell(cell: seq<Token>): Option<CellView>
  {
    if cell == Element("td", "", EmNull) then Some(NullMarker)
    else if |cell| == 3 && cell[0] == StartTag("td", "") && cell[1].Chars? && cell[2] == EndTag("td")
    then Some(Text(Unescape(cell[1].text)))
    else None
  }

  lemma TextCellReads(s: string)
    ensures ReadHtmlCell(Element("td", "", [Chars(EscapeHtml(s))])) == Some(Text(s))
  {
    assert |Element("td", "", EmNull)| == 5;
    UnescapeEscapeHtml(s);
  }

  /** Only `null` shows the NULL marker; every other value, `undefined`
      included, reads back as exactly `String(val)`. */
  lemma ReadHtmlCellSpec(v: JsVal)
    ensures ReadHtmlCell(HtmlCell(v)) == Some(if v.Null? then NullMarker else Text(Stringify(v)))
  {
    if !v.Null? {
      TextCellReads(Stringify(v));
    }
  }

  /** How the outputs mark missing values, side by side: the interactive
      grid marks `null` and `undefined`; this table marks only `null` and
      shows `undefined` as the text "undefined"; the plain text prints "NULL"
      for both, which a string "NULL" also prints. (The JSON rows turn both
      into `null`: `Rows.JsonRowSpec`.) */
  lemma NullMarking(v: JsVal)
    ensures ReadCell(GridCell(v)) == Some(NullMarker) <==> IsNullish(v)
    ensures ReadHtmlCell(HtmlCell(v)) == Some(NullMarker) <==> v.Null?
    ensures ReadHtmlCell(HtmlCell(Undefined)) == Some(Text("undefined"))
    ensures IsNullish(v) ==> PlainCell(v) == PlainCell(Str("NULL")) == "NULL"
  {
    ReadGridCell(v);
    ReadHtmlCellSpec(v);
    ReadHtmlCellSpec(Undefined);
  }

  lemma TextCellTags(s: string)
    ensures AllClean(Element("td", "", [Chars(EscapeHtml(s))]))
    ensures TagCount(Element("td", "", [Chars(EscapeHtml(s))])) == 2
  {
    EscapeHtmlAvoids(s, '<');
    ElementTags("td", "", [Chars(EscapeHtml(s))]);
  }

  lemma HtmlCellTags(v: JsVal)
    ensures AllClean(HtmlCell(v))
    ensures TagCount(HtmlCell(v)) == if v.Null? then 4 else 2
  {
    if v.Null? {
      ElementTags("em", "", [Chars("NULL")]);
      ElementTags("td", "", EmNull);
    } else {
      TextCellTags(Stringify(v));
    }
  }

  lemma HtmlRowClean(columns: seq<ColumnInfo>, row: Row)
    ensures AllClean(HtmlRow(columns, row))
  {
    var cells := HtmlCells(columns, row);
    forall i | 0 <= i < |cells| ensures AllClean(cells[i]) {
      HtmlCellTags(Get(row, columns[i].name));
    }
    FlattenClean(cells);
    ElementTags("tr", "", Flatten(cells));
  }

  lemma HtmlHeadClean(columns: seq<ColumnInfo>)
    ensures AllClean(Element("tr", "", Flatten(HtmlHeaderCells(columns))))
  {
    var cells := HtmlHeaderCells(columns);
    forall i | 0 <= i < |cells| ensures AllClean(cells[i]) {
      EscapeHtmlAvoids(columns[i].name, '<');
      ElementTags("th", "", [Chars(EscapeHtml(columns[i].name))]);
    }
    FlattenClean(cells);
    ElementTags("tr", "", Flatten(cells));
  }

  lemma ContextLineClean(connLabel: string, dbLabel: string)
    ensures AllClean(ContextLine(connLabel, dbLabel))
    ensures TagCount(ContextLine(connLabel, dbLabel)) == if connLabel == "" then 0 else 2
  {
    if connLabel != "" {
      EscapeHtmlAvoids(connLabel, '<');
      EscapeHtmlAvoids(dbLabel, '<');
      var text := "$(server) " + EscapeHtml(connLabel) + " | $(database) " + EscapeHtml(dbLabel);
      assert '<' !in text;
      ElementTags("div", " class=\"sql-context\"", [Chars(text)]);
    }
  }

  lemma AllCleanConcat(a: seq<Token>, b: seq<Token>)
    requires AllClean(a) && AllClean(b)
    ensures AllClean(a + b)
  {
    forall i | 0 <= i < |a + b| ensures Clean((a + b)[i]) {
      if i >= |a| { assert (a + b)[i] == b[i - |a|]; }
    }
  }

  lemma TableClean(result: SqlResultSet)
    ensures AllClean(Element("tbody", "", JoinTokens(HtmlRows(result), [Chars("\n")])))
  {
    var rows := HtmlRows(result);
    forall j | 0 <= j < |rows| ensures AllClean(rows[j]) {
      HtmlRowClean(result.columns, result.rows[j]);
    }
    JoinTokensTags(rows, [Chars("\n")]);
    ElementTags("tbody", "", JoinTokens(rows, [Chars("\n")]));
  }

  function TableElement(result: SqlResultSet): seq<Token>
  {
    Element("table", " class=\"sql-result\"",
      [Chars("\n  ")]
      + Element("thead", "", Element("tr", "", Flatten(HtmlHeaderCells(result.columns))))
      + [Chars("\n  ")]
      + Element("tbody", "", JoinTokens(HtmlRows(result), [Chars("\n")]))
      + [Chars("\n")])
  }

  lemma TableElementClean(result: SqlResultSet)
    ensures AllClean(TableElement(result))
  {
    var row := Element("tr", "", Flatten(HtmlHeaderCells(result.columns)));
    HtmlHeadClean(result.columns);
    ElementTags("thead", "", row);
    TableClean(result);
    var head := Element("thead", "", row);
    var body := Element("tbody", "", JoinTokens(HtmlRows(result), [Chars("\n")]));
    TableLinesClean(head, body);
    ElementTags("table", " class=\"sql-result\"", [Chars("\n  ")] + head + [Chars("\n  ")] + body + [Chars("\n")]);
  }

  /** The table's line breaks around a clean head and body leave it clean. */
  lemma TableLinesClean(head: seq<Token>, body: seq<Token>)
    requires AllClean(head) && AllClean(body)
    ensures AllClean([Chars("\n  ")] + head + [Chars("\n  ")] + body + [Chars("\n")])
  {
    var indent := [Chars("\n  ")];
    AllCleanConcat(indent, head);
    AllCleanConcat(indent + head, indent);
    AllCleanConcat(indent + head + indent, body);
    AllCleanConcat(indent + head + indent + body, [Chars("\n")]);
  }

  lemma MetaClean(result: SqlResultSet)
    ensures AllClean(Element("div", " class=\"sql-meta\"", [Chars(HtmlMeta(result.rowCount, result.executionTime))]))
  {
    var meta := HtmlMeta(result.rowCount, result.executionTime);
    IntToStringChars(result.rowCount, '<');
    IntToStringChars(result.executionTime, '<');
    assert '<' !in meta;
    ElementTags("div", " class=\"sql-meta\"", [Chars(meta)]);
  }

  /** The template's line breaks around clean parts leave it clean. */
  lemma TemplateClean(style: seq<Token>, ctx: seq<Token>, table: seq<Token>, div: seq<Token>)
    requires AllClean(style) && AllClean(ctx) && AllClean(table) && AllClean(div)
    ensures AllClean([Chars("\n")] + style + [Chars("\n")] + ctx + [Chars("\n")] + table + [Chars("\n")] + div)
  {
    var nl := [Chars("\n")];
    AllCleanConcat(nl, style);
    AllCleanConcat(nl + style, nl);
    AllCleanConcat(nl + style + nl, ctx);
    AllCleanConcat(nl + style + nl + ctx, nl);
    AllCleanConcat(nl + style + nl + ctx + nl, table);
    AllCleanConcat(nl + style + nl + ctx + nl + table, nl);
    AllCleanConcat(nl + style + nl + ctx + nl + table + nl, div);
  }

  /** Whatever the names and values hold, each `<` of the produced HTML
      opens or closes one of the table's own elements, provided the
      stylesheet holds none of its own. */
  lemma RenderHtmlTableTags(result: SqlResultSet, connLabel: string, dbLabel: string, css: string)
    requires '<' !in css
    ensures var ts := HtmlTableTokens(result, ContextLine(connLabel, dbLabel), css);
      AllClean(ts) && Count(RenderHtmlTable(result, ContextLine(connLabel, dbLabel), css), '<') == TagCount(ts)
  {
    var ctx := ContextLine(connLabel, dbLabel);
    ContextLineClean(connLabel, dbLabel);
    TableElementClean(result);
    MetaClean(result);
    ElementTags("style", "", [Chars(css)]);
    TemplateClean(Element("style", "", [Chars(css)]), ctx, TableElement(result),
      Element("div", " class=\"sql-meta\"", [Chars(HtmlMeta(result.rowCount, result.executionTime))]));
    SerializeAngles(HtmlTableTokens(result, ctx, css));
  }

  // ---------------------------------------------------------------------
  // renderPlainText
  // ---------------------------------------------------------------------

  /** "N row(s) - Tms". */
  function PlainSummary(rowCount: int, executionTime: int): string
  {
    IntToString(rowCount) + " row(s) - " + IntToString(executionTime) + "ms"
  }

  /** `renderPlainText(result)`: the grid, an empty line and the summary. */
  function PlainText(result: SqlResultSet): string
  {
    PlainGrid(result) + "\n\n" + PlainSummary(result.rowCount, result.executionTime)
  }

  /** When no name or value contains a line break, the lines of the text
      are the header line, one line per row (one empty line when there are
      no rows), an empty line and the summary "N row(s) - Tms". */
  lemma PlainTextLines(result: SqlResultSet)
    requires GridAvoids(result, '\n')
    ensures Split(PlainText(result), '\n')
         == GridLines(result) + ["", PlainSummary(result.rowCount, result.executionTime)]
  {
    var summary := PlainSummary(result.rowCount, result.executionTime);
    var lines := GridLines(result) + ["", summary];
    PlainGridIsJoin(result);
    JoinAppend(GridLines(result), ["", summary], "\n");
    assert Join(["", summary], "\n") == "" + "\n" + summary;
    assert PlainText(result) == Join(lines, "\n");
    GridLinesAvoid(result, '\n');
    IntToStringChars(result.rowCount, '\n');
    IntToStringChars(result.executionTime, '\n');
    assert '\n' !in summary;
    SplitJoin(lines, '\n');
  }

  // ---------------------------------------------------------------------
  // resultToOutput
  // ---------------------------------------------------------------------

  const ResultMime: string := "x-application/sql-notebook-result"

  /** `resultToOutput(result, connLabel, dbLabel)`. */
  function ResultToOutput(result: SqlResultSet, connLabel: string, dbLabel: string, css: string): CellOutput
  {
    if |result.columns| == 0 then StatusOutput(result, connLabel, dbLabel)
    else
      [ TextItem("text/html", RenderHtmlTable(result, ContextLine(connLabel, dbLabel), css)),
        ResultItem(ResultMime, result),
        TextItem("text/plain", PlainText(result)) ]
  }

  /** A result without columns gives the single status item; any other
      result gives exactly three items, HTML, JSON and plain text, in that
      order, the JSON item carrying the whole result set. The HTML holds the
      context line exactly when the connection label is non-empty. */
  lemma ResultToOutputSpec(result: SqlResultSet, connLabel: string, dbLabel: string, css: string)
    ensures var out := ResultToOutput(result, connLabel, dbLabel, css);
      && (|result.columns| == 0 ==> out == StatusOutput(result, connLabel, dbLabel))
      && (|result.columns| > 0 ==>
            && |out| == 3
            && out[0] == TextItem("text/html", RenderHtmlTable(result, ContextLine(connLabel, dbLabel), css))
            && out[1] == ResultItem(ResultMime, result)
            && out[2].TextItem? && out[2].mime == "text/plain"
            && out[2].text == PlainText(result))
      && (ContextLine(connLabel, dbLabel) == [] <==> connLabel == "")
  {
  }
}
