/** The interactive result view (src/resultRenderer.ts): the grid, the
    message panel, and the view that composes them with a status line or a
    Table/JSON toggle. The grid and the message panel are modelled as the
    exact markup the source builds; the composed view is modelled as the
    values it places in its template, because the rest of that template is
    styling. */
module ResultRenderer {
  import opened Wrappers
  import opened Text
  import opened Types
  import opened Html
  import opened Rows
  import opened Markup
  import opened Outputs

  // ---------------------------------------------------------------------
  // the grid: renderTable
  // ---------------------------------------------------------------------

  /** `<th title="type">name</th>`. */
  function HeaderCell(c: ColumnInfo): seq<Token>
  {
    Element("th", " title=\"" + EscapeHtml(c.declared) + "\"", [Chars(EscapeHtml(c.name))])
  }

  const NullCell: seq<Token> := Element("td", " class=\"null-val\"", [Chars("NULL")])

  /** A null or undefined value is the styled NULL marker; any other value
      is its escaped `String(v)`. */
  function GridCell(v: JsVal): seq<Token>
  {
    if IsNullish(v) then NullCell else Element("td", "", [Chars(EscapeHtml(Stringify(v)))])
  }

  function RowCells(columns: seq<ColumnInfo>, row: Row): seq<seq<Token>>
  {
    seq(|columns|, i requires 0 <= i < |columns| => GridCell(Get(row, columns[i].name)))
  }

  function GridRow(columns: seq<ColumnInfo>, row: Row): seq<Token>
  {
    Element("tr", "", Flatten(RowCells(columns, row)))
  }

  function HeaderCells(columns: seq<ColumnInfo>): seq<seq<Token>>
  {
    seq(|columns|, i requires 0 <= i < |columns| => HeaderCell(columns[i]))
  }

  function BodyRows(result: SqlResultSet): seq<seq<Token>>
  {
    seq(|result.rows|, j requires 0 <= j < |result.rows| => GridRow(result.columns, result.rows[j]))
  }

  /** `<table class="sql-grid"><thead><tr>head</tr></thead><tbody>body</tbody></table>`. */
  function Frame(head: seq<Token>, body: seq<Token>): seq<Token>
  {
    Element("table", " class=\"sql-grid\"", Element("thead", "", Element("tr", "", head)) + Element("tbody", "", body))
  }

  function TableTokens(result: SqlResultSet): seq<Token>
  {
    Frame(Flatten(HeaderCells(result.columns)), Flatten(BodyRows(result)))
  }

  /** `renderTable(result)`. */
  function RenderTable(result: SqlResultSet): string
  {
    Serialize(TableTokens(result))
  }

  /** What a reader of one grid cell sees: the NULL marker, or a text. */
  datatype CellView = NullMarker | Text(text: string)

  /** Reads a cell back as a browser shows it: the null-styled marker, or a
      plain cell whose character data is decoded. */
  function ReadCell(cell: seq<Token>): Option<CellView>
  {
    if cell == NullCell then Some(NullMarker)
    else if |cell| == 3 && cell[0] == StartTag("td", "") && cell[1].Chars? && cell[2] == EndTag("td")
    then Some(Text(Unescape(cell[1].text)))
    else None
  }

  /** A null or undefined cell reads back as the NULL marker; every other
      value reads back as exactly its text. So the string "NULL" and a real
      null stay distinguishable in the grid. */
  lemma ReadGridCell(v: JsVal)
    ensures ReadCell(GridCell(v)) == Some(if IsNullish(v) then NullMarker else Text(Stringify(v)))
  {
    if !IsNullish(v) {
      assert GridCell(v)[0] != NullCell[0];
      UnescapeEscapeHtml(Stringify(v));
    }
  }

  lemma NullDistinctFromNullText()
    ensures GridCell(Null) != GridCell(Str("NULL"))
    ensures GridCell(Undefined) == GridCell(Null)
  {
    ReadGridCell(Null);
    ReadGridCell(Str("NULL"));
  }

  lemma GridCellTags(v: JsVal)
    ensures AllClean(GridCell(v)) && TagCount(GridCell(v)) == 2
  {
    if IsNullish(v) {
      ElementTags("td", " class=\"null-val\"", [Chars("NULL")]);
    } else {
      EscapeHtmlAvoids(Stringify(v), '<');
      ElementTags("td", "", [Chars(EscapeHtml(Stringify(v)))]);
    }
  }

  lemma GridRowTags(columns: seq<ColumnInfo>, row: Row)
    ensures AllClean(GridRow(columns, row)) && TagCount(GridRow(columns, row)) == 2 + 2 * |columns|
  {
    var cells := RowCells(columns, row);
    forall i | 0 <= i < |cells| ensures AllClean(cells[i]) && TagCount(cells[i]) == 2 {
      GridCellTags(Get(row, columns[i].name));
    }
    FlattenTags(cells, 2);
    FlattenClean(cells);
    ElementTags("tr", "", Flatten(cells));
  }

  lemma HeaderCellTags(c: ColumnInfo)
    ensures AllClean(HeaderCell(c)) && TagCount(HeaderCell(c)) == 2
  {
    EscapeHtmlAvoids(c.declared, '<');
    EscapeHtmlAvoids(c.name, '<');
    assert '<' !in " title=\"" + EscapeHtml(c.declared) + "\"";
    ElementTags("th", " title=\"" + EscapeHtml(c.declared) + "\"", [Chars(EscapeHtml(c.name))]);
  }

  lemma HeadTags(columns: seq<ColumnInfo>)
    ensures var head := Flatten(HeaderCells(columns));
      AllClean(head) && TagCount(head) == 2 * |columns|
  {
    var headers := HeaderCells(columns);
    forall i | 0 <= i < |headers| ensures AllClean(headers[i]) && TagCount(headers[i]) == 2 {
      HeaderCellTags(columns[i]);
    }
    FlattenTags(headers, 2);
    FlattenClean(headers);
  }

  lemma BodyTags(result: SqlResultSet)
    ensures var body := Flatten(BodyRows(result));
      AllClean(body) && TagCount(body) == |result.rows| * (2 + 2 * |result.columns|)
  {
    var rows := BodyRows(result);
    forall j | 0 <= j < |rows| ensures AllClean(rows[j]) && TagCount(rows[j]) == 2 + 2 * |result.columns| {
      GridRowTags(result.columns, result.rows[j]);
    }
    FlattenTags(rows, 2 + 2 * |result.columns|);
    FlattenClean(rows);
  }

  /** The grid holds one element per header cell, per row and per data cell,
      whatever the data: since names, types and values are escaped, none of
      them can open or close an element. Counting `<`: eight for the table
      frame, two per header cell, and per row two plus two per column. */
  lemma RenderTableTags(result: SqlResultSet)
    ensures Count(RenderTable(result), '<')
         == 8 + 2 * |result.columns| + |result.rows| * (2 + 2 * |result.columns|)
  {
    var head := Flatten(HeaderCells(result.columns));
    var body := Flatten(BodyRows(result));
    HeadTags(result.columns);
    BodyTags(result);
    FrameTags(head, body);
    SerializeAngles(TableTokens(result));
  }

  lemma FrameTags(head: seq<Token>, body: seq<Token>)
    requires AllClean(head) && AllClean(body)
    ensures AllClean(Frame(head, body)) && TagCount(Frame(head, body)) == TagCount(head) + TagCount(body) + 8
  {
    ElementTags("tr", "", head);
    var thead := Element("thead", "", Element("tr", "", head));
    var tbody := Element("tbody", "", body);
    ElementTags("thead", "", Element("tr", "", head));
    ElementTags("tbody", "", body);
    TagCountConcat(thead, tbody);
    assert AllClean(thead + tbody) by {
      forall i | 0 <= i < |thead + tbody| ensures Clean((thead + tbody)[i]) {
        if i >= |thead| { assert (thead + tbody)[i] == tbody[i - |thead|]; }
      }
    }
    ElementTags("table", " class=\"sql-grid\"", thead + tbody);
  }

  // ---------------------------------------------------------------------
  // the message panel: renderMessages
  // ---------------------------------------------------------------------

  function KindName(k: MessageType): string
  {
    match k
    case Info => "info"
    case Warning => "warning"
    case Error => "error"
  }

  /** The glyph before a message: a cross for errors, a warning sign for
      warnings, nothing for information. */
  function Glyph(k: MessageType): string
  {
    match k
    case Error => "&#x2716; "
    case Warning => "&#x26A0; "
    case Info => ""
  }

  function MessageItem(m: SqlMessage): seq<Token>
  {
    Element("div", " class=\"sql-msg sql-msg-" + KindName(m.kind) + "\"", [Chars(Glyph(m.kind) + EscapeHtml(m.text))])
  }

  /** The inline style of the "Messages" heading, one CSS declaration per
      piece. */
  const HeadingStyle: string :=
    "font-size:0.8em;" + "font-weight:600;" + "margin-bottom:2px;" + "color:var(--vscode-descriptionForeground)"

  const MessagesHeading: seq<Token> := Element("div", " style=\"" + HeadingStyle + "\"", [Chars("Messages")])

  function MessageItems(messages: seq<SqlMessage>): seq<seq<Token>>
  {
    seq(|messages|, i requires 0 <= i < |messages| => MessageItem(messages[i]))
  }

  function MessagesTokens(messages: seq<SqlMessage>): seq<Token>
  {
    if |messages| == 0 then []
    else Element("div", " class=\"sql-messages\"",
           MessagesHeading + Flatten(MessageItems(messages)))
  }

  /** `renderMessages(messages)`. */
  function RenderMessages(messages: seq<SqlMessage>): string
  {
    Serialize(MessagesTokens(messages))
  }

  lemma MessageItemTags(m: SqlMessage)
    ensures AllClean(MessageItem(m)) && TagCount(MessageItem(m)) == 2
  {
    EscapeHtmlAvoids(m.text, '<');
    assert '<' !in Glyph(m.kind) + EscapeHtml(m.text);
    assert '<' !in " class=\"sql-msg sql-msg-" + KindName(m.kind) + "\"";
    ElementTags("div", " class=\"sql-msg sql-msg-" + KindName(m.kind) + "\"", [Chars(Glyph(m.kind) + EscapeHtml(m.text))]);
  }

  /** A message's element carries the class of its kind, and its text is
      the kind's glyph, present for errors and warnings only, followed by
      the message text, which decodes back to itself. */
  lemma MessageItemSpec(m: SqlMessage)
    ensures MessageItem(m)[0] == StartTag("div", " class=\"sql-msg sql-msg-" + KindName(m.kind) + "\"")
    ensures (Glyph(m.kind) == "") <==> m.kind == Info
    ensures var t := MessageItem(m)[1];
      && t.Chars?
      && |Glyph(m.kind)| <= |t.text|
      && t.text[..|Glyph(m.kind)|] == Glyph(m.kind)
      && Unescape(t.text[|Glyph(m.kind)|..]) == m.text
  {
    var g := Glyph(m.kind);
    var t := g + EscapeHtml(m.text);
    assert MessageItem(m)[1] == Chars(t);
    assert t[|g|..] == EscapeHtml(m.text);
    UnescapeEscapeHtml(m.text);
  }

  lemma HeadingTags()
    ensures AllClean(MessagesHeading) && TagCount(MessagesHeading) == 2
  {
    assert '<' !in HeadingStyle;
    assert '<' !in " style=\"" + HeadingStyle + "\"";
    ElementTags("div", " style=\"" + HeadingStyle + "\"", [Chars("Messages")]);
  }

  lemma ItemsTags(messages: seq<SqlMessage>)
    ensures AllClean(Flatten(MessageItems(messages)))
    ensures TagCount(Flatten(MessageItems(messages))) == 2 * |messages|
  {
    var items := MessageItems(messages);
    forall i | 0 <= i < |items| ensures AllClean(items[i]) && TagCount(items[i]) == 2 {
      MessageItemTags(messages[i]);
    }
    FlattenTags(items, 2);
    FlattenClean(items);
  }

  /** No messages, no panel at all. Otherwise the panel holds its heading
      and one element per message: the markup has four `<` for the panel and
      its heading and two per message, since message texts are escaped. */
  lemma RenderMessagesShape(messages: seq<SqlMessage>)
    ensures RenderMessages(messages) == "" <==> |messages| == 0
    ensures Count(RenderMessages(messages), '<') == if |messages| == 0 then 0 else 4 + 2 * |messages|
  {
    if |messages| > 0 {
      var content := MessagesHeading + Flatten(MessageItems(messages));
      HeadingTags();
      ItemsTags(messages);
      TagCountConcat(MessagesHeading, Flatten(MessageItems(messages)));
      assert AllClean(content) by {
        forall i | 0 <= i < |content| ensures Clean(content[i]) {
          if i >= |MessagesHeading| {
            assert content[i] == Flatten(MessageItems(messages))[i - |MessagesHeading|];
          }
        }
      }
      ElementTags("div", " class=\"sql-messages\"", content);
      SerializeAngles(MessagesTokens(messages));
      var ts := MessagesTokens(messages);
      assert Serialize(ts) == Render(ts[0]) + Serialize(ts[1..]);
      assert |Render(ts[0])| > 0;
    }
  }

  // ---------------------------------------------------------------------
  // the composed view: renderResultHtml
  // ---------------------------------------------------------------------

  /** The inline `display` of the two view containers (`.sql-table-view`
      and `.sql-json-view`) and which toolbar button carries the `active`
      class. The stylesheet is not modelled, so these say nothing about the
      `<pre>` inside the JSON container. */
  datatype Toolbar = Toolbar(tableDisplayed: bool, jsonDisplayed: bool, tableActive: bool, jsonActive: bool)

  /** As rendered: the table container displayed, the JSON container
      `display:none`, the Table button active. */
  const InitialToolbar: Toolbar := Toolbar(true, false, true, false)

  datatype Button = TableButton | JsonButton

  /** The inline click handler of a toolbar button: it clears the inline
      `display` of its own container, sets the other's to `none`, and moves
      the `active` class to itself. */
  function Click(t: Toolbar, b: Button): Toolbar
  {
    match b
    case TableButton => t.(tableDisplayed := true, jsonDisplayed := false, tableActive := true, jsonActive := false)
    case JsonButton => t.(tableDisplayed := false, jsonDisplayed := true, tableActive := false, jsonActive := true)
  }

  function ClickAll(t: Toolbar, clicks: seq<Button>): Toolbar
    decreases |clicks|
  {
    if |clicks| == 0 then t else ClickAll(Click(t, clicks[0]), clicks[1..])
  }

  /** Exactly one of the two containers is displayed, and the active button
      is the one of the displayed container. */
  predicate OneContainerDisplayed(t: Toolbar)
  {
    t.tableDisplayed != t.jsonDisplayed && t.tableActive == t.tableDisplayed && t.jsonActive == t.jsonDisplayed
  }

  /** Whatever the user clicks, exactly one container is displayed and its
      button is the active one; the container displayed is the one last
      clicked, or the table's when nothing was clicked. */
  lemma {:induction false} ToolbarClicks(t: Toolbar, clicks: seq<Button>)
    requires t == InitialToolbar || OneContainerDisplayed(t)
    ensures OneContainerDisplayed(ClickAll(t, clicks))
    ensures ClickAll(t, clicks).tableDisplayed ==
      if |clicks| == 0 then t.tableDisplayed else clicks[|clicks| - 1] == TableButton
    decreases |clicks|
  {
    if |clicks| > 0 {
      ToolbarClicks(Click(t, clicks[0]), clicks[1..]);
      if |clicks| > 1 {
        assert clicks[1..][|clicks[1..]| - 1] == clicks[|clicks| - 1];
      }
    }
  }

  /** Whether the JSON text can be read: its container is displayed and the
      stylesheet does not hide the `<pre class="sql-json">` inside it. */
  function JsonTextVisible(t: Toolbar, preHidden: bool): bool
  {
    t.jsonDisplayed && !preHidden
  }

  /** The stylesheet as written ends its `.sql-json` rule with
      `display:none`, which hides the `<pre>` itself. */
  const SqlJsonHiddenAsWritten: bool := true

  /** The stylesheet without that declaration: the container's inline
      style alone decides. */
  const SqlJsonHidden: bool := false

  /** As written, no sequence of clicks makes the JSON text readable. The
      first ensures rests on a premise, not a derivation: that the
      `.sql-json` rule at resultRenderer.ts:69 hides the `<pre>` is read off
      the stylesheet and recorded in `SqlJsonHiddenAsWritten`. What is
      derived from the click handlers is the second ensures: the JSON button
      does display the container, which then looks empty. */
  lemma JsonNeverVisibleAsWritten(clicks: seq<Button>)
    ensures !JsonTextVisible(ClickAll(InitialToolbar, clicks), SqlJsonHiddenAsWritten)
    ensures |clicks| > 0 && clicks[|clicks| - 1] == JsonButton ==>
      ClickAll(InitialToolbar, clicks).jsonDisplayed
  {
    ToolbarClicks(InitialToolbar, clicks);
  }

  /** With the `<pre>` left visible, the JSON text can be read exactly when
      the JSON button was the last one clicked, and the table then cannot. */
  lemma JsonVisibleAfterJsonClick(clicks: seq<Button>)
    ensures JsonTextVisible(ClickAll(InitialToolbar, clicks), SqlJsonHidden)
      <==> |clicks| > 0 && clicks[|clicks| - 1] == JsonButton
    ensures JsonTextVisible(ClickAll(InitialToolbar, clicks), SqlJsonHidden)
      ==> !ClickAll(InitialToolbar, clicks).tableDisplayed
  {
    ToolbarClicks(InitialToolbar, clicks);
  }

  /** The view `renderResultHtml` builds. `context` is the escaped context
      line, "" when that line is omitted. */
  datatype ResultView =
    | StatusView(context: string, status: string, messages: string)
    | GridView(context: string, meta: string, table: string, json: seq<Row>, toolbar: Toolbar, messages: string)

  function ContextText(connLabel: string, dbLabel: string): string
  {
    if connLabel != "" then connLabel + " / " + dbLabel else ""
  }

  function GridMeta(rowCount: int, executionTime: int): string
  {
    IntToString(rowCount) + " row(s) &middot; " + IntToString(executionTime) + "ms"
  }

  /** `renderResultHtml(result, connLabel, dbLabel, messages)`. */
  function RenderResultHtml(result: SqlResultSet, connLabel: string, dbLabel: string, messages: seq<SqlMessage>): ResultView
  {
    var context := EscapeHtml(ContextText(connLabel, dbLabel));
    if |result.columns| == 0 then
      StatusView(context, EscapeHtml(StatusText(result.rowCount, result.executionTime)), RenderMessages(messages))
    else
      GridView(context, GridMeta(result.rowCount, result.executionTime), RenderTable(result),
               JsonRows(result.columns, result.rows), InitialToolbar, RenderMessages(messages))
  }

  /** A result without columns renders as the status line "Query executed
      successfully. N row(s) affected. (Tms)" with the optional context line
      and the messages, and no toolbar or grid. A result with columns
      renders the toolbar with the meta text "N row(s) · Tms", the grid, the
      JSON rows and the messages, with the table container displayed. The context line
      is present exactly when the connection label is non-empty and then
      reads "conn / db". */
  lemma RenderResultHtmlSpec(result: SqlResultSet, connLabel: string, dbLabel: string, messages: seq<SqlMessage>)
    ensures var v := RenderResultHtml(result, connLabel, dbLabel, messages);
      && (v.context != "" <==> connLabel != "")
      && (connLabel != "" ==> Unescape(v.context) == connLabel + " / " + dbLabel)
      && v.messages == RenderMessages(messages)
      && (|result.columns| == 0 <==> v.StatusView?)
      && (v.StatusView? ==> Unescape(v.status) == StatusText(result.rowCount, result.executionTime))
      && (v.GridView? ==>
            && v.meta == GridMeta(result.rowCount, result.executionTime)
            && v.table == RenderTable(result)
            && v.json == JsonRows(result.columns, result.rows)
            && v.toolbar.tableDisplayed && !v.toolbar.jsonDisplayed)
  {
    var ctx := ContextText(connLabel, dbLabel);
    UnescapeEscapeHtml(ctx);
    if connLabel != "" {
      assert |ctx| > 0;
      assert Unescape(EscapeHtml(ctx)) == ctx;
    }
    UnescapeEscapeHtml(StatusText(result.rowCount, result.executionTime));
  }
}
