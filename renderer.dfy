/** The notebook output renderer (src/renderer/index.ts): the CSV the "Copy
    as CSV" button writes and the DOM it builds for a result. The result is
    the one `JSON.parse` gives back; the stylesheet text is a parameter. */
module Renderer {
  import opened Wrappers
  import opened Text
  import opened Types

  // ---------------------------------------------------------------------
  // CSV (section 2 of RFC 4180)
  // ---------------------------------------------------------------------

  /** A field enclosed in double quotes, every double quote inside it
      doubled (section 2, item 7 of RFC 4180). */
  function Quote(s: string): string
  {
    "\"" + ReplaceAll(s, '"', "\"\"") + "\""
  }

  /** A null or undefined value is an empty, unquoted field; any other value
      is its quoted `String(val)`. */
  function ValueField(v: JsVal): string
  {
    if IsNullish(v) then "" else Quote(Stringify(v))
  }

  function RowFields(columns: seq<ColumnInfo>, row: Row): seq<string>
  {
    seq(|columns|, i requires 0 <= i < |columns| => ValueField(Get(row, columns[i].name)))
  }

  function RowLines(result: SqlResultSet): seq<string>
  {
    seq(|result.rows|, j requires 0 <= j < |result.rows| => Join(RowFields(result.columns, result.rows[j]), ","))
  }

  /** The header as the source writes it: each name between double quotes,
      without doubling the quotes inside it. */
  function HeaderAsWritten(columns: seq<ColumnInfo>): string
  {
    Join(seq(|columns|, i requires 0 <= i < |columns| => "\"" + columns[i].name + "\""), ",")
  }

  /** The CSV the button writes, as the source builds it. */
  function CsvAsWritten(result: SqlResultSet): string
  {
    Join([HeaderAsWritten(result.columns)] + RowLines(result), "\n")
  }

  /** The header with each name quoted like a value. */
  function QuotedNames(columns: seq<ColumnInfo>): seq<string>
  {
    seq(|columns|, i requires 0 <= i < |columns| => Quote(columns[i].name))
  }

  function Header(columns: seq<ColumnInfo>): string
  {
    Join(QuotedNames(columns), ",")
  }

  /** The CSV with the header quoted as section 2, item 7 of RFC 4180
      requires. */
  function Csv(result: SqlResultSet): string
  {
    Join([Header(result.columns)] + RowLines(result), "\n")
  }

  // A reader for the CSV: a record is a list of fields, a field is `None`
  // when it is empty and unquoted, otherwise its text.

  /** Reads the inside of a quoted field, from just after its opening quote
      up to its closing quote; `""` stands for one quote. Fails when the
      closing quote is missing. */
  function QuotedBody(s: string, acc: string): (r: Option<(string, string)>)
    ensures r.Some? ==> |r.value.1| < |s|
    decreases |s|
  {
    if |s| == 0 then None
    else if s[0] == '"' then
      if |s| >= 2 && s[1] == '"' then QuotedBody(s[2..], acc + ['"'])
      else Some((acc, s[1..]))
    else QuotedBody(s[1..], acc + [s[0]])
  }

  predicate Ends(c: char) { c == ',' || c == '\n' }

  /** The length of the unquoted text `s` starts with. */
  function PlainLength(s: string): (n: nat)
    ensures n <= |s|
    ensures forall i :: 0 <= i < n ==> !Ends(s[i]) && s[i] != '"'
    ensures n < |s| ==> Ends(s[n]) || s[n] == '"'
  {
    if |s| == 0 || Ends(s[0]) || s[0] == '"' then 0 else 1 + PlainLength(s[1..])
  }

  /** Reads one field and what follows it. */
  function ReadField(s: string): (r: Option<(Option<string>, string)>)
    ensures r.Some? ==> |r.value.1| <= |s|
  {
    if |s| > 0 && s[0] == '"' then
      match QuotedBody(s[1..], "")
      case Some((text, rest)) => Some((Some(text), rest))
      case None => None
    else
      var n := PlainLength(s);
      if n == 0 then Some((None, s)) else Some((Some(s[..n]), s[n..]))
  }

  /** Reads the fields of one record, and whether a line break follows it.
      Fails when a field is not followed by a comma, a line break or the
      end. */
  function ReadRecord(s: string): (r: Option<(seq<Option<string>>, string, bool)>)
    ensures r.Some? ==> |r.value.1| <= |s|
    ensures r.Some? && r.value.2 ==> |r.value.1| < |s|
    decreases |s|
  {
    match ReadField(s)
    case None => None
    case Some((f, rest)) =>
      if |rest| == 0 then Some(([f], "", false))
      else if rest[0] == '\n' then Some(([f], rest[1..], true))
      else if rest[0] == ',' then
        match ReadRecord(rest[1..])
        case None => None
        case Some((fs, after, more)) => Some(([f] + fs, after, more))
      else None
  }

  /** Reads a whole CSV text: records separated by line breaks. */
  function ReadCsv(s: string): Option<seq<seq<Option<string>>>>
    decreases |s|
  {
    match ReadRecord(s)
    case None => None
    case Some((fs, rest, more)) =>
      if !more then Some([fs])
      else match ReadCsv(rest)
        case None => None
        case Some(records) => Some([fs] + records)
  }

  /** What the reader should find in a field. */
  function Written(f: Option<string>): string
  {
    match f
    case None => ""
    case Some(text) => Quote(text)
  }

  function ValueOf(v: JsVal): Option<string>
  {
    if IsNullish(v) then None else Some(Stringify(v))
  }

  lemma {:induction false} QuotedBodyReads(x: string, acc: string, t: string)
    requires |t| == 0 || t[0] != '"'
    ensures QuotedBody(ReplaceAll(x, '"', "\"\"") + "\"" + t, acc) == Some((acc + x, t))
    decreases |x|
  {
    var s := ReplaceAll(x, '"', "\"\"") + "\"" + t;
    if |x| == 0 {
      assert s == "\"" + t;
      assert s[1..] == t;
      assert acc + x == acc;
    } else {
      var rest := ReplaceAll(x[1..], '"', "\"\"") + "\"" + t;
      QuotedBodyReads(x[1..], acc + [x[0]], t);
      if x[0] == '"' {
        assert s == "\"\"" + rest;
        assert s[2..] == rest;
      } else {
        assert s == [x[0]] + rest;
        assert s[1..] == rest;
      }
      assert acc + [x[0]] + x[1..] == acc + x;
    }
  }

  lemma ReadFieldWritten(f: Option<string>, t: string)
    requires |t| == 0 || Ends(t[0])
    ensures ReadField(Written(f) + t) == Some((f, t))
  {
    match f
    case None =>
      assert Written(f) + t == t;
    case Some(x) =>
      var s := Written(f) + t;
      assert s == "\"" + (ReplaceAll(x, '"', "\"\"") + "\"" + t);
      assert s[1..] == ReplaceAll(x, '"', "\"\"") + "\"" + t;
      QuotedBodyReads(x, "", t);
      assert "" + x == x;
  }

  function WrittenAll(fs: seq<Option<string>>): seq<string>
  {
    seq(|fs|, i requires 0 <= i < |fs| => Written(fs[i]))
  }

  lemma ReadRecordLast(s: string, f: Option<string>, t: string)
    requires ReadField(s) == Some((f, t))
    requires |t| == 0 || t[0] == '\n'
    ensures ReadRecord(s) == Some(([f], if |t| == 0 then "" else t[1..], |t| > 0))
  {
  }

  lemma ReadRecordNext(s: string, f: Option<string>, tail: string, fs: seq<Option<string>>, after: string, more: bool)
    requires ReadField(s) == Some((f, "," + tail))
    requires ReadRecord(tail) == Some((fs, after, more))
    ensures ReadRecord(s) == Some(([f] + fs, after, more))
  {
    assert ("," + tail)[1..] == tail;
  }

  lemma ReadRecordWrittenOne(fs: seq<Option<string>>, t: string)
    requires |fs| == 1
    requires |t| == 0 || t[0] == '\n'
    ensures ReadRecord(Join(WrittenAll(fs), ",") + t)
         == Some((fs, if |t| == 0 then "" else t[1..], |t| > 0))
  {
    assert Join(WrittenAll(fs), ",") == Written(fs[0]);
    ReadFieldWritten(fs[0], t);
    ReadRecordLast(Written(fs[0]) + t, fs[0], t);
    assert [fs[0]] == fs;
  }

  lemma SeqAssoc(a: string, b: string, c: string, d: string)
    ensures a + b + c + d == a + (b + (c + d))
  {
  }

  /** The step of `ReadRecordWritten`: a written field and a comma in front
      of records the reader takes apart add that field in front. */
  lemma ReadRecordWrittenCons(fs: seq<Option<string>>, t: string, after: string, more: bool)
    requires |fs| >= 2
    requires ReadRecord(Join(WrittenAll(fs[1..]), ",") + t) == Some((fs[1..], after, more))
    ensures ReadRecord(Join(WrittenAll(fs), ",") + t) == Some((fs, after, more))
  {
    var ws := WrittenAll(fs);
    var rest := Join(WrittenAll(fs[1..]), ",");
    var tail := rest + t;
    assert WrittenAll(fs[1..]) == ws[1..];
    assert Join(ws, ",") == ws[0] + "," + rest;
    assert ws[0] == Written(fs[0]);
    SeqAssoc(Written(fs[0]), ",", rest, t);
    ReadFieldWritten(fs[0], "," + tail);
    ReadRecordNext(Written(fs[0]) + ("," + tail), fs[0], tail, fs[1..], after, more);
    assert [fs[0]] + fs[1..] == fs;
  }

  lemma {:induction false} ReadRecordWritten(fs: seq<Option<string>>, t: string)
    requires |fs| >= 1
    requires |t| == 0 || t[0] == '\n'
    ensures ReadRecord(Join(WrittenAll(fs), ",") + t)
         == Some((fs, if |t| == 0 then "" else t[1..], |t| > 0))
    decreases |fs|
  {
    if |fs| == 1 {
      ReadRecordWrittenOne(fs, t);
    } else {
      ReadRecordWritten(fs[1..], t);
      ReadRecordWrittenCons(fs, t, if |t| == 0 then "" else t[1..], |t| > 0);
    }
  }

  lemma ReadCsvLast(s: string, fs: seq<Option<string>>)
    requires ReadRecord(s) == Some((fs, "", false))
    ensures ReadCsv(s) == Some([fs])
  {
  }

  lemma ReadCsvNext(s: string, fs: seq<Option<string>>, rest: string, records: seq<seq<Option<string>>>)
    requires ReadRecord(s) == Some((fs, rest, true))
    requires ReadCsv(rest) == Some(records)
    ensures ReadCsv(s) == Some([fs] + records)
  {
  }

  function RecordText(fs: seq<Option<string>>): string
  {
    Join(WrittenAll(fs), ",")
  }

  function RecordTexts(records: seq<seq<Option<string>>>): seq<string>
  {
    seq(|records|, i requires 0 <= i < |records| => RecordText(records[i]))
  }

  /** Reading back a CSV written record by record gives the records, as
      long as every record has a field. */
  lemma {:induction false} ReadCsvWritten(records: seq<seq<Option<string>>>)
    requires |records| >= 1
    requires forall i :: 0 <= i < |records| ==> |records[i]| >= 1
    ensures ReadCsv(Join(RecordTexts(records), "\n")) == Some(records)
    decreases |records|
  {
    var texts := RecordTexts(records);
    if |records| == 1 {
      assert Join(texts, "\n") == RecordText(records[0]);
      ReadRecordWritten(records[0], "");
      assert RecordText(records[0]) + "" == RecordText(records[0]);
      ReadCsvLast(RecordText(records[0]), records[0]);
      assert [records[0]] == records;
    } else {
      var rest := Join(RecordTexts(records[1..]), "\n");
      assert RecordTexts(records[1..]) == texts[1..];
      assert Join(texts, "\n") == RecordText(records[0]) + ("\n" + rest);
      ReadRecordWritten(records[0], "\n" + rest);
      assert ("\n" + rest)[1..] == rest;
      ReadCsvWritten(records[1..]);
      ReadCsvNext(RecordText(records[0]) + ("\n" + rest), records[0], rest, records[1..]);
      assert [records[0]] + records[1..] == records;
    }
  }

  /** The records a reader should find in a result's CSV: the column names,
      then per row one field per column, absent for null and undefined. */
  function CsvRecords(result: SqlResultSet): seq<seq<Option<string>>>
  {
    [seq(|result.columns|, i requires 0 <= i < |result.columns| => Some(result.columns[i].name))]
    + seq(|result.rows|, j requires 0 <= j < |result.rows| =>
        seq(|result.columns|, i requires 0 <= i < |result.columns| => ValueOf(Get(result.rows[j], result.columns[i].name))))
  }

  /** The corrected CSV reads back, following RFC 4180, as one record for
      the header and one per row, in order, each with one field per column:
      the column names, then each value's `String(val)`, whatever quotes,
      commas or line breaks they hold, and an empty field exactly for null
      and undefined. */
  lemma CsvReadsBack(result: SqlResultSet)
    requires |result.columns| >= 1
    ensures ReadCsv(Csv(result)) == Some(CsvRecords(result))
  {
    var records := CsvRecords(result);
    var texts := RecordTexts(records);
    forall i | 0 <= i < |records| ensures |records[i]| >= 1 { }
    var quoted := QuotedNames(result.columns);
    forall i | 0 <= i < |result.columns| ensures WrittenAll(records[0])[i] == quoted[i] {
      assert records[0][i] == Some(result.columns[i].name);
    }
    assert WrittenAll(records[0]) == quoted;
    assert texts[0] == RecordText(records[0]) == Header(result.columns);
    forall j | 0 <= j < |result.rows| ensures texts[j + 1] == RowLines(result)[j] {
      assert WrittenAll(records[j + 1]) == RowFields(result.columns, result.rows[j]);
    }
    assert texts == [Header(result.columns)] + RowLines(result);
    ReadCsvWritten(records);
  }

  /** A value's field is empty exactly when the value is null or
      undefined; every other value's field starts and ends with a quote. */
  lemma ValueFieldSpec(v: JsVal)
    ensures ValueField(v) == "" <==> IsNullish(v)
    ensures !IsNullish(v) ==> |ValueField(v)| >= 2 && ValueField(v)[0] == '"' && ValueField(v)[|ValueField(v)| - 1] == '"'
  {
  }

  /** The header as written cannot be read back once a column name holds a
      double quote: for a single column named `a"b` the reader stops at the
      quote after `a` and fails on the `b` that follows it. */
  lemma HeaderAsWrittenBreaks()
    ensures var result := SqlResultSet([ColumnInfo("a\"b", "int")], [], 0, 0);
      ReadCsv(CsvAsWritten(result)) == None
  {
    var result := SqlResultSet([ColumnInfo("a\"b", "int")], [], 0, 0);
    var text := "\"a\"b\"";
    assert HeaderAsWritten(result.columns) == text;
    assert CsvAsWritten(result) == text;
    assert text[1..] == "a\"b\"";
    var body := "a\"b\"";
    assert body[1..] == "\"b\"";
    assert "" + [body[0]] == "a";
    assert QuotedBody(body, "") == QuotedBody("\"b\"", "a");
    assert "\"b\""[1..] == "b\"";
    assert QuotedBody("\"b\"", "a") == Some(("a", "b\""));
    assert ReadField(text) == Some((Some("a"), "b\""));
    assert ReadRecord(text) == None;
  }

  // ---------------------------------------------------------------------
  // the DOM of renderOutputItem
  // ---------------------------------------------------------------------

  /** An element: its tag, class, title, text content and children. */
  datatype Node = Node(tag: string, className: string, title: string, text: string, children: seq<Node>)

  function Leaf(tag: string, className: string, title: string, text: string): Node
  {
    Node(tag, className, title, text, [])
  }

  /** "N row(s) | Tms". */
  function InfoText(rowCount: int, executionTime: int): string
  {
    IntToString(rowCount) + " row(s) | " + IntToString(executionTime) + "ms"
  }

  /** `th`: the name as text, the type as title. */
  function HeaderNode(c: ColumnInfo): Node
  {
    Leaf("th", "", c.declared, c.name)
  }

  /** `td`: "NULL" with class `null-value` for null and undefined, otherwise
      `String(val)` without a class. */
  function CellNode(v: JsVal): Node
  {
    if IsNullish(v) then Leaf("td", "null-value", "", "NULL") else Leaf("td", "", "", Stringify(v))
  }

  function HeaderCells(columns: seq<ColumnInfo>): seq<Node>
  {
    seq(|columns|, i requires 0 <= i < |columns| => HeaderNode(columns[i]))
  }

  function RowCells(columns: seq<ColumnInfo>, row: Row): seq<Node>
  {
    seq(|columns|, i requires 0 <= i < |columns| => CellNode(Get(row, columns[i].name)))
  }

  function BodyRows(result: SqlResultSet): seq<Node>
  {
    seq(|result.rows|, j requires 0 <= j < |result.rows| => Node("tr", "", "", "", RowCells(result.columns, result.rows[j])))
  }

  function TableNode(result: SqlResultSet): Node
  {
    Node("table", "sql-grid", "", "", [
      Node("thead", "", "", "", [Node("tr", "", "", "", HeaderCells(result.columns))]),
      Node("tbody", "", "", "", BodyRows(result))])
  }

  function Toolbar(result: SqlResultSet): Node
  {
    Node("div", "sql-toolbar", "", "", [Leaf("button", "", "", "Copy as CSV"), Leaf("span", "sql-info", "", InfoText(result.rowCount, result.executionTime))])
  }

  /** The wrapper `renderOutputItem` appends to its element. */
  function OutputView(result: SqlResultSet, css: string): Node
  {
    Node("div", "sql-result-wrapper", "", "",
      [Leaf("style", "", "", css), Toolbar(result)] + (if |result.columns| > 0 then [TableNode(result)] else []))
  }

  /** The loops of `renderOutputItem`: header cells appended to the header
      row, cells to each row, rows to the body. */
  method RenderOutputItem(result: SqlResultSet, css: string) returns (wrapper: Node)
    ensures wrapper == OutputView(result, css)
  {
    var children := [Leaf("style", "", "", css), Toolbar(result)];
    if |result.columns| > 0 {
      var headerCells: seq<Node> := [];
      for i := 0 to |result.columns|
        invariant headerCells == HeaderCells(result.columns)[..i]
      {
        headerCells := headerCells + [HeaderNode(result.columns[i])];
      }
      var bodyRows: seq<Node> := [];
      for j := 0 to |result.rows|
        invariant bodyRows == BodyRows(result)[..j]
      {
        var cells: seq<Node> := [];
        for i := 0 to |result.columns|
          invariant cells == RowCells(result.columns, result.rows[j])[..i]
        {
          cells := cells + [CellNode(Get(result.rows[j], result.columns[i].name))];
        }
        assert cells == RowCells(result.columns, result.rows[j]);
        bodyRows := bodyRows + [Node("tr", "", "", "", cells)];
      }
      assert headerCells == HeaderCells(result.columns);
      assert bodyRows == BodyRows(result);
      var table := Node("table", "sql-grid", "", "", [
        Node("thead", "", "", "", [Node("tr", "", "", "", headerCells)]),
        Node("tbody", "", "", "", bodyRows)]);
      children := children + [table];
    }
    wrapper := Node("div", "sql-result-wrapper", "", "", children);
  }

  /** The wrapper holds the stylesheet, then the toolbar whose info reads
      "N row(s) | Tms", then the table exactly when the result has
      columns. */
  lemma OutputViewSpec(result: SqlResultSet, css: string)
    ensures var w := OutputView(result, css);
      && w.children[0].text == css
      && w.children[1].children[1].text == InfoText(result.rowCount, result.executionTime)
      && (|w.children| == 3 <==> |result.columns| > 0)
      && (|result.columns| > 0 ==> w.children[2] == TableNode(result))
  {
  }

  /** The table has one header cell per column, named by the column and
      titled by its type, and one row per data row, in order, each with one
      cell per column: null and undefined show "NULL" with class
      `null-value`, any other value shows `String(val)` with no class, so a
      string "NULL" stays distinguishable by its class. */
  lemma TableNodeSpec(result: SqlResultSet)
    ensures var head := TableNode(result).children[0].children[0].children;
            var body := TableNode(result).children[1].children;
            && |head| == |result.columns|
            && (forall i :: 0 <= i < |head| ==>
                  head[i].text == result.columns[i].name && head[i].title == result.columns[i].declared)
            && |body| == |result.rows|
            && (forall j :: 0 <= j < |body| ==>
                  && |body[j].children| == |result.columns|
                  && (forall i :: 0 <= i < |result.columns| ==>
                        var v := Get(result.rows[j], result.columns[i].name);
                        && (body[j].children[i].className == "null-value" <==> IsNullish(v))
                        && body[j].children[i].text == (if IsNullish(v) then "NULL" else Stringify(v))))
  {
  }
}
