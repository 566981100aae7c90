/** The result outputs of the Jupyter kernel (src/jupyterKernel.ts:98-134):
    the cleaned rows as JSON and a text with a meta line above the
    tab-separated grid, or the status line for a statement without
    columns. */
module JupyterKernel {
  import opened Text
  import opened Types
  import opened Rows
  import opened Outputs
  import Controller

  /** "[conn / db] N row(s) returned in Tms", the prefix only with a
      connection label. */
  function Meta(result: SqlResultSet, connLabel: string, dbLabel: string): string
  {
    ContextPrefix(connLabel, dbLabel) + IntToString(result.rowCount) + " row(s) returned in "
      + IntToString(result.executionTime) + "ms"
  }

  /** `resultToOutput(result, connLabel, dbLabel)`. The text item is the meta
      line, an empty line and `renderPlainText(result)`, which is the grid
      `Rows.PlainGrid` without any summary. */
  function ResultToOutput(result: SqlResultSet, connLabel: string, dbLabel: string): CellOutput
  {
    if |result.columns| == 0 then StatusOutput(result, connLabel, dbLabel)
    else
      [ JsonItem("application/json", JsonRows(result.columns, result.rows)),
        TextItem("text/plain", Meta(result, connLabel, dbLabel) + "\n\n" + PlainGrid(result)) ]
  }

  /** Two objects that answer every key alike. */
  ghost predicate SameLookups(a: Row, b: Row)
  {
    forall k :: Get(a, k) == Get(b, k)
  }

  /** `result.rows.map(...)` with the `clean` loop inside: one object per
      row, in row order, each holding exactly what the JSON row holds. */
  method TableData(result: SqlResultSet) returns (data: seq<Row>)
    ensures |data| == |result.rows|
    ensures forall j :: 0 <= j < |data| ==> SameLookups(data[j], JsonRow(result.columns, result.rows[j]))
    ensures forall j :: 0 <= j < |data| ==> Distinct(Keys(data[j]))
    ensures Distinct(Names(result.columns)) ==> data == JsonRows(result.columns, result.rows)
  {
    data := [];
    for j := 0 to |result.rows|
      invariant |data| == j
      invariant forall i :: 0 <= i < j ==> SameLookups(data[i], JsonRow(result.columns, result.rows[i]))
      invariant forall i :: 0 <= i < j ==> Distinct(Keys(data[i]))
      invariant Distinct(Names(result.columns)) ==> forall i :: 0 <= i < j ==> data[i] == JsonRow(result.columns, result.rows[i])
    {
      var clean := CleanRow(result.columns, result.rows[j]);
      data := data + [clean];
    }
    if Distinct(Names(result.columns)) {
      assert forall i :: 0 <= i < |data| ==> data[i] == JsonRows(result.columns, result.rows)[i];
    }
  }

  /** A result without line breaks in its labels, column names and
      values, so that each output line is one line of text. */
  predicate OneLineEach(result: SqlResultSet, connLabel: string, dbLabel: string)
  {
    '\n' !in connLabel && '\n' !in dbLabel && GridAvoids(result, '\n')
  }

  /** A statement without columns gives the status item; any other result
      gives exactly two items, the JSON rows first and then the text: the
      meta line, an empty line and the grid. When the labels hold no line
      break and no name or value does, the text's lines are the meta line,
      an empty line, the header line and one line per row. */
  lemma ResultToOutputSpec(result: SqlResultSet, connLabel: string, dbLabel: string)
    ensures var out := ResultToOutput(result, connLabel, dbLabel);
      && (|result.columns| == 0 ==> out == StatusOutput(result, connLabel, dbLabel))
      && (|result.columns| > 0 ==>
            && |out| == 2
            && out[0] == JsonItem("application/json", JsonRows(result.columns, result.rows))
            && out[1] == TextItem("text/plain", Meta(result, connLabel, dbLabel) + "\n\n" + PlainGrid(result))
            && (OneLineEach(result, connLabel, dbLabel) ==>
                  Split(out[1].text, '\n') == [Meta(result, connLabel, dbLabel), ""] + GridLines(result)))
  {
    if |result.columns| > 0 && OneLineEach(result, connLabel, dbLabel) {
      MetaHasNoBreak(result, connLabel, dbLabel);
      PlainGridReadsBack(result);
      MetaThenLines(Meta(result, connLabel, dbLabel), PlainGrid(result));
    }
  }

  /** The meta line is one line when the labels are. */
  lemma MetaHasNoBreak(result: SqlResultSet, connLabel: string, dbLabel: string)
    requires '\n' !in connLabel && '\n' !in dbLabel
    ensures '\n' !in Meta(result, connLabel, dbLabel)
  {
    IntToStringChars(result.rowCount, '\n');
    IntToStringChars(result.executionTime, '\n');
    assert '\n' !in ContextPrefix(connLabel, dbLabel);
    assert '\n' !in " row(s) returned in " && '\n' !in "ms";
  }

  /** A line, an empty line and then a text split into the line, the empty
      line and the text's own lines. */
  lemma MetaThenLines(meta: string, grid: string)
    requires '\n' !in meta
    ensures Split(meta + "\n\n" + grid, '\n') == [meta, ""] + Split(grid, '\n')
  {
    assert meta + "\n\n" + grid == meta + ['\n'] + ("" + ['\n'] + grid);
    SplitAfter(meta, '\n', "" + ['\n'] + grid);
    SplitAfter("", '\n', grid);
  }

  /** Both kernels answer a statement without columns with the same single
      status item, whatever the labels and values. For a result with
      columns both print the same grid lines when nothing holds a line
      break: the notebook controller after them an empty line and its
      summary, the Jupyter kernel before them its meta line and an empty
      line. */
  lemma KernelsAgree(result: SqlResultSet, connLabel: string, dbLabel: string, css: string)
    ensures |result.columns| == 0 ==>
      ResultToOutput(result, connLabel, dbLabel) == Controller.ResultToOutput(result, connLabel, dbLabel, css)
    ensures |result.columns| > 0 && OneLineEach(result, connLabel, dbLabel) ==>
      var lines := GridLines(result);
      && Split(ResultToOutput(result, connLabel, dbLabel)[1].text, '\n')
           == [Meta(result, connLabel, dbLabel), ""] + lines
      && Split(Controller.ResultToOutput(result, connLabel, dbLabel, css)[2].text, '\n')
           == lines + ["", Controller.PlainSummary(result.rowCount, result.executionTime)]
  {
    ResultToOutputSpec(result, connLabel, dbLabel);
    if |result.columns| > 0 && OneLineEach(result, connLabel, dbLabel) {
      Controller.PlainTextLines(result);
    }
  }
}
