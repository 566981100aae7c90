/** What a notebook kernel hands back for a cell, and the status line both
    kernels print for a statement that returned no columns
    (src/controller.ts:99-107 and src/jupyterKernel.ts:99-107 are the same
    code). */
module Outputs {
  import opened Text
  import opened Types

  /** One item of a cell output: text with its MIME type, rows or a whole
      result set in JSON form (the serialised text itself is not modelled:
      the item carries the value `JSON.stringify` is given), or an error. */
  datatype OutputItem =
    | TextItem(mime: string, text: string)
    | JsonItem(mime: string, rows: seq<Row>)
    | ResultItem(mime: string, result: SqlResultSet)
    | ErrorItem(message: string)

  /** A `NotebookCellOutput`: its items, in order. */
  type CellOutput = seq<OutputItem>

  const StatusHead: string := "Query executed successfully. "

  /** "Query executed successfully. N row(s) affected. (Tms)". */
  function StatusText(rowCount: int, executionTime: int): string
  {
    StatusHead + IntToString(rowCount) + " row(s) affected. (" + IntToString(executionTime) + "ms)"
  }

  /** `connLabel ? `[${connLabel} / ${dbLabel}] ` : ''`. */
  function ContextPrefix(connLabel: string, dbLabel: string): string
  {
    if connLabel != "" then "[" + connLabel + " / " + dbLabel + "] " else ""
  }

  /** The single text item of a result without columns. */
  function StatusOutput(result: SqlResultSet, connLabel: string, dbLabel: string): CellOutput
  {
    [TextItem("text/plain", ContextPrefix(connLabel, dbLabel) + StatusText(result.rowCount, result.executionTime))]
  }

  /** Two texts of the shape `head + A + s1 + B + s2` that agree, where
      `s1` starts with a character `A` lacks and `s2` one `B` lacks, agree
      on `A` and on `B`. */
  lemma {:induction false} SameFields(head: string, A: string, s1: string, B: string, s2: string, C: string, D: string, c1: char, c2: char)
    requires |s1| > 0 && s1[0] == c1 && c1 !in A && c1 !in C
    requires |s2| > 0 && s2[0] == c2 && c2 !in B && c2 !in D
    requires head + A + s1 + B + s2 == head + C + s1 + D + s2
    ensures A == C && B == D
  {
    var x, y := A + (s1 + B + s2), C + (s1 + D + s2);
    assert head + A + s1 + B + s2 == head + x;
    assert head + C + s1 + D + s2 == head + y;
    assert x == (head + x)[|head|..];
    assert y == (head + y)[|head|..];
    SplitAtFirst(A, s1 + B + s2, C, s1 + D + s2, c1);
    assert B + s2 == (s1 + B + s2)[|s1|..];
    assert D + s2 == (s1 + D + s2)[|s1|..];
    SplitAtFirst(B, s2, D, s2, c2);
  }

  /** The status line determines the row count and the execution time it
      reports. */
  lemma StatusTextInjective(a: int, b: int, c: int, d: int)
    requires StatusText(a, b) == StatusText(c, d)
    ensures a == c && b == d
  {
    IntToStringChars(a, ' ');
    IntToStringChars(c, ' ');
    IntToStringChars(b, 'm');
    IntToStringChars(d, 'm');
    SameFields(StatusHead, IntToString(a), " row(s) affected. (", IntToString(b), "ms)",
               IntToString(c), IntToString(d), ' ', 'm');
    IntToStringInjective(a, c);
    IntToStringInjective(b, d);
  }

  /** A statement without columns gives one plain-text item: the status
      line, preceded by "[conn / db] " exactly when the connection label is
      non-empty, and under the same labels the counts can be read back from
      it. */
  lemma StatusOutputSpec(result: SqlResultSet, connLabel: string, dbLabel: string)
    ensures var out := StatusOutput(result, connLabel, dbLabel);
      && |out| == 1 && out[0].TextItem? && out[0].mime == "text/plain"
      && out[0].text == (if connLabel == "" then "" else "[" + connLabel + " / " + dbLabel + "] ")
                          + StatusText(result.rowCount, result.executionTime)
    ensures forall other: SqlResultSet {:trigger StatusOutput(other, connLabel, dbLabel)} ::
      StatusOutput(other, connLabel, dbLabel) == StatusOutput(result, connLabel, dbLabel) ==>
        other.rowCount == result.rowCount && other.executionTime == result.executionTime
  {
    var p := ContextPrefix(connLabel, dbLabel);
    forall other: SqlResultSet | StatusOutput(other, connLabel, dbLabel) == StatusOutput(result, connLabel, dbLabel)
      ensures other.rowCount == result.rowCount && other.executionTime == result.executionTime
    {
      var a := StatusText(other.rowCount, other.executionTime);
      var b := StatusText(result.rowCount, result.executionTime);
      assert p + a == p + b;
      assert a == (p + a)[|p|..] && b == (p + b)[|p|..];
      StatusTextInjective(other.rowCount, other.executionTime, result.rowCount, result.executionTime);
    }
  }
}
