/** Row shapes shared by several outputs: the JSON view's re-keyed rows
    (src/resultRenderer.ts:28-38 and src/jupyterKernel.ts:109-115 build them
    the same way) and the tab-separated grid that both notebook kernels print
    (src/controller.ts:150-156 and src/jupyterKernel.ts:128-134). */
module Rows {
  import opened Text
  import opened Types

  // ---------------------------------------------------------------------
  // object lookup
  // ---------------------------------------------------------------------

  /** In an object with distinct keys, looking up the i-th key finds the
      i-th value. */
  lemma {:induction false} GetAt(row: Row, i: nat)
    requires Distinct(Keys(row))
    requires i < |row|
    ensures Get(row, row[i].key) == row[i].value
    decreases |row|
  {
    if i > 0 {
      assert Keys(row)[0] != Keys(row)[i];
      assert Keys(row[1..]) == Keys(row)[1..];
      GetAt(row[1..], i - 1);
    }
  }

  /** A key that no property carries reads as `undefined`. */
  lemma GetMissing(row: Row, key: string)
    requires key !in Keys(row)
    ensures Get(row, key) == Undefined
  {
    forall i | 0 <= i < |row| ensures row[i].key != key {
      assert Keys(row)[i] == row[i].key;
    }
  }

  /** `obj[k] = v`: an existing property keeps its place and takes the new
      value, a new one goes last. */
  function Assign(obj: Row, k: string, v: JsVal): Row
    decreases |obj|
  {
    if |obj| == 0 then [Field(k, v)]
    else if obj[0].key == k then [Field(k, v)] + obj[1..]
    else [obj[0]] + Assign(obj[1..], k, v)
  }

  lemma {:induction false} GetAssign(obj: Row, k: string, v: JsVal, key: string)
    ensures Get(Assign(obj, k, v), key) == if key == k then v else Get(obj, key)
    decreases |obj|
  {
    if |obj| > 0 && obj[0].key != k {
      GetAssign(obj[1..], k, v, key);
      assert Assign(obj, k, v)[1..] == Assign(obj[1..], k, v);
    }
  }

  lemma {:induction false} KeysAssign(obj: Row, k: string, v: JsVal)
    ensures k in Keys(obj) ==> Keys(Assign(obj, k, v)) == Keys(obj)
    ensures k !in Keys(obj) ==> Assign(obj, k, v) == obj + [Field(k, v)]
    decreases |obj|
  {
    if |obj| > 0 {
      assert Keys(obj[1..]) == Keys(obj)[1..];
      if obj[0].key != k {
        KeysAssign(obj[1..], k, v);
        assert k in Keys(obj) ==> k in Keys(obj[1..]);
        if k in Keys(obj) {
          assert Keys(Assign(obj, k, v)) == [obj[0].key] + Keys(Assign(obj[1..], k, v));
          assert Keys(obj) == [obj[0].key] + Keys(obj[1..]);
        } else {
          assert Assign(obj, k, v) == [obj[0]] + (obj[1..] + [Field(k, v)]);
          assert [obj[0]] + (obj[1..] + [Field(k, v)]) == obj + [Field(k, v)];
        }
      } else {
        assert Keys(Assign(obj, k, v)) == [k] + Keys(obj[1..]);
        assert Keys(obj) == [k] + Keys(obj[1..]);
      }
    }
  }

  // ---------------------------------------------------------------------
  // JSON rows: `clean[col.name] = row[col.name] ?? null`
  // ---------------------------------------------------------------------

  /** The object the JSON views build for one row. */
  function JsonRow(columns: seq<ColumnInfo>, row: Row): Row
  {
    seq(|columns|, i requires 0 <= i < |columns| => Field(columns[i].name, OrElse(Get(row, columns[i].name), Null)))
  }

  function JsonRows(columns: seq<ColumnInfo>, rows: seq<Row>): seq<Row>
  {
    seq(|rows|, j requires 0 <= j < |rows| => JsonRow(columns, rows[j]))
  }

  /** A JSON row has exactly the column names as keys, in column order, and
      never holds `undefined`: a missing or undefined value becomes `null`,
      every other value is kept. Looking a column up in it gives the row's
      value, or `null` where that was missing; any other key is absent. */
  lemma JsonRowSpec(columns: seq<ColumnInfo>, row: Row, key: string)
    requires Distinct(Names(columns))
    ensures var r := JsonRow(columns, row);
      && Keys(r) == Names(columns)
      && (forall i :: 0 <= i < |r| ==> !r[i].value.Undefined?)
      && (key in Names(columns) ==> Get(r, key) == (if IsNullish(Get(row, key)) then Null else Get(row, key)))
      && (key !in Names(columns) ==> Get(r, key) == Undefined)
  {
    var r := JsonRow(columns, row);
    assert Keys(r) == Names(columns);
    if key in Names(columns) {
      var i :| 0 <= i < |columns| && Names(columns)[i] == key;
      GetAt(r, i);
    } else {
      GetMissing(r, key);
    }
  }

  /** Looking a key up in a JSON row finds the row's value under that key,
      `null` where it was missing or undefined, when the key names a
      column, and nothing otherwise; this holds even when column names
      repeat, since equal names select equal values. */
  lemma {:induction false} JsonRowGet(columns: seq<ColumnInfo>, row: Row, key: string)
    ensures Get(JsonRow(columns, row), key)
         == if key in Names(columns) then OrElse(Get(row, key), Null) else Undefined
    decreases |columns|
  {
    if |columns| > 0 {
      JsonRowGet(columns[1..], row, key);
      assert JsonRow(columns, row)[1..] == JsonRow(columns[1..], row);
      assert Names(columns) == [columns[0].name] + Names(columns[1..]);
    }
  }

  /** What `clean` holds once the columns `done` have been assigned. */
  ghost predicate Cleaned(clean: Row, done: seq<ColumnInfo>, row: Row)
  {
    && Distinct(Keys(clean))
    && (forall k :: k in Keys(clean) <==> k in Names(done))
    && (forall k :: Get(clean, k) == if k in Names(done) then OrElse(Get(row, k), Null) else Undefined)
    && (Distinct(Names(done)) ==> clean == JsonRow(done, row))
  }

  /** One more assignment keeps `Cleaned` for one more column. */
  lemma CleanStep(clean: Row, done: seq<ColumnInfo>, c: ColumnInfo, row: Row)
    requires Cleaned(clean, done, row)
    ensures Cleaned(Assign(clean, c.name, OrElse(Get(row, c.name), Null)), done + [c], row)
  {
    var value := OrElse(Get(row, c.name), Null);
    assert Names(done + [c]) == Names(done) + [c.name];
    CleanStepKeys(clean, c.name, value, Names(done));
    CleanStepGet(clean, done, c, row);
    if Distinct(Names(done + [c])) {
      assert Names(done) == Names(done + [c])[..|done|];
      assert c.name !in Names(done);
      KeysAssign(clean, c.name, value);
      assert JsonRow(done + [c], row) == JsonRow(done, row) + [Field(c.name, value)];
    }
  }

  lemma CleanStepKeys(clean: Row, k: string, v: JsVal, names: seq<string>)
    requires Distinct(Keys(clean))
    requires forall x :: x in Keys(clean) <==> x in names
    ensures Distinct(Keys(Assign(clean, k, v)))
    ensures forall x :: x in Keys(Assign(clean, k, v)) <==> x in names + [k]
  {
    KeysAssign(clean, k, v);
    if k !in Keys(clean) {
      assert Keys(clean + [Field(k, v)]) == Keys(clean) + [k];
    }
  }

  lemma CleanStepGet(clean: Row, done: seq<ColumnInfo>, c: ColumnInfo, row: Row)
    requires forall k :: Get(clean, k) == if k in Names(done) then OrElse(Get(row, k), Null) else Undefined
    ensures forall k ::
              Get(Assign(clean, c.name, OrElse(Get(row, c.name), Null)), k)
              == if k in Names(done + [c]) then OrElse(Get(row, k), Null) else Undefined
  {
    assert Names(done + [c]) == Names(done) + [c.name];
    forall k ensures Get(Assign(clean, c.name, OrElse(Get(row, c.name), Null)), k)
      == if k in Names(done + [c]) then OrElse(Get(row, k), Null) else Undefined
    {
      GetAssign(clean, c.name, OrElse(Get(row, c.name), Null), k);
    }
  }

  /** The loop that fills `clean` one column at a time. The object it
      builds has each column name once, and holds each column's value,
      `null` for a missing or undefined one; with distinct column names it
      is exactly the JSON row. */
  method CleanRow(columns: seq<ColumnInfo>, row: Row) returns (clean: Row)
    ensures Distinct(Keys(clean))
    ensures forall k :: k in Keys(clean) <==> k in Names(columns)
    ensures forall k :: Get(clean, k) == Get(JsonRow(columns, row), k)
    ensures Distinct(Names(columns)) ==> clean == JsonRow(columns, row)
  {
    clean := [];
    for i := 0 to |columns|
      invariant Cleaned(clean, columns[..i], row)
    {
      CleanStep(clean, columns[..i], columns[i], row);
      assert columns[..i + 1] == columns[..i] + [columns[i]];
      clean := Assign(clean, columns[i].name, OrElse(Get(row, columns[i].name), Null));
    }
    assert columns[..|columns|] == columns;
    forall k ensures Get(clean, k) == Get(JsonRow(columns, row), k) {
      JsonRowGet(columns, row, k);
    }
  }

  // ---------------------------------------------------------------------
  // tab-separated grid
  // ---------------------------------------------------------------------

  /** `String(row[col.name] ?? 'NULL')`. */
  function PlainCell(v: JsVal): string
  {
    Stringify(OrElse(v, Str("NULL")))
  }

  function PlainCells(columns: seq<ColumnInfo>, row: Row): seq<string>
  {
    seq(|columns|, i requires 0 <= i < |columns| => PlainCell(Get(row, columns[i].name)))
  }

  function HeaderLine(columns: seq<ColumnInfo>): string
  {
    Join(Names(columns), "\t")
  }

  function RowLines(result: SqlResultSet): seq<string>
  {
    seq(|result.rows|, j requires 0 <= j < |result.rows| => Join(PlainCells(result.columns, result.rows[j]), "\t"))
  }

  /** `${header}\n${rows}`: the header line, a newline, and the row lines
      joined by newlines. */
  function PlainGrid(result: SqlResultSet): string
  {
    HeaderLine(result.columns) + "\n" + Join(RowLines(result), "\n")
  }

  /** The lines of the grid: the header, then one line per row; with no
      rows the empty join still leaves one empty line. */
  function GridLines(result: SqlResultSet): (lines: seq<string>)
    ensures |lines| == 1 + (if |result.rows| == 0 then 1 else |result.rows|)
  {
    [HeaderLine(result.columns)] + (if |result.rows| == 0 then [""] else RowLines(result))
  }

  lemma {:induction false} JoinAppend(xs: seq<string>, ys: seq<string>, sep: string)
    requires |xs| >= 1 && |ys| >= 1
    ensures Join(xs + ys, sep) == Join(xs, sep) + sep + Join(ys, sep)
    decreases |xs|
  {
    if |xs| == 1 {
      assert (xs + ys)[1..] == ys;
    } else {
      assert (xs + ys)[1..] == xs[1..] + ys;
      JoinAppend(xs[1..], ys, sep);
    }
  }

  lemma PlainGridIsJoin(result: SqlResultSet)
    ensures PlainGrid(result) == Join(GridLines(result), "\n")
  {
    var h := [HeaderLine(result.columns)];
    if |result.rows| == 0 {
      JoinAppend(h, [""], "\n");
    } else {
      JoinAppend(h, RowLines(result), "\n");
    }
  }

  /** No column name and no cell text contains `c`. */
  predicate GridAvoids(result: SqlResultSet, c: char)
  {
    && (forall i :: 0 <= i < |result.columns| ==> c !in result.columns[i].name)
    && (forall j, i :: 0 <= j < |result.rows| && 0 <= i < |result.columns| ==>
          c !in PlainCell(Get(result.rows[j], result.columns[i].name)))
  }

  lemma GridLinesAvoid(result: SqlResultSet, c: char)
    requires GridAvoids(result, c)
    requires c != '\t'
    ensures forall k :: 0 <= k < |GridLines(result)| ==> c !in GridLines(result)[k]
  {
    JoinAvoids(Names(result.columns), "\t", c);
    forall j | 0 <= j < |result.rows| ensures c !in RowLines(result)[j] {
      JoinAvoids(PlainCells(result.columns, result.rows[j]), "\t", c);
    }
  }

  /** When no name or value contains a line break, splitting the grid at
      line breaks gives back the header line and exactly one line per row,
      in row order; when no name or value contains a tab either, splitting a
      row line at tabs gives back that row's cells, one per column. */
  lemma PlainGridReadsBack(result: SqlResultSet)
    requires GridAvoids(result, '\n')
    ensures Split(PlainGrid(result), '\n') == GridLines(result)
    ensures |result.columns| >= 1 && GridAvoids(result, '\t') ==>
      Split(HeaderLine(result.columns), '\t') == Names(result.columns)
      && forall j :: 0 <= j < |result.rows| ==>
           Split(RowLines(result)[j], '\t') == PlainCells(result.columns, result.rows[j])
  {
    PlainGridIsJoin(result);
    GridLinesAvoid(result, '\n');
    SplitJoin(GridLines(result), '\n');
    if |result.columns| >= 1 && GridAvoids(result, '\t') {
      SplitJoin(Names(result.columns), '\t');
      forall j | 0 <= j < |result.rows|
        ensures Split(RowLines(result)[j], '\t') == PlainCells(result.columns, result.rows[j])
      {
        SplitJoin(PlainCells(result.columns, result.rows[j]), '\t');
      }
    }
  }
}
