/** `QueryExecutor.execute` after the driver call (src/queryExecutor.ts:
    16-51): the driver's recordsets become `SqlResultSet`s. Opening the pool,
    sending the query and reading the clock are outside the model; the
    driver's answer and the elapsed time are inputs. */
module QueryExecutor {
  import opened Wrappers
  import opened Types
  import opened Rows

  /** A column as the driver describes it: its name (a key of
      `recordset.columns`) and the declaration of its type, which may be
      missing. */
  datatype DriverColumn = DriverColumn(name: string, declaration: Option<string>)

  /** One recordset: its columns in driver order and its rows. */
  datatype Recordset = Recordset(columns: seq<DriverColumn>, rows: seq<Row>)

  /** What `request.query` resolves to. */
  datatype QueryResult = QueryResult(recordsets: seq<Recordset>, rowsAffected: seq<int>)

  /** `{ name, type: col.type?.declaration ?? 'unknown' }`. */
  function ColumnOf(c: DriverColumn): ColumnInfo
  {
    ColumnInfo(c.name, c.declaration.GetOr("unknown"))
  }

  function ColumnsOf(rs: Recordset): seq<ColumnInfo>
  {
    seq(|rs.columns|, k requires 0 <= k < |rs.columns| => ColumnOf(rs.columns[k]))
  }

  /** `rowsAffected.reduce((a, b) => a + b, 0)`, folded from the left. */
  function SumFrom(acc: int, xs: seq<int>): int
    decreases |xs|
  {
    if |xs| == 0 then acc else SumFrom(acc + xs[0], xs[1..])
  }

  /** The row object built key by key from the column list. */
  function Rekey(columns: seq<ColumnInfo>, row: Row): Row
  {
    seq(|columns|, i requires 0 <= i < |columns| => Field(columns[i].name, Get(row, columns[i].name)))
  }

  /** The result set made from one recordset. */
  function ResultSetOf(rs: Recordset, elapsed: int): SqlResultSet
  {
    var columns := ColumnsOf(rs);
    SqlResultSet(columns, seq(|rs.rows|, j requires 0 <= j < |rs.rows| => Rekey(columns, rs.rows[j])), |rs.rows|, elapsed)
  }

  /** The list `execute` returns, as a value. */
  function Normalize(result: QueryResult, elapsed: int): seq<SqlResultSet>
  {
    if |result.recordsets| == 0 then [SqlResultSet([], [], SumFrom(0, result.rowsAffected), elapsed)]
    else seq(|result.recordsets|, i requires 0 <= i < |result.recordsets| => ResultSetOf(result.recordsets[i], elapsed))
  }

  /** The inner loop: `clean[col.name] = row[col.name]` for each column. */
  method RekeyRow(columns: seq<ColumnInfo>, row: Row) returns (clean: Row)
    ensures clean == Rekey(columns, row)
  {
    clean := [];
    for i := 0 to |columns|
      invariant clean == Rekey(columns[..i], row)
    {
      clean := clean + [Field(columns[i].name, Get(row, columns[i].name))];
    }
    assert columns[..|columns|] == columns;
  }

  /** The recordset loop, then the fallback result when no recordset came
      back. */
  method Execute(result: QueryResult, elapsed: int) returns (resultSets: seq<SqlResultSet>)
    ensures resultSets == Normalize(result, elapsed)
  {
    resultSets := [];
    for r := 0 to |result.recordsets|
      invariant resultSets == Normalize(QueryResult(result.recordsets[..r], result.rowsAffected), elapsed)[..r]
    {
      var recordset := result.recordsets[r];
      var columns := ColumnsOf(recordset);
      var rows: seq<Row> := [];
      for j := 0 to |recordset.rows|
        invariant rows == seq(j, k requires 0 <= k < j => Rekey(columns, recordset.rows[k]))
      {
        var clean := RekeyRow(columns, recordset.rows[j]);
        rows := rows + [clean];
      }
      resultSets := resultSets + [SqlResultSet(columns, rows, |recordset.rows|, elapsed)];
      assert resultSets[r] == ResultSetOf(recordset, elapsed);
    }
    if |resultSets| == 0 {
      resultSets := resultSets + [SqlResultSet([], [], SumFrom(0, result.rowsAffected), elapsed)];
    }
  }

  /** Every row of a produced result set has exactly the column names as
      keys, in column order; a column the driver row lacks reads `undefined`
      (not `null`), a driver key that is not a column is dropped. */
  lemma RekeySpec(columns: seq<ColumnInfo>, row: Row, key: string)
    requires Distinct(Names(columns))
    ensures Keys(Rekey(columns, row)) == Names(columns)
    ensures key in Names(columns) ==> Get(Rekey(columns, row), key) == Get(row, key)
    ensures key !in Names(columns) ==> Get(Rekey(columns, row), key) == Undefined
  {
    var r := Rekey(columns, row);
    assert Keys(r) == Names(columns);
    if key in Names(columns) {
      var i :| 0 <= i < |columns| && Names(columns)[i] == key;
      GetAt(r, i);
    } else {
      GetMissing(r, key);
    }
  }

  /** One result set per recordset, in driver order, and never none: with
      no recordset there is exactly one result set, with no columns and no
      rows, whose row count is the sum of the affected-row counts. Every result
      set carries the same execution time; a recordset's result set has its
      columns (type `unknown` where the declaration is missing), one row per
      driver row, and a row count equal to its number of rows. */
  lemma NormalizeSpec(result: QueryResult, elapsed: int)
    ensures var sets := Normalize(result, elapsed);
      && |sets| >= 1
      && (|result.recordsets| == 0 ==>
            sets == [SqlResultSet([], [], SumFrom(0, result.rowsAffected), elapsed)])
      && (|result.recordsets| > 0 ==> |sets| == |result.recordsets|)
      && (forall i :: 0 <= i < |sets| ==> sets[i].executionTime == elapsed)
      && (forall i :: 0 <= i < |result.recordsets| ==>
            && |sets[i].columns| == |result.recordsets[i].columns|
            && (forall k :: 0 <= k < |sets[i].columns| ==>
                  sets[i].columns[k].name == result.recordsets[i].columns[k].name
                  && sets[i].columns[k].declared ==
                       (if result.recordsets[i].columns[k].declaration.Some?
                        then result.recordsets[i].columns[k].declaration.value else "unknown"))
            && |sets[i].rows| == sets[i].rowCount == |result.recordsets[i].rows|
            && (forall j :: 0 <= j < |sets[i].rows| ==>
                  sets[i].rows[j] == Rekey(sets[i].columns, result.recordsets[i].rows[j])))
  {
  }

  /** The fold from the left is the ordinary sum. */
  lemma {:induction false} SumFromShift(acc: int, xs: seq<int>)
    ensures SumFrom(acc, xs) == acc + SumFrom(0, xs)
    decreases |xs|
  {
    if |xs| > 0 {
      SumFromShift(acc + xs[0], xs[1..]);
      SumFromShift(xs[0], xs[1..]);
    }
  }

  /** The fallback row count adds the per-statement counts one statement at
      a time: appending a statement adds its count. */
  lemma {:induction false} SumFromAppend(xs: seq<int>, x: int)
    ensures SumFrom(0, xs + [x]) == SumFrom(0, xs) + x
    decreases |xs|
  {
    if |xs| == 0 {
      assert xs + [x] == [x];
      assert [x][1..] == [];
    } else {
      assert (xs + [x])[1..] == xs[1..] + [x];
      SumFromShift(xs[0], xs[1..] + [x]);
      SumFromShift(xs[0], xs[1..]);
      SumFromAppend(xs[1..], x);
    }
  }
}
