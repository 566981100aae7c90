/** Running notebook cells (src/controller.ts:40-95 and
    src/jupyterKernel.ts:41-96, the same logic with different error texts
    and result outputs). The registry is read, the cell's text is trimmed,
    the query is sent and the execution object is driven through start,
    output replacement and end. The database server is a parameter: a
    function from the queries it has already received and the new query to
    its answer, so that its answers may depend on what ran before. */
module CellExecution {
  import opened Wrappers
  import opened Text
  import opened Types
  import opened Outputs
  import QueryExecutor
  import ConnectionManager
  import Controller
  import JupyterKernel

  /** Which notebook kernel runs the cell. */
  datatype Kernel = Notebook | Jupyter

  /** The quoted command name both messages point to. */
  const SelectCommand: string := "\"SQL Notebook: Select Connection\""

  /** The error a run without an active connection reports. */
  function NoConnectionMessage(k: Kernel): string
  {
    match k
    case Notebook =>
      "No active connection. Use " + SelectCommand + " or add one from the sidebar."
    case Jupyter =>
      "No active SQL connection. Use " + SelectCommand + " from the command palette or the sidebar."
  }

  /** What the registry tells a cell run: the active id, the active
      profile and the active database. */
  datatype RegistryView = RegistryView(
    connectionId: Option<string>,
    profile: Option<ConnectionProfile>,
    activeDb: Option<string>)

  /** The decision taken before anything is sent. */
  datatype Plan = NoConnection | NothingToRun | RunQuery(connectionId: string, query: string)

  /** The `USE` prefix that selects the active database. */
  function UsePrefix(db: string): string
  {
    "USE [" + db + "];\n"
  }

  /** No (or an empty) active id: no connection. An all-whitespace cell:
      nothing to run. Otherwise the trimmed text, behind a `USE` prefix
      when an active database is set. */
  function PlanCell(view: RegistryView, text: string): Plan
  {
    if !Truthy(view.connectionId) then NoConnection
    else
      var raw := Trim(text);
      if raw == "" then NothingToRun
      else if Truthy(view.activeDb) then RunQuery(view.connectionId.value, UsePrefix(view.activeDb.value) + raw)
      else RunQuery(view.connectionId.value, raw)
  }

  /** A cell runs exactly when there is an active connection and its text
      is not all whitespace. The query sent ends with the trimmed cell text,
      which is non-empty and has only whitespace around it in the cell; it
      is preceded by the `USE` line exactly when an active database is
      set, and that line is then the query's first line. */
  lemma PlanCellSpec(view: RegistryView, text: string)
    ensures PlanCell(view, text).NoConnection? <==> !Truthy(view.connectionId)
    ensures PlanCell(view, text).NothingToRun? <==>
      Truthy(view.connectionId) && forall i :: 0 <= i < |text| ==> IsJsWhitespace(text[i])
    ensures PlanCell(view, text).RunQuery? ==>
      var q := PlanCell(view, text).query;
      var raw := Trim(text);
      var p := if Truthy(view.activeDb) then UsePrefix(view.activeDb.value) else "";
      && PlanCell(view, text).connectionId == view.connectionId.value
      && raw != "" && !IsJsWhitespace(raw[0]) && !IsJsWhitespace(raw[|raw| - 1])
      && |p| <= |q| && q[..|p|] == p && q[|p|..] == raw
      && (Truthy(view.activeDb) && '\n' !in view.activeDb.value ==>
            Split(q, '\n')[0] == "USE [" + view.activeDb.value + "];")
  {
    TrimSpec(text);
    var plan := PlanCell(view, text);
    if plan.RunQuery? && Truthy(view.activeDb) {
      var db := view.activeDb.value;
      var raw := Trim(text);
      var p := UsePrefix(db);
      assert plan.query == p + raw;
      assert plan.query[..|p|] == p;
      assert plan.query[|p|..] == raw;
      if '\n' !in db {
        var line := "USE [" + db + "];";
        assert '\n' !in line;
        assert plan.query == line + ['\n'] + raw;
        SplitAfter(line, '\n', raw);
      }
    }
  }

  /** A result set from the server, or the message of what it threw. */
  datatype Answer = Answer(result: QueryExecutor.QueryResult, elapsed: int)

  type Server = (seq<string>, string) -> Result<Answer>

  /** `${name} (${server})`, or "" without a profile. */
  function ConnLabel(profile: Option<ConnectionProfile>): string
  {
    match profile
    case Some(p) => p.name + " (" + p.server + ")"
    case None => ""
  }

  /** `activeDb || connProfile?.database || ''`. */
  function DbLabel(view: RegistryView): string
  {
    if Truthy(view.activeDb) then view.activeDb.value
    else if view.profile.Some? then view.profile.value.database
    else ""
  }

  function ResultOutput(k: Kernel, rs: SqlResultSet, connLabel: string, dbLabel: string, css: string): CellOutput
  {
    match k
    case Notebook => Controller.ResultToOutput(rs, connLabel, dbLabel, css)
    case Jupyter => JupyterKernel.ResultToOutput(rs, connLabel, dbLabel)
  }

  /** `results.map(rs => this.resultToOutput(rs, connLabel, dbLabel))`. */
  function ResultOutputs(k: Kernel, sets: seq<SqlResultSet>, connLabel: string, dbLabel: string, css: string): (outs: seq<CellOutput>)
    ensures |outs| == |sets|
  {
    seq(|sets|, i requires 0 <= i < |sets| => ResultOutput(k, sets[i], connLabel, dbLabel, css))
  }

  /** How one run ends: the outputs that replaced the cell's outputs, the
      success flag `end` was given, and the query sent, if any. */
  datatype Outcome = Outcome(outputs: seq<CellOutput>, success: bool, sent: Option<string>)

  /** What `executeCell` leaves behind, given the queries the server has
      already received. */
  function CellOutcome(k: Kernel, view: RegistryView, text: string, history: seq<string>, server: Server, css: string): Outcome
  {
    match PlanCell(view, text)
    case NoConnection => Outcome([[ErrorItem(NoConnectionMessage(k))]], false, None)
    case NothingToRun => Outcome([], true, None)
    case RunQuery(_, q) => RunOutcome(k, view, q, server(history, q), css)
  }

  /** The end of a run whose query `q` got `answer`. */
  function RunOutcome(k: Kernel, view: RegistryView, q: string, answer: Result<Answer>, css: string): Outcome
  {
    match answer
    case Err(message) => Outcome([[ErrorItem(message)]], false, Some(q))
    case Ok(a) =>
      Outcome(ResultOutputs(k, QueryExecutor.Normalize(a.result, a.elapsed), ConnLabel(view.profile), DbLabel(view), css),
              true, Some(q))
  }

  /** Without a connection the run fails with the kernel's single error and
      sends nothing; an empty cell succeeds with no output and sends
      nothing; a query the server rejects fails with a single error carrying
      the server's message; an answered query succeeds with one output per
      result set, and there is always at least one. */
  lemma CellOutcomeSpec(k: Kernel, view: RegistryView, text: string, history: seq<string>, server: Server, css: string)
    ensures var o := CellOutcome(k, view, text, history, server, css);
      && (o.sent.None? <==> !PlanCell(view, text).RunQuery?)
      && (!Truthy(view.connectionId) ==> o == Outcome([[ErrorItem(NoConnectionMessage(k))]], false, None))
      && (PlanCell(view, text).NothingToRun? ==> o.outputs == [] && o.success)
      && (o.sent.Some? ==>
            && o.sent.value == PlanCell(view, text).query
            && (server(history, o.sent.value).Err? ==>
                  !o.success && o.outputs == [[ErrorItem(server(history, o.sent.value).message)]])
            && (server(history, o.sent.value).Ok? ==>
                  o.success && |o.outputs| >= 1
                  && (|server(history, o.sent.value).value.result.recordsets| > 0 ==>
                        |o.outputs| == |server(history, o.sent.value).value.result.recordsets|)))
  {
    match PlanCell(view, text)
    case RunQuery(_, q) =>
      if server(history, q).Ok? {
        var a := server(history, q).value;
        QueryExecutor.NormalizeSpec(a.result, a.elapsed);
      }
    case _ =>
  }

  /** The effect of `NotebookCellExecution` on its cell. */
  class Execution {
    var started: bool
    var outputs: seq<CellOutput>
    var ended: bool
    var success: bool

    constructor()
      ensures !started && !ended && outputs == []
    {
      started := false;
      outputs := [];
      ended := false;
      success := false;
    }

    method Start()
      requires !started
      modifies this`started
      ensures started
    {
      started := true;
    }

    method ReplaceOutput(outs: seq<CellOutput>)
      requires started && !ended
      modifies this`outputs
      ensures outputs == outs
    {
      outputs := outs;
    }

    method End(ok: bool)
      requires started && !ended
      modifies this`ended, this`success
      ensures ended && success == ok
    {
      ended := true;
      success := ok;
    }
  }

  /** What the registry answers `executeCell`. */
  function ViewOf(cm: ConnectionManager.ConnectionManager): RegistryView
    reads cm
  {
    RegistryView(cm.activeConnectionId, cm.ActiveConnection(), cm.ActiveDatabase())
  }

  /** `executeCell(cell)`: drives a new execution from start to end. */
  method ExecuteCell(k: Kernel, cm: ConnectionManager.ConnectionManager, text: string,
                     history: seq<string>, server: Server, css: string)
    returns (execution: Execution, sent: Option<string>)
    ensures fresh(execution)
    ensures execution.started && execution.ended
    ensures Outcome(execution.outputs, execution.success, sent) == CellOutcome(k, ViewOf(cm), text, history, server, css)
  {
    var view := ViewOf(cm);
    execution := new Execution();
    execution.Start();
    sent := None;
    var connectionId := cm.activeConnectionId;
    if !Truthy(connectionId) {
      execution.ReplaceOutput([[ErrorItem(NoConnectionMessage(k))]]);
      execution.End(false);
      return;
    }
    var rawQuery := Trim(text);
    if rawQuery == "" {
      execution.ReplaceOutput([]);
      execution.End(true);
      return;
    }
    var activeDb := cm.ActiveDatabase();
    var query := if Truthy(activeDb) then UsePrefix(activeDb.value) + rawQuery else rawQuery;
    assert PlanCell(view, text) == RunQuery(connectionId.value, query);
    sent := Some(query);
    SendQuery(execution, k, view, query, server(history, query), css);
  }

  /** The `try` block: the answer's result sets become the outputs, a
      thrown error becomes the single error output. */
  method SendQuery(execution: Execution, k: Kernel, view: RegistryView, query: string, answer: Result<Answer>, css: string)
    requires execution.started && !execution.ended
    modifies execution
    ensures execution.started && execution.ended
    ensures Outcome(execution.outputs, execution.success, Some(query)) == RunOutcome(k, view, query, answer, css)
  {
    match answer {
      case Err(message) =>
        execution.ReplaceOutput([[ErrorItem(message)]]);
        execution.End(false);
      case Ok(a) =>
        var results := QueryExecutor.Execute(a.result, a.elapsed);
        var connLabel := ConnLabel(view.profile);
        var dbLabel := DbLabel(view);
        execution.ReplaceOutput(ResultOutputs(k, results, connLabel, dbLabel, css));
        execution.End(true);
    }
  }

  /** One cell's run as a function of its text and of the queries the
      server has received before it. */
  function Step(k: Kernel, view: RegistryView, server: Server, css: string): (string, seq<string>) -> Outcome
  {
    (text, history) => CellOutcome(k, view, text, history, server, css)
  }

  function SentList(sent: Option<string>): seq<string>
  {
    match sent
    case Some(q) => [q]
    case None => []
  }

  /** The runs of `executeAll` as a value: each cell in turn, the server
      having received the queries of the cells before it. */
  function RunAll(step: (string, seq<string>) -> Outcome, cells: seq<string>, history: seq<string>): (runs: seq<Outcome>)
    ensures |runs| == |cells|
    decreases |cells|
  {
    if |cells| == 0 then []
    else
      var o := step(cells[0], history);
      [o] + RunAll(step, cells[1..], history + SentList(o.sent))
  }

  /** The queries a list of runs sent, in order. */
  function SentBy(runs: seq<Outcome>): seq<string>
    decreases |runs|
  {
    if |runs| == 0 then [] else SentList(runs[0].sent) + SentBy(runs[1..])
  }

  lemma {:induction false} SentByAppend(a: seq<Outcome>, b: seq<Outcome>)
    ensures SentBy(a + b) == SentBy(a) + SentBy(b)
    decreases |a|
  {
    if |a| > 0 {
      assert (a + b)[1..] == a[1..] + b;
      SentByAppend(a[1..], b);
    } else {
      assert a + b == b;
    }
  }

  /** Cells run strictly one after another, in the given order: the i-th
      run is the cell's own run given exactly the queries the earlier runs
      sent, so the server receives the queries in cell order. */
  lemma {:induction false} RunAllSequential(step: (string, seq<string>) -> Outcome, cells: seq<string>, history: seq<string>, i: nat)
    requires i < |cells|
    ensures RunAll(step, cells, history)[i] == step(cells[i], history + SentBy(RunAll(step, cells, history)[..i]))
    decreases i
  {
    var runs := RunAll(step, cells, history);
    if i == 0 {
      assert runs[..0] == [];
      assert history + [] == history;
    } else {
      var o := runs[0];
      var h := history + SentList(o.sent);
      var rest := RunAll(step, cells[1..], h);
      RunAllSequential(step, cells[1..], h, i - 1);
      assert runs[..i] == [o] + rest[..i - 1];
      assert SentBy(runs[..i]) == SentList(o.sent) + SentBy(rest[..i - 1]);
      assert h + SentBy(rest[..i - 1]) == history + SentBy(runs[..i]);
    }
  }

  /** One more run keeps the loop invariant of `ExecuteAll`. */
  lemma RunAllStep(step: (string, seq<string>) -> Outcome, cells: seq<string>, i: nat,
                   runs: seq<Outcome>, history: seq<string>, o: Outcome)
    requires i < |cells|
    requires runs + RunAll(step, cells[i..], history) == RunAll(step, cells, [])
    requires history == SentBy(runs)
    requires o == step(cells[i], history)
    ensures (runs + [o]) + RunAll(step, cells[i + 1..], history + SentList(o.sent)) == RunAll(step, cells, [])
    ensures history + SentList(o.sent) == SentBy(runs + [o])
  {
    RunAllCons(step, cells[i..], history);
    assert cells[i..][1..] == cells[i + 1..];
    var later := RunAll(step, cells[i + 1..], history + SentList(o.sent));
    assert (runs + [o]) + later == runs + ([o] + later);
    SentByAppend(runs, [o]);
    assert SentBy([o]) == SentList(o.sent) + SentBy([]);
  }

  lemma RunAllCons(step: (string, seq<string>) -> Outcome, cells: seq<string>, history: seq<string>)
    requires |cells| > 0
    ensures var o := step(cells[0], history);
      RunAll(step, cells, history) == [o] + RunAll(step, cells[1..], history + SentList(o.sent))
  {
  }

  /** `executeAll(cells)`: one fresh execution per cell, in order. */
  method ExecuteAll(k: Kernel, cm: ConnectionManager.ConnectionManager, cells: seq<string>, server: Server, css: string)
    returns (runs: seq<Outcome>, history: seq<string>)
    ensures runs == RunAll(Step(k, ViewOf(cm), server, css), cells, [])
    ensures history == SentBy(runs)
  {
    var view := ViewOf(cm);
    var step := Step(k, view, server, css);
    runs := [];
    history := [];
    for i := 0 to |cells|
      invariant ViewOf(cm) == view
      invariant runs + RunAll(step, cells[i..], history) == RunAll(step, cells, [])
      invariant history == SentBy(runs)
    {
      var execution, sent := ExecuteCell(k, cm, cells[i], history, server, css);
      var o := Outcome(execution.outputs, execution.success, sent);
      assert o == step(cells[i], history);
      RunAllStep(step, cells, i, runs, history, o);
      runs := runs + [o];
      history := history + SentList(sent);
    }
  }
}
