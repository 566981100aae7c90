# SQL Notebook: a verified model of the extension's core

This project models the core of a VS Code extension that runs SQL Server
queries from notebook cells and shows their results. It covers:

- the query executor, which turns the driver's recordsets into result sets;
- the ways a result is rendered:
  - the interactive HTML grid (`renderResultHtml` in src/resultRenderer.ts),
    which no other file of the repository calls, so what it does never
    reaches a user as the code stands;
  - the notebook controller's HTML table and plain text;
  - the Jupyter kernel's JSON and plain text;
- the notebook output renderer, which builds the DOM table and the "Copy as CSV" text;
- the cell-execution logic shared by both kernels:
  - no connection gives an error;
  - an empty cell runs nothing;
  - a `USE [db]` prefix is added when a database is active;
  - cells of a run-all go one after another;
- the notebook file (de)serialiser;
- the connection registry (`ConnectionManager`), a class whose fields are the in-memory maps, the active selection and what was last persisted;
- the sidebar tree, with its group, connection and object nodes and drag-and-drop regrouping;
- the import of a connection from the MSSQL extension.

Each source file has its own module:

| module | models |
|---|---|
| `Types` | the shared types |
| `Rows` | JavaScript objects as association lists |
| `Html` | `escapeHtml` |
| `Markup` | a small HTML token model, used to count elements |
| `Outputs` | notebook output items |
| `QueryExecutor` | `queryExecutor.ts` |
| `ResultRenderer` | `resultRenderer.ts` |
| `Controller` | `controller.ts` |
| `JupyterKernel` | `jupyterKernel.ts` |
| `CellExecution` | `executeCell` and `executeAll` of both kernels |
| `Renderer` | `renderer/index.ts` |
| `Serializer` | `serializer.ts` |
| `ConnectionManager` | `connectionManager.ts` |
| `ConnectionTree` | `connectionTreeProvider.ts` |
| `MssqlIntegration` | `mssqlIntegration.ts` |

How JavaScript is modelled:

- A value is `JsVal`: `undefined`, `null`, a string, or any other value together with its `String(...)` text.
- An object is a list of properties.
  - A lookup finds the first property with the key, and `undefined` when there is none.
  - `obj[k] = v` replaces a property in place or appends a new one. That is JavaScript's order for keys that are not array indices. JavaScript lists a new array-index key (a canonical integer string such as "2024") before the string keys; see the `Rows.KeysAssign` line under "Left out".
- A `Map`'s iteration order is an explicit key sequence kept beside a Dafny `map`.

Where the documentation and the code disagree, the model follows the code:

- A recordset without columns still yields a result set. It is not dropped.
- A column missing from a driver row is re-keyed as `undefined`, not `null` (src/queryExecutor.ts:29).
- The controller's HTML table marks only `null` as NULL. It shows `undefined` as the text "undefined" (src/controller.ts:127).

## Model

| member | source | states |
|---|---|---|
| Html.UnescapeEscapeHtml | src/resultRenderer.ts:3-9 | decoding the four entities undoes `escapeHtml`, so every escaped text reads back as itself |
| Html.EscapeHtmlInjective | src/controller.ts:158-164 | different texts escape differently |
| Html.EscapeHtmlAvoids | src/resultRenderer.ts:3-9 | escaped text holds no `<`, `>` or `"` |
| Html.EscapeHtmlNoTags | src/resultRenderer.ts:3-9 | escaped text holds no `<`, so it can open no element |
| Html.EscapeHtmlConcat | src/resultRenderer.ts:3-9 | escaping works character by character: escaping a concatenation concatenates the escapes |
| Rows.GetMissing | src/queryExecutor.ts:29 | a key no property carries reads as `undefined` |
| Rows.GetAssign | src/jupyterKernel.ts:112 | after `obj[k] = v`, `k` reads `v` and every other key reads as before |
| Rows.KeysAssign | src/jupyterKernel.ts:112 | `obj[k] = v` keeps the keys and their order when `k` is present, and appends `k` otherwise (JavaScript's order for a key that is not an array index) |
| Rows.JsonRowSpec | src/resultRenderer.ts:29-35 | a JSON row has exactly the column names as keys, in column order, never holds `undefined`, and a missing or undefined value becomes `null` |
| Rows.JsonRowGet | src/resultRenderer.ts:31-33 | looking up a column in a JSON row gives the row's value, or `null` where it was missing or undefined; a non-column key gives nothing; this holds even for repeated names |
| Rows.CleanRow | src/jupyterKernel.ts:110-114 | the loop assigning `clean[col.name]` builds an object with each column name once, holding each column's value (`null` for missing or undefined), and exactly the JSON row when names are distinct |
| Rows.PlainGridReadsBack | src/jupyterKernel.ts:128-134 | without line breaks in names and values, the grid splits back into the header line and one line per row; without tabs, each row line splits back into one `String(value ?? 'NULL')` per column |
| Rows.GridLinesAvoid | src/controller.ts:150-154 | a grid built from names and cells without line breaks has lines without line breaks |
| Outputs.StatusOutputSpec | src/controller.ts:98-106 | a result without columns is one plain-text item whose text is "[conn / db] " (connection and database labels) followed by the status line, the prefix present exactly when the connection label is non-empty; under the same labels, equal items mean equal row counts and times |
| Outputs.StatusTextInjective | src/jupyterKernel.ts:104 | the status line determines the row count and the time it reports |
| QueryExecutor.Execute | src/queryExecutor.ts:16-51 | the recordset loop with its inner row loop returns exactly `Normalize(result, elapsed)` |
| QueryExecutor.RekeyRow | src/queryExecutor.ts:27-31 | the `clean[col.name] = row[col.name]` loop builds `Rekey(columns, row)` |
| QueryExecutor.RekeySpec | src/queryExecutor.ts:26-32 | a re-keyed row has exactly the column names as keys, in order; a column reads the driver row's value, `undefined` when the row lacks it; other driver keys are dropped |
| QueryExecutor.NormalizeSpec | src/queryExecutor.ts:18-49 | one result set per recordset, in order, with its columns, rows and row count; with no recordset, exactly one empty result set whose row count is the sum of the affected-row counts; all share the elapsed time |
| QueryExecutor.SumFromAppend | src/queryExecutor.ts:46 | the `reduce` fold adds the affected-row counts one statement at a time |
| ResultRenderer.ReadGridCell | src/resultRenderer.ts:93-100 | a null or undefined cell reads back as the NULL marker, any other value as exactly `String(val)` |
| ResultRenderer.NullDistinctFromNullText | src/resultRenderer.ts:95-99 | a real null and the string "NULL" render differently; null and undefined render alike |
| ResultRenderer.RenderTableTags | src/resultRenderer.ts:88-105 | the grid has one element per header cell, row and data cell whatever the data: `<` occurs 8 + 2·columns + rows·(2 + 2·columns) times |
| ResultRenderer.RenderMessagesShape | src/resultRenderer.ts:107-117 | no messages give no markup; otherwise a panel, its heading and one element per message (4 + 2·messages `<`) |
| ResultRenderer.MessageItemSpec | src/resultRenderer.ts:110-114 | each message is a `div` with its kind's class; its text is a glyph (a cross for errors, a warning sign for warnings, none for information) and then the escaped message, which decodes back to the message |
| ResultRenderer.ToolbarClicks | src/resultRenderer.ts:77-83 | whatever buttons are clicked, exactly one of the table and JSON containers is displayed (its inline `display`), with its button active: the last one clicked, or the table's |
| ResultRenderer.JsonNeverVisibleAsWritten | src/resultRenderer.ts:69 | with the `.sql-json` rule as written, no click sequence makes the JSON text readable, although the JSON button displays its container |
| ResultRenderer.JsonVisibleAfterJsonClick | src/resultRenderer.ts:78-83 | without `display:none` on the `<pre>`, the JSON text is readable exactly when the JSON button was clicked last, and the table is then hidden |
| ResultRenderer.RenderResultHtmlSpec | src/resultRenderer.ts:11-86 | the context line appears exactly with a connection label and decodes to "conn / db"; no columns give the status view; otherwise the meta, the grid, the JSON rows, and the table container displayed and the JSON container hidden at first |
| Controller.ReadHtmlCellSpec | src/controller.ts:125-128 | only `null` shows the NULL marker; every other value, `undefined` included, reads back as exactly `String(val)` |
| Controller.NullMarking | src/controller.ts:127 | the grid marks null and undefined, this table only null, and the plain text prints "NULL" for both, as it does for the string "NULL" |
| Controller.RenderHtmlTableTags | src/controller.ts:122-148 | every `<` of the HTML opens or closes one of the table's own elements, whatever the names and values, given a stylesheet without `<` |
| Controller.PlainTextLines | src/controller.ts:150-156 | without line breaks in the data, the text's lines are the grid lines, an empty line and "N row(s) - Tms" |
| Controller.ResultToOutputSpec | src/controller.ts:97-120 | no columns give the status item; otherwise three items in order: the HTML table with the context line, the result set under `x-application/sql-notebook-result`, and the plain text; the context line is empty exactly when the connection label is |
| JupyterKernel.TableData | src/jupyterKernel.ts:109-115 | one cleaned object per row, in order, with distinct keys, agreeing with the JSON rows on every lookup and equal to them when names are distinct |
| JupyterKernel.ResultToOutputSpec | src/jupyterKernel.ts:98-126 | for every result: no columns give the status item; otherwise exactly the JSON rows and then the meta line, an empty line and the grid as text. When no label, column name or value holds a line break, that text's lines are the meta line, an empty line and the grid lines |
| JupyterKernel.KernelsAgree | src/jupyterKernel.ts:128-134 | for every result without columns both kernels give the same status item; for one with columns, when no label, column name or value holds a line break, both print the same grid lines |
| CellExecution.PlanCellSpec | src/controller.ts:55-77 | a cell runs exactly when there is an active connection and its text is not all whitespace; the query is the trimmed text, behind the `USE [db];` line exactly when a database is active |
| CellExecution.CellOutcomeSpec | src/jupyterKernel.ts:56-95 | no connection: failure with the kernel's error, nothing sent; empty cell: success, no output; a server error: failure with its message; an answer: success with one output per result set, at least one |
| CellExecution.ExecuteCell | src/controller.ts:50-95 | a fresh execution is started and ended, and its outputs and success are `CellOutcome` of the registry's answers |
| CellExecution.ExecuteAll | src/controller.ts:40-48 | the loop's runs are `RunAll` of the cells, and the server received exactly the queries they sent, in order |
| CellExecution.RunAllSequential | src/jupyterKernel.ts:41-49 | the i-th run is the cell's own run given exactly the queries the earlier cells sent |
| Renderer.CsvReadsBack | src/renderer/index.ts:40-47 | with the header quoted, the CSV reads back (RFC 4180) as the names, then one record per row with one field per column: `String(val)` whatever it holds, an empty field exactly for null and undefined |
| Renderer.ValueFieldSpec | src/renderer/index.ts:43-44 | a value's field is empty exactly for null and undefined, and quoted otherwise |
| Renderer.HeaderAsWrittenBreaks | src/renderer/index.ts:39 | the header as written cannot be read back for a column named `a"b` |
| Renderer.RenderOutputItem | src/renderer/index.ts:59-89 | the header loop and the nested row loops build exactly `OutputView(result, css)` |
| Renderer.OutputViewSpec | src/renderer/index.ts:52-60 | the toolbar's info reads "N row(s) \| Tms", and the table is there exactly when the result has columns |
| Renderer.TableNodeSpec | src/renderer/index.ts:65-89 | one header cell per column (name as text, type as title), one row per data row, one cell per column: "NULL" with class `null-value` exactly for null and undefined, otherwise `String(val)` |
| Serializer.Deserialize | src/serializer.ts:10-29 | empty or unparsable text gives no cells and no metadata; a parsed document gives one cell per stored cell, in order, with the metadata passed through |
| Serializer.ReadCell | src/serializer.ts:20-24 | stored kind "markup" gives a markdown Markup cell; any other kind gives a Code cell with the stored language, or "sql" when that is missing or empty |
| Serializer.WriteCell | src/serializer.ts:36-40 | Markup is stored as "markup" and everything else as "code", keeping the language and the text |
| Serializer.RoundTrip | src/serializer.ts:19-24 | writing and reading back keeps the cell count, order, kinds, texts and metadata; markup becomes markdown and an empty code language becomes sql |
| Serializer.RoundTripExact | src/serializer.ts:36-45 | a notebook survives a round trip unchanged exactly when its markup cells are markdown and its code cells name a language |
| Serializer.ReopenUnchanged | src/serializer.ts:6-48 | a notebook just read, saved and read again is unchanged |
| ConnectionManager.ConnectionManager.constructor | src/connectionManager.ts:22-27 | a fresh registry is empty, consistent, with nothing active |
| ConnectionManager.ConnectionManager.ActiveConnection | src/connectionManager.ts:253-256 | the profile under the active id when that is set, non-empty and known; nothing otherwise |
| ConnectionManager.ConnectionManager.ActiveDatabase | src/connectionManager.ts:203-207 | the chosen database when it is non-empty, else the active connection's database |
| ConnectionManager.ConnectionManager.SetActiveById | src/connectionManager.ts:262-269 | succeeds exactly for a known id, which becomes active with the database choice cleared; an unknown id changes nothing |
| ConnectionManager.ConnectionManager.SetActiveDatabase | src/connectionManager.ts:209-212 | the chosen database is set, and a non-empty one becomes the active database |
| ConnectionManager.ConnectionManager.SaveConnections | src/connectionManager.ts:71-79 | what is written is the registry in map order with passwords removed |
| ConnectionManager.ConnectionManager.SaveGroups | src/connectionManager.ts:96-102 | what is written is the group list in map order |
| ConnectionManager.ConnectionManager.CreateGroup | src/connectionManager.ts:108-116 | an empty or missing name creates nothing; otherwise a group `grp_<now>` with that name is added and saved |
| ConnectionManager.ConnectionManager.RenameGroup | src/connectionManager.ts:118-127 | an unknown group or an empty name changes nothing; otherwise only that group's name changes |
| ConnectionManager.ConnectionManager.RemoveGroup | src/connectionManager.ts:129-140 | the group goes, its connections stay but lose their group, no connection is left in it, and the rest is unchanged |
| ConnectionManager.ConnectionManager.SetConnectionGroup | src/connectionManager.ts:168-174 | an unknown id changes nothing; otherwise only that connection's group changes |
| ConnectionManager.ConnectionManager.RemoveConnection | src/connectionManager.ts:429-438 | the profile, its pool and its stored password go; the active id is cleared only when it was this one |
| ConnectionManager.ConnectionManager.UpdateConnection | src/connectionManager.ts:301-325 | an unknown id is a no-op; otherwise the pool closes, the eight form fields are replaced, and a non-empty password is stored |
| ConnectionManager.ConnectionManager.AddConnectionFromForm | src/connectionManager.ts:275-299 | a profile `conn_<now>` from the form, local, without a password in memory, is added; a non-empty password goes to the secret store |
| ConnectionManager.ConnectionManager.ImportFromMssql | src/connectionManager.ts:415-427 | an imported profile is added; its non-empty password moves to the secret store and out of the registry |
| ConnectionManager.ConnectionManager.Disconnect | src/connectionManager.ts:506-512 | the connection's pool is forgotten |
| ConnectionManager.PersistedHasNoPasswords | src/connectionManager.ts:59-69 | no password is ever written; the written list is the registry in map order with every other field kept |
| ConnectionManager.InGroupHas | src/connectionManager.ts:271-273 | a group's connections are exactly the registry's profiles whose `groupId` is that group |
| ConnectionManager.InGroupOrder | src/connectionManager.ts:271-273 | a group's connections keep the registry's order |
| ConnectionManager.ServerProperties | src/connectionManager.ts:196-200 | the loop over the row's entries builds the property list `PropertiesOf(row)` |
| ConnectionManager.PropertiesSpec | src/connectionManager.ts:197-199 | each property keeps its name; null shows as "N/A", any other value as `String(val)` |
| ConnectionTree.IconOfSpec | src/connectionTreeProvider.ts:25-44 | every node type has a non-empty icon, so the `circle-outline` fallback never applies; the group and the five plain folders get "folder", and every other type has an icon no other type shares |
| ConnectionTree.ConnectionNodeSpec | src/connectionTreeProvider.ts:158-180 | a connection node is labelled by name and described "server:port", plus " (active)" exactly for the active connection, which alone gets the green `server-process` icon |
| ConnectionTree.RootNodes | src/connectionTreeProvider.ts:130-150 | the two loops push exactly `RootItems` of the groups, the profiles and the active id |
| ConnectionTree.RootItemsSpec | src/connectionTreeProvider.ts:136-147 | every group in order, then the nodes of the ungrouped connections in order; a connection is at the top level exactly when it has no group |
| ConnectionTree.GroupChildrenSpec | src/connectionTreeProvider.ts:152-156 | a group's children are the nodes of exactly the connections in that group |
| ConnectionTree.ObjectNodesSpec | src/connectionTreeProvider.ts:217-241 | one node per object, labelled "schema.name", expandable exactly for tables and views; a failed fetch gives one error node |
| ConnectionTree.ObjectLabelInjective | src/connectionTreeProvider.ts:230 | with dot-free schemas, the label determines schema and name |
| ConnectionTree.HandleDragSpec | src/connectionTreeProvider.ts:53-58 | exactly the non-empty ids of dragged connection nodes are transferred, and nothing when there are none |
| ConnectionTree.DropTargetSpec | src/connectionTreeProvider.ts:66-74 | a group node gives its id, a grouped connection node its group, anything else no group |
| ConnectionTree.MovedSpec | src/connectionTreeProvider.ts:76-78 | dropping keeps the set of connections; the dropped ones get the target group, the others are untouched |
| ConnectionTree.HandleDrop | src/connectionTreeProvider.ts:61-79 | nothing transferred changes nothing; otherwise each dropped id in turn is moved as `Moved` says |
| MssqlIntegration.PortOf | src/mssqlIntegration.ts:57 | the given port, or 1433 when it is missing or 0 |
| MssqlIntegration.AuthOf | src/mssqlIntegration.ts:58 | SQL authentication exactly for "SqlLogin" |
| MssqlIntegration.EncryptOf | src/mssqlIntegration.ts:59 | encryption is off exactly for the flag false or the mode "Optional" |
| MssqlIntegration.ImportSpec | src/mssqlIntegration.ts:56-73 | the profile holds "server/database", the defaulted port, authentication, encryption, trust (default true) and non-empty user and password, source mssql, no group; otherwise it is what the form would create |
| MssqlIntegration.ImportedNameSplits | src/mssqlIntegration.ts:56 | with a slash-free server, the name determines server and database |
| MssqlIntegration.ImportIdsDiffer | src/mssqlIntegration.ts:62 | imports at different times get different ids |

## Left out

- Network, driver and pool handling are not modelled. This covers `getPool`, connecting, `disconnect`'s closing of the pool, `testConnection` and the object explorer's queries. The server is a function from the queries it has already received and the new query to an answer or an error message, so a run-all's later cells may see the effects of earlier ones.
- Clocks and randomness are parameters or are dropped. `Date.now()` ids take the time as a parameter. Execution order numbers and timestamps are not modelled. Neither is the random element id of the HTML grid. That id scopes the grid's stylesheet and both toolbar buttons' `querySelector` calls; the model takes each button to act on the containers of its own rendering.
- Stylesheet texts are a parameter `css`. Every proof about element counts requires that the stylesheet holds no `<`.
- `JSON.stringify` and `JSON.parse` are left out.
  - The JSON output item carries the result set itself.
  - The serialiser reads the document `JSON.parse` produced, or its failure, and writes the document `JSON.stringify` would write out.
  - Drag and drop transfers the id list itself.
- VS Code UI flows are not modelled: input boxes, quick picks, the connection editor panel, `updateLabel`, events and tree refresh. Where a flow feeds a modelled operation, its answer is a parameter (a group name, the imported profile, the form data).
- Loading the registry from files and from global state is not modelled. Saving is modelled as the list last written (`savedProfiles`, `savedGroups`). Stored passwords are a map `secrets`.
- The sidebar's database, folder and column nodes (`getDatabaseNodes`, `getDatabaseFolders`, `getColumnNodes`) and the `getChildren` dispatch are not modelled, because they only wrap object-explorer queries.
- ConnectionTree.IconOf: the icon table is a match on the node type, not a string-keyed record. Its `'circle-outline'` fallback is unreachable, because every one of the fourteen node types is a key of the table with a non-empty icon.
- Renderer.RenderOutputItem: DOM elements are values. `appendChild` is appending to a child list, so identity and aliasing of DOM nodes are not modelled.
- JupyterKernel.TableData: when column names repeat, a JavaScript object keeps one property per name. The model keeps the first position and the last value, as `Rows.Assign` does. Equality with `JsonRows` is stated only for distinct names; lookups agree in all cases.
- Rows.KeysAssign: appending a new key is JavaScript's order only for keys that are not array indices; JavaScript puts a new array-index key such as "2024" before every string key, in ascending numeric order. The model still gives JavaScript's order at src/jupyterKernel.ts:112 and src/resultRenderer.ts:32, because those loops assign the column names in the order `Object.entries(recordset.columns)` yields them (src/queryExecutor.ts:19), and that order already lists index keys first, in ascending order. The model takes the column list as given and does not derive that reordering, so it does not show that a query `SELECT Region, [2023]` lists column 2023 first in every output.
- Rows.GetAt: property lookups in objects with repeated keys are stated only for distinct keys, as `Object.entries` and `recordset.columns` give them.

## Findings

| source | as written | input that shows it | evidently intended | confidence | as-written member | corrected member |
|---|---|---|---|---|---|---|
| src/renderer/index.ts:39 | the CSV header wraps each column name in double quotes without doubling the quotes inside it, unlike the values on line 44 | one column named `a"b`: the header line is `"a"b"`, and a CSV reader ends the field after `a` and then fails on `b` | quote the names like the values, so that the CSV reads back as header plus rows (section 2, item 7 of RFC 4180) | not executed | Renderer.HeaderAsWrittenBreaks | Renderer.CsvReadsBack |
| src/resultRenderer.ts:69 | the `.sql-json` rule ends with `display:none`, which hides the `<pre class="sql-json">` itself; the JSON button (line 79) only clears the inline `display` of the outer `.sql-json-view` | latent, since nothing in the repository calls `renderResultHtml`: for any result with columns, a click on JSON would hide the table and display the JSON container, but the JSON text in it would stay hidden | the JSON button shows the JSON text | not executed | ResultRenderer.JsonNeverVisibleAsWritten | ResultRenderer.JsonVisibleAfterJsonClick |
