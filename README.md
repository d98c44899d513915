# GLYNNE front end: sequential logic, modelled and proved in Dafny

This project models the small sequential pieces of logic in the GLYNNE Next.js
front end. The statistical profiling the site displays is done by an external
HTTP service and is not part of this model. Network replies, the database call
and DOM lookups are parameters of the model's operations.

The modules:

- `JsString` (`js_string.dfy`) gives the JavaScript built-ins the pages rely on:
  - the `\s` / `trim` whitespace set (ECMAScript WhiteSpace plus LineTerminator) and `String.prototype.trim`;
  - `split` on one character, `Array.prototype.join`, `filter` and `map`.
- `CreateTable` (`create_table.dfy`) is the `POST /api/createTable` route. It
  turns `{tableName, columns}` into `CREATE TABLE IF NOT EXISTS t (c1 ty1, …[, PRIMARY KEY (…)]);`.
  It answers 400 `"Faltan datos"` when data is missing and 500 with the message when the body cannot be parsed.
- `DatabaseManager` (`database_manager.dfy`) is the table-editor page, as a class `TableEditor` over the page's state:
  - the identifier validator `^[a-zA-Z0-9_]+$`, as a loop with early exit;
  - appending and editing column records;
  - the primary-key check before an insert;
  - the composite-key delete query;
  - the "Cambiar tabla" reset.

  It also relates the page's validation to the statement the route builds.
- `CodeEditor` (`code_editor.dfy`) is the Python code editor, as a class `Editor`:
  - the line gutter;
  - `formatCode`, modelled as the three regular-expression replacements scan their input;
  - the Tab key;
  - the empty-code guard of "run", and the copy, save and clear buttons.
- `AnalysisPanel` (`analysis_panel.dfy`) is the CSV analysis page:
  - `formatText` (`*x*` → `<strong>x</strong>` with the lazy, line-bound match, then `\n` → `<br />`);
  - the section toggle;
  - the submit guard and the handling of the request's outcome, as a class `Panel`.
- `Charts` (`charts.dfy`) holds the chart-data projections of the analysis dashboard. It reads JSON objects
  as their `Object.entries` sequence.
- `SectionNavigator` (`section_navigator.dfy`) is the lesson's section counter, as a class `Navigator`. It also gives
  the button-visibility conditions.
- `SalesAgents` (`sales_agents.dfy`) covers the department lookup and the
  `trim`/`split('\n')`/`filter`/`map(trim)` paragraph pipeline of the menu page.

`formatCode`'s first replacement `/\s+$/gm` treats `\n` as whitespace. It therefore deletes every blank line
together with the trailing whitespace, except a blank first line, which is kept as an empty one: the match backtracks to
the last line end it can reach, and that is the first `\n`. The model reproduces this (`CodeEditor.StripDropsBeforeLineEnd`).
`CodeEditor.CollapseIsInert` proves what follows from it: no two newlines are adjacent afterwards, so the third
replacement `/\n{3,}/g` can never find three newlines in a row.

## Model

| member | source | states |
|---|---|---|
| JsString.IsLineTerminator | app/CSVanaliza/components/panel.jsx:39 | the LineTerminator set of ECMA-262, where `.` stops and multiline `$` matches; LineTerminatorIsWhitespace puts it inside `\s` |
| JsString.IsWhitespace | app/menu/components/salesAgents.jsx:124 | the `\s` class and the set `trim` removes: the WhiteSpace and LineTerminator sets of ECMA-262; used by Trim, LeadingWhitespace and TrailingMatch |
| JsString.LineTerminatorIsWhitespace | app/educativo/algebra-lineal/comonents/panelProgramer.jsx:79 | every line terminator belongs to `\s` |
| JsString.Trim | app/menu/components/salesAgents.jsx:124 | `trim` gives `""` exactly when the text is all whitespace; otherwise the result neither starts nor ends with whitespace |
| JsString.TrimIsInfix | app/menu/components/salesAgents.jsx:124 | what `trim` returns is a contiguous piece of the input with only whitespace before and after it |
| JsString.TrimKeepsOut | app/menu/components/salesAgents.jsx:127 | `trim` introduces no character that was not in its input |
| JsString.Split | app/menu/components/salesAgents.jsx:125 | `split(sep)` gives one more piece than there are separators, so `""` gives one piece |
| JsString.Join | app/api/createTable/route.js:11 | `Array.prototype.join`; specified by SplitJoin, JoinSplit and CountJoin, and used by ColumnDefs and DeleteQuery |
| JsString.SplitPiecesLackSeparator | app/menu/components/salesAgents.jsx:125 | no piece of a split contains the separator |
| JsString.SplitJoin | app/AdministrarDB/page.jsx:122-124 | joining separator-free pieces and splitting on the same separator returns the pieces |
| JsString.JoinSplit | app/menu/components/salesAgents.jsx:125 | splitting and joining again with the separator returns the original text |
| JsString.CountJoin | app/api/createTable/route.js:11 | `join` adds exactly one separator between neighbouring pieces, counted character by character |
| JsString.Filter | app/api/createTable/route.js:12 | `filter` keeps at most the input's elements, all satisfying the predicate |
| JsString.FilterMembers | app/api/createTable/route.js:12 | every kept element comes from the input, and every element that satisfies the predicate is kept |
| JsString.Map | app/api/createTable/route.js:11 | `map` keeps the length and applies the function index by index |
| CreateTable.MissingDataRejected | app/api/createTable/route.js:7-8 | a missing or empty table name or column list gives 400 `"Faltan datos"`, whatever the database would do |
| CreateTable.Post | app/api/createTable/route.js:3-23 | the route; specified by MissingDataRejected and CompleteDataExecuted, and 500 with the message for an unparsable body |
| CreateTable.MissingFields | app/api/createTable/route.js:7 | true when `!tableName` or `!columns?.length` holds; used by MissingDataRejected |
| CreateTable.ColumnDef | app/api/createTable/route.js:11 | the callback `` `${c.name} ${c.type}` ``; ColumnDefsHaveNoSemicolon and ColumnDefsSeparators state what it contributes |
| CreateTable.ColumnName | app/api/createTable/route.js:12 | the callback `c => c.name`; PrimaryKeysSingle states what it contributes |
| CreateTable.IsPrimary | app/api/createTable/route.js:12 | the callback `c => c.isPrimary`; PrimaryKeysSingle shows a column is kept iff it holds |
| CreateTable.ColumnDefs | app/api/createTable/route.js:11 | specified by ColumnDefsSeparators and ColumnDefsHaveNoSemicolon |
| CreateTable.PrimaryKeys | app/api/createTable/route.js:12 | specified by PrimaryKeysConcat and PrimaryKeysSingle |
| CreateTable.PkDef | app/api/createTable/route.js:13 | specified by PkDefEmptyIff and PkDefHasNoSemicolon |
| CreateTable.CreateSql | app/api/createTable/route.js:15 | specified by SqlFraming and SqlSemicolons |
| CreateTable.CompleteDataExecuted | app/api/createTable/route.js:15-20 | with complete data the database receives exactly the built statement; the answer is 200 with the table name iff it reports no error, else 400 with its message |
| CreateTable.PrimaryKeysConcat | app/api/createTable/route.js:12 | the primary keys of a concatenation are those of each part, in order |
| CreateTable.PrimaryKeysSingle | app/api/createTable/route.js:12 | one column contributes its name exactly when it is primary |
| CreateTable.PkDefEmptyIff | app/api/createTable/route.js:13 | the key clause is empty iff no column is primary |
| CreateTable.ColumnDefsSeparators | app/api/createTable/route.js:11 | with no comma in names or types, the definition list holds exactly `columns.length - 1` commas |
| CreateTable.SqlFraming | app/api/createTable/route.js:15 | the statement starts with `CREATE TABLE IF NOT EXISTS ` + name + ` (` and ends with `);` |
| CreateTable.SqlSemicolons | app/api/createTable/route.js:11-15 | with `;`-free columns the statement's only `;` is its last character iff the table name has none; names are not escaped |
| CreateTable.ColumnDefsHaveNoSemicolon | app/api/createTable/route.js:11 | column definitions built from `;`-free fields hold no `;` |
| CreateTable.PkDefHasNoSemicolon | app/api/createTable/route.js:13 | the key clause built from `;`-free names holds no `;` |
| DatabaseManager.Edited | app/AdministrarDB/page.jsx:20-24 | `col[field] = value` changes that field and leaves the other two as they were |
| DatabaseManager.FirstMissingKey | app/AdministrarDB/page.jsx:89-95 | `None` iff every key column is `"id"` or reads a truthy value (own text or an inherited `Object.prototype` member); otherwise the first key column, in order, that is not `"id"` and reads a falsy value |
| DatabaseManager.Get | app/AdministrarDB/page.jsx:91 | what `row[col]` reads: the own text, an inherited `Object.prototype` member, or `undefined`; specified through FalsyIff, InheritedKeyCountsAsGiven and DeleteQueryPieces |
| DatabaseManager.Falsy | app/AdministrarDB/page.jsx:91 | `!newRow[col]`; specified by FalsyIff |
| DatabaseManager.FalsyIff | app/AdministrarDB/page.jsx:91 | a key reads falsy iff the record holds `""` for it, or holds nothing and the name is not inherited from `Object.prototype` |
| DatabaseManager.InheritedKeyCountsAsGiven | app/AdministrarDB/page.jsx:91 | a key column named `constructor` counts as given even when the form has no value for it |
| DatabaseManager.IsIdentifier | app/AdministrarDB/page.jsx:28-34 | `/^[a-zA-Z0-9_]+$/.test`; used by ValidInputs, ValidatedStatementIsSingle and EditKeepsOtherNames |
| DatabaseManager.ValidInputs | app/AdministrarDB/page.jsx:27-39 | what `validateInputs` accepts; TableEditor.ValidateInputs is proved equal to it |
| DatabaseManager.KeyParam | app/AdministrarDB/page.jsx:123 | `${col}=${encodeURIComponent(row[col])}`; specified by DeleteQueryPieces |
| DatabaseManager.DeleteQuery | app/AdministrarDB/page.jsx:121-124 | the key query; DeleteQueryPieces proves it splits back into one piece per key column |
| DatabaseManager.TableEditor.constructor | app/AdministrarDB/page.jsx:5-12 | the page starts with one `id uuid` primary column and everything else empty |
| DatabaseManager.TableEditor.SetTableName | app/AdministrarDB/page.jsx:157 | the name field holds what was typed |
| DatabaseManager.TableEditor.AddColumn | app/AdministrarDB/page.jsx:15-17 | exactly one blank `text` column is appended; the others are unchanged |
| DatabaseManager.TableEditor.ColumnChange | app/AdministrarDB/page.jsx:20-24 | only the edited field of the edited entry changes; length and all other entries stay |
| DatabaseManager.TableEditor.ValidateInputs | app/AdministrarDB/page.jsx:27-39 | true iff the table name and every column name match `^[a-zA-Z0-9_]+$`; table name checked first, its message or else the column message set on failure, message untouched on success |
| DatabaseManager.TableEditor.CreateTableRequest | app/AdministrarDB/page.jsx:42-50 | the body `{tableName, columns}` is posted iff validation accepts |
| DatabaseManager.TableEditor.CreateTableReply | app/AdministrarDB/page.jsx:44-61 | an exception shows `❌ Error: ` + its message, even an empty one, and changes nothing else; a truthy `data.error` does the same with that text; otherwise the success message, the table selected and the insert form cleared |
| DatabaseManager.TableEditor.SetRowField | app/AdministrarDB/page.jsx:233-235 | the insert form gets the typed value under that column, the other fields stay |
| DatabaseManager.TableEditor.InsertRow | app/AdministrarDB/page.jsx:82-95 | refused without a selected table; refused naming `FirstMissingKey` when there is one; otherwise sent with the message untouched |
| DatabaseManager.TableEditor.DeleteRequest | app/AdministrarDB/page.jsx:117-127 | no request without a selected table; otherwise the URL is `/api/crud?table=` + table + `&` + the key query |
| DatabaseManager.TableEditor.ChangeTable | app/AdministrarDB/page.jsx:210-215 | selected table, records, insert form and message are all reset to empty |
| DatabaseManager.BlankColumnBlocksValidation | app/AdministrarDB/page.jsx:15-36 | after "Agregar columna" validation fails until the new column is named |
| DatabaseManager.EditKeepsOtherNames | app/AdministrarDB/page.jsx:20-36 | editing one column of a valid list keeps it valid unless the edit gives a name outside `[A-Za-z0-9_]+` |
| DatabaseManager.ValidatedStatementIsSingle | app/api/createTable/route.js:11-15 | if the page validates, every name in the statement is an identifier, and with `;`-free types the statement's one `;` is its last character |
| DatabaseManager.UnvalidatedNameSplitsStatement | app/api/createTable/route.js:15 | the route alone lets `t; DROP TABLE users` put a `;` before the end of the statement |
| DatabaseManager.DeleteQueryPieces | app/AdministrarDB/page.jsx:121-124 | with `&`-free names and an `&`-free encoder, the query splits back into exactly one `col=enc(row[col])` per key column, in column order |
| CodeEditor.LineNumbers | app/educativo/algebra-lineal/comonents/panelProgramer.jsx:27-30 | the gutter is `1..k` with `k` one more than the number of `\n`, never empty |
| CodeEditor.LineEndAt | app/educativo/algebra-lineal/comonents/panelProgramer.jsx:79 | where multiline `$` holds: the end of the text or before a line terminator; LastLineEnd and TrailingMatch are stated with it |
| CodeEditor.LastLineEnd | app/educativo/algebra-lineal/comonents/panelProgramer.jsx:79 | backtracking of `\s+` stops at the longest prefix of the run after which `$` (multiline) holds |
| CodeEditor.TrailingMatch | app/educativo/algebra-lineal/comonents/panelProgramer.jsx:79 | the match of `\s+$` tried at a position is the longest prefix of the whitespace run there after which a line end follows; `0` iff there is no such prefix |
| CodeEditor.StripLeavesNoTrailingWhitespace | app/educativo/algebra-lineal/comonents/panelProgramer.jsx:79 | after the first replacement no whitespace precedes a line terminator or the end |
| CodeEditor.StripKeepsVisible | app/educativo/algebra-lineal/comonents/panelProgramer.jsx:79 | the first replacement removes only whitespace; the other characters survive in order |
| CodeEditor.StripIdentity | app/educativo/algebra-lineal/comonents/panelProgramer.jsx:79 | text without trailing whitespace is left unchanged |
| CodeEditor.StripIdempotent | app/educativo/algebra-lineal/comonents/panelProgramer.jsx:79 | applying the first replacement twice equals applying it once |
| CodeEditor.StripTrailingWhitespace | app/educativo/algebra-lineal/comonents/panelProgramer.jsx:79 | the global replacement as it scans; specified by StripLocal, StripAllWhitespace, StripDropsBeforeLineEnd, StripLeavesNoTrailingWhitespace and StripKeepsVisible |
| CodeEditor.StripLocal | app/educativo/algebra-lineal/comonents/panelProgramer.jsx:79 | a prefix without trailing whitespace is kept verbatim and the rest is processed on its own: nothing else is removed |
| CodeEditor.StripAllWhitespace | app/educativo/algebra-lineal/comonents/panelProgramer.jsx:79 | text that is all whitespace up to the end disappears |
| CodeEditor.StripDropsBeforeLineEnd | app/educativo/algebra-lineal/comonents/panelProgramer.jsx:79 | whitespace before a line terminator whose line has visible content is removed, the terminator, indentation and first visible character are kept; so blank lines go, while a blank first line stays empty |
| CodeEditor.StripKeepsIndentedLine | app/educativo/algebra-lineal/comonents/panelProgramer.jsx:79 | a line terminator followed by indentation and a visible character survives unchanged |
| CodeEditor.TabsToSpaces | app/educativo/algebra-lineal/comonents/panelProgramer.jsx:80 | no tab remains and the text grows by one per tab |
| CodeEditor.TabsToSpacesIdentity | app/educativo/algebra-lineal/comonents/panelProgramer.jsx:80 | text without tabs is unchanged |
| CodeEditor.TabsKeepVisible | app/educativo/algebra-lineal/comonents/panelProgramer.jsx:80 | replacing tabs keeps the non-whitespace characters in order |
| CodeEditor.TabsKeepNoTrailingWhitespace | app/educativo/algebra-lineal/comonents/panelProgramer.jsx:79-80 | replacing tabs keeps text free of trailing whitespace |
| CodeEditor.NewlineRun | app/educativo/algebra-lineal/comonents/panelProgramer.jsx:81 | the length of the run of `\n` a text starts with |
| CodeEditor.CollapseNewlines | app/educativo/algebra-lineal/comonents/panelProgramer.jsx:81 | the third replacement introduces no character other than `\n`; CollapseBoundsRuns and CollapseIdentity state what it does |
| CodeEditor.CollapseBoundsRuns | app/educativo/algebra-lineal/comonents/panelProgramer.jsx:81 | after `\n{3,}` → `\n\n` no three newlines are adjacent, and a leading run is kept when short and cut to two otherwise |
| CodeEditor.CollapseIdentity | app/educativo/algebra-lineal/comonents/panelProgramer.jsx:81 | text without two adjacent newlines is unchanged |
| CodeEditor.FormatCode | app/educativo/algebra-lineal/comonents/panelProgramer.jsx:77-84 | formatted code has no tab and no three consecutive newlines |
| CodeEditor.NoTrailingWhitespaceNoAdjacentNewlines | app/educativo/algebra-lineal/comonents/panelProgramer.jsx:79-81 | text without trailing whitespace has no two adjacent newlines |
| CodeEditor.CollapseIsInert | app/educativo/algebra-lineal/comonents/panelProgramer.jsx:78-81 | `formatCode` equals its first two replacements, and its result has no trailing whitespace |
| CodeEditor.FormatKeepsVisible | app/educativo/algebra-lineal/comonents/panelProgramer.jsx:78-81 | formatting keeps every non-whitespace character, in order |
| CodeEditor.FormatIdempotent | app/educativo/algebra-lineal/comonents/panelProgramer.jsx:78-81 | formatting formatted code changes nothing |
| CodeEditor.InsertIndent | app/educativo/algebra-lineal/comonents/panelProgramer.jsx:90-94 | the selection becomes two spaces, prefix and suffix survive, length is `|code| - (end - start) + 2`, caret at `start + 2` |
| CodeEditor.InitialCodeHasTwoLines | app/educativo/algebra-lineal/comonents/panelProgramer.jsx:18-22 | the initial gutter `[1, 2]` agrees with the initial two-line code |
| CodeEditor.TwoLines | app/educativo/algebra-lineal/comonents/panelProgramer.jsx:27-30 | two newline-free lines joined by `\n` number `[1, 2]` |
| CodeEditor.Editor.constructor | app/educativo/algebra-lineal/comonents/panelProgramer.jsx:18-22 | the editor starts with the sample code, no output, not loading, gutter `[1, 2]` |
| CodeEditor.Editor.SetCode | app/educativo/algebra-lineal/comonents/panelProgramer.jsx:188 | typing replaces the code and the gutter follows it |
| CodeEditor.Editor.RunCode | app/educativo/algebra-lineal/comonents/panelProgramer.jsx:39-46 | code is sent iff it is not all whitespace; otherwise the warning is shown and loading is untouched |
| CodeEditor.Editor.FinishRun | app/educativo/algebra-lineal/comonents/panelProgramer.jsx:55-60 | the runner's output, or the no-output notice when it is empty, or `❌ Error: ` + message; loading cleared |
| CodeEditor.Editor.CopyCode | app/educativo/algebra-lineal/comonents/panelProgramer.jsx:63-66 | the copied notice is shown |
| CodeEditor.Editor.SaveCode | app/educativo/algebra-lineal/comonents/panelProgramer.jsx:73-75 | the saved notice is shown |
| CodeEditor.Editor.ClearCode | app/educativo/algebra-lineal/comonents/panelProgramer.jsx:68-71 | code and output become `""`; the gutter is `[1]` |
| CodeEditor.Editor.Format | app/educativo/algebra-lineal/comonents/panelProgramer.jsx:77-84 | the code becomes `FormatCode` of the old code and the notice is shown |
| CodeEditor.Editor.KeyDown | app/educativo/algebra-lineal/comonents/panelProgramer.jsx:86-97 | Tab without Shift applies `InsertIndent` to the selection; any other key changes nothing |
| AnalysisPanel.ClosingStar | app/CSVanaliza/components/panel.jsx:39 | a found closing position holds a `*` |
| AnalysisPanel.Embolden | app/CSVanaliza/components/panel.jsx:39 | the global lazy replacement as it scans; specified by EmboldenPlainPrefix, EmboldenPair, EmboldenUnpaired and EmboldenAtLineTerminator, which together fix it on every input, and by EmboldenIdentity, EmboldenKeepsOut and EmboldenLineByLine |
| AnalysisPanel.FormatText | app/CSVanaliza/components/panel.jsx:35-41 | specified by FormatTextEmpty, FormatTextPlain and FormatTextLines, with the lines emboldened as EmboldenPlainPrefix, EmboldenPair, EmboldenUnpaired and EmboldenAtLineTerminator fix |
| AnalysisPanel.HttpErrorMessage | app/CSVanaliza/components/panel.jsx:65 | `Error ${res.status}: ${res.statusText}`, used by Panel.FinishSubmit |
| AnalysisPanel.Decimal | app/CSVanaliza/components/panel.jsx:65 | `${res.status}`: at least one decimal digit, a leading `0` only for zero; DecimalRoundTrip reads it back |
| AnalysisPanel.DecimalRoundTrip | app/CSVanaliza/components/panel.jsx:65 | the digits denote the status code again |
| AnalysisPanel.ClosingStarIsFirstOnLine | app/CSVanaliza/components/panel.jsx:39 | the lazy `(.*?)\*` stops at the first `*` with no line terminator before it; there is none iff every `*` comes after a line terminator |
| AnalysisPanel.ClosingStarStopsAtLineEnd | app/CSVanaliza/components/panel.jsx:39 | the search for a closing `*` never looks past a line terminator |
| AnalysisPanel.EmboldenPair | app/CSVanaliza/components/panel.jsx:39 | `*x*` with `x` on one line and star-free becomes `<strong>x</strong>` |
| AnalysisPanel.EmboldenPlainPrefix | app/CSVanaliza/components/panel.jsx:39 | star-free text before the rest is kept verbatim and the rest is processed on its own: `x*y*` gives `x<strong>y</strong>` |
| AnalysisPanel.EmboldenUnpaired | app/CSVanaliza/components/panel.jsx:39 | a `*` without partner before its line ends stays a literal `*` |
| AnalysisPanel.EmboldenIdentity | app/CSVanaliza/components/panel.jsx:39 | text without `*` is unchanged by the first replacement |
| AnalysisPanel.EmboldenKeepsOut | app/CSVanaliza/components/panel.jsx:39 | the first replacement adds no character beyond the two tags |
| AnalysisPanel.EmboldenAtLineTerminator | app/CSVanaliza/components/panel.jsx:39 | no bold element spans a line terminator: text on either side is formatted independently |
| AnalysisPanel.EmboldenLineByLine | app/CSVanaliza/components/panel.jsx:39 | the lines of the result are the input's lines, each formatted on its own |
| AnalysisPanel.BreakLines | app/CSVanaliza/components/panel.jsx:40 | no `\n` remains and the text grows by five characters per `\n`; BreakLinesJoinsLines shows each one became `<br />` |
| AnalysisPanel.BreakLinesIdentity | app/CSVanaliza/components/panel.jsx:40 | text without `\n` is unchanged by the second replacement |
| AnalysisPanel.BreakLinesJoinsLines | app/CSVanaliza/components/panel.jsx:40 | the second replacement joins the lines with `<br />` |
| AnalysisPanel.FormatTextEmpty | app/CSVanaliza/components/panel.jsx:36 | a missing or empty report formats to `""` |
| AnalysisPanel.FormatTextPlain | app/CSVanaliza/components/panel.jsx:38-40 | text without `*` and `\n` is shown as it is, with no HTML escaping |
| AnalysisPanel.FormatTextLines | app/CSVanaliza/components/panel.jsx:35-41 | a report is its lines, each emboldened and newline-free, joined by one `<br />` per input newline |
| AnalysisPanel.Toggled | app/CSVanaliza/components/panel.jsx:31-33 | the result is the section iff it was not the open one, and no section otherwise |
| AnalysisPanel.ToggleTwice | app/CSVanaliza/components/panel.jsx:31-33 | toggling twice leaves the section open only if it was open |
| AnalysisPanel.Panel.constructor | app/CSVanaliza/components/panel.jsx:24-29 | the page starts empty with the report section open |
| AnalysisPanel.Panel.ToggleSection | app/CSVanaliza/components/panel.jsx:31-33 | the open section becomes `Toggled` of the old one |
| AnalysisPanel.Panel.Submit | app/CSVanaliza/components/panel.jsx:43-52 | without file or description the error is set and nothing else changes; otherwise error and result cleared, report opened, loading |
| AnalysisPanel.Panel.FinishSubmit | app/CSVanaliza/components/panel.jsx:64-76 | the result shown and report opened, or `Error <status>: <text>`, or the error message or `"Error desconocido"`; loading cleared in every case |
| Charts.NumericChart | app/CSVanaliza/components/Graficas.jsx:14-30 | five labels and five values, index-aligned so that each value is the statistic its label names; one dataset labelled with the column |
| Charts.StatNamed | app/CSVanaliza/components/Graficas.jsx:15-16 | the statistic each label names, read off the label row; the reference NumericChart is checked against |
| Charts.Keys | app/CSVanaliza/components/Graficas.jsx:34 | `Object.keys` lists the entries' keys in order |
| Charts.Values | app/CSVanaliza/components/Graficas.jsx:35 | `Object.values` lists the entries' values in order |
| Charts.CategoricalChart | app/CSVanaliza/components/Graficas.jsx:33-49 | labels and data have the distribution's length and zip back to the distribution; one dataset labelled with the column |
| Charts.NumericCharts | app/CSVanaliza/components/Graficas.jsx:14 | one chart per numeric entry, in entry order; none for an absent object |
| Charts.CategoricalCharts | app/CSVanaliza/components/Graficas.jsx:33 | one chart per categorical entry, in entry order; none for an absent object |
| Charts.ShowDashboard | app/CSVanaliza/components/Graficas.jsx:9-14 | the empty notice iff there is no data; the `contenido` failure iff data lacks it |
| Charts.ChartsFollowEntries | app/CSVanaliza/components/Graficas.jsx:14-49 | the charts' columns are the entries' keys in order, and every dataset is labelled with its chart's column |
| SectionNavigator.Step | app/educativo/algebra-lineal/comonents/SectionNavigatorButton.jsx:8-26 | a click moves by exactly one iff its guard holds and the target section exists; otherwise nothing changes |
| SectionNavigator.ShowsPrev | app/educativo/algebra-lineal/comonents/SectionNavigatorButton.jsx:46 | the "Anterior" condition; ButtonsMatchGuards ties it to Step |
| SectionNavigator.ShowsNext | app/educativo/algebra-lineal/comonents/SectionNavigatorButton.jsx:55 | the "Siguiente" condition; ButtonsMatchGuards ties it to Step |
| SectionNavigator.Run | app/educativo/algebra-lineal/comonents/SectionNavigatorButton.jsx:16-26 | a sequence of clicks; RunStaysInRange keeps it in range |
| SectionNavigator.StepStaysInRange | app/educativo/algebra-lineal/comonents/SectionNavigatorButton.jsx:16-26 | a click keeps the counter within `0..totalSections-1` |
| SectionNavigator.RunStaysInRange | app/educativo/algebra-lineal/comonents/SectionNavigatorButton.jsx:16-26 | any sequence of clicks keeps the counter in range |
| SectionNavigator.ButtonsMatchGuards | app/educativo/algebra-lineal/comonents/SectionNavigatorButton.jsx:46-55 | "Anterior" shows iff `current > 0` and "Siguiente" iff `current < total - 1`: exactly when the click would move |
| SectionNavigator.NextThenPrev | app/educativo/algebra-lineal/comonents/SectionNavigatorButton.jsx:16-26 | "Siguiente" then "Anterior" returns to the start |
| SectionNavigator.Navigator.constructor | app/educativo/algebra-lineal/comonents/SectionNavigatorButton.jsx:5-6 | the counter starts at 0, in range |
| SectionNavigator.Navigator.ScrollToSection | app/educativo/algebra-lineal/comonents/SectionNavigatorButton.jsx:8-14 | the counter moves to an in-range index only when the element was found, and stays in range |
| SectionNavigator.Navigator.HandleNext | app/educativo/algebra-lineal/comonents/SectionNavigatorButton.jsx:16-20 | the counter becomes `Step(…, Next, …)` and stays in range |
| SectionNavigator.Navigator.HandlePrev | app/educativo/algebra-lineal/comonents/SectionNavigatorButton.jsx:22-26 | the counter becomes `Step(…, Prev, …)` and stays in range |
| SalesAgents.Find | app/menu/components/salesAgents.jsx:73 | `find` is `undefined` iff no key matches; otherwise it is the first department with the key |
| SalesAgents.Content | app/menu/components/salesAgents.jsx:18-23 | the shape of a department's text: a line break, then three paragraphs separated by blank lines; used by ContentParagraphs |
| SalesAgents.Text | app/menu/components/salesAgents.jsx:13-69 | each department's text is a Content of its three paragraphs |
| SalesAgents.Paragraphs | app/menu/components/salesAgents.jsx:123-127 | specified by ParagraphsWellFormed, ParagraphsAreNonBlankLines and ContentParagraphs |
| SalesAgents.Paragraphise | app/menu/components/salesAgents.jsx:126-127 | specified by ParagraphiseConcat and ParagraphsAreNonBlankLines |
| SalesAgents.KeysDistinct | app/menu/components/salesAgents.jsx:13-69 | the five department keys are distinct |
| SalesAgents.FindOwnKey | app/menu/components/salesAgents.jsx:73 | with distinct keys, looking up a department's key finds that department |
| SalesAgents.EveryKeyFindsItsDepartment | app/menu/components/salesAgents.jsx:72-73 | every button selects its own department and the initial key `ventas` is found, so `current` is always defined |
| SalesAgents.ParagraphsWellFormed | app/menu/components/salesAgents.jsx:123-127 | every paragraph is non-empty, without leading or trailing whitespace, and contains no `\n` |
| SalesAgents.ParagraphsAreNonBlankLines | app/menu/components/salesAgents.jsx:123-127 | the paragraphs are exactly the non-blank lines of the content, in order, each trimmed; the outer `trim` changes nothing |
| SalesAgents.ParagraphiseConcat | app/menu/components/salesAgents.jsx:126-127 | the pipeline distributes over concatenated line lists, so order is kept |
| SalesAgents.LinesConsWhitespace | app/menu/components/salesAgents.jsx:124-127 | leading whitespace of the content does not change the paragraphs |
| SalesAgents.LinesSnocWhitespace | app/menu/components/salesAgents.jsx:124-127 | trailing whitespace of the content does not change the paragraphs |
| SalesAgents.ContentParagraphs | app/menu/components/salesAgents.jsx:18-24 | a content of the departments' shape (a line break, then three one-line paragraphs separated by blank lines) is shown as exactly those three paragraphs |

## Left out

- Every `fetch` and its asynchrony. The route's answer, the runner's reply and the analysis request's outcome are values given to the methods that handle them.
- The database procedure `exec_sql` is a function parameter. A rejected promise from it (the route's `catch`, answered with 500) is not modelled; only an unparsable body is.
- CreateTable.Post: request fields are typed, so a truthy non-string `tableName` or a column record lacking a field (printed as `undefined`) is not modelled.
- DatabaseManager.TableEditor.ColumnChange: `[...columns]` is a shallow copy, so the edited record object is shared with the previous state. The model updates a value and does not capture that aliasing.
- `encodeURIComponent` is the parameter `enc` of the delete query, an uninterpreted function. Row values are strings.
- Fetching the records, the insert and delete requests after their checks, and the messages shown for their replies are network exchanges and are not modelled.
- CodeEditor.Editor.CopyCode: the clipboard write is left out; only the notice is modelled.
- The editor's expand toggle, the output auto-scroll, and `setTimeout` are left out. The caret is placed at once rather than after the timeout.
- CodeEditor.Editor.FinishRun: `data.output` is taken as a string, missing meaning `""`. Non-string outputs are not modelled.
- Text positions are Unicode scalar values, while a text area's `selectionStart` counts UTF-16 code units. Characters outside the Basic Multilingual Plane are not modelled.
- The whitespace set of `\s` and `trim` is the fixed list in `JsString.IsWhitespace`.
- Charts.ShowDashboard: the payload is taken to carry `perfil` (read at Graficas.jsx line 71) and `contenido.muestra` (lines 121 and 127), and a present `metadata` to carry `processing_time_seconds`. Their absence, which makes the page throw a `TypeError`, is not modelled; only an absent `contenido` is.
- The report tables, the profile rendering, `toFixed(2)` and `Date` formatting of the analysis page and dashboard are presentational and involve floating point and clocks.
- Charts: statistics are reals, and every statistic field is present. A missing field (`undefined` in the chart) and non-numeric frequencies are not modelled.
- Charts: `Object.entries` order is taken to be the entries' sequence as given. The rule that integer-like keys come first is not modelled.
- SectionNavigator: whether `section-<i>` exists is a function parameter. The scrolling and the wheel, touch and key listeners are left out.
- SalesAgents.ContentParagraphs: this is proved for any content of the departments' shape whose paragraphs are non-empty, trimmed and newline-free. It is not evaluated on the fifteen concrete paragraphs, because the verifier cannot unfold literals of that length.
- Icons, animation and all JSX markup are left out.
- The external profiling service is not part of this model.
