# ShopSight Analytics — a verified model of its core

ShopSight Analytics is a set of Python scripts around an e-commerce
database: a Prometheus exporter that polls a weather service, an SQL report
runner that draws one chart per analysis, a spreadsheet exporter that
formats every sheet of a workbook, and a 3D-mesh demonstration. This project
models the parts of those scripts that carry logic and proves what they do.

- `mesh_clip.dfy` (module `MeshClip`) covers the clipping step of the mesh
  demonstration. It keeps the vertices on one side of a plane, renumbers them
  in order, and keeps and remaps only the triangles whose three corners all
  survive. The vertex test `x >= centre.x` is a parameter `inside: V -> bool`.
- `weather_exporter.dfy` (module `WeatherExporter`) covers the metrics
  registry as a class `Registry`. It has one method per poll
  (`fetch_weather_data`) and one for the poll loop. The HTTP call is replaced
  by the `Response` each poll received.
- `workbook_export.dfy` (module `WorkbookExport`) covers the post-processing
  of `export_to_excel`. Each sheet is a class `Worksheet` whose freeze panes,
  auto-filter and conditional formats the export updates in place. A1-style
  references are built concretely (column letters, decimal row numbers) and
  have parsers as their partners.
- `chart_planner.dfy` (module `ChartPlanner`) covers `create_chart`, the guard
  of `execute_query` and `run_analytics`. A chart is the value that records
  what would be drawn: its data columns, axis labels, title and file.
- `paths.dfy` (POSIX `os.path.join`) and `wrappers.dfy` (`Option`) are shared
  helpers.

Points where the code is followed over the design description of the exporter:

- The design treats a response body with missing fields as a `parse` failure
  that is counted and survived. In the code, a missing `current_weather`,
  `temperature` or `windspeed` key raises `KeyError`. That error escapes
  `fetch_weather_data`, which catches only `RequestException`, and it also
  escapes the `while True` loop, which ends the process. The model does the
  same: `PollResult.KeyErrorRaised`, and `PollLoop` stops with
  `crashed == true`.
- `gauge.labels(city=..., country=...)` is evaluated before its argument
  `current['temperature']`. So when the key is missing, the child series still
  comes into being, at 0, before the `KeyError`. The model writes this as a
  `Touch` operation.
- The design describes several targets, success and failure counters, a
  duration gauge and eight derived gauges. The code has one target (Astana,
  Kazakhstan), the three gauges and none of the rest, so the model has only
  those three.

## Model

| member | source | states |
|---|---|---|
| MeshClip.Where | assignment5.py:157 | `np.where` on a flag vector gives the positions of the true flags: strictly increasing, each one true, and every true position present |
| MeshClip.KeepIndicesExact | assignment5.py:157-158 | the kept indices are strictly increasing and are exactly the indices of vertices on the kept side |
| MeshClip.IndexMapping | assignment5.py:161 | the old-to-new map's keys are exactly the kept indices, and each maps to a position holding it |
| MeshClip.IndexMappingIsOrderIsomorphism | assignment5.py:161 | for increasing kept indices, the map sends the k-th kept index to k and preserves order both ways |
| MeshClip.ClippedTrianglesStep | assignment5.py:165-169 | one more input triangle adds its remapped self to the output if all its corners are kept, and nothing otherwise |
| MeshClip.ClippedTrianglesAreRemappedSurvivors | assignment5.py:164-169 | the output triangles are the input triangles whose corners are all kept, in input order, each remapped through the index map |
| MeshClip.Clip | assignment5.py:152-180 | the clipped mesh has exactly the kept vertices in order and the remapped surviving triangles; it is shaded iff some triangle survives |
| MeshClip.TriangleSurvivesIff | assignment5.py:166 | a triangle survives iff its three corners are valid vertex indices on the kept side |
| MeshClip.ClipIsWellFormed | assignment5.py:168-176 | every output triangle's corners index into the output vertex list |
| MeshClip.ClipPreservesCorners | assignment5.py:168-173 | each corner of the k-th output triangle names the same vertex as the matching corner of its input triangle |
| MeshClip.RemapKeepsCorners | assignment5.py:168 | remapping one triangle through the index map keeps each corner pointing at the same vertex |
| MeshClip.ClipKeepsTriangleOrder | assignment5.py:164-169 | the output triangles are a subsequence of the input: no more of them, from strictly increasing positions |
| WeatherExporter.SuccessPublishesReadings | custom_exporter.py:44-50 | a response with both readings publishes them under (Astana, Kazakhstan), sets the status to 1, returns True and changes no other series |
| WeatherExporter.SuccessIsIdempotent | custom_exporter.py:44-50 | polling again with identical readings leaves the registry unchanged |
| WeatherExporter.RequestErrorKeepsReadings | custom_exporter.py:52-54 | a request error sets the status to 0, returns False and leaves both readings at their last value |
| WeatherExporter.MissingCurrentWeatherWritesNothing | custom_exporter.py:44 | a body without `current_weather` raises KeyError before any write |
| WeatherExporter.MissingWindSpeedIsPartialWrite | custom_exporter.py:46-47 | a body without `windspeed` has already published the temperature and created the wind-speed series, leaves the status alone, and raises KeyError |
| WeatherExporter.MissingTemperatureOnlyCreatesSeries | custom_exporter.py:46 | a body without `temperature` only creates the temperature series (at 0 if absent) and raises KeyError |
| WeatherExporter.StatusWrittenLast | custom_exporter.py:46-48 | during a successful poll the status keeps its old value until the last write, and both readings are new before it |
| WeatherExporter.PollLoop | custom_exporter.py:67-69 | the loop runs every poll unless one raises KeyError; in that case it stops right after that poll, and every earlier poll returned |
| WeatherExporter.StatusIsLastReturnedPoll | custom_exporter.py:48-54 | after any run, the status is the outcome (1 or 0) of the latest poll that returned, or its start value if none did |
| WeatherExporter.KeyErrorKeepsStatus | custom_exporter.py:44-47 | a poll that raises KeyError never touches the status gauge |
| WeatherExporter.ReturnedPollSetsStatus | custom_exporter.py:48-54 | a poll that returns sets the status to 1 for True and to 0 for False |
| WeatherExporter.PollWritesOnlyAstana | custom_exporter.py:46-47 | a poll touches no labelled child other than (Astana, Kazakhstan) |
| WeatherExporter.OnlyAstanaIsWritten | custom_exporter.py:67-69 | over a whole run no other labelled child appears, disappears or changes value |
| WeatherExporter.Registry.constructor | custom_exporter.py:9-24 | a fresh registry has no labelled children and status 0 |
| WeatherExporter.Registry.Perform | custom_exporter.py:46-48 | one `.labels(...)` or `.set(v)` call updates the registry fields as the write prescribes and extends the trace |
| WeatherExporter.Registry.FetchWeatherData | custom_exporter.py:27-54 | one poll performs exactly the writes of `Poll(response)`, in order, and returns its result or signals the KeyError |
| WeatherExporter.Registry.RunPolls | custom_exporter.py:67-69 | polling over a sequence of responses ends in the state, poll count and crash flag that `PollLoop` prescribes |
| WorkbookExport.ColumnLetter | export.py:33 | a column's letter is a non-empty string of capitals |
| WorkbookExport.ColumnLetterRoundTrip | export.py:33 | reading a column letter back gives the column number (bijective base 26) |
| WorkbookExport.Decimal | export.py:43 | a row number prints as a non-empty string of digits |
| WorkbookExport.DecimalRoundTrip | export.py:43 | reading a printed row number back gives the number |
| WorkbookExport.CellRefRoundTrip | export.py:33 | a cell reference parses back to its column and row |
| WorkbookExport.RangeRefRoundTrip | export.py:29 | a range reference parses back to its four bounds |
| WorkbookExport.SampleRows | export.py:36 | the sampled rows are 2 up to min(max_row, 3): two when there are at least 3 rows, one with 2, none with 1 |
| WorkbookExport.NumericTestIsVacuousOnEmptySamples | export.py:37 | when every sampled cell is empty (or nothing is sampled) the column counts as numeric |
| WorkbookExport.SamplesAreLastColumnDataCells | export.py:32-36 | the sampled values are the last column's cells in rows 2 to min(max_row, 3), never the header |
| WorkbookExport.HeaderOnlySheetRaises | export.py:36-43 | adding the rule raises exactly on a sheet with only its header row: nothing is sampled, so the numeric test passes, and the rule is requested over the inverted range `<L>2:<L>1` |
| WorkbookExport.Worksheet.IntendedFormats | export.py:36-43 | the intended formats ask for the colour scale only over a non-empty run of data rows: they never name an inverted range, and they agree with the export wherever it does not raise |
| WorkbookExport.RuleRangeCoversDataRows | export.py:43 | the rule range reads back as the last column, rows 2 to max_row; it is non-inverted iff the sheet has a data row |
| WorkbookExport.AutoFilterCoversSheet | export.py:29 | the auto-filter reads back as the whole used range from A1 |
| WorkbookExport.Worksheet.constructor | export.py:12-14 | a freshly written sheet has its size and cells, no freeze panes, no filter and no conditional formats |
| WorkbookExport.FormatSheet | export.py:22-43 | one sheet ends frozen at B2 and filtered over its dimensions. If its sampled values look numeric, the colour scale is appended, except that adding it raises (and appends nothing) on an inverted range |
| WorkbookExport.ExportPathIsInExportDir | export.py:7-9 | a relative file name is written to `exports/<name>` |
| WorkbookExport.TotalDataRowsBounds | export.py:19-23 | the data-row total is non-negative and at least each sheet's own data rows |
| WorkbookExport.ExportToExcel | export.py:18-46 | sheets are formatted in order until one raises: the export then stops at the first raising sheet with no report and leaves later sheets unchanged. Otherwise every sheet is formatted and the report gives the path, the sheet count and the sum of max_row - 1 |
| ChartPlanner.ChartPathShape | analytics.py:39-40 | a chart for a relative description is saved as `charts/<description, spaces as underscores>.png`, whose name has no space |
| ChartPlanner.CreateChart | analytics.py:39-114 | unsupported type iff nothing saved and nothing raised; IndexError iff a needed column or header is missing; `savefig` fails iff everything else is in place but the file's directory does not exist; a saved chart has the right kind, file and title, projects columns 0 and 1 in row order, and labels its axes as each branch does |
| ChartPlanner.ChartDirectory | analytics.py:40 | a chart is created directly in `charts/` iff its description holds no '/'; otherwise in a deeper directory that the runner never creates |
| ChartPlanner.ExecuteQuery | analytics.py:20-37 | a database error is printed and nothing else happens; otherwise the row count is printed and a chart is attempted iff the type is truthy and rows came back; an error is printed iff the query failed or the chart raised (IndexError or a failed save) |
| ChartPlanner.RunAnalytics | analytics.py:117-224 | the six analyses run in list order, each with its own description and chart type; while `charts` exists, no analysis fails to save its chart |
| ChartPlanner.AnalysesSaveInChartsDir | analytics.py:117-218 | every analysis's chart file lies directly in `charts/` |
| ChartPlanner.AnalysesChartTypesSupported | analytics.py:129-216 | every declared chart type is truthy and supported, so no analysis hits the "not supported" branch |
| ChartPlanner.ChartPathsDiffer | analytics.py:40 | descriptions that differ at a non-space position give different chart files |
| ChartPlanner.AnalysesChartPathsDistinct | analytics.py:117-218 | the six analyses save to six different files, so no chart overwrites another |

## Findings

| source | as written | input that shows it | evidently intended | confidence | as-written member | corrected member |
|---|---|---|---|---|---|---|
| export.py:36-43 | a sheet with no data rows gets an empty sample list, so the numeric test passes; the rule is then added over the inverted range `<L>2:<L>1`. openpyxl raises on that range, so the export stops before `wb.save` and the print, and later sheets stay unformatted | a data frame with columns but no rows, such as `pd.DataFrame({"Revenue": []})` | add the colour scale only when the sheet has a data row (`max_row >= 2`) | not executed; high for the inverted range, medium for openpyxl raising on it | WorkbookExport.HeaderOnlySheetRaises | WorkbookExport.Worksheet.IntendedFormats |

`ExportToExcel` and `FormatSheet` model the export as written, raise included. `IntendedFormats` states the corrected formats beside them.

## Left out

- Network I/O: the weather request, its 10-second timeout and the JSON decoding are the `Response` given to each poll. With `requests` 2.27 or later a body that is not JSON raises a `RequestException` subclass, so it is folded into `RequestFailed`.
- `time.sleep(30)`, `start_http_server(8000)`, the `Info` metadata record and the text exposition format are not modelled. They do not change the gauges.
- WeatherExporter.RunPolls: the `while True` loop is modelled over a finite sequence of responses. A run that never meets a KeyError is each of its finite prefixes.
- Concurrent scrapes are not modelled. `StatusWrittenLast` states which intermediate registry states a scrape could observe.
- The PostgreSQL connection, the SQL text of each analysis and `tabulate`'s table layout are not modelled. Each query's outcome is the `QueryResult` given to it. An exception raised by `tabulate` or `print` is not modelled.
- Matplotlib rendering is not modelled: figure sizes, pie percentages, tick rotation, grid, marker, alpha and edge colour. The printed "Chart saved"/"not supported" messages are also left out.
- The file system is the set `dirs` of existing directories given to `CreateChart`, `ExecuteQuery` and `RunAnalytics`. `os.makedirs("charts")` in the runner's constructor is what puts `charts` in it.
- ChartPlanner.CreateChart: it models one `savefig` failure, a missing directory. It does not model other failures (no permission, a full disk, an unwritable absolute path). Row cells are of an opaque type, so matplotlib rejecting their values (text where a pie needs numbers, say) is not modelled either. Such a chart is reported `Saved` where the source prints an error.
- The pandas writing of each data frame (`df.to_excel`) is not modelled. A sheet arrives as its `max_row`, `max_column` and cells, with its header in row 1 from column A. Reading the workbook back, saving it and the final print are replaced by the returned `Report`.
- WorkbookExport.ExportToExcel: openpyxl's refusal of an inverted range (its `CellRange` raises `ValueError` when the first row lies below the last) is stated as the predicate `RuleRaises`, not derived from openpyxl's code. After a raise, the file on disk holds the frames unformatted, as pandas wrote them; that file is not modelled.
- Cell values are modelled only by kind (empty, int, float, bool, text, datetime). A Python `bool` is an `int`, so a bool cell counts as numeric.
- The mesh steps other than clipping are not part of this model: loading, cleaning, normal estimation, reconstruction, smoothing and visualisation. The geometry test is the `inside` predicate, and the floating-point vertex coordinates are an opaque type.
- `main.py`, `pevious_tasks/queries.py`, `autoInsert.py` and `AutoInsertfor10.py` are not part of this model. They are linear scripts with no logic beyond library calls.
