/**
 * The analytics report runner: each query's rows are printed and, when a
 * chart type is given and rows came back, one chart image is planned and
 * saved under `charts/`. Plotting is replaced by the `Chart` value that
 * records what would be drawn; the database is replaced by the result each
 * query returned. Row cells have an opaque type `T`.
 */
module ChartPlanner {

  import opened Wrappers
  import Paths

  const ChartsDir := "charts"

  // ---------------------------------------------------------------------
  // The chart file name
  // ---------------------------------------------------------------------

  /** `s.replace(' ', '_')`. */
  function Underscored(s: string): string {
    seq(|s|, i requires 0 <= i < |s| => if s[i] == ' ' then '_' else s[i])
  }

  /** The file a chart for `description` is saved to. */
  function ChartPath(description: string): string {
    Paths.Join(ChartsDir, Underscored(description) + ".png")
  }

  /**
   * For a description that is not an absolute path, the chart is
   * `charts/<description with spaces as underscores>.png`, and its name holds
   * no space.
   */
  lemma ChartPathShape(description: string)
    requires !Paths.IsAbsolute(description)
    ensures ChartPath(description) == "charts/" + Underscored(description) + ".png"
    ensures forall i :: 0 <= i < |ChartPath(description)| ==> ChartPath(description)[i] != ' '
  {
    var u := Underscored(description);
    assert !Paths.IsAbsolute(u + ".png");
    var p := ChartPath(description);
    forall i | 0 <= i < |p|
      ensures p[i] != ' '
    {
      if 7 <= i < 7 + |u| {
        assert p[i] == u[i - 7];
      }
    }
  }

  /**
   * The chart is created directly in `charts/` exactly when the description
   * holds no '/'; otherwise its directory is a subdirectory of `charts/` that
   * nothing in the runner creates.
   */
  lemma ChartDirectory(description: string)
    requires !Paths.IsAbsolute(description)
    ensures Paths.Parent(ChartPath(description)) == Some(ChartsDir) <==> '/' !in description
    ensures '/' in description ==>
            Paths.Parent(ChartPath(description)).Some? &&
            |Paths.Parent(ChartPath(description)).value| > |ChartsDir|
  {
    ChartPathShape(description);
    var p := ChartPath(description);
    var u := Underscored(description);
    assert p[6] == '/';
    var dir := Paths.Parent(p);
    assert dir.Some?;
    var n := |dir.value|;
    if '/' !in description {
      forall i | 6 < i < |p|
        ensures p[i] != '/'
      {
        if i < 7 + |u| {
          assert p[i] == u[i - 7];
        } else {
          assert p[i] == ".png"[i - 7 - |u|];
        }
      }
      assert n == 6;
      assert dir.value == p[..6] == ChartsDir;
    } else {
      var j :| 0 <= j < |description| && description[j] == '/';
      assert p[7 + j] == u[j] == '/';
      assert n >= 7 + j;
    }
  }

  // ---------------------------------------------------------------------
  // Charts
  // ---------------------------------------------------------------------

  /**
   * What one chart draws. `first` is column 0 of every row (pie labels,
   * bar and barh categories, line and scatter x values, histogram values);
   * `second` is column 1 (pie sizes, bar lengths, y values).
   */
  datatype Chart<T> =
    | Pie(first: seq<T>, second: seq<T>, legendTitle: string)
    | Bar(first: seq<T>, second: seq<T>, xlabel: string, ylabel: string)
    | Barh(first: seq<T>, second: seq<T>, xlabel: string, ylabel: string)
    | Line(first: seq<T>, second: seq<T>, seriesLabel: string, xlabel: string, ylabel: string)
    | Hist(first: seq<T>, bins: nat, xlabel: string, ylabel: string)
    | Scatter(first: seq<T>, second: seq<T>, xlabel: string, ylabel: string)

  /** A chart saved to `path` under the title `title`. */
  datatype SavedChart<T> = SavedChart(path: string, title: string, chart: Chart<T>)

  /**
   * How `create_chart` ends: one file saved, an unsupported type (nothing
   * saved), an `IndexError` from a row or header list too short, or a
   * `FileNotFoundError` from `savefig` when the file's directory is missing.
   */
  datatype ChartOutcome<T> = Saved(saved: SavedChart<T>) | NotSupported | IndexError | SaveFailed

  /** Every row has a column `j`. */
  predicate HasColumn<T>(rows: seq<seq<T>>, j: nat) {
    forall i :: 0 <= i < |rows| ==> j < |rows[i]|
  }

  /** `[row[j] for row in rows]`. */
  function Column<T>(rows: seq<seq<T>>, j: nat): seq<T>
    requires HasColumn(rows, j)
  {
    seq(|rows|, i requires 0 <= i < |rows| => rows[i][j])
  }

  /** The chart types `create_chart` draws. */
  predicate Supported(chartType: string) {
    chartType in {"pie", "bar", "barh", "line", "hist", "scatter"}
  }

  /** The columns a chart type reads from every row. */
  function ColumnsRead(chartType: string): nat {
    if chartType == "hist" then 1 else 2
  }

  /** The headers a chart type reads. */
  function HeadersRead(chartType: string): nat {
    if chartType in {"pie", "hist"} then 1 else 2
  }

  /**
   * `create_chart(rows, headers, description, chart_type)`. An unsupported
   * type saves nothing and raises nothing; a supported one saves exactly one
   * file, at `ChartPath(description)` under the title `description`, unless a
   * row or the header list is too short or the file's directory is not among
   * the existing directories `dirs`. A saved chart projects the rows
   * column-wise (`first` is column 0 and, except for a histogram, `second` is
   * column 1, in row order); bar, line and scatter put header 0 on x and
   * header 1 on y, barh swaps them, a histogram labels y "Frequency" and uses
   * 10 bins, a line is labelled by header 1 and a pie's legend by header 0.
   */
  function CreateChart<T>(rows: seq<seq<T>>, headers: seq<string>, description: string,
                          chartType: string, dirs: set<string>): (o: ChartOutcome<T>)
    ensures o.NotSupported? <==> !Supported(chartType)
    ensures o.IndexError? <==> Supported(chartType) &&
                               (!HasColumn(rows, ColumnsRead(chartType) - 1) ||
                                |headers| < HeadersRead(chartType))
    ensures o.SaveFailed? <==> Supported(chartType) &&
                               HasColumn(rows, ColumnsRead(chartType) - 1) &&
                               |headers| >= HeadersRead(chartType) &&
                               !Paths.DirectoryExists(dirs, ChartPath(description))
    ensures o.Saved? ==> Paths.DirectoryExists(dirs, o.saved.path)
    ensures o.Saved? ==> o.saved.path == ChartPath(description) && o.saved.title == description
    ensures o.Saved? ==> (o.saved.chart.Pie? <==> chartType == "pie") &&
                         (o.saved.chart.Bar? <==> chartType == "bar") &&
                         (o.saved.chart.Barh? <==> chartType == "barh") &&
                         (o.saved.chart.Line? <==> chartType == "line") &&
                         (o.saved.chart.Hist? <==> chartType == "hist") &&
                         (o.saved.chart.Scatter? <==> chartType == "scatter")
    ensures o.Saved? ==>
              var c := o.saved.chart;
              |c.first| == |rows| &&
              (forall i :: 0 <= i < |rows| ==> |rows[i]| > 0 && c.first[i] == rows[i][0]) &&
              (!c.Hist? ==> |c.second| == |rows| &&
                            forall i :: 0 <= i < |rows| ==> |rows[i]| > 1 && c.second[i] == rows[i][1])
    ensures o.Saved? ==>
              var c := o.saved.chart;
              |headers| >= HeadersRead(chartType) &&
              (c.Bar? || c.Line? || c.Scatter? ==> c.xlabel == headers[0] && c.ylabel == headers[1]) &&
              (c.Barh? ==> c.xlabel == headers[1] && c.ylabel == headers[0]) &&
              (c.Hist? ==> c.xlabel == headers[0] && c.ylabel == "Frequency" && c.bins == 10) &&
              (c.Line? ==> c.seriesLabel == headers[1]) &&
              (c.Pie? ==> c.legendTitle == headers[0])
  {
    var o := Plot(rows, headers, description, chartType);
    if o.Saved? && !Paths.DirectoryExists(dirs, o.saved.path) then SaveFailed else o
  }

  /** The branch of `create_chart` for `chartType`, up to the `savefig` call. */
  function Plot<T>(rows: seq<seq<T>>, headers: seq<string>, description: string,
                   chartType: string): ChartOutcome<T>
  {
    var path := ChartPath(description);
    if chartType == "pie" then
      if !HasColumn(rows, 0) || !HasColumn(rows, 1) || |headers| < 1 then IndexError
      else Saved(SavedChart(path, description, Pie(Column(rows, 0), Column(rows, 1), headers[0])))
    else if chartType == "bar" then
      if !HasColumn(rows, 0) || !HasColumn(rows, 1) || |headers| < 2 then IndexError
      else Saved(SavedChart(path, description,
                            Bar(Column(rows, 0), Column(rows, 1), headers[0], headers[1])))
    else if chartType == "barh" then
      if !HasColumn(rows, 0) || !HasColumn(rows, 1) || |headers| < 2 then IndexError
      else Saved(SavedChart(path, description,
                            Barh(Column(rows, 0), Column(rows, 1), headers[1], headers[0])))
    else if chartType == "line" then
      if !HasColumn(rows, 0) || !HasColumn(rows, 1) || |headers| < 2 then IndexError
      else Saved(SavedChart(path, description,
                            Line(Column(rows, 0), Column(rows, 1), headers[1], headers[0], headers[1])))
    else if chartType == "hist" then
      if !HasColumn(rows, 0) || |headers| < 1 then IndexError
      else Saved(SavedChart(path, description, Hist(Column(rows, 0), 10, headers[0], "Frequency")))
    else if chartType == "scatter" then
      if !HasColumn(rows, 0) || !HasColumn(rows, 1) || |headers| < 2 then IndexError
      else Saved(SavedChart(path, description,
                            Scatter(Column(rows, 0), Column(rows, 1), headers[0], headers[1])))
    else NotSupported
  }

  // ---------------------------------------------------------------------
  // Running a query (`execute_query`)
  // ---------------------------------------------------------------------

  /** What the database gave a query: an error, or its rows and column names. */
  datatype QueryResult<T> = QueryError | Fetched(rows: seq<seq<T>>, headers: seq<string>)

  /**
   * What running a query shows: an error was printed before any rows, or the
   * rows were printed (their count given) and a chart was or was not
   * attempted.
   */
  datatype QueryReport<T> =
    | DatabaseError
    | Printed(rowCount: nat, chart: Option<ChartOutcome<T>>)

  /** An error message was printed: the query failed, or the chart raised. */
  predicate ErrorPrinted<T>(r: QueryReport<T>) {
    r.DatabaseError? || (r.Printed? && (r.chart == Some(IndexError) || r.chart == Some(SaveFailed)))
  }

  /** Python truthiness of the optional chart type. */
  predicate Truthy(chartType: Option<string>) {
    chartType.Some? && chartType.value != ""
  }

  /**
   * `execute_query`: every error is caught and printed, none escapes. A chart
   * is attempted exactly when the query succeeded, the chart type is truthy
   * and rows came back; the printed row count is the number of rows fetched.
   */
  function ExecuteQuery<T>(result: QueryResult<T>, description: string,
                           chartType: Option<string>, dirs: set<string>): (r: QueryReport<T>)
    ensures r.DatabaseError? <==> result.QueryError?
    ensures r.Printed? ==> result.Fetched? && r.rowCount == |result.rows|
    ensures (r.Printed? && r.chart.Some?) <==> (result.Fetched? && Truthy(chartType) && result.rows != [])
    ensures r.Printed? && r.chart.Some? ==>
              r.chart.value == CreateChart(result.rows, result.headers, description, chartType.value, dirs)
    ensures ErrorPrinted(r) <==>
              result.QueryError? ||
              (Truthy(chartType) && result.rows != [] &&
               var o := CreateChart(result.rows, result.headers, description, chartType.value, dirs);
               o.IndexError? || o.SaveFailed?)
  {
    match result
    case QueryError => DatabaseError
    case Fetched(rows, headers) =>
      if Truthy(chartType) && rows != [] then
        Printed(|rows|, Some(CreateChart(rows, headers, description, chartType.value, dirs)))
      else Printed(|rows|, None)
  }

  // ---------------------------------------------------------------------
  // The report (`run_analytics`)
  // ---------------------------------------------------------------------

  /** One entry of the report: its description, chart type and insight text. */
  datatype Analysis = Analysis(description: string, chartType: string, insight: string)

  /** The six analyses, in the order they run. */
  const Analyses: seq<Analysis> := [
    Analysis("Payment Method Distribution", "pie",
             "Shows which payment methods are most popular among customers (based on orders with linked customers)."),
    Analysis("Top Selling Product Categories", "bar",
             "Shows which product categories generate the highest sales volume across orders."),
    Analysis("Average Order Value by State", "barh",
             "Compares customer states by average order value, including data from payments and items."),
    Analysis("Monthly Sales Trend", "line",
             "Shows how revenue changes month by month across all customers."),
    Analysis("Customer Purchase Frequency", "hist",
             "Shows how frequently customers make repeat purchases (based on orders and items)."),
    Analysis("Top Sellers by Satisfaction and Volume", "scatter",
             "Each point represents a seller: number of orders vs average review score (using LEFT JOIN for reviews).")
  ]

  /**
   * `run_analytics`: runs the analyses in list order, each with its declared
   * chart type; `results[k]` is what the database returned for the k-th.
   */
  method RunAnalytics<T>(results: seq<QueryResult<T>>, dirs: set<string>) returns (reports: seq<QueryReport<T>>)
    requires |results| == |Analyses|
    ensures |reports| == |Analyses|
    ensures forall k :: 0 <= k < |Analyses| ==>
              reports[k] == ExecuteQuery(results[k], Analyses[k].description, Some(Analyses[k].chartType), dirs)
    ensures ChartsDir in dirs ==>
              forall k :: 0 <= k < |Analyses| ==> reports[k].Printed? ==> reports[k].chart != Some(SaveFailed)
  {
    reports := [];
    for k := 0 to |Analyses|
      invariant |reports| == k
      invariant forall j :: 0 <= j < k ==>
                  reports[j] == ExecuteQuery(results[j], Analyses[j].description, Some(Analyses[j].chartType), dirs)
      invariant ChartsDir in dirs ==>
                  forall j :: 0 <= j < k ==> reports[j].Printed? ==> reports[j].chart != Some(SaveFailed)
    {
      var q := Analyses[k];
      AnalysesSaveInChartsDir(k);
      var report := ExecuteQuery(results[k], q.description, Some(q.chartType), dirs);
      reports := reports + [report];
    }
  }

  /**
   * Every analysis saves its chart directly in `charts/`, which the runner
   * creates when it is constructed, so no analysis fails to save.
   */
  lemma AnalysesSaveInChartsDir(k: nat)
    requires k < |Analyses|
    ensures Paths.Parent(ChartPath(Analyses[k].description)) == Some(ChartsDir)
  {
    var d := Analyses[k].description;
    if k == 0 {
      NoSlash(d, "Payment Method Distribution");
    } else if k == 1 {
      NoSlash(d, "Top Selling Product Categories");
    } else if k == 2 {
      NoSlash(d, "Average Order Value by State");
    } else if k == 3 {
      NoSlash(d, "Monthly Sales Trend");
    } else if k == 4 {
      NoSlash(d, "Customer Purchase Frequency");
    } else {
      NoSlash(d, "Top Sellers by Satisfaction and Volume");
    }
    ChartDirectory(d);
  }

  /** A description equal to the literal `lit` holds no '/' when `lit` holds none. */
  lemma NoSlash(d: string, lit: string)
    requires d == lit && forall i :: 0 <= i < |lit| ==> lit[i] != '/'
    ensures '/' !in d
  {
  }

  /** Every analysis declares a supported, truthy chart type. */
  lemma AnalysesChartTypesSupported()
    ensures forall k :: 0 <= k < |Analyses| ==>
              Supported(Analyses[k].chartType) && Truthy(Some(Analyses[k].chartType))
  {
  }

  /** Descriptions that differ at some position give different chart files. */
  lemma ChartPathsDiffer(d1: string, d2: string, i: nat)
    requires !Paths.IsAbsolute(d1) && !Paths.IsAbsolute(d2)
    requires i < |d1| && i < |d2| && d1[i] != d2[i] && d1[i] != ' ' && d2[i] != ' '
    ensures ChartPath(d1) != ChartPath(d2)
  {
    ChartPathShape(d1);
    ChartPathShape(d2);
    assert ChartPath(d1)[7 + i] == Underscored(d1)[i];
    assert ChartPath(d2)[7 + i] == Underscored(d2)[i];
  }

  /** The six analyses save to six different files: no chart overwrites another. */
  lemma AnalysesChartPathsDistinct(j: nat, k: nat)
    requires j < k < |Analyses|
    ensures ChartPath(Analyses[j].description) != ChartPath(Analyses[k].description)
  {
    if j == 0 {
      ChartPathsDiffer(Analyses[0].description, Analyses[k].description, 0);
    } else if j == 1 {
      ChartPathsDiffer(Analyses[1].description, Analyses[k].description, if k == 5 then 8 else 0);
    } else if j == 2 {
      ChartPathsDiffer(Analyses[2].description, Analyses[k].description, 0);
    } else if j == 3 {
      ChartPathsDiffer(Analyses[3].description, Analyses[k].description, 0);
    } else {
      ChartPathsDiffer(Analyses[4].description, Analyses[5].description, 0);
    }
  }
}
