/**
 * Post-processing of an exported workbook: after the data frames are written,
 * every sheet gets its first row and column frozen, an auto-filter over its
 * used range and, when its last column looks numeric, a three-colour scale
 * over that column's data rows; the data rows of all sheets are counted.
 *
 * Writing the frames and saving the file are library work and are not
 * modelled; the loaded workbook is given as its sequence of sheets.
 * Column letters and A1-style references are written out here, each with a
 * parser and a round-trip lemma, so that the range strings the export builds
 * can be shown to denote the intended cells.
 */
module WorkbookExport {

  import opened Wrappers
  import Paths

  // ---------------------------------------------------------------------
  // A1-style cell references
  // ---------------------------------------------------------------------

  predicate IsUpper(c: char) { 'A' <= c <= 'Z' }

  predicate IsDigit(c: char) { '0' <= c <= '9' }

  predicate AllUpper(s: string) { forall i :: 0 <= i < |s| ==> IsUpper(s[i]) }

  predicate AllDigits(s: string) { forall i :: 0 <= i < |s| ==> IsDigit(s[i]) }

  /** The letters of column `n` (1 is "A", 26 is "Z", 27 is "AA"): bijective base 26. */
  function ColumnLetter(n: nat): (s: string)
    requires 1 <= n
    ensures |s| >= 1 && AllUpper(s)
    decreases n
  {
    if n <= 26 then [(64 + n) as char]
    else ColumnLetter((n - 1) / 26) + [(65 + (n - 1) % 26) as char]
  }

  /** The column number a string of letters names. */
  function ColumnIndex(s: string): nat
    requires AllUpper(s)
    decreases |s|
  {
    if s == [] then 0 else ColumnIndex(s[..|s| - 1]) * 26 + (s[|s| - 1] as int - 64)
  }

  lemma {:induction false} ColumnLetterRoundTrip(n: nat)
    requires 1 <= n
    ensures ColumnIndex(ColumnLetter(n)) == n
    decreases n
  {
    var s := ColumnLetter(n);
    if n <= 26 {
      assert s[..|s| - 1] == [];
    } else {
      var q := (n - 1) / 26;
      ColumnLetterRoundTrip(q);
      assert s[..|s| - 1] == ColumnLetter(q);
      assert n == q * 26 + (n - 1) % 26 + 1;
    }
  }

  /** `str(n)`: the decimal digits of `n`, without leading zeros. */
  function Decimal(n: nat): (s: string)
    ensures |s| >= 1 && AllDigits(s)
    decreases n
  {
    if n < 10 then [(48 + n) as char] else Decimal(n / 10) + [(48 + n % 10) as char]
  }

  /** The number a string of decimal digits denotes. */
  function DigitsValue(s: string): nat
    requires AllDigits(s)
    decreases |s|
  {
    if s == [] then 0 else DigitsValue(s[..|s| - 1]) * 10 + (s[|s| - 1] as int - 48)
  }

  lemma {:induction false} DecimalRoundTrip(n: nat)
    ensures DigitsValue(Decimal(n)) == n
    decreases n
  {
    var s := Decimal(n);
    if n < 10 {
      assert s[..|s| - 1] == [];
    } else {
      DecimalRoundTrip(n / 10);
      assert s[..|s| - 1] == Decimal(n / 10);
    }
  }

  /** The reference of one cell, such as "C4". */
  function CellRef(column: nat, row: nat): string
    requires 1 <= column
  {
    ColumnLetter(column) + Decimal(row)
  }

  /** A rectangle of cells, by its first and last column and row. */
  datatype CellRange = CellRange(minColumn: nat, minRow: nat, maxColumn: nat, maxRow: nat)

  predicate HasColumns(r: CellRange) {
    1 <= r.minColumn && 1 <= r.maxColumn
  }

  /** The reference of a range, such as "A1:C4". */
  function RangeRef(r: CellRange): string
    requires HasColumns(r)
  {
    CellRef(r.minColumn, r.minRow) + ":" + CellRef(r.maxColumn, r.maxRow)
  }

  /** The length of the longest prefix of `s` made of upper-case letters. */
  function LetterSpan(s: string): (n: nat)
    ensures n <= |s| && AllUpper(s[..n]) && (n < |s| ==> !IsUpper(s[n]))
  {
    if s == [] || !IsUpper(s[0]) then 0
    else
      var n := 1 + LetterSpan(s[1..]);
      assert forall i :: 1 <= i < n ==> s[..n][i] == s[1..][..n - 1][i - 1];
      n
  }

  /** Reads a cell reference back as (column, row). */
  function ParseCellRef(s: string): Option<(nat, nat)> {
    var n := LetterSpan(s);
    if n == 0 || n == |s| || !AllDigits(s[n..]) then None
    else Some((ColumnIndex(s[..n]), DigitsValue(s[n..])))
  }

  /** The position of the first ':' in `s`, or |s| when there is none. */
  function ColonIndex(s: string): (i: nat)
    ensures i <= |s| && (i < |s| ==> s[i] == ':')
  {
    if s == [] || s[0] == ':' then 0 else 1 + ColonIndex(s[1..])
  }

  /** Reads a range reference back. */
  function ParseRangeRef(s: string): Option<CellRange> {
    var i := ColonIndex(s);
    if i == |s| then None
    else
      match (ParseCellRef(s[..i]), ParseCellRef(s[i + 1..]))
      case (Some(lo), Some(hi)) => Some(CellRange(lo.0, lo.1, hi.0, hi.1))
      case _ => None
  }

  lemma {:induction false} LetterSpanOfConcat(a: string, b: string)
    requires AllUpper(a) && b != [] && !IsUpper(b[0])
    ensures LetterSpan(a + b) == |a|
  {
    if a != [] {
      assert (a + b)[1..] == a[1..] + b;
      LetterSpanOfConcat(a[1..], b);
    } else {
      assert a + b == b;
    }
  }

  lemma {:induction false} ColonIndexOfConcat(a: string, b: string)
    requires forall i :: 0 <= i < |a| ==> a[i] != ':'
    ensures ColonIndex(a + ":" + b) == |a|
  {
    if a != [] {
      assert (a + ":" + b)[1..] == a[1..] + ":" + b;
      ColonIndexOfConcat(a[1..], b);
    } else {
      assert a + ":" + b == ":" + b;
    }
  }

  lemma CellRefRoundTrip(column: nat, row: nat)
    requires 1 <= column
    ensures ParseCellRef(CellRef(column, row)) == Some((column, row))
  {
    var l := ColumnLetter(column);
    var d := Decimal(row);
    var s := l + d;
    LetterSpanOfConcat(l, d);
    assert s[..|l|] == l && s[|l|..] == d;
    ColumnLetterRoundTrip(column);
    DecimalRoundTrip(row);
  }

  /** A range reference reads back as the range it was made from. */
  lemma RangeRefRoundTrip(r: CellRange)
    requires HasColumns(r)
    ensures ParseRangeRef(RangeRef(r)) == Some(r)
  {
    var lo := CellRef(r.minColumn, r.minRow);
    var hi := CellRef(r.maxColumn, r.maxRow);
    var s := lo + ":" + hi;
    assert forall i :: 0 <= i < |lo| ==> lo[i] != ':' by {
      forall i | 0 <= i < |lo|
        ensures lo[i] != ':'
      {
        var l := ColumnLetter(r.minColumn);
        if i < |l| {
          assert lo[i] == l[i];
        } else {
          assert lo[i] == Decimal(r.minRow)[i - |l|];
        }
      }
    }
    ColonIndexOfConcat(lo, hi);
    assert s[..|lo|] == lo && s[|lo| + 1..] == hi;
    CellRefRoundTrip(r.minColumn, r.minRow);
    CellRefRoundTrip(r.maxColumn, r.maxRow);
  }

  // ---------------------------------------------------------------------
  // Cells and the numeric test
  // ---------------------------------------------------------------------

  /** A cell value as openpyxl loads it; `Empty` is `None`. */
  datatype CellValue =
    | Empty
    | IntValue(i: int)
    | FloatValue(f: real)
    | BoolValue(b: bool)
    | TextValue(text: string)
    | DateTimeValue(stamp: string)

  /** `isinstance(v, (int, float))`; a Python `bool` is an `int`, so it passes. */
  predicate IsNumber(v: CellValue) {
    v.IntValue? || v.FloatValue? || v.BoolValue?
  }

  /** The numeric test: every sampled value that is not `None` is a number. */
  predicate LooksNumeric(samples: seq<CellValue>) {
    forall i :: 0 <= i < |samples| && samples[i] != Empty ==> IsNumber(samples[i])
  }

  /** The rows sampled from the last column: `range(2, min(max_row + 1, 4))`. */
  function SampleRows(maxRow: nat): (rows: seq<nat>)
    ensures |rows| <= 2
    ensures |rows| == if maxRow >= 3 then 2 else if maxRow == 2 then 1 else 0
    ensures forall k :: 0 <= k < |rows| ==> rows[k] == 2 + k && rows[k] <= maxRow
  {
    var stop := if maxRow + 1 < 4 then maxRow + 1 else 4;
    seq(if stop > 2 then stop - 2 else 0, k => 2 + k)
  }

  /** With nothing but `None` to look at, the numeric test passes. */
  lemma {:induction false} NumericTestIsVacuousOnEmptySamples(samples: seq<CellValue>)
    requires forall i :: 0 <= i < |samples| ==> samples[i] == Empty
    ensures LooksNumeric(samples)
  {
  }

  // ---------------------------------------------------------------------
  // Sheets
  // ---------------------------------------------------------------------

  /** The cell the panes are frozen at: row 1 and column A stay in view. */
  const FreezePanesCell := "B2"

  /** The widest sheet a workbook can hold (column "XFD"). */
  const MaxColumns := 16384

  datatype ColorStop = ColorStop(kind: string, value: Option<int>, color: string)

  datatype ColorScaleRule = ColorScaleRule(start: ColorStop, mid: ColorStop, end: ColorStop)

  /** Red at the minimum, yellow at the median, green at the maximum. */
  const ValueScale := ColorScaleRule(ColorStop("min", None, "FFAA0000"),
                                     ColorStop("percentile", Some(50), "FFFFFF00"),
                                     ColorStop("max", None, "FF00AA00"))

  datatype ConditionalFormat = ConditionalFormat(range: string, rule: ColorScaleRule)

  /**
   * One loaded worksheet. Its size and cells are fixed; the export changes
   * only its frozen panes, its auto-filter and its conditional formats.
   */
  class Worksheet {
    const maxRow: nat
    const maxColumn: nat
    /** The stored cells, by (row, column); a missing cell holds `None`. */
    const cells: map<(nat, nat), CellValue>
    var freezePanes: Option<string>
    var autoFilterRef: Option<string>
    var conditionalFormatting: seq<ConditionalFormat>

    /** A loaded sheet reports at least one row and one column. */
    predicate Valid() {
      1 <= maxRow && 1 <= maxColumn <= MaxColumns
    }

    constructor (maxRow: nat, maxColumn: nat, cells: map<(nat, nat), CellValue>)
      requires 1 <= maxRow && 1 <= maxColumn <= MaxColumns
      ensures Valid()
      ensures this.maxRow == maxRow && this.maxColumn == maxColumn && this.cells == cells
      ensures freezePanes == None && autoFilterRef == None && conditionalFormatting == []
    {
      this.maxRow, this.maxColumn, this.cells := maxRow, maxColumn, cells;
      freezePanes, autoFilterRef, conditionalFormatting := None, None, [];
    }

    function Value(row: nat, column: nat): CellValue {
      if (row, column) in cells then cells[(row, column)] else Empty
    }

    /**
     * The used range `ws.dimensions`; a sheet written from a data frame with
     * its header starts at A1.
     */
    function Dimensions(): CellRange {
      CellRange(1, 1, maxColumn, maxRow)
    }

    /** The values sampled from the last column. */
    function SampleValues(): seq<CellValue> {
      var rows := SampleRows(maxRow);
      seq(|rows|, k requires 0 <= k < |rows| => Value(rows[k], maxColumn))
    }

    /** The data rows of the last column, row 2 to `max_row`. */
    function RuleRange(): CellRange {
      CellRange(maxColumn, 2, maxColumn, maxRow)
    }

    /** The conditional formats the export asks openpyxl to add to this sheet. */
    function AddedFormats(): seq<ConditionalFormat>
      requires Valid()
    {
      if LooksNumeric(SampleValues()) then [ConditionalFormat(RangeRef(RuleRange()), ValueScale)] else []
    }

    /**
     * Adding the rule raises: openpyxl's `CellRange` refuses (with
     * `ValueError`) a range whose first row lies below its last.
     */
    predicate RuleRaises()
      requires Valid()
    {
      LooksNumeric(SampleValues()) && RuleRange().minRow > RuleRange().maxRow
    }

    /**
     * The formats the export evidently means to add: the colour scale only
     * over a non-empty run of data rows. It never asks for an inverted range,
     * and it agrees with the export wherever the export does not raise.
     */
    function IntendedFormats(): (fs: seq<ConditionalFormat>)
      requires Valid()
      ensures !RuleRaises() ==> fs == AddedFormats()
      ensures fs != [] <==> LooksNumeric(SampleValues()) && maxRow >= 2
      ensures forall k :: 0 <= k < |fs| ==>
                ParseRangeRef(fs[k].range) == Some(RuleRange()) && RuleRange().minRow <= RuleRange().maxRow
    {
      if LooksNumeric(SampleValues()) && 2 <= maxRow then
        RangeRefRoundTrip(RuleRange());
        [ConditionalFormat(RangeRef(RuleRange()), ValueScale)]
      else []
    }

    /**
     * This sheet as the export leaves it, given its formats before: panes
     * frozen and filter set in any case, and the colour scale appended unless
     * adding it raised.
     */
    ghost predicate FormattedFrom(before: seq<ConditionalFormat>)
      reads this
      requires Valid()
    {
      freezePanes == Some(FreezePanesCell) &&
      autoFilterRef == Some(RangeRef(Dimensions())) &&
      conditionalFormatting == before + (if RuleRaises() then [] else AddedFormats())
    }
  }

  /**
   * The sampled values are the last column's cells in rows 2 to
   * min(max_row, 3): at most two, never past the last row, never the header.
   */
  lemma SamplesAreLastColumnDataCells(ws: Worksheet)
    requires ws.Valid()
    ensures |ws.SampleValues()| == if ws.maxRow >= 3 then 2 else ws.maxRow - 1
    ensures forall k :: 0 <= k < |ws.SampleValues()| ==>
              2 <= k + 2 <= ws.maxRow && ws.SampleValues()[k] == ws.Value(k + 2, ws.maxColumn)
  {
  }

  /**
   * Exactly the sheets with only a header row make adding the rule raise:
   * nothing is sampled, so the numeric test passes, and the rule range
   * `<L>2:<L>1` is inverted.
   */
  lemma HeaderOnlySheetRaises(ws: Worksheet)
    requires ws.Valid()
    ensures ws.RuleRaises() <==> ws.maxRow == 1
    ensures ws.maxRow == 1 ==>
              ws.AddedFormats() == [ConditionalFormat(ColumnLetter(ws.maxColumn) + "2:" + ColumnLetter(ws.maxColumn) + "1", ValueScale)]
  {
    if ws.maxRow == 1 {
      NumericTestIsVacuousOnEmptySamples(ws.SampleValues());
      var l := ColumnLetter(ws.maxColumn);
      assert Decimal(2) == "2" && Decimal(1) == "1";
      assert RangeRef(ws.RuleRange()) == (l + "2") + ":" + (l + "1");
      assert (l + "2") + ":" + (l + "1") == l + "2:" + l + "1";
    }
  }

  /**
   * The rule range reads back as the last column, rows 2 to `max_row`; it is
   * a proper (non-inverted) range exactly when the sheet has a data row.
   */
  lemma RuleRangeCoversDataRows(ws: Worksheet)
    requires ws.Valid()
    ensures ParseRangeRef(RangeRef(ws.RuleRange())) ==
            Some(CellRange(ws.maxColumn, 2, ws.maxColumn, ws.maxRow))
    ensures ws.RuleRange().minRow <= ws.RuleRange().maxRow <==> ws.maxRow >= 2
  {
    RangeRefRoundTrip(ws.RuleRange());
  }

  /** The auto-filter reads back as the whole used range, from A1. */
  lemma AutoFilterCoversSheet(ws: Worksheet)
    requires ws.Valid()
    ensures ParseRangeRef(RangeRef(ws.Dimensions())) == Some(CellRange(1, 1, ws.maxColumn, ws.maxRow))
  {
    RangeRefRoundTrip(ws.Dimensions());
  }

  /**
   * Lines 22 to 43 for one sheet: panes, auto-filter, numeric test and rule.
   * `raised` tells that adding the rule raised, which ends the export.
   */
  method FormatSheet(ws: Worksheet) returns (raised: bool)
    requires ws.Valid()
    modifies ws
    ensures raised == ws.RuleRaises()
    ensures ws.FormattedFrom(old(ws.conditionalFormatting))
  {
    raised := false;
    ws.freezePanes := Some(FreezePanesCell);
    ws.autoFilterRef := Some(RangeRef(ws.Dimensions()));
    var lastCol := ws.maxColumn;
    var colLetter := ColumnLetter(lastCol);
    var samples := ws.SampleValues();
    if LooksNumeric(samples) {
      var range := colLetter + "2:" + colLetter + Decimal(ws.maxRow);
      assert Decimal(2) == "2";
      assert range == RangeRef(ws.RuleRange());
      if 2 > ws.maxRow {
        raised := true;
        return;
      }
      ws.conditionalFormatting := ws.conditionalFormatting + [ConditionalFormat(range, ValueScale)];
    }
  }

  // ---------------------------------------------------------------------
  // The export
  // ---------------------------------------------------------------------

  const ExportDir := "exports"

  /** Where the workbook is written: `os.path.join("exports", filename)`. */
  function ExportPath(filename: string): string {
    Paths.Join(ExportDir, filename)
  }

  /** A relative file name lands inside the export directory. */
  lemma ExportPathIsInExportDir(filename: string)
    requires !Paths.IsAbsolute(filename)
    ensures ExportPath(filename) == "exports/" + filename
  {
  }

  /** Rows below the header, summed over the sheets in order. */
  function TotalDataRows(sheets: seq<Worksheet>): int {
    if sheets == [] then 0
    else TotalDataRows(sheets[..|sheets| - 1]) + sheets[|sheets| - 1].maxRow - 1
  }

  /** Every sheet has its header row, so no sheet lowers the count. */
  lemma {:induction false} TotalDataRowsBounds(sheets: seq<Worksheet>)
    requires forall k :: 0 <= k < |sheets| ==> sheets[k].Valid()
    ensures 0 <= TotalDataRows(sheets)
    ensures forall k :: 0 <= k < |sheets| ==> sheets[k].maxRow - 1 <= TotalDataRows(sheets)
  {
    if sheets != [] {
      var n := |sheets| - 1;
      TotalDataRowsBounds(sheets[..n]);
    }
  }

  /** What the export reports: the file written, its sheet count and its data-row count. */
  datatype Report = Report(path: string, sheetCount: nat, totalRows: int)

  /**
   * How the export ends: the workbook saved and reported, or an exception
   * raised while formatting the sheet at index `sheet`, before the save.
   */
  datatype ExportOutcome = Exported(report: Report) | Raised(sheet: nat)

  /**
   * `export_to_excel` after the frames are written: every sheet, in workbook
   * order, is formatted and its data rows counted, until adding a rule raises.
   * Sheets after the one that raised are left as they were.
   */
  method ExportToExcel(filename: string, sheets: seq<Worksheet>) returns (outcome: ExportOutcome)
    requires forall i, j :: 0 <= i < j < |sheets| ==> sheets[i] != sheets[j]
    requires forall i :: 0 <= i < |sheets| ==> sheets[i].Valid()
    modifies set i | 0 <= i < |sheets| :: sheets[i]
    ensures outcome.Exported? ==>
              outcome.report == Report(ExportPath(filename), |sheets|, TotalDataRows(sheets)) &&
              forall i :: 0 <= i < |sheets| ==> !sheets[i].RuleRaises()
    ensures outcome.Raised? ==>
              outcome.sheet < |sheets| && sheets[outcome.sheet].RuleRaises() &&
              forall i :: 0 <= i < outcome.sheet ==> !sheets[i].RuleRaises()
    ensures var done := if outcome.Exported? then |sheets| else outcome.sheet + 1;
            (forall i :: 0 <= i < done ==> sheets[i].FormattedFrom(old(sheets[i].conditionalFormatting))) &&
            (forall i :: done <= i < |sheets| ==> unchanged(sheets[i]))
  {
    var filepath := ExportPath(filename);
    var totalRows := 0;
    for i := 0 to |sheets|
      invariant totalRows == TotalDataRows(sheets[..i])
      invariant forall k :: 0 <= k < i ==> !sheets[k].RuleRaises()
      invariant forall k :: 0 <= k < i ==> sheets[k].FormattedFrom(old(sheets[k].conditionalFormatting))
      invariant forall k :: i <= k < |sheets| ==> unchanged(sheets[k])
    {
      var ws := sheets[i];
      assert sheets[..i + 1][..i] == sheets[..i];
      totalRows := totalRows + ws.maxRow - 1;
      var raised := FormatSheet(ws);
      assert forall k :: 0 <= k < |sheets| && k != i ==> sheets[k] != ws;
      if raised {
        outcome := Raised(i);
        return;
      }
    }
    assert sheets[..|sheets|] == sheets;
    outcome := Exported(Report(filepath, |sheets|, totalRows));
  }
}
