/** The spreadsheet exporter: options validation, the value coercion and
    number-format rules applied to each data cell, and where headers and data
    land on the single worksheet. The spreadsheet library itself is abstracted
    to a map from (row, column) to cell. */
module ExcelTools {
  import opened Wrappers

  /** A boxed value handed to the exporter, tagged by its runtime type: null,
      the seven numeric types `GetCellValue` tests for, and `DateTime`.
      Payloads are unbounded numbers. `Other` stands for any other object,
      identified by a description of it: a string, a bool, and also the
      numeric types the exporter does not test for (`sbyte`, `ushort`, `uint`,
      `ulong`, ...), which are neither converted nor given a number format. */
  datatype CellValue =
    | Null
    | Int(i: int)
    | Decimal(m: real)
    | Byte(b: int)
    | Long(l: int)
    | Double(d: real)
    | Short(s: int)
    | Float(f: real)
    | DateTime(ticks: int)
    | Other(description: string)

  predicate IsNumeric(v: CellValue) {
    v.Int? || v.Decimal? || v.Byte? || v.Long? || v.Double? || v.Short? || v.Float?
  }

  /** A worksheet cell: its value and its number format (`None` is the library default). */
  datatype Cell = Cell(value: CellValue, format: Option<string>)

  /** A worksheet, addressed by 1-based (row, column). */
  type Worksheet = map<(int, int), Cell>

  /** The export request; every reference-typed property may be null. */
  datatype ExportOptions = ExportOptions(
    columns: Option<seq<CellValue>>,
    values: Option<seq<seq<CellValue>>>,
    columnFormattings: Option<seq<Option<string>>>,
    path: Option<string>)
  {
    predicate IsValid() {
      columns.Some? && values.Some? && path.Some?
    }
  }

  datatype ExportError =
    | InvalidOptions   // ExcelExportException
    | NullReference    // a null argument dereferenced

  /** What `ExportExcelFile` leaves behind: the workbook saved at `path`,
      replacing whatever file was there. */
  datatype ExportedFile = ExportedFile(path: string, sheet: Worksheet)

  /** Despite its name, true when the options are NOT usable. */
  function EnsureExcelOptionsAreValid(options: Option<ExportOptions>): (invalid: bool)
    ensures invalid <==>
              options.None? || options.value.columns.None? || options.value.values.None? || options.value.path.None?
  {
    options.None? || !options.value.IsValid()
  }

  /** `GetCellValue`: a value of one of the seven numeric types it tests for
      becomes a double (through a culture-dependent
      `double.Parse(value.ToString())`, given here as `parseDouble`); everything
      else is kept as it is: date-times, and `Other` values, among them the
      untested numeric types such as `uint`. */
  function GetCellValue(v: CellValue, parseDouble: CellValue -> real): (r: CellValue)
    ensures r.Null? <==> v.Null?
    ensures r.Double? <==> IsNumeric(v)
    ensures r.DateTime? <==> v.DateTime?
    ensures !IsNumeric(v) ==> r == v
    ensures IsNumeric(r) ==> r.Double?
  {
    if IsNumeric(v) then Double(parseDouble(v)) else v
  }

  /** .NET `char.IsWhiteSpace`: the Unicode space, line and paragraph
      separators, and the controls U+0009-U+000D and U+0085. */
  predicate IsWhiteSpace(ch: char) {
    || ch == ' '
    || ('\t' <= ch <= '\r')
    || ch == '\U{85}' || ch == '\U{A0}' || ch == '\U{1680}'
    || ('\U{2000}' <= ch <= '\U{200A}')
    || ch == '\U{2028}' || ch == '\U{2029}' || ch == '\U{202F}' || ch == '\U{205F}' || ch == '\U{3000}'
  }

  predicate IsNullOrWhiteSpace(s: Option<string>) {
    s.None? || forall i :: 0 <= i < |s.value| ==> IsWhiteSpace(s.value[i])
  }

  /** `s.Replace("'", "")`: every single quote removed, wherever it stands. */
  function RemoveQuotes(s: string): (r: string)
    ensures '\'' !in r
    ensures multiset(r) == multiset(s)['\'' := 0]
    decreases |s|
  {
    if |s| == 0 then ""
    else
      var rest := RemoveQuotes(s[1..]);
      assert s == [s[0]] + s[1..];
      if s[0] == '\'' then rest else [s[0]] + rest
  }

  /** The number format a cell ends up with when `columnFormatting` is applied
      to a cell holding `value` whose current format is `current`. */
  function SetCellFormat(current: Option<string>, value: CellValue, columnFormatting: Option<string>,
                         convertMomentFormat: string -> string): (r: Option<string>)
    ensures r != current ==> !IsNullOrWhiteSpace(columnFormatting) && (value.Double? || value.DateTime?)
    ensures !IsNullOrWhiteSpace(columnFormatting) && value.DateTime? ==>
              r == Some(convertMomentFormat(columnFormatting.value))
    ensures !IsNullOrWhiteSpace(columnFormatting) && value.Double? ==>
              r.Some? && '\'' !in r.value
              && multiset(r.value) == multiset(columnFormatting.value)['\'' := 0]
    ensures !IsNullOrWhiteSpace(columnFormatting) && value.Double? ==>
              r == Some(RemoveQuotes(columnFormatting.value))
  {
    if !IsNullOrWhiteSpace(columnFormatting) && (value.Double? || value.DateTime?) then
      Some(if value.DateTime? then convertMomentFormat(columnFormatting.value) else RemoveQuotes(columnFormatting.value))
    else
      current
  }

  /** The formatting string of 0-based column `column`, if the list has one. */
  function ColumnFormatting(formattings: Option<seq<Option<string>>>, column: nat): (r: Option<string>)
    ensures r.Some? ==> formattings.Some? && column < |formattings.value| && r == formattings.value[column]
    ensures formattings.Some? && column < |formattings.value| ==> r == formattings.value[column]
  {
    if formattings.Some? && |formattings.value| > column then formattings.value[column] else None
  }

  /** How a data value becomes a cell: raw (`GetExcelFormat`), or coerced and
      formatted per column (`ExportExcelFile`). */
  datatype Placement =
    | Raw
    | Formatted(columnFormattings: Option<seq<Option<string>>>,
                convertMomentFormat: string -> string,
                parseDouble: CellValue -> real)

  /** The cell written for `raw` in 0-based data column `column`. A data cell is
      fresh when its format is set, so the format starts from the default. */
  function PlaceCell(placement: Placement, raw: CellValue, column: nat): Cell {
    match placement
    case Raw => Cell(raw, None)
    case Formatted(formattings, convert, parse) =>
      var value := GetCellValue(raw, parse);
      Cell(value, SetCellFormat(None, value, ColumnFormatting(formattings, column), convert))
  }

  predicate HeaderPosition(columns: seq<CellValue>, p: (int, int)) {
    p.0 == 1 && 1 <= p.1 <= |columns|
  }

  predicate DataPosition(rows: seq<seq<CellValue>>, p: (int, int)) {
    2 <= p.0 < |rows| + 2 && 1 <= p.1 <= |rows[p.0 - 2]|
  }

  /** The number of data cells. */
  function CellCount(rows: seq<seq<CellValue>>): nat
    decreases |rows|
  {
    if |rows| == 0 then 0 else CellCount(rows[..|rows| - 1]) + |rows[|rows| - 1]|
  }

  /** The worksheet holds exactly the header in row 1 and the data from row 2 on. */
  ghost predicate LaidOut(sheet: Worksheet, columns: seq<CellValue>, rows: seq<seq<CellValue>>, placement: Placement) {
    && (forall p :: p in sheet <==> HeaderPosition(columns, p) || DataPosition(rows, p))
    && (forall i :: 0 <= i < |columns| ==> (1, i + 1) in sheet && sheet[(1, i + 1)] == Cell(columns[i], None))
    && (forall r, c :: 0 <= r < |rows| && 0 <= c < |rows[r]| ==>
          (r + 2, c + 1) in sheet && sheet[(r + 2, c + 1)] == PlaceCell(placement, rows[r][c], c))
    && |sheet| == |columns| + CellCount(rows)
  }

  /** The header loop: `Columns[i]` written unchanged to row 1, column `i + 1`. */
  method WriteHeader(columns: seq<CellValue>) returns (sheet: Worksheet)
    ensures forall p :: p in sheet <==> HeaderPosition(columns, p)
    ensures forall i :: 0 <= i < |columns| ==> (1, i + 1) in sheet && sheet[(1, i + 1)] == Cell(columns[i], None)
    ensures |sheet| == |columns|
  {
    sheet := map[];
    var i := 0;
    while i < |columns|
      invariant 0 <= i <= |columns|
      invariant forall p {:trigger p in sheet} :: p in sheet <==> p.0 == 1 && 1 <= p.1 <= i
      invariant forall j :: 0 <= j < i ==> sheet[(1, j + 1)] == Cell(columns[j], None)
      invariant |sheet| == i
    {
      sheet := sheet[(1, i + 1) := Cell(columns[i], None)];
      i := i + 1;
    }
  }

  /** Sheet row `row` holds `values`, value `c` in column `c + 1`, placed as
      `placement` places it. */
  ghost predicate RowAt(sheet: Worksheet, row: int, values: seq<CellValue>, placement: Placement) {
    forall column :: 1 <= column <= |values| ==>
      (row, column) in sheet && sheet[(row, column)] == PlaceCell(placement, values[column - 1], column - 1)
  }

  /** The inner data loop for 0-based row `row`: its values land in sheet row
      `row + 2`, column `c + 1`. */
  method WriteRow(sheet: Worksheet, row: nat, values: seq<CellValue>, placement: Placement) returns (out: Worksheet)
    requires forall p {:trigger p in sheet} :: p in sheet ==> p.0 != row + 2
    ensures forall p {:trigger p in out} {:trigger p in sheet} :: p in out <==> p in sheet || (p.0 == row + 2 && 1 <= p.1 <= |values|)
    ensures forall p :: p in sheet ==> out[p] == sheet[p]
    ensures RowAt(out, row + 2, values, placement)
    ensures |out| == |sheet| + |values|
  {
    out := sheet;
    var c := 0;
    while c < |values|
      invariant 0 <= c <= |values|
      invariant forall p {:trigger p in out} {:trigger p in sheet} :: p in out <==> p in sheet || (p.0 == row + 2 && 1 <= p.1 <= c)
      invariant forall p :: p in sheet ==> out[p] == sheet[p]
      invariant forall j :: 0 <= j < c ==> out[(row + 2, j + 1)] == PlaceCell(placement, values[j], j)
      invariant |out| == |sheet| + c
    {
      out := out[(row + 2, c + 1) := PlaceCell(placement, values[c], c)];
      c := c + 1;
    }
  }

  /** The first `r` rows have been written on top of `sheet`, and nothing else. */
  ghost predicate RowsWritten(sheet: Worksheet, out: Worksheet, rows: seq<seq<CellValue>>, r: nat, placement: Placement)
    requires r <= |rows|
  {
    && (forall p {:trigger p in out} {:trigger p in sheet} :: p in out <==> p in sheet || (DataPosition(rows, p) && p.0 < r + 2))
    && (forall p :: p in sheet ==> out[p] == sheet[p])
    && (forall i :: 0 <= i < r ==> RowAt(out, i + 2, rows[i], placement))
    && |out| == |sheet| + CellCount(rows[..r])
  }

  /** A written row stays written in any sheet that keeps the cells. */
  lemma RowAtExtends(small: Worksheet, large: Worksheet, row: int, values: seq<CellValue>, placement: Placement)
    requires RowAt(small, row, values, placement)
    requires forall p :: p in small ==> p in large && large[p] == small[p]
    ensures RowAt(large, row, values, placement)
  {
  }

  /** Writing row `r` extends what the first `r` rows established to `r + 1` rows. */
  lemma RowWrittenStep(sheet: Worksheet, before: Worksheet, after: Worksheet,
                       rows: seq<seq<CellValue>>, r: nat, placement: Placement)
    requires r < |rows|
    requires RowsWritten(sheet, before, rows, r, placement)
    requires forall p {:trigger p in after} {:trigger p in before} :: p in after <==> p in before || (p.0 == r + 2 && 1 <= p.1 <= |rows[r]|)
    requires forall p :: p in before ==> after[p] == before[p]
    requires RowAt(after, r + 2, rows[r], placement)
    requires |after| == |before| + |rows[r]|
    ensures RowsWritten(sheet, after, rows, r + 1, placement)
  {
    assert rows[..r + 1][..r] == rows[..r];
    RowDomainStep(sheet, before, after, rows, r);
    forall i | 0 <= i < r + 1 ensures RowAt(after, i + 2, rows[i], placement) {
      if i < r {
        RowAtExtends(before, after, i + 2, rows[i], placement);
      }
    }
  }

  lemma RowDomainStep(sheet: Worksheet, before: Worksheet, after: Worksheet, rows: seq<seq<CellValue>>, r: nat)
    requires r < |rows|
    requires forall p {:trigger p in before} {:trigger p in sheet} :: p in before <==> p in sheet || (DataPosition(rows, p) && p.0 < r + 2)
    requires forall p {:trigger p in after} {:trigger p in before} :: p in after <==> p in before || (p.0 == r + 2 && 1 <= p.1 <= |rows[r]|)
    ensures forall p {:trigger p in after} {:trigger p in sheet} :: p in after <==> p in sheet || (DataPosition(rows, p) && p.0 < r + 3)
  {
    forall p ensures p in after <==> p in sheet || (DataPosition(rows, p) && p.0 < r + 3) {
      if p.0 == r + 2 {
        assert DataPosition(rows, p) <==> 1 <= p.1 <= |rows[r]|;
      }
    }
  }

  /** The outer data loop: row `r` of the values lands in sheet row `r + 2`,
      whatever its length, next to a sheet that so far holds only row 1. */
  method WriteRows(sheet: Worksheet, rows: seq<seq<CellValue>>, placement: Placement) returns (out: Worksheet)
    requires forall p {:trigger p in sheet} :: p in sheet ==> p.0 < 2
    ensures forall p :: p in out <==> p in sheet || DataPosition(rows, p)
    ensures forall p :: p in sheet ==> out[p] == sheet[p]
    ensures forall r, c :: 0 <= r < |rows| && 0 <= c < |rows[r]| ==>
              (r + 2, c + 1) in out && out[(r + 2, c + 1)] == PlaceCell(placement, rows[r][c], c)
    ensures |out| == |sheet| + CellCount(rows)
  {
    out := sheet;
    var r := 0;
    while r < |rows|
      invariant 0 <= r <= |rows|
      invariant RowsWritten(sheet, out, rows, r, placement)
    {
      var next := WriteRow(out, r, rows[r], placement);
      RowWrittenStep(sheet, out, next, rows, r, placement);
      out := next;
      r := r + 1;
    }
    assert rows[..r] == rows;
    forall i, c | 0 <= i < |rows| && 0 <= c < |rows[i]|
      ensures (i + 2, c + 1) in out && out[(i + 2, c + 1)] == PlaceCell(placement, rows[i][c], c)
    {
      assert RowAt(out, i + 2, rows[i], placement);
    }
  }

  /** `ExportExcelFile`: refuses invalid options before touching the file,
      otherwise writes the header and the coerced, formatted data. */
  method ExportExcelFile(options: Option<ExportOptions>,
                         convertMomentFormat: string -> string,
                         parseDouble: CellValue -> real) returns (r: Result<ExportedFile, ExportError>)
    ensures r.Failure? <==> EnsureExcelOptionsAreValid(options)
    ensures r.Failure? ==> r.error == InvalidOptions
    ensures r.Success? ==>
              var o := options.value;
              && r.value.path == o.path.value
              && LaidOut(r.value.sheet, o.columns.value, o.values.value,
                         Formatted(o.columnFormattings, convertMomentFormat, parseDouble))
  {
    if EnsureExcelOptionsAreValid(options) {
      return Failure(InvalidOptions);
    }
    var o := options.value;
    var placement := Formatted(o.columnFormattings, convertMomentFormat, parseDouble);
    var sheet := WriteHeader(o.columns.value);
    sheet := WriteRows(sheet, o.values.value, placement);
    return Success(ExportedFile(o.path.value, sheet));
  }

  /** `GetExcelFormat`: the same layout with the raw values, unformatted. A
      null argument is dereferenced and throws. */
  method GetExcelFormat(columns: Option<seq<CellValue>>, data: Option<seq<seq<CellValue>>>)
    returns (r: Result<Worksheet, ExportError>)
    ensures r.Failure? <==> columns.None? || data.None?
    ensures r.Failure? ==> r.error == NullReference
    ensures r.Success? ==> LaidOut(r.value, columns.value, data.value, Raw)
  {
    if columns.None? || data.None? {
      return Failure(NullReference);
    }
    var sheet := WriteHeader(columns.value);
    sheet := WriteRows(sheet, data.value, Raw);
    return Success(sheet);
  }
}
