/** Properties of the spreadsheet exporter's layout, coercion and formatting
    rules, stated over the worksheets `ExportExcelFile` and `GetExcelFormat`
    produce. */
module ExcelProperties {
  import opened Wrappers
  import opened ExcelTools

  // ---------------------------------------------------------------------------
  // Layout

  /** Row 1 holds the column headers and nothing else: no data value ever lands
      there, however long a data row is. */
  lemma HeaderRowIsColumns(sheet: Worksheet, columns: seq<CellValue>, rows: seq<seq<CellValue>>, placement: Placement)
    requires LaidOut(sheet, columns, rows, placement)
    ensures forall c :: (1, c) in sheet <==> 1 <= c <= |columns|
    ensures forall p {:trigger p in sheet} :: p in sheet && p.0 == 1 ==> sheet[p] == Cell(columns[p.1 - 1], None)
  {
    forall p | p in sheet && p.0 == 1 ensures sheet[p] == Cell(columns[p.1 - 1], None) {
      assert HeaderPosition(columns, p);
      var i := p.1 - 1;
      assert (1, i + 1) == p;
    }
  }

  /** A data row longer than the header row is written in full: its last value
      has a cell, while the header row has none in that column. */
  lemma LongRowWrittenInFull(sheet: Worksheet, columns: seq<CellValue>, rows: seq<seq<CellValue>>,
                             placement: Placement, r: nat)
    requires LaidOut(sheet, columns, rows, placement)
    requires r < |rows| && |rows[r]| > |columns|
    ensures (r + 2, |rows[r]|) in sheet
    ensures (1, |rows[r]|) !in sheet
  {
    var c := |rows[r]| - 1;
    assert (r + 2, c + 1) in sheet && sheet[(r + 2, c + 1)] == PlaceCell(placement, rows[r][c], c);
    assert !HeaderPosition(columns, (1, |rows[r]|));
  }

  /** `ExportExcelFile` and `GetExcelFormat` lay out the same cells: the headers
      are identical, each data value of the former is the coercion of the
      latter's raw value, and the latter sets no number format at all. */
  lemma ExportCoercesRawLayout(raw: Worksheet, formatted: Worksheet,
                               columns: seq<CellValue>, rows: seq<seq<CellValue>>,
                               formattings: Option<seq<Option<string>>>,
                               convertMomentFormat: string -> string, parseDouble: CellValue -> real)
    requires LaidOut(raw, columns, rows, Raw)
    requires LaidOut(formatted, columns, rows, Formatted(formattings, convertMomentFormat, parseDouble))
    ensures raw.Keys == formatted.Keys
    ensures forall p :: p in raw ==> raw[p].format.None?
    ensures forall p {:trigger p in raw} :: p in raw && p.0 == 1 ==> formatted[p] == raw[p]
    ensures forall p {:trigger p in raw} :: p in raw && p.0 != 1 ==> formatted[p].value == GetCellValue(raw[p].value, parseDouble)
  {
    forall p | p in raw
      ensures p in formatted && raw[p].format.None?
      ensures p.0 == 1 ==> formatted[p] == raw[p]
      ensures p.0 != 1 ==> formatted[p].value == GetCellValue(raw[p].value, parseDouble)
    {
      if p.0 == 1 {
        var i := p.1 - 1;
        assert (1, i + 1) == p;
        assert raw[(1, i + 1)] == Cell(columns[i], None);
      } else {
        var r, c := p.0 - 2, p.1 - 1;
        assert (r + 2, c + 1) == p;
        assert raw[(r + 2, c + 1)] == PlaceCell(Raw, rows[r][c], c);
      }
    }
  }

  // ---------------------------------------------------------------------------
  // Data cells of an export

  /** In an export every data cell holds the coercion of its input: never a
      non-double number, `null` only for `null`, date-times and other objects as
      given; and the cell carries a number format exactly when the column has a
      non-blank formatting string and the value is a double or a date-time. */
  lemma ExportDataCells(sheet: Worksheet, columns: seq<CellValue>, rows: seq<seq<CellValue>>,
                        formattings: Option<seq<Option<string>>>,
                        convertMomentFormat: string -> string, parseDouble: CellValue -> real,
                        r: nat, c: nat)
    requires LaidOut(sheet, columns, rows, Formatted(formattings, convertMomentFormat, parseDouble))
    requires r < |rows| && c < |rows[r]|
    ensures var cell := sheet[(r + 2, c + 1)];
            && (IsNumeric(cell.value) ==> cell.value.Double?)
            && (cell.value.Double? <==> IsNumeric(rows[r][c]))
            && (cell.value.Null? <==> rows[r][c].Null?)
            && (!IsNumeric(rows[r][c]) ==> cell.value == rows[r][c])
            && (cell.format.Some? <==>
                  !IsNullOrWhiteSpace(ColumnFormatting(formattings, c)) && (cell.value.Double? || cell.value.DateTime?))
  {
    var cell := sheet[(r + 2, c + 1)];
    assert cell == PlaceCell(Formatted(formattings, convertMomentFormat, parseDouble), rows[r][c], c);
  }

  /** A numeric cell's format is its column's formatting string with every
      single quote removed; a date-time cell's is that string converted from
      the moment.js dialect. */
  lemma ExportFormatStrings(sheet: Worksheet, columns: seq<CellValue>, rows: seq<seq<CellValue>>,
                            formattings: Option<seq<Option<string>>>,
                            convertMomentFormat: string -> string, parseDouble: CellValue -> real,
                            r: nat, c: nat)
    requires LaidOut(sheet, columns, rows, Formatted(formattings, convertMomentFormat, parseDouble))
    requires r < |rows| && c < |rows[r]|
    requires !IsNullOrWhiteSpace(ColumnFormatting(formattings, c))
    ensures var cell, f := sheet[(r + 2, c + 1)], ColumnFormatting(formattings, c).value;
            && (IsNumeric(rows[r][c]) ==> cell.format == Some(RemoveQuotes(f)))
            && (rows[r][c].DateTime? ==> cell.format == Some(convertMomentFormat(f)))
  {
    var cell := sheet[(r + 2, c + 1)];
    assert cell == PlaceCell(Formatted(formattings, convertMomentFormat, parseDouble), rows[r][c], c);
  }

  /** A value outside the types the exporter tests for, such as a `uint`, is
      written as it is and keeps the default number format, whatever its
      column's formatting string. */
  lemma ExportOtherUnformatted(sheet: Worksheet, columns: seq<CellValue>, rows: seq<seq<CellValue>>,
                               formattings: Option<seq<Option<string>>>,
                               convertMomentFormat: string -> string, parseDouble: CellValue -> real,
                               r: nat, c: nat)
    requires LaidOut(sheet, columns, rows, Formatted(formattings, convertMomentFormat, parseDouble))
    requires r < |rows| && c < |rows[r]|
    requires rows[r][c].Other?
    ensures sheet[(r + 2, c + 1)] == Cell(rows[r][c], None)
  {
    assert sheet[(r + 2, c + 1)] == PlaceCell(Formatted(formattings, convertMomentFormat, parseDouble), rows[r][c], c);
  }

  // ---------------------------------------------------------------------------
  // Coercion

  /** Coercing twice gives a value of the same kind as coercing once, and values
      that are not numbers are fixed points. */
  lemma CoercionSettles(v: CellValue, parseDouble: CellValue -> real)
    ensures GetCellValue(GetCellValue(v, parseDouble), parseDouble).Double? == GetCellValue(v, parseDouble).Double?
    ensures !GetCellValue(v, parseDouble).Double? ==>
              GetCellValue(GetCellValue(v, parseDouble), parseDouble) == GetCellValue(v, parseDouble)
  {
  }

  // ---------------------------------------------------------------------------
  // Quote stripping

  lemma {:induction false} RemoveQuotesConcat(a: string, b: string)
    ensures RemoveQuotes(a + b) == RemoveQuotes(a) + RemoveQuotes(b)
    decreases |a|
  {
    if |a| == 0 {
      assert a + b == b;
    } else {
      assert (a + b)[0] == a[0] && (a + b)[1..] == a[1..] + b;
      RemoveQuotesConcat(a[1..], b);
    }
  }

  /** A formatting string without quotes is used unchanged. */
  lemma {:induction false} RemoveQuotesKeepsUnquoted(s: string)
    requires '\'' !in s
    ensures RemoveQuotes(s) == s
    decreases |s|
  {
    if |s| > 0 {
      RemoveQuotesKeepsUnquoted(s[1..]);
    }
  }

  /** Stripping quotes a second time changes nothing. */
  lemma RemoveQuotesIdempotent(s: string)
    ensures RemoveQuotes(RemoveQuotes(s)) == RemoveQuotes(s)
  {
    RemoveQuotesKeepsUnquoted(RemoveQuotes(s));
  }

  lemma RemoveQuotesSingle(ch: char)
    ensures RemoveQuotes([ch]) == if ch == '\'' then "" else [ch]
  {
    assert [ch][1..] == "";
  }

  /** A quoted formatting string loses its surrounding quotes. */
  lemma RemoveQuotesSurrounding(s: string)
    requires '\'' !in s
    ensures RemoveQuotes(['\''] + s + ['\'']) == s
  {
    RemoveQuotesConcat(['\''] + s, ['\'']);
    RemoveQuotesConcat(['\''], s);
    RemoveQuotesSingle('\'');
    RemoveQuotesKeepsUnquoted(s);
  }

  /** A quote inside the string goes too, not only those at its ends. */
  lemma RemoveQuotesInner(a: string, b: string)
    ensures RemoveQuotes(a + ['\''] + b) == RemoveQuotes(a) + RemoveQuotes(b)
  {
    RemoveQuotesConcat(a + ['\''], b);
    RemoveQuotesConcat(a, ['\'']);
    RemoveQuotesSingle('\'');
  }
}
