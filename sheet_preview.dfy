/**
 * The sheet preview of the main window: where the header row and the column
 * window are, how a selection in the preview table moves them, when the
 * first data row is promoted to header, and the row numbers the preview
 * table shows. Rows are counted as the window counts them: the header spin
 * value `H` (1-based, at least 1) and the data rows after it numbered from
 * `H + 1`, the numbering the record builder's messages use.
 */
module SheetPreview {
  import opened Wrappers
  import opened Text
  import opened Values

  // ---------------------------------------------------------------------------
  // Header row and column window
  // ---------------------------------------------------------------------------

  /** `_current_header_excel_row`: the header spin value, raised to 1 when below. */
  function CurrentHeaderExcelRow(spin: int): (header: int)
    ensures header >= 1
    ensures spin >= 1 ==> header == spin
    ensures spin < 1 ==> header == 1
  {
    if spin < 1 then 1 else spin
  }

  /**
   * The spin boxes' upper bound: the window sets only their minimums (1 for
   * the header row and the start column, 0 for the end column), so each
   * keeps QSpinBox's default maximum of 99.
   */
  const SpinMaximum := 99

  /** `QSpinBox.setValue(v)`: the value the spin box holds, `v` clamped to its range. */
  function SpinValue(minimum: int, v: int): (r: int)
    requires minimum <= SpinMaximum
    ensures minimum <= r <= SpinMaximum
    ensures minimum <= v <= SpinMaximum ==> r == v
    ensures v > SpinMaximum ==> r == SpinMaximum
    ensures v < minimum ==> r == minimum
  {
    if v < minimum then minimum else if v > SpinMaximum then SpinMaximum else v
  }

  /** The column window a preview reads, and what the end spin box holds afterwards. */
  datatype ColumnWindow = ColumnWindow(start: int, end: Option<int>, endSpin: int)

  /**
   * `col_end = spin or None`, reset to None (and the spin box to 0) when it
   * lies before the start column: the window read is never inverted.
   */
  function ColumnWindowOf(startSpin: int, endSpin: int): (w: ColumnWindow)
    ensures w.start == startSpin
    ensures w.end.None? <==> endSpin == 0 || endSpin < startSpin
    ensures w.end.Some? ==> w.end.value == endSpin && startSpin <= w.end.value
    ensures w.endSpin == if w.end.None? then 0 else endSpin
  {
    var colEnd: Option<int> := if endSpin == 0 then None else Some(endSpin);
    if colEnd.Some? && colEnd.value < startSpin then ColumnWindow(startSpin, None, 0)
    else ColumnWindow(startSpin, colEnd, endSpin)
  }

  /** Refreshing again with the spin boxes as the reset left them reads the same window. */
  lemma ColumnWindowStable(startSpin: int, endSpin: int)
    ensures ColumnWindowOf(startSpin, ColumnWindowOf(startSpin, endSpin).endSpin) == ColumnWindowOf(startSpin, endSpin)
  {
  }

  // ---------------------------------------------------------------------------
  // Selections in the preview table
  // ---------------------------------------------------------------------------

  /** The smallest of a non-empty list. */
  function Min(xs: seq<int>): (m: int)
    requires |xs| > 0
    ensures m in xs && forall x :: x in xs ==> m <= x
  {
    if |xs| == 1 then xs[0]
    else
      var rest := Min(xs[1..]);
      assert forall x :: x in xs ==> x == xs[0] || x in xs[1..];
      if xs[0] <= rest then xs[0] else rest
  }

  /** The largest of a non-empty list. */
  function Max(xs: seq<int>): (m: int)
    requires |xs| > 0
    ensures m in xs && forall x :: x in xs ==> x <= m
  {
    if |xs| == 1 then xs[0]
    else
      var rest := Max(xs[1..]);
      assert forall x :: x in xs ==> x == xs[0] || x in xs[1..];
      if xs[0] >= rest then xs[0] else rest
  }

  /** A rectangle selected in the preview table, by its first and last table row and column. */
  datatype Range = Range(topRow: int, bottomRow: int, leftColumn: int, rightColumn: int)

  function TopRows(ranges: seq<Range>): (ts: seq<int>)
    ensures |ts| == |ranges| && forall i :: 0 <= i < |ranges| ==> ts[i] == ranges[i].topRow
  {
    if ranges == [] then [] else TopRows(ranges[..|ranges| - 1]) + [ranges[|ranges| - 1].topRow]
  }

  function LeftColumns(ranges: seq<Range>): (ls: seq<int>)
    ensures |ls| == |ranges| && forall i :: 0 <= i < |ranges| ==> ls[i] == ranges[i].leftColumn
  {
    if ranges == [] then [] else LeftColumns(ranges[..|ranges| - 1]) + [ranges[|ranges| - 1].leftColumn]
  }

  function RightColumns(ranges: seq<Range>): (rs: seq<int>)
    ensures |rs| == |ranges| && forall i :: 0 <= i < |ranges| ==> rs[i] == ranges[i].rightColumn
  {
    if ranges == [] then [] else RightColumns(ranges[..|ranges| - 1]) + [ranges[|ranges| - 1].rightColumn]
  }

  /**
   * `_apply_selection_to_range`: the new (start, end) spin values span the
   * selected columns, offset by the current start column, each as its spin
   * box holds it (clamped to 1..99 and 0..99); nothing changes without a
   * selection.
   */
  function SelectionToRange(colStart: int, ranges: seq<Range>): (r: Option<(int, int)>)
    ensures r.None? <==> |ranges| == 0
    ensures r.Some? ==> 1 <= r.value.0 <= SpinMaximum && 0 <= r.value.1 <= SpinMaximum
    ensures r.Some? ==>
      (forall i :: 0 <= i < |ranges| ==>
         r.value.0 <= SpinValue(1, colStart + ranges[i].leftColumn) && SpinValue(0, colStart + ranges[i].rightColumn) <= r.value.1)
      && (exists i :: 0 <= i < |ranges| && r.value.0 == SpinValue(1, colStart + ranges[i].leftColumn))
      && (exists i :: 0 <= i < |ranges| && r.value.1 == SpinValue(0, colStart + ranges[i].rightColumn))
  {
    if ranges == [] then None
    else
      var lefts := LeftColumns(ranges);
      var rights := RightColumns(ranges);
      var minCol := Min(lefts);
      var maxCol := Max(rights);
      assert forall i :: 0 <= i < |ranges| ==> lefts[i] in lefts && rights[i] in rights;
      Some((SpinValue(1, colStart + minCol), SpinValue(0, colStart + maxCol)))
  }

  /**
   * A selection of well-formed rectangles from a start column of at least 1
   * gives a window the next refresh keeps as it is.
   */
  lemma SelectedWindowKept(colStart: int, ranges: seq<Range>)
    requires colStart >= 1 && |ranges| > 0
    requires forall i :: 0 <= i < |ranges| ==> 0 <= ranges[i].leftColumn <= ranges[i].rightColumn
    ensures var r := SelectionToRange(colStart, ranges).value;
      ColumnWindowOf(r.0, r.1) == ColumnWindow(r.0, Some(r.1), r.1)
  {
    var r := SelectionToRange(colStart, ranges).value;
    var i :| 0 <= i < |ranges| && r.0 == SpinValue(1, colStart + ranges[i].leftColumn);
    assert SpinValue(0, colStart + ranges[i].rightColumn) <= r.1;
  }

  /** `_excel_row_from_table_row`: the first data row recorded by the last preview (2 before any), plus the offset. */
  function ExcelRowFromTableRow(firstDataRow: Option<int>, rowIdx: int): int {
    firstDataRow.GetOr(2) + rowIdx
  }

  predicate AllDigits(s: string) {
    forall i :: 0 <= i < |s| ==> IsDigit(s[i])
  }

  /** `int(text)` on an optional minus sign and decimal digits; None where `int` raises. */
  function ParseInt(s: string): Option<int> {
    if |s| > 1 && s[0] == '-' && AllDigits(s[1..]) then Some(-(DigitsValue(s[1..]) as int))
    else if |s| > 0 && AllDigits(s) then Some(DigitsValue(s))
    else None
  }

  /** A number written by `str` reads back as itself. */
  lemma ParseIntOfText(i: int)
    ensures ParseInt(IntToText(i)) == Some(i)
  {
    var digits := NatToText(if i < 0 then -i else i);
    NatToTextRoundTrip(if i < 0 then -i else i);
    assert AllDigits(digits);
    if i < 0 {
      var s := "-" + digits;
      assert s[1..] == digits;
      assert ParseInt(s) == Some(-(DigitsValue(digits) as int));
    } else {
      assert IsDigit(digits[0]);
      assert ParseInt(digits) == Some(DigitsValue(digits));
    }
  }

  /**
   * `_apply_selection_to_header`: the value the header spin takes is the
   * number shown beside the top selected row (its offset from the first data
   * row when there is no readable number), raised to 1 by `max` and held to
   * 99 by the spin box.
   */
  function SelectionToHeader(ranges: seq<Range>, rowLabels: seq<string>, firstDataRow: Option<int>): (r: Option<int>)
    ensures r.None? <==> |ranges| == 0
    ensures r.Some? ==> 1 <= r.value <= SpinMaximum
  {
    if ranges == [] then None
    else
      var minRow := Min(TopRows(ranges));
      var parsed := if 0 <= minRow < |rowLabels| then ParseInt(rowLabels[minRow]) else None;
      var excelRow := if parsed.Some? then parsed.value else ExcelRowFromTableRow(firstDataRow, minRow);
      Some(SpinValue(1, if excelRow < 1 then 1 else excelRow))
  }

  /**
   * Whatever table is shown, the header becomes the row numbered beside the
   * top selected row `ranges[k].topRow`: its label when the label is a
   * number, otherwise the first data row plus its offset, as the header
   * spin box holds it (never less than 1, never more than 99).
   */
  lemma SelectionHeaderIsTopRow(ranges: seq<Range>, rowLabels: seq<string>, firstDataRow: Option<int>, k: int)
    requires 0 <= k < |ranges|
    requires forall j :: 0 <= j < |ranges| ==> ranges[k].topRow <= ranges[j].topRow
    ensures var top := ranges[k].topRow;
      0 <= top < |rowLabels| && ParseInt(rowLabels[top]).Some? ==>
        SelectionToHeader(ranges, rowLabels, firstDataRow) == Some(SpinValue(1, ParseInt(rowLabels[top]).value))
    ensures var top := ranges[k].topRow;
      !(0 <= top < |rowLabels| && ParseInt(rowLabels[top]).Some?) ==>
        SelectionToHeader(ranges, rowLabels, firstDataRow) == Some(SpinValue(1, firstDataRow.GetOr(2) + top))
  {
    var m := Min(TopRows(ranges));
    var i :| 0 <= i < |ranges| && TopRows(ranges)[i] == m;
    assert ranges[k].topRow in TopRows(ranges);
    assert m == ranges[k].topRow;
  }

  // ---------------------------------------------------------------------------
  // The preview table's row numbers
  // ---------------------------------------------------------------------------

  /** What `_populate_sheet_preview` records about the table it fills. */
  datatype PreviewTable = PreviewTable(headerValue: int, firstDataRow: int, rowLabels: seq<string>)

  /** `_populate_sheet_preview(preview, header_row_excel)`: rows numbered from `header_row_excel + 1`. */
  function Populate(sampleRows: nat, headerRowExcel: int): (t: PreviewTable)
    ensures t.headerValue == headerRowExcel && t.firstDataRow == headerRowExcel + 1
    ensures |t.rowLabels| == sampleRows
    ensures forall i :: 0 <= i < sampleRows ==> t.rowLabels[i] == IntToText(headerRowExcel + 1 + i)
  {
    PreviewTable(headerRowExcel, headerRowExcel + 1, seq(sampleRows, i => IntToText(headerRowExcel + 1 + i)))
  }

  /**
   * `_refresh_sheet_preview` as written: it passes the first data row where
   * the header row is expected, so the table's header is one row low and
   * its rows are numbered from `header + 2`.
   */
  function RefreshAsWritten(header: int, sampleRows: nat): (t: PreviewTable)
    ensures t.headerValue == header + 1 && t.firstDataRow == header + 2 && |t.rowLabels| == sampleRows
    ensures forall i :: 0 <= i < sampleRows ==> t.rowLabels[i] == IntToText(header + 2 + i)
  {
    var firstDataRow := header + 1;
    Populate(sampleRows, firstDataRow)
  }

  /**
   * The refresh with the header row passed on, as `_populate_sheet_preview`'s
   * parameter expects: rows are numbered from `header + 1`, as the record
   * builder numbers them.
   */
  function Refresh(header: int, sampleRows: nat): (t: PreviewTable)
    ensures t.headerValue == header && t.firstDataRow == header + 1 && |t.rowLabels| == sampleRows
    ensures forall i :: 0 <= i < sampleRows ==> t.rowLabels[i] == IntToText(header + 1 + i)
  {
    Populate(sampleRows, header)
  }

  /**
   * As written, the first preview row under header `H` is labelled `H + 2`,
   * where the record builder numbers that row `H + 1`, and choosing it as
   * header moves the header to row `H + 2` (as far as the spin box's 99
   * allows), one past the row that promotion of the same row makes the
   * header (`PromotionIff`: `H + 1`).
   */
  lemma RefreshAsWrittenSkipsARow(header: int, sampleRows: nat)
    requires header >= 1 && sampleRows >= 1
    ensures RefreshAsWritten(header, sampleRows).firstDataRow == header + 2
    ensures RefreshAsWritten(header, sampleRows).rowLabels[0] == IntToText(header + 2)
    ensures RefreshAsWritten(header, sampleRows).rowLabels[0] != IntToText(header + 1)
    ensures SelectionToHeader([Range(0, 0, 0, 0)], RefreshAsWritten(header, sampleRows).rowLabels,
                              Some(RefreshAsWritten(header, sampleRows).firstDataRow)) == Some(SpinValue(1, header + 2))
  {
    ParseIntOfText(header + 2);
    ParseIntOfText(header + 1);
    assert TopRows([Range(0, 0, 0, 0)]) == [0];
  }

  /**
   * With the header row passed on, each preview row is labelled with the
   * number the record builder gives it, and choosing it as header makes
   * that row the header (up to the spin box's 99); for the first row that is
   * the row promotion picks.
   */
  lemma SelectedRowBecomesHeader(header: int, sampleRows: nat, idx: int)
    requires header >= 1 && 0 <= idx < sampleRows
    ensures SelectionToHeader([Range(idx, idx, 0, 0)], Refresh(header, sampleRows).rowLabels, Some(Refresh(header, sampleRows).firstDataRow))
         == Some(SpinValue(1, header + 1 + idx))
  {
    ParseIntOfText(header + 1 + idx);
    assert TopRows([Range(idx, idx, 0, 0)]) == [idx];
  }

  // ---------------------------------------------------------------------------
  // Promoting the first data row to header
  // ---------------------------------------------------------------------------

  /**
   * The prefix the application's own spreadsheet reader gives columns that have
   * no header text (pandas itself would write "Unnamed: N"); the reader is not
   * part of this model.
   */
  const Placeholder := "Coluna_"

  /** `str(v).strip()` for a cell that is not None. */
  function CellText(v: Value): (t: Option<string>)
    ensures t.None? <==> v.Null?
  {
    if v.Null? then None else Some(Strip(ToText(v)))
  }

  function CellTexts(row: seq<Value>): (ts: seq<Option<string>>)
    ensures |ts| == |row|
    ensures forall i :: 0 <= i < |row| ==> ts[i] == CellText(row[i])
  {
    if row == [] then [] else [CellText(row[0])] + CellTexts(row[1..])
  }

  /** The texts present and not blank, in order. */
  function NonBlank(ts: seq<Option<string>>): (vs: seq<string>)
    ensures |vs| <= |ts|
  {
    if ts == [] then []
    else
      var t := ts[|ts| - 1];
      var rest := NonBlank(ts[..|ts| - 1]);
      if t.Some? && t.value != "" then rest + [t.value] else rest
  }

  /** Each present, non-blank text is kept. */
  lemma {:induction false} NonBlankListed(ts: seq<Option<string>>, i: int)
    requires 0 <= i < |ts| && ts[i].Some? && ts[i].value != ""
    ensures ts[i].value in NonBlank(ts)
  {
    var front := ts[..|ts| - 1];
    if i < |front| {
      assert front[i] == ts[i];
      NonBlankListed(front, i);
    }
  }

  /** Each kept text is present and not blank. */
  lemma {:induction false} NonBlankSource(ts: seq<Option<string>>, x: string)
    requires x in NonBlank(ts)
    ensures exists i :: 0 <= i < |ts| && ts[i] == Some(x) && x != ""
  {
    var front := ts[..|ts| - 1];
    var t := ts[|ts| - 1];
    if t.Some? && t.value != "" && x == t.value {
      assert ts[|ts| - 1] == Some(x);
    } else {
      NonBlankSource(front, x);
      var i :| 0 <= i < |front| && front[i] == Some(x) && x != "";
      assert ts[i] == front[i];
    }
  }

  /** The header names the first row offers. */
  function HeaderCandidates(firstRow: seq<Value>): seq<string> {
    NonBlank(CellTexts(firstRow))
  }

  /** A cell whose stripped text is a name pandas would not have made up. */
  predicate OffersName(t: Option<string>) {
    t.Some? && t.value != "" && !StartsWith(t.value, Placeholder)
  }

  /**
   * The decision of `_maybe_promote_first_data_row_as_header`: the new
   * header row, when every column has a placeholder name and the first data
   * row has some text that is not a placeholder name.
   */
  function Promotion(columns: seq<string>, sample: seq<seq<Value>>, header: int): (r: Option<int>)
    ensures r.Some? ==> r.value == SpinValue(1, header + 1)
  {
    if |columns| == 0 || |sample| == 0 then None
    else if !(forall c :: c in columns ==> StartsWith(c, Placeholder)) then None
    else
      var values := HeaderCandidates(sample[0]);
      if values == [] then None
      else if forall x :: x in values ==> StartsWith(x, Placeholder) then None
      else Some(SpinValue(1, header + 1))
  }

  /** A cell of the first row that offers a name makes promotion happen, one row down unless the spin box is at 99. */
  lemma PromotionWhenOffered(columns: seq<string>, sample: seq<seq<Value>>, header: int, i: int)
    requires |columns| > 0 && |sample| > 0 && (forall c :: c in columns ==> StartsWith(c, Placeholder))
    requires 0 <= i < |sample[0]| && OffersName(CellText(sample[0][i]))
    ensures Promotion(columns, sample, header) == Some(SpinValue(1, header + 1))
  {
    var ts := CellTexts(sample[0]);
    assert ts[i] == CellText(sample[0][i]);
    NonBlankListed(ts, i);
  }

  /** Promotion happens only with placeholder columns and a cell of the first row that offers a name. */
  lemma PromotionOffered(columns: seq<string>, sample: seq<seq<Value>>, header: int)
    requires Promotion(columns, sample, header).Some?
    ensures |columns| > 0 && |sample| > 0 && (forall c :: c in columns ==> StartsWith(c, Placeholder))
    ensures exists i :: 0 <= i < |sample[0]| && OffersName(CellText(sample[0][i]))
  {
    var ts := CellTexts(sample[0]);
    var x :| x in NonBlank(ts) && !StartsWith(x, Placeholder);
    NonBlankSource(ts, x);
    var i :| 0 <= i < |ts| && ts[i] == Some(x) && x != "";
    assert OffersName(CellText(sample[0][i]));
  }

  /**
   * Promotion happens exactly when there are columns and rows, every column
   * has a placeholder name, and some cell of the first row offers a name;
   * it moves the header spin down by one row, or leaves it at 99.
   */
  lemma PromotionIff(columns: seq<string>, sample: seq<seq<Value>>, header: int)
    ensures Promotion(columns, sample, header).Some? <==>
      |columns| > 0 && |sample| > 0 && (forall c :: c in columns ==> StartsWith(c, Placeholder))
      && exists i :: 0 <= i < |sample[0]| && OffersName(CellText(sample[0][i]))
    ensures Promotion(columns, sample, header).Some? ==> Promotion(columns, sample, header).value == SpinValue(1, header + 1)
  {
    if Promotion(columns, sample, header).Some? {
      PromotionOffered(columns, sample, header);
    } else if |columns| > 0 && |sample| > 0 && (forall c :: c in columns ==> StartsWith(c, Placeholder)) {
      if exists i :: 0 <= i < |sample[0]| && OffersName(CellText(sample[0][i])) {
        var i :| 0 <= i < |sample[0]| && OffersName(CellText(sample[0][i]));
        PromotionWhenOffered(columns, sample, header, i);
      }
    }
  }

  // ---------------------------------------------------------------------------
  // _compact_columns_text
  // ---------------------------------------------------------------------------

  /**
   * "--" for no columns, all of them when there are at most `limit`, else
   * the first `limit` and "+N" counting the others.
   */
  function CompactColumnsText(columns: seq<string>, limit: nat): (text: string)
    ensures |columns| == 0 ==> text == "--"
    ensures 0 < |columns| <= limit ==> text == Join(columns, ", ")
    ensures |columns| > limit ==>
      exists hidden: nat :: limit + hidden == |columns| && hidden > 0
        && text == Join(columns[..limit], ", ") + " +" + IntToText(hidden)
  {
    if columns == [] then "--"
    else if |columns| <= limit then Join(columns, ", ")
    else
      var remaining := |columns| - limit;
      Join(columns[..limit], ", ") + " +" + IntToText(remaining)
  }
}
