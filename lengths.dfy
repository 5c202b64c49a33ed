/**
 * `_validate_record_lengths`: before an import writes to the database, every
 * text it would store in a column with a declared maximum length must fit.
 * Only columns whose `max_length` is set and non-zero are checked; a value is
 * too long when the record has the column, the value is not None, and
 * `str(value)` has more characters than the maximum. Rows are numbered
 * `header_row + 1 + index`, as in the lookup diagnostics.
 */
module Lengths {
  import opened Wrappers
  import opened Text
  import opened Values
  import opened Schema
  import opened Messages
  import opened RecordBuilder
  import opened OrderedDict

  /** Python truthiness of `max_length`: set and different from zero. */
  predicate HasLimit(c: ColumnInfo) {
    c.maxLength.Some? && c.maxLength.value != 0
  }

  /**
   * `{col.name: col.max_length for col in columns if col.max_length}`: the
   * dict comprehension as the series of assignments it performs.
   */
  function Limits(columns: seq<ColumnInfo>): (limits: Entries<int>)
    ensures UniqueKeys(limits)
  {
    if columns == [] then []
    else
      var c := columns[|columns| - 1];
      var rest := Limits(columns[..|columns| - 1]);
      if HasLimit(c) then Put(rest, c.name, c.maxLength.value) else rest
  }

  /** The position of the last column called `k` that declares a maximum, -1 when there is none. */
  function LastLimited(columns: seq<ColumnInfo>, k: string): (i: int)
    ensures -1 <= i < |columns|
    ensures i >= 0 ==> columns[i].name == k && HasLimit(columns[i])
    ensures forall j :: i < j < |columns| ==> !(columns[j].name == k && HasLimit(columns[j]))
  {
    if columns == [] then -1
    else if columns[|columns| - 1].name == k && HasLimit(columns[|columns| - 1]) then |columns| - 1
    else
      var front := columns[..|columns| - 1];
      assert forall j :: 0 <= j < |front| ==> front[j] == columns[j];
      LastLimited(front, k)
  }

  /**
   * A name has a limit exactly when some column so named declares a
   * non-zero maximum, and the last such column gives it.
   */
  lemma {:induction false} LimitsLastWins(columns: seq<ColumnInfo>, k: string)
    ensures Get(Limits(columns), k)
         == if LastLimited(columns, k) < 0 then None else columns[LastLimited(columns, k)].maxLength
  {
    if |columns| != 0 {
      var front := columns[..|columns| - 1];
      var c := columns[|columns| - 1];
      if !(c.name == k && HasLimit(c)) {
        LimitsLastWins(front, k);
        assert Get(Limits(columns), k) == Get(Limits(front), k);
        assert LastLimited(columns, k) == LastLimited(front, k);
        if LastLimited(front, k) >= 0 {
          assert columns[LastLimited(front, k)] == front[LastLimited(front, k)];
        }
      }
    }
  }

  // ---------------------------------------------------------------------------
  // Violations
  // ---------------------------------------------------------------------------

  /** One value over its column's limit: the row, the column, the limit and `str(value)`. */
  datatype Violation = Violation(row: int, column: string, maxLength: int, text: string)

  predicate TooLong(record: Record, column: string, maxLength: int) {
    column in record && !record[column].Null? && |ToText(record[column])| > maxLength
  }

  /** The violations of one record, in the order of the limits. */
  function RecordViolations(record: Record, limits: Entries<int>, excelRow: int): (vs: seq<Violation>)
    ensures |vs| <= |limits|
  {
    if limits == [] then []
    else
      var l := limits[|limits| - 1];
      RecordViolations(record, limits[..|limits| - 1], excelRow)
      + (if TooLong(record, l.0, l.1) then [Violation(excelRow, l.0, l.1, ToText(record[l.0]))] else [])
  }

  /** The violations of all records, record by record. */
  function Violations(records: seq<Record>, limits: Entries<int>, firstRow: int): seq<Violation> {
    if |records| == 0 then []
    else
      var n := |records| - 1;
      Violations(records[..n], limits, firstRow) + RecordViolations(records[n], limits, firstRow + n)
  }

  /** What `_validate_record_lengths` finds: nothing when no column has a limit. */
  function CheckLengths(records: seq<Record>, columns: seq<ColumnInfo>, headerRow: int): seq<Violation> {
    var limits := Limits(columns);
    if limits == [] then [] else Violations(records, limits, headerRow + 1)
  }

  /** A violation of a record: its row, one of the limits, a value over it and that value's text. */
  lemma {:induction false} RecordViolationFacts(record: Record, limits: Entries<int>, excelRow: int, v: Violation)
    requires v in RecordViolations(record, limits, excelRow)
    ensures v.row == excelRow && TooLong(record, v.column, v.maxLength) && v.text == ToText(record[v.column])
    ensures exists i :: 0 <= i < |limits| && limits[i].0 == v.column && limits[i].1 == v.maxLength
  {
    var front := limits[..|limits| - 1];
    var l := limits[|limits| - 1];
    if v in RecordViolations(record, front, excelRow) {
      RecordViolationFacts(record, front, excelRow, v);
      var i :| 0 <= i < |front| && front[i].0 == v.column && front[i].1 == v.maxLength;
      assert limits[i] == front[i];
    } else {
      assert limits[|limits| - 1] == l;
    }
  }

  /** Every limit a record's value exceeds gives a violation of that record. */
  lemma {:induction false} RecordViolationPresent(record: Record, limits: Entries<int>, excelRow: int, i: int)
    requires 0 <= i < |limits| && TooLong(record, limits[i].0, limits[i].1)
    ensures Violation(excelRow, limits[i].0, limits[i].1, ToText(record[limits[i].0])) in RecordViolations(record, limits, excelRow)
  {
    var front := limits[..|limits| - 1];
    if i < |limits| - 1 {
      assert front[i] == limits[i];
      RecordViolationPresent(record, front, excelRow, i);
    }
  }

  /** A violation of the batch belongs to the record its row names. */
  lemma {:induction false} ViolationSource(records: seq<Record>, limits: Entries<int>, firstRow: int, v: Violation)
    requires v in Violations(records, limits, firstRow)
    ensures firstRow <= v.row < firstRow + |records|
    ensures v in RecordViolations(records[v.row - firstRow], limits, v.row)
  {
    var n := |records| - 1;
    if v in Violations(records[..n], limits, firstRow) {
      ViolationSource(records[..n], limits, firstRow, v);
      assert records[..n][v.row - firstRow] == records[v.row - firstRow];
    } else {
      RecordViolationFacts(records[n], limits, firstRow + n, v);
    }
  }

  /** A violation of a record is a violation of the batch. */
  lemma {:induction false} ViolationPresent(records: seq<Record>, limits: Entries<int>, firstRow: int, idx: int, v: Violation)
    requires 0 <= idx < |records| && v in RecordViolations(records[idx], limits, firstRow + idx)
    ensures v in Violations(records, limits, firstRow)
  {
    var n := |records| - 1;
    if idx < n {
      ViolationPresent(records[..n], limits, firstRow, idx, v);
    }
    InViolations(records, limits, firstRow, v);
  }

  /** The batch of violations holds those of all but the last record, and those of the last. */
  lemma InViolations(records: seq<Record>, limits: Entries<int>, firstRow: int, v: Violation)
    requires |records| > 0
    requires v in Violations(records[..|records| - 1], limits, firstRow)
          || v in RecordViolations(records[|records| - 1], limits, firstRow + |records| - 1)
    ensures v in Violations(records, limits, firstRow)
  {
  }

  /** A reported value is over the limit of its column. */
  lemma ReportedIsTooLong(records: seq<Record>, limits: Entries<int>, firstRow: int, v: Violation)
    requires UniqueKeys(limits) && v in Violations(records, limits, firstRow)
    ensures firstRow <= v.row < firstRow + |records|
    ensures Get(limits, v.column) == Some(v.maxLength)
    ensures TooLong(records[v.row - firstRow], v.column, v.maxLength)
    ensures v.text == ToText(records[v.row - firstRow][v.column])
  {
    ViolationSource(records, limits, firstRow, v);
    RecordViolationFacts(records[v.row - firstRow], limits, v.row, v);
    var i :| 0 <= i < |limits| && limits[i].0 == v.column && limits[i].1 == v.maxLength;
    GetAt(limits, i);
  }

  /** A value over the limit of its column is reported, with its row, the limit and its text. */
  lemma TooLongIsReported(records: seq<Record>, limits: Entries<int>, firstRow: int, idx: int, c: string)
    requires 0 <= idx < |records| && Get(limits, c).Some? && TooLong(records[idx], c, Get(limits, c).value)
    ensures Violation(firstRow + idx, c, Get(limits, c).value, ToText(records[idx][c])) in Violations(records, limits, firstRow)
  {
    var i :| 0 <= i < |limits| && limits[i].0 == c && limits[i].1 == Get(limits, c).value;
    RecordViolationPresent(records[idx], limits, firstRow + idx, i);
    ViolationPresent(records, limits, firstRow, idx, Violation(firstRow + idx, c, Get(limits, c).value, ToText(records[idx][c])));
  }

  /** Under distinct limits, a value is reported exactly when it is over its column's limit. */
  lemma ViolationsIff(records: seq<Record>, limits: Entries<int>, firstRow: int, idx: int, c: string)
    requires UniqueKeys(limits) && 0 <= idx < |records|
    ensures (exists v :: v in Violations(records, limits, firstRow) && v.row == firstRow + idx && v.column == c)
      <==> Get(limits, c).Some? && TooLong(records[idx], c, Get(limits, c).value)
  {
    if exists v :: v in Violations(records, limits, firstRow) && v.row == firstRow + idx && v.column == c {
      var v :| v in Violations(records, limits, firstRow) && v.row == firstRow + idx && v.column == c;
      ReportedIsTooLong(records, limits, firstRow, v);
    }
    if Get(limits, c).Some? && TooLong(records[idx], c, Get(limits, c).value) {
      TooLongIsReported(records, limits, firstRow, idx, c);
    }
  }

  /**
   * The value of column `c` in the record at `idx` is reported exactly when
   * the last column of the schema called `c` with a non-zero maximum exists
   * and the value is over that maximum.
   */
  lemma CheckLengthsIff(records: seq<Record>, columns: seq<ColumnInfo>, headerRow: int, idx: int, c: string)
    requires 0 <= idx < |records|
    ensures (exists v :: v in CheckLengths(records, columns, headerRow) && v.row == headerRow + 1 + idx && v.column == c)
      <==> LastLimited(columns, c) >= 0 && TooLong(records[idx], c, columns[LastLimited(columns, c)].maxLength.value)
  {
    var limits := Limits(columns);
    LimitsLastWins(columns, c);
    if |limits| != 0 {
      ViolationsIff(records, limits, headerRow + 1, idx, c);
    }
  }

  /** Reports come in record order. */
  lemma {:induction false} ViolationsInRowOrder(records: seq<Record>, limits: Entries<int>, firstRow: int)
    ensures forall i, j :: 0 <= i < j < |Violations(records, limits, firstRow)| ==>
      Violations(records, limits, firstRow)[i].row <= Violations(records, limits, firstRow)[j].row
    ensures forall v :: v in Violations(records, limits, firstRow) ==> firstRow <= v.row < firstRow + |records|
  {
    if |records| != 0 {
      var n := |records| - 1;
      ViolationsInRowOrder(records[..n], limits, firstRow);
      forall v | v in RecordViolations(records[n], limits, firstRow + n)
        ensures v.row == firstRow + n
      {
        RecordViolationFacts(records[n], limits, firstRow + n, v);
      }
      assert Violations(records, limits, firstRow) == Violations(records[..n], limits, firstRow) + RecordViolations(records[n], limits, firstRow + n);
    }
  }

  lemma ViolationsSnoc(records: seq<Record>, limits: Entries<int>, firstRow: int, idx: int)
    requires 0 <= idx < |records|
    ensures Violations(records[..idx + 1], limits, firstRow)
         == Violations(records[..idx], limits, firstRow) + RecordViolations(records[idx], limits, firstRow + idx)
  {
    assert records[..idx + 1][..idx] == records[..idx];
  }

  lemma RecordViolationsSnoc(record: Record, limits: Entries<int>, excelRow: int, j: int)
    requires 0 <= j < |limits|
    ensures RecordViolations(record, limits[..j + 1], excelRow)
         == RecordViolations(record, limits[..j], excelRow)
            + (if TooLong(record, limits[j].0, limits[j].1) then [Violation(excelRow, limits[j].0, limits[j].1, ToText(record[limits[j].0]))] else [])
  {
    assert limits[..j + 1][..j] == limits[..j];
  }

  /** The dict comprehension, as a loop assigning each column's limit. */
  method BuildLimits(columns: seq<ColumnInfo>) returns (limits: Entries<int>)
    ensures limits == Limits(columns)
  {
    limits := [];
    var i := 0;
    while i < |columns|
      invariant 0 <= i <= |columns|
      invariant limits == Limits(columns[..i])
    {
      assert columns[..i + 1][..i] == columns[..i];
      if HasLimit(columns[i]) {
        limits := Put(limits, columns[i].name, columns[i].maxLength.value);
      }
      i := i + 1;
    }
    assert columns[..i] == columns;
  }

  /** The inner loop: one record against every limit, in order. */
  method RecordTooLong(record: Record, limits: Entries<int>, excelRow: int) returns (found: seq<Violation>)
    ensures found == RecordViolations(record, limits, excelRow)
  {
    found := [];
    var j := 0;
    while j < |limits|
      invariant 0 <= j <= |limits|
      invariant found == RecordViolations(record, limits[..j], excelRow)
    {
      RecordViolationsSnoc(record, limits, excelRow, j);
      var (name, maxLength) := limits[j];
      if name in record && !record[name].Null? {
        var text := ToText(record[name]);
        if |text| > maxLength {
          found := found + [Violation(excelRow, name, maxLength, text)];
        }
      }
      j := j + 1;
    }
    assert limits[..j] == limits;
  }

  /**
   * `_validate_record_lengths` up to its report: the limit table, then every
   * record in order against every limit.
   */
  method ValidateRecordLengths(records: seq<Record>, columns: seq<ColumnInfo>, headerRow: int) returns (tooLong: seq<Violation>)
    ensures tooLong == CheckLengths(records, columns, headerRow)
  {
    var limits := BuildLimits(columns);
    if |limits| == 0 {
      return [];
    }
    var first := headerRow + 1;
    tooLong := [];
    var idx := 0;
    while idx < |records|
      invariant 0 <= idx <= |records|
      invariant tooLong == Violations(records[..idx], limits, first)
    {
      tooLong := CheckNextRecord(records, limits, first, idx, tooLong);
      idx := idx + 1;
    }
    assert records[..idx] == records;
  }

  /** One pass of the record loop: the violations of record `idx` are appended. */
  method CheckNextRecord(records: seq<Record>, limits: Entries<int>, firstRow: int, idx: int, tooLong: seq<Violation>) returns (tooLong': seq<Violation>)
    requires 0 <= idx < |records|
    requires tooLong == Violations(records[..idx], limits, firstRow)
    ensures tooLong' == Violations(records[..idx + 1], limits, firstRow)
  {
    ViolationsSnoc(records, limits, firstRow, idx);
    var found := RecordTooLong(records[idx], limits, firstRow + idx);
    tooLong' := tooLong + found;
  }

  // ---------------------------------------------------------------------------
  // The report
  // ---------------------------------------------------------------------------

  /** Long values are shown by their first 37 characters and "...". */
  function Preview(t: string): (p: string)
    ensures |p| <= 40
    ensures |t| <= 40 ==> p == t
    ensures |t| > 40 ==> |p| == 40 && p[..37] == t[..37] && p[37..] == "..."
  {
    if |t| <= 40 then t else t[..37] + "..."
  }

  function ViolationText(v: Violation): (t: string)
    ensures StartsWith(t, "Linha " + IntToText(v.row) + " coluna '" + v.column + "': " + IntToText(|v.text|) + " > ")
    ensures EndsWith(t, IntToText(v.maxLength) + " caracteres (valor: " + Preview(v.text) + ")")
    ensures |t| == |"Linha " + IntToText(v.row) + " coluna '" + v.column + "': " + IntToText(|v.text|) + " > "|
                 + |IntToText(v.maxLength) + " caracteres (valor: " + Preview(v.text) + ")"|
  {
    var head := "Linha " + IntToText(v.row) + " coluna '" + v.column + "': " + IntToText(|v.text|) + " > ";
    var rest := IntToText(v.maxLength) + " caracteres (valor: " + Preview(v.text) + ")";
    AppendParts(head, rest);
    head + rest
  }

  function ViolationTexts(vs: seq<Violation>): (ts: seq<string>)
    ensures |ts| == |vs|
    ensures forall i :: 0 <= i < |vs| ==> ts[i] == ViolationText(vs[i])
  {
    if vs == [] then [] else [ViolationText(vs[0])] + ViolationTexts(vs[1..])
  }

  /** The text of the exception raised when anything is too long. */
  function LengthsMessage(vs: seq<Violation>): (t: string)
    ensures StartsWith(t, LengthsTitle + ":\n")
  {
    Report(LengthsTitle, ViolationTexts(vs), " ocorrencias com tamanho acima do limite.")
  }

  const LengthsTitle := "Valores excedem o tamanho permitido para a coluna"
}
