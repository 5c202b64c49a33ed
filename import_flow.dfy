/**
 * What the main window does with a collected selection: `_execute` builds
 * the records, checks their lengths and hands them to the database;
 * `_export_mapped_data` builds the same records and writes them to a file
 * after `_normalize_value_for_export`, without checking lengths. The
 * database writes and the file are the outcome values below; the window
 * compares lookup labels by `Values.NormalizeLookupKey`.
 */
module ImportFlow {
  import opened Wrappers
  import opened Values
  import opened Schema
  import opened CoreMapping
  import opened RecordBuilder
  import opened Messages
  import opened Lengths

  /** How `_execute` ends. */
  datatype ExecuteOutcome =
    | ExecuteFailed(message: string)
    | JoinColumnNeeded
    | Inserted(table: string, records: seq<Record>, autogeneratePk: bool, primaryKey: Option<string>)
    | Updated(table: string, records: seq<Record>, joinColumn: string)

  /** How `_export_mapped_data` ends; `rows` are what the file receives. */
  datatype ExportOutcome =
    | ExportFailed(message: string)
    | NothingToExport
    | Exported(rows: seq<Record>)

  /** The build as the window runs it. */
  function WindowBuild(sel: MappingSelection, frame: Frame, normalize: Value -> Value, fetch: Triple -> LookupRows): BuildOutcome {
    Build(sel, frame, normalize, fetch, NormalizeLookupKey)
  }

  /**
   * `_execute`: a failed build or an over-long value shows the error; INSERT
   * writes the records; UPDATE without a join column only warns. The
   * database receives exactly the built records, and only when none of
   * them has a value over its column's limit.
   */
  function Execute(sel: MappingSelection, frame: Frame, normalize: Value -> Value, fetch: Triple -> LookupRows, columns: seq<ColumnInfo>): (r: ExecuteOutcome)
    ensures r.Inserted? || r.Updated? ==>
      WindowBuild(sel, frame, normalize, fetch).result == Success(r.records) && |CheckLengths(r.records, columns, sel.headerRow)| == 0
    ensures r.Inserted? ==> sel.operation.Insert? && r.table == sel.tableName
    ensures r.Updated? ==> sel.operation.Update? && sel.joinColumn == Some(r.joinColumn) && r.joinColumn != "" && r.table == sel.tableName
    ensures r.JoinColumnNeeded? ==> sel.operation.Update? && !Truthy(sel.joinColumn)
    ensures var b := WindowBuild(sel, frame, normalize, fetch).result;
      b.Failure? ==> r == ExecuteFailed(BuildErrorMessage(b.error))
    ensures var b := WindowBuild(sel, frame, normalize, fetch).result;
      b.Success? && |CheckLengths(b.value, columns, sel.headerRow)| > 0 ==>
        r == ExecuteFailed(LengthsMessage(CheckLengths(b.value, columns, sel.headerRow)))
    ensures var b := WindowBuild(sel, frame, normalize, fetch).result;
      b.Success? && |CheckLengths(b.value, columns, sel.headerRow)| == 0 && sel.operation.Insert? ==>
        r == Inserted(sel.tableName, b.value, sel.autogeneratePk, sel.primaryKey)
    ensures var b := WindowBuild(sel, frame, normalize, fetch).result;
      b.Success? && |CheckLengths(b.value, columns, sel.headerRow)| == 0 && sel.operation.Update? ==>
        r == if Truthy(sel.joinColumn) then Updated(sel.tableName, b.value, sel.joinColumn.value) else JoinColumnNeeded
  {
    match WindowBuild(sel, frame, normalize, fetch).result
    case Failure(e) => ExecuteFailed(BuildErrorMessage(e))
    case Success(records) =>
      var tooLong := CheckLengths(records, columns, sel.headerRow);
      if |tooLong| != 0 then ExecuteFailed(LengthsMessage(tooLong))
      else if sel.operation.Insert? then Inserted(sel.tableName, records, sel.autogeneratePk, sel.primaryKey)
      else if !Truthy(sel.joinColumn) then JoinColumnNeeded
      else Updated(sel.tableName, records, sel.joinColumn.value)
  }

  /** `{k: _normalize_value_for_export(v) for k, v in record.items()}`. */
  function ExportRecord(record: Record): (r: Record)
    ensures r.Keys == record.Keys
    ensures forall k :: k in r ==> r[k] == NormalizeValueForExport(record[k])
  {
    map k | k in record :: NormalizeValueForExport(record[k])
  }

  function ExportRecords(records: seq<Record>): (rs: seq<Record>)
    ensures |rs| == |records|
    ensures forall j :: 0 <= j < |records| ==> rs[j] == ExportRecord(records[j])
  {
    if records == [] then [] else ExportRecords(records[..|records| - 1]) + [ExportRecord(records[|records| - 1])]
  }

  /**
   * `_export_mapped_data`: no length check; an empty build only informs.
   * The file receives one row per built record, with the same columns and
   * every value normalised: no boolean or date is left.
   */
  function Export(sel: MappingSelection, frame: Frame, normalize: Value -> Value, fetch: Triple -> LookupRows): (r: ExportOutcome)
    ensures r.NothingToExport? ==> WindowBuild(sel, frame, normalize, fetch).result == Success([])
    ensures r.Exported? ==> WindowBuild(sel, frame, normalize, fetch).result.Success?
    ensures r.Exported? ==> |r.rows| == |WindowBuild(sel, frame, normalize, fetch).result.value| > 0
    ensures r.Exported? ==> forall j :: 0 <= j < |r.rows| ==> r.rows[j].Keys == WindowBuild(sel, frame, normalize, fetch).result.value[j].Keys
    ensures r.Exported? ==> forall j, k :: 0 <= j < |r.rows| && k in r.rows[j] ==> !r.rows[j][k].Bool? && !r.rows[j][k].Date?
    ensures var b := WindowBuild(sel, frame, normalize, fetch).result;
      b.Failure? ==> r == ExportFailed(BuildErrorMessage(b.error))
    ensures var b := WindowBuild(sel, frame, normalize, fetch).result;
      b.Success? && |b.value| > 0 ==> r == Exported(ExportRecords(b.value))
    ensures var b := WindowBuild(sel, frame, normalize, fetch).result;
      b.Success? && |b.value| == 0 ==> r.NothingToExport?
  {
    match WindowBuild(sel, frame, normalize, fetch).result
    case Failure(e) => ExportFailed(BuildErrorMessage(e))
    case Success(records) =>
      if records == [] then NothingToExport else Exported(ExportRecords(records))
  }

  /**
   * Export and execute share the build, but only execute checks lengths:
   * records with an over-long value are refused by execute and still
   * written by export.
   */
  lemma ExportSkipsLengthCheck(sel: MappingSelection, frame: Frame, normalize: Value -> Value, fetch: Triple -> LookupRows, columns: seq<ColumnInfo>)
    requires WindowBuild(sel, frame, normalize, fetch).result.Success?
    requires |WindowBuild(sel, frame, normalize, fetch).result.value| > 0
    requires |CheckLengths(WindowBuild(sel, frame, normalize, fetch).result.value, columns, sel.headerRow)| > 0
    ensures Execute(sel, frame, normalize, fetch, columns).ExecuteFailed?
    ensures Export(sel, frame, normalize, fetch).Exported?
  {
  }

  /** A failed build ends both paths with the same message. */
  lemma BuildFailureStopsBoth(sel: MappingSelection, frame: Frame, normalize: Value -> Value, fetch: Triple -> LookupRows, columns: seq<ColumnInfo>)
    requires WindowBuild(sel, frame, normalize, fetch).result.Failure?
    ensures Execute(sel, frame, normalize, fetch, columns)
         == ExecuteFailed(BuildErrorMessage(WindowBuild(sel, frame, normalize, fetch).result.error))
    ensures Export(sel, frame, normalize, fetch)
         == ExportFailed(BuildErrorMessage(WindowBuild(sel, frame, normalize, fetch).result.error))
  {
  }
}
