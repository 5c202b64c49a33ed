/**
 * The duplicate check a user can run before importing
 * (`_calculate_duplicate_stats`) and the "previsto remover N" count the
 * window derives from its (total, unique) pair.
 */
module PreValidation {
  import opened Wrappers
  import opened Values
  import opened Schema
  import opened CoreMapping
  import opened RecordBuilder

  /**
   * The (total, unique) row counts for a check column: the rows read, and
   * those left once repeated values of the normalised column are dropped.
   */
  function DuplicateStats(frame: Option<Frame>, column: string, normalize: Value -> Value): (r: Result<(nat, nat), string>)
    ensures frame.None? <==> r == Failure("Nenhuma planilha carregada")
    ensures r.Success? ==> frame.Some? && column in frame.value.columns && r.value.0 == |frame.value.rows| && r.value.1 <= r.value.0
  {
    if frame.None? then Failure("Nenhuma planilha carregada")
    else if column !in frame.value.columns then Failure("Coluna '" + column + "' não encontrada na seleção atual")
    else
      var rows := NormalizeColumn(frame.value.rows, column, normalize);
      Success((|rows|, |KeepFirst(rows, column)|))
  }

  /** Keeping every row happens exactly when no two rows share a check-column value. */
  lemma {:induction false} KeepFirstKeepsAllIff(rows: seq<Row>, column: string)
    ensures |KeepFirst(rows, column)| == |rows| <==> DistinctKeys(rows, column)
  {
    if DistinctKeys(rows, column) {
      KeepFirstOfDistinct(rows, column);
    }
    if rows != [] && |KeepFirst(rows, column)| == |rows| {
      var front := rows[..|rows| - 1];
      var last := rows[|rows| - 1];
      KeepFirstKeepsAllIff(front, column);
      assert |KeepFirst(front, column)| == |front|;
      assert RowKey(last, column) !in KeysOf(front, column);
      forall i, j | 0 <= i < j < |rows|
        ensures RowKey(rows[i], column) != RowKey(rows[j], column)
      {
        assert rows[i] == front[i];
        if j < |rows| - 1 {
          assert rows[j] == front[j];
        } else {
          assert KeysOf(front, column)[i] == RowKey(rows[i], column);
        }
      }
    }
  }

  /** The counts say nothing would be removed exactly when the normalised values are all different. */
  lemma NothingToRemoveIff(frame: Frame, column: string, normalize: Value -> Value)
    requires column in frame.columns
    ensures DuplicateStats(Some(frame), column, normalize).Success?
    ensures DuplicateStats(Some(frame), column, normalize).value.0 == DuplicateStats(Some(frame), column, normalize).value.1
      <==> DistinctKeys(NormalizeColumn(frame.rows, column, normalize), column)
  {
    KeepFirstKeepsAllIff(NormalizeColumn(frame.rows, column, normalize), column);
  }

  /**
   * The check predicts what the build does: with de-duplication on for the
   * same column, the build reports the same (total, unique) counts.
   */
  lemma StatsMatchBuild(sel: MappingSelection, frame: Frame, normalize: Value -> Value, fetch: Triple -> LookupRows, keyOf: Value -> string)
    requires DedupActive(sel) && sel.duplicateCheckColumn.value in frame.columns
    ensures DuplicateStats(Some(frame), sel.duplicateCheckColumn.value, normalize).Success?
    ensures Build(sel, frame, normalize, fetch, keyOf).dedupStats
         == Some(DuplicateStats(Some(frame), sel.duplicateCheckColumn.value, normalize).value)
  {
  }

  /** `removed = max(total - unique, 0)`. */
  function RemovedCount(stats: (int, int)): (removed: nat)
    ensures removed >= stats.0 - stats.1
    ensures stats.1 <= stats.0 ==> removed + stats.1 == stats.0
    ensures stats.1 > stats.0 ==> removed == 0
  {
    if stats.0 - stats.1 > 0 then stats.0 - stats.1 else 0
  }

  /** For counts the check produced, the predicted number is the number of rows dropped. */
  lemma RemovedIsDropped(frame: Frame, column: string, normalize: Value -> Value)
    requires column in frame.columns
    ensures RemovedCount(DuplicateStats(Some(frame), column, normalize).value)
         == |frame.rows| - |KeepFirst(NormalizeColumn(frame.rows, column, normalize), column)|
  {
  }
}
