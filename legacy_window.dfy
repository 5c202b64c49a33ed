/**
 * The older `importdatadb` window: `_collect_mapping` turns the mapping
 * table into a dictionary keyed by spreadsheet column and reads the row
 * spins, and `_build_sql_example` writes the INSERT or UPDATE example from
 * the dictionary's values.
 */
module LegacyWindow {
  import opened Wrappers
  import opened Text
  import CoreMapping
  import opened LegacyMapping
  import OrderedDict
  import SqlExample

  /** What the window's widgets hold when collecting. */
  datatype LegacyInputs = LegacyInputs(
    sheet: Option<string>,
    table: Option<string>,
    headerSpin: int,
    startSpin: int,
    endSpin: int,
    updateSelected: bool,
    joinText: string)

  datatype LegacyError = NoSheetOrTable | NothingMapped
  {
    function Message(): string {
      match this
      case NoSheetOrTable => "Selecione uma aba e uma tabela"
      case NothingMapped => "Adicione ao menos um mapeamento de coluna"
    }
  }

  /** `mapping[sheet_col] = table_col` for each row of the mapping table in order. */
  function MappingDict(rows: seq<(string, string)>): (d: OrderedDict.Entries<string>)
    ensures OrderedDict.UniqueKeys(d)
  {
    if |rows| == 0 then []
    else
      var last := rows[|rows| - 1];
      OrderedDict.Put(MappingDict(rows[..|rows| - 1]), last.0, last.1)
  }

  /** The dictionary is empty exactly when the mapping table is, and has at most one entry per row. */
  lemma {:induction false} MappingDictSize(rows: seq<(string, string)>)
    ensures |MappingDict(rows)| <= |rows|
    ensures |MappingDict(rows)| == 0 <==> |rows| == 0
  {
    if |rows| > 0 {
      var last := rows[|rows| - 1];
      MappingDictSize(rows[..|rows| - 1]);
      assert OrderedDict.Get(MappingDict(rows), last.0) == Some(last.1);
    }
  }

  /** The index of the last row for spreadsheet column `k`, or -1. */
  function LastFor(rows: seq<(string, string)>, k: string): (i: int)
    ensures -1 <= i < |rows|
    ensures i >= 0 ==> rows[i].0 == k
    ensures forall j :: i < j < |rows| ==> rows[j].0 != k
  {
    if |rows| == 0 then -1
    else if rows[|rows| - 1].0 == k then |rows| - 1
    else LastFor(rows[..|rows| - 1], k)
  }

  /**
   * A later row for the same spreadsheet column replaces the earlier
   * target; a spreadsheet column without rows is not a key.
   */
  lemma {:induction false} MappingLastWins(rows: seq<(string, string)>, k: string)
    ensures OrderedDict.Get(MappingDict(rows), k)
         == if LastFor(rows, k) < 0 then None else Some(rows[LastFor(rows, k)].1)
  {
    if |rows| > 0 && rows[|rows| - 1].0 != k {
      MappingLastWins(rows[..|rows| - 1], k);
    }
  }

  /**
   * The keys are the spreadsheet columns in the order of their first row:
   * a replaced entry keeps its place.
   */
  lemma {:induction false} MappingKeysFirstSeen(rows: seq<(string, string)>)
    ensures OrderedDict.Keys(MappingDict(rows)) == SqlExample.AddNew([], CoreMapping.PairSources(rows), None)
  {
    if |rows| > 0 {
      var front := rows[..|rows| - 1];
      var last := rows[|rows| - 1];
      assert CoreMapping.PairSources(rows) == CoreMapping.PairSources(front) + [last.0];
      SqlExample.AddNewSnoc([], CoreMapping.PairSources(front), last.0, None);
      MappingKeysFirstSeen(front);
      var dict := MappingDict(front);
      if OrderedDict.HasKey(dict, last.0) {
        var i :| 0 <= i < |dict| && dict[i].0 == last.0;
        assert OrderedDict.Keys(dict)[i] == last.0;
      } else {
        assert OrderedDict.Keys(dict + [(last.0, last.1)]) == OrderedDict.Keys(dict) + [last.0];
      }
    }
  }

  /** A row that is last for its spreadsheet column gives its target to the dictionary. */
  lemma LastRowTargetKept(rows: seq<(string, string)>, i: int)
    requires 0 <= i < |rows| && LastFor(rows, rows[i].0) == i
    ensures rows[i].1 in OrderedDict.DictValues(MappingDict(rows))
  {
    var d := MappingDict(rows);
    MappingLastWins(rows, rows[i].0);
    var j :| 0 <= j < |d| && d[j].0 == rows[i].0 && d[j].1 == rows[i].1;
    assert OrderedDict.DictValues(d)[j] == rows[i].1;
  }

  /** Each entry of the dictionary holds the target of the last row for its key. */
  lemma EntryFromLastRow(rows: seq<(string, string)>, j: int)
    requires 0 <= j < |MappingDict(rows)|
    ensures 0 <= LastFor(rows, MappingDict(rows)[j].0)
    ensures rows[LastFor(rows, MappingDict(rows)[j].0)].1 == MappingDict(rows)[j].1
  {
    OrderedDict.GetAt(MappingDict(rows), j);
    MappingLastWins(rows, MappingDict(rows)[j].0);
  }

  /**
   * The dictionary's values are the targets of the rows that are last for
   * their spreadsheet column.
   */
  lemma MappingValuesAreLastTargets(rows: seq<(string, string)>, x: string)
    ensures x in OrderedDict.DictValues(MappingDict(rows))
        <==> exists i :: 0 <= i < |rows| && rows[i].1 == x && LastFor(rows, rows[i].0) == i
  {
    var vs := OrderedDict.DictValues(MappingDict(rows));
    if x in vs {
      var j :| 0 <= j < |vs| && vs[j] == x;
      EntryFromLastRow(rows, j);
      var i := LastFor(rows, MappingDict(rows)[j].0);
      assert rows[i].1 == x && LastFor(rows, rows[i].0) == i;
    }
    if exists i :: 0 <= i < |rows| && rows[i].1 == x && LastFor(rows, rows[i].0) == i {
      var i :| 0 <= i < |rows| && rows[i].1 == x && LastFor(rows, rows[i].0) == i;
      LastRowTargetKept(rows, i);
    }
  }

  /**
   * What `_collect_mapping` returns; the error is the warning it shows
   * before returning None. A selection stores the header spin minus one, no
   * end row for a zero end spin, and a join column only for UPDATE.
   */
  function LegacyCollected(inputs: LegacyInputs, rows: seq<(string, string)>): (r: Result<MappingSelection, LegacyError>)
    ensures r.Success? ==>
      var sel := r.value;
      && inputs.sheet == Some(sel.sheetName) && inputs.table == Some(sel.tableName)
      && sel.headerRow + 1 == inputs.headerSpin
      && sel.startRow == Some(inputs.startSpin)
      && (sel.endRow.None? <==> inputs.endSpin == 0)
      && (sel.endRow.Some? ==> sel.endRow.value == inputs.endSpin)
      && (sel.operation.Update? <==> inputs.updateSelected)
      && (sel.joinColumn.Some? <==> sel.operation.Update?)
      && (sel.joinColumn.Some? ==> sel.joinColumn.value == inputs.joinText)
      && sel.columnMapping == MappingDict(rows)
  {
    if inputs.sheet.None? || inputs.table.None? then Failure(NoSheetOrTable)
    else
      var mapping := MappingDict(rows);
      if |mapping| == 0 then Failure(NothingMapped)
      else Success(MappingSelection(
        inputs.sheet.value, inputs.table.value, inputs.headerSpin - 1, Some(inputs.startSpin),
        if inputs.endSpin == 0 then None else Some(inputs.endSpin),
        mapping,
        if inputs.updateSelected then Update else Insert,
        if inputs.updateSelected then Some(inputs.joinText) else None))
  }

  /**
   * The selection exists exactly when a sheet and a table are chosen and
   * the mapping table has a row; an empty mapping gives no selection.
   */
  lemma LegacyCollectedFields(inputs: LegacyInputs, rows: seq<(string, string)>)
    ensures LegacyCollected(inputs, rows).Success? <==> inputs.sheet.Some? && inputs.table.Some? && |rows| > 0
    ensures inputs.sheet.Some? && inputs.table.Some? && |rows| == 0 ==> LegacyCollected(inputs, rows) == Failure(NothingMapped)
  {
    MappingDictSize(rows);
  }

  /** The loop of `_collect_mapping` over the mapping table's rows. */
  method FillMapping(rows: seq<(string, string)>) returns (mapping: OrderedDict.Entries<string>)
    ensures mapping == MappingDict(rows)
  {
    mapping := [];
    var i := 0;
    while i < |rows|
      invariant 0 <= i <= |rows|
      invariant mapping == MappingDict(rows[..i])
    {
      assert rows[..i + 1][..i] == rows[..i];
      mapping := OrderedDict.Put(mapping, rows[i].0, rows[i].1);
      i := i + 1;
    }
    assert rows[..i] == rows;
  }

  /** `_collect_mapping`: the warnings, the dictionary and the spins. */
  method CollectMapping(inputs: LegacyInputs, rows: seq<(string, string)>) returns (r: Result<MappingSelection, LegacyError>)
    ensures r == LegacyCollected(inputs, rows)
  {
    if inputs.sheet.None? || inputs.table.None? {
      return Failure(NoSheetOrTable);
    }
    var mapping := FillMapping(rows);
    if |mapping| == 0 {
      return Failure(NothingMapped);
    }
    var update := inputs.updateSelected;
    r := Success(MappingSelection(
      inputs.sheet.value, inputs.table.value, inputs.headerSpin - 1, Some(inputs.startSpin),
      if inputs.endSpin == 0 then None else Some(inputs.endSpin),
      mapping, if update then Update else Insert, if update then Some(inputs.joinText) else None));
  }

  /**
   * `_build_sql_example` of the legacy window: the columns are the
   * dictionary's values, in mapping order.
   */
  function LegacySqlExample(sel: MappingSelection): (sql: string)
    ensures sel.operation.Insert? ==>
      StartsWith(sql, "INSERT INTO " + sel.tableName + " (" + Join(OrderedDict.DictValues(sel.columnMapping), ", ") + ") VALUES (")
    ensures sel.operation.Update? ==>
      EndsWith(sql, " WHERE " + SqlExample.OptionText(sel.joinColumn) + " = :" + SqlExample.OptionText(sel.joinColumn) + ";")
  {
    var cols := OrderedDict.DictValues(sel.columnMapping);
    if sel.operation.Insert? then SqlExample.InsertStatement(sel.tableName, cols)
    else SqlExample.UpdateStatement(sel.tableName, cols, sel.joinColumn)
  }

  /**
   * The INSERT example names every mapping value in mapping order, each
   * with the placeholder `:c` at the same position.
   */
  lemma LegacyInsertListsValues(sel: MappingSelection)
    requires sel.operation.Insert?
    ensures LegacySqlExample(sel) == SqlExample.InsertStatement(sel.tableName, OrderedDict.DictValues(sel.columnMapping))
    ensures |OrderedDict.DictValues(sel.columnMapping)| == |sel.columnMapping|
    ensures forall i :: 0 <= i < |sel.columnMapping| ==> OrderedDict.DictValues(sel.columnMapping)[i] == sel.columnMapping[i].1
    ensures forall i :: 0 <= i < |sel.columnMapping| ==>
      SqlExample.Placeholders(OrderedDict.DictValues(sel.columnMapping))[i] == ":" + sel.columnMapping[i].1
  {
  }

  /**
   * The UPDATE example sets every mapping value other than the join
   * column, in mapping order, and tests the join column in WHERE.
   */
  lemma LegacyUpdateSetsAllButJoin(sel: MappingSelection)
    requires sel.operation.Update?
    ensures LegacySqlExample(sel)
         == SqlExample.UpdateStatement(sel.tableName, OrderedDict.DictValues(sel.columnMapping), sel.joinColumn)
    ensures forall x :: (x in SqlExample.SetColumns(OrderedDict.DictValues(sel.columnMapping), sel.joinColumn)
      <==> (exists i :: 0 <= i < |sel.columnMapping| && sel.columnMapping[i].1 == x) && sel.joinColumn != Some(x))
    ensures Seqs.SubsequenceOf(SqlExample.SetColumns(OrderedDict.DictValues(sel.columnMapping), sel.joinColumn),
                               OrderedDict.DictValues(sel.columnMapping))
  {
    var cols := OrderedDict.DictValues(sel.columnMapping);
    forall x
      ensures x in cols <==> exists i :: 0 <= i < |sel.columnMapping| && sel.columnMapping[i].1 == x
    {
      if exists i :: 0 <= i < |sel.columnMapping| && sel.columnMapping[i].1 == x {
        var i :| 0 <= i < |sel.columnMapping| && sel.columnMapping[i].1 == x;
        assert cols[i] == x;
      }
    }
  }
}
