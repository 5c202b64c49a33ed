/**
 * The selection records of src/core/mapping.py, with the fields the main
 * window actually fills in: where to read (sheet, header row, column window),
 * the ordered (spreadsheet column, table column) pairs, the default values,
 * the foreign-key lookups, the operation and its options.
 */
module CoreMapping {
  import opened Wrappers
  import opened Values
  import opened Schema
  import opened Seqs
  import OrderedDict

  /**
   * Fill `targetColumn` with the id found in `foreignTable.foreignIdColumn`
   * for the row whose `foreignLabelColumn` matches the spreadsheet column
   * `excelColumn`.
   */
  datatype ForeignKeyLookup = ForeignKeyLookup(
    targetColumn: string,
    excelColumn: string,
    foreignTable: string,
    foreignIdColumn: string,
    foreignLabelColumn: string)
  {
    /** The key under which the label cache of a lookup is kept. */
    function Triple(): (string, string, string) {
      (foreignTable, foreignIdColumn, foreignLabelColumn)
    }
  }

  datatype Operation = Insert | Update

  datatype MappingSelection = MappingSelection(
    sheetName: string,
    tableName: string,
    headerRow: int,
    startColumn: int,
    endColumn: Option<int>,
    columnMapping: seq<(string, string)>,
    defaultValues: OrderedDict.Entries<Value>,
    fkLookups: seq<ForeignKeyLookup>,
    operation: Operation,
    joinColumn: Option<string>,
    primaryKey: Option<string>,
    autogeneratePk: bool,
    removeDuplicateRows: bool,
    duplicateCheckColumn: Option<string>)
  {
    /**
     * `mapped_table_columns`: the schema columns, in schema order, whose name
     * is the target of some mapping pair.
     */
    method MappedTableColumns(columns: seq<ColumnInfo>) returns (mapped: seq<string>)
      ensures mapped == MappedNames(columns, PairTargets(columnMapping))
      ensures forall x :: x in mapped <==> x in Names(columns) && exists p :: p in columnMapping && p.1 == x
      ensures SubsequenceOf(mapped, Names(columns))
      ensures |mapped| <= |columns|
      ensures columnMapping == [] ==> mapped == []
    {
      mapped := CollectMappedNames(columns, PairTargets(columnMapping));
      MappedNamesInSchemaOrder(columns, PairTargets(columnMapping));
    }
  }

  /** The table columns of a list of mapping pairs, in order. */
  function PairTargets(pairs: seq<(string, string)>): (ts: seq<string>)
    ensures |ts| == |pairs|
    ensures forall i :: 0 <= i < |pairs| ==> ts[i] == pairs[i].1
  {
    if pairs == [] then [] else [pairs[0].1] + PairTargets(pairs[1..])
  }

  /** A column is a target exactly when some pair maps into it. */
  lemma PairTargetsMembers(pairs: seq<(string, string)>)
    ensures forall x :: x in PairTargets(pairs) <==> exists p :: p in pairs && p.1 == x
  {
    forall x | x in PairTargets(pairs)
      ensures exists p :: p in pairs && p.1 == x
    {
      var i :| 0 <= i < |pairs| && PairTargets(pairs)[i] == x;
      assert pairs[i] in pairs;
    }
    forall p | p in pairs
      ensures p.1 in PairTargets(pairs)
    {
      var i :| 0 <= i < |pairs| && pairs[i] == p;
      assert PairTargets(pairs)[i] == p.1;
    }
  }

  /** The spreadsheet columns of a list of mapping pairs, in order. */
  function PairSources(pairs: seq<(string, string)>): (ss: seq<string>)
    ensures |ss| == |pairs|
    ensures forall i :: 0 <= i < |pairs| ==> ss[i] == pairs[i].0
  {
    if pairs == [] then [] else [pairs[0].0] + PairSources(pairs[1..])
  }

  function FkTargets(lookups: seq<ForeignKeyLookup>): (ts: seq<string>)
    ensures |ts| == |lookups|
    ensures forall i :: 0 <= i < |lookups| ==> ts[i] == lookups[i].targetColumn
  {
    if lookups == [] then [] else [lookups[0].targetColumn] + FkTargets(lookups[1..])
  }

  function FkExcelColumns(lookups: seq<ForeignKeyLookup>): (cs: seq<string>)
    ensures |cs| == |lookups|
    ensures forall i :: 0 <= i < |lookups| ==> cs[i] == lookups[i].excelColumn
  {
    if lookups == [] then [] else [lookups[0].excelColumn] + FkExcelColumns(lookups[1..])
  }
}
