/**
 * The selection record of the older `importdatadb` package: a header row,
 * an optional data row window, a dictionary from spreadsheet column to
 * table column, the operation and the join column.
 */
module LegacyMapping {
  import opened Wrappers
  import opened Schema
  import opened Seqs
  import OrderedDict

  datatype Operation = Insert | Update

  datatype MappingSelection = MappingSelection(
    sheetName: string,
    tableName: string,
    headerRow: int,
    startRow: Option<int>,
    endRow: Option<int>,
    columnMapping: OrderedDict.Entries<string>,
    operation: Operation,
    joinColumn: Option<string>)
  {
    /**
     * `mapped_table_columns`: the schema columns, in schema order, whose name
     * is one of the dictionary's values.
     */
    method MappedTableColumns(columns: seq<ColumnInfo>) returns (mapped: seq<string>)
      ensures mapped == MappedNames(columns, OrderedDict.DictValues(columnMapping))
      ensures forall x :: x in mapped <==> x in Names(columns) && exists i :: 0 <= i < |columnMapping| && columnMapping[i].1 == x
      ensures SubsequenceOf(mapped, Names(columns))
      ensures |mapped| <= |columns|
      ensures columnMapping == [] ==> mapped == []
    {
      var values := OrderedDict.DictValues(columnMapping);
      mapped := CollectMappedNames(columns, values);
      MappedNamesInSchemaOrder(columns, values);
      assert forall x :: x in values <==> exists i :: 0 <= i < |columnMapping| && columnMapping[i].1 == x;
    }
  }
}
