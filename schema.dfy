/**
 * The destination table's schema as the database layer reports it
 * (`ColumnInfo`), and the column-level helpers of the main window that read
 * it: the column kind that picks the default-value editor, the first column
 * with a given name, the value a default-value editor yields, and the
 * schema-order filter behind `mapped_table_columns`.
 */
module Schema {
  import opened Wrappers
  import opened Text
  import opened Values
  import opened Seqs

  /** One column of the destination table; `maxLength` is None when the type has no length. */
  datatype ColumnInfo = ColumnInfo(
    name: string,
    typeName: string,
    nullable: bool,
    primaryKey: bool,
    maxLength: Option<int>)

  /** Python truthiness of an optional string: present and non-empty. */
  predicate Truthy(o: Option<string>) {
    o.Some? && o.value != ""
  }

  function Names(columns: seq<ColumnInfo>): (ns: seq<string>)
    ensures |ns| == |columns|
    ensures forall i :: 0 <= i < |columns| ==> ns[i] == columns[i].name
  {
    if columns == [] then [] else Names(columns[..|columns| - 1]) + [columns[|columns| - 1].name]
  }

  // ---------------------------------------------------------------------------
  // _column_kind
  // ---------------------------------------------------------------------------

  datatype ColumnKind = TextKind | BoolKind | DateKind

  /**
   * The editor kind for a column: by its lower-cased type name, "bool"
   * wins over "date"/"time"; anything else, and no column at all, is text.
   */
  function KindOf(column: Option<ColumnInfo>): (k: ColumnKind)
    ensures column.None? ==> k == TextKind
    ensures column.Some? ==>
      (k == BoolKind <==> Contains(LowerAscii(column.value.typeName), "bool"))
    ensures column.Some? ==>
      (k == DateKind <==>
        !Contains(LowerAscii(column.value.typeName), "bool")
        && (Contains(LowerAscii(column.value.typeName), "date") || Contains(LowerAscii(column.value.typeName), "time")))
  {
    if column.None? then TextKind
    else
      var normalized := LowerAscii(column.value.typeName);
      if Contains(normalized, "bool") then BoolKind
      else if Contains(normalized, "date") || Contains(normalized, "time") then DateKind
      else TextKind
  }

  /** A type name that mentions both words is a boolean column, because "bool" is checked first. */
  lemma BoolCheckedFirst(c: ColumnInfo)
    requires Contains(LowerAscii(c.typeName), "bool") && Contains(LowerAscii(c.typeName), "time")
    ensures KindOf(Some(c)) == BoolKind
  {
  }

  // ---------------------------------------------------------------------------
  // _find_column_info
  // ---------------------------------------------------------------------------

  /** The first column called `name`, if any. */
  function FirstNamed(columns: seq<ColumnInfo>, name: string): (r: Option<ColumnInfo>)
    ensures r.None? <==> forall i :: 0 <= i < |columns| ==> columns[i].name != name
    ensures r.Some? ==> exists i :: 0 <= i < |columns| && columns[i] == r.value && r.value.name == name
                          && forall j :: 0 <= j < i ==> columns[j].name != name
  {
    if columns == [] then None
    else if columns[0].name == name then
      assert columns[0] == columns[0];
      Some(columns[0])
    else
      var r := FirstNamed(columns[1..], name);
      if r.Some? then
        var i :| 0 <= i < |columns| - 1 && columns[1..][i] == r.value && r.value.name == name
                 && forall j :: 0 <= j < i ==> columns[1..][j].name != name;
        assert columns[i + 1] == r.value;
        r
      else
        r
  }

  /** `_find_column_info`: scans the schema and returns the first column with that name. */
  method FindColumnInfo(columns: seq<ColumnInfo>, name: string) returns (r: Option<ColumnInfo>)
    ensures r == FirstNamed(columns, name)
  {
    var i := 0;
    while i < |columns|
      invariant 0 <= i <= |columns|
      invariant forall j :: 0 <= j < i ==> columns[j].name != name
    {
      if columns[i].name == name {
        FirstNamedAt(columns, name, i);
        return Some(columns[i]);
      }
      i := i + 1;
    }
    return None;
  }

  lemma FirstNamedAt(columns: seq<ColumnInfo>, name: string, i: int)
    requires 0 <= i < |columns| && columns[i].name == name
    requires forall j :: 0 <= j < i ==> columns[j].name != name
    ensures FirstNamed(columns, name) == Some(columns[i])
  {
    var r := FirstNamed(columns, name);
    var k :| 0 <= k < |columns| && columns[k] == r.value && r.value.name == name
             && forall j :: 0 <= j < k ==> columns[j].name != name;
    assert k == i;
  }

  // ---------------------------------------------------------------------------
  // _read_default_input
  // ---------------------------------------------------------------------------

  /** What the three default-value editors currently hold. */
  datatype DefaultEditors = DefaultEditors(boolChoice: bool, dateChoice: (nat, nat, nat), lineText: string)

  /**
   * `_read_default_input`: the stored value and the text shown for it, taken
   * from the editor that matches the column's kind.
   */
  function ReadDefaultInput(columns: seq<ColumnInfo>, columnName: string, editors: DefaultEditors): (r: (Value, string))
    ensures KindOf(FirstNamed(columns, columnName)) == BoolKind ==> r.0 == Bool(editors.boolChoice)
    ensures KindOf(FirstNamed(columns, columnName)) == DateKind ==>
      r.0 == Date(editors.dateChoice.0, editors.dateChoice.1, editors.dateChoice.2)
    ensures KindOf(FirstNamed(columns, columnName)) == TextKind ==> r == (Str(editors.lineText), editors.lineText)
  {
    match KindOf(FirstNamed(columns, columnName))
    case BoolKind =>
      var b := editors.boolChoice;
      (Bool(b), if b then "true" else "false")
    case DateKind =>
      var d := editors.dateChoice;
      (Date(d.0, d.1, d.2), IsoFormat(d.0, d.1, d.2))
    case TextKind =>
      (Str(editors.lineText), editors.lineText)
  }

  /** The text shown for a default is always the value as the export writes it. */
  lemma ReadDefaultInputShowsExportText(columns: seq<ColumnInfo>, columnName: string, editors: DefaultEditors)
    ensures var r := ReadDefaultInput(columns, columnName, editors); r.1 == ToText(NormalizeValueForExport(r.0))
  {
  }

  // ---------------------------------------------------------------------------
  // mapped_table_columns: the schema columns whose name is a mapping target
  // ---------------------------------------------------------------------------

  /**
   * The names of the schema columns that occur among `targets`, in schema
   * order: only such names, every such name, never more of them than columns.
   */
  function MappedNames(columns: seq<ColumnInfo>, targets: seq<string>): (r: seq<string>)
    ensures |r| <= |columns|
    ensures forall x :: x in r <==> x in targets && x in Names(columns)
    ensures targets == [] ==> r == []
    ensures forall x :: x in targets ==> multiset(r)[x] == multiset(Names(columns))[x]
  {
    if columns == [] then []
    else
      var front := columns[..|columns| - 1];
      var c := columns[|columns| - 1];
      var rest := MappedNames(front, targets);
      assert Names(columns) == Names(front) + [c.name];
      assert multiset(Names(columns)) == multiset(Names(front)) + multiset{c.name};
      if c.name in targets then
        assert multiset(rest + [c.name]) == multiset(rest) + multiset{c.name};
        rest + [c.name]
      else rest
  }

  /** The result keeps the schema order of `columns`. */
  lemma {:induction false} MappedNamesInSchemaOrder(columns: seq<ColumnInfo>, targets: seq<string>)
    ensures SubsequenceOf(MappedNames(columns, targets), Names(columns))
  {
    if columns != [] {
      var front := columns[..|columns| - 1];
      MappedNamesInSchemaOrder(front, targets);
      SubsequenceSnoc(MappedNames(front, targets), Names(front), columns[|columns| - 1].name);
    }
  }

  /** The loop of `mapped_table_columns`, shared by both mapping records. */
  method CollectMappedNames(columns: seq<ColumnInfo>, targets: seq<string>) returns (mapped: seq<string>)
    ensures mapped == MappedNames(columns, targets)
  {
    mapped := [];
    var i := 0;
    while i < |columns|
      invariant 0 <= i <= |columns|
      invariant mapped == MappedNames(columns[..i], targets)
    {
      assert columns[..i + 1][..i] == columns[..i];
      if columns[i].name in targets {
        mapped := mapped + [columns[i].name];
      }
      i := i + 1;
    }
    assert columns[..i] == columns;
  }
}
