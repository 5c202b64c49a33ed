/**
 * The "SQL estimado" text of the preview: the column list the import would
 * write and the INSERT or UPDATE statement with one named placeholder per
 * column. `_build_sql_example` of both windows ends in the same two
 * statement shapes, defined once here.
 */
module SqlExample {
  import opened Wrappers
  import opened Text
  import opened Seqs
  import opened CoreMapping
  import OrderedDict

  /** `f"{x}"` of an optional string: None is written "None". */
  function OptionText(o: Option<string>): string {
    if o.Some? then o.value else "None"
  }

  /** `", ".join(f":{c}" for c in cols)`: one placeholder per column, in the same order. */
  function Placeholders(cols: seq<string>): (ps: seq<string>)
    ensures |ps| == |cols|
    ensures forall i :: 0 <= i < |cols| ==> ps[i] == ":" + cols[i]
  {
    if |cols| == 0 then [] else Placeholders(cols[..|cols| - 1]) + [":" + cols[|cols| - 1]]
  }

  /** The columns an UPDATE sets: every column except the join column, in order. */
  function SetColumns(cols: seq<string>, joinColumn: Option<string>): (r: seq<string>)
    ensures forall x :: x in r <==> x in cols && joinColumn != Some(x)
    ensures SubsequenceOf(r, cols)
  {
    if |cols| == 0 then []
    else
      var front := cols[..|cols| - 1];
      var c := cols[|cols| - 1];
      var rest := SetColumns(front, joinColumn);
      assert cols == front + [c];
      SubsequenceSnoc(rest, front, c);
      if joinColumn == Some(c) then rest else rest + [c]
  }

  /** Without repeated columns, the join column, when listed, is the only one left out. */
  lemma {:induction false} SetColumnsCount(cols: seq<string>, joinColumn: string)
    requires Distinct(cols)
    ensures |SetColumns(cols, Some(joinColumn))| == if joinColumn in cols then |cols| - 1 else |cols|
  {
    if |cols| != 0 {
      var front := cols[..|cols| - 1];
      assert Distinct(front);
      SetColumnsCount(front, joinColumn);
      assert cols == front + [cols[|cols| - 1]];
      if cols[|cols| - 1] == joinColumn {
        assert joinColumn !in front;
      }
    }
  }

  /** `f"{c} = :{c}"` for each column. */
  function Assignments(cols: seq<string>): (as_: seq<string>)
    ensures |as_| == |cols|
    ensures forall i :: 0 <= i < |cols| ==> as_[i] == cols[i] + " = :" + cols[i]
  {
    if |cols| == 0 then [] else Assignments(cols[..|cols| - 1]) + [cols[|cols| - 1] + " = :" + cols[|cols| - 1]]
  }

  /** The INSERT example: the column list, then one placeholder per column in the same order. */
  function InsertStatement(table: string, cols: seq<string>): (sql: string)
    ensures StartsWith(sql, "INSERT INTO " + table + " (" + Join(cols, ", ") + ") VALUES (")
    ensures EndsWith(sql, Join(Placeholders(cols), ", ") + ");")
    ensures |sql| == |"INSERT INTO " + table + " (" + Join(cols, ", ") + ") VALUES ("| + |Join(Placeholders(cols), ", ") + ");"|
  {
    var head := "INSERT INTO " + table + " (" + Join(cols, ", ") + ") VALUES (";
    var tail := Join(Placeholders(cols), ", ") + ");";
    AppendParts(head, tail);
    head + tail
  }

  /** The UPDATE example: SET assigns the columns other than the join column, WHERE tests the join column. */
  function UpdateStatement(table: string, cols: seq<string>, joinColumn: Option<string>): (sql: string)
    ensures StartsWith(sql, "UPDATE " + table + " SET " + Join(Assignments(SetColumns(cols, joinColumn)), ", "))
    ensures EndsWith(sql, " WHERE " + OptionText(joinColumn) + " = :" + OptionText(joinColumn) + ";")
    ensures |sql| == |"UPDATE " + table + " SET " + Join(Assignments(SetColumns(cols, joinColumn)), ", ")|
                   + |" WHERE " + OptionText(joinColumn) + " = :" + OptionText(joinColumn) + ";"|
  {
    var head := "UPDATE " + table + " SET " + Join(Assignments(SetColumns(cols, joinColumn)), ", ");
    var tail := " WHERE " + OptionText(joinColumn) + " = :" + OptionText(joinColumn) + ";";
    AppendParts(head, tail);
    head + tail
  }

  // ---------------------------------------------------------------------------
  // The column list of the current window
  // ---------------------------------------------------------------------------

  /**
   * One pass of the column loop: each of `xs`, unless it is `skip` or is
   * already listed, is appended. What was listed stays first, nothing is
   * listed twice, and a column is listed when it was listed or is one of
   * `xs` other than `skip`.
   */
  function AddNew(cols: seq<string>, xs: seq<string>, skip: Option<string>): (r: seq<string>)
    ensures |cols| <= |r| && r[..|cols|] == cols
    ensures forall y :: y in r <==> y in cols || (y in xs && skip != Some(y))
    ensures Distinct(cols) ==> Distinct(r)
  {
    if |xs| == 0 then cols
    else
      var front := xs[..|xs| - 1];
      var x := xs[|xs| - 1];
      var rest := AddNew(cols, front, skip);
      assert xs == front + [x];
      if skip == Some(x) || x in rest then rest
      else
        assert (rest + [x])[..|cols|] == rest[..|cols|];
        rest + [x]
  }

  /** One more column: appended unless skipped or already listed. */
  lemma AddNewSnoc(cols: seq<string>, xs: seq<string>, x: string, skip: Option<string>)
    ensures AddNew(cols, xs + [x], skip)
         == if skip == Some(x) || x in AddNew(cols, xs, skip) then AddNew(cols, xs, skip) else AddNew(cols, xs, skip) + [x]
  {
    assert (xs + [x])[..|xs|] == xs;
  }

  /** The column a selection skips: the primary key, when the database generates it. */
  function Skipped(sel: MappingSelection): Option<string> {
    if sel.autogeneratePk then sel.primaryKey else None
  }

  /** All columns the selection writes, by provenance: mapping, then defaults, then lookups. */
  function Provided(sel: MappingSelection): seq<string> {
    PairTargets(sel.columnMapping) + OrderedDict.Keys(sel.defaultValues) + FkTargets(sel.fkLookups)
  }

  /**
   * The columns of the example: each column the selection writes exactly
   * once, and the generated primary key never.
   */
  function ExampleColumns(sel: MappingSelection): (cols: seq<string>)
    ensures Distinct(cols)
    ensures forall y :: y in cols <==> y in Provided(sel) && Skipped(sel) != Some(y)
  {
    var skip := Skipped(sel);
    AddNew(AddNew(AddNew([], PairTargets(sel.columnMapping), skip), OrderedDict.Keys(sel.defaultValues), skip), FkTargets(sel.fkLookups), skip)
  }

  /** The example lists mapping targets before default columns before lookup targets. */
  lemma ExampleColumnsContents(sel: MappingSelection)
    ensures var m := AddNew([], PairTargets(sel.columnMapping), Skipped(sel));
      var d := AddNew(m, OrderedDict.Keys(sel.defaultValues), Skipped(sel));
      ExampleColumns(sel)[..|m|] == m && ExampleColumns(sel)[..|d|] == d
      && (forall y :: y in m <==> y in PairTargets(sel.columnMapping) && Skipped(sel) != Some(y))
  {
    var m := AddNew([], PairTargets(sel.columnMapping), Skipped(sel));
    var d := AddNew(m, OrderedDict.Keys(sel.defaultValues), Skipped(sel));
    assert ExampleColumns(sel)[..|d|][..|m|] == ExampleColumns(sel)[..|m|];
  }

  /** The loop body shared by the three provenances. */
  method AppendNew(cols: seq<string>, xs: seq<string>, skip: Option<string>) returns (r: seq<string>)
    ensures r == AddNew(cols, xs, skip)
  {
    r := cols;
    var i := 0;
    while i < |xs|
      invariant 0 <= i <= |xs|
      invariant r == AddNew(cols, xs[..i], skip)
    {
      assert xs[..i + 1][..i] == xs[..i];
      var c := xs[i];
      if skip != Some(c) && c !in r {
        r := r + [c];
      }
      i := i + 1;
    }
    assert xs[..i] == xs;
  }

  /** `_build_sql_example` of the current window. */
  method BuildSqlExample(sel: MappingSelection) returns (sql: string)
    ensures sel.operation.Insert? ==> sql == InsertStatement(sel.tableName, ExampleColumns(sel))
    ensures sel.operation.Update? ==> sql == UpdateStatement(sel.tableName, ExampleColumns(sel), sel.joinColumn)
  {
    var skip := Skipped(sel);
    var cols := AppendNew([], PairTargets(sel.columnMapping), skip);
    cols := AppendNew(cols, OrderedDict.Keys(sel.defaultValues), skip);
    cols := AppendNew(cols, FkTargets(sel.fkLookups), skip);
    if sel.operation.Insert? {
      sql := InsertStatement(sel.tableName, cols);
    } else {
      sql := UpdateStatement(sel.tableName, cols, sel.joinColumn);
    }
  }
}
