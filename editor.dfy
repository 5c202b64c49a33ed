/**
 * The mapping editor of the main window: the three provenance tables
 * (spreadsheet-to-table pairs, default values, foreign-key lookups), the
 * primary key taken from the chosen table, the "PK generated by the
 * database" checkbox and the pre-validation choice; the handlers that add
 * and remove rows, the option lists offered to the user, and
 * `_collect_mapping`, which turns the tables into a `MappingSelection`.
 *
 * Every handler guard rejects a table column that some row of any of the
 * three tables already fills, and this is what keeps the invariant `Valid`:
 * no table column is filled by two rows.
 */
module Editor {
  import opened Wrappers
  import opened Text
  import opened Values
  import opened Seqs
  import opened Schema
  import opened CoreMapping
  import opened SheetPreview
  import OrderedDict
  import RecordBuilder

  /** A row of the defaults table: the column, the text shown and the value kept in the item. */
  datatype DefaultRow = DefaultRow(column: string, display: string, stored: Option<Value>)

  function DefaultColumns(rows: seq<DefaultRow>): (cs: seq<string>)
    ensures |cs| == |rows|
    ensures forall i :: 0 <= i < |rows| ==> cs[i] == rows[i].column
  {
    if rows == [] then [] else [rows[0].column] + DefaultColumns(rows[1..])
  }

  lemma DefaultColumnsAppend(a: seq<DefaultRow>, b: seq<DefaultRow>)
    ensures DefaultColumns(a + b) == DefaultColumns(a) + DefaultColumns(b)
  {
    var l, r := DefaultColumns(a + b), DefaultColumns(a) + DefaultColumns(b);
    assert |l| == |r|;
    forall i | 0 <= i < |l|
      ensures l[i] == r[i]
    {
      if i < |a| {
        assert (a + b)[i] == a[i];
      } else {
        assert (a + b)[i] == b[i - |a|];
      }
    }
  }

  /** Every table column some row fills: mapping targets, default columns, lookup targets. */
  function AllTargets(mapping: seq<(string, string)>, defaults: seq<DefaultRow>, lookups: seq<ForeignKeyLookup>): seq<string> {
    PairTargets(mapping) + DefaultColumns(defaults) + FkTargets(lookups)
  }

  /** The test every add handler makes before adding a row for `column`. */
  predicate InUse(mapping: seq<(string, string)>, defaults: seq<DefaultRow>, lookups: seq<ForeignKeyLookup>, column: string) {
    column in AllTargets(mapping, defaults, lookups)
  }

  /** What an add handler did. */
  datatype AddOutcome = Ignored | Rejected(message: string) | Added

  const MappingInUse := "Coluna de tabela já utilizada no mapeamento, valor padrão ou relacionamento"
  const DefaultInUse := "Coluna ja mapeada, com valor padrao ou relacionamento definido"
  const LookupIncomplete := "Selecione todos os campos para adicionar o relacionamento."
  const LookupInUse := "Coluna de tabela já utilizada no mapeamento, valor padrão ou outro relacionamento."

  // ---------------------------------------------------------------------------
  // Removing the selected rows of a table
  // ---------------------------------------------------------------------------

  /** The rows at index `i` and after whose index is not selected, in order. */
  function KeptFrom<T>(s: seq<T>, selected: set<int>, i: nat): (r: seq<T>)
    requires i <= |s|
    ensures |r| <= |s| - i
    decreases |s| - i
  {
    if i == |s| then [] else (if i in selected then [] else [s[i]]) + KeptFrom(s, selected, i + 1)
  }

  /** The table after `removeRow` of every selected row: the unselected rows, in order. */
  function Kept<T>(s: seq<T>, selected: set<int>): seq<T> {
    KeptFrom(s, selected, 0)
  }

  /** Every row left was there, at an index that was not selected. */
  lemma {:induction false} KeptFromSource<T>(s: seq<T>, selected: set<int>, i: nat, x: T)
    requires i <= |s| && x in KeptFrom(s, selected, i)
    ensures exists j :: i <= j < |s| && j !in selected && s[j] == x
    decreases |s| - i
  {
    if !(i !in selected && s[i] == x) {
      KeptFromSource(s, selected, i + 1, x);
    }
  }

  /** Every row at an index that was not selected is left. */
  lemma {:induction false} KeptFromHas<T>(s: seq<T>, selected: set<int>, i: nat, j: int)
    requires i <= j < |s| && j !in selected
    ensures s[j] in KeptFrom(s, selected, i)
    decreases |s| - i
  {
    if i < j {
      KeptFromHas(s, selected, i + 1, j);
    }
  }

  /** Nothing is removed when nothing is selected. */
  lemma {:induction false} KeptFromNothing<T>(s: seq<T>, i: nat)
    requires i <= |s|
    ensures KeptFrom(s, {}, i) == s[i..]
    decreases |s| - i
  {
    if i < |s| {
      KeptFromNothing(s, i + 1);
      assert s[i..] == [s[i]] + s[i + 1..];
    }
  }

  /** Removing rows from a list without repeats leaves one without repeats. */
  lemma {:induction false} KeptFromDistinct<T>(s: seq<T>, selected: set<int>, i: nat)
    requires i <= |s| && Distinct(s)
    ensures Distinct(KeptFrom(s, selected, i))
    decreases |s| - i
  {
    if i < |s| {
      var rest := KeptFrom(s, selected, i + 1);
      KeptFromDistinct(s, selected, i + 1);
      if i !in selected {
        if s[i] in rest {
          KeptFromSource(s, selected, i + 1, s[i]);
        }
        DistinctConcat([s[i]], rest);
      }
    }
  }

  /** Every element of a kept list was in the list. */
  lemma KeptWithin<T>(s: seq<T>, selected: set<int>)
    ensures forall x :: x in Kept(s, selected) ==> x in s
  {
    forall x | x in Kept(s, selected)
      ensures x in s
    {
      KeptFromSource(s, selected, 0, x);
    }
  }

  /** A leading row contributes its column first. */
  lemma PairTargetsCons(p: (string, string), rest: seq<(string, string)>)
    ensures PairTargets([p] + rest) == [p.1] + PairTargets(rest)
  {
    assert ([p] + rest)[1..] == rest;
  }

  lemma DefaultColumnsCons(row: DefaultRow, rest: seq<DefaultRow>)
    ensures DefaultColumns([row] + rest) == [row.column] + DefaultColumns(rest)
  {
    assert ([row] + rest)[1..] == rest;
  }

  lemma FkTargetsCons(lookup: ForeignKeyLookup, rest: seq<ForeignKeyLookup>)
    ensures FkTargets([lookup] + rest) == [lookup.targetColumn] + FkTargets(rest)
  {
    assert ([lookup] + rest)[1..] == rest;
  }

  /** Removing rows and then reading their table column is reading and then removing. */
  lemma {:induction false} PairTargetsKept(m: seq<(string, string)>, selected: set<int>, i: nat)
    requires i <= |m|
    ensures PairTargets(KeptFrom(m, selected, i)) == KeptFrom(PairTargets(m), selected, i)
    decreases |m| - i
  {
    if i < |m| {
      PairTargetsKept(m, selected, i + 1);
      var rest := KeptFrom(m, selected, i + 1);
      var cs := PairTargets(m);
      if i in selected {
        assert KeptFrom(m, selected, i) == rest;
        assert KeptFrom(cs, selected, i) == KeptFrom(cs, selected, i + 1);
      } else {
        assert KeptFrom(m, selected, i) == [m[i]] + rest;
        assert KeptFrom(cs, selected, i) == [cs[i]] + KeptFrom(cs, selected, i + 1);
        PairTargetsCons(m[i], rest);
      }
    }
  }

  lemma {:induction false} DefaultColumnsKept(d: seq<DefaultRow>, selected: set<int>, i: nat)
    requires i <= |d|
    ensures DefaultColumns(KeptFrom(d, selected, i)) == KeptFrom(DefaultColumns(d), selected, i)
    decreases |d| - i
  {
    if i < |d| {
      DefaultColumnsKept(d, selected, i + 1);
      var rest := KeptFrom(d, selected, i + 1);
      var cs := DefaultColumns(d);
      if i in selected {
        assert KeptFrom(d, selected, i) == rest;
        assert KeptFrom(cs, selected, i) == KeptFrom(cs, selected, i + 1);
      } else {
        assert KeptFrom(d, selected, i) == [d[i]] + rest;
        assert KeptFrom(cs, selected, i) == [cs[i]] + KeptFrom(cs, selected, i + 1);
        DefaultColumnsCons(d[i], rest);
      }
    }
  }

  lemma {:induction false} FkTargetsKept(f: seq<ForeignKeyLookup>, selected: set<int>, i: nat)
    requires i <= |f|
    ensures FkTargets(KeptFrom(f, selected, i)) == KeptFrom(FkTargets(f), selected, i)
    decreases |f| - i
  {
    if i < |f| {
      FkTargetsKept(f, selected, i + 1);
      var rest := KeptFrom(f, selected, i + 1);
      var cs := FkTargets(f);
      if i in selected {
        assert KeptFrom(f, selected, i) == rest;
        assert KeptFrom(cs, selected, i) == KeptFrom(cs, selected, i + 1);
      } else {
        assert KeptFrom(f, selected, i) == [f[i]] + rest;
        assert KeptFrom(cs, selected, i) == [cs[i]] + KeptFrom(cs, selected, i + 1);
        FkTargetsCons(f[i], rest);
      }
    }
  }

  /**
   * The removal loop of the three remove handlers (and of the PK toggle):
   * selected rows go from the highest index down, so the indices still to
   * remove keep pointing at the same rows.
   */
  method RemoveRows<T>(s: seq<T>, selected: set<int>) returns (t: seq<T>)
    ensures t == Kept(s, selected)
  {
    t := s;
    var i := |s|;
    while i > 0
      invariant 0 <= i <= |s|
      invariant t == s[..i] + KeptFrom(s, selected, i)
    {
      i := i - 1;
      if i in selected {
        assert t[..i] == s[..i] && t[i + 1..] == KeptFrom(s, selected, i + 1);
        t := t[..i] + t[i + 1..];
      } else {
        assert s[..i + 1] == s[..i] + [s[i]];
      }
    }
  }

  // ---------------------------------------------------------------------------
  // The invariant across adds and removes
  // ---------------------------------------------------------------------------

  lemma DistinctThree<T>(a: seq<T>, b: seq<T>, c: seq<T>)
    ensures Distinct(a + b + c) <==> Distinct(a) && Distinct(b) && Distinct(c) && Disjoint(a, b) && Disjoint(a, c) && Disjoint(b, c)
  {
    DistinctConcat(a, b);
    DistinctConcat(a + b, c);
  }

  /** A mapping pair for an unused column keeps every column filled once. */
  lemma AddMappingKeepsDistinct(m: seq<(string, string)>, d: seq<DefaultRow>, f: seq<ForeignKeyLookup>, sheetColumn: string, tableColumn: string)
    requires Distinct(AllTargets(m, d, f)) && !InUse(m, d, f, tableColumn)
    ensures Distinct(AllTargets(m + [(sheetColumn, tableColumn)], d, f))
  {
    var p := PairTargets(m);
    assert PairTargets(m + [(sheetColumn, tableColumn)]) == p + [tableColumn];
    DistinctThree(p, DefaultColumns(d), FkTargets(f));
    DistinctConcat(p, [tableColumn]);
    DistinctThree(p + [tableColumn], DefaultColumns(d), FkTargets(f));
  }

  /** A default for an unused column keeps every column filled once. */
  lemma AddDefaultKeepsDistinct(m: seq<(string, string)>, d: seq<DefaultRow>, f: seq<ForeignKeyLookup>, row: DefaultRow)
    requires Distinct(AllTargets(m, d, f)) && !InUse(m, d, f, row.column)
    ensures Distinct(AllTargets(m, d + [row], f))
  {
    var c := DefaultColumns(d);
    assert DefaultColumns(d + [row]) == c + [row.column];
    DistinctThree(PairTargets(m), c, FkTargets(f));
    DistinctConcat(c, [row.column]);
    DistinctThree(PairTargets(m), c + [row.column], FkTargets(f));
  }

  /** A lookup for an unused column keeps every column filled once. */
  lemma AddLookupKeepsDistinct(m: seq<(string, string)>, d: seq<DefaultRow>, f: seq<ForeignKeyLookup>, lookup: ForeignKeyLookup)
    requires Distinct(AllTargets(m, d, f)) && !InUse(m, d, f, lookup.targetColumn)
    ensures Distinct(AllTargets(m, d, f + [lookup]))
  {
    var t := FkTargets(f);
    assert FkTargets(f + [lookup]) == t + [lookup.targetColumn];
    DistinctThree(PairTargets(m), DefaultColumns(d), t);
    DistinctConcat(t, [lookup.targetColumn]);
    DistinctThree(PairTargets(m), DefaultColumns(d), t + [lookup.targetColumn]);
  }

  /** Removing rows of any of the three tables keeps every column filled at most once. */
  lemma RemoveKeepsDistinct(m: seq<(string, string)>, d: seq<DefaultRow>, f: seq<ForeignKeyLookup>, sm: set<int>, sd: set<int>, sf: set<int>)
    requires Distinct(AllTargets(m, d, f))
    ensures Distinct(AllTargets(Kept(m, sm), Kept(d, sd), Kept(f, sf)))
  {
    var p, c, t := PairTargets(m), DefaultColumns(d), FkTargets(f);
    PairTargetsKept(m, sm, 0);
    DefaultColumnsKept(d, sd, 0);
    FkTargetsKept(f, sf, 0);
    DistinctThree(p, c, t);
    KeptFromDistinct(p, sm, 0);
    KeptFromDistinct(c, sd, 0);
    KeptFromDistinct(t, sf, 0);
    KeptWithin(p, sm);
    KeptWithin(c, sd);
    KeptWithin(t, sf);
    DistinctThree(Kept(p, sm), Kept(c, sd), Kept(t, sf));
  }

  // ---------------------------------------------------------------------------
  // _on_table_selected: the primary key of the chosen table
  // ---------------------------------------------------------------------------

  /**
   * The primary key `_on_table_selected` settles on: primary-key columns in
   * schema order replace the choice until it is a non-empty name.
   */
  function PrimaryKeyOf(columns: seq<ColumnInfo>): (key: Option<string>)
    ensures key.None? <==> forall j :: 0 <= j < |columns| ==> !columns[j].primaryKey
    ensures key.Some? ==> exists j :: 0 <= j < |columns| && columns[j].primaryKey && columns[j].name == key.value
  {
    if columns == [] then None
    else
      var front := columns[..|columns| - 1];
      var pk := PrimaryKeyOf(front);
      var c := columns[|columns| - 1];
      assert forall j :: 0 <= j < |front| ==> front[j] == columns[j];
      if c.primaryKey && !Truthy(pk) then Some(c.name) else pk
  }

  /** A primary-key column with a non-empty name. */
  predicate NamedKey(c: ColumnInfo) {
    c.primaryKey && c.name != ""
  }

  /**
   * There is a primary key exactly when some column is one; it is the first
   * named primary-key column in schema order, or "" when every
   * primary-key column has an empty name.
   */
  lemma {:induction false} PrimaryKeyOfFirst(columns: seq<ColumnInfo>, i: int)
    requires 0 <= i < |columns| && NamedKey(columns[i])
    requires forall j :: 0 <= j < i ==> !NamedKey(columns[j])
    ensures PrimaryKeyOf(columns) == Some(columns[i].name)
  {
    var front := columns[..|columns| - 1];
    if i < |front| {
      assert front[i] == columns[i];
      assert forall j :: 0 <= j < i ==> front[j] == columns[j];
      PrimaryKeyOfFirst(front, i);
    } else {
      PrimaryKeyUnnamed(front);
    }
  }

  /** Without a named primary-key column the choice is None or "". */
  lemma {:induction false} PrimaryKeyUnnamed(columns: seq<ColumnInfo>)
    requires forall j :: 0 <= j < |columns| ==> !NamedKey(columns[j])
    ensures !Truthy(PrimaryKeyOf(columns))
  {
    if |columns| > 0 {
      var front := columns[..|columns| - 1];
      assert forall j :: 0 <= j < |front| ==> front[j] == columns[j];
      PrimaryKeyUnnamed(front);
    }
  }

  // ---------------------------------------------------------------------------
  // The option lists
  // ---------------------------------------------------------------------------

  /** The schema columns, in schema order, whose name is not blocked. */
  function Available(columns: seq<ColumnInfo>, blocked: seq<string>): (names: seq<string>)
    ensures forall x :: x in names <==> x in Names(columns) && x !in blocked
    ensures SubsequenceOf(names, Names(columns))
  {
    if columns == [] then []
    else
      var front := columns[..|columns| - 1];
      var c := columns[|columns| - 1];
      var rest := Available(front, blocked);
      assert Names(columns) == Names(front) + [c.name];
      SubsequenceSnoc(rest, Names(front), c.name);
      if c.name in blocked then rest else rest + [c.name]
  }

  /** The primary key, when the database generates it and there is one. */
  function GeneratedKey(pkAuto: bool, pk: Option<string>): seq<string> {
    if pkAuto && Truthy(pk) then [pk.value] else []
  }

  /**
   * `_refresh_fk_target_options`: mapping targets, default columns, lookup
   * targets and a generated key are blocked; every other schema column is
   * offered, in schema order.
   */
  function LookupTargetOptions(columns: seq<ColumnInfo>, m: seq<(string, string)>, d: seq<DefaultRow>, f: seq<ForeignKeyLookup>,
                               pkAuto: bool, pk: Option<string>): (names: seq<string>)
    ensures forall x :: x in names <==> x in Names(columns) && !InUse(m, d, f, x) && !(pkAuto && pk == Some(x) && x != "")
    ensures SubsequenceOf(names, Names(columns))
  {
    Available(columns, AllTargets(m, d, f) + GeneratedKey(pkAuto, pk))
  }

  /**
   * `_refresh_default_column_options` as written: mapping targets, default
   * columns and a generated key are blocked, but lookup targets are not.
   */
  function DefaultColumnOptionsAsWritten(columns: seq<ColumnInfo>, m: seq<(string, string)>, d: seq<DefaultRow>,
                                         pkAuto: bool, pk: Option<string>): (names: seq<string>)
    ensures forall x :: x in names <==>
      x in Names(columns) && x !in PairTargets(m) && x !in DefaultColumns(d) && !(pkAuto && pk == Some(x) && x != "")
    ensures SubsequenceOf(names, Names(columns))
  {
    Available(columns, PairTargets(m) + DefaultColumns(d) + GeneratedKey(pkAuto, pk))
  }

  /** The default-column list with lookup targets blocked too, as the add guard expects. */
  function DefaultColumnOptions(columns: seq<ColumnInfo>, m: seq<(string, string)>, d: seq<DefaultRow>, f: seq<ForeignKeyLookup>,
                                pkAuto: bool, pk: Option<string>): seq<string> {
    Available(columns, AllTargets(m, d, f) + GeneratedKey(pkAuto, pk))
  }

  /**
   * Each column offered for a lookup or a default is a schema column the
   * add guard accepts, other than a generated key; and each such column is
   * offered, in schema order.
   */
  lemma OptionsMatchGuard(columns: seq<ColumnInfo>, m: seq<(string, string)>, d: seq<DefaultRow>, f: seq<ForeignKeyLookup>,
                          pkAuto: bool, pk: Option<string>, x: string)
    ensures x in LookupTargetOptions(columns, m, d, f, pkAuto, pk) <==>
      x in Names(columns) && !InUse(m, d, f, x) && !(pkAuto && pk == Some(x) && x != "")
    ensures DefaultColumnOptions(columns, m, d, f, pkAuto, pk) == LookupTargetOptions(columns, m, d, f, pkAuto, pk)
    ensures SubsequenceOf(LookupTargetOptions(columns, m, d, f, pkAuto, pk), Names(columns))
  {
  }

  /**
   * As written, a column filled by a lookup is still offered as a default
   * column, and the default handler then rejects it.
   */
  lemma DefaultOptionsOfferLookupTarget(columns: seq<ColumnInfo>, m: seq<(string, string)>, d: seq<DefaultRow>, f: seq<ForeignKeyLookup>,
                                        pkAuto: bool, pk: Option<string>, x: string)
    requires x in Names(columns) && x in FkTargets(f)
    requires x !in PairTargets(m) && x !in DefaultColumns(d) && !(pkAuto && pk == Some(x))
    ensures x in DefaultColumnOptionsAsWritten(columns, m, d, pkAuto, pk)
    ensures InUse(m, d, f, x)
    ensures x !in DefaultColumnOptions(columns, m, d, f, pkAuto, pk)
  {
  }

  // ---------------------------------------------------------------------------
  // _collect_default_values
  // ---------------------------------------------------------------------------

  /** The value a row yields: the stored one, else the text shown. */
  function RowValue(row: DefaultRow): Value {
    if row.stored.Some? then row.stored.value else Str(row.display)
  }

  /** `values[col] = ...` for each row in order. */
  function DefaultsDict(rows: seq<DefaultRow>): (values: OrderedDict.Entries<Value>)
    ensures OrderedDict.UniqueKeys(values)
  {
    if rows == [] then []
    else
      var last := rows[|rows| - 1];
      OrderedDict.Put(DefaultsDict(rows[..|rows| - 1]), last.column, RowValue(last))
  }

  /** The index of the last row for `column`, or -1. */
  function LastRowFor(rows: seq<DefaultRow>, column: string): (i: int)
    ensures -1 <= i < |rows|
    ensures i >= 0 ==> rows[i].column == column
    ensures forall j :: i < j < |rows| ==> rows[j].column != column
  {
    if rows == [] then -1
    else if rows[|rows| - 1].column == column then |rows| - 1
    else LastRowFor(rows[..|rows| - 1], column)
  }

  /** A later row for the same column wins; a column without rows has no value. */
  lemma {:induction false} DefaultsLastWins(rows: seq<DefaultRow>, column: string)
    ensures OrderedDict.Get(DefaultsDict(rows), column)
         == if LastRowFor(rows, column) < 0 then None else Some(RowValue(rows[LastRowFor(rows, column)]))
  {
    if |rows| > 0 {
      var front := rows[..|rows| - 1];
      if rows[|rows| - 1].column != column {
        DefaultsLastWins(front, column);
      }
    }
  }

  /** With one row per column, the keys are the rows' columns in table order. */
  lemma {:induction false} DefaultsKeysInOrder(rows: seq<DefaultRow>)
    requires Distinct(DefaultColumns(rows))
    ensures OrderedDict.Keys(DefaultsDict(rows)) == DefaultColumns(rows)
  {
    if |rows| > 0 {
      var front := rows[..|rows| - 1];
      var last := rows[|rows| - 1];
      assert DefaultColumns(rows) == DefaultColumns(front) + [last.column];
      DistinctConcat(DefaultColumns(front), [last.column]);
      DefaultsKeysInOrder(front);
      var dict := DefaultsDict(front);
      OrderedDict.HasKeyInKeys(dict, last.column);
      var r := dict + [(last.column, RowValue(last))];
      assert OrderedDict.Keys(r) == OrderedDict.Keys(dict) + [last.column];
    }
  }

  /** `_collect_default_values`. */
  method CollectDefaultValues(rows: seq<DefaultRow>) returns (values: OrderedDict.Entries<Value>)
    ensures values == DefaultsDict(rows)
  {
    values := [];
    var i := 0;
    while i < |rows|
      invariant 0 <= i <= |rows|
      invariant values == DefaultsDict(rows[..i])
    {
      assert rows[..i + 1][..i] == rows[..i];
      var stored := rows[i].stored;
      values := OrderedDict.Put(values, rows[i].column, if stored.Some? then stored.value else Str(rows[i].display));
      i := i + 1;
    }
    assert rows[..i] == rows;
  }

  // ---------------------------------------------------------------------------
  // _missing_required_columns
  // ---------------------------------------------------------------------------

  /** A column the import has to fill: not nullable, and not a key the database generates. */
  predicate Required(c: ColumnInfo, autogeneratePk: bool) {
    !c.nullable && !(c.primaryKey && autogeneratePk)
  }

  /** The required columns nothing in `covered` fills, in schema order. */
  function MissingRequired(columns: seq<ColumnInfo>, covered: seq<string>, autogeneratePk: bool): (missing: seq<string>)
    ensures |missing| <= |columns|
  {
    if columns == [] then []
    else
      var c := columns[|columns| - 1];
      var rest := MissingRequired(columns[..|columns| - 1], covered, autogeneratePk);
      if Required(c, autogeneratePk) && c.name !in covered then rest + [c.name] else rest
  }

  /** A name is reported exactly when some required column of that name is not covered. */
  lemma {:induction false} MissingRequiredIff(columns: seq<ColumnInfo>, covered: seq<string>, autogeneratePk: bool, x: string)
    ensures x in MissingRequired(columns, covered, autogeneratePk) <==>
      x !in covered && exists i :: 0 <= i < |columns| && columns[i].name == x && Required(columns[i], autogeneratePk)
  {
    if |columns| > 0 {
      var front := columns[..|columns| - 1];
      MissingRequiredIff(front, covered, autogeneratePk, x);
      assert forall i :: 0 <= i < |front| ==> front[i] == columns[i];
    }
  }

  /** The report follows schema order. */
  lemma {:induction false} MissingRequiredInSchemaOrder(columns: seq<ColumnInfo>, covered: seq<string>, autogeneratePk: bool)
    ensures SubsequenceOf(MissingRequired(columns, covered, autogeneratePk), Names(columns))
  {
    if |columns| > 0 {
      var front := columns[..|columns| - 1];
      var c := columns[|columns| - 1];
      MissingRequiredInSchemaOrder(front, covered, autogeneratePk);
      assert Names(columns) == Names(front) + [c.name];
      SubsequenceSnoc(MissingRequired(front, covered, autogeneratePk), Names(front), c.name);
    }
  }

  /** The loop of `_missing_required_columns`. */
  method MissingRequiredColumns(columns: seq<ColumnInfo>, covered: seq<string>, autogeneratePk: bool) returns (missing: seq<string>)
    ensures missing == MissingRequired(columns, covered, autogeneratePk)
  {
    missing := [];
    var i := 0;
    while i < |columns|
      invariant 0 <= i <= |columns|
      invariant missing == MissingRequired(columns[..i], covered, autogeneratePk)
    {
      assert columns[..i + 1][..i] == columns[..i];
      var c := columns[i];
      if c.nullable {
      } else if c.primaryKey && autogeneratePk {
      } else if c.name !in covered {
        missing := missing + [c.name];
      }
      i := i + 1;
    }
    assert columns[..i] == columns;
  }

  // ---------------------------------------------------------------------------
  // _collect_mapping
  // ---------------------------------------------------------------------------

  /** The widgets `_collect_mapping` reads besides the three tables. */
  datatype WindowInputs = WindowInputs(
    sheet: Option<string>,
    table: Option<string>,
    headerSpin: int,
    startSpin: int,
    endSpin: int,
    updateSelected: bool,
    joinText: string)

  /** Why `_collect_mapping` gives no selection. */
  datatype CollectError =
    | NoSheetOrTable
    | JoinNotCovered
    | NothingMapped
    | RequiredMissing(columns: seq<string>)
  {
    function Message(): (m: string)
      ensures this.NoSheetOrTable? ==> m == NoSheetOrTableText
      ensures this.JoinNotCovered? ==> m == JoinNotCoveredText
      ensures this.NothingMapped? ==> m == NothingMappedText
      ensures this.RequiredMissing? ==> StartsWith(m, RequiredMissingLead) && EndsWith(m, Join(columns, ", "))
    {
      match this
      case NoSheetOrTable => NoSheetOrTableText
      case JoinNotCovered => JoinNotCoveredText
      case NothingMapped => NothingMappedText
      case RequiredMissing(columns) => RequiredMissingText(columns)
    }
  }

  const NoSheetOrTableText := "Selecione uma aba e uma tabela"
  const JoinNotCoveredText := "Para UPDATE, a coluna de junção precisa estar mapeada/definida para evitar falhas"
  const NothingMappedText := "Adicione ao menos um mapeamento ou valor padrão"
  const RequiredMissingLead := "Preencha os campos obrigatórios: "

  /** The required-columns warning: its lead, then the missing columns joined by ", ". */
  function RequiredMissingText(columns: seq<string>): (m: string)
    ensures StartsWith(m, RequiredMissingLead) && EndsWith(m, Join(columns, ", "))
  {
    AppendParts(RequiredMissingLead, Join(columns, ", "));
    RequiredMissingLead + Join(columns, ", ")
  }

  /** The primary key is generated by the database: checkbox on, a key, and no mapping pair fills it. */
  predicate Autogenerate(m: seq<(string, string)>, pk: Option<string>, pkAuto: bool) {
    pkAuto && Truthy(pk) && pk.value !in PairTargets(m)
  }

  /** The defaults that go into the selection: the table's, less the generated key. */
  function SelectedDefaults(m: seq<(string, string)>, d: seq<DefaultRow>, pk: Option<string>, pkAuto: bool): OrderedDict.Entries<Value> {
    if Autogenerate(m, pk, pkAuto) then OrderedDict.Pop(DefaultsDict(d), pk.value) else DefaultsDict(d)
  }

  /**
   * What `_collect_mapping` returns for the editor state and the other
   * widgets. A collected selection carries the tables as they are, a
   * generated key exactly when the checkbox is on, there is a key and no
   * pair maps to it, and then no default for it; UPDATE has a join column
   * and INSERT none, and a non-empty join column is filled by a pair, a
   * default or a lookup; something is filled.
   */
  function Collected(columns: seq<ColumnInfo>, m: seq<(string, string)>, d: seq<DefaultRow>, f: seq<ForeignKeyLookup>,
                     pk: Option<string>, pkAuto: bool, removeDuplicates: bool, checkColumn: Option<string>,
                     inputs: WindowInputs): (r: Result<MappingSelection, CollectError>)
    ensures r.Failure? && r.error.NoSheetOrTable? <==> inputs.sheet.None? || inputs.table.None?
    ensures r.Success? ==>
      var sel := r.value;
      && inputs.sheet == Some(sel.sheetName) && inputs.table == Some(sel.tableName)
      && sel.columnMapping == m && sel.fkLookups == f && sel.primaryKey == pk
      && (sel.autogeneratePk <==> pkAuto && Truthy(pk) && pk.value !in PairTargets(m))
      && (sel.autogeneratePk ==> !OrderedDict.HasKey(sel.defaultValues, pk.value))
      && (sel.operation.Update? <==> sel.joinColumn.Some?)
      && (Truthy(sel.joinColumn) ==> sel.joinColumn.value in PairTargets(m) + OrderedDict.Keys(DefaultsDict(d)) + FkTargets(f))
      && (|m| > 0 || |sel.defaultValues| > 0 || |f| > 0)
      && sel.headerRow >= 1
      && (sel.removeDuplicateRows <==> removeDuplicates && Truthy(checkColumn))
      && (sel.removeDuplicateRows ==> sel.duplicateCheckColumn == checkColumn)
  {
    if inputs.sheet.None? || inputs.table.None? then Failure(NoSheetOrTable)
    else CollectJoinChecked(columns, m, DefaultsDict(d), f, pk, pkAuto, removeDuplicates, checkColumn, inputs)
  }

  /** The join-column test, then the generated key leaves the defaults. */
  function CollectJoinChecked(columns: seq<ColumnInfo>, m: seq<(string, string)>, defaults: OrderedDict.Entries<Value>,
                              f: seq<ForeignKeyLookup>, pk: Option<string>, pkAuto: bool, removeDuplicates: bool,
                              checkColumn: Option<string>, inputs: WindowInputs): (r: Result<MappingSelection, CollectError>)
    requires inputs.sheet.Some? && inputs.table.Some? && OrderedDict.UniqueKeys(defaults)
    ensures r.Failure? ==> !r.error.NoSheetOrTable?
    ensures r.Success? ==>
      && (r.value.autogeneratePk <==> Autogenerate(m, pk, pkAuto))
      && (r.value.autogeneratePk ==> !OrderedDict.HasKey(r.value.defaultValues, pk.value))
      && (Truthy(r.value.joinColumn) ==> r.value.joinColumn.value in PairTargets(m) + OrderedDict.Keys(defaults) + FkTargets(f))
  {
    var join := JoinChoice(inputs);
    if Truthy(join) && join.value !in PairTargets(m) + OrderedDict.Keys(defaults) + FkTargets(f) then Failure(JoinNotCovered)
    else
      var autogenerate := Autogenerate(m, pk, pkAuto);
      CollectCovered(columns, m, if autogenerate then OrderedDict.Pop(defaults, pk.value) else defaults, f, pk, autogenerate,
                     removeDuplicates, checkColumn, inputs)
  }

  /** The emptiness and required-column tests, then the selection. */
  function CollectCovered(columns: seq<ColumnInfo>, m: seq<(string, string)>, defaults: OrderedDict.Entries<Value>,
                          f: seq<ForeignKeyLookup>, pk: Option<string>, autogenerate: bool, removeDuplicates: bool,
                          checkColumn: Option<string>, inputs: WindowInputs): (r: Result<MappingSelection, CollectError>)
    requires inputs.sheet.Some? && inputs.table.Some?
    ensures r.Failure? ==> !r.error.NoSheetOrTable?
    ensures r.Success? ==>
      var sel := r.value;
      && inputs.sheet == Some(sel.sheetName) && inputs.table == Some(sel.tableName)
      && sel.columnMapping == m && sel.defaultValues == defaults && sel.fkLookups == f
      && sel.primaryKey == pk && sel.autogeneratePk == autogenerate
      && sel.joinColumn == JoinChoice(inputs) && (sel.operation.Update? <==> sel.joinColumn.Some?)
      && (|m| > 0 || |defaults| > 0 || |f| > 0)
      && sel.headerRow >= 1
      && (sel.removeDuplicateRows <==> removeDuplicates && Truthy(checkColumn))
      && (sel.removeDuplicateRows ==> sel.duplicateCheckColumn == checkColumn)
  {
    if |m| == 0 && |defaults| == 0 && |f| == 0 then Failure(NothingMapped)
    else
      var missing := MissingRequired(columns, PairTargets(m) + OrderedDict.Keys(defaults) + FkTargets(f), autogenerate);
      if |missing| > 0 then Failure(RequiredMissing(missing))
      else
        var dedup := removeDuplicates && Truthy(checkColumn);
        Success(MappingSelection(
          inputs.sheet.value, inputs.table.value,
          CurrentHeaderExcelRow(inputs.headerSpin),
          inputs.startSpin, if inputs.endSpin == 0 then None else Some(inputs.endSpin),
          m, defaults, f,
          if inputs.updateSelected then Update else Insert, JoinChoice(inputs),
          pk, autogenerate, dedup, if dedup then checkColumn else None))
  }

  /** `join_combo.currentText()` for UPDATE, None for INSERT. */
  function JoinChoice(inputs: WindowInputs): Option<string> {
    if inputs.updateSelected then Some(inputs.joinText) else None
  }

  /** Every column the schema requires is filled in a collected selection. */
  lemma CollectedSelection(columns: seq<ColumnInfo>, m: seq<(string, string)>, d: seq<DefaultRow>, f: seq<ForeignKeyLookup>,
                           pk: Option<string>, pkAuto: bool, removeDuplicates: bool, checkColumn: Option<string>,
                           inputs: WindowInputs)
    requires Collected(columns, m, d, f, pk, pkAuto, removeDuplicates, checkColumn, inputs).Success?
    ensures var sel := Collected(columns, m, d, f, pk, pkAuto, removeDuplicates, checkColumn, inputs).value;
      forall i :: 0 <= i < |columns| && Required(columns[i], sel.autogeneratePk) ==>
        columns[i].name in PairTargets(m) + OrderedDict.Keys(sel.defaultValues) + FkTargets(f)
  {
    var sel := Collected(columns, m, d, f, pk, pkAuto, removeDuplicates, checkColumn, inputs).value;
    var covered := PairTargets(m) + OrderedDict.Keys(sel.defaultValues) + FkTargets(f);
    forall i | 0 <= i < |columns| && Required(columns[i], sel.autogeneratePk)
      ensures columns[i].name in covered
    {
      MissingRequiredIff(columns, covered, sel.autogeneratePk, columns[i].name);
    }
  }

  /** A required column left unfilled is reported, and only then is the selection refused for that reason. */
  lemma CollectedReportsMissing(columns: seq<ColumnInfo>, m: seq<(string, string)>, d: seq<DefaultRow>, f: seq<ForeignKeyLookup>,
                                pk: Option<string>, pkAuto: bool, removeDuplicates: bool, checkColumn: Option<string>,
                                inputs: WindowInputs, i: int)
    requires inputs.sheet.Some? && inputs.table.Some?
    requires !(inputs.updateSelected && Truthy(Some(inputs.joinText))
               && inputs.joinText !in PairTargets(m) + OrderedDict.Keys(DefaultsDict(d)) + FkTargets(f))
    requires |m| > 0 || |SelectedDefaults(m, d, pk, pkAuto)| > 0 || |f| > 0
    requires 0 <= i < |columns| && Required(columns[i], Autogenerate(m, pk, pkAuto))
    requires columns[i].name !in PairTargets(m) + OrderedDict.Keys(SelectedDefaults(m, d, pk, pkAuto)) + FkTargets(f)
    ensures Collected(columns, m, d, f, pk, pkAuto, removeDuplicates, checkColumn, inputs).Failure?
    ensures Collected(columns, m, d, f, pk, pkAuto, removeDuplicates, checkColumn, inputs).error.RequiredMissing?
    ensures columns[i].name in Collected(columns, m, d, f, pk, pkAuto, removeDuplicates, checkColumn, inputs).error.columns
  {
    CollectedPastJoin(columns, m, d, f, pk, pkAuto, removeDuplicates, checkColumn, inputs);
    MissingRequiredIff(columns, PairTargets(m) + OrderedDict.Keys(SelectedDefaults(m, d, pk, pkAuto)) + FkTargets(f),
                       Autogenerate(m, pk, pkAuto), columns[i].name);
  }

  /** Past the join test, the outcome is that of the coverage tests on the selected defaults. */
  lemma CollectedPastJoin(columns: seq<ColumnInfo>, m: seq<(string, string)>, d: seq<DefaultRow>, f: seq<ForeignKeyLookup>,
                          pk: Option<string>, pkAuto: bool, removeDuplicates: bool, checkColumn: Option<string>,
                          inputs: WindowInputs)
    requires inputs.sheet.Some? && inputs.table.Some?
    requires !(inputs.updateSelected && Truthy(Some(inputs.joinText))
               && inputs.joinText !in PairTargets(m) + OrderedDict.Keys(DefaultsDict(d)) + FkTargets(f))
    ensures Collected(columns, m, d, f, pk, pkAuto, removeDuplicates, checkColumn, inputs)
         == CollectCovered(columns, m, SelectedDefaults(m, d, pk, pkAuto), f, pk, Autogenerate(m, pk, pkAuto),
                           removeDuplicates, checkColumn, inputs)
  {
  }

  /**
   * When the tables fill no column twice, neither does the selection they
   * give: its pairs, its defaults and its lookups have distinct targets, and
   * no column is filled by two of them. This is what the record builder relies
   * on to find each mapped value in its own column.
   */
  lemma CollectedTargetsDistinct(columns: seq<ColumnInfo>, m: seq<(string, string)>, d: seq<DefaultRow>, f: seq<ForeignKeyLookup>,
                                 pk: Option<string>, pkAuto: bool, removeDuplicates: bool, checkColumn: Option<string>,
                                 inputs: WindowInputs)
    requires Distinct(AllTargets(m, d, f))
    requires Collected(columns, m, d, f, pk, pkAuto, removeDuplicates, checkColumn, inputs).Success?
    ensures var sel := Collected(columns, m, d, f, pk, pkAuto, removeDuplicates, checkColumn, inputs).value;
      Distinct(PairTargets(sel.columnMapping) + OrderedDict.Keys(sel.defaultValues) + FkTargets(sel.fkLookups))
    ensures var sel := Collected(columns, m, d, f, pk, pkAuto, removeDuplicates, checkColumn, inputs).value;
      RecordBuilder.UniqueTargets(sel.columnMapping) && RecordBuilder.UniqueFkTargets(sel.fkLookups)
  {
    var sel := Collected(columns, m, d, f, pk, pkAuto, removeDuplicates, checkColumn, inputs).value;
    CollectedSelection(columns, m, d, f, pk, pkAuto, removeDuplicates, checkColumn, inputs);
    CollectedPastJoin(columns, m, d, f, pk, pkAuto, removeDuplicates, checkColumn, inputs);
    assert sel.defaultValues == SelectedDefaults(m, d, pk, pkAuto);
    var p, dc, ft := PairTargets(m), DefaultColumns(d), FkTargets(f);
    DistinctThree(p, dc, ft);
    DefaultsKeysInOrder(d);
    var keys := OrderedDict.Keys(sel.defaultValues);
    SelectedDefaultKeys(m, d, pk, pkAuto);
    assert Disjoint(p, keys) && Disjoint(keys, ft);
    DistinctThree(p, keys, ft);
  }

  /** The selected defaults are defaults of the table, each once. */
  lemma SelectedDefaultKeys(m: seq<(string, string)>, d: seq<DefaultRow>, pk: Option<string>, pkAuto: bool)
    requires Distinct(DefaultColumns(d))
    ensures Distinct(OrderedDict.Keys(SelectedDefaults(m, d, pk, pkAuto)))
    ensures forall x :: x in OrderedDict.Keys(SelectedDefaults(m, d, pk, pkAuto)) ==> x in DefaultColumns(d)
  {
    var all := DefaultsDict(d);
    var sd := SelectedDefaults(m, d, pk, pkAuto);
    DefaultsKeysInOrder(d);
    assert OrderedDict.UniqueKeys(sd);
    forall x | x in OrderedDict.Keys(sd)
      ensures x in DefaultColumns(d)
    {
      OrderedDict.HasKeyInKeys(sd, x);
      OrderedDict.HasKeyInKeys(all, x);
      if Autogenerate(m, pk, pkAuto) {
        assert OrderedDict.Get(sd, x) == OrderedDict.Get(all, x);
      }
    }
  }

  /** Empty tables fill no column twice. */
  lemma NoTargetsDistinct()
    ensures Distinct(AllTargets([], [], []))
  {
    assert |AllTargets([], [], [])| == 0;
  }

  // ---------------------------------------------------------------------------
  // The editor state
  // ---------------------------------------------------------------------------

  class MappingEditor {
    var tableColumns: seq<ColumnInfo>
    var mappingRows: seq<(string, string)>
    var defaultRows: seq<DefaultRow>
    var fkRows: seq<ForeignKeyLookup>
    var primaryKeyColumn: Option<string>
    var pkAuto: bool
    var preValidationRemoveDuplicates: bool
    var preValidationColumn: Option<string>
    var preValidationLastResult: Option<(int, int)>

    /** No table column is filled by two rows. */
    predicate Valid()
      reads this`mappingRows, this`defaultRows, this`fkRows
    {
      Distinct(AllTargets(mappingRows, defaultRows, fkRows))
    }

    /** The settings no table handler touches. */
    twostate predicate SameSettings()
      reads this
    {
      && tableColumns == old(tableColumns)
      && primaryKeyColumn == old(primaryKeyColumn)
      && pkAuto == old(pkAuto)
      && preValidationRemoveDuplicates == old(preValidationRemoveDuplicates)
      && preValidationColumn == old(preValidationColumn)
      && preValidationLastResult == old(preValidationLastResult)
    }

    /** The state of the pre-validation dialog is as it was. */
    twostate predicate SamePreValidation()
      reads this
    {
      && preValidationRemoveDuplicates == old(preValidationRemoveDuplicates)
      && preValidationColumn == old(preValidationColumn)
      && preValidationLastResult == old(preValidationLastResult)
    }

    constructor ()
      ensures Valid()
      ensures tableColumns == [] && mappingRows == [] && defaultRows == [] && fkRows == []
      ensures primaryKeyColumn == None && !pkAuto
      ensures !preValidationRemoveDuplicates && preValidationColumn == None && preValidationLastResult == None
    {
      tableColumns := [];
      mappingRows := [];
      defaultRows := [];
      fkRows := [];
      primaryKeyColumn := None;
      pkAuto := false;
      preValidationRemoveDuplicates := false;
      preValidationColumn := None;
      preValidationLastResult := None;
    }

    /** `_add_mapping` for the selected spreadsheet column and table column, if both are selected. */
    method AddMapping(sheetColumn: Option<string>, tableColumn: Option<string>) returns (outcome: AddOutcome)
      requires Valid()
      modifies this
      ensures Valid() && SameSettings()
      ensures defaultRows == old(defaultRows) && fkRows == old(fkRows)
      ensures sheetColumn.None? || tableColumn.None? ==> outcome == Ignored && mappingRows == old(mappingRows)
      ensures sheetColumn.Some? && tableColumn.Some? && old(InUse(mappingRows, defaultRows, fkRows, tableColumn.value)) ==>
        outcome == Rejected(MappingInUse) && mappingRows == old(mappingRows)
      ensures sheetColumn.Some? && tableColumn.Some? && !old(InUse(mappingRows, defaultRows, fkRows, tableColumn.value)) ==>
        outcome == Added && mappingRows == old(mappingRows) + [(sheetColumn.value, tableColumn.value)]
    {
      if sheetColumn.None? || tableColumn.None? {
        return Ignored;
      }
      if InUse(mappingRows, defaultRows, fkRows, tableColumn.value) {
        return Rejected(MappingInUse);
      }
      AddMappingKeepsDistinct(mappingRows, defaultRows, fkRows, sheetColumn.value, tableColumn.value);
      mappingRows := mappingRows + [(sheetColumn.value, tableColumn.value)];
      return Added;
    }

    /**
     * `_add_default_value` for the column chosen in the combo box: the
     * value and its text come from the editor matching the column's kind.
     */
    method AddDefaultValue(columnName: Option<string>, editors: DefaultEditors) returns (outcome: AddOutcome)
      requires Valid()
      modifies this
      ensures Valid() && SameSettings()
      ensures mappingRows == old(mappingRows) && fkRows == old(fkRows)
      ensures !Truthy(columnName) ==> outcome == Ignored && defaultRows == old(defaultRows)
      ensures Truthy(columnName) && old(InUse(mappingRows, defaultRows, fkRows, columnName.value)) ==>
        outcome == Rejected(DefaultInUse) && defaultRows == old(defaultRows)
      ensures Truthy(columnName) && !old(InUse(mappingRows, defaultRows, fkRows, columnName.value)) ==>
        var input := ReadDefaultInput(tableColumns, columnName.value, editors);
        outcome == Added && defaultRows == old(defaultRows) + [DefaultRow(columnName.value, input.1, Some(input.0))]
    {
      if !Truthy(columnName) {
        return Ignored;
      }
      var name := columnName.value;
      if InUse(mappingRows, defaultRows, fkRows, name) {
        return Rejected(DefaultInUse);
      }
      var input := ReadDefaultInput(tableColumns, name, editors);
      var row := DefaultRow(name, input.1, Some(input.0));
      AddDefaultKeepsDistinct(mappingRows, defaultRows, fkRows, row);
      defaultRows := defaultRows + [row];
      return Added;
    }

    /** `_add_fk_lookup` for the five choices of the lookup form. */
    method AddFkLookup(target: Option<string>, excelColumn: string, foreignTable: string,
                       foreignId: Option<string>, foreignLabel: Option<string>) returns (outcome: AddOutcome)
      requires Valid()
      modifies this
      ensures Valid() && SameSettings()
      ensures mappingRows == old(mappingRows) && defaultRows == old(defaultRows)
      ensures !(Truthy(target) && excelColumn != "" && foreignTable != "" && Truthy(foreignId) && Truthy(foreignLabel)) ==>
        outcome == Rejected(LookupIncomplete) && fkRows == old(fkRows)
      ensures Truthy(target) && excelColumn != "" && foreignTable != "" && Truthy(foreignId) && Truthy(foreignLabel) ==>
        (if old(InUse(mappingRows, defaultRows, fkRows, target.value))
         then outcome == Rejected(LookupInUse) && fkRows == old(fkRows)
         else (outcome == Added
           && fkRows == old(fkRows) + [ForeignKeyLookup(target.value, excelColumn, foreignTable, foreignId.value, foreignLabel.value)]))
    {
      if !(Truthy(target) && excelColumn != "" && foreignTable != "" && Truthy(foreignId) && Truthy(foreignLabel)) {
        return Rejected(LookupIncomplete);
      }
      if InUse(mappingRows, defaultRows, fkRows, target.value) {
        return Rejected(LookupInUse);
      }
      var lookup := ForeignKeyLookup(target.value, excelColumn, foreignTable, foreignId.value, foreignLabel.value);
      AddLookupKeepsDistinct(mappingRows, defaultRows, fkRows, lookup);
      fkRows := fkRows + [lookup];
      return Added;
    }

    /** `_remove_mapping`: the selected rows of the mapping table go. */
    method RemoveMappings(selected: set<int>)
      requires Valid()
      modifies this
      ensures Valid() && SameSettings()
      ensures mappingRows == Kept(old(mappingRows), selected)
      ensures defaultRows == old(defaultRows) && fkRows == old(fkRows)
    {
      RemoveKeepsDistinct(mappingRows, defaultRows, fkRows, selected, {}, {});
      KeptFromNothing(defaultRows, 0);
      KeptFromNothing(fkRows, 0);
      mappingRows := RemoveRows(mappingRows, selected);
    }

    /** `_remove_default_value`: the selected rows of the defaults table go. */
    method RemoveDefaultValues(selected: set<int>)
      requires Valid()
      modifies this
      ensures Valid() && SameSettings()
      ensures defaultRows == Kept(old(defaultRows), selected)
      ensures mappingRows == old(mappingRows) && fkRows == old(fkRows)
    {
      RemoveKeepsDistinct(mappingRows, defaultRows, fkRows, {}, selected, {});
      KeptFromNothing(mappingRows, 0);
      KeptFromNothing(fkRows, 0);
      defaultRows := RemoveRows(defaultRows, selected);
    }

    /** `_remove_fk_lookup`: the selected rows of the lookup table go. */
    method RemoveFkLookups(selected: set<int>)
      requires Valid()
      modifies this
      ensures Valid() && SameSettings()
      ensures fkRows == Kept(old(fkRows), selected)
      ensures mappingRows == old(mappingRows) && defaultRows == old(defaultRows)
    {
      RemoveKeepsDistinct(mappingRows, defaultRows, fkRows, {}, {}, selected);
      KeptFromNothing(mappingRows, 0);
      KeptFromNothing(defaultRows, 0);
      fkRows := RemoveRows(fkRows, selected);
    }

    /**
     * `_on_pk_auto_toggled`: switching the checkbox on, with a primary key,
     * drops every default row for the key; the other rows are kept in order.
     */
    method TogglePkAuto(checked: bool)
      requires Valid()
      modifies this
      ensures Valid()
      ensures pkAuto == checked
      ensures tableColumns == old(tableColumns) && primaryKeyColumn == old(primaryKeyColumn)
      ensures mappingRows == old(mappingRows) && fkRows == old(fkRows)
      ensures preValidationRemoveDuplicates == old(preValidationRemoveDuplicates)
      ensures preValidationColumn == old(preValidationColumn) && preValidationLastResult == old(preValidationLastResult)
      ensures checked && Truthy(primaryKeyColumn) ==>
        defaultRows == Kept(old(defaultRows), RowsFor(old(defaultRows), primaryKeyColumn.value))
        && forall r :: r in defaultRows ==> r.column != primaryKeyColumn.value
      ensures !(checked && Truthy(primaryKeyColumn)) ==> defaultRows == old(defaultRows)
    {
      ghost var m, d, f := mappingRows, defaultRows, fkRows;
      pkAuto := checked;
      assert mappingRows == m && defaultRows == d && fkRows == f;
      if checked && Truthy(primaryKeyColumn) {
        var pk := primaryKeyColumn.value;
        var doomed := RowsFor(defaultRows, pk);
        RemoveKeepsDistinct(mappingRows, defaultRows, fkRows, {}, doomed, {});
        KeptFromNothing(mappingRows, 0);
        KeptFromNothing(fkRows, 0);
        KeptLeavesNoKeyRow(defaultRows, pk);
        defaultRows := RemoveRows(defaultRows, doomed);
      }
    }

    /**
     * `_on_table_selected` with the columns the database reports for the
     * chosen table: the tables are emptied, the primary key is taken from
     * the schema, and the checkbox is switched off. Without columns nothing
     * changes.
     */
    method SelectTable(reported: Option<seq<ColumnInfo>>)
      requires Valid()
      modifies this
      ensures Valid()
      ensures reported.None? ==> unchanged(this)
      ensures reported.Some? ==>
        && tableColumns == reported.value && mappingRows == [] && defaultRows == [] && fkRows == []
        && primaryKeyColumn == PrimaryKeyOf(reported.value) && !pkAuto
      ensures SamePreValidation()
    {
      if reported.Some? {
        ResetForTable(reported.value);
      }
    }

    /** The state `_on_table_selected` leaves for the columns of the new table. */
    method ResetForTable(columns: seq<ColumnInfo>)
      modifies this
      ensures Valid()
      ensures tableColumns == columns && mappingRows == [] && defaultRows == [] && fkRows == []
      ensures primaryKeyColumn == PrimaryKeyOf(columns) && !pkAuto
      ensures SamePreValidation()
    {
      tableColumns := columns;
      mappingRows := [];
      defaultRows := [];
      fkRows := [];
      NoTargetsDistinct();
      primaryKeyColumn := FindPrimaryKey(columns);
      pkAuto := false;
    }

    /** `_clear_pre_validation_state`. */
    method ClearPreValidation()
      requires Valid()
      modifies this
      ensures Valid()
      ensures !preValidationRemoveDuplicates && preValidationColumn == None && preValidationLastResult == None
      ensures tableColumns == old(tableColumns) && mappingRows == old(mappingRows) && defaultRows == old(defaultRows)
      ensures fkRows == old(fkRows) && primaryKeyColumn == old(primaryKeyColumn) && pkAuto == old(pkAuto)
    {
      ghost var m, d, f := mappingRows, defaultRows, fkRows;
      preValidationRemoveDuplicates := false;
      preValidationColumn := None;
      preValidationLastResult := None;
      assert mappingRows == m && defaultRows == d && fkRows == f;
    }

    /** What an accepted pre-validation dialog leaves: a column and its counts only when removal is on. */
    method AcceptPreValidation(removeDuplicates: bool, column: Option<string>, lastResult: Option<(int, int)>)
      requires Valid()
      modifies this
      ensures Valid()
      ensures preValidationRemoveDuplicates == removeDuplicates
      ensures preValidationColumn == (if removeDuplicates then column else None)
      ensures preValidationLastResult == (if removeDuplicates then lastResult else None)
      ensures tableColumns == old(tableColumns) && mappingRows == old(mappingRows) && defaultRows == old(defaultRows)
      ensures fkRows == old(fkRows) && primaryKeyColumn == old(primaryKeyColumn) && pkAuto == old(pkAuto)
    {
      ghost var m, d, f := mappingRows, defaultRows, fkRows;
      preValidationRemoveDuplicates := removeDuplicates;
      preValidationColumn := if removeDuplicates then column else None;
      preValidationLastResult := if removeDuplicates then lastResult else None;
      assert mappingRows == m && defaultRows == d && fkRows == f;
    }

    /**
     * The build's `self._pre_validation_last_result = (total_rows, len(df.index))`:
     * a build that de-duplicated stores its (read, kept) counts, where the
     * hint and the next pre-validation dialog read them; any other build
     * leaves the stored counts alone.
     */
    method KeepBuildCounts(dedupStats: Option<(nat, nat)>)
      requires Valid()
      modifies this
      ensures Valid()
      ensures preValidationLastResult
           == (if dedupStats.Some? then Some((dedupStats.value.0 as int, dedupStats.value.1 as int)) else old(preValidationLastResult))
      ensures preValidationRemoveDuplicates == old(preValidationRemoveDuplicates) && preValidationColumn == old(preValidationColumn)
      ensures tableColumns == old(tableColumns) && mappingRows == old(mappingRows) && defaultRows == old(defaultRows)
      ensures fkRows == old(fkRows) && primaryKeyColumn == old(primaryKeyColumn) && pkAuto == old(pkAuto)
    {
      ghost var m, d, f := mappingRows, defaultRows, fkRows;
      if dedupStats.Some? {
        preValidationLastResult := Some((dedupStats.value.0 as int, dedupStats.value.1 as int));
      }
      assert mappingRows == m && defaultRows == d && fkRows == f;
    }

    /** `_collect_mapping`: none of the editor's state changes. */
    method Collect(inputs: WindowInputs) returns (r: Result<MappingSelection, CollectError>)
      requires Valid()
      ensures r == Collected(tableColumns, mappingRows, defaultRows, fkRows, primaryKeyColumn, pkAuto,
                             preValidationRemoveDuplicates, preValidationColumn, inputs)
      ensures r.Success? ==> RecordBuilder.UniqueTargets(r.value.columnMapping) && RecordBuilder.UniqueFkTargets(r.value.fkLookups)
      ensures r.Success? ==>
        Distinct(PairTargets(r.value.columnMapping) + OrderedDict.Keys(r.value.defaultValues) + FkTargets(r.value.fkLookups))
    {
      if inputs.sheet.None? || inputs.table.None? {
        return Failure(NoSheetOrTable);
      }
      var defaults := CollectDefaultValues(defaultRows);
      r := CollectChecks(tableColumns, mappingRows, defaults, fkRows, primaryKeyColumn, pkAuto,
                         preValidationRemoveDuplicates, preValidationColumn, inputs);
      if r.Success? {
        CollectedTargetsDistinct(tableColumns, mappingRows, defaultRows, fkRows, primaryKeyColumn, pkAuto,
                                 preValidationRemoveDuplicates, preValidationColumn, inputs);
      }
    }
  }

  /** The loop of `_on_table_selected` that picks the primary key. */
  method FindPrimaryKey(columns: seq<ColumnInfo>) returns (pk: Option<string>)
    ensures pk == PrimaryKeyOf(columns)
  {
    pk := None;
    var i := 0;
    while i < |columns|
      invariant 0 <= i <= |columns|
      invariant pk == PrimaryKeyOf(columns[..i])
    {
      assert columns[..i + 1][..i] == columns[..i];
      if columns[i].primaryKey && !Truthy(pk) {
        pk := Some(columns[i].name);
      }
      i := i + 1;
    }
    assert columns[..i] == columns;
  }

  /** The checks of `_collect_mapping` once the defaults are read. */
  method CollectChecks(columns: seq<ColumnInfo>, m: seq<(string, string)>, defaults0: OrderedDict.Entries<Value>,
                       f: seq<ForeignKeyLookup>, pk: Option<string>, pkAuto: bool, removeDuplicates: bool,
                       checkColumn: Option<string>, inputs: WindowInputs) returns (r: Result<MappingSelection, CollectError>)
    requires inputs.sheet.Some? && inputs.table.Some? && OrderedDict.UniqueKeys(defaults0)
    ensures r == CollectJoinChecked(columns, m, defaults0, f, pk, pkAuto, removeDuplicates, checkColumn, inputs)
  {
    var defaults := defaults0;
    var join := JoinChoice(inputs);
    if Truthy(join) && join.value !in PairTargets(m) + OrderedDict.Keys(defaults) + FkTargets(f) {
      return Failure(JoinNotCovered);
    }
    var autogenerate := pkAuto && Truthy(pk) && pk.value !in PairTargets(m);
    if autogenerate {
      defaults := OrderedDict.Pop(defaults, pk.value);
    }
    r := CollectCoverage(columns, m, defaults, f, pk, autogenerate, removeDuplicates, checkColumn, inputs);
  }

  /** The last checks of `_collect_mapping` and the selection it builds. */
  method CollectCoverage(columns: seq<ColumnInfo>, m: seq<(string, string)>, defaults: OrderedDict.Entries<Value>,
                         f: seq<ForeignKeyLookup>, pk: Option<string>, autogenerate: bool, removeDuplicates: bool,
                         checkColumn: Option<string>, inputs: WindowInputs) returns (r: Result<MappingSelection, CollectError>)
    requires inputs.sheet.Some? && inputs.table.Some?
    ensures r == CollectCovered(columns, m, defaults, f, pk, autogenerate, removeDuplicates, checkColumn, inputs)
  {
    if |m| == 0 && |defaults| == 0 && |f| == 0 {
      return Failure(NothingMapped);
    }
    var missing := MissingRequiredColumns(columns, PairTargets(m) + OrderedDict.Keys(defaults) + FkTargets(f), autogenerate);
    if |missing| > 0 {
      return Failure(RequiredMissing(missing));
    }
    var dedup := removeDuplicates && Truthy(checkColumn);
    r := Success(MappingSelection(
      inputs.sheet.value, inputs.table.value, CurrentHeaderExcelRow(inputs.headerSpin),
      inputs.startSpin, if inputs.endSpin == 0 then None else Some(inputs.endSpin),
      m, defaults, f,
      if inputs.updateSelected then Update else Insert, JoinChoice(inputs),
      pk, autogenerate, dedup, if dedup then checkColumn else None));
  }

  /** The indices of the rows for `column`. */
  function RowsFor(rows: seq<DefaultRow>, column: string): set<int> {
    set i | 0 <= i < |rows| && rows[i].column == column
  }

  /** Dropping the rows for a column leaves none for it. */
  lemma KeptLeavesNoKeyRow(rows: seq<DefaultRow>, column: string)
    ensures forall r :: r in Kept(rows, RowsFor(rows, column)) ==> r.column != column
  {
    forall r | r in Kept(rows, RowsFor(rows, column))
      ensures r.column != column
    {
      KeptFromSource(rows, RowsFor(rows, column), 0, r);
    }
  }
}
