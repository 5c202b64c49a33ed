/**
 * `_build_records_for_selection`: turns the rows read from the selected
 * spreadsheet region into one database record per row. The steps run in a
 * fixed order and each can stop the build with an error:
 *   1. optional de-duplication on a check column (first row per value wins);
 *   2. mapping pairs that target an auto-generated primary key are dropped;
 *   3. every spreadsheet column the pairs and lookups read must exist;
 *   4. one record per row from the mapping pairs;
 *   5. default values, which never overwrite a mapped value;
 *   6. one label cache per lookup table, refusing ambiguous labels;
 *   7. per-row foreign-key resolution, all failures reported together;
 *   8. the auto-generated primary key is removed from every record.
 *
 * The spreadsheet reader and its cell normaliser are inputs: `Frame` is what
 * `_read_dataframe` returns and `normalize` is `_normalize_cell`. The database
 * is the `fetch` function: the (id, label) pairs of a (table, id column,
 * label column) triple. Labels and cells are compared by the key `keyOf`
 * gives them; the window's normalisation is `Values.NormalizeLookupKey`
 * (`ImportFlow` passes it), and everything proved here holds for any
 * normalisation.
 */
module RecordBuilder {
  import opened Wrappers
  import opened Text
  import opened Values
  import opened Seqs
  import opened Schema
  import opened CoreMapping
  import OrderedDict

  /** A spreadsheet row (column label to cell) and a database record (column name to value). */
  type Row = map<string, Value>
  type Record = map<string, Value>
  type Triple = (string, string, string)

  /** The data frame read for a selection: its column labels and its rows, in sheet order. */
  datatype Frame = Frame(columns: seq<string>, rows: seq<Row>)

  /** Every row has a cell for every column, as in a frame read from a sheet. */
  predicate WellFormed(f: Frame) {
    RowsHaveColumns(f.rows, f.columns)
  }

  predicate RowsHaveColumns(rows: seq<Row>, columns: seq<string>) {
    forall j, c :: 0 <= j < |rows| && c in columns ==> c in rows[j]
  }

  /** `row.get(column)`: None when the row has no such column. */
  function Cell(row: Row, column: string): Value {
    if column in row then row[column] else Null
  }

  datatype Diagnostic =
    | EmptySource(row: int, excelColumn: string, targetColumn: string)
    | NotFound(row: int, raw: Value, table: string, labelColumn: string, targetColumn: string)

  datatype BuildError =
    | DedupColumnMissing(column: string)
    | SheetColumnsMissing(columns: set<string>)
    | DuplicateLabels(table: string, labelColumn: string, labels: seq<string>)
    | UnresolvedLookups(diagnostics: seq<Diagnostic>)

  // ===========================================================================
  // Step 1: de-duplication on the check column
  // ===========================================================================

  /**
   * The value rows are compared by when dropping duplicates. `drop_duplicates`
   * treats missing values as equal to each other and `True`/`False` as 1/0.
   */
  function RowKey(row: Row, column: string): Value {
    Canonical(Cell(row, column))
  }

  /** The check-column values of `rows`, in order. */
  function KeysOf(rows: seq<Row>, column: string): (ks: seq<Value>)
    ensures |ks| == |rows|
    ensures forall i :: 0 <= i < |rows| ==> ks[i] == RowKey(rows[i], column)
  {
    if rows == [] then [] else KeysOf(rows[..|rows| - 1], column) + [RowKey(rows[|rows| - 1], column)]
  }

  /** Row `i` is the first row carrying its check-column value. */
  predicate IsFirst(rows: seq<Row>, i: int, column: string)
    requires 0 <= i < |rows|
  {
    RowKey(rows[i], column) !in KeysOf(rows[..i], column)
  }

  /** `drop_duplicates(subset=[column], keep="first")`. */
  function KeepFirst(rows: seq<Row>, column: string): (kept: seq<Row>)
    ensures |kept| <= |rows|
  {
    if rows == [] then []
    else
      var front := rows[..|rows| - 1];
      var last := rows[|rows| - 1];
      var k := KeepFirst(front, column);
      if RowKey(last, column) in KeysOf(front, column) then k else k + [last]
  }

  /** De-duplication loses no check-column value and invents none. */
  lemma {:induction false} KeepFirstSameKeys(rows: seq<Row>, column: string)
    ensures forall v :: v in KeysOf(KeepFirst(rows, column), column) <==> v in KeysOf(rows, column)
  {
    if rows != [] {
      var front := rows[..|rows| - 1];
      var last := rows[|rows| - 1];
      var k := KeepFirst(front, column);
      KeepFirstSameKeys(front, column);
      assert KeysOf(rows, column) == KeysOf(front, column) + [RowKey(last, column)];
      if RowKey(last, column) !in KeysOf(front, column) {
        assert KeysOf(k + [last], column) == KeysOf(k, column) + [RowKey(last, column)];
      }
    }
  }

  /** No two rows carry the same check-column value. */
  predicate DistinctKeys(rows: seq<Row>, column: string) {
    forall i, j :: 0 <= i < j < |rows| ==> RowKey(rows[i], column) != RowKey(rows[j], column)
  }

  /** The kept rows carry pairwise distinct check-column values. */
  lemma {:induction false} KeepFirstDistinct(rows: seq<Row>, column: string)
    ensures DistinctKeys(KeepFirst(rows, column), column)
  {
    if rows != [] {
      var front := rows[..|rows| - 1];
      var last := rows[|rows| - 1];
      KeepFirstDistinct(front, column);
      KeepFirstSameKeys(front, column);
      var k := KeepFirst(front, column);
      var kept := KeepFirst(rows, column);
      if RowKey(last, column) !in KeysOf(front, column) {
        assert kept == k + [last];
        forall i, j | 0 <= i < j < |kept|
          ensures RowKey(kept[i], column) != RowKey(kept[j], column)
        {
          assert RowKey(kept[i], column) == RowKey(k[i], column);
          if j < |k| {
            assert RowKey(kept[j], column) == RowKey(k[j], column);
          } else {
            assert KeysOf(k, column)[i] == RowKey(k[i], column);
            assert KeysOf(k, column)[i] in KeysOf(k, column);
          }
        }
      } else {
        assert kept == k;
      }
    }
  }

  /** Every kept row is the first row of its check-column value. */
  lemma KeptRowsAreFirsts(rows: seq<Row>, column: string)
    ensures forall k :: 0 <= k < |KeepFirst(rows, column)| ==>
      exists i :: 0 <= i < |rows| && rows[i] == KeepFirst(rows, column)[k] && IsFirst(rows, i, column)
  {
    forall n | 0 <= n < |KeepFirst(rows, column)|
      ensures exists i :: 0 <= i < |rows| && rows[i] == KeepFirst(rows, column)[n] && IsFirst(rows, i, column)
    {
      KeptRowIsFirst(rows, column, n);
    }
    assert forall n :: 0 <= n < |KeepFirst(rows, column)| ==>
      exists i :: 0 <= i < |rows| && rows[i] == KeepFirst(rows, column)[n] && IsFirst(rows, i, column);
  }

  lemma {:induction false} KeptRowIsFirst(rows: seq<Row>, column: string, n: int)
    requires 0 <= n < |KeepFirst(rows, column)|
    ensures exists i :: 0 <= i < |rows| && rows[i] == KeepFirst(rows, column)[n] && IsFirst(rows, i, column)
  {
    var front := rows[..|rows| - 1];
    var last := rows[|rows| - 1];
    var k := KeepFirst(front, column);
    if RowKey(last, column) in KeysOf(front, column) || n < |k| {
      assert KeepFirst(rows, column)[n] == k[n];
      KeptRowIsFirst(front, column, n);
      var i :| 0 <= i < |front| && front[i] == k[n] && IsFirst(front, i, column);
      FirstOfFront(rows, column, i);
    } else {
      assert KeepFirst(rows, column)[n] == last;
      assert rows[..|rows| - 1] == front;
      assert IsFirst(rows, |rows| - 1, column);
    }
  }

  /** A row that is first among all but the last row is first among all rows. */
  lemma FirstOfFront(rows: seq<Row>, column: string, i: int)
    requires 0 <= i < |rows| - 1 && IsFirst(rows[..|rows| - 1], i, column)
    ensures rows[i] == rows[..|rows| - 1][i] && IsFirst(rows, i, column)
  {
    assert rows[..i] == rows[..|rows| - 1][..i];
  }

  /** Every row that is the first of its check-column value is kept. */
  lemma FirstRowsAreKept(rows: seq<Row>, column: string)
    ensures forall i :: 0 <= i < |rows| && IsFirst(rows, i, column) ==> rows[i] in KeepFirst(rows, column)
  {
    forall i | 0 <= i < |rows| && IsFirst(rows, i, column) {
      FirstRowIsKept(rows, column, i);
    }
  }

  lemma {:induction false} FirstRowIsKept(rows: seq<Row>, column: string, i: int)
    requires 0 <= i < |rows| && IsFirst(rows, i, column)
    ensures rows[i] in KeepFirst(rows, column)
  {
    var front := rows[..|rows| - 1];
    if i < |front| {
      assert rows[..i] == front[..i] && rows[i] == front[i];
      FirstRowIsKept(front, column, i);
    } else {
      assert rows[..i] == front;
    }
  }

  /** The kept rows stay in sheet order. */
  lemma {:induction false} KeepFirstInOrder(rows: seq<Row>, column: string)
    ensures SubsequenceOf(KeepFirst(rows, column), rows)
  {
    if rows != [] {
      var front := rows[..|rows| - 1];
      KeepFirstInOrder(front, column);
      SubsequenceSnoc(KeepFirst(front, column), front, rows[|rows| - 1]);
      assert front + [rows[|rows| - 1]] == rows;
    }
  }

  /** De-duplicating twice removes nothing more. */
  lemma KeepFirstIdempotent(rows: seq<Row>, column: string)
    ensures KeepFirst(KeepFirst(rows, column), column) == KeepFirst(rows, column)
  {
    var kept := KeepFirst(rows, column);
    KeepFirstDistinct(rows, column);
    KeepFirstOfDistinct(kept, column);
  }

  lemma {:induction false} KeepFirstOfDistinct(rows: seq<Row>, column: string)
    requires DistinctKeys(rows, column)
    ensures KeepFirst(rows, column) == rows
  {
    if rows != [] {
      var front := rows[..|rows| - 1];
      DistinctFront(rows, column);
      KeepFirstOfDistinct(front, column);
      assert rows == front + [rows[|rows| - 1]];
    }
  }

  /** Without the last row the keys stay distinct, and none of them is the last row's. */
  lemma DistinctFront(rows: seq<Row>, column: string)
    requires rows != [] && DistinctKeys(rows, column)
    ensures DistinctKeys(rows[..|rows| - 1], column)
    ensures RowKey(rows[|rows| - 1], column) !in KeysOf(rows[..|rows| - 1], column)
  {
    var front := rows[..|rows| - 1];
    forall i, j | 0 <= i < j < |front|
      ensures RowKey(front[i], column) != RowKey(front[j], column)
    {
      assert RowKey(front[i], column) == RowKey(rows[i], column) && RowKey(front[j], column) == RowKey(rows[j], column);
    }
    forall i | 0 <= i < |front|
      ensures KeysOf(front, column)[i] != RowKey(rows[|rows| - 1], column)
    {
      assert KeysOf(front, column)[i] == RowKey(rows[i], column);
    }
  }

  /** `df[column] = df[column].map(normalize)`. */
  function NormalizeColumn(rows: seq<Row>, column: string, normalize: Value -> Value): seq<Row> {
    seq(|rows|, i requires 0 <= i < |rows| => rows[i][column := normalize(Cell(rows[i], column))])
  }

  /** De-duplication is on only when it is enabled and names a (non-empty) column. */
  predicate DedupActive(sel: MappingSelection) {
    sel.removeDuplicateRows && Truthy(sel.duplicateCheckColumn)
  }

  /** The rows that go on to the record builder, and the (total, kept) counts when de-duplication ran. */
  datatype Deduped = Deduped(rows: seq<Row>, stats: Option<(nat, nat)>)

  function DedupStep(sel: MappingSelection, frame: Frame, normalize: Value -> Value): (r: Result<Deduped, BuildError>)
    ensures !DedupActive(sel) ==> r == Success(Deduped(frame.rows, None))
    ensures DedupActive(sel) ==>
      (r.Failure? <==> sel.duplicateCheckColumn.value !in frame.columns)
    ensures r.Failure? ==> r.error == DedupColumnMissing(sel.duplicateCheckColumn.value)
    ensures r.Success? && DedupActive(sel) ==>
      var kept := KeepFirst(NormalizeColumn(frame.rows, sel.duplicateCheckColumn.value, normalize), sel.duplicateCheckColumn.value);
      r.value == Deduped(kept, Some((|frame.rows|, |kept|)))
  {
    if !DedupActive(sel) then Success(Deduped(frame.rows, None))
    else
      var column := sel.duplicateCheckColumn.value;
      if column !in frame.columns then Failure(DedupColumnMissing(column))
      else
        var kept := KeepFirst(NormalizeColumn(frame.rows, column, normalize), column);
        Success(Deduped(kept, Some((|frame.rows|, |kept|))))
  }

  /** One more row: kept when its value is new, and its value joins those seen. */
  lemma KeepFirstStep(rows: seq<Row>, column: string, i: int)
    requires 0 <= i < |rows|
    ensures KeysOf(rows[..i + 1], column) == KeysOf(rows[..i], column) + [RowKey(rows[i], column)]
    ensures KeepFirst(rows[..i + 1], column)
         == if RowKey(rows[i], column) in KeysOf(rows[..i], column) then KeepFirst(rows[..i], column)
            else KeepFirst(rows[..i], column) + [rows[i]]
  {
    assert rows[..i + 1][..i] == rows[..i];
  }

  method DropDuplicates(rows: seq<Row>, column: string) returns (kept: seq<Row>)
    ensures kept == KeepFirst(rows, column)
  {
    kept := [];
    var seen: set<Value> := {};
    var i := 0;
    while i < |rows|
      invariant 0 <= i <= |rows|
      invariant kept == KeepFirst(rows[..i], column)
      invariant forall v :: v in seen <==> v in KeysOf(rows[..i], column)
    {
      KeepFirstStep(rows, column, i);
      var key := RowKey(rows[i], column);
      if key !in seen {
        kept := kept + [rows[i]];
      }
      seen := seen + {key};
      i := i + 1;
    }
    assert rows[..i] == rows;
  }

  // ===========================================================================
  // Steps 2 and 3: the mapping pairs in use and the spreadsheet columns they need
  // ===========================================================================

  /** The primary key is generated by the database, so nothing may be written to it. */
  predicate StripsPrimaryKey(sel: MappingSelection) {
    sel.autogeneratePk && Truthy(sel.primaryKey)
  }

  /** The pairs, in order, that do not target `column`. */
  function PairsNotTargeting(pairs: seq<(string, string)>, column: string): (r: seq<(string, string)>)
    ensures forall p :: p in r <==> p in pairs && p.1 != column
    ensures SubsequenceOf(r, pairs)
  {
    if pairs == [] then []
    else
      var front := pairs[..|pairs| - 1];
      var last := pairs[|pairs| - 1];
      var rest := PairsNotTargeting(front, column);
      assert pairs == front + [last];
      SubsequenceSnoc(rest, front, last);
      if last.1 != column then rest + [last] else rest
  }

  /** The mapping pairs in use: those that target an auto-generated key are dropped. */
  function EffectivePairs(sel: MappingSelection): seq<(string, string)> {
    if StripsPrimaryKey(sel) then PairsNotTargeting(sel.columnMapping, sel.primaryKey.value)
    else sel.columnMapping
  }

  /**
   * The spreadsheet columns the build reads (sources of the pairs in use and
   * lookup columns) that the frame does not have.
   */
  function MissingSheetColumns(pairs: seq<(string, string)>, lookups: seq<ForeignKeyLookup>, columns: seq<string>): (missing: set<string>)
    ensures forall c :: c in missing <==>
      c !in columns && ((exists p :: p in pairs && p.0 == c) || (exists fk :: fk in lookups && fk.excelColumn == c))
  {
    var needed := (set p | p in pairs :: p.0) + (set fk | fk in lookups :: fk.excelColumn);
    set c | c in needed && c !in columns
  }

  // ===========================================================================
  // Step 4: one record per row
  // ===========================================================================

  predicate UniqueTargets(pairs: seq<(string, string)>) {
    forall i, j :: 0 <= i < j < |pairs| ==> pairs[i].1 != pairs[j].1
  }

  /**
   * The record for one row: for each pair whose spreadsheet column is in the
   * row, its table column receives the normalised cell.
   */
  function RecordOf(row: Row, pairs: seq<(string, string)>, normalize: Value -> Value): (r: Record)
    ensures forall t :: t in r <==> exists p :: p in pairs && p.1 == t && p.0 in row
  {
    if pairs == [] then map[]
    else
      var front := pairs[..|pairs| - 1];
      var last := pairs[|pairs| - 1];
      var r := RecordOf(row, front, normalize);
      assert pairs == front + [last];
      if last.0 in row then r[last.1 := normalize(row[last.0])] else r
  }

  /** With distinct table columns, each mapped column holds the normalised cell of its own pair. */
  lemma RecordOfValues(row: Row, pairs: seq<(string, string)>, normalize: Value -> Value)
    requires UniqueTargets(pairs)
    ensures forall i :: 0 <= i < |pairs| && pairs[i].0 in row ==>
      RecordOf(row, pairs, normalize)[pairs[i].1] == normalize(row[pairs[i].0])
  {
    forall i | 0 <= i < |pairs| && pairs[i].0 in row {
      RecordOfValueAt(row, pairs, normalize, i);
    }
  }

  lemma {:induction false} RecordOfValueAt(row: Row, pairs: seq<(string, string)>, normalize: Value -> Value, i: int)
    requires UniqueTargets(pairs) && 0 <= i < |pairs| && pairs[i].0 in row
    ensures pairs[i].1 in RecordOf(row, pairs, normalize)
    ensures RecordOf(row, pairs, normalize)[pairs[i].1] == normalize(row[pairs[i].0])
  {
    var front := pairs[..|pairs| - 1];
    if i < |front| {
      assert pairs[i] == front[i] && pairs[i].1 != pairs[|pairs| - 1].1;
      assert UniqueTargets(front) by {
        forall a, b | 0 <= a < b < |front|
          ensures front[a].1 != front[b].1
        {
          assert front[a] == pairs[a] && front[b] == pairs[b];
        }
      }
      RecordOfValueAt(row, front, normalize, i);
    }
  }

  function Records(rows: seq<Row>, pairs: seq<(string, string)>, normalize: Value -> Value): (rs: seq<Record>)
    ensures |rs| == |rows|
    ensures forall i :: 0 <= i < |rows| ==> rs[i] == RecordOf(rows[i], pairs, normalize)
  {
    seq(|rows|, i requires 0 <= i < |rows| => RecordOf(rows[i], pairs, normalize))
  }

  /** The record loop: each row's record is built pair by pair. */
  method BuildRecords(rows: seq<Row>, pairs: seq<(string, string)>, normalize: Value -> Value) returns (records: seq<Record>)
    ensures records == Records(rows, pairs, normalize)
  {
    records := [];
    var i := 0;
    while i < |rows|
      invariant 0 <= i <= |rows|
      invariant records == Records(rows[..i], pairs, normalize)
    {
      var row := rows[i];
      var record: Record := map[];
      var j := 0;
      while j < |pairs|
        invariant 0 <= j <= |pairs|
        invariant record == RecordOf(row, pairs[..j], normalize)
      {
        assert pairs[..j + 1][..j] == pairs[..j];
        var (sheetColumn, tableColumn) := pairs[j];
        if sheetColumn in row {
          record := record[tableColumn := normalize(row[sheetColumn])];
        }
        j := j + 1;
      }
      assert pairs[..j] == pairs;
      records := records + [record];
      i := i + 1;
    }
    assert rows[..i] == rows;
  }

  // ===========================================================================
  // Step 5: default values with setdefault
  // ===========================================================================

  /**
   * `record.setdefault(column, value)` for every default in order: nothing
   * already in the record changes, every default column ends up present,
   * and nothing else is added.
   */
  function WithDefaults(record: Record, defaults: OrderedDict.Entries<Value>): (r: Record)
    ensures forall k :: k in record ==> k in r && r[k] == record[k]
    ensures forall i :: 0 <= i < |defaults| ==> defaults[i].0 in r
    ensures forall k :: k in r ==> k in record || OrderedDict.HasKey(defaults, k)
  {
    if defaults == [] then record
    else
      var front := defaults[..|defaults| - 1];
      var last := defaults[|defaults| - 1];
      var r := WithDefaults(record, front);
      assert forall i :: 0 <= i < |front| ==> front[i] == defaults[i];
      if last.0 in r then r else r[last.0 := last.1]
  }

  /** A column the mapping did not fill holds its default value. */
  lemma {:induction false} WithDefaultsValue(record: Record, defaults: OrderedDict.Entries<Value>, k: string)
    requires OrderedDict.UniqueKeys(defaults) && k !in record && OrderedDict.HasKey(defaults, k)
    ensures WithDefaults(record, defaults)[k] == OrderedDict.Get(defaults, k).value
  {
    var front := defaults[..|defaults| - 1];
    var last := defaults[|defaults| - 1];
    assert forall i :: 0 <= i < |front| ==> front[i] == defaults[i];
    if last.0 != k {
      WithDefaultsValue(record, front, k);
    } else {
      assert !OrderedDict.HasKey(front, k);
    }
  }

  /** Every record with the defaults applied (an empty default list changes nothing). */
  function AllWithDefaults(records: seq<Record>, defaults: OrderedDict.Entries<Value>): (rs: seq<Record>)
    ensures |rs| == |records|
    ensures forall i :: 0 <= i < |records| ==> rs[i] == WithDefaults(records[i], defaults)
  {
    seq(|records|, i requires 0 <= i < |records| => WithDefaults(records[i], defaults))
  }

  /** The defaults loop over every record. */
  method ApplyDefaults(records: seq<Record>, defaults: OrderedDict.Entries<Value>) returns (filled: seq<Record>)
    ensures filled == AllWithDefaults(records, defaults)
  {
    filled := records;
    var i := 0;
    while i < |records|
      invariant 0 <= i <= |records| && |filled| == |records|
      invariant forall n :: 0 <= n < i ==> filled[n] == WithDefaults(records[n], defaults)
      invariant forall n :: i <= n < |records| ==> filled[n] == records[n]
    {
      var record := filled[i];
      var j := 0;
      while j < |defaults|
        invariant 0 <= j <= |defaults|
        invariant record == WithDefaults(records[i], defaults[..j])
      {
        assert defaults[..j + 1][..j] == defaults[..j];
        var (column, value) := defaults[j];
        if column !in record {
          record := record[column := value];
        }
        j := j + 1;
      }
      assert defaults[..j] == defaults;
      filled := filled[i := record];
      i := i + 1;
    }
    ghost var spec := AllWithDefaults(records, defaults);
    assert forall n :: 0 <= n < |records| ==> filled[n] == spec[n];
  }

  // ===========================================================================
  // Step 6: the label caches
  // ===========================================================================

  /** The (id, label) pairs of a lookup table, as the database returns them. */
  type LookupRows = seq<(Value, Value)>

  /** One lookup row as the cache loop sees it: the normalised label, the id and `str(label)`. */
  datatype LabelEntry = LabelEntry(key: string, id: Value, text: string)

  function LabelEntries(pairs: LookupRows, keyOf: Value -> string): (es: seq<LabelEntry>)
    ensures |es| == |pairs|
    ensures forall i :: 0 <= i < |pairs| ==>
      es[i] == LabelEntry(keyOf(pairs[i].1), pairs[i].0, ToText(pairs[i].1))
  {
    if pairs == [] then []
    else
      var p := pairs[|pairs| - 1];
      LabelEntries(pairs[..|pairs| - 1], keyOf) + [LabelEntry(keyOf(p.1), p.0, ToText(p.1))]
  }

  /** The cache of one lookup table: normalised label to id, and the raw labels that conflicted. */
  datatype LabelCache = LabelCache(ids: map<string, Value>, duplicates: seq<string>)

  /**
   * The cache loop: blank keys are skipped; a key that is new, or whose
   * stored id is None, takes the id; a different id under a stored key
   * records the raw label as a conflict. Every non-blank key is cached.
   */
  function CacheOf(es: seq<LabelEntry>): (c: LabelCache)
    ensures forall k :: k in c.ids <==> k != "" && exists i :: 0 <= i < |es| && es[i].key == k
  {
    if es == [] then LabelCache(map[], [])
    else
      var front := es[..|es| - 1];
      assert forall i :: 0 <= i < |front| ==> front[i] == es[i];
      CacheStep(CacheOf(front), es[|es| - 1])
  }

  /** One iteration of the cache loop. */
  function CacheStep(c: LabelCache, e: LabelEntry): (r: LabelCache)
    ensures forall k :: k in r.ids <==> k in c.ids || (k == e.key && k != "")
  {
    if e.key == "" then c
    else if e.key !in c.ids || c.ids[e.key].Null? then LabelCache(c.ids[e.key := e.id], c.duplicates)
    else if !PyEq(c.ids[e.key], e.id) then LabelCache(c.ids, c.duplicates + [e.text])
    else c
  }

  lemma CacheOfSnoc(es: seq<LabelEntry>, e: LabelEntry)
    ensures CacheOf(es + [e]) == CacheStep(CacheOf(es), e)
  {
    assert (es + [e])[..|es|] == es;
  }

  /** The reference reading: the id of the first entry with this key whose id is not None. */
  function FirstId(es: seq<LabelEntry>, key: string): (r: Option<Value>)
    ensures r.Some? ==>
      (!r.value.Null? && exists i :: 0 <= i < |es| && es[i].key == key && es[i].id == r.value)
  {
    if es == [] then None
    else
      var front := es[..|es| - 1];
      var e := es[|es| - 1];
      var f := FirstId(front, key);
      assert forall i :: 0 <= i < |front| ==> front[i] == es[i];
      if f.Some? then f
      else if e.key == key && !e.id.Null? then Some(e.id)
      else None
  }

  /** Entry `j` brings an id different from the one already established for its key. */
  predicate Conflicting(es: seq<LabelEntry>, j: int)
    requires 0 <= j < |es|
  {
    var earlier := FirstId(es[..j], es[j].key);
    es[j].key != "" && earlier.Some? && !PyEq(earlier.value, es[j].id)
  }

  /** The raw labels of the conflicting entries, in order. */
  function ConflictLabels(es: seq<LabelEntry>): seq<string> {
    if es == [] then []
    else
      ConflictLabels(es[..|es| - 1])
      + (if Conflicting(es, |es| - 1) then [es[|es| - 1].text] else [])
  }

  /**
   * The cache holds, for every key, the first id that is not None (None when
   * there is none), and its conflicts are exactly the conflicting entries.
   */
  lemma {:induction false} CacheOfMatchesReference(es: seq<LabelEntry>)
    ensures CacheOf(es).duplicates == ConflictLabels(es)
    ensures forall k :: k in CacheOf(es).ids ==>
      CacheOf(es).ids[k] == (if FirstId(es, k).Some? then FirstId(es, k).value else Null)
  {
    if es != [] {
      var front := es[..|es| - 1];
      var e := es[|es| - 1];
      CacheOfMatchesReference(front);
      var c := CacheOf(front);
      assert es[..|es| - 1] == front;
      forall k | k != e.key
        ensures FirstId(es, k) == FirstId(front, k)
      {
      }
      if e.key != "" && e.key !in c.ids {
        assert FirstId(front, e.key).None?;
      }
    }
  }

  /** A conflict always has an earlier entry with the same key and a different, non-None id. */
  lemma ConflictWitness(es: seq<LabelEntry>, j: int)
    requires 0 <= j < |es| && Conflicting(es, j)
    ensures exists i :: 0 <= i < j && es[i].key == es[j].key && !es[i].id.Null? && !PyEq(es[i].id, es[j].id)
  {
    var earlier := FirstId(es[..j], es[j].key);
    var i :| 0 <= i < j && es[..j][i].key == es[j].key && es[..j][i].id == earlier.value;
    assert es[..j][i] == es[i];
  }

  /** The table is refused exactly when some entry conflicts. */
  lemma {:induction false} NoConflictsIff(es: seq<LabelEntry>)
    ensures ConflictLabels(es) == [] <==> forall j :: 0 <= j < |es| ==> !Conflicting(es, j)
  {
    if es != [] {
      var front := es[..|es| - 1];
      NoConflictsIff(front);
      forall j | 0 <= j < |front|
        ensures Conflicting(front, j) == Conflicting(es, j)
      {
        assert front[..j] == es[..j] && front[j] == es[j];
      }
    }
  }

  /** The cache of a lookup table's rows. */
  function TableCache(pairs: LookupRows, keyOf: Value -> string): LabelCache {
    CacheOf(LabelEntries(pairs, keyOf))
  }

  /** The cache loop over the rows of one lookup table. */
  method LoadLabelCache(pairs: LookupRows, keyOf: Value -> string) returns (cache: LabelCache)
    ensures cache == TableCache(pairs, keyOf)
  {
    var ids: map<string, Value> := map[];
    var duplicates: seq<string> := [];
    var i := 0;
    while i < |pairs|
      invariant 0 <= i <= |pairs|
      invariant LabelCache(ids, duplicates) == CacheOf(LabelEntries(pairs[..i], keyOf))
    {
      assert pairs[..i + 1][..i] == pairs[..i];
      var ident := pairs[i].0;
      var normalized := keyOf(pairs[i].1);
      ghost var e := LabelEntry(normalized, ident, ToText(pairs[i].1));
      assert LabelEntries(pairs[..i + 1], keyOf) == LabelEntries(pairs[..i], keyOf) + [e];
      CacheOfSnoc(LabelEntries(pairs[..i], keyOf), e);
      if normalized != "" {
        if normalized !in ids || ids[normalized].Null? {
          ids := ids[normalized := ident];
        } else if !PyEq(ids[normalized], ident) {
          duplicates := duplicates + [ToText(pairs[i].1)];
        }
      }
      i := i + 1;
    }
    assert pairs[..i] == pairs;
    cache := LabelCache(ids, duplicates);
  }

  /** The caches of all lookup tables, by (table, id column, label column). */
  type Caches = map<Triple, map<string, Value>>

  /**
   * `tables` gives the cache each lookup table would yield (`TablesOf` of the
   * database); keeping it abstract here keeps the proofs about the loading
   * order apart from the cache loop itself.
   */
  function TablesOf(fetch: Triple -> LookupRows, keyOf: Value -> string): Triple -> LabelCache {
    t => TableCache(fetch(t), keyOf)
  }

  /** The table of this lookup has no conflicting labels. */
  predicate Clean(fk: ForeignKeyLookup, tables: Triple -> LabelCache) {
    tables(fk.Triple()).duplicates == []
  }

  predicate CachesAgree(caches: Caches, tables: Triple -> LabelCache) {
    forall t :: t in caches ==> caches[t] == tables(t).ids && tables(t).duplicates == []
  }

  /** The error for a lookup whose table has conflicting labels: sorted, without repeats. */
  function DuplicateError(fk: ForeignKeyLookup, tables: Triple -> LabelCache): BuildError {
    DuplicateLabels(fk.foreignTable, fk.foreignLabelColumn, SortedDistinct(tables(fk.Triple()).duplicates))
  }

  /**
   * One cache per distinct triple, in lookup order; the first table with
   * conflicting labels stops the build.
   */
  function LoadCaches(lookups: seq<ForeignKeyLookup>, tables: Triple -> LabelCache, acc: Caches): Result<Caches, BuildError>
    decreases |lookups|
  {
    if lookups == [] then Success(acc)
    else
      var fk := lookups[0];
      var t := fk.Triple();
      if t in acc then LoadCaches(lookups[1..], tables, acc)
      else if !Clean(fk, tables) then Failure(DuplicateError(fk, tables))
      else LoadCaches(lookups[1..], tables, acc[t := tables(t).ids])
  }

  /** Loading succeeds exactly when every lookup table is free of conflicts. */
  lemma {:induction false} LoadCachesSucceedsIff(lookups: seq<ForeignKeyLookup>, tables: Triple -> LabelCache, acc: Caches)
    requires CachesAgree(acc, tables)
    ensures LoadCaches(lookups, tables, acc).Success? <==> forall i :: 0 <= i < |lookups| ==> Clean(lookups[i], tables)
    decreases |lookups|
  {
    if lookups != [] {
      var fk := lookups[0];
      var t := fk.Triple();
      var rest := lookups[1..];
      assert forall i :: 0 <= i < |rest| ==> rest[i] == lookups[i + 1];
      if t in acc || Clean(fk, tables) {
        var acc' := if t in acc then acc else acc[t := tables(t).ids];
        assert CachesAgree(acc', tables);
        assert Clean(fk, tables);
        LoadCachesSucceedsIff(rest, tables, acc');
        assert LoadCaches(lookups, tables, acc) == LoadCaches(rest, tables, acc');
      }
    }
  }

  /** A successful load holds, for every lookup, the cache of its table. */
  lemma {:induction false} LoadCachesContents(lookups: seq<ForeignKeyLookup>, tables: Triple -> LabelCache, acc: Caches)
    requires CachesAgree(acc, tables)
    requires LoadCaches(lookups, tables, acc).Success?
    ensures CachesAgree(LoadCaches(lookups, tables, acc).value, tables)
    ensures acc.Keys <= LoadCaches(lookups, tables, acc).value.Keys
    ensures forall i :: 0 <= i < |lookups| ==> lookups[i].Triple() in LoadCaches(lookups, tables, acc).value
    decreases |lookups|
  {
    if lookups != [] {
      var fk := lookups[0];
      var t := fk.Triple();
      var rest := lookups[1..];
      var acc' := if t in acc then acc else acc[t := tables(t).ids];
      assert CachesAgree(acc', tables);
      assert LoadCaches(lookups, tables, acc) == LoadCaches(rest, tables, acc');
      LoadCachesContents(rest, tables, acc');
      forall i | 0 <= i < |lookups|
        ensures lookups[i].Triple() in LoadCaches(lookups, tables, acc).value
      {
        if i > 0 {
          assert lookups[i] == rest[i - 1];
        }
      }
    }
  }

  /** When loading fails, the error names the first lookup whose table conflicts. */
  lemma {:induction false} LoadCachesFailure(lookups: seq<ForeignKeyLookup>, tables: Triple -> LabelCache, acc: Caches)
    requires CachesAgree(acc, tables)
    requires LoadCaches(lookups, tables, acc).Failure?
    ensures exists i :: 0 <= i < |lookups| && !Clean(lookups[i], tables)
                     && (forall j :: 0 <= j < i ==> Clean(lookups[j], tables))
                     && LoadCaches(lookups, tables, acc).error == DuplicateError(lookups[i], tables)
    decreases |lookups|
  {
    var fk := lookups[0];
    var t := fk.Triple();
    var rest := lookups[1..];
    if t in acc || Clean(fk, tables) {
      var acc' := if t in acc then acc else acc[t := tables(t).ids];
      assert LoadCaches(lookups, tables, acc) == LoadCaches(rest, tables, acc');
      LoadCachesFailure(rest, tables, acc');
      var i :| 0 <= i < |rest| && !Clean(rest[i], tables) && (forall j :: 0 <= j < i ==> Clean(rest[j], tables))
               && LoadCaches(rest, tables, acc').error == DuplicateError(rest[i], tables);
      assert rest[i] == lookups[i + 1];
      assert forall j :: 0 <= j < i + 1 ==> Clean(lookups[j], tables) by {
        forall j | 0 <= j < i + 1
          ensures Clean(lookups[j], tables)
        {
          if j > 0 {
            assert lookups[j] == rest[j - 1];
          }
        }
      }
    }
  }

  /** The cache-building loop of the build: one fetch per distinct triple, stopping at the first conflict. */
  method LoadAllCaches(lookups: seq<ForeignKeyLookup>, fetch: Triple -> LookupRows, keyOf: Value -> string) returns (r: Result<Caches, BuildError>)
    ensures r == LoadCaches(lookups, TablesOf(fetch, keyOf), map[])
  {
    ghost var tables := TablesOf(fetch, keyOf);
    var caches: Caches := map[];
    var i := 0;
    while i < |lookups|
      invariant 0 <= i <= |lookups|
      invariant LoadCaches(lookups[i..], tables, caches) == LoadCaches(lookups, tables, map[])
    {
      var fk := lookups[i];
      var key := fk.Triple();
      ghost var rest := lookups[i..];
      assert rest[0] == fk && rest[1..] == lookups[i + 1..];
      if key !in caches {
        var cache := LoadLabelCache(fetch(key), keyOf);
        assert cache == tables(key);
        if cache.duplicates != [] {
          assert LoadCaches(rest, tables, caches) == Failure(DuplicateError(fk, tables));
          return Failure(DuplicateLabels(fk.foreignTable, fk.foreignLabelColumn, SortedDistinct(cache.duplicates)));
        }
        caches := caches[key := cache.ids];
      }
      i := i + 1;
    }
    return Success(caches);
  }

  // ===========================================================================
  // Step 7: foreign-key resolution
  // ===========================================================================

  /** The cache of a lookup's table; a triple that was never loaded reads as an empty cache. */
  function CacheFor(caches: Caches, fk: ForeignKeyLookup): map<string, Value> {
    if fk.Triple() in caches then caches[fk.Triple()] else map[]
  }

  /**
   * One lookup on one row: a blank source cell, or a label without an id in
   * the cache (missing, or cached as None), is a diagnostic for that
   * spreadsheet row; otherwise the id it maps to.
   */
  function Resolve(caches: Caches, fk: ForeignKeyLookup, row: Row, excelRow: int, keyOf: Value -> string): Result<Value, Diagnostic> {
    var raw := Cell(row, fk.excelColumn);
    var normalized := keyOf(raw);
    if normalized == [] then Failure(EmptySource(excelRow, fk.excelColumn, fk.targetColumn))
    else
      var cache := CacheFor(caches, fk);
      if normalized !in cache || cache[normalized].Null? then
        Failure(NotFound(excelRow, raw, fk.foreignTable, fk.foreignLabelColumn, fk.targetColumn))
      else Success(cache[normalized])
  }

  /**
   * A resolved id is never None; a failure names the row and the target
   * column, and is an empty-source failure exactly when the cell's key is
   * blank; otherwise it names the raw cell and the lookup table.
   */
  lemma ResolveOutcome(caches: Caches, fk: ForeignKeyLookup, row: Row, excelRow: int, keyOf: Value -> string)
    ensures var r := Resolve(caches, fk, row, excelRow, keyOf);
      && (r.Success? ==> !r.value.Null? && r.value == CacheFor(caches, fk)[keyOf(Cell(row, fk.excelColumn))])
      && (r.Failure? ==> r.error.row == excelRow && r.error.targetColumn == fk.targetColumn)
      && (r.Failure? && r.error.EmptySource? <==> |keyOf(Cell(row, fk.excelColumn))| == 0)
      && (r.Failure? && r.error.NotFound? ==>
            r.error == NotFound(excelRow, Cell(row, fk.excelColumn), fk.foreignTable, fk.foreignLabelColumn, fk.targetColumn))
  {
  }

  /** The diagnostics of one row: one per lookup that fails on it, in lookup order. */
  function RowDiagnostics(caches: Caches, lookups: seq<ForeignKeyLookup>, row: Row, excelRow: int, keyOf: Value -> string): (ds: seq<Diagnostic>)
    ensures |ds| <= |lookups|
  {
    if lookups == [] then []
    else
      var outcome := Resolve(caches, lookups[|lookups| - 1], row, excelRow, keyOf);
      RowDiagnostics(caches, lookups[..|lookups| - 1], row, excelRow, keyOf)
      + (if outcome.Failure? then [outcome.error] else [])
  }

  /** The record of one row after its lookups, in order: each resolved id is written to its target column. */
  function ResolvedRecord(caches: Caches, lookups: seq<ForeignKeyLookup>, row: Row, record: Record, excelRow: int, keyOf: Value -> string): Record {
    if lookups == [] then record
    else
      var prev := ResolvedRecord(caches, lookups[..|lookups| - 1], row, record, excelRow, keyOf);
      var fk := lookups[|lookups| - 1];
      var outcome := Resolve(caches, fk, row, excelRow, keyOf);
      if outcome.Failure? then prev else prev[fk.targetColumn := outcome.value]
  }

  /** The record gains exactly the target columns of the lookups that resolve. */
  lemma {:induction false} ResolvedRecordKeys(caches: Caches, lookups: seq<ForeignKeyLookup>, row: Row, record: Record, excelRow: int, keyOf: Value -> string)
    ensures forall k :: k in ResolvedRecord(caches, lookups, row, record, excelRow, keyOf) <==>
      k in record || exists i :: 0 <= i < |lookups| && lookups[i].targetColumn == k
                                 && Resolve(caches, lookups[i], row, excelRow, keyOf).Success?
  {
    if lookups != [] {
      var front := lookups[..|lookups| - 1];
      ResolvedRecordKeys(caches, front, row, record, excelRow, keyOf);
      assert forall i :: 0 <= i < |front| ==> front[i] == lookups[i];
    }
  }

  /** A column no lookup targets keeps its value. */
  lemma {:induction false} ResolvedRecordUntouched(caches: Caches, lookups: seq<ForeignKeyLookup>, row: Row, record: Record, excelRow: int, keyOf: Value -> string, k: string)
    requires k in record && forall i :: 0 <= i < |lookups| ==> lookups[i].targetColumn != k
    ensures k in ResolvedRecord(caches, lookups, row, record, excelRow, keyOf)
    ensures ResolvedRecord(caches, lookups, row, record, excelRow, keyOf)[k] == record[k]
  {
    if lookups != [] {
      ResolvedRecordUntouched(caches, lookups[..|lookups| - 1], row, record, excelRow, keyOf, k);
    }
  }

  /** No two lookups fill the same column (the editor refuses a second one). */
  predicate UniqueFkTargets(lookups: seq<ForeignKeyLookup>) {
    forall i, j :: 0 <= i < j < |lookups| ==> lookups[i].targetColumn != lookups[j].targetColumn
  }

  /** With one lookup per target column, each resolved id ends up in its column. */
  lemma {:induction false} ResolvedRecordValues(caches: Caches, lookups: seq<ForeignKeyLookup>, row: Row, record: Record, excelRow: int, keyOf: Value -> string)
    requires UniqueFkTargets(lookups)
    ensures forall i :: 0 <= i < |lookups| && Resolve(caches, lookups[i], row, excelRow, keyOf).Success? ==>
      lookups[i].targetColumn in ResolvedRecord(caches, lookups, row, record, excelRow, keyOf)
      && ResolvedRecord(caches, lookups, row, record, excelRow, keyOf)[lookups[i].targetColumn] == Resolve(caches, lookups[i], row, excelRow, keyOf).value
  {
    forall i | 0 <= i < |lookups| && Resolve(caches, lookups[i], row, excelRow, keyOf).Success?
      ensures lookups[i].targetColumn in ResolvedRecord(caches, lookups, row, record, excelRow, keyOf)
        && ResolvedRecord(caches, lookups, row, record, excelRow, keyOf)[lookups[i].targetColumn] == Resolve(caches, lookups[i], row, excelRow, keyOf).value
    {
      ResolvedRecordValueAt(caches, lookups, row, record, excelRow, keyOf, i);
    }
  }

  /** The id of lookup `i`, when it resolves, is what its column holds at the end. */
  lemma {:induction false} ResolvedRecordValueAt(caches: Caches, lookups: seq<ForeignKeyLookup>, row: Row, record: Record, excelRow: int, keyOf: Value -> string, i: int)
    requires UniqueFkTargets(lookups) && 0 <= i < |lookups| && Resolve(caches, lookups[i], row, excelRow, keyOf).Success?
    ensures lookups[i].targetColumn in ResolvedRecord(caches, lookups, row, record, excelRow, keyOf)
    ensures ResolvedRecord(caches, lookups, row, record, excelRow, keyOf)[lookups[i].targetColumn] == Resolve(caches, lookups[i], row, excelRow, keyOf).value
  {
    var front := lookups[..|lookups| - 1];
    if i < |front| {
      assert front[i] == lookups[i];
      assert lookups[i].targetColumn != lookups[|lookups| - 1].targetColumn;
      assert UniqueFkTargets(front) by {
        forall a, b | 0 <= a < b < |front|
          ensures front[a].targetColumn != front[b].targetColumn
        {
          assert front[a] == lookups[a] && front[b] == lookups[b];
        }
      }
      ResolvedRecordValueAt(caches, front, row, record, excelRow, keyOf, i);
    }
  }

  /** Every lookup resolves on this row. */
  predicate RowResolves(caches: Caches, lookups: seq<ForeignKeyLookup>, row: Row, excelRow: int, keyOf: Value -> string) {
    forall i :: 0 <= i < |lookups| ==> Resolve(caches, lookups[i], row, excelRow, keyOf).Success?
  }

  /** A row has no diagnostic exactly when every lookup on it resolves. */
  lemma {:induction false} RowCleanIff(caches: Caches, lookups: seq<ForeignKeyLookup>, row: Row, excelRow: int, keyOf: Value -> string)
    ensures |RowDiagnostics(caches, lookups, row, excelRow, keyOf)| == 0 <==> RowResolves(caches, lookups, row, excelRow, keyOf)
  {
    if lookups != [] {
      var front := lookups[..|lookups| - 1];
      RowCleanIff(caches, front, row, excelRow, keyOf);
      assert forall i :: 0 <= i < |front| ==> front[i] == lookups[i];
    }
  }

  /** The diagnostics of every row in turn, numbered from `firstRow` (the header row plus one). */
  function Diagnostics(caches: Caches, lookups: seq<ForeignKeyLookup>, rows: seq<Row>, firstRow: int, keyOf: Value -> string): seq<Diagnostic> {
    if rows == [] then []
    else
      var n := |rows| - 1;
      var prev := Diagnostics(caches, lookups, rows[..n], firstRow, keyOf);
      var here := RowDiagnostics(caches, lookups, rows[n], firstRow + n, keyOf);
      prev + here
  }

  lemma DiagnosticsSnoc(caches: Caches, lookups: seq<ForeignKeyLookup>, rows: seq<Row>, firstRow: int, keyOf: Value -> string, idx: int)
    requires 0 <= idx < |rows|
    ensures Diagnostics(caches, lookups, rows[..idx + 1], firstRow, keyOf)
         == Diagnostics(caches, lookups, rows[..idx], firstRow, keyOf) + RowDiagnostics(caches, lookups, rows[idx], firstRow + idx, keyOf)
  {
    assert rows[..idx + 1][..idx] == rows[..idx];
  }

  /** The records after resolution, row by row. */
  function ResolvedRecords(caches: Caches, lookups: seq<ForeignKeyLookup>, rows: seq<Row>, records: seq<Record>, firstRow: int, keyOf: Value -> string): (rs: seq<Record>)
    requires |records| == |rows|
    ensures |rs| == |rows|
  {
    if rows == [] then []
    else
      var n := |rows| - 1;
      ResolvedRecords(caches, lookups, rows[..n], records[..n], firstRow, keyOf)
      + [ResolvedRecord(caches, lookups, rows[n], records[n], firstRow + n, keyOf)]
  }

  /** Each row's record is resolved with that row's own number. */
  lemma {:induction false} ResolvedRecordsAt(caches: Caches, lookups: seq<ForeignKeyLookup>, rows: seq<Row>, records: seq<Record>, firstRow: int, keyOf: Value -> string)
    requires |records| == |rows|
    ensures forall idx :: 0 <= idx < |rows| ==>
      ResolvedRecords(caches, lookups, rows, records, firstRow, keyOf)[idx]
      == ResolvedRecord(caches, lookups, rows[idx], records[idx], firstRow + idx, keyOf)
  {
    if rows != [] {
      var n := |rows| - 1;
      ResolvedRecordsAt(caches, lookups, rows[..n], records[..n], firstRow, keyOf);
      assert forall idx :: 0 <= idx < n ==> rows[..n][idx] == rows[idx] && records[..n][idx] == records[idx];
    }
  }

  predicate InRowOrder(ds: seq<Diagnostic>) {
    forall a, b :: 0 <= a < b < |ds| ==> ds[a].row <= ds[b].row
  }

  /** Every diagnostic of a row carries that row's number. */
  lemma {:induction false} RowDiagnosticsRow(caches: Caches, lookups: seq<ForeignKeyLookup>, row: Row, excelRow: int, keyOf: Value -> string)
    ensures forall j :: 0 <= j < |RowDiagnostics(caches, lookups, row, excelRow, keyOf)| ==>
      RowDiagnostics(caches, lookups, row, excelRow, keyOf)[j].row == excelRow
  {
    if lookups != [] {
      var front := lookups[..|lookups| - 1];
      RowDiagnosticsRow(caches, front, row, excelRow, keyOf);
      ResolveOutcome(caches, lookups[|lookups| - 1], row, excelRow, keyOf);
      var prev := RowDiagnostics(caches, front, row, excelRow, keyOf);
      var outcome := Resolve(caches, lookups[|lookups| - 1], row, excelRow, keyOf);
      var ds: seq<Diagnostic> := prev + (if outcome.Failure? then [outcome.error] else []);
      assert RowDiagnostics(caches, lookups, row, excelRow, keyOf) == ds;
      forall j | 0 <= j < |ds|
        ensures ds[j].row == excelRow
      {
        if j < |prev| {
          assert ds[j].row == prev[j].row;
        } else {
          assert ds[j].row == outcome.error.row;
        }
      }
    }
  }

  /** Diagnostics number the spreadsheet rows from `firstRow`, one past each other row. */
  lemma {:induction false} DiagnosticsRows(caches: Caches, lookups: seq<ForeignKeyLookup>, rows: seq<Row>, firstRow: int, keyOf: Value -> string)
    ensures forall j :: 0 <= j < |Diagnostics(caches, lookups, rows, firstRow, keyOf)| ==>
      firstRow <= Diagnostics(caches, lookups, rows, firstRow, keyOf)[j].row < firstRow + |rows|
  {
    if rows != [] {
      var n := |rows| - 1;
      DiagnosticsRows(caches, lookups, rows[..n], firstRow, keyOf);
      RowDiagnosticsRow(caches, lookups, rows[n], firstRow + n, keyOf);
      var prev := Diagnostics(caches, lookups, rows[..n], firstRow, keyOf);
      var here := RowDiagnostics(caches, lookups, rows[n], firstRow + n, keyOf);
      var ds: seq<Diagnostic> := prev + here;
      assert Diagnostics(caches, lookups, rows, firstRow, keyOf) == ds;
      forall j | 0 <= j < |ds|
        ensures firstRow <= ds[j].row < firstRow + |rows|
      {
        if j >= |prev| {
          assert ds[j].row == here[j - |prev|].row;
        } else {
          assert ds[j].row == prev[j].row;
        }
      }
    }
  }

  /** The diagnostics come in spreadsheet-row order. */
  lemma {:induction false} DiagnosticsInRowOrder(caches: Caches, lookups: seq<ForeignKeyLookup>, rows: seq<Row>, firstRow: int, keyOf: Value -> string)
    ensures InRowOrder(Diagnostics(caches, lookups, rows, firstRow, keyOf))
  {
    if rows != [] {
      var n := |rows| - 1;
      DiagnosticsInRowOrder(caches, lookups, rows[..n], firstRow, keyOf);
      DiagnosticsRows(caches, lookups, rows[..n], firstRow, keyOf);
      RowDiagnosticsRow(caches, lookups, rows[n], firstRow + n, keyOf);
      var prev := Diagnostics(caches, lookups, rows[..n], firstRow, keyOf);
      var here := RowDiagnostics(caches, lookups, rows[n], firstRow + n, keyOf);
      var ds := prev + here;
      assert Diagnostics(caches, lookups, rows, firstRow, keyOf) == ds;
      forall a, b | 0 <= a < b < |ds|
        ensures ds[a].row <= ds[b].row
      {
        if b < |prev| {
          assert ds[a].row == prev[a].row && ds[b].row == prev[b].row;
        } else if a < |prev| {
          assert ds[a].row == prev[a].row && ds[b].row == here[b - |prev|].row;
        } else {
          assert ds[a].row == here[a - |prev|].row && ds[b].row == here[b - |prev|].row;
        }
      }
    }
  }

  /** The build has no diagnostic exactly when no row has one. */
  lemma {:induction false} DiagnosticsEmptyIff(caches: Caches, lookups: seq<ForeignKeyLookup>, rows: seq<Row>, firstRow: int, keyOf: Value -> string)
    ensures |Diagnostics(caches, lookups, rows, firstRow, keyOf)| == 0 <==>
      forall idx :: 0 <= idx < |rows| ==> |RowDiagnostics(caches, lookups, rows[idx], firstRow + idx, keyOf)| == 0
  {
    if rows != [] {
      var n := |rows| - 1;
      DiagnosticsEmptyIff(caches, lookups, rows[..n], firstRow, keyOf);
      assert forall idx :: 0 <= idx < n ==> rows[..n][idx] == rows[idx];
    }
  }

  /** The build has no diagnostic exactly when every lookup resolves on every row. */
  lemma DiagnosticsCleanIff(caches: Caches, lookups: seq<ForeignKeyLookup>, rows: seq<Row>, firstRow: int, keyOf: Value -> string)
    ensures |Diagnostics(caches, lookups, rows, firstRow, keyOf)| == 0 <==>
      forall idx :: 0 <= idx < |rows| ==> RowResolves(caches, lookups, rows[idx], firstRow + idx, keyOf)
  {
    DiagnosticsEmptyIff(caches, lookups, rows, firstRow, keyOf);
    forall idx | 0 <= idx < |rows| {
      RowCleanIff(caches, lookups, rows[idx], firstRow + idx, keyOf);
    }
  }

  /** Resolution with loaded caches: every diagnostic of every row, or the resolved records. */
  function ResolveAll(caches: Caches, lookups: seq<ForeignKeyLookup>, rows: seq<Row>, records: seq<Record>, firstRow: int, keyOf: Value -> string)
    : (r: Result<seq<Record>, BuildError>)
    requires |records| == |rows|
    ensures r.Success? ==> |r.value| == |rows|
  {
    var ds := Diagnostics(caches, lookups, rows, firstRow, keyOf);
    if |ds| != 0 then Failure(UnresolvedLookups(ds))
    else Success(ResolvedRecords(caches, lookups, rows, records, firstRow, keyOf))
  }

  /**
   * Resolution fails exactly when some lookup fails on some row, and then
   * reports the diagnostics in spreadsheet-row order, each naming a row of the
   * selection.
   */
  lemma ResolveAllFailure(caches: Caches, lookups: seq<ForeignKeyLookup>, rows: seq<Row>, records: seq<Record>, firstRow: int, keyOf: Value -> string)
    requires |records| == |rows|
    ensures ResolveAll(caches, lookups, rows, records, firstRow, keyOf).Failure? <==>
      exists idx :: 0 <= idx < |rows| && !RowResolves(caches, lookups, rows[idx], firstRow + idx, keyOf)
    ensures ResolveAll(caches, lookups, rows, records, firstRow, keyOf).Failure? ==>
      var ds := ResolveAll(caches, lookups, rows, records, firstRow, keyOf).error.diagnostics;
      && InRowOrder(ds)
      && (forall j :: 0 <= j < |ds| ==> firstRow <= ds[j].row < firstRow + |rows|)
  {
    DiagnosticsCleanIff(caches, lookups, rows, firstRow, keyOf);
    DiagnosticsInRowOrder(caches, lookups, rows, firstRow, keyOf);
    DiagnosticsRows(caches, lookups, rows, firstRow, keyOf);
  }

  /**
   * After a successful resolution every record keeps its columns and their
   * values where no lookup targets them, and every lookup has filled its
   * target column on every row; with one lookup per column, with the id it
   * resolved.
   */
  lemma ResolveAllSuccess(caches: Caches, lookups: seq<ForeignKeyLookup>, rows: seq<Row>, records: seq<Record>, firstRow: int, keyOf: Value -> string, rs: seq<Record>)
    requires |records| == |rows| && ResolveAll(caches, lookups, rows, records, firstRow, keyOf) == Success(rs)
    ensures |rs| == |rows|
    ensures forall j :: 0 <= j < |rows| ==> records[j].Keys <= rs[j].Keys
    ensures forall j, k :: 0 <= j < |rows| && k in records[j] && (forall i :: 0 <= i < |lookups| ==> lookups[i].targetColumn != k) ==>
      rs[j][k] == records[j][k]
    ensures forall j, i :: 0 <= j < |rows| && 0 <= i < |lookups| ==> lookups[i].targetColumn in rs[j]
    ensures UniqueFkTargets(lookups) ==>
      forall j, i :: 0 <= j < |rows| && 0 <= i < |lookups| ==>
        lookups[i].targetColumn in rs[j] && Resolve(caches, lookups[i], rows[j], firstRow + j, keyOf) == Success(rs[j][lookups[i].targetColumn])
  {
    DiagnosticsCleanIff(caches, lookups, rows, firstRow, keyOf);
    ResolvedRecordsAt(caches, lookups, rows, records, firstRow, keyOf);
    forall j | 0 <= j < |rows| {
      ResolvedRowFacts(caches, lookups, rows[j], records[j], firstRow + j, keyOf);
    }
  }

  /** What resolving one row in which every lookup succeeds does to its record. */
  lemma ResolvedRowFacts(caches: Caches, lookups: seq<ForeignKeyLookup>, row: Row, record: Record, excelRow: int, keyOf: Value -> string)
    requires RowResolves(caches, lookups, row, excelRow, keyOf)
    ensures record.Keys <= ResolvedRecord(caches, lookups, row, record, excelRow, keyOf).Keys
    ensures forall i :: 0 <= i < |lookups| ==> lookups[i].targetColumn in ResolvedRecord(caches, lookups, row, record, excelRow, keyOf)
    ensures forall k :: k in record && (forall i :: 0 <= i < |lookups| ==> lookups[i].targetColumn != k) ==>
      ResolvedRecord(caches, lookups, row, record, excelRow, keyOf)[k] == record[k]
    ensures UniqueFkTargets(lookups) ==> forall i :: 0 <= i < |lookups| ==>
      lookups[i].targetColumn in ResolvedRecord(caches, lookups, row, record, excelRow, keyOf)
      && Resolve(caches, lookups[i], row, excelRow, keyOf)
         == Success(ResolvedRecord(caches, lookups, row, record, excelRow, keyOf)[lookups[i].targetColumn])
  {
    ResolvedRecordKeys(caches, lookups, row, record, excelRow, keyOf);
    forall k | k in record && (forall i :: 0 <= i < |lookups| ==> lookups[i].targetColumn != k)
      ensures ResolvedRecord(caches, lookups, row, record, excelRow, keyOf)[k] == record[k]
    {
      ResolvedRecordUntouched(caches, lookups, row, record, excelRow, keyOf, k);
    }
    if UniqueFkTargets(lookups) {
      ResolvedRecordValues(caches, lookups, row, record, excelRow, keyOf);
    }
  }

  /** The inner loop of the resolution, over the lookups of one row. */
  method ResolveRowLookups(caches: Caches, lookups: seq<ForeignKeyLookup>, row: Row, record: Record, excelRow: int, keyOf: Value -> string)
    returns (updated: Record, found: seq<Diagnostic>)
    ensures updated == ResolvedRecord(caches, lookups, row, record, excelRow, keyOf)
    ensures found == RowDiagnostics(caches, lookups, row, excelRow, keyOf)
  {
    updated := record;
    found := [];
    var i := 0;
    while i < |lookups|
      invariant 0 <= i <= |lookups|
      invariant updated == ResolvedRecord(caches, lookups[..i], row, record, excelRow, keyOf)
      invariant found == RowDiagnostics(caches, lookups[..i], row, excelRow, keyOf)
    {
      ResolveRowStep(caches, lookups, row, record, excelRow, keyOf, i);
      var fk := lookups[i];
      var outcome := Resolve(caches, fk, row, excelRow, keyOf);
      if outcome.Failure? {
        found := found + [outcome.error];
      } else {
        updated := updated[fk.targetColumn := outcome.value];
      }
      i := i + 1;
    }
    assert lookups[..i] == lookups;
  }

  /** One more lookup on a row: its id is written, or its diagnostic is added. */
  lemma ResolveRowStep(caches: Caches, lookups: seq<ForeignKeyLookup>, row: Row, record: Record, excelRow: int, keyOf: Value -> string, i: int)
    requires 0 <= i < |lookups|
    ensures ResolvedRecord(caches, lookups[..i + 1], row, record, excelRow, keyOf)
         == if Resolve(caches, lookups[i], row, excelRow, keyOf).Failure?
            then ResolvedRecord(caches, lookups[..i], row, record, excelRow, keyOf)
            else ResolvedRecord(caches, lookups[..i], row, record, excelRow, keyOf)[lookups[i].targetColumn := Resolve(caches, lookups[i], row, excelRow, keyOf).value]
    ensures RowDiagnostics(caches, lookups[..i + 1], row, excelRow, keyOf)
         == RowDiagnostics(caches, lookups[..i], row, excelRow, keyOf)
            + (if Resolve(caches, lookups[i], row, excelRow, keyOf).Failure? then [Resolve(caches, lookups[i], row, excelRow, keyOf).error] else [])
  {
    assert lookups[..i + 1][..i] == lookups[..i];
  }

  /** The resolution loop: each record is updated with its row's lookups and every failure is collected. */
  method ResolveLookups(caches: Caches, lookups: seq<ForeignKeyLookup>, rows: seq<Row>, records: seq<Record>, firstRow: int, keyOf: Value -> string)
    returns (resolved: seq<Record>, unresolved: seq<Diagnostic>)
    requires |records| == |rows|
    ensures resolved == ResolvedRecords(caches, lookups, rows, records, firstRow, keyOf)
    ensures unresolved == Diagnostics(caches, lookups, rows, firstRow, keyOf)
  {
    resolved := [];
    unresolved := [];
    var idx := 0;
    while idx < |rows|
      invariant 0 <= idx <= |rows|
      invariant resolved == ResolvedRecords(caches, lookups, rows[..idx], records[..idx], firstRow, keyOf)
      invariant unresolved == Diagnostics(caches, lookups, rows[..idx], firstRow, keyOf)
    {
      resolved, unresolved := ResolveNextRow(caches, lookups, rows, records, firstRow, keyOf, idx, resolved, unresolved);
      idx := idx + 1;
    }
    assert rows[..idx] == rows && records[..idx] == records;
  }

  /** One pass of the row loop: row `idx` is resolved and its diagnostics appended. */
  method ResolveNextRow(caches: Caches, lookups: seq<ForeignKeyLookup>, rows: seq<Row>, records: seq<Record>, firstRow: int, keyOf: Value -> string,
                        idx: int, resolved: seq<Record>, unresolved: seq<Diagnostic>)
    returns (resolved': seq<Record>, unresolved': seq<Diagnostic>)
    requires |records| == |rows| && 0 <= idx < |rows|
    requires resolved == ResolvedRecords(caches, lookups, rows[..idx], records[..idx], firstRow, keyOf)
    requires unresolved == Diagnostics(caches, lookups, rows[..idx], firstRow, keyOf)
    ensures resolved' == ResolvedRecords(caches, lookups, rows[..idx + 1], records[..idx + 1], firstRow, keyOf)
    ensures unresolved' == Diagnostics(caches, lookups, rows[..idx + 1], firstRow, keyOf)
  {
    var record, found := ResolveRowLookups(caches, lookups, rows[idx], records[idx], firstRow + idx, keyOf);
    DiagnosticsSnoc(caches, lookups, rows, firstRow, keyOf, idx);
    ResolvedRecordsSnoc(caches, lookups, rows, records, firstRow, keyOf, idx);
    unresolved' := unresolved + found;
    resolved' := resolved + [record];
  }

  lemma ResolvedRecordsSnoc(caches: Caches, lookups: seq<ForeignKeyLookup>, rows: seq<Row>, records: seq<Record>, firstRow: int, keyOf: Value -> string, idx: int)
    requires |records| == |rows| && 0 <= idx < |rows|
    ensures ResolvedRecords(caches, lookups, rows[..idx + 1], records[..idx + 1], firstRow, keyOf)
         == ResolvedRecords(caches, lookups, rows[..idx], records[..idx], firstRow, keyOf)
            + [ResolvedRecord(caches, lookups, rows[idx], records[idx], firstRow + idx, keyOf)]
  {
    assert rows[..idx + 1][..idx] == rows[..idx] && records[..idx + 1][..idx] == records[..idx];
  }

  // ===========================================================================
  // Step 8: the auto-generated primary key leaves every record
  // ===========================================================================

  /** Every record without `column`; all other fields stay as they are. */
  function WithoutColumn(records: seq<Record>, column: string): (rs: seq<Record>)
    ensures |rs| == |records|
    ensures forall i :: 0 <= i < |records| ==> column !in rs[i] && rs[i].Keys == records[i].Keys - {column}
    ensures forall i, k :: 0 <= i < |records| && k in rs[i] ==> rs[i][k] == records[i][k]
  {
    seq(|records|, i requires 0 <= i < |records| => records[i] - {column})
  }

  // ===========================================================================
  // The whole build
  // ===========================================================================

  /**
   * The records or the error that stops the build, and the (total, kept) row
   * counts the build leaves for the duplicate report (None when
   * de-duplication did not run, or stopped before counting).
   */
  datatype BuildOutcome = BuildOutcome(result: Result<seq<Record>, BuildError>, dedupStats: Option<(nat, nat)>)

  /** Step 7 on the built records: skipped without lookups, otherwise caches, then resolution. */
  function ResolveStep(sel: MappingSelection, rows: seq<Row>, records: seq<Record>, fetch: Triple -> LookupRows, keyOf: Value -> string): (r: Result<seq<Record>, BuildError>)
    requires |records| == |rows|
    ensures r.Success? ==> |r.value| == |rows|
    ensures sel.fkLookups == [] ==> r == Success(records)
  {
    if sel.fkLookups == [] then Success(records)
    else
      match LoadCaches(sel.fkLookups, TablesOf(fetch, keyOf), map[])
      case Failure(e) => Failure(e)
      case Success(caches) => ResolveAll(caches, sel.fkLookups, rows, records, sel.headerRow + 1, keyOf)
  }

  /** Step 7 as the build runs it: load the caches, then resolve every row. */
  method RunResolveStep(sel: MappingSelection, rows: seq<Row>, records: seq<Record>, fetch: Triple -> LookupRows, keyOf: Value -> string)
    returns (r: Result<seq<Record>, BuildError>)
    requires |records| == |rows|
    ensures r == ResolveStep(sel, rows, records, fetch, keyOf)
  {
    if sel.fkLookups == [] {
      return Success(records);
    }
    var loaded := LoadAllCaches(sel.fkLookups, fetch, keyOf);
    if loaded.Failure? {
      return Failure(loaded.error);
    }
    r := ResolveWithCaches(loaded.value, sel.fkLookups, rows, records, sel.headerRow + 1, keyOf);
  }

  /** Resolution once the caches are loaded: the diagnostics if there are any, else the records. */
  method ResolveWithCaches(caches: Caches, lookups: seq<ForeignKeyLookup>, rows: seq<Row>, records: seq<Record>, firstRow: int, keyOf: Value -> string)
    returns (r: Result<seq<Record>, BuildError>)
    requires |records| == |rows|
    ensures r == ResolveAll(caches, lookups, rows, records, firstRow, keyOf)
  {
    var resolved, unresolved := ResolveLookups(caches, lookups, rows, records, firstRow, keyOf);
    if |unresolved| != 0 {
      return Failure(UnresolvedLookups(unresolved));
    }
    return Success(resolved);
  }

  /** Steps 2 to 8, on the rows that de-duplication kept. */
  function BuildFrom(sel: MappingSelection, columns: seq<string>, rows: seq<Row>, normalize: Value -> Value, fetch: Triple -> LookupRows, keyOf: Value -> string): (r: Result<seq<Record>, BuildError>)
    ensures r.Success? ==> |r.value| == |rows|
  {
    var pairs := EffectivePairs(sel);
    var missing := MissingSheetColumns(pairs, sel.fkLookups, columns);
    if missing != {} then Failure(SheetColumnsMissing(missing))
    else
      var filled := AllWithDefaults(Records(rows, pairs, normalize), sel.defaultValues);
      match ResolveStep(sel, rows, filled, fetch, keyOf)
      case Failure(e) => Failure(e)
      case Success(resolved) =>
        Success(if StripsPrimaryKey(sel) then WithoutColumn(resolved, sel.primaryKey.value) else resolved)
  }

  /**
   * `_build_records_for_selection` on the frame read for `sel`: one record
   * per kept row; without de-duplication that is one per row read, with it
   * the duplicate report counts the rows read and the records built.
   */
  function Build(sel: MappingSelection, frame: Frame, normalize: Value -> Value, fetch: Triple -> LookupRows, keyOf: Value -> string): (r: BuildOutcome)
    ensures r.result.Success? ==> DedupStep(sel, frame, normalize).Success? && |r.result.value| == |KeptRows(sel, frame, normalize)|
    ensures !DedupActive(sel) ==> r.dedupStats.None?
    ensures r.result.Success? && !DedupActive(sel) ==> |r.result.value| == |frame.rows|
    ensures r.result.Success? && DedupActive(sel) ==> r.dedupStats == Some((|frame.rows|, |r.result.value|))
  {
    match DedupStep(sel, frame, normalize)
    case Failure(e) => BuildOutcome(Failure(e), None)
    case Success(d) => BuildOutcome(BuildFrom(sel, frame.columns, d.rows, normalize, fetch, keyOf), d.stats)
  }

  /**
   * The build in the source's order: read counts are left even when a later
   * step fails, and each step that fails ends the build with its error.
   */
  method BuildRecordsForSelection(sel: MappingSelection, frame: Frame, normalize: Value -> Value, fetch: Triple -> LookupRows, keyOf: Value -> string)
    returns (outcome: BuildOutcome)
    ensures outcome == Build(sel, frame, normalize, fetch, keyOf)
  {
    var rows := frame.rows;
    var stats: Option<(nat, nat)> := None;
    if sel.removeDuplicateRows && Truthy(sel.duplicateCheckColumn) {
      var column := sel.duplicateCheckColumn.value;
      if column !in frame.columns {
        return BuildOutcome(Failure(DedupColumnMissing(column)), None);
      }
      rows := NormalizeColumn(rows, column, normalize);
      var total := |rows|;
      rows := DropDuplicates(rows, column);
      stats := Some((total, |rows|));
    }
    assert DedupStep(sel, frame, normalize) == Success(Deduped(rows, stats));
    var pairs := EffectivePairs(sel);
    var missing := MissingSheetColumns(pairs, sel.fkLookups, frame.columns);
    if missing != {} {
      return BuildOutcome(Failure(SheetColumnsMissing(missing)), stats);
    }
    var records := BuildRecords(rows, pairs, normalize);
    records := ApplyDefaults(records, sel.defaultValues);
    var resolved := RunResolveStep(sel, rows, records, fetch, keyOf);
    if resolved.Failure? {
      return BuildOutcome(Failure(resolved.error), stats);
    }
    records := resolved.value;
    if StripsPrimaryKey(sel) {
      records := WithoutColumn(records, sel.primaryKey.value);
    }
    return BuildOutcome(Success(records), stats);
  }

  // ---------------------------------------------------------------------------
  // What a successful build guarantees
  // ---------------------------------------------------------------------------

  /** The rows a build works on: the frame's, or those de-duplication kept. */
  function KeptRows(sel: MappingSelection, frame: Frame, normalize: Value -> Value): seq<Row>
    requires DedupStep(sel, frame, normalize).Success?
  {
    DedupStep(sel, frame, normalize).value.rows
  }

  /** An auto-generated primary key is in no record. */
  lemma BuildOmitsGeneratedKey(sel: MappingSelection, frame: Frame, normalize: Value -> Value, fetch: Triple -> LookupRows, keyOf: Value -> string)
    requires Build(sel, frame, normalize, fetch, keyOf).result.Success? && StripsPrimaryKey(sel)
    ensures forall j :: 0 <= j < |Build(sel, frame, normalize, fetch, keyOf).result.value| ==>
      sel.primaryKey.value !in Build(sel, frame, normalize, fetch, keyOf).result.value[j]
  {
  }

  /** What the build guarantees about the rows, the defaults and the lookups. */
  lemma BuildFillsColumns(sel: MappingSelection, frame: Frame, normalize: Value -> Value, fetch: Triple -> LookupRows, keyOf: Value -> string)
    requires Build(sel, frame, normalize, fetch, keyOf).result.Success?
    ensures forall j, i :: 0 <= j < |Build(sel, frame, normalize, fetch, keyOf).result.value| && 0 <= i < |sel.defaultValues|
                           && !(StripsPrimaryKey(sel) && sel.defaultValues[i].0 == sel.primaryKey.value) ==>
      sel.defaultValues[i].0 in Build(sel, frame, normalize, fetch, keyOf).result.value[j]
    ensures forall j, i :: 0 <= j < |Build(sel, frame, normalize, fetch, keyOf).result.value| && 0 <= i < |sel.fkLookups|
                           && !(StripsPrimaryKey(sel) && sel.fkLookups[i].targetColumn == sel.primaryKey.value) ==>
      sel.fkLookups[i].targetColumn in Build(sel, frame, normalize, fetch, keyOf).result.value[j]
    ensures WellFormed(frame) ==>
      forall j, i :: 0 <= j < |Build(sel, frame, normalize, fetch, keyOf).result.value| && 0 <= i < |EffectivePairs(sel)| ==>
        EffectivePairs(sel)[i].1 in Build(sel, frame, normalize, fetch, keyOf).result.value[j]
  {
    BuildFromFills(sel, frame.columns, KeptRows(sel, frame, normalize), normalize, fetch, keyOf);
    if WellFormed(frame) {
      KeptRowsHaveColumns(sel, frame, normalize);
    }
  }

  /**
   * With one pair per table column, a mapped column that no lookup fills holds
   * the normalised cell of its pair in the row the record was built from.
   */
  lemma BuildMapsValues(sel: MappingSelection, frame: Frame, normalize: Value -> Value, fetch: Triple -> LookupRows, keyOf: Value -> string)
    requires Build(sel, frame, normalize, fetch, keyOf).result.Success?
    requires WellFormed(frame) && UniqueTargets(EffectivePairs(sel))
    ensures forall j, i :: 0 <= j < |Build(sel, frame, normalize, fetch, keyOf).result.value| && 0 <= i < |EffectivePairs(sel)|
                           && EffectivePairs(sel)[i].1 !in FkTargets(sel.fkLookups) ==>
      && EffectivePairs(sel)[i].1 in Build(sel, frame, normalize, fetch, keyOf).result.value[j]
      && EffectivePairs(sel)[i].0 in KeptRows(sel, frame, normalize)[j]
      && Build(sel, frame, normalize, fetch, keyOf).result.value[j][EffectivePairs(sel)[i].1]
         == normalize(KeptRows(sel, frame, normalize)[j][EffectivePairs(sel)[i].0])
  {
    var rows := KeptRows(sel, frame, normalize);
    KeptRowsHaveColumns(sel, frame, normalize);
    BuildFromMapsValues(sel, frame.columns, rows, normalize, fetch, keyOf);
    assert Build(sel, frame, normalize, fetch, keyOf).result == BuildFrom(sel, frame.columns, rows, normalize, fetch, keyOf);
  }

  /** The caches step 7 loads for the selection's lookups (none when the load fails). */
  function LoadedCaches(sel: MappingSelection, fetch: Triple -> LookupRows, keyOf: Value -> string): Caches {
    var loaded := LoadCaches(sel.fkLookups, TablesOf(fetch, keyOf), map[]);
    if loaded.Success? then loaded.value else map[]
  }

  /**
   * With one lookup per table column, every built record holds, in each
   * lookup's column (unless it is the generated key), the id that resolving
   * the lookup on the record's row finds in the loaded caches, the row being
   * numbered `header_row + 1 + j` as in the diagnostics.
   */
  lemma BuildResolvesLookups(sel: MappingSelection, frame: Frame, normalize: Value -> Value, fetch: Triple -> LookupRows, keyOf: Value -> string)
    requires Build(sel, frame, normalize, fetch, keyOf).result.Success? && UniqueFkTargets(sel.fkLookups)
    ensures forall j, i :: 0 <= j < |Build(sel, frame, normalize, fetch, keyOf).result.value| && 0 <= i < |sel.fkLookups|
                           && !(StripsPrimaryKey(sel) && sel.fkLookups[i].targetColumn == sel.primaryKey.value) ==>
      && sel.fkLookups[i].targetColumn in Build(sel, frame, normalize, fetch, keyOf).result.value[j]
      && Resolve(LoadedCaches(sel, fetch, keyOf), sel.fkLookups[i], KeptRows(sel, frame, normalize)[j], sel.headerRow + 1 + j, keyOf)
         == Success(Build(sel, frame, normalize, fetch, keyOf).result.value[j][sel.fkLookups[i].targetColumn])
  {
    forall j, i | 0 <= j < |Build(sel, frame, normalize, fetch, keyOf).result.value| && 0 <= i < |sel.fkLookups|
                  && !(StripsPrimaryKey(sel) && sel.fkLookups[i].targetColumn == sel.primaryKey.value)
      ensures sel.fkLookups[i].targetColumn in Build(sel, frame, normalize, fetch, keyOf).result.value[j]
      ensures Resolve(LoadedCaches(sel, fetch, keyOf), sel.fkLookups[i], KeptRows(sel, frame, normalize)[j], sel.headerRow + 1 + j, keyOf)
           == Success(Build(sel, frame, normalize, fetch, keyOf).result.value[j][sel.fkLookups[i].targetColumn])
    {
      BuildResolvesAt(sel, frame, normalize, fetch, keyOf, j, i);
    }
  }

  /** One record and one lookup of `BuildResolvesLookups`. */
  lemma BuildResolvesAt(sel: MappingSelection, frame: Frame, normalize: Value -> Value, fetch: Triple -> LookupRows, keyOf: Value -> string, j: int, i: int)
    requires Build(sel, frame, normalize, fetch, keyOf).result.Success? && UniqueFkTargets(sel.fkLookups)
    requires 0 <= j < |Build(sel, frame, normalize, fetch, keyOf).result.value| && 0 <= i < |sel.fkLookups|
    requires !(StripsPrimaryKey(sel) && sel.fkLookups[i].targetColumn == sel.primaryKey.value)
    ensures sel.fkLookups[i].targetColumn in Build(sel, frame, normalize, fetch, keyOf).result.value[j]
    ensures Resolve(LoadedCaches(sel, fetch, keyOf), sel.fkLookups[i], KeptRows(sel, frame, normalize)[j], sel.headerRow + 1 + j, keyOf)
         == Success(Build(sel, frame, normalize, fetch, keyOf).result.value[j][sel.fkLookups[i].targetColumn])
  {
    var rows := KeptRows(sel, frame, normalize);
    assert Build(sel, frame, normalize, fetch, keyOf).result == BuildFrom(sel, frame.columns, rows, normalize, fetch, keyOf);
    BuildFromResolves(sel, frame.columns, rows, normalize, fetch, keyOf, j, i);
  }

  /** Steps 2 to 8 leave a lookup's resolved id in its column on a row, unless that column is the generated key. */
  lemma BuildFromResolves(sel: MappingSelection, columns: seq<string>, rows: seq<Row>, normalize: Value -> Value, fetch: Triple -> LookupRows, keyOf: Value -> string, j: int, i: int)
    requires BuildFrom(sel, columns, rows, normalize, fetch, keyOf).Success? && UniqueFkTargets(sel.fkLookups)
    requires 0 <= j < |rows| && 0 <= i < |sel.fkLookups| && !(StripsPrimaryKey(sel) && sel.fkLookups[i].targetColumn == sel.primaryKey.value)
    ensures sel.fkLookups[i].targetColumn in BuildFrom(sel, columns, rows, normalize, fetch, keyOf).value[j]
    ensures Resolve(LoadedCaches(sel, fetch, keyOf), sel.fkLookups[i], rows[j], sel.headerRow + 1 + j, keyOf)
         == Success(BuildFrom(sel, columns, rows, normalize, fetch, keyOf).value[j][sel.fkLookups[i].targetColumn])
  {
    BuildFromSteps(sel, columns, rows, normalize, fetch, keyOf);
    var filled := AllWithDefaults(Records(rows, EffectivePairs(sel), normalize), sel.defaultValues);
    var resolved := ResolveStep(sel, rows, filled, fetch, keyOf).value;
    ResolveStepResolves(sel, rows, filled, fetch, keyOf, j, i);
    assert sel.fkLookups[i].targetColumn in resolved[j];
  }

  /** A successful step 7 with one lookup per column leaves each lookup's resolved id in its column. */
  lemma ResolveStepResolves(sel: MappingSelection, rows: seq<Row>, records: seq<Record>, fetch: Triple -> LookupRows, keyOf: Value -> string, j: int, i: int)
    requires |records| == |rows| && ResolveStep(sel, rows, records, fetch, keyOf).Success? && UniqueFkTargets(sel.fkLookups)
    requires 0 <= j < |rows| && 0 <= i < |sel.fkLookups|
    ensures sel.fkLookups[i].targetColumn in ResolveStep(sel, rows, records, fetch, keyOf).value[j]
    ensures Resolve(LoadedCaches(sel, fetch, keyOf), sel.fkLookups[i], rows[j], sel.headerRow + 1 + j, keyOf)
         == Success(ResolveStep(sel, rows, records, fetch, keyOf).value[j][sel.fkLookups[i].targetColumn])
  {
    var loaded := LoadCaches(sel.fkLookups, TablesOf(fetch, keyOf), map[]);
    assert loaded.Success?;
    var caches := loaded.value;
    assert LoadedCaches(sel, fetch, keyOf) == caches;
    var step := ResolveStep(sel, rows, records, fetch, keyOf);
    assert step == ResolveAll(caches, sel.fkLookups, rows, records, sel.headerRow + 1, keyOf);
    ResolveAllSuccess(caches, sel.fkLookups, rows, records, sel.headerRow + 1, keyOf, step.value);
    assert Resolve(caches, sel.fkLookups[i], rows[j], sel.headerRow + 1 + j, keyOf)
        == Success(step.value[j][sel.fkLookups[i].targetColumn]);
  }

  /** De-duplication keeps whole rows, so the kept rows still have every column. */
  lemma KeptRowsHaveColumns(sel: MappingSelection, frame: Frame, normalize: Value -> Value)
    requires WellFormed(frame) && DedupStep(sel, frame, normalize).Success?
    ensures RowsHaveColumns(KeptRows(sel, frame, normalize), frame.columns)
  {
    if DedupActive(sel) {
      var column := sel.duplicateCheckColumn.value;
      var normalized := NormalizeColumn(frame.rows, column, normalize);
      var kept := KeptRows(sel, frame, normalize);
      assert kept == KeepFirst(normalized, column);
      forall n, c | 0 <= n < |kept| && c in frame.columns
        ensures c in kept[n]
      {
        KeptRowIsFirst(normalized, column, n);
      }
    }
  }

  /** The pairs the build uses read columns the frame has, so they fill their table columns. */
  lemma PairsFillRecords(sel: MappingSelection, columns: seq<string>, rows: seq<Row>, normalize: Value -> Value)
    requires RowsHaveColumns(rows, columns) && MissingSheetColumns(EffectivePairs(sel), sel.fkLookups, columns) == {}
    ensures forall j, i :: 0 <= j < |rows| && 0 <= i < |EffectivePairs(sel)| ==>
      EffectivePairs(sel)[i].0 in rows[j] && EffectivePairs(sel)[i].1 in Records(rows, EffectivePairs(sel), normalize)[j]
    ensures StripsPrimaryKey(sel) ==> forall i :: 0 <= i < |EffectivePairs(sel)| ==> EffectivePairs(sel)[i].1 != sel.primaryKey.value
  {
    var pairs := EffectivePairs(sel);
    forall j, i | 0 <= j < |rows| && 0 <= i < |pairs|
      ensures pairs[i].0 in rows[j] && pairs[i].1 in Records(rows, pairs, normalize)[j]
    {
      assert pairs[i] in pairs;
      assert pairs[i].0 !in MissingSheetColumns(pairs, sel.fkLookups, columns);
    }
    if StripsPrimaryKey(sel) {
      forall i | 0 <= i < |pairs|
        ensures pairs[i].1 != sel.primaryKey.value
      {
        assert pairs[i] in pairs;
      }
    }
  }

  /** Steps 2 to 8 keep the normalised cell in each mapped column no lookup fills. */
  lemma BuildFromMapsValues(sel: MappingSelection, columns: seq<string>, rows: seq<Row>, normalize: Value -> Value, fetch: Triple -> LookupRows, keyOf: Value -> string)
    requires BuildFrom(sel, columns, rows, normalize, fetch, keyOf).Success?
    requires RowsHaveColumns(rows, columns) && UniqueTargets(EffectivePairs(sel))
    ensures forall j, i :: 0 <= j < |rows| && 0 <= i < |EffectivePairs(sel)| && EffectivePairs(sel)[i].1 !in FkTargets(sel.fkLookups) ==>
      && EffectivePairs(sel)[i].0 in rows[j]
      && EffectivePairs(sel)[i].1 in BuildFrom(sel, columns, rows, normalize, fetch, keyOf).value[j]
      && BuildFrom(sel, columns, rows, normalize, fetch, keyOf).value[j][EffectivePairs(sel)[i].1] == normalize(rows[j][EffectivePairs(sel)[i].0])
  {
    forall j, i | 0 <= j < |rows| && 0 <= i < |EffectivePairs(sel)| && EffectivePairs(sel)[i].1 !in FkTargets(sel.fkLookups) {
      BuildFromMapsValueAt(sel, columns, rows, normalize, fetch, keyOf, j, i);
    }
  }

  /** BuildFromMapsValues at one row and one pair. */
  lemma BuildFromMapsValueAt(sel: MappingSelection, columns: seq<string>, rows: seq<Row>, normalize: Value -> Value, fetch: Triple -> LookupRows, keyOf: Value -> string, j: int, i: int)
    requires BuildFrom(sel, columns, rows, normalize, fetch, keyOf).Success?
    requires RowsHaveColumns(rows, columns) && UniqueTargets(EffectivePairs(sel))
    requires 0 <= j < |rows| && 0 <= i < |EffectivePairs(sel)| && EffectivePairs(sel)[i].1 !in FkTargets(sel.fkLookups)
    ensures EffectivePairs(sel)[i].0 in rows[j]
    ensures EffectivePairs(sel)[i].1 in BuildFrom(sel, columns, rows, normalize, fetch, keyOf).value[j]
    ensures BuildFrom(sel, columns, rows, normalize, fetch, keyOf).value[j][EffectivePairs(sel)[i].1] == normalize(rows[j][EffectivePairs(sel)[i].0])
  {
    BuildFromSteps(sel, columns, rows, normalize, fetch, keyOf);
    var pairs := EffectivePairs(sel);
    var records := Records(rows, pairs, normalize);
    var filled := AllWithDefaults(records, sel.defaultValues);
    var resolved := ResolveStep(sel, rows, filled, fetch, keyOf).value;
    PairsFillRecords(sel, columns, rows, normalize);
    ResolveStepKeeps(sel, rows, filled, fetch, keyOf);
    RecordOfValueAt(rows[j], pairs, normalize, i);
    assert filled[j][pairs[i].1] == records[j][pairs[i].1];
    assert resolved[j][pairs[i].1] == filled[j][pairs[i].1];
  }

  /** Steps 2 to 8 leave every default column and every lookup column in every record, unless stripped. */
  lemma BuildFromFills(sel: MappingSelection, columns: seq<string>, rows: seq<Row>, normalize: Value -> Value, fetch: Triple -> LookupRows, keyOf: Value -> string)
    requires BuildFrom(sel, columns, rows, normalize, fetch, keyOf).Success?
    ensures forall j, i :: 0 <= j < |BuildFrom(sel, columns, rows, normalize, fetch, keyOf).value| && 0 <= i < |sel.defaultValues|
                           && !(StripsPrimaryKey(sel) && sel.defaultValues[i].0 == sel.primaryKey.value) ==>
      sel.defaultValues[i].0 in BuildFrom(sel, columns, rows, normalize, fetch, keyOf).value[j]
    ensures forall j, i :: 0 <= j < |BuildFrom(sel, columns, rows, normalize, fetch, keyOf).value| && 0 <= i < |sel.fkLookups|
                           && !(StripsPrimaryKey(sel) && sel.fkLookups[i].targetColumn == sel.primaryKey.value) ==>
      sel.fkLookups[i].targetColumn in BuildFrom(sel, columns, rows, normalize, fetch, keyOf).value[j]
    ensures RowsHaveColumns(rows, columns) ==>
      forall j, i :: 0 <= j < |BuildFrom(sel, columns, rows, normalize, fetch, keyOf).value| && 0 <= i < |EffectivePairs(sel)| ==>
        EffectivePairs(sel)[i].1 in BuildFrom(sel, columns, rows, normalize, fetch, keyOf).value[j]
  {
    BuildFromSteps(sel, columns, rows, normalize, fetch, keyOf);
    var filled := AllWithDefaults(Records(rows, EffectivePairs(sel), normalize), sel.defaultValues);
    var resolved := ResolveStep(sel, rows, filled, fetch, keyOf).value;
    var result := BuildFrom(sel, columns, rows, normalize, fetch, keyOf).value;
    var strip := StripsPrimaryKey(sel);
    ResolveStepFills(sel, rows, filled, fetch, keyOf);
    forall j, i | 0 <= j < |result| && 0 <= i < |sel.defaultValues| && !(strip && sel.defaultValues[i].0 == sel.primaryKey.value)
      ensures sel.defaultValues[i].0 in result[j]
    {
      assert sel.defaultValues[i].0 in filled[j];
      assert sel.defaultValues[i].0 in resolved[j];
    }
    forall j, i | 0 <= j < |result| && 0 <= i < |sel.fkLookups| && !(strip && sel.fkLookups[i].targetColumn == sel.primaryKey.value)
      ensures sel.fkLookups[i].targetColumn in result[j]
    {
      assert sel.fkLookups[i].targetColumn in resolved[j];
    }
    if RowsHaveColumns(rows, columns) {
      BuildFromFillsPairs(sel, columns, rows, normalize, fetch, keyOf);
    }
  }

  /** A successful build went through every step: the names the lemmas below use for them. */
  lemma BuildFromSteps(sel: MappingSelection, columns: seq<string>, rows: seq<Row>, normalize: Value -> Value, fetch: Triple -> LookupRows, keyOf: Value -> string)
    requires BuildFrom(sel, columns, rows, normalize, fetch, keyOf).Success?
    ensures MissingSheetColumns(EffectivePairs(sel), sel.fkLookups, columns) == {}
    ensures var filled := AllWithDefaults(Records(rows, EffectivePairs(sel), normalize), sel.defaultValues);
      && ResolveStep(sel, rows, filled, fetch, keyOf).Success?
      && BuildFrom(sel, columns, rows, normalize, fetch, keyOf).value
         == if StripsPrimaryKey(sel) then WithoutColumn(ResolveStep(sel, rows, filled, fetch, keyOf).value, sel.primaryKey.value)
            else ResolveStep(sel, rows, filled, fetch, keyOf).value
  {
  }

  /** On rows that have every column of the frame, every pair in use fills its table column. */
  lemma BuildFromFillsPairs(sel: MappingSelection, columns: seq<string>, rows: seq<Row>, normalize: Value -> Value, fetch: Triple -> LookupRows, keyOf: Value -> string)
    requires BuildFrom(sel, columns, rows, normalize, fetch, keyOf).Success? && RowsHaveColumns(rows, columns)
    ensures forall j, i :: 0 <= j < |BuildFrom(sel, columns, rows, normalize, fetch, keyOf).value| && 0 <= i < |EffectivePairs(sel)| ==>
      EffectivePairs(sel)[i].1 in BuildFrom(sel, columns, rows, normalize, fetch, keyOf).value[j]
  {
    BuildFromSteps(sel, columns, rows, normalize, fetch, keyOf);
    var pairs := EffectivePairs(sel);
    var records := Records(rows, pairs, normalize);
    var filled := AllWithDefaults(records, sel.defaultValues);
    var resolved := ResolveStep(sel, rows, filled, fetch, keyOf).value;
    var result := BuildFrom(sel, columns, rows, normalize, fetch, keyOf).value;
    PairsFillRecords(sel, columns, rows, normalize);
    ResolveStepFills(sel, rows, filled, fetch, keyOf);
    forall j, i | 0 <= j < |result| && 0 <= i < |pairs|
      ensures pairs[i].1 in result[j]
    {
      assert pairs[i].1 in filled[j];
      assert pairs[i].1 in resolved[j];
    }
  }

  /** A successful step 7 keeps every column of every record and fills every lookup's column. */
  lemma ResolveStepFills(sel: MappingSelection, rows: seq<Row>, records: seq<Record>, fetch: Triple -> LookupRows, keyOf: Value -> string)
    requires |records| == |rows| && ResolveStep(sel, rows, records, fetch, keyOf).Success?
    ensures forall j :: 0 <= j < |rows| ==> records[j].Keys <= ResolveStep(sel, rows, records, fetch, keyOf).value[j].Keys
    ensures forall j, i :: 0 <= j < |rows| && 0 <= i < |sel.fkLookups| ==>
      sel.fkLookups[i].targetColumn in ResolveStep(sel, rows, records, fetch, keyOf).value[j]
  {
    if sel.fkLookups != [] {
      var caches := LoadCaches(sel.fkLookups, TablesOf(fetch, keyOf), map[]).value;
      ResolveAllSuccess(caches, sel.fkLookups, rows, records, sel.headerRow + 1, keyOf, ResolveStep(sel, rows, records, fetch, keyOf).value);
    }
  }

  /** A successful step 7 changes no column that no lookup fills. */
  lemma ResolveStepKeeps(sel: MappingSelection, rows: seq<Row>, records: seq<Record>, fetch: Triple -> LookupRows, keyOf: Value -> string)
    requires |records| == |rows| && ResolveStep(sel, rows, records, fetch, keyOf).Success?
    ensures forall j, k :: 0 <= j < |rows| && k in records[j] && k !in FkTargets(sel.fkLookups) ==>
      k in ResolveStep(sel, rows, records, fetch, keyOf).value[j] && ResolveStep(sel, rows, records, fetch, keyOf).value[j][k] == records[j][k]
  {
    if sel.fkLookups != [] {
      var caches := LoadCaches(sel.fkLookups, TablesOf(fetch, keyOf), map[]).value;
      ResolveAllSuccess(caches, sel.fkLookups, rows, records, sel.headerRow + 1, keyOf, ResolveStep(sel, rows, records, fetch, keyOf).value);
    }
  }
}
