# ImportDataDB mapping engine, modelled in Dafny

ImportDataDB is a desktop tool that imports a spreadsheet range into a
database table. The user does four things:

- picks a sheet, a header row and a column window;
- pairs spreadsheet columns with table columns;
- adds default values for table columns and foreign-key lookups, each of
  which replaces a spreadsheet label by the id of the matching row in
  another table;
- optionally asks for duplicate rows to be dropped.

The main window then builds one record per spreadsheet row. It inserts or
updates those records, or exports them to a file.

This project models that engine:

- **The record builder** (`RecordBuilder`): de-duplication on a check column,
  the mapping pairs in use, the missing-column check, the records, the
  defaults, the label caches and foreign-key resolution, and the removal of
  a database-generated primary key.
- **The column-length check** that runs before a write (`Lengths`), and the
  messages both checks raise (`Messages`).
- **The execute and export paths** (`ImportFlow`).
- **The mapping editor** (`Editor`): the three tables of the window and their
  add/remove handlers, the primary-key checkbox, the table selection, the
  option lists, the default values, the required-column check and
  `_collect_mapping`.
- **The duplicate pre-check** (`PreValidation`) and its "removed" count.
- **The sheet preview's positions** (`SheetPreview`): the header row, the
  column window, selections, row labels and header promotion.
- **The "SQL estimado" example** (`SqlExample`).
- **The two mapping records' `mapped_table_columns`** (`CoreMapping`,
  `LegacyMapping`).
- **The older window's `_collect_mapping` and `_build_sql_example`**
  (`LegacyWindow`).

The shared vocabulary has its own modules:

- `Values`: cell values. Python's `str()`, Python's `==` (`NaN` equals
  nothing), the lookup key and the export normalisation.
- `Text`: `str.strip()`, `str.casefold()` (ASCII and Latin-1), `str()` of
  numbers, `join`, `split` and `sorted`.
- `OrderedDict`: Python dicts with insertion order, as `seq<(string, V)>`,
  with `d[k] = v` and `d.pop(k, None)`.
- `Schema`: table columns and their kinds.
- `Seqs`: subsequences and distinctness.

Where the source changes widget state step by step, the model is imperative:

- `Editor.MappingEditor` is a class whose fields are the window's tables and
  settings, and its methods are the handlers.
- Each loop of the source is a method proved equal to a function. The
  properties are lemmas about that function.

Spreadsheet rows are numbered as the builder numbers them: the header row
`H`, then data rows `H + 1`, `H + 2`, and so on.

## Model

| member | source | states |
|---|---|---|
| Text.Strip | src/ui/main_window.py:677 | `str.strip()` returns text with no whitespace at either end |
| Text.StripSlice | src/ui/main_window.py:677 | what `strip()` keeps is one slice of the input, with only whitespace before and after it |
| Text.StripStripped | src/ui/main_window.py:677 | text with no blank at either end is left as it is |
| Text.StripPadded | src/ui/main_window.py:677 | one blank on each side of a non-empty stripped text is all that `strip` removes |
| Text.CaseFoldAppend | src/ui/main_window.py:677 | case folding distributes over concatenation |
| Text.CaseFoldIdempotent | src/ui/main_window.py:677 | folding twice is folding once |
| Text.CaseFoldStripped | src/ui/main_window.py:677 | folding stripped text leaves it stripped |
| Text.LowerAscii | src/ui/main_window.py:810 | `.lower()` on ASCII: lowers each ASCII upper-case letter and keeps every other character, position by position (non-ASCII letters are under Left out) |
| Text.NatToText | src/ui/main_window.py:1462 | `str(n)` is non-empty and all digits, with no leading zero unless it is "0" |
| Text.NatToTextRoundTrip | src/ui/main_window.py:1462 | reading back the digits of `str(n)` gives `n` |
| Text.NatToTextInjective | src/ui/main_window.py:1462 | different row numbers are written differently |
| Text.PadLeft | src/ui/main_window.py:904 | zero padding reaches the width and keeps the digits at the right end |
| Text.SplitFirst | src/ui/main_window.py:1476 | text without the separator splits into itself, and the separator ends a part |
| Text.SplitJoin | src/ui/main_window.py:1476 | lines without a newline, joined by newlines and split again, come back unchanged |
| Text.LessIrreflexive | src/ui/main_window.py:1450 | Python's string order puts no string before itself |
| Text.LessTransitive | src/ui/main_window.py:1450 | that order is transitive |
| Text.LessTotal | src/ui/main_window.py:1450 | any two different strings are ordered one way or the other |
| Text.InsertSorted | src/ui/main_window.py:1450 | inserting into a strictly sorted list keeps it strictly sorted and adds exactly the new string |
| Text.SortedDistinct | src/ui/main_window.py:1450 | `sorted(set(xs))` is strictly increasing and holds exactly the strings of `xs` |
| Text.SortedList | src/ui/main_window.py:1410-1412 | a set listed in order is strictly increasing and holds exactly the set's strings |
| Text.SortedStrictDistinct | src/ui/main_window.py:1450 | a strictly sorted list has no repeats |
| Values.PyEqPartialEquivalence | src/ui/main_window.py:1445 | Python's `==` on cell values is symmetric and transitive (it is not reflexive, because of `NaN`) |
| Values.NormalizeLookupKey | src/ui/main_window.py:668-677 | `None` and missing values give ""; any key has no blank at either end and is its own case fold |
| Values.NormalizeLookupKeyIdempotent | src/ui/main_window.py:668-677 | normalising a key again changes nothing |
| Values.KeyOfStr | src/ui/main_window.py:677 | the key of a string is the case fold of its stripped text |
| Values.CaseVariantsShareKey | src/ui/main_window.py:668-677 | two stripped labels that fold alike share a key, even with a blank on each side of one (" brazil " and "Brazil") |
| Values.NormalizeValueForExport | src/ui/main_window.py:1518-1523 | booleans become "true"/"false", dates their ISO text, everything else passes unchanged; the result is never a boolean or a date |
| OrderedDict.Get | src/ui/main_window.py:1442 | `d.get(k)` is None exactly when `k` is not a key; otherwise it is the value of an entry for `k` |
| OrderedDict.GetAt | src/ui/main_window.py:1442 | with distinct keys, `get` finds the value of the entry at each position |
| OrderedDict.Put | src/ui/main_window.py:932 | after `d[k] = v`, `k` reads `v` and every other key is unchanged; an existing key keeps its place, a new key goes last |
| OrderedDict.Pop | src/ui/main_window.py:1150 | after `d.pop(k, None)`, `k` is gone, every other key is unchanged and in order, and the size drops by one exactly when `k` was present |
| OrderedDict.HasKeyInKeys | src/ui/main_window.py:1136 | a key is present exactly when it is among `d.keys()` |
| Schema.KindOf | src/ui/main_window.py:807-815 | no column gives text; a lower-cased type containing "bool" gives bool; otherwise "date" or "time" gives date; anything else gives text |
| Schema.BoolCheckedFirst | src/ui/main_window.py:810-813 | a type naming both "bool" and "time" is a boolean column |
| Schema.FirstNamed | src/ui/main_window.py:817-821 | None exactly when no column has the name; otherwise a schema column with that name |
| Schema.FirstNamedAt | src/ui/main_window.py:817-821 | the result is the first column with that name |
| Schema.FindColumnInfo | src/ui/main_window.py:817-821 | the scanning loop returns the first column with the name, or None |
| Schema.ReadDefaultInput | src/ui/main_window.py:895-906 | a bool column stores the combo's boolean; a date column stores the chosen date and shows its ISO text; any other column stores and shows the line text |
| Schema.ReadDefaultInputShowsExportText | src/ui/main_window.py:895-906 | the text shown for a default is `str()` of the value as the export writes it |
| Schema.MappedNames | src/core/mapping.py:25-30 | the result holds only, and every, schema column named among the targets, each as many times as the schema has columns of that name; it is never longer than the schema; no targets give none |
| Schema.MappedNamesInSchemaOrder | src/core/mapping.py:26-29 | the result follows schema order |
| Schema.CollectMappedNames | importdatadb/core/mapping.py:20-25 | the loop of `mapped_table_columns` computes exactly those names |
| CoreMapping.MappingSelection.MappedTableColumns | src/core/mapping.py:25-30 | the schema columns, in schema order, that some mapping pair targets; never more names than schema columns; none without pairs |
| CoreMapping.PairTargetsMembers | src/ui/main_window.py:1135 | a column is among the mapping targets exactly when some pair maps into it |
| LegacyMapping.MappingSelection.MappedTableColumns | importdatadb/core/mapping.py:20-25 | the schema columns, in schema order, that are values of the mapping dictionary; none for an empty dictionary |
| RecordBuilder.KeepFirstSameKeys | src/ui/main_window.py:1403 | `drop_duplicates` loses no check-column value and invents none |
| RecordBuilder.KeepFirstDistinct | src/ui/main_window.py:1403 | the kept rows have pairwise different check-column values |
| RecordBuilder.KeptRowsAreFirsts | src/ui/main_window.py:1403 | every kept row is the first row carrying its value (`keep="first"`) |
| RecordBuilder.FirstRowsAreKept | src/ui/main_window.py:1403 | every row that is first for its value is kept |
| RecordBuilder.KeepFirstInOrder | src/ui/main_window.py:1403-1404 | the kept rows are a subsequence of the rows, in sheet order |
| RecordBuilder.KeepFirstIdempotent | src/ui/main_window.py:1403 | de-duplicating again removes nothing |
| RecordBuilder.KeepFirstOfDistinct | src/ui/main_window.py:1403 | rows with distinct values are all kept |
| RecordBuilder.DedupStep | src/ui/main_window.py:1394-1405 | without an enabled, named check column the rows pass with no counts; a check column missing from the frame is an error naming it; otherwise the first row of each normalised value is kept, with the (read, kept) counts |
| RecordBuilder.DropDuplicates | src/ui/main_window.py:1403 | the loop keeps exactly the first row of each check-column value |
| RecordBuilder.PairsNotTargeting | src/ui/main_window.py:1406-1408 | exactly the pairs that do not target the generated key, in their order |
| RecordBuilder.MissingSheetColumns | src/ui/main_window.py:1409-1412 | exactly the sources of the pairs in use and the lookup columns that the frame lacks |
| RecordBuilder.RecordOf | src/ui/main_window.py:1416-1420 | a record has exactly the target columns of the pairs whose spreadsheet column the row has |
| RecordBuilder.RecordOfValues | src/ui/main_window.py:1417-1419 | with distinct targets, each target holds its own pair's normalised cell |
| RecordBuilder.BuildRecords | src/ui/main_window.py:1414-1420 | the loop builds one record per row, pair by pair |
| RecordBuilder.WithDefaults | src/ui/main_window.py:1424-1426 | `setdefault` changes no existing value, makes every default column present and adds nothing else |
| RecordBuilder.WithDefaultsValue | src/ui/main_window.py:1426 | a column the mapping left unfilled holds its default value |
| RecordBuilder.ApplyDefaults | src/ui/main_window.py:1422-1426 | the loop gives each record its defaults |
| RecordBuilder.CacheOf | src/ui/main_window.py:1434-1446 | the cache has exactly the non-blank normalised labels as keys |
| RecordBuilder.CacheOfMatchesReference | src/ui/main_window.py:1434-1446 | for every key, the cache holds the first id that is not None; the conflicts recorded are exactly the labels of the conflicting entries, in order |
| RecordBuilder.ConflictWitness | src/ui/main_window.py:1442-1446 | a conflict always has an earlier entry with the same key and a different id that is not None |
| RecordBuilder.NoConflictsIff | src/ui/main_window.py:1447 | a table is refused exactly when some entry conflicts |
| RecordBuilder.LoadLabelCache | src/ui/main_window.py:1434-1446 | the loop over a lookup table's rows builds that cache |
| RecordBuilder.LoadCachesSucceedsIff | src/ui/main_window.py:1430-1452 | loading succeeds exactly when no lookup's table has conflicting labels |
| RecordBuilder.LoadCachesContents | src/ui/main_window.py:1430-1452 | a successful load holds, for every lookup, the cache of its own table |
| RecordBuilder.LoadCachesFailure | src/ui/main_window.py:1447-1451 | a failed load reports the first lookup whose table conflicts, with its sorted labels |
| RecordBuilder.LoadAllCaches | src/ui/main_window.py:1430-1452 | the loop fetches each (table, id, label) triple once and stops at the first conflict |
| RecordBuilder.ResolveOutcome | src/ui/main_window.py:1458-1474 | a resolved id is never None; a failure names the row and the target column; it is an empty-source failure exactly when the key is blank, and otherwise names the raw cell and the lookup table |
| RecordBuilder.ResolvedRecordKeys | src/ui/main_window.py:1474 | resolution adds exactly the target columns of the lookups that resolve |
| RecordBuilder.ResolvedRecordUntouched | src/ui/main_window.py:1474 | a column no lookup targets keeps its value |
| RecordBuilder.ResolvedRecordValues | src/ui/main_window.py:1474 | with one lookup per target column, each resolved id ends up in its column |
| RecordBuilder.RowCleanIff | src/ui/main_window.py:1457-1474 | a row yields no diagnostic exactly when every lookup resolves on it |
| RecordBuilder.DiagnosticsRows | src/ui/main_window.py:1454-1456 | diagnostics number the rows from the header row plus one |
| RecordBuilder.DiagnosticsInRowOrder | src/ui/main_window.py:1455-1472 | diagnostics come in spreadsheet-row order |
| RecordBuilder.DiagnosticsCleanIff | src/ui/main_window.py:1475 | there is no diagnostic exactly when every lookup resolves on every row |
| RecordBuilder.ResolveAllFailure | src/ui/main_window.py:1475-1480 | resolution fails exactly when some lookup fails on some row; the failure lists the diagnostics in row order, each naming a row of the selection |
| RecordBuilder.ResolveAllSuccess | src/ui/main_window.py:1453-1474 | after success, every record keeps the columns and values no lookup targets, and every lookup fills its column on every row (with the resolved id when targets are distinct) |
| RecordBuilder.ResolveRowLookups | src/ui/main_window.py:1457-1474 | the inner loop writes each resolved id and collects each failure of a row |
| RecordBuilder.ResolveLookups | src/ui/main_window.py:1453-1474 | the row loop resolves every record and collects every diagnostic |
| RecordBuilder.ResolveNextRow | src/ui/main_window.py:1455-1474 | one pass of the row loop extends the resolved records and the diagnostics by the next row's |
| RecordBuilder.ResolveWithCaches | src/ui/main_window.py:1453-1480 | with the caches loaded, the diagnostics of every row when there are any, else the resolved records |
| RecordBuilder.WithoutColumn | src/ui/main_window.py:1483-1484 | the generated key leaves every record; all other fields keep their values |
| RecordBuilder.ResolveStep | src/ui/main_window.py:1429 | without lookups the records pass unchanged |
| RecordBuilder.RunResolveStep | src/ui/main_window.py:1428-1480 | the resolution step loads the caches, then resolves, then fails on any diagnostic |
| RecordBuilder.BuildRecordsForSelection | src/ui/main_window.py:1384-1485 | the build runs steps in the source's order; the de-duplication counts stay even when a later step fails |
| RecordBuilder.Build | src/ui/main_window.py:1384-1485 | a successful build has one record per kept row; without de-duplication one per row read and no duplicate counts; with it, the counts are the rows read and the records built |
| RecordBuilder.BuildOmitsGeneratedKey | src/ui/main_window.py:1483-1484 | a database-generated primary key is in no record |
| RecordBuilder.BuildFillsColumns | src/ui/main_window.py:1409-1474 | every record has every default column and every lookup's column, except a stripped generated key; on a frame whose rows hold every frame column, every record also has every mapped table column |
| RecordBuilder.BuildMapsValues | src/ui/main_window.py:1414-1420 | on such a frame, with one pair per table column, a mapped column no lookup fills holds the normalised cell of its pair in the kept row the record comes from |
| RecordBuilder.BuildResolvesLookups | src/ui/main_window.py:1452-1474 | with one lookup per table column, every built record holds in each lookup's column (unless it is the generated key) the id that resolving the lookup on its kept row, numbered `header_row + 1 + j`, finds in the loaded caches |
| Messages.Summarize | src/ui/main_window.py:1476-1479 | the first five occurrences in order, then, when there are more, "...mais N" with N counting the rest |
| Messages.ReportLines | src/ui/main_window.py:1476-1480 | a report splits back into its title and exactly the summarized lines |
| Messages.DiagnosticText | src/ui/main_window.py:1459-1472 | the whole line: it starts with its row number and ends with the target it would fill; an empty cell names the sheet column; a missing label quotes `str` of the value and names the lookup table and label column as `table.label`; nothing else lies between |
| Messages.BuildErrorMessage | src/ui/main_window.py:1395-1480 | each build error has its own text: the missing check column, the missing sheet columns in sorted order, the table, label column and duplicate labels, or the FK report title |
| Lengths.LastLimited | src/ui/main_window.py:1300 | the last column of a name that declares a maximum, or none, with no later one |
| Lengths.Limits | src/ui/main_window.py:1300 | the limits dictionary has each column name at most once |
| Lengths.LimitsLastWins | src/ui/main_window.py:1300 | a name has a limit exactly when a column so named declares a non-zero maximum; the last such column gives it |
| Lengths.RecordViolationFacts | src/ui/main_window.py:1306-1315 | each violation of a record carries its row, one of the limits, a present non-None value over it and that value's `str()` |
| Lengths.RecordViolationPresent | src/ui/main_window.py:1306-1315 | every limit a value exceeds gives a violation |
| Lengths.ViolationSource | src/ui/main_window.py:1305-1315 | a violation belongs to the record its row number names |
| Lengths.ViolationPresent | src/ui/main_window.py:1305-1315 | a violation of any record is reported |
| Lengths.ReportedIsTooLong | src/ui/main_window.py:1303-1315 | a reported value exceeds the limit of its column |
| Lengths.TooLongIsReported | src/ui/main_window.py:1303-1315 | a value over its column's limit is reported with its row, the limit and its text |
| Lengths.ViolationsIff | src/ui/main_window.py:1305-1315 | with distinct limits, a value is reported exactly when it is over its column's limit |
| Lengths.CheckLengthsIff | src/ui/main_window.py:1299-1315 | a value is reported exactly when the last schema column of its name with a non-zero maximum exists and the value is over it |
| Lengths.ViolationsInRowOrder | src/ui/main_window.py:1305-1315 | reports come in record order and name rows of the selection only |
| Lengths.BuildLimits | src/ui/main_window.py:1300 | the loop assigns each limited column's maximum in schema order |
| Lengths.RecordTooLong | src/ui/main_window.py:1306-1315 | the inner loop checks one record against every limit, in order |
| Lengths.ValidateRecordLengths | src/ui/main_window.py:1299-1315 | the check returns nothing without limits; otherwise every violation, record by record |
| Lengths.CheckNextRecord | src/ui/main_window.py:1305-1315 | one pass of the record loop appends the violations of the next record |
| Lengths.Preview | src/ui/main_window.py:1319 | values of at most 40 characters are shown whole; longer ones show their first 37 characters and "..." |
| Lengths.ViolationText | src/ui/main_window.py:1318-1322 | the whole line: row, column and the text's length, then the limit, "caracteres" and the preview of the value, with nothing else between |
| Lengths.LengthsMessage | src/ui/main_window.py:1317-1326 | the error starts with its title and a colon |
| ImportFlow.ExportRecord | src/ui/main_window.py:1496-1498 | an exported record has the same columns, each value normalised for export |
| ImportFlow.Execute | src/ui/main_window.py:1328-1351 | a failed build shows its error and an over-long value the length report; otherwise INSERT inserts the built records into the selected table with the key settings, and UPDATE updates them on a truthy join column or only warns without one; the database never receives anything else |
| ImportFlow.Export | src/ui/main_window.py:1487-1498 | a failed build shows its error; an empty build only informs; a non-empty build is exported as `ExportRecords` of the built records, one row per record with the same columns and no boolean or date left |
| ImportFlow.ExportSkipsLengthCheck | src/ui/main_window.py:1492-1498 | records with an over-long value are refused by execute but still written by export |
| ImportFlow.BuildFailureStopsBoth | src/ui/main_window.py:1333 | a failed build ends execute and export with the same message |
| SqlExample.Placeholders | src/ui/main_window.py:1293 | one `:c` per column, in the same order |
| SqlExample.SetColumns | src/ui/main_window.py:1296 | exactly the columns other than the join column, in order |
| SqlExample.SetColumnsCount | src/ui/main_window.py:1296 | with distinct columns, the SET clause has one column fewer exactly when the join column is listed |
| SqlExample.Assignments | src/ui/main_window.py:1296 | each column gives `c = :c`, in order |
| SqlExample.AddNew | src/ui/main_window.py:1276-1291 | one column pass keeps what was listed first, lists a column that is listed or offered and not skipped, and never lists one twice |
| SqlExample.ExampleColumns | src/ui/main_window.py:1275-1291 | the example lists each written column exactly once and never a generated key |
| SqlExample.ExampleColumnsContents | src/ui/main_window.py:1275-1291 | mapping targets come first, then default columns, then lookup targets |
| SqlExample.InsertStatement | src/ui/main_window.py:1292-1294 | the whole INSERT text: the column list, then one placeholder per column in the same order, nothing else between |
| SqlExample.UpdateStatement | src/ui/main_window.py:1295-1297 | the whole UPDATE text: it assigns the columns other than the join column, then the WHERE test on the join column, nothing else between |
| SqlExample.AppendNew | src/ui/main_window.py:1276-1291 | the loop performs one column pass |
| SqlExample.BuildSqlExample | src/ui/main_window.py:1274-1297 | INSERT lists the example columns with their placeholders; UPDATE sets them and tests the join column |
| PreValidation.DuplicateStats | src/ui/main_window.py:1190-1206 | no sheet and a missing column are errors; otherwise the total is the rows read and the unique count never exceeds it |
| PreValidation.KeepFirstKeepsAllIff | src/ui/main_window.py:1204-1205 | `drop_duplicates` keeps every row exactly when the values are distinct |
| PreValidation.NothingToRemoveIff | src/ui/main_window.py:1190-1206 | the counts are equal exactly when the normalised values are all different |
| PreValidation.StatsMatchBuild | src/ui/main_window.py:1190-1206 | the pre-check gives the same (total, unique) counts the build records |
| PreValidation.RemovedCount | src/ui/main_window.py:1012 | `max(total - unique, 0)` is never negative, adds up with the unique count to the total, and is 0 when unique exceeds total |
| PreValidation.RemovedIsDropped | src/ui/main_window.py:1614 | for counts the check produced, the predicted number is the number of rows dropped |
| SheetPreview.CurrentHeaderExcelRow | src/ui/main_window.py:651-657 | the header row is the spin value, raised to 1 when below |
| SheetPreview.SpinValue | src/ui/main_window.py:151-164 | `setValue` on spin boxes given only a minimum: the value is clamped to the minimum and Qt's default maximum of 99, and kept when it lies between |
| SheetPreview.ColumnWindowOf | src/ui/main_window.py:517-521 | a zero end, or an end before the start, reads to the last column and resets the end spin to 0; otherwise the window is the two spins |
| SheetPreview.ColumnWindowStable | src/ui/main_window.py:517-521 | refreshing with the spin boxes as reset reads the same window |
| SheetPreview.SelectionToRange | src/ui/main_window.py:594-605 | nothing changes without a selection; otherwise the start spin takes the leftmost and the end spin the rightmost selected column, offset by the start column, each clamped by its spin box (1..99, 0..99) |
| SheetPreview.SelectedWindowKept | src/ui/main_window.py:598-604 | a window chosen by selection is not reset by the next refresh |
| SheetPreview.ParseIntOfText | src/ui/main_window.py:614 | `int(str(i))` is `i` |
| SheetPreview.SelectionToHeader | src/ui/main_window.py:607-622 | nothing changes without a selection; otherwise the new header is between 1 and the spin box's 99 (`SelectionHeaderIsTopRow` says which row) |
| SheetPreview.SelectionHeaderIsTopRow | src/ui/main_window.py:611-621 | for any table, the header spin takes the number shown beside the top selected row, or the first data row plus its offset when that label is not a number, clamped to 1..99 |
| SheetPreview.Populate | src/ui/main_window.py:562-580 | the table records the header row, data from the next row, and labels row `i` with the header plus one plus `i` |
| SheetPreview.RefreshAsWritten | src/ui/main_window.py:531-533 | as written, the table's header is `H + 1` and its rows are labelled from `H + 2` |
| SheetPreview.Refresh | src/ui/main_window.py:562-580 | with the header passed on, the rows are labelled from `H + 1`, as the record builder numbers them |
| SheetPreview.RefreshAsWrittenSkipsARow | src/ui/main_window.py:531-533 | as written, the first preview row under header `H` is labelled `H + 2`, and choosing it makes `H + 2` the header (99 at most) |
| SheetPreview.SelectedRowBecomesHeader | src/ui/main_window.py:607-622 | with the header passed on, choosing a preview row makes that row the header, as far as the spin box's 99 allows |
| SheetPreview.CellText | src/ui/main_window.py:548 | a cell gives no text exactly when it is None |
| SheetPreview.NonBlankListed | src/ui/main_window.py:548 | every present, non-blank text of the first row is a candidate |
| SheetPreview.NonBlankSource | src/ui/main_window.py:548 | every candidate is a present, non-blank text of the first row |
| SheetPreview.PromotionWhenOffered | src/ui/main_window.py:541-558 | placeholder columns with a first-row cell that offers a name move the header spin down one row, or leave it at 99 |
| SheetPreview.Promotion | src/ui/main_window.py:541-558 | a promotion sets the header spin to the next row, clamped to the spin box's 1..99 |
| SheetPreview.PromotionOffered | src/ui/main_window.py:541-556 | promotion happens only with columns and rows, placeholder columns and a first-row cell that offers a name |
| SheetPreview.PromotionIff | src/ui/main_window.py:541-558 | promotion happens exactly when there are columns and rows, every column is a placeholder and some first-row cell offers a real name; the header spin moves down by one, or stays at 99 |
| SheetPreview.CompactColumnsText | src/ui/main_window.py:955-961 | "--" for no columns; all of them up to the limit; else the first `limit` and "+N" counting the others |
| Editor.KeptFromSource | src/ui/main_window.py:768-770 | every row left after removal was there at an unselected index |
| Editor.KeptFromHas | src/ui/main_window.py:768-770 | every unselected row is left |
| Editor.KeptFromNothing | src/ui/main_window.py:768-770 | nothing selected, nothing removed |
| Editor.KeptFromDistinct | src/ui/main_window.py:768-770 | removing rows from a list without repeats leaves one without repeats |
| Editor.PairTargetsKept | src/ui/main_window.py:1105-1107 | the targets after removing mapping rows are the targets of the rows left |
| Editor.DefaultColumnsKept | src/ui/main_window.py:889-891 | the default columns after removal are those of the rows left |
| Editor.FkTargetsKept | src/ui/main_window.py:768-770 | the lookup targets after removal are those of the rows left |
| Editor.RemoveRows | src/ui/main_window.py:768-770 | removing the selected rows from the highest index down leaves exactly the unselected rows, in order |
| Editor.AddMappingKeepsDistinct | src/ui/main_window.py:1085-1092 | a pair for an unused table column keeps every column filled at most once |
| Editor.AddDefaultKeepsDistinct | src/ui/main_window.py:868-880 | a default for an unused column keeps every column filled at most once |
| Editor.AddLookupKeepsDistinct | src/ui/main_window.py:750-759 | a lookup for an unused column keeps every column filled at most once |
| Editor.RemoveKeepsDistinct | src/ui/main_window.py:764-773 | removing rows of any table keeps every column filled at most once |
| Editor.PrimaryKeyOfFirst | src/ui/main_window.py:1053-1057 | the primary key is the first primary-key column with a non-empty name |
| Editor.PrimaryKeyOf | src/ui/main_window.py:1053-1057 | there is no key exactly when no column is a primary key; a key is the name of a primary-key column |
| Editor.PrimaryKeyUnnamed | src/ui/main_window.py:1053-1057 | without a named key column the key is not truthy |
| Editor.FindPrimaryKey | src/ui/main_window.py:1052-1057 | the loop settles on that key |
| Editor.Available | src/ui/main_window.py:693 | exactly the schema columns not blocked, in schema order |
| Editor.LookupTargetOptions | src/ui/main_window.py:687-701 | the lookup-target list offers, in schema order, exactly the schema columns no pair, default or lookup fills, other than a generated key |
| Editor.DefaultColumnOptionsAsWritten | src/ui/main_window.py:823-847 | the default-column list offers, in schema order, exactly the schema columns no pair or default fills, other than a generated key; lookup targets are not blocked |
| Editor.OptionsMatchGuard | src/ui/main_window.py:687-701 | a lookup target is offered exactly when it is a schema column the add guard accepts and not a generated key; the corrected default list is the same list, in schema order |
| Editor.DefaultOptionsOfferLookupTarget | src/ui/main_window.py:823-830 | as written, a column a lookup fills is still offered for a default, and the default handler then rejects it |
| Editor.DefaultsDict | src/ui/main_window.py:924-933 | the collected defaults have each column at most once |
| Editor.DefaultsLastWins | src/ui/main_window.py:924-933 | a later row for a column wins, with its stored value or else its text; a column without rows has no entry |
| Editor.DefaultsKeysInOrder | src/ui/main_window.py:924-933 | with one row per column, the keys are the rows' columns in table order |
| Editor.CollectDefaultValues | src/ui/main_window.py:924-933 | the loop collects exactly those defaults |
| Editor.MissingRequired | src/ui/main_window.py:935-953 | never more names than columns |
| Editor.MissingRequiredIff | src/ui/main_window.py:935-953 | a name is reported exactly when some not-nullable column of that name, other than a generated key, is filled by nothing |
| Editor.MissingRequiredInSchemaOrder | src/ui/main_window.py:946-953 | the report follows schema order |
| Editor.MissingRequiredColumns | src/ui/main_window.py:946-953 | the loop computes that report |
| Editor.Collected | src/ui/main_window.py:1120-1180 | no sheet or table gives the first warning; a collected selection carries the chosen sheet and table and the tables as they are; the key is generated exactly when the box is on, there is a key and no pair fills it, and then no default holds it; UPDATE has a join column and INSERT none; a non-empty join column is filled; something is filled; the header row is at least 1; de-duplication is on exactly when asked for with a check column |
| Editor.CollectedSelection | src/ui/main_window.py:1154-1161 | every required column of the schema is filled in a collected selection |
| Editor.CollectedTargetsDistinct | src/ui/main_window.py:1126-1150 | when the tables fill no column twice, the selection's pairs, defaults and lookups have distinct targets and fill no column twice, as the record builder needs |
| Editor.CollectError.Message | src/ui/main_window.py:1124-1161 | each refusal shows its warning text; the required-columns warning ends with the missing columns joined by ", " |
| Editor.CollectedReportsMissing | src/ui/main_window.py:1154-1161 | an unfilled required column refuses the selection and is named in the message |
| Editor.CollectedPastJoin | src/ui/main_window.py:1144-1161 | past the join test, the outcome depends only on the defaults less the generated key |
| Editor.KeptLeavesNoKeyRow | src/ui/main_window.py:1113-1116 | dropping the rows for a column leaves none for it |
| Editor.MappingEditor.constructor | src/ui/main_window.py:56-62 | a new window has no table, no rows, no key and no pre-validation |
| Editor.MappingEditor.AddMapping | src/ui/main_window.py:1080-1099 | without both selections nothing happens; a used table column is rejected with the warning; otherwise the pair is appended; other tables never change and no column is filled twice |
| Editor.MappingEditor.AddDefaultValue | src/ui/main_window.py:864-883 | no column, nothing; a used column is rejected; otherwise a row with the editor's value and text is appended |
| Editor.MappingEditor.AddFkLookup | src/ui/main_window.py:741-762 | an incomplete form is rejected first, a used target next; otherwise the lookup is appended |
| Editor.MappingEditor.RemoveMappings | src/ui/main_window.py:1101-1109 | exactly the selected mapping rows go, the rest stay in order |
| Editor.MappingEditor.RemoveDefaultValues | src/ui/main_window.py:885-893 | exactly the selected default rows go |
| Editor.MappingEditor.RemoveFkLookups | src/ui/main_window.py:764-773 | exactly the selected lookup rows go |
| Editor.MappingEditor.TogglePkAuto | src/ui/main_window.py:1111-1118 | switching on with a key drops exactly the default rows for the key, keeping the others in order; otherwise nothing but the box changes |
| Editor.MappingEditor.SelectTable | src/ui/main_window.py:1041-1078 | without a selected table nothing changes; otherwise the new schema, empty tables, the schema's key and the box off |
| Editor.MappingEditor.ResetForTable | src/ui/main_window.py:1045-1066 | the state for the new table's columns: empty tables, the schema's key, the box off |
| Editor.MappingEditor.ClearPreValidation | src/ui/main_window.py:995-999 | the pre-validation state is cleared and nothing else changes |
| Editor.MappingEditor.AcceptPreValidation | src/ui/main_window.py:1225-1229 | the accepted dialog leaves a column and counts only when removal is on |
| Editor.MappingEditor.KeepBuildCounts | src/ui/main_window.py:1405 | a de-duplicating build stores its (read, kept) counts, `RecordBuilder.Build`'s `dedupStats`; any other build leaves them, and nothing else changes |
| Editor.MappingEditor.Collect | src/ui/main_window.py:1120-1180 | `_collect_mapping` on the editor's state, changing none of it |
| Editor.CollectChecks | src/ui/main_window.py:1134-1150 | the join test, then the generated key leaves the defaults |
| Editor.CollectCoverage | src/ui/main_window.py:1151-1180 | the emptiness and required-column tests, then the selection |
| LegacyWindow.MappingDict | importdatadb/ui/main_window.py:298-303 | the mapping dictionary has each spreadsheet column at most once |
| LegacyWindow.MappingDictSize | importdatadb/ui/main_window.py:298-306 | the dictionary is empty exactly when the table is, and has at most one entry per row |
| LegacyWindow.MappingLastWins | importdatadb/ui/main_window.py:303 | a later row for a spreadsheet column replaces the earlier target; a column without rows is not a key |
| LegacyWindow.MappingKeysFirstSeen | importdatadb/ui/main_window.py:298-303 | the keys are the spreadsheet columns in order of their first row |
| LegacyWindow.LastRowTargetKept | importdatadb/ui/main_window.py:303 | the row last for its column gives its target to the dictionary |
| LegacyWindow.EntryFromLastRow | importdatadb/ui/main_window.py:303 | each entry holds the target of the last row for its key |
| LegacyWindow.MappingValuesAreLastTargets | importdatadb/ui/main_window.py:303 | the values are exactly the targets of rows that are last for their column |
| LegacyWindow.LegacyCollected | importdatadb/ui/main_window.py:292-316 | a selection carries the chosen sheet and table and the dictionary; the header row is the spin minus one, the start row is the start spin, a zero end spin gives no end row, and the join column is set only for UPDATE |
| LegacyWindow.LegacyCollectedFields | importdatadb/ui/main_window.py:292-306 | a selection exists exactly when a sheet, a table and a row exist; an empty table gives the "no mapping" warning |
| LegacyWindow.FillMapping | importdatadb/ui/main_window.py:298-303 | the loop builds the dictionary |
| LegacyWindow.CollectMapping | importdatadb/ui/main_window.py:292-316 | `_collect_mapping` of the legacy window |
| LegacyWindow.LegacySqlExample | importdatadb/ui/main_window.py:335-342 | INSERT names the dictionary's values in mapping order; UPDATE ends with the WHERE test on the join column |
| LegacyWindow.LegacyInsertListsValues | importdatadb/ui/main_window.py:336-339 | the INSERT names every dictionary value in order, each with `:c` at the same position |
| LegacyWindow.LegacyUpdateSetsAllButJoin | importdatadb/ui/main_window.py:340-342 | the UPDATE sets exactly the values other than the join column, in order, and tests the join column |

## Left out

- Reading the spreadsheet (`_read_dataframe`, `load_sheet_preview`) and `_normalize_cell`: the frame and the sample are inputs, and the cell normalisation is a function parameter.
- The database: `get_columns` gives the schema passed to `SelectTable`; `fetch_lookup_values` is a function parameter; `execute_insert` and `execute_update` become the `Inserted`/`Updated` outcomes.
- The affected-row count and `_reset_after_execute` are not modelled.
- The lookup key in `RecordBuilder` is a parameter `keyOf`. The window passes `Values.NormalizeLookupKey`, as `ImportFlow.WindowBuild` shows.
- Records are maps, so the column order inside one record is not modelled.
- `drop_duplicates` compares values the way pandas hashes them: missing values are equal to each other, and `True`/`False` equal 1/0. Floating-point cells are not modelled.
- File dialogs, message boxes, tooltips, combo labels and signal blocking are not modelled.
- `_show_error` and its traceback are not modelled.
- `_refresh_required_columns_hint` and `_refresh_pre_validation_hint` only set label text, so they are left out; their "removed" count is `PreValidation.RemovedCount`.
- `Values.Value` has no `datetime`, `pd.Timestamp` or `NaT` constructor, so cells with a time of day are not modelled. In the source, `isinstance(value, date)` at src/ui/main_window.py:1520 also holds for a `datetime` or a `Timestamp`, and its `isoformat()` text carries a time part. `str(NaT)` is "NaT", whereas the model's missing value always reads "nan" (`Values.ToText`). `Values.NormalizeValueForExport` therefore covers plain dates only, and the length check and the diagnostics see "nan" for every missing cell.
- `Text.CaseFold` folds ASCII and Latin-1 only; other Unicode folding is not modelled.
- Text.LowerAscii: lowers A-Z only. Python's `str.lower()` at src/ui/main_window.py:810 also lowers non-ASCII letters ('É' to 'é'). This does not change `Schema.KindOf`: outside A-Z only U+0130 and U+212A lower into ASCII letters, and neither can form "bool", "date" or "time".
- `SheetPreview.ParseInt` accepts an optional '-' and decimal digits only; Python's `int()` also accepts blanks, '+' and '_'.
- The promotion's retry through `_refresh_sheet_preview` is not modelled. Its guard at src/ui/main_window.py:555 never fires, and the re-run preview is new input.
- The side effect of `_current_header_excel_row` writing the clamped value back into the spin box is not modelled.
- `_collect_fk_lookups` and the other readers of the widget tables assume every table item is present. The handlers always set every item, so the tables are modelled as lists of complete rows.
- Messages.BuildErrorMessage: the missing-spreadsheet-columns error walks a Python set, whose order is not defined. The model keeps the set in the error and lists it in sorted order in the message.
- src/core/mapping.py declares `column_mapping` as a dictionary. The window passes a list of pairs and fields the record does not declare. The model's `CoreMapping.MappingSelection` follows what the window builds, and `mapped_table_columns` reads the pairs' targets.
- The older window's `_add_mapping`, `_generate_preview` and `_execute` are not part of this model.
- `Editor.MappingEditor`'s add and remove handlers refresh the option lists. The lists are derived values (`Editor.LookupTargetOptions` and, for the default-value list the window builds, `Editor.DefaultColumnOptionsAsWritten`) and are not stored.

## Findings

| source | as written | input that shows it | evidently intended | confidence | as-written member | corrected member |
|---|---|---|---|---|---|---|
| src/ui/main_window.py:823-847 | the default-column list blocks mapped and defaulted columns but not lookup targets, while `_add_default_value` (868-874) rejects lookup targets | a table column `x` filled by a lookup and neither mapped nor defaulted: `x` is offered, and adding it shows the "already used" warning | block lookup targets too, as `_refresh_fk_target_options` (687-701) does | medium, not executed | Editor.DefaultOptionsOfferLookupTarget | Editor.OptionsMatchGuard |
| src/ui/main_window.py:531-533 | `_refresh_sheet_preview` passes `header + 1` to `_populate_sheet_preview`, whose parameter is the header row, so row labels start at `header + 2` | header 1 with one sample row: the row the builder calls 2 is labelled 3, and "use as header" then sets the header to 3 | pass the header row, so labels start at `header + 1` | high, not executed | SheetPreview.RefreshAsWrittenSkipsARow | SheetPreview.SelectedRowBecomesHeader |
