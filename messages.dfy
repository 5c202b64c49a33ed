/**
 * The texts of the errors the record builder raises. Reports that list
 * occurrences (unresolved lookups, over-long values) show at most five of
 * them and then one line counting the rest.
 */
module Messages {
  import opened Text
  import opened Values
  import opened RecordBuilder

  /** How many occurrences a report lists before it only counts the rest. */
  const Shown := 5

  /**
   * The lines of a report: the first five occurrences, in order, and, when
   * there are more, "...mais N" followed by `suffix`, N counting the rest.
   */
  function Summarize(details: seq<string>, suffix: string): (lines: seq<string>)
    ensures |details| <= Shown ==> lines == details
    ensures |details| > Shown ==> |lines| == Shown + 1
    ensures forall i :: 0 <= i < |details| && i < Shown ==> lines[i] == details[i]
    ensures |details| > Shown ==> lines[Shown] == "...mais " + IntToText(|details| - Shown) + suffix
  {
    var head := if |details| <= Shown then details else details[..Shown];
    var remaining := |details| - |head|;
    if remaining > 0 then head + ["...mais " + IntToText(remaining) + suffix] else head
  }

  /** A report: the title line, then its lines, separated by newlines. */
  function Report(title: string, details: seq<string>, suffix: string): (r: string)
    ensures StartsWith(r, title + ":\n")
  {
    AppendParts(title + ":\n", Join(Summarize(details, suffix), "\n"));
    title + ":\n" + Join(Summarize(details, suffix), "\n")
  }

  /**
   * A report whose title and occurrences are single lines reads back, line
   * by line, as the title followed by exactly the summarized lines.
   */
  lemma ReportLines(title: string, details: seq<string>, suffix: string)
    requires |details| > 0
    requires '\n' !in title && '\n' !in suffix
    requires forall i :: 0 <= i < |details| ==> '\n' !in details[i]
    ensures Split(Report(title, details, suffix), '\n') == [title + ":"] + Summarize(details, suffix)
  {
    var lines := Summarize(details, suffix);
    forall i | 0 <= i < |lines|
      ensures '\n' !in lines[i]
    {
      if i == Shown {
        assert lines[i] == "...mais " + IntToText(|details| - Shown) + suffix;
        assert '\n' !in "...mais ";
        IntToTextHasNoNewline(|details| - Shown);
      }
    }
    SplitJoin(lines, '\n');
    assert Report(title, details, suffix) == (title + ":") + ['\n'] + Join(lines, "\n");
    SplitFirst(title + ":", Join(lines, "\n"), '\n');
  }

  lemma IntToTextHasNoNewline(i: int)
    ensures '\n' !in IntToText(i)
  {
    var t := IntToText(i);
    if i < 0 {
      NatToTextDigits(-i);
    } else {
      NatToTextDigits(i);
    }
  }

  lemma {:induction false} NatToTextDigits(n: nat)
    ensures '\n' !in NatToText(n)
    decreases n
  {
    if n >= 10 {
      NatToTextDigits(n / 10);
    }
  }

  // ---------------------------------------------------------------------------
  // Foreign-key resolution
  // ---------------------------------------------------------------------------

  /** The line for one failed lookup. */
  function DiagnosticText(d: Diagnostic): (t: string)
    ensures StartsWith(t, "Linha " + IntToText(d.row))
    ensures EndsWith(t, " para preencher " + d.targetColumn)
    ensures d.EmptySource? ==> StartsWith(t, "Linha " + IntToText(d.row) + " coluna '" + d.excelColumn + "' vazia")
    ensures d.NotFound? ==> StartsWith(t, "Linha " + IntToText(d.row) + ": valor '" + ToText(d.raw) + "' não encontrado em ")
    ensures d.NotFound? ==>
      StartsWith(t, "Linha " + IntToText(d.row) + ": valor '" + ToText(d.raw) + "' não encontrado em " + d.table + "." + d.labelColumn)
    ensures d.EmptySource? ==>
      |t| == |"Linha " + IntToText(d.row) + " coluna '" + d.excelColumn + "' vazia"| + |" para preencher " + d.targetColumn|
    ensures d.NotFound? ==>
      |t| == |"Linha " + IntToText(d.row) + ": valor '" + ToText(d.raw) + "' não encontrado em " + d.table + "." + d.labelColumn|
           + |" para preencher " + d.targetColumn|
  {
    var head := "Linha " + IntToText(d.row);
    var tail := " para preencher " + d.targetColumn;
    match d
    case EmptySource(_, excelColumn, _) =>
      var lead := head + " coluna '" + excelColumn + "' vazia";
      StartsWith3(head, " coluna '", excelColumn, "' vazia");
      AppendParts(lead, tail);
      StartsWithTrans(lead + tail, lead, head);
      lead + tail
    case NotFound(_, raw, table, labelColumn, _) =>
      var opening := head + ": valor '" + ToText(raw) + "' não encontrado em ";
      var lead := opening + table + "." + labelColumn;
      StartsWith3(head, ": valor '", ToText(raw), "' não encontrado em ");
      StartsWith3(opening, table, ".", labelColumn);
      AppendParts(lead, tail);
      StartsWithTrans(lead + tail, lead, opening);
      StartsWithTrans(lead + tail, opening, head);
      lead + tail
  }

  function DiagnosticTexts(ds: seq<Diagnostic>): (ts: seq<string>)
    ensures |ts| == |ds|
    ensures forall i :: 0 <= i < |ds| ==> ts[i] == DiagnosticText(ds[i])
  {
    if ds == [] then [] else [DiagnosticText(ds[0])] + DiagnosticTexts(ds[1..])
  }

  /** The text of the exception that stops a build. */
  function BuildErrorMessage(e: BuildError): (t: string)
    ensures e.DedupColumnMissing? ==>
      StartsWith(t, "Coluna '" + e.column) && EndsWith(t, "' não encontrada para remover duplicados")
    ensures e.SheetColumnsMissing? ==>
      StartsWith(t, "Colunas da planilha não encontradas: ") && EndsWith(t, Join(SortedList(e.columns), ", "))
    ensures e.DuplicateLabels? ==>
      StartsWith(t, "Valores duplicados na tabela " + e.table + " para a coluna de descrição " + e.labelColumn + ": ")
      && EndsWith(t, Join(e.labels, ", "))
    ensures e.UnresolvedLookups? ==> StartsWith(t, UnresolvedTitle + ":\n")
  {
    match e
    case DedupColumnMissing(column) =>
      AppendParts("Coluna '" + column, "' não encontrada para remover duplicados");
      "Coluna '" + column + "' não encontrada para remover duplicados"
    case SheetColumnsMissing(columns) =>
      AppendParts("Colunas da planilha não encontradas: ", Join(SortedList(columns), ", "));
      "Colunas da planilha não encontradas: " + Join(SortedList(columns), ", ")
    case DuplicateLabels(table, labelColumn, labels) =>
      var lead := "Valores duplicados na tabela " + table + " para a coluna de descrição " + labelColumn + ": ";
      AppendParts(lead, Join(labels, ", "));
      lead + Join(labels, ", ")
    case UnresolvedLookups(ds) =>
      Report(UnresolvedTitle, DiagnosticTexts(ds), " ocorrências sem correspondência.")
  }

  const UnresolvedTitle := "Não foi possível resolver os relacionamentos FK"
}
