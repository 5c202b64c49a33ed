/**
 * The cell and field values the engine moves around, with the few Python
 * operations it applies to them: `str(value)`, `==` between values,
 * `pd.isna`, the lookup-key normalisation and the export normalisation.
 */
module Values {
  import opened Text

  /**
   * One scalar value: Python `None`, a missing cell (`NaN`/`NaT`, for which
   * `pd.isna` holds), a string, an integer, a boolean or a calendar date.
   */
  datatype Value =
    | Null
    | Missing
    | Str(s: string)
    | Int(i: int)
    | Bool(b: bool)
    | Date(year: nat, month: nat, day: nat)

  /** `pd.isna(value)` (true for `None` as well). */
  predicate IsNa(v: Value) {
    v.Null? || v.Missing?
  }

  /** `date.isoformat()`: "YYYY-MM-DD" with zero padding. */
  function IsoFormat(year: nat, month: nat, day: nat): string {
    PadLeft(NatToText(year), 4) + "-" + PadLeft(NatToText(month), 2) + "-" + PadLeft(NatToText(day), 2)
  }

  /** Python's `str(value)`. */
  function ToText(v: Value): string {
    match v
    case Null => "None"
    case Missing => "nan"
    case Str(s) => s
    case Int(i) => IntToText(i)
    case Bool(b) => if b then "True" else "False"
    case Date(y, m, d) => IsoFormat(y, m, d)
  }

  /** `True == 1` and `False == 0` in Python: booleans compare as the integers 1 and 0. */
  function Canonical(v: Value): Value {
    if v.Bool? then Int(if v.b then 1 else 0) else v
  }

  /** Python's `a == b` between two values: `NaN` equals nothing, not even itself. */
  predicate PyEq(a: Value, b: Value) {
    !a.Missing? && !b.Missing? && Canonical(a) == Canonical(b)
  }

  /** Python's `==` on values is symmetric and transitive. */
  lemma PyEqPartialEquivalence(a: Value, b: Value, c: Value)
    ensures PyEq(a, b) ==> PyEq(b, a)
    ensures PyEq(a, b) && PyEq(b, c) ==> PyEq(a, c)
  {
  }

  /**
   * `_normalize_lookup_key`: "" for `None` and missing values, otherwise
   * `str(value).strip().casefold()`. The key has no whitespace at either end
   * and is its own case fold.
   */
  function NormalizeLookupKey(v: Value): (key: string)
    ensures IsNa(v) ==> key == ""
    ensures Stripped(key) && CaseFold(key) == key
  {
    if IsNa(v) then ""
    else
      var t := Strip(ToText(v));
      CaseFoldStripped(t);
      CaseFoldIdempotent(t);
      CaseFold(t)
  }

  /** Normalising a key again changes nothing. */
  lemma NormalizeLookupKeyIdempotent(v: Value)
    ensures NormalizeLookupKey(Str(NormalizeLookupKey(v))) == NormalizeLookupKey(v)
  {
    var k := NormalizeLookupKey(v);
    StripStripped(k);
    assert Strip(ToText(Str(k))) == k;
  }

  lemma KeyOfStr(s: string)
    ensures NormalizeLookupKey(Str(s)) == CaseFold(Strip(s))
  {
  }

  /**
   * Two labels that differ only in letter case, and by blanks around one of
   * them, share a key: " brazil " and "Brazil" look up the same id.
   */
  lemma CaseVariantsShareKey(s: string, t: string)
    requires s != [] && Stripped(s) && Stripped(t)
    requires CaseFold(s) == CaseFold(t)
    ensures NormalizeLookupKey(Str(" " + s + " ")) == NormalizeLookupKey(Str(t)) == CaseFold(t)
  {
    StripPadded(s);
    StripStripped(t);
    KeyOfStr(" " + s + " ");
    KeyOfStr(t);
  }

  /**
   * `_normalize_value_for_export`: booleans become "true"/"false", dates their
   * ISO text; nothing boolean or date-typed is left, and every other value is
   * passed through as it is.
   */
  function NormalizeValueForExport(v: Value): (r: Value)
    ensures !r.Bool? && !r.Date?
    ensures v.Bool? ==> r == Str(if v.b then "true" else "false")
    ensures v.Date? ==> r == Str(ToText(v))
    ensures !v.Bool? && !v.Date? ==> r == v
  {
    match v
    case Bool(b) => Str(if b then "true" else "false")
    case Date(y, m, d) => Str(IsoFormat(y, m, d))
    case _ => v
  }
}
