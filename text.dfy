/**
 * The string primitives the engine borrows from Python: `str.strip()`,
 * `str.casefold()`, `str.lower()`, substring tests, decimal formatting of
 * integers, zero padding, `", ".join(...)` and the code-point ordering that
 * `sorted()` uses on strings.
 */
module Text {

  // ---------------------------------------------------------------------------
  // Whitespace and str.strip()
  // ---------------------------------------------------------------------------

  /** The characters Python's `str.isspace()` accepts, i.e. those `str.strip()` removes. */
  predicate IsSpace(c: char) {
    || c == ' '
    || '\U{9}' <= c <= '\U{D}'
    || '\U{1C}' <= c <= '\U{1F}'
    || c == '\U{85}' || c == '\U{A0}' || c == '\U{1680}'
    || '\U{2000}' <= c <= '\U{200A}'
    || c == '\U{2028}' || c == '\U{2029}' || c == '\U{202F}' || c == '\U{205F}' || c == '\U{3000}'
  }

  predicate AllSpace(s: string) {
    forall i :: 0 <= i < |s| ==> IsSpace(s[i])
  }

  /** Neither end of `s` is whitespace. */
  predicate Stripped(s: string) {
    s == [] || (!IsSpace(s[0]) && !IsSpace(s[|s| - 1]))
  }

  /** `str.lstrip()`: drops the whitespace run at the front. */
  function StripLeft(s: string): (r: string)
    ensures |r| <= |s| && r == s[|s| - |r|..]
    ensures AllSpace(s[..|s| - |r|])
    ensures r == [] || !IsSpace(r[0])
  {
    if s != [] && IsSpace(s[0]) then
      var r := StripLeft(s[1..]);
      var k := |s| - |r|;
      assert s[1..][k - 1..] == s[k..];
      assert s[..k] == [s[0]] + s[1..][..k - 1];
      r
    else
      s
  }

  /** `str.rstrip()`: drops the whitespace run at the back. */
  function StripRight(s: string): (r: string)
    ensures |r| <= |s| && r == s[..|r|]
    ensures AllSpace(s[|r|..])
    ensures r == [] || !IsSpace(r[|r| - 1])
  {
    if s != [] && IsSpace(s[|s| - 1]) then
      var r := StripRight(s[..|s| - 1]);
      assert s[..|s| - 1][..|r|] == s[..|r|];
      assert s[|r|..] == s[..|s| - 1][|r|..] + [s[|s| - 1]];
      r
    else
      s
  }

  /** Where `str.strip()`'s result starts in `s`: after the leading whitespace. */
  function StripStart(s: string): nat {
    |s| - |StripLeft(s)|
  }

  /** `str.strip()`: the result neither starts nor ends with whitespace. */
  function Strip(s: string): (r: string)
    ensures Stripped(r)
  {
    StrippedBothEnds(StripLeft(s));
    StripRight(StripLeft(s))
  }

  /**
   * What `str.strip()` keeps: the slice of `s` that starts after the leading
   * whitespace run and is followed only by whitespace.
   */
  lemma StripSlice(s: string)
    ensures StripStart(s) + |Strip(s)| <= |s|
    ensures Strip(s) == s[StripStart(s)..StripStart(s) + |Strip(s)|]
    ensures AllSpace(s[..StripStart(s)]) && AllSpace(s[StripStart(s) + |Strip(s)|..])
  {
    StripIsSlice(s, StripLeft(s), Strip(s), StripStart(s));
  }

  /** Stripping the back of a string whose front is not whitespace leaves neither end whitespace. */
  lemma StrippedBothEnds(left: string)
    requires left == [] || !IsSpace(left[0])
    ensures Stripped(StripRight(left))
  {
    var r := StripRight(left);
    if r != [] {
      assert r[0] == left[0];
    }
  }

  /** The two halves of `str.strip()` leave a slice of `s` between two whitespace runs. */
  lemma StripIsSlice(s: string, left: string, r: string, i: int)
    requires left == StripLeft(s) && r == StripRight(left) && i == |s| - |left|
    ensures 0 <= i <= |s| - |r| && r == s[i..i + |r|] && AllSpace(s[..i]) && AllSpace(s[i + |r|..])
  {
    assert s[i..] == left;
    assert r == left[..|r|] == s[i..i + |r|];
    assert s[i + |r|..] == left[|r|..];
  }

  /** A string that is already stripped is left as it is. */
  lemma StripStripped(s: string)
    requires Stripped(s)
    ensures Strip(s) == s
  {
  }

  /** One blank on each side of a non-empty stripped text is all that `strip` removes. */
  lemma StripPadded(w: string)
    requires w != [] && Stripped(w)
    ensures Strip(" " + w + " ") == w
  {
    var s := " " + w + " ";
    var t := w + " ";
    assert s[1..] == t;
    assert StripLeft(t) == t;
    assert StripLeft(s) == t;
    assert t[..|t| - 1] == w;
    assert StripRight(w) == w;
  }

  // ---------------------------------------------------------------------------
  // str.casefold() and str.lower()
  // ---------------------------------------------------------------------------

  /**
   * Case folding of one character, for Basic Latin and Latin-1: upper-case
   * letters become lower-case, `ß` becomes "ss" and the micro sign becomes
   * Greek small mu, as Python's `str.casefold()` does. Other characters are kept.
   */
  function FoldChar(c: char): (r: string)
    ensures |r| >= 1
  {
    if 'A' <= c <= 'Z' || '\U{C0}' <= c <= '\U{D6}' || '\U{D8}' <= c <= '\U{DE}' then
      [(c as int + 32) as char]
    else if c == '\U{DF}' then
      "ss"
    else if c == '\U{B5}' then
      "\U{3BC}"
    else
      [c]
  }

  function CaseFold(s: string): (r: string)
    ensures |r| >= |s|
  {
    if s == [] then [] else FoldChar(s[0]) + CaseFold(s[1..])
  }

  lemma {:induction false} CaseFoldAppend(a: string, b: string)
    ensures CaseFold(a + b) == CaseFold(a) + CaseFold(b)
  {
    if a != [] {
      assert (a + b)[1..] == a[1..] + b;
      CaseFoldAppend(a[1..], b);
    } else {
      assert a + b == b;
    }
  }

  lemma FoldCharFolded(c: char)
    ensures CaseFold(FoldChar(c)) == FoldChar(c)
  {
    var f := FoldChar(c);
    if c == '\U{DF}' {
      assert f == ['s'] + ['s'];
      CaseFoldAppend(['s'], ['s']);
    } else {
      assert f == [f[0]];
    }
  }

  /** Folding twice is folding once. */
  lemma {:induction false} CaseFoldIdempotent(s: string)
    ensures CaseFold(CaseFold(s)) == CaseFold(s)
  {
    if s != [] {
      CaseFoldAppend(FoldChar(s[0]), CaseFold(s[1..]));
      FoldCharFolded(s[0]);
      CaseFoldIdempotent(s[1..]);
    }
  }

  /** Folding neither creates nor removes whitespace at a character. */
  lemma FoldCharSpace(c: char)
    ensures IsSpace(c) ==> FoldChar(c) == [c]
    ensures !IsSpace(c) ==> forall k :: 0 <= k < |FoldChar(c)| ==> !IsSpace(FoldChar(c)[k])
  {
  }

  lemma {:induction false} CaseFoldLast(s: string)
    requires s != []
    ensures CaseFold(s) == CaseFold(s[..|s| - 1]) + FoldChar(s[|s| - 1])
  {
    assert s == s[..|s| - 1] + [s[|s| - 1]];
    CaseFoldAppend(s[..|s| - 1], [s[|s| - 1]]);
    assert CaseFold([s[|s| - 1]]) == FoldChar(s[|s| - 1]) + CaseFold([]);
  }

  /** Folding a stripped string gives a stripped string. */
  lemma CaseFoldStripped(s: string)
    requires Stripped(s)
    ensures Stripped(CaseFold(s))
  {
    if s != [] {
      var f := CaseFold(s);
      FoldCharSpace(s[0]);
      assert f[0] == FoldChar(s[0])[0];
      CaseFoldLast(s);
      var last := FoldChar(s[|s| - 1]);
      FoldCharSpace(s[|s| - 1]);
      assert f[|f| - 1] == last[|last| - 1];
    }
  }

  /** `str.lower()` on the ASCII letters that schema type names are made of. */
  function LowerAscii(s: string): (r: string)
    ensures |r| == |s|
    ensures forall i :: 0 <= i < |s| ==> r[i] == if 'A' <= s[i] <= 'Z' then (s[i] as int + 32) as char else s[i]
  {
    if s == [] then []
    else [if 'A' <= s[0] <= 'Z' then (s[0] as int + 32) as char else s[0]] + LowerAscii(s[1..])
  }

  /** Python's `sub in s` on strings. */
  predicate Contains(s: string, sub: string)
    decreases |s|
  {
    |sub| <= |s| && (s[..|sub|] == sub || (s != [] && Contains(s[1..], sub)))
  }

  // ---------------------------------------------------------------------------
  // Decimal formatting: str(int), "%02d"
  // ---------------------------------------------------------------------------

  predicate IsDigit(c: char) { '0' <= c <= '9' }

  function DigitChar(d: nat): (c: char)
    requires d < 10
    ensures IsDigit(c) && c as int - '0' as int == d
  {
    ('0' as int + d) as char
  }

  function DigitValue(c: char): nat
    requires IsDigit(c)
  {
    c as int - '0' as int
  }

  /** The decimal value of a string of digits: the partner of NatToText. */
  function DigitsValue(s: string): nat
    requires forall i :: 0 <= i < |s| ==> IsDigit(s[i])
  {
    if s == [] then 0 else DigitsValue(s[..|s| - 1]) * 10 + DigitValue(s[|s| - 1])
  }

  /** `str(n)` for a natural number: digits only, no leading zero. */
  function NatToText(n: nat): (r: string)
    ensures |r| >= 1
    ensures forall i :: 0 <= i < |r| ==> IsDigit(r[i])
    ensures r[0] == '0' ==> n == 0
    decreases n
  {
    if n < 10 then [DigitChar(n)] else NatToText(n / 10) + [DigitChar(n % 10)]
  }

  /** Reading back what NatToText wrote gives the number again. */
  lemma {:induction false} NatToTextRoundTrip(n: nat)
    ensures DigitsValue(NatToText(n)) == n
    decreases n
  {
    if n >= 10 {
      var r := NatToText(n);
      assert r[..|r| - 1] == NatToText(n / 10);
      NatToTextRoundTrip(n / 10);
    }
  }

  /** Different numbers are written differently. */
  lemma NatToTextInjective(m: nat, n: nat)
    requires NatToText(m) == NatToText(n)
    ensures m == n
  {
    NatToTextRoundTrip(m);
    NatToTextRoundTrip(n);
  }

  /** `str(i)` for any integer. */
  function IntToText(i: int): (r: string)
    ensures |r| >= 1
  {
    if i < 0 then "-" + NatToText(-i) else NatToText(i)
  }

  /** Zero padding to `width` characters, as `"%0*d"` does for a non-negative number. */
  function PadLeft(s: string, width: nat): (r: string)
    ensures |r| == if |s| >= width then |s| else width
    ensures r[|r| - |s|..] == s
    ensures forall i :: 0 <= i < |r| - |s| ==> r[i] == '0'
  {
    if |s| >= width then s else seq(width - |s|, _ => '0') + s
  }

  /** `s.startswith(prefix)`. */
  predicate StartsWith(s: string, prefix: string) {
    |prefix| <= |s| && s[..|prefix|] == prefix
  }

  /** `s.endswith(suffix)`. */
  predicate EndsWith(s: string, suffix: string) {
    |suffix| <= |s| && s[|s| - |suffix|..] == suffix
  }

  /** A concatenation starts with its first part and ends with its second. */
  lemma AppendParts(s: string, t: string)
    ensures StartsWith(s + t, s) && EndsWith(s + t, t)
  {
    assert (s + t)[..|s|] == s;
    assert (s + t)[|s|..] == t;
  }

  /** Appending keeps a prefix. */
  lemma StartsWithAppend(s: string, p: string, x: string)
    requires StartsWith(s, p)
    ensures StartsWith(s + x, p)
  {
    assert (s + x)[..|p|] == s[..|p|];
  }

  /** Three more parts after `p` keep `p` as a prefix. */
  lemma StartsWith3(p: string, x: string, y: string, z: string)
    ensures StartsWith(p + x + y + z, p)
  {
    AppendParts(p, x);
    StartsWithAppend(p + x, p, y);
    StartsWithAppend(p + x + y, p, z);
  }

  lemma StartsWithTrans(s: string, a: string, b: string)
    requires StartsWith(s, a) && StartsWith(a, b)
    ensures StartsWith(s, b)
  {
    assert s[..|b|] == s[..|a|][..|b|];
  }

  // ---------------------------------------------------------------------------
  // ", ".join(...)
  // ---------------------------------------------------------------------------

  function Join(parts: seq<string>, sep: string): string {
    if parts == [] then ""
    else if |parts| == 1 then parts[0]
    else parts[0] + sep + Join(parts[1..], sep)
  }

  /** `s.split(sep)` for a one-character separator: never empty, "" gives [""]. */
  function Split(s: string, sep: char): (parts: seq<string>)
    ensures |parts| >= 1
  {
    if s == [] then [""]
    else
      var rest := Split(s[1..], sep);
      if s[0] == sep then [""] + rest else [[s[0]] + rest[0]] + rest[1..]
  }

  /** Text without the separator splits into itself, and the separator ends a part. */
  lemma {:induction false} SplitFirst(a: string, b: string, sep: char)
    requires sep !in a
    ensures Split(a, sep) == [a]
    ensures Split(a + [sep] + b, sep) == [a] + Split(b, sep)
  {
    if |a| != 0 {
      SplitFirst(a[1..], b, sep);
      assert (a + [sep] + b)[1..] == a[1..] + [sep] + b;
      assert [a[0]] + a[1..] == a;
    } else {
      assert a + [sep] + b == [sep] + b;
    }
  }

  /** Joining parts that hold no separator and splitting again gives the parts back. */
  lemma {:induction false} SplitJoin(parts: seq<string>, sep: char)
    requires |parts| >= 1
    requires forall i :: 0 <= i < |parts| ==> sep !in parts[i]
    ensures Split(Join(parts, [sep]), sep) == parts
  {
    if |parts| == 1 {
      SplitFirst(parts[0], "", sep);
    } else {
      SplitJoin(parts[1..], sep);
      SplitFirst(parts[0], Join(parts[1..], [sep]), sep);
      assert [parts[0]] + parts[1..] == parts;
    }
  }

  // ---------------------------------------------------------------------------
  // Python's ordering of strings and sorted(set(...))
  // ---------------------------------------------------------------------------

  /** `a < b` on Python strings: lexicographic by code point, a proper prefix first. */
  predicate Less(a: string, b: string) {
    if a == [] then b != []
    else if b == [] then false
    else if a[0] != b[0] then a[0] < b[0]
    else Less(a[1..], b[1..])
  }

  lemma {:induction false} LessIrreflexive(a: string)
    ensures !Less(a, a)
  {
    if a != [] {
      LessIrreflexive(a[1..]);
    }
  }

  lemma {:induction false} LessTransitive(a: string, b: string, c: string)
    requires Less(a, b) && Less(b, c)
    ensures Less(a, c)
  {
    if a != [] && b != [] && c != [] && a[0] == b[0] && b[0] == c[0] {
      LessTransitive(a[1..], b[1..], c[1..]);
    }
  }

  lemma {:induction false} LessTotal(a: string, b: string)
    requires a != b
    ensures Less(a, b) || Less(b, a)
  {
    if a != [] && b != [] && a[0] == b[0] {
      assert a == [a[0]] + a[1..] && b == [b[0]] + b[1..];
      LessTotal(a[1..], b[1..]);
    }
  }

  predicate SortedStrict(s: seq<string>) {
    forall i, j :: 0 <= i < j < |s| ==> Less(s[i], s[j])
  }

  /** Inserts `x` into a strictly sorted list unless it is already there. */
  function InsertSorted(x: string, s: seq<string>): (r: seq<string>)
    requires SortedStrict(s)
    ensures SortedStrict(r)
    ensures forall y :: y in r <==> y in s || y == x
  {
    if s == [] then [x]
    else if x == s[0] then s
    else if Less(x, s[0]) then
      assert forall j :: 0 < j < |s| ==> Less(x, s[j]) by {
        forall j | 0 < j < |s| ensures Less(x, s[j]) {
          LessTransitive(x, s[0], s[j]);
        }
      }
      [x] + s
    else
      LessTotal(x, s[0]);
      var rest := InsertSorted(x, s[1..]);
      assert forall y :: y in rest ==> Less(s[0], y);
      [s[0]] + rest
  }

  /** `sorted(set(xs))` for a list of strings. */
  function SortedDistinct(xs: seq<string>): (r: seq<string>)
    ensures SortedStrict(r)
    ensures forall y :: y in r <==> y in xs
  {
    if xs == [] then [] else InsertSorted(xs[|xs| - 1], SortedDistinct(xs[..|xs| - 1]))
  }

  /** Two different strings are always ordered one way or the other. */
  lemma LessTotalAll()
    ensures forall a, b :: a != b ==> Less(a, b) || Less(b, a)
  {
    forall a, b | a != b
      ensures Less(a, b) || Less(b, a)
    {
      LessTotal(a, b);
    }
  }

  /** A non-empty set of strings has a least element. */
  lemma {:induction false} LeastExists(s: set<string>)
    requires s != {}
    ensures exists x :: x in s && forall y :: y in s ==> !Less(y, x)
    decreases |s|
  {
    var z :| z in s;
    var rest := s - {z};
    LessIrreflexive(z);
    if rest == {} {
      assert s == {z};
    } else {
      LeastExists(rest);
      var m :| m in rest && forall y :: y in rest ==> !Less(y, m);
      if Less(z, m) {
        forall y | y in s
          ensures !Less(y, z)
        {
          if y != z && Less(y, z) {
            LessTransitive(y, z, m);
          }
        }
      } else {
        assert forall y :: y in s ==> !Less(y, m);
      }
    }
  }

  /** The strings of a set in increasing order (`sorted(s)`). */
  function SortedList(s: set<string>): (r: seq<string>)
    ensures SortedStrict(r)
    ensures forall y :: y in r <==> y in s
    decreases |s|
  {
    if s == {} then []
    else
      LeastExists(s);
      LessTotalAll();
      var x :| x in s && forall y :: y in s ==> !Less(y, x);
      var rest := SortedList(s - {x});
      assert forall y :: y in rest ==> Less(x, y);
      [x] + rest
  }

  /** A strictly sorted list holds each string once. */
  lemma SortedStrictDistinct(s: seq<string>, i: int, j: int)
    requires SortedStrict(s) && 0 <= i < j < |s|
    ensures s[i] != s[j]
  {
    LessIrreflexive(s[i]);
  }
}
