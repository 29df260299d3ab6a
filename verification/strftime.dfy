/** The `strftime` directives the archive permalink uses, in the C locale:
    `%m`, `%d` (two digits), `%Y` (four digits), `%y` (year within the
    century, two digits) and `%b` (abbreviated English month name). */
module Strftime {
  import opened Calendar

  function Pow10(n: nat): (p: nat)
    ensures p >= 1
  {
    if n == 0 then 1 else 10 * Pow10(n - 1)
  }

  predicate IsDigit(c: char) {
    '0' <= c <= '9'
  }

  /** Every character of `s` is a decimal digit (checked from the right, the
      way `ParseDecimal` reads). */
  predicate AllDigits(s: string) {
    |s| == 0 || (AllDigits(s[..|s| - 1]) && IsDigit(s[|s| - 1]))
  }

  function DigitChar(n: nat): (c: char)
    requires n < 10
    ensures IsDigit(c)
  {
    ('0' as int + n) as char
  }

  function DigitValue(c: char): (n: nat)
    requires IsDigit(c)
    ensures n < 10
  {
    (c as int - '0' as int) as nat
  }

  /** `n` written in decimal, zero-padded on the left to `width` characters. */
  function Digits(n: nat, width: nat): (s: string)
    requires n < Pow10(width)
    ensures |s| == width
    ensures AllDigits(s)
  {
    if width == 0 then "" else
      var s := Digits(n / 10, width - 1) + [DigitChar(n % 10)];
      assert s[..|s| - 1] == Digits(n / 10, width - 1);
      s
  }

  /** Reads a string of decimal digits back as a number: the partner of `Digits`. */
  function ParseDecimal(s: string): nat
    requires AllDigits(s)
  {
    if |s| == 0 then 0 else 10 * ParseDecimal(s[..|s| - 1]) + DigitValue(s[|s| - 1])
  }

  lemma DigitRoundTrip(n: nat)
    requires n < 10
    ensures DigitValue(DigitChar(n)) == n
  {
  }

  /** Zero-padded decimal text reads back as the number it was made from. */
  lemma {:induction false} DigitsRoundTrip(n: nat, width: nat)
    requires n < Pow10(width)
    ensures ParseDecimal(Digits(n, width)) == n
  {
    if width > 0 {
      var s := Digits(n, width);
      DigitsRoundTrip(n / 10, width - 1);
      assert s[..|s| - 1] == Digits(n / 10, width - 1);
      DigitRoundTrip(n % 10);
    }
  }

  /** The lower-cased `%b` month names. */
  const MonthAbbrevs: seq<string> :=
    ["jan", "feb", "mar", "apr", "may", "jun", "jul", "aug", "sep", "oct", "nov", "dec"]

  /** `strftime("%b").lower()` for month `m`. */
  function MonthAbbrev(m: int): (s: string)
    requires 1 <= m <= 12
    ensures |s| == 3
    ensures forall i :: 0 <= i < |s| ==> 'a' <= s[i] <= 'z'
  {
    MonthAbbrevs[m - 1]
  }

  /** The month a lower-case abbreviation names, if any: the partner of `MonthAbbrev`. */
  function MonthNumber(s: string): (m: int)
    ensures 0 <= m <= 12
    ensures m != 0 ==> MonthAbbrevs[m - 1] == s
    ensures m == 0 ==> s !in MonthAbbrevs
  {
    if s in MonthAbbrevs then IndexOf(MonthAbbrevs, s) + 1 else 0
  }

  function IndexOf(xs: seq<string>, x: string): (i: nat)
    requires x in xs
    ensures i < |xs| && xs[i] == x
    ensures forall j :: 0 <= j < i ==> xs[j] != x
  {
    if xs[0] == x then 0 else 1 + IndexOf(xs[1..], x)
  }

  /** The twelve abbreviations are pairwise different, so each names one month. */
  lemma MonthAbbrevsDistinct()
    ensures forall i, j :: 0 <= i < j < |MonthAbbrevs| ==> MonthAbbrevs[i] != MonthAbbrevs[j]
  {
  }

  lemma MonthAbbrevRoundTrip(m: int)
    requires 1 <= m <= 12
    ensures MonthNumber(MonthAbbrev(m)) == m
  {
    MonthAbbrevsDistinct();
  }

  /** `%m`: two-digit month. */
  function FormatMonth(d: ValidDate): (s: string)
    ensures |s| == 2 && AllDigits(s)
    ensures ParseDecimal(s) == d.month
  {
    DigitsRoundTrip(d.month, 2);
    Digits(d.month, 2)
  }

  /** `%d`: two-digit day of the month. */
  function FormatDay(d: ValidDate): (s: string)
    ensures |s| == 2 && AllDigits(s)
    ensures ParseDecimal(s) == d.day
  {
    DigitsRoundTrip(d.day, 2);
    Digits(d.day, 2)
  }

  /** `%Y`: four-digit year. */
  function FormatYear(d: ValidDate): (s: string)
    ensures |s| == 4 && AllDigits(s)
    ensures ParseDecimal(s) == d.year
  {
    DigitsRoundTrip(d.year, 4);
    Digits(d.year, 4)
  }

  /** `%y`: the year within its century, two digits. */
  function FormatShortYear(d: ValidDate): (s: string)
    ensures |s| == 2 && AllDigits(s)
    ensures ParseDecimal(s) == d.year % 100
  {
    DigitsRoundTrip(d.year % 100, 2);
    Digits(d.year % 100, 2)
  }
}
