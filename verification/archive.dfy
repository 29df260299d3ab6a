/** The permanent link into the broadcaster's episode archive for a show
    date. The archive changed its URL scheme with the show of 2006-01-07. */
module Archive {
  import opened Results
  import opened Calendar
  import opened Strftime

  /** The first show date served by the current archive scheme. */
  const Threshold: Date := Date(2006, 1, 7)

  const CurrentPrefix: string := "http://www.npr.org/programs/wait-wait-dont-tell-me/archive?date="
  const LegacyPrefix: string := "http://www.npr.org/programs/waitwait/archrndwn"
  const LegacySuffix: string := ".waitwait.html"

  /** Length of a current-scheme link: the prefix and `MM-DD-YYYY`. */
  const CurrentLength: nat := |CurrentPrefix| + 10

  /** Length of a legacy link: prefix, `/YYYY/mon/YYMMDD` and the suffix. */
  const LegacyLength: nat := |LegacyPrefix| + 16 + |LegacySuffix|

  /** The two prefixes part ways inside "wait-wait" / "waitwait", so no link
      starts with both. */
  lemma PrefixesDiverge()
    ensures |CurrentPrefix| > 32 && |LegacyPrefix| > 32
    ensures CurrentPrefix[32] != LegacyPrefix[32]
    ensures CurrentPrefix[..32] == LegacyPrefix[..32]
  {
  }

  /** The archive link of a show date (`npr_show_redirect`, once the date is
      known to be a show). */
  function ArchiveUrl(d: ValidDate): (url: string)
    ensures CurrentPrefix <= url <==> OnOrAfter(d, Threshold)
    ensures LegacyPrefix <= url <==> Before(d, Threshold)
    ensures |url| == if OnOrAfter(d, Threshold) then CurrentLength else LegacyLength
  {
    PrefixesDiverge();
    if OnOrAfter(d, Threshold) then
      CurrentPrefix + FormatMonth(d) + "-" + FormatDay(d) + "-" + FormatYear(d)
    else
      LegacyPrefix + LegacyPath(d) + LegacySuffix
  }

  /** The middle of a legacy link: `/YYYY/mon/YYMMDD`. */
  function LegacyPath(d: ValidDate): (s: string)
    ensures |s| == 16
  {
    "/" + FormatYear(d) + "/" + MonthAbbrev(d.month) + "/"
      + FormatShortYear(d) + FormatMonth(d) + FormatDay(d)
  }

  /** Reads a link back into the show date it names: the partner of
      `ArchiveUrl`. A legacy link is accepted only when its `/YYYY/`,
      `/mon/` and `YYMMDD` fields agree with each other. */
  function DecodeArchiveUrl(url: string): Option<Date>
  {
    var n := |CurrentPrefix|;
    var p := |LegacyPrefix|;
    if CurrentPrefix <= url && |url| == CurrentLength
       && AllDigits(url[n..n + 2]) && url[n + 2] == '-'
       && AllDigits(url[n + 3..n + 5]) && url[n + 5] == '-'
       && AllDigits(url[n + 6..n + 10])
    then
      Some(Date(ParseDecimal(url[n + 6..n + 10]), ParseDecimal(url[n..n + 2]),
                ParseDecimal(url[n + 3..n + 5])))
    else if LegacyPrefix <= url && |url| == LegacyLength
       && url[p] == '/' && AllDigits(url[p + 1..p + 5]) && url[p + 5] == '/'
       && url[p + 9] == '/' && AllDigits(url[p + 10..p + 12])
       && AllDigits(url[p + 12..p + 14]) && AllDigits(url[p + 14..p + 16])
       && url[p + 16..] == LegacySuffix
       && ParseDecimal(url[p + 10..p + 12]) == ParseDecimal(url[p + 1..p + 5]) % 100
       && MonthNumber(url[p + 6..p + 9]) == ParseDecimal(url[p + 12..p + 14])
    then
      Some(Date(ParseDecimal(url[p + 1..p + 5]), ParseDecimal(url[p + 12..p + 14]),
                ParseDecimal(url[p + 14..p + 16])))
    else
      None
  }

  /** Field by field, a current-scheme link is the prefix followed by
      `MM-DD-YYYY` for the show date. */
  lemma CurrentLayout(d: ValidDate)
    requires OnOrAfter(d, Threshold)
    ensures var url, n := ArchiveUrl(d), |CurrentPrefix|;
      && url[..n] == CurrentPrefix
      && AllDigits(url[n..n + 2]) && ParseDecimal(url[n..n + 2]) == d.month
      && url[n + 2] == '-'
      && AllDigits(url[n + 3..n + 5]) && ParseDecimal(url[n + 3..n + 5]) == d.day
      && url[n + 5] == '-'
      && AllDigits(url[n + 6..n + 10]) && ParseDecimal(url[n + 6..n + 10]) == d.year
  {
    var url, n := ArchiveUrl(d), |CurrentPrefix|;
    assert url[n..n + 2] == FormatMonth(d);
    assert url[n + 3..n + 5] == FormatDay(d);
    assert url[n + 6..n + 10] == FormatYear(d);
  }

  lemma Concat3Slices(a: string, b: string, c: string)
    ensures (a + b + c)[..|a|] == a
    ensures (a + b + c)[|a|..|a| + |b|] == b
    ensures (a + b + c)[|a| + |b|..] == c
  {
  }

  lemma SliceOfSlice(s: string, i: nat, j: nat, k: nat, l: nat)
    requires i <= j <= |s| && k <= l <= j - i
    ensures s[i..j][k..l] == s[i + k..i + l]
  {
    var a, b := s[i..j][k..l], s[i + k..i + l];
    assert |a| == |b|;
    forall x | 0 <= x < |a|
      ensures a[x] == b[x]
    {
    }
  }

  lemma LegacyPathLayout(d: ValidDate)
    ensures var s := LegacyPath(d);
      && s[0] == '/' && s[5] == '/' && s[9] == '/'
      && s[1..5] == FormatYear(d)
      && s[6..9] == MonthAbbrev(d.month)
      && s[10..12] == FormatShortYear(d)
      && s[12..14] == FormatMonth(d)
      && s[14..16] == FormatDay(d)
  {
    var y, mon := FormatYear(d), MonthAbbrev(d.month);
    var yy, mm, dd := FormatShortYear(d), FormatMonth(d), FormatDay(d);
    var s := LegacyPath(d);
    assert s == "/" + y + "/" + mon + "/" + yy + mm + dd;
  }

  lemma LegacyUrlParts(d: ValidDate)
    requires Before(d, Threshold)
    ensures var url, p := ArchiveUrl(d), |LegacyPrefix|;
      && url[..p] == LegacyPrefix
      && url[p..p + 16] == LegacyPath(d)
      && url[p + 16..] == LegacySuffix
  {
    Concat3Slices(LegacyPrefix, LegacyPath(d), LegacySuffix);
  }

  /** A legacy link is prefix, `/YYYY/`, the lower-case month abbreviation,
      `/`, `YYMMDD` and the suffix. */
  lemma LegacyLayout(d: ValidDate)
    requires Before(d, Threshold)
    ensures var url, p := ArchiveUrl(d), |LegacyPrefix|;
      && url[..p] == LegacyPrefix
      && url[p] == '/' && url[p + 5] == '/' && url[p + 9] == '/'
      && url[p + 1..p + 5] == FormatYear(d)
      && url[p + 6..p + 9] == MonthAbbrev(d.month)
      && url[p + 10..p + 12] == FormatShortYear(d)
      && url[p + 12..p + 14] == FormatMonth(d)
      && url[p + 14..p + 16] == FormatDay(d)
      && url[p + 16..] == LegacySuffix
  {
    var url, p := ArchiveUrl(d), |LegacyPrefix|;
    LegacyUrlParts(d);
    LegacyPathLayout(d);
    var path := url[p..p + 16];
    assert url[p] == path[0] && url[p + 5] == path[5] && url[p + 9] == path[9];
    SliceOfSlice(url, p, p + 16, 1, 5);
    SliceOfSlice(url, p, p + 16, 6, 9);
    SliceOfSlice(url, p, p + 16, 10, 12);
    SliceOfSlice(url, p, p + 16, 12, 14);
    SliceOfSlice(url, p, p + 16, 14, 16);
  }

  /** In a legacy link the `YY` field is the year modulo 100 and the month
      abbreviation names the same month as the `MM` field. */
  lemma LegacyFieldsAgree(d: ValidDate)
    requires Before(d, Threshold)
    ensures var url, p := ArchiveUrl(d), |LegacyPrefix|;
      AllDigits(url[p + 1..p + 5]) && ParseDecimal(url[p + 1..p + 5]) == d.year
    ensures var url, p := ArchiveUrl(d), |LegacyPrefix|;
      AllDigits(url[p + 10..p + 12]) && ParseDecimal(url[p + 10..p + 12]) == d.year % 100
    ensures var url, p := ArchiveUrl(d), |LegacyPrefix|;
      AllDigits(url[p + 12..p + 14]) && ParseDecimal(url[p + 12..p + 14]) == d.month
    ensures var url, p := ArchiveUrl(d), |LegacyPrefix|;
      AllDigits(url[p + 14..p + 16]) && ParseDecimal(url[p + 14..p + 16]) == d.day
    ensures var url, p := ArchiveUrl(d), |LegacyPrefix|;
      MonthNumber(url[p + 6..p + 9]) == d.month
  {
    var url, p := ArchiveUrl(d), |LegacyPrefix|;
    LegacyLayout(d);
    var y, yy, mm, dd := FormatYear(d), FormatShortYear(d), FormatMonth(d), FormatDay(d);
    assert url[p + 1..p + 5] == y;
    assert url[p + 10..p + 12] == yy;
    assert url[p + 12..p + 14] == mm;
    assert url[p + 14..p + 16] == dd;
    MonthAbbrevRoundTrip(d.month);
  }

  /** Every archive link names exactly the show date it was built from, in
      either scheme; in particular two show dates never share a link. */
  lemma ArchiveUrlRoundTrip(d: ValidDate)
    ensures DecodeArchiveUrl(ArchiveUrl(d)) == Some(d)
  {
    var url := ArchiveUrl(d);
    if OnOrAfter(d, Threshold) {
      CurrentLayout(d);
    } else {
      LegacyLayout(d);
      LegacyFieldsAgree(d);
      PrefixesDiverge();
      assert url[32] == LegacyPrefix[32];
      assert !(CurrentPrefix <= url);
    }
  }

  lemma ArchiveUrlInjective(a: ValidDate, b: ValidDate)
    requires ArchiveUrl(a) == ArchiveUrl(b)
    ensures a == b
  {
    ArchiveUrlRoundTrip(a);
    ArchiveUrlRoundTrip(b);
  }

  lemma FieldsOfThresholdYear(d: ValidDate)
    requires d.year == 2006 && d.month == 1
    ensures FormatYear(d) == "2006" && FormatShortYear(d) == "06" && FormatMonth(d) == "01"
  {
    assert Digits(2006, 4) == Digits(200, 3) + "6";
    assert Digits(200, 3) == Digits(20, 2) + "0";
    assert Digits(20, 2) == Digits(2, 1) + "0";
    assert Digits(6, 2) == Digits(0, 1) + "6";
    assert Digits(1, 2) == Digits(0, 1) + "1";
  }

  lemma FirstCurrentDate()
    ensures var d: ValidDate := Date(2006, 1, 7);
      FormatMonth(d) == "01" && FormatDay(d) == "07" && FormatYear(d) == "2006"
  {
    var d: ValidDate := Date(2006, 1, 7);
    FieldsOfThresholdYear(d);
    assert Digits(7, 2) == Digits(0, 1) + "7";
  }

  // The literal helpers below take the field texts as parameters so that the
  // solver compares short strings instead of unfolding the formatting functions.
  lemma CurrentLiteral(mm: string, dd: string, yyyy: string)
    requires mm == "01" && dd == "07" && yyyy == "2006"
    ensures CurrentPrefix + mm + "-" + dd + "-" + yyyy
      == "http://www.npr.org/programs/wait-wait-dont-tell-me/archive?date=01-07-2006"
  {
  }

  /** The show of 2006-01-07 is the first to get a current-scheme link. */
  lemma FirstCurrentLink()
    ensures ArchiveUrl(Date(2006, 1, 7))
      == "http://www.npr.org/programs/wait-wait-dont-tell-me/archive?date=01-07-2006"
  {
    var d: ValidDate := Date(2006, 1, 7);
    assert OnOrAfter(d, Threshold);
    assert ArchiveUrl(d) == CurrentPrefix + FormatMonth(d) + "-" + FormatDay(d) + "-" + FormatYear(d);
    FirstCurrentDate();
    CurrentLiteral(FormatMonth(d), FormatDay(d), FormatYear(d));
  }

  lemma LastLegacyPath()
    ensures LegacyPath(Date(2006, 1, 6)) == "/2006/jan/060106"
  {
    var d: ValidDate := Date(2006, 1, 6);
    FieldsOfThresholdYear(d);
    assert FormatDay(d) == "06" by { assert Digits(6, 2) == Digits(0, 1) + "6"; }
    assert MonthAbbrev(1) == "jan";
    LegacyPathLiteral(FormatYear(d), MonthAbbrev(d.month), FormatShortYear(d), FormatMonth(d), FormatDay(d));
  }

  // Literal helper: see CurrentLiteral.
  lemma LegacyPathLiteral(y: string, mon: string, yy: string, mm: string, dd: string)
    requires y == "2006" && mon == "jan" && yy == "06" && mm == "01" && dd == "06"
    ensures "/" + y + "/" + mon + "/" + yy + mm + dd == "/2006/jan/060106"
  {
  }

  /** The show of 2006-01-06 is the last to get a legacy link. */
  lemma LastLegacyLink()
    ensures ArchiveUrl(Date(2006, 1, 6))
      == "http://www.npr.org/programs/waitwait/archrndwn/2006/jan/060106.waitwait.html"
  {
    var d: ValidDate := Date(2006, 1, 6);
    LastLegacyPath();
    assert Before(d, Threshold);
    assert ArchiveUrl(d) == LegacyPrefix + LegacyPath(d) + LegacySuffix;
    LegacyLiteral(LegacyPath(d));
  }

  // Literal helper: see CurrentLiteral.
  lemma LegacyLiteral(path: string)
    requires path == "/2006/jan/060106"
    ensures LegacyPrefix + path + LegacySuffix
      == "http://www.npr.org/programs/waitwait/archrndwn/2006/jan/060106.waitwait.html"
  {
  }

  /** Which scheme a date gets depends only on which side of the threshold it
      lies: every date on or before 2006-01-06 is legacy, every later one is current. */
  lemma SchemeSplitsAtThreshold(d: ValidDate)
    ensures LegacyPrefix <= ArchiveUrl(d) <==> !Before(Date(2006, 1, 6), d)
    ensures CurrentPrefix <= ArchiveUrl(d) <==> Before(Date(2006, 1, 6), d)
  {
  }
}
