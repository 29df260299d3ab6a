# Request resolution of the Wait Wait Don't Tell Me stats site

A Dafny model of the request-resolution core of the stats site's Flask
application (`app.py`) and of its panelist rank table (`stats/dicts.py`).
Every route handler becomes a pure function. It takes the matched request, the
storage collaborator's answers and the two library calls the handler makes
(dateutil's free-text date parser and `slugify`). It returns a `Response`: a
rendered page, a redirect with its status code, or `Error` for an uncaught
exception or a view that returns nothing.

Modules:

- `Results`: `Option`, and `Answer` (`Ok(rows)` or `Fault`) for one storage call.
- `Seqs`: `list.reverse()` as a pure function.
- `Calendar`: `Date` and the triples Python's `date(...)` accepts: years 1–9999,
  months 1–12, and days within the Gregorian month length, leap years included.
  Also the tuple ordering Python compares dates with, and a day-number reference
  that shows this ordering is chronological.
- `Strftime`: the `%m`, `%d`, `%Y`, `%y` and lower-cased `%b` directives, plus a
  decimal reader that inverts them.
- `Archive`: the archive permalink of a show date. The URL scheme switches at
  2006-01-07. A decoder reads a permalink back into its date.
- `Domain`: show and entity records, and the storage collaborator. The
  collaborator is a record of total functions, plus a flag saying whether
  `reconnect()` succeeds. It also holds `retrieve_show_years`, which reverses
  the year list.
- `Routes`: requests, redirect targets, pages, responses, one function per
  handler, and `Resolve`, which dispatches a request to its handler.
- `RouteProps`: properties that span several routes. Redirects always climb the
  route hierarchy, so there are no loops, provided `slugify` is idempotent. Only the singular aliases and a
  free-text date that parses get a permanent (301) redirect. The panelist redirect does no lookup. The finding below is also
  stated here.
- `Ranks` and `Filters`: `PANELIST_RANKS` and the `rankify` filter's own copy
  of the same table.

Behaviour worth noting:

- Not-found fallbacks do not climb one level at a time. A valid day with no
  show goes to the site index (app.py:291-292). An invalid day goes to
  `/shows` (app.py:302-303). An empty month goes to the site index
  (app.py:268-269). An empty year still renders (app.py:234-243).
- Only the panelist detail page canonicalises its slug, and it does so with
  Flask's default 302, not 301 (app.py:182-183). A panelist slug with no
  panelist returns nothing, which is a server error. Guest, host and
  scorekeeper pages look up `slugify(raw)` directly and render
  "<slug> not found" on a miss. None of them redirects to a listing.
- The recent-show window and the on-this-day aggregator are not part of this
  code. The index shows whatever `retrieve_recent` returns, reversed.

## Model

| member | source | states |
|---|---|---|
| Seqs.Reverse | app.py:56-57 | the reversed list has the same length, and position i holds the element from position len-1-i |
| Seqs.ReverseInvolution | app.py:56-57 | reversing twice restores the original order |
| Seqs.ReversePermutes | app.py:103-104 | reversal keeps exactly the same shows, with the same multiplicities |
| Calendar.BeforeIsChronological | app.py:344 | Python's (year, month, day) comparison of valid dates agrees with comparing their day numbers, in both directions |
| Calendar.OrdinalInjective | app.py:344 | two valid dates with the same day number are equal |
| Calendar.LeapDay | app.py:286 | `date(y, 2, 29)` succeeds exactly in Gregorian leap years |
| Calendar.FirstOfMonthIsValid | app.py:236 | the first of any month 1-12 of a year 1-9999 is a valid date |
| Strftime.Digits | app.py:345 | zero-padded decimal text has exactly the requested width and only digits |
| Strftime.DigitsRoundTrip | app.py:345-348 | zero-padded decimal text reads back as the number it was made from |
| Strftime.FormatMonth | app.py:345 | `%m` is two digits that read back as the month |
| Strftime.FormatDay | app.py:345 | `%d` is two digits that read back as the day |
| Strftime.FormatYear | app.py:349 | `%Y` is four digits that read back as the year |
| Strftime.FormatShortYear | app.py:348 | `%y` is two digits that read back as the year modulo 100 |
| Strftime.MonthAbbrev | app.py:350 | the lower-cased `%b` month name is exactly three lower-case letters |
| Strftime.MonthNumber | app.py:350 | an abbreviation maps to the month whose `%b` name it is, and to 0 when it names no month |
| Strftime.MonthAbbrevRoundTrip | app.py:350 | every month's abbreviation names that month back |
| Strftime.MonthAbbrevsDistinct | app.py:350 | the twelve abbreviations are pairwise different |
| Archive.PrefixesDiverge | app.py:341-342 | the current and legacy archive prefixes differ within their common length, so no link starts with both |
| Archive.ArchiveUrl | app.py:341-351 | a link starts with the current prefix exactly when the date is on or after 2006-01-07, and with the legacy prefix exactly when it is before; it has the fixed length of its scheme |
| Archive.CurrentLayout | app.py:344-346 | a current link is the prefix followed by `MM-DD-YYYY`, whose fields read back as the date's month, day and year |
| Archive.LegacyPath | app.py:348-351 | the legacy path between prefix and suffix is 16 characters long |
| Archive.LegacyPathLayout | app.py:348-351 | the legacy path is `/`, `%Y`, `/`, the month abbreviation, `/`, then `%y%m%d` |
| Archive.LegacyLayout | app.py:347-351 | a legacy link is the prefix, `/YYYY/`, the lower-case month abbreviation, `/YYMMDD` and the `.waitwait.html` suffix |
| Archive.LegacyFieldsAgree | app.py:348-351 | in a legacy link, YYYY reads as the year and YY as the year modulo 100; the abbreviation and MM both name the date's month; DD reads as the day |
| Archive.ArchiveUrlRoundTrip | app.py:341-351 | decoding the link of any valid date gives back that date, in either scheme |
| Archive.ArchiveUrlInjective | app.py:341-351 | two different show dates never share an archive link |
| Archive.FirstCurrentLink | app.py:344-346 | 2006-01-07 gets the current-scheme link `...archive?date=01-07-2006` |
| Archive.LastLegacyLink | app.py:347-351 | 2006-01-06 gets the legacy link `.../archrndwn/2006/jan/060106.waitwait.html` |
| Archive.SchemeSplitsAtThreshold | app.py:344 | a date is legacy exactly when it is on or before 2006-01-06, and current exactly when it is later |
| Seqs.ReverseOfAscending | app.py:56-57 | reversing a strictly ascending list gives a strictly descending one, so a storage that lists oldest first yields newest first |
| Domain.ShowYears | app.py:52-59 | the year list succeeds only if the reconnect and the query succeed, and it lists the stored years in the reverse of the storage's order |
| Routes.Index | app.py:100-110 | the index renders exactly when the reconnect and both queries succeed, with recent shows and years each in the reverse of the storage's order; it never redirects and otherwise fails |
| Routes.ShowIndexPage | app.py:218-225 | `/shows` renders the years in the reverse of the storage's order, or fails on a storage fault (there is no handler) |
| Routes.FirstOfMonths | app.py:234-236 | first-of-month dates exist exactly when every stored month is 1-12; there is one per month, in the same order |
| Routes.ShowsYearPage | app.py:227-245 | `/shows/<y>` renders Jan 1 of y and one first-of-month date per stored month, even when there are none; an invalid year or month, or any fault, redirects to `/shows` |
| Routes.ShowsTextPage | app.py:247-258 | free text always redirects: 301 to the day route with exactly the parsed components when it parses, and 302 to `/shows` when it does not |
| Routes.ShowsYearMonthPage | app.py:260-279 | the month renders its shows unchanged when there are any; an empty month goes to the site index; an invalid month or any fault goes to `/shows/<y>` |
| Routes.ShowsYearMonthDayPage | app.py:281-303 | a found show renders a list holding exactly that show; a valid date with no show goes to the site index; an invalid date or any fault goes to `/shows` |
| Routes.ShowsYearAllPage | app.py:305-321 | the year's shows render when there are any; an empty year goes to `/shows/<y>`; a fault goes to `/shows` |
| Routes.ArchiveRedirectAsWritten | app.py:331-353 | as written: unparseable text goes to the site index; a confirmed show date redirects (302) to exactly its archive link, `Archive.ArchiveUrl` of the parsed date; a parsed date that is not a show date, or a storage fault, fails; it never renders |
| Routes.ArchiveRedirect | app.py:331-353 | corrected: a confirmed show date redirects (302) to exactly its archive link, `Archive.ArchiveUrl` of the parsed date; only a storage fault fails; every other redirect goes to the site index; it never renders |
| Routes.EntityDetail | app.py:127-208 | only panelist pages redirect, exactly when the segment differs from its slug and with no lookup; a panelist miss fails; other kinds render "<slug> not found" on a miss |
| Routes.Resolve | app.py:94-325 | every redirect carries 301 or 302 (for `/s/<text>` it uses the corrected archive handler; see "## Left out") |
| RouteProps.AliasesRedirect | app.py:94-325 | singular paths redirect permanently to their plural listings; `/location` and `/shows/recent` redirect to the index with the default code |
| RouteProps.RedirectTargets | app.py:227-321 | each route redirects only to the targets its code names |
| RouteProps.RedirectsClimb | app.py:227-321 | every redirect into a modelled route lands strictly lower in the route hierarchy, so redirects never loop (given an idempotent slugify) |
| RouteProps.PermanentOnlyWhenCanonicalising | app.py:115-258 | a redirect is permanent exactly for the singular aliases and for free text that parses |
| RouteProps.FreeTextLandsOnValidDay | app.py:247-303 | the day route a parsed date redirects to renders that date, or goes to `/shows` only on a storage fault |
| RouteProps.PanelistRedirectSkipsLookup | app.py:178-184 | a non-canonical panelist segment gets the same redirect whatever the storage would answer |
| RouteProps.PanelistCanonicalSettles | app.py:178-186 | after following the panelist redirect once, no further redirect happens (given an idempotent slugify) |
| RouteProps.OnlyPanelistsRedirect | app.py:127-208 | guest, host and scorekeeper detail pages never redirect |
| RouteProps.ArchiveMissFailsAsWritten | app.py:337-353 | for a parseable date with no show and a healthy store, the handler as written fails where the corrected one redirects to the index |
| RouteProps.ArchiveCorrectionIsLocal | app.py:331-353 | the corrected and as-written handlers agree on every input except a parsed date with no show |
| Ranks.RankKeys | stats/dicts.py:6-12 | the table has exactly the keys 1, 1t, 2, 2t, 3, and no 3t |
| Ranks.PlaceLabels | stats/dicts.py:7-11 | 1, 2 and 3 are labelled First, Second and Third |
| Ranks.TiedLabels | stats/dicts.py:8-10 | for k in {1, 2}, the label of k+"t" is the label of k followed by " Tied" |
| Ranks.LabelsDistinct | stats/dicts.py:6-12 | no two ranks share a label |
| Filters.Rankify | app.py:71-80 | `rankify` returns a label exactly for the keys of `PANELIST_RANKS`, and the same label; any other key raises |
| Filters.RankLabelIsPanelistRanks | app.py:73-79 | the filter's table is identical to `PANELIST_RANKS` |

## Left out

- Configuration loading, the MySQL connection, template rendering, `generate_date_time_stamp`, `pretty_jsonify` and `error_500` are I/O or presentation. A page is modelled as the values it is given.
- The model assumes rendering succeeds. A template failure inside a `try` block would take that handler's fallback redirect.
- Flask routing itself is not modelled: which route a path matches, `strict_slashes`, and the `<int:...>` converter. Requests start out already matched.
- dateutil's `parser.parse` is an abstract parameter that returns a valid date or `None`. It fills missing fields from the current date, so it depends on the clock.
- `slugify` is an abstract parameter. Its idempotence is assumed only where a lemma says so.
- The listing routes (`/guests`, `/hosts`, `/panelists`, `/scorekeepers`) appear only as redirect targets. Their handlers are not part of the resolution core.
- `url_for` details are out: the stray `date_string_to_date=` query argument on the free-text redirect, and URL quoting of the panelist slug. Targets are named routes, not URL strings.
- Jinja's autoescaping of the "<slug> not found" text is not modelled.
- Routes.Resolve: it dispatches `/s/<text>` to the corrected `Routes.ArchiveRedirect`, so a parsed date with no show redirects to the site index, where the code raises `UnboundLocalError` (see "## Findings"). `Routes.ArchiveRedirectAsWritten` models the code as written, and `RouteProps.ArchiveCorrectionIsLocal` shows the two differ only in that case.
- Routes.ArchiveRedirect: a parse that yields a timezone-aware datetime makes the threshold comparison raise `TypeError`. The parser parameter returns only plain dates, so this failure is not modelled.
- Strftime.FormatYear: it pads years below 1000 to four digits. Some C libraries' `strftime("%Y")` leave them unpadded.
- The recent-show window and the on-this-day aggregator are not in this code. `retrieve_recent` and the on-this-day query live in the storage layer, with their date logic in SQL.
- `stats/random.py` (random SQL queries), `stats/utility.py` (clock and time-zone wrappers) and `static/js/init.js` (UI setup) are not part of this model.

## Findings

| source | as written | input that shows it | evidently intended | confidence | as-written member | corrected member |
|---|---|---|---|---|---|---|
| app.py:337-353 | when `date_exists` is false, `url` is never assigned, so `redirect(url)` raises `UnboundLocalError` and the request fails | `/s/2020-06-14` with a healthy store that has no show on that date (RouteProps.ArchiveMissFailsAsWritten) | redirect to the site index, as for text that does not parse | not executed; high | Routes.ArchiveRedirectAsWritten | Routes.ArchiveRedirect |

`Routes.Resolve` uses the corrected handler.
