/** The request handlers of the web application: each maps a matched route,
    the storage collaborator's answers, and the two library calls it makes
    (the free-text date parser and `slugify`) to the response it returns. */
module Routes {
  import opened Results
  import opened Calendar
  import opened Seqs
  import opened Domain
  import Archive

  /** Flask's `redirect` default, "302 Found". */
  const Temporary: int := 302
  /** "301 Moved Permanently", used by the singular-to-plural aliases and by
      the free-text show date route. */
  const Permanent: int := 301

  /** A request whose path already matched one of the modelled routes; the
      `<int:...>` converters only accept non-negative integers. */
  datatype Request =
    | Home                                                // "/"
    | ShowIndex                                           // "/shows"
    | ShowsYear(year: nat)                                // "/shows/<int:year>"
    | ShowsText(text: string)                             // "/shows/<string:show_date>"
    | ShowsYearMonth(year: nat, month: nat)               // "/shows/<int:year>/<int:month>"
    | ShowsYearMonthDay(year: nat, month: nat, day: nat)  // "/shows/<int:year>/<int:month>/<int:day>"
    | ShowsYearAll(year: nat)                             // "/shows/<int:year>/all"
    | ShowsRecent                                         // "/shows/recent"
    | ArchiveLink(text: string)                           // "/s/<string:show_date>"
    | LocationAlias                                       // "/location"
    | ShowAlias                                           // "/show"
    | KindAlias(kind: Kind)                               // "/guest", "/host", "/panelist", "/scorekeeper"
    | Detail(kind: Kind, raw: string)                     // "/<kind>s/<string:...>"

  /** Where a redirect points: the route `url_for` names, or an external URL. */
  datatype Target =
    | IndexPath
    | ShowsPath
    | YearPath(year: int)
    | DayPath(year: int, month: int, day: int)
    | ListingPath(kind: Kind)
    | PanelistPath(slug: string)
    | External(url: string)

  /** What a rendered page is given (template plumbing such as the timestamp
      and the analytics code left aside). */
  datatype Page =
    | IndexView(years: seq<int>, shows: seq<Show>)
    | ShowsView(years: seq<int>)
    | YearView(firstDay: Date, months: seq<Date>)
    | YearMonthView(years: seq<int>, yearMonth: Date, shows: seq<Show>)
    | DayView(years: seq<int>, today: Date, shows: seq<Show>)
    | YearAllView(year: int, shows: seq<Show>)
    | EntityView(entity: Entity)
    | NotFoundText(text: string)

  /** `Error` stands for an uncaught exception or a view returning `None`,
      both of which Flask turns into a server error. */
  datatype Response =
    | Render(page: Page)
    | Redirect(target: Target, code: int)
    | Error

  /** The per-request collaborators: storage, the free-text date parser
      (`None` when it raises) and `slugify`. */
  datatype Env = Env(
    storage: Storage,
    parse: string -> Option<ValidDate>,
    slugify: string -> string)

  /** `/`: recent shows and show years, each in the reverse of the storage's order. */
  function Index(st: Storage): (r: Response)
    ensures r.Render? <==> st.reconnects && st.recent.Ok? && st.years.Ok?
    ensures !r.Redirect?
    ensures r.Render? ==> r.page.IndexView?
    ensures r.Render? ==> multiset(r.page.shows) == multiset(st.recent.value)
    ensures r.Render? ==> |r.page.shows| == |st.recent.value|
    ensures r.Render? ==> forall i :: 0 <= i < |r.page.shows| ==>
      r.page.shows[i] == st.recent.value[|st.recent.value| - 1 - i]
    ensures r.Render? ==> |r.page.years| == |st.years.value|
    ensures r.Render? ==> forall i :: 0 <= i < |r.page.years| ==>
      r.page.years[i] == st.years.value[|st.years.value| - 1 - i]
  {
    if !st.reconnects || st.recent.Fault? then Error
    else
      var shows := Reverse(st.recent.value);
      ReversePermutes(st.recent.value);
      match ShowYears(st)
      case Fault => Error
      case Ok(years) => Render(IndexView(years, shows))
  }

  /** `/shows`: the year index in the reverse of the storage's order; no exception handler. */
  function ShowIndexPage(st: Storage): (r: Response)
    ensures r.Render? <==> st.reconnects && st.years.Ok?
    ensures !r.Render? ==> r.Error?
    ensures r.Render? ==> r.page.ShowsView?
    ensures r.Render? ==> |r.page.years| == |st.years.value|
    ensures r.Render? ==> forall i :: 0 <= i < |r.page.years| ==>
      r.page.years[i] == st.years.value[|st.years.value| - 1 - i]
  {
    if !st.reconnects then Error
    else match ShowYears(st)
      case Fault => Error
      case Ok(years) => Render(ShowsView(years))
  }

  /** The first day of each month the storage lists for year `y`, or `None`
      when one of them makes `date(y, month, 1)` raise. */
  function FirstOfMonths(y: int, months: seq<int>): (r: Option<seq<Date>>)
    requires MinYear <= y <= MaxYear
    ensures r.Some? <==> forall i :: 0 <= i < |months| ==> 1 <= months[i] <= 12
    ensures r.Some? ==> |r.value| == |months|
    ensures r.Some? ==> forall i :: 0 <= i < |months| ==>
      r.value[i] == Date(y, months[i], 1) && IsValid(r.value[i])
  {
    if |months| == 0 then Some([])
    else if !(1 <= months[0] <= 12) then None
    else match FirstOfMonths(y, months[1..])
      case None => None
      case Some(rest) => Some([Date(y, months[0], 1)] + rest)
  }

  /** `/shows/<year>`: one first-of-month date per month with shows, in the
      storage's order. An empty month list still renders; an invalid year,
      an invalid month or any fault falls back to `/shows`. */
  function ShowsYearPage(y: nat, st: Storage): (r: Response)
    ensures r.Render? <==>
      && MinYear <= y <= MaxYear && st.reconnects && st.monthsByYear(y).Ok?
      && forall i :: 0 <= i < |st.monthsByYear(y).value| ==> 1 <= st.monthsByYear(y).value[i] <= 12
    ensures r.Render? ==> r.page.YearView? && r.page.firstDay == Date(y, 1, 1)
    ensures r.Render? ==> |r.page.months| == |st.monthsByYear(y).value|
    ensures r.Render? ==> forall i :: 0 <= i < |r.page.months| ==>
      r.page.months[i] == Date(y, st.monthsByYear(y).value[i], 1)
    ensures !r.Render? ==> r == Redirect(ShowsPath, Temporary)
  {
    if !(MinYear <= y <= MaxYear) || !st.reconnects then Redirect(ShowsPath, Temporary)
    else match st.monthsByYear(y)
      case Fault => Redirect(ShowsPath, Temporary)
      case Ok(months) =>
        match FirstOfMonths(y, months)
        case None => Redirect(ShowsPath, Temporary)
        case Some(firsts) => Render(YearView(Date(y, 1, 1), firsts))
  }

  /** `/shows/<text>`: a free-text date is only ever turned into a permanent
      redirect to its day route; text that does not parse goes to `/shows`. */
  function ShowsTextPage(text: string, parse: string -> Option<ValidDate>): (r: Response)
    ensures r.Redirect?
    ensures r.code == Permanent <==> parse(text).Some?
    ensures parse(text).None? ==> r == Redirect(ShowsPath, Temporary)
    ensures parse(text).Some? ==> r.target.DayPath?
    ensures parse(text).Some? ==>
      Date(r.target.year, r.target.month, r.target.day) == parse(text).value
  {
    match parse(text)
    case None => Redirect(ShowsPath, Temporary)
    case Some(d) => Redirect(DayPath(d.year, d.month, d.day), Permanent)
  }

  /** `/shows/<year>/<month>`: the month's shows unchanged; no shows goes to
      the site index; an invalid month or any fault goes to `/shows/<year>`. */
  function ShowsYearMonthPage(y: nat, m: nat, st: Storage): (r: Response)
    ensures r.Render? <==>
      && IsValid(Date(y, m, 1)) && st.reconnects && st.byYearMonth(y, m).Ok?
      && |st.byYearMonth(y, m).value| > 0 && st.years.Ok?
    ensures r.Render? ==> r.page == YearMonthView(ShowYears(st).value, Date(y, m, 1), st.byYearMonth(y, m).value)
    ensures r == Redirect(IndexPath, Temporary) <==>
      IsValid(Date(y, m, 1)) && st.reconnects && st.byYearMonth(y, m) == Ok([])
    ensures !r.Render? && r != Redirect(IndexPath, Temporary) ==> r == Redirect(YearPath(y), Temporary)
  {
    var fallback := Redirect(YearPath(y), Temporary);
    if !(MinYear <= y <= MaxYear && 1 <= m <= 12) || !st.reconnects then fallback
    else match st.byYearMonth(y, m)
      case Fault => fallback
      case Ok(shows) =>
        if |shows| == 0 then Redirect(IndexPath, Temporary)
        else match ShowYears(st)
          case Fault => fallback
          case Ok(years) => Render(YearMonthView(years, Date(y, m, 1), shows))
  }

  /** `/shows/<year>/<month>/<day>`: the one show of that date; no show goes
      to the site index; an invalid date or any fault goes to `/shows`. */
  function ShowsYearMonthDayPage(y: nat, m: nat, d: nat, st: Storage): (r: Response)
    ensures r.Render? <==>
      && IsValid(Date(y, m, d)) && st.reconnects && st.byDate(Date(y, m, d)).Ok?
      && st.byDate(Date(y, m, d)).value.Some? && st.years.Ok?
    ensures r.Render? ==> r.page.DayView? && r.page.today == Date(y, m, d)
    ensures r.Render? ==> r.page.years == ShowYears(st).value
    ensures r.Render? ==> r.page.shows == [st.byDate(Date(y, m, d)).value.value]
    ensures r == Redirect(IndexPath, Temporary) <==>
      IsValid(Date(y, m, d)) && st.reconnects && st.byDate(Date(y, m, d)) == Ok(None)
    ensures !r.Render? && r != Redirect(IndexPath, Temporary) ==> r == Redirect(ShowsPath, Temporary)
  {
    var fallback := Redirect(ShowsPath, Temporary);
    var today := Date(y, m, d);
    if !IsValid(today) || !st.reconnects then fallback
    else match st.byDate(today)
      case Fault => fallback
      case Ok(None) => Redirect(IndexPath, Temporary)
      case Ok(Some(show)) =>
        match ShowYears(st)
        case Fault => fallback
        case Ok(years) => Render(DayView(years, today, [show]))
  }

  /** `/shows/<year>/all`: every show of the year; no shows goes to
      `/shows/<year>`; any fault goes to `/shows`. The year is not validated. */
  function ShowsYearAllPage(y: nat, st: Storage): (r: Response)
    ensures r.Render? <==> st.reconnects && st.byYear(y).Ok? && |st.byYear(y).value| > 0
    ensures r.Render? ==> r.page == YearAllView(y, st.byYear(y).value)
    ensures r == Redirect(YearPath(y), Temporary) <==> st.reconnects && st.byYear(y) == Ok([])
    ensures !r.Render? && r != Redirect(YearPath(y), Temporary) ==> r == Redirect(ShowsPath, Temporary)
  {
    if !st.reconnects then Redirect(ShowsPath, Temporary)
    else match st.byYear(y)
      case Fault => Redirect(ShowsPath, Temporary)
      case Ok(shows) =>
        if |shows| == 0 then Redirect(YearPath(y), Temporary)
        else Render(YearAllView(y, shows))
  }

  /** `/s/<text>` exactly as written: when the date parses but is not a show
      date, the handler reaches `redirect(url)` with `url` never assigned,
      and the request fails. A storage fault also fails the request. */
  function ArchiveRedirectAsWritten(text: string, parse: string -> Option<ValidDate>, st: Storage): (r: Response)
    ensures parse(text).None? ==> r == Redirect(IndexPath, Temporary)
    ensures r.Redirect? && r.target.External? ==>
      parse(text).Some? && st.dateExists(parse(text).value) == Ok(true)
      && Archive.DecodeArchiveUrl(r.target.url) == Some(parse(text).value)
    ensures parse(text).Some? ==> (r.Error? <==> st.dateExists(parse(text).value) != Ok(true))
    ensures !r.Render?
    ensures parse(text).Some? && st.dateExists(parse(text).value) == Ok(true) ==>
      r == Redirect(External(Archive.ArchiveUrl(parse(text).value)), Temporary)
  {
    match parse(text)
    case None => Redirect(IndexPath, Temporary)
    case Some(d) =>
      match st.dateExists(d)
      case Fault => Error
      case Ok(isShow) =>
        if isShow then
          Archive.ArchiveUrlRoundTrip(d);
          Redirect(External(Archive.ArchiveUrl(d)), Temporary)
        else Error
  }

  /** `/s/<text>` as evidently intended: a parsed date that is not a show
      date goes to the site index, like text that does not parse. */
  function ArchiveRedirect(text: string, parse: string -> Option<ValidDate>, st: Storage): (r: Response)
    ensures r.Error? <==> parse(text).Some? && st.dateExists(parse(text).value).Fault?
    ensures r.Redirect? ==> r.code == Temporary
    ensures r.Redirect? ==> (r.target.External? <==>
      parse(text).Some? && st.dateExists(parse(text).value) == Ok(true))
    ensures r.Redirect? && !r.target.External? ==> r.target == IndexPath
    ensures r.Redirect? && r.target.External? ==>
      Archive.DecodeArchiveUrl(r.target.url) == Some(parse(text).value)
    ensures !r.Render?
    ensures parse(text).Some? && st.dateExists(parse(text).value) == Ok(true) ==>
      r == Redirect(External(Archive.ArchiveUrl(parse(text).value)), Temporary)
  {
    match parse(text)
    case None => Redirect(IndexPath, Temporary)
    case Some(d) =>
      match st.dateExists(d)
      case Fault => Error
      case Ok(isShow) =>
        if isShow then
          Archive.ArchiveUrlRoundTrip(d);
          Redirect(External(Archive.ArchiveUrl(d)), Temporary)
        else Redirect(IndexPath, Temporary)
  }

  /** The `/<kind>s/<raw>` detail handlers. Only the panelist handler
      canonicalises: a segment that is not its own slug is redirected (302)
      to the slug without a lookup, and a slug with no panelist returns
      nothing. The others look the slug up directly and render
      "<slug> not found" on a miss. */
  function EntityDetail(kind: Kind, raw: string, st: Storage, slugify: string -> string): (r: Response)
    ensures !st.reconnects ==> r.Error?
    ensures r.Redirect? <==> st.reconnects && kind == Panelist && raw != slugify(raw)
    ensures r.Redirect? ==> r == Redirect(PanelistPath(slugify(raw)), Temporary)
    ensures r.Render? <==>
      && st.reconnects && (kind == Panelist ==> raw == slugify(raw))
      && st.bySlug(kind, slugify(raw)).Ok?
      && (kind == Panelist ==> st.bySlug(kind, slugify(raw)).value.Some?)
    ensures r.Render? && st.bySlug(kind, slugify(raw)).value.Some? ==>
      r.page == EntityView(st.bySlug(kind, slugify(raw)).value.value)
    ensures r.Render? && st.bySlug(kind, slugify(raw)).value.None? ==>
      r.page == NotFoundText(slugify(raw) + " not found")
  {
    var slug := slugify(raw);
    if !st.reconnects then Error
    else if kind == Panelist && raw != slug then Redirect(PanelistPath(slug), Temporary)
    else match st.bySlug(kind, slug)
      case Fault => Error
      case Ok(Some(e)) => Render(EntityView(e))
      case Ok(None) => if kind == Panelist then Error else Render(NotFoundText(slug + " not found"))
  }

  /** Dispatches a matched request to its handler. */
  function Resolve(req: Request, env: Env): (r: Response)
    ensures r.Redirect? ==> r.code == Temporary || r.code == Permanent
  {
    var st := env.storage;
    match req
    case Home => Index(st)
    case ShowIndex => ShowIndexPage(st)
    case ShowsYear(y) => ShowsYearPage(y, st)
    case ShowsText(text) => ShowsTextPage(text, env.parse)
    case ShowsYearMonth(y, m) => ShowsYearMonthPage(y, m, st)
    case ShowsYearMonthDay(y, m, d) => ShowsYearMonthDayPage(y, m, d, st)
    case ShowsYearAll(y) => ShowsYearAllPage(y, st)
    case ShowsRecent => Redirect(IndexPath, Temporary)
    case ArchiveLink(text) => ArchiveRedirect(text, env.parse, st)
    case LocationAlias => Redirect(IndexPath, Temporary)
    case ShowAlias => Redirect(ShowsPath, Permanent)
    case KindAlias(kind) => Redirect(ListingPath(kind), Permanent)
    case Detail(kind, raw) => EntityDetail(kind, raw, st, env.slugify)
  }
}
