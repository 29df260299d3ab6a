/** Properties that relate several routes of the application to each other. */
module RouteProps {
  import opened Results
  import opened Calendar
  import opened Domain
  import opened Routes
  import Archive

  /** The route a redirect target names, when that route is part of the model. */
  function RouteOf(t: Target): Option<Request>
  {
    match t
    case IndexPath => Some(Home)
    case ShowsPath => Some(ShowIndex)
    case YearPath(y) => if y >= 0 then Some(ShowsYear(y)) else None
    case DayPath(y, m, d) =>
      if y >= 0 && m >= 0 && d >= 0 then Some(ShowsYearMonthDay(y, m, d)) else None
    case PanelistPath(slug) => Some(Detail(Panelist, slug))
    case ListingPath(_) => None
    case External(_) => None
  }

  /** How far a request sits from a route that never redirects. */
  function Height(req: Request, slugify: string -> string): nat
  {
    match req
    case Home => 0
    case ShowIndex => 0
    case ShowsYear(_) => 1
    case ShowsRecent => 1
    case LocationAlias => 1
    case ShowAlias => 1
    case KindAlias(_) => 1
    case ArchiveLink(_) => 1
    case ShowsYearMonth(_, _) => 2
    case ShowsYearMonthDay(_, _, _) => 2
    case ShowsYearAll(_) => 2
    case ShowsText(_) => 3
    case Detail(kind, raw) => if kind == Panelist && raw != slugify(raw) then 1 else 0
  }

  /** Where each route can redirect to. */
  function Successors(req: Request, env: Env): set<Target>
  {
    match req
    case Home => {}
    case ShowIndex => {}
    case ShowsYear(_) => {ShowsPath}
    case ShowsRecent => {IndexPath}
    case LocationAlias => {IndexPath}
    case ShowAlias => {ShowsPath}
    case KindAlias(kind) => {ListingPath(kind)}
    case ArchiveLink(text) =>
      if env.parse(text).Some? then {IndexPath, External(Archive.ArchiveUrl(env.parse(text).value))}
      else {IndexPath}
    case ShowsYearMonth(y, _) => {IndexPath, YearPath(y)}
    case ShowsYearMonthDay(_, _, _) => {IndexPath, ShowsPath}
    case ShowsYearAll(y) => {YearPath(y), ShowsPath}
    case ShowsText(text) =>
      if env.parse(text).Some? then
        var d := env.parse(text).value;
        {DayPath(d.year, d.month, d.day)}
      else {ShowsPath}
    case Detail(kind, raw) =>
      if kind == Panelist && raw != env.slugify(raw) then {PanelistPath(env.slugify(raw))} else {}
  }

  lemma RedirectTargets(req: Request, env: Env)
    ensures var r := Resolve(req, env);
      r.Redirect? ==> r.target in Successors(req, env)
  {
    var st := env.storage;
    match req
    case ShowsYear(y) =>
      assert ShowsYearPage(y, st).Redirect? ==> ShowsYearPage(y, st).target == ShowsPath;
    case ShowsYearMonth(y, m) =>
      var r := ShowsYearMonthPage(y, m, st);
      assert r.Redirect? ==> r.target == IndexPath || r.target == YearPath(y);
    case ShowsYearMonthDay(y, m, d) =>
      var r := ShowsYearMonthDayPage(y, m, d, st);
      assert r.Redirect? ==> r.target == IndexPath || r.target == ShowsPath;
    case ShowsYearAll(y) =>
      var r := ShowsYearAllPage(y, st);
      assert r.Redirect? ==> r.target == YearPath(y) || r.target == ShowsPath;
    case _ =>
  }

  /** Every redirect into a modelled route lands strictly closer to a page
      that renders, so following redirects always stops: there is no
      redirect loop. For panelists this needs `slugify` to leave a slug
      unchanged. */
  lemma RedirectsClimb(req: Request, env: Env)
    requires req.Detail? ==> env.slugify(env.slugify(req.raw)) == env.slugify(req.raw)
    ensures var r := Resolve(req, env);
      r.Redirect? && RouteOf(r.target).Some? ==>
        Height(RouteOf(r.target).value, env.slugify) < Height(req, env.slugify)
  {
    var r := Resolve(req, env);
    RedirectTargets(req, env);
    if r.Redirect? && RouteOf(r.target).Some? {
      SuccessorsClimb(req, env, r.target);
    }
  }

  lemma SuccessorsClimb(req: Request, env: Env, t: Target)
    requires t in Successors(req, env)
    requires req.Detail? ==> env.slugify(env.slugify(req.raw)) == env.slugify(req.raw)
    ensures RouteOf(t).Some? ==> Height(RouteOf(t).value, env.slugify) < Height(req, env.slugify)
  {
  }

  /** The singular paths are permanent aliases of the plural listings;
      `/location` and `/shows/recent` send the visitor to the site index
      with Flask's default code. */
  lemma AliasesRedirect(kind: Kind, env: Env)
    ensures Resolve(KindAlias(kind), env) == Redirect(ListingPath(kind), Permanent)
    ensures Resolve(ShowAlias, env) == Redirect(ShowsPath, Permanent)
    ensures Resolve(LocationAlias, env) == Redirect(IndexPath, Temporary)
    ensures Resolve(ShowsRecent, env) == Redirect(IndexPath, Temporary)
  {
  }

  /** Permanent redirects are exactly the canonicalising ones: the singular
      aliases and a free-text date that parses. */
  lemma PermanentOnlyWhenCanonicalising(req: Request, env: Env)
    ensures var r := Resolve(req, env);
      r.Redirect? && r.code == Permanent <==>
        req.ShowAlias? || req.KindAlias? || (req.ShowsText? && env.parse(req.text).Some?)
  {
  }

  /** The day route a parsed free-text date redirects to never takes the
      invalid-date branch: it renders that date, goes to the site index when
      the date has no show, and reaches `/shows` only on a storage fault. */
  lemma FreeTextLandsOnValidDay(text: string, env: Env)
    requires env.parse(text).Some?
    ensures var r := Resolve(ShowsText(text), env);
      RouteOf(r.target).Some? && RouteOf(r.target).value.ShowsYearMonthDay?
    ensures var r := Resolve(ShowsText(text), env);
      var next := Resolve(RouteOf(r.target).value, env);
      var st, d := env.storage, env.parse(text).value;
      && (next.Render? ==> next.page.today == d)
      && (next == Redirect(ShowsPath, Temporary) ==>
            !st.reconnects || st.byDate(d).Fault? || st.years.Fault?)
  {
  }

  /** The panelist redirect performs no lookup: its outcome does not depend
      on what the storage would answer. */
  lemma PanelistRedirectSkipsLookup(raw: string, env: Env, other: Storage)
    requires raw != env.slugify(raw)
    requires env.storage.reconnects && other.reconnects
    ensures Resolve(Detail(Panelist, raw), env)
      == Resolve(Detail(Panelist, raw), env.(storage := other))
    ensures Resolve(Detail(Panelist, raw), env) == Redirect(PanelistPath(env.slugify(raw)), Temporary)
  {
  }

  /** Following the panelist redirect once reaches a lookup, provided
      `slugify` is idempotent on that slug. */
  lemma PanelistCanonicalSettles(raw: string, env: Env)
    requires env.storage.reconnects
    requires env.slugify(env.slugify(raw)) == env.slugify(raw)
    ensures var r := Resolve(Detail(Panelist, raw), env);
      r.Redirect? ==> !Resolve(RouteOf(r.target).value, env).Redirect?
  {
  }

  /** Guest, host and scorekeeper pages never redirect, whatever the segment. */
  lemma OnlyPanelistsRedirect(kind: Kind, raw: string, env: Env)
    requires kind != Panelist
    ensures !Resolve(Detail(kind, raw), env).Redirect?
  {
  }

  /** A healthy store, a parser that reads any text as 2020-06-14, and no
      show on that date. */
  function NoShowEnv(): Env
  {
    var d: ValidDate := Date(2020, 6, 14);
    var st := Storage(true, Ok([]), Ok([]),
      _ => Ok([]), (_, _) => Ok([]), _ => Ok(None), _ => Ok([]),
      _ => Ok(false), (_, _) => Ok(None));
    Env(st, _ => Some(d), s => s)
  }

  /** The handler as written fails a request for a well-formed date with no
      show, where the corrected handler sends it to the site index. */
  lemma ArchiveMissFailsAsWritten()
    ensures ArchiveRedirectAsWritten("2020-06-14", NoShowEnv().parse, NoShowEnv().storage) == Error
    ensures Resolve(ArchiveLink("2020-06-14"), NoShowEnv()) == Redirect(IndexPath, Temporary)
  {
  }

  /** Outside that one case the corrected handler and the handler as
      written agree. */
  lemma ArchiveCorrectionIsLocal(text: string, env: Env)
    requires !(env.parse(text).Some? && env.storage.dateExists(env.parse(text).value) == Ok(false))
    ensures Resolve(ArchiveLink(text), env)
      == ArchiveRedirectAsWritten(text, env.parse, env.storage)
  {
  }
}
