/** The `/stats` endpoints (`app/api/analytics.py`): each looks the URL up,
    checks that the caller may see it, checks the date range where it takes
    one, and then hands the request to the analytics service unchanged. */
module AnalyticsApi {
  import opened Wrappers
  import opened Records
  import opened Tallies
  import opened Analytics
  import opened Http

  /** The authenticated caller. */
  datatype CurrentUser = CurrentUser(id: string, isAdmin: bool)

  const StatsForbidden := "Not authorized to view these stats"
  const Forbidden := "Not authorized"
  const BadRangeError := HttpError(400, "date_from must be before date_to")

  /** The ownership rule: admins see everything; anyone else only URLs whose
      owner reference carries their id (a URL without one is nobody's). */
  predicate MayView(user: CurrentUser, u: ShortUrl) {
    user.isAdmin || u.owner == Some(user.id)
  }

  /** The first two guards of every handler, in order: 404 for an unknown code,
      then 403 (with the handler's own detail) for a caller who may not see
      the URL; otherwise the URL. */
  function AccessGuard(urls: seq<ShortUrl>, code: string, user: CurrentUser, forbidden: string): (r: Result<ShortUrl, HttpError>)
    ensures r.Ok? <==> FindByCode(urls, code).Some? && MayView(user, FindByCode(urls, code).value)
    ensures r.Ok? ==> r.value == FindByCode(urls, code).value
    ensures r.Err? ==> r.error == (if FindByCode(urls, code).None? then NotFoundError else HttpError(403, forbidden))
  {
    match FindByCode(urls, code)
    case None => Err(NotFoundError)
    case Some(u) => if MayView(user, u) then Ok(u) else Err(HttpError(403, forbidden))
  }

  /** The date-range guard: 400 only when both dates are given and `date_from`
      is later than `date_to`. */
  function RangeGuard(dateFrom: Option<int>, dateTo: Option<int>): (r: Option<HttpError>)
    ensures r.Some? <==> dateFrom.Some? && dateTo.Some? && dateFrom.value > dateTo.value
    ensures r.Some? ==> r.value == BadRangeError
  {
    if dateFrom.Some? && dateTo.Some? && dateFrom.value > dateTo.value then Some(BadRangeError) else None
  }

  /** All guards of a handler that takes a date range, in order. */
  function RangedGuards(urls: seq<ShortUrl>, code: string, user: CurrentUser, forbidden: string,
                        dateFrom: Option<int>, dateTo: Option<int>): (r: Option<HttpError>)
    ensures r.None? <==> AccessGuard(urls, code, user, forbidden).Ok? && RangeGuard(dateFrom, dateTo).None?
  {
    match AccessGuard(urls, code, user, forbidden)
    case Err(e) => Some(e)
    case Ok(_) => RangeGuard(dateFrom, dateTo)
  }

  /** An unknown code is reported as 404 before ownership or dates are looked
      at, whoever asks and whatever the dates. */
  lemma UnknownCodeFirst(urls: seq<ShortUrl>, code: string, user: CurrentUser, forbidden: string,
                         dateFrom: Option<int>, dateTo: Option<int>)
    requires FindByCode(urls, code).None?
    ensures AccessGuard(urls, code, user, forbidden) == Err(NotFoundError)
    ensures RangedGuards(urls, code, user, forbidden, dateFrom, dateTo) == Some(NotFoundError)
  {
  }

  /** 403 happens exactly for a known URL and a caller who is neither an admin
      nor its owner, before the date check. */
  lemma ForbiddenExactly(urls: seq<ShortUrl>, code: string, user: CurrentUser, forbidden: string,
                         dateFrom: Option<int>, dateTo: Option<int>)
    ensures (RangedGuards(urls, code, user, forbidden, dateFrom, dateTo) == Some(HttpError(403, forbidden)))
        <==> (FindByCode(urls, code).Some? && !user.isAdmin && FindByCode(urls, code).value.owner != Some(user.id))
  {
  }

  /** Equal dates and a missing date are accepted; a reversed range is refused
      with a message naming `date_from`. */
  lemma RangeGuardCases(t: int, dateFrom: Option<int>, dateTo: Option<int>)
    ensures RangeGuard(Some(t), Some(t)).None?
    ensures RangeGuard(None, dateTo).None? && RangeGuard(dateFrom, None).None?
    ensures RangeGuard(Some(t + 1), Some(t)) == Some(BadRangeError)
    ensures BadRangeError.status == 400 && BadRangeError.detail[..9] == "date_from"
  {
  }

  /** `get_url_statistics`: the guards, then the service's report for the
      same code and the same, possibly absent, dates. The service's "not
      found" answer cannot occur once the URL has been found, so the handler's
      "Statistics not found" branch is dead. */
  method GetUrlStatistics(urls: seq<ShortUrl>, log: seq<Click>, code: string, user: CurrentUser,
                          dateFrom: Option<int>, dateTo: Option<int>, now: int) returns (r: Result<UrlStats, HttpError>)
    ensures var g := RangedGuards(urls, code, user, StatsForbidden, dateFrom, dateTo);
      g.Some? ==> r == Err(g.value)
    ensures RangedGuards(urls, code, user, StatsForbidden, dateFrom, dateTo).None? ==>
      var u := FindByCode(urls, code).value;
      r.Ok? && IsStatsReport(u, code, FetchClicks(log, u.id, dateFrom, dateTo), dateFrom, dateTo, now, r.value)
  {
    var access := AccessGuard(urls, code, user, StatsForbidden);
    if access.Err? {
      return Err(access.error);
    }
    var range := RangeGuard(dateFrom, dateTo);
    if range.Some? {
      return Err(range.value);
    }
    var stats := GetUrlStats(urls, log, code, dateFrom, dateTo, now);
    r := Ok(stats.value);
  }

  /** The body of a successful export: the CSV rows, the media type and the
      `Content-Disposition` header. */
  datatype CsvDownload = CsvDownload(rows: seq<seq<Cell>>, mediaType: string, disposition: string)

  /** The attachment file name of the export of `code`. */
  function ExportFileName(code: string): (name: string)
    ensures |name| == |code| + 14
    ensures name[..|code|] == code && name[|code|..] == "-analytics.csv"
  {
    code + "-analytics.csv"
  }

  /** `export_analytics_csv`: the guards, then the service's CSV for the same
      code and dates, as a `text/csv` attachment named after the code. The
      service's `None` cannot occur once the URL has been found, so the second
      404 branch is dead. */
  method ExportAnalyticsCsv(urls: seq<ShortUrl>, log: seq<Click>, code: string, user: CurrentUser,
                            dateFrom: Option<int>, dateTo: Option<int>) returns (r: Result<CsvDownload, HttpError>)
    ensures var g := RangedGuards(urls, code, user, Forbidden, dateFrom, dateTo);
      g.Some? ==> r == Err(g.value)
    ensures RangedGuards(urls, code, user, Forbidden, dateFrom, dateTo).None? ==>
      var cs := FetchClicks(log, FindByCode(urls, code).value.id, dateFrom, dateTo);
      && r.Ok?
      && r.value.mediaType == "text/csv"
      && r.value.disposition == "attachment; filename=\"" + ExportFileName(code) + "\""
      && |r.value.rows| == |cs| + 1 && r.value.rows[0] == CsvHeader
      && forall i :: 0 <= i < |cs| ==> r.value.rows[i + 1] == CsvRow(cs[i])
  {
    var access := AccessGuard(urls, code, user, Forbidden);
    if access.Err? {
      return Err(access.error);
    }
    var range := RangeGuard(dateFrom, dateTo);
    if range.Some? {
      return Err(range.value);
    }
    var content := ExportClicksCsv(urls, log, code, dateFrom, dateTo);
    r := Ok(CsvDownload(content.value, "text/csv", "attachment; filename=\"" + ExportFileName(code) + "\""));
  }

  /** `get_realtime_clicks`: the access guards, then `{short_code, clicks}`. */
  function RealtimeHandler(urls: seq<ShortUrl>, cache: CacheRead, code: string, user: CurrentUser): (r: Result<(string, int), HttpError>)
    ensures AccessGuard(urls, code, user, Forbidden).Err? ==> r == Err(AccessGuard(urls, code, user, Forbidden).error)
    ensures AccessGuard(urls, code, user, Forbidden).Ok? ==>
      r.Ok? && r.value.0 == code
      && r.value.1 == (if cache.Hit? then cache.value else FindByCode(urls, code).value.clicks)
  {
    match AccessGuard(urls, code, user, Forbidden)
    case Err(e) => Err(e)
    case Ok(_) => Ok((code, RealtimeClicks(cache, urls, code)))
  }

  /** `get_browser_breakdown`: the access guards, then `{short_code, browsers}`. */
  function BrowserHandler(urls: seq<ShortUrl>, log: seq<Click>, code: string, user: CurrentUser): (r: Result<(string, seq<Entry>), HttpError>)
    ensures AccessGuard(urls, code, user, Forbidden).Err? ==> r == Err(AccessGuard(urls, code, user, Forbidden).error)
    ensures AccessGuard(urls, code, user, Forbidden).Ok? ==>
      r.Ok? && r.value.0 == code
      && IsFieldBreakdown(AllClicks(log, FindByCode(urls, code).value.id), Browser, None, r.value.1)
  {
    match AccessGuard(urls, code, user, Forbidden)
    case Err(e) => Err(e)
    case Ok(_) => Ok((code, BrowserStats(urls, log, code)))
  }

  /** `get_os_breakdown`: the access guards, then `{short_code, operating_systems}`. */
  function OsHandler(urls: seq<ShortUrl>, log: seq<Click>, code: string, user: CurrentUser): (r: Result<(string, seq<Entry>), HttpError>)
    ensures AccessGuard(urls, code, user, Forbidden).Err? ==> r == Err(AccessGuard(urls, code, user, Forbidden).error)
    ensures AccessGuard(urls, code, user, Forbidden).Ok? ==>
      r.Ok? && r.value.0 == code
      && IsFieldBreakdown(AllClicks(log, FindByCode(urls, code).value.id), Os, None, r.value.1)
  {
    match AccessGuard(urls, code, user, Forbidden)
    case Err(e) => Err(e)
    case Ok(_) => Ok((code, OsStats(urls, log, code)))
  }
}
