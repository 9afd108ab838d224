# URL shortener backend: analytics, redirects, accounts, AI clean-up and input validation in Dafny

This project models the core of a URL-shortening service's backend and
proves properties about it. The service keeps short URLs and a log of
clicks. It redirects visitors, reports per-URL statistics, exports clicks as
CSV, manages password-reset tokens and post-processes AI content analysis.
The modelled parts are:

- **Analytics service** (`analytics.dfy`). It covers fetching a URL's clicks
  with the optional, day-inclusive date range, and the today and this-week
  counts. It covers the top referrers with the synthetic "Direct" bucket, the
  country and device breakdowns (`Counter.most_common`), and the
  clicks-over-time series with its zero-filled days. It also covers the
  realtime counter with its cache fallback, the browser and OS breakdowns, and
  the CSV export.
- **`Counter`** (`tallies.dfy`). Counts are kept in first-seen order and
  `most_common` is a stable descending sort.
- **Stats API guards** (`analytics_api.dfy`). These are the not-found,
  ownership and date-range checks in order, and how each handler passes the
  request to the service.
- **Redirect routes** (`redirect.dfy`). These cover expiry with naive or aware
  datetimes, the redirect, preview and screenshot decision chains, and the
  screenshot route's update of the stored screenshot id.
- **Account service** (`auth.py`, modelled in `auth.dfy`). It covers user
  creation, authentication and the password-reset token lifecycle over a
  mutable user collection.
- **AI result construction** (`ai.dfy`). It covers the early-return error
  results, the alias sanitiser, the tag and summary truncation and the
  `analyze_url` guard chain.
- **Request schemas** (`url_schemas.dfy`). These are the field constraints of
  `URLCreate`, `URLUpdate`, `BulkDeleteRequest` and `BulkDeleteResponse`,
  written as validators.

Time is an integer number of microseconds since the epoch, in UTC. A calendar
day is that number divided by 86 400 000 000. The day number stands for the
`YYYY-MM-DD` key that `strftime` prints, which names each day exactly once.
Microseconds rather than seconds are needed because the upper date bound is
widened to 23:59:59.999999. A `datetime` is modelled as a wall clock plus an
optional UTC offset, so that naive and aware values stay distinct where the
source tells them apart.

The database collections are sequences of records, and a lookup by short
code returns the first match. The Redis cache is a `CacheRead` value (no
client, raised, miss, or hit). The following are parameters of the model:
password hashing and checking, token generation, the clock, the AI HTTP call
and the page fetch. Two places update in place and are classes holding the
collection that their methods reassign:

- the screenshot route, which saves `preview_screenshot_id`;
- the account service, which saves and inserts users.

The loops of the source are methods with loop invariants, each proved against
a specification function:

- the per-day dictionary and the day walk of the series;
- the CSV writer.

The referrer list, which is appended to, sorted and cut, is a straight-line
method proved against its specification predicate.

## Model

| member | source | states |
|---|---|---|
| Analytics.FetchClicks | backend/app/services/analytics.py:34-47 | a click is fetched iff it belongs to the URL, is at or after `date_from` when given, and at or before the end of the day of `date_to` when given |
| Analytics.FetchClicksCount | backend/app/services/analytics.py:34-50 | each matching click is fetched exactly as often as it is stored and no other click is fetched, so `total_clicks` is the number of matching clicks |
| Analytics.FetchClicksConcat | backend/app/services/analytics.py:47 | fetching a log made of two parts gives the fetch of the first part followed by the fetch of the second, so storage order is kept |
| Analytics.FetchClicksSnoc | backend/app/services/analytics.py:47 | appending a click to the log appends it to the result exactly when it matches the query |
| Analytics.FetchClicksOne | backend/app/services/analytics.py:34-47 | a one-click log gives that click when it matches the query, and nothing otherwise |
| Analytics.DateToCoversWholeDay | backend/app/services/analytics.py:40-43 | the widened upper bound admits a click exactly when its calendar day is not after the day of `date_to`, whatever the time of `date_to` |
| Analytics.RecentWindows | backend/app/services/analytics.py:30-32 | today's count ≤ this week's count ≤ the total, with today starting at UTC midnight and the week 7 days before it |
| Analytics.CountSinceAntitone | backend/app/services/analytics.py:51-52 | a later window start never counts more clicks |
| Analytics.PresentValuesCount | backend/app/services/analytics.py:55 | the list of non-empty values holds each value as often as clicks carry it |
| Analytics.BreakdownShape | backend/app/services/analytics.py:70-82 | a breakdown is sorted by non-increasing count, has distinct keys, has as many entries as there are distinct values (at most the cap, when one is given), and its counts sum to at most the number of values |
| Analytics.BreakdownEntries | backend/app/services/analytics.py:70-82 | every entry has a non-empty key whose count is the number of clicks with that value |
| Analytics.BreakdownCovers | backend/app/services/analytics.py:78-82 | an uncapped breakdown lists every value that occurs |
| Analytics.BreakdownRanks | backend/app/services/analytics.py:72-75 | a value left out of a capped breakdown has no more clicks than any value kept |
| Analytics.BreakdownTotal | backend/app/services/analytics.py:70-82 | the counts of a breakdown sum to at most the number of clicks considered |
| Analytics.BreakdownFacts | backend/app/services/analytics.py:70-82 | each breakdown meets the full breakdown specification |
| Analytics.DirectCount | backend/app/services/analytics.py:63 | the Direct count plus the number of clicks with a referrer is the number of clicks |
| Analytics.TopReferrers | backend/app/services/analytics.py:55-67 | the referrer list meets its specification: at most 10 entries, sorted by non-increasing count, the top referrers plus a Direct entry placed by a stable sort exactly when some click has no referrer |
| Analytics.TopWithoutDirect | backend/app/services/analytics.py:55-60 | with no direct clicks the list is the top-10 referrer breakdown |
| Analytics.TopWithDirect | backend/app/services/analytics.py:62-67 | with direct clicks the list is the stable top 10 of the referrer counts with the Direct entry appended |
| Analytics.DirectKept | backend/app/services/analytics.py:64-67 | the Direct entry survives the cut whenever fewer than 10 referrers are listed |
| Analytics.PoolTotal | backend/app/services/analytics.py:55-65 | the referrer counts plus the Direct count never exceed the number of clicks |
| Analytics.ClicksOverTime | backend/app/services/analytics.py:85-100 | the series built with the dictionary and the day walk equals the specified series: one item per day step while at or before the end, each with that day's clicks at or after the start, 0 when there are none |
| Analytics.SeriesEnds | backend/app/services/analytics.py:96-100 | the series starts on the start day, advances one day per item, and ends on the day of the end, or the day before when the end's time of day is earlier than the start's |
| Analytics.DefaultSeries | backend/app/services/analytics.py:85-86 | without dates the series has 31 items, from 30 days ago to today |
| Analytics.MarchSeries | backend/app/services/analytics.py:96-100 | from 2025-03-01 to 2025-03-10 there are 10 items, the first dated 2025-03-01 and the last 2025-03-10 |
| Analytics.SeriesPrefixSum | backend/app/services/analytics.py:89-99 | the first k items count exactly the clicks on the first k days |
| Analytics.SeriesCountsEveryClick | backend/app/services/analytics.py:34-100 | with both dates given and the start's time of day not after the end's, the series counts add up to the total |
| Analytics.GetUrlStats | backend/app/services/analytics.py:12-112 | None exactly for an unknown code; otherwise every field of the report meets its specification over the fetched clicks |
| Analytics.StatsReportFacts | backend/app/services/analytics.py:50-100 | in every report today ≤ week ≤ total, the lists are sorted and bounded, country and device counts are exact and sum to at most the total, and the series has its specified length |
| Analytics.RealtimeClicks | backend/app/services/analytics.py:115-128 | a cached counter is returned when present; otherwise the stored click count, or 0 for an unknown code |
| Analytics.CacheFailureIsSilent | backend/app/services/analytics.py:117-124 | a cache error gives the same answer as having no cache |
| Analytics.BrowserStats | backend/app/services/analytics.py:171-181 | empty for an unknown code; otherwise the uncapped browser breakdown over all of the URL's clicks |
| Analytics.OsStats | backend/app/services/analytics.py:184-194 | empty for an unknown code; otherwise the uncapped OS breakdown over all of the URL's clicks |
| Analytics.CsvRow | backend/app/services/analytics.py:231-240 | a row has the header's seven columns, the timestamp first and text in the rest |
| Analytics.CsvRowRoundTrip | backend/app/services/analytics.py:232-240 | reading a row back recovers the click; the only thing lost is the difference between an absent and an empty field |
| Analytics.WriteCsv | backend/app/services/analytics.py:225-242 | the output is the fixed header followed by one row per click in order |
| Analytics.ExportClicksCsv | backend/app/services/analytics.py:197-242 | None exactly for an unknown code; otherwise the header and one row per fetched click |
| Tallies.TallyIsCounter | backend/app/services/analytics.py:56 | the counter has one entry per distinct value in first-seen order, each counting that value's occurrences, and the counts sum to the number of values |
| Tallies.MostCommonShape | backend/app/services/analytics.py:59 | `most_common(n)` has min(n, size) entries, is sorted, is a prefix of the stable sort and keeps distinct keys |
| Tallies.MostCommonRanks | backend/app/services/analytics.py:59 | an entry left out ranks no higher than any entry kept |
| Tallies.SortDescFacts | backend/app/services/analytics.py:66 | the stable descending sort is sorted, is a permutation and keeps the order of equal counts |
| AnalyticsApi.AccessGuard | backend/app/api/analytics.py:47-59 | 404 for an unknown code, else 403 for a caller who is neither an admin nor the owner, else the URL |
| AnalyticsApi.RangeGuard | backend/app/api/analytics.py:61-66 | 400 exactly when both dates are given and `date_from` is later than `date_to` |
| AnalyticsApi.UnknownCodeFirst | backend/app/api/analytics.py:47-50 | an unknown code is answered 404 whoever asks and whatever the dates |
| AnalyticsApi.ForbiddenExactly | backend/app/api/analytics.py:52-59 | 403 happens iff the URL exists and the caller is neither an admin nor its owner |
| AnalyticsApi.RangeGuardCases | backend/app/api/analytics.py:61-66 | equal or missing dates pass, and a reversed range gives 400 with a message naming `date_from` |
| AnalyticsApi.GetUrlStatistics | backend/app/api/analytics.py:25-72 | guard errors in order; otherwise the service's report for the same code and the unchanged, possibly absent, dates |
| AnalyticsApi.ExportAnalyticsCsv | backend/app/api/analytics.py:145-187 | guard errors in order; otherwise `text/csv` with the header and one row per fetched click, as an attachment named `<code>-analytics.csv` |
| AnalyticsApi.ExportFileName | backend/app/api/analytics.py:186 | the file name is the code followed by `-analytics.csv` |
| AnalyticsApi.RealtimeHandler | backend/app/api/analytics.py:75-96 | the access guards, then the code with the realtime count |
| AnalyticsApi.BrowserHandler | backend/app/api/analytics.py:99-119 | the access guards, then the code with the browser breakdown |
| AnalyticsApi.OsHandler | backend/app/api/analytics.py:122-142 | the access guards, then the code with the OS breakdown |
| Redirect.IsExpired | backend/app/api/redirect.py:21-29 | no expiry is never expired; a naive expiry is read as UTC; expired iff now is strictly after the expiry |
| Redirect.ExpiryIsFinal | backend/app/api/redirect.py:29 | once expired, a link stays expired |
| Redirect.ExpiryBoundary | backend/app/api/redirect.py:29 | a link is still live at the exact expiry instant and expired one microsecond later |
| Redirect.RedirectGuard | backend/app/api/redirect.py:40-59 | 404 if missing, then 410 if inactive, then 410 "URL has expired" if expired, else the URL |
| Redirect.RedirectToUrl | backend/app/api/redirect.py:32-80 | a click is logged iff the guards pass, and then the answer is a 302 to the original URL |
| Redirect.RedirectFacts | backend/app/api/redirect.py:66-80 | a failing click logger does not change the response, and a successful redirect goes to `original_url` with 302 |
| Redirect.PreviewGuard | backend/app/api/redirect.py:91-104 | 404 for a missing or inactive URL, then 410 if expired, else the URL |
| Redirect.PreviewAgreesWithRedirect | backend/app/api/redirect.py:40-104 | the preview guard differs from the redirect guard only by answering 404 instead of 410 for an inactive URL |
| Redirect.PreviewPage | backend/app/api/redirect.py:83-113 | the guard's error, or the URL's preview fields |
| Redirect.CachedShot | backend/app/api/redirect.py:139-144 | a stored screenshot is used iff the URL carries a non-empty id whose data is retrievable and non-empty |
| Redirect.UrlCollection.GetUrlScreenshot | backend/app/api/redirect.py:116-184 | guard errors; a cached PNG with nothing changed; 503 when generation fails; otherwise the new PNG, with the URL's screenshot id updated only when storing returned one |
| Redirect.StoredShotIsReused | backend/app/api/redirect.py:140-175 | after an id is stored, the next request for the same code is answered from storage |
| Records.FindIndexByCode | backend/app/services/analytics.py:25-27 | the position of the first URL with the short code; None iff no URL has it |
| Records.FindByCode | backend/app/services/analytics.py:25-27 | the first URL with the short code, as `find_one` returns it; None iff no URL has it |
| Auth.FindEmailIndex | backend/app/services/auth.py:15-17 | the position of the first user with the email; None iff no user has it |
| Auth.FindTokenIndex | backend/app/services/auth.py:61-63 | the position of the first user holding the reset token; None iff no user holds it |
| Auth.Authenticate | backend/app/services/auth.py:34-41 | the first user with the email when the password verifies against that user's stored hash, otherwise None |
| Auth.UserStore.CreateUser | backend/app/services/auth.py:20-31 | appends a user with the hash, no reset token and the creation time |
| Auth.UserStore.CreatePasswordResetToken | backend/app/services/auth.py:44-56 | unknown email: None and nothing saved; otherwise that user gets the token, expiring one hour from now, and the token is returned |
| Auth.UserStore.ResetPassword | backend/app/services/auth.py:59-73 | False with nothing saved when no user holds the token or its expiry is missing or past; otherwise the hash is replaced, token and expiry cleared, `updated_at` set, True |
| Auth.WithResetToken | backend/app/services/auth.py:50-53 | only the found user changes: it gets the token and an aware UTC expiry one hour after now |
| Auth.AfterReset | backend/app/services/auth.py:68-72 | only the token holder changes: new hash, no token, no expiry, `updated_at` now |
| Auth.TokenLifetime | backend/app/services/auth.py:50-66 | a freshly issued token that no other user holds is found again, and is accepted up to and including one hour after issue but not later |
| Auth.TokenSingleUse | backend/app/services/auth.py:61-73 | after a reset no user holds the token any more, and the new password authenticates |
| Ai.ErrorResult | backend/app/services/ai.py:51-58 | an error result has empty tags, summary and alias, is not toxic, and carries the message |
| Ai.IsConfigured | backend/app/services/ai.py:35-38 | configured iff the API key is present and non-empty |
| Ai.IsAvailable | backend/app/services/ai.py:192-195 | available iff the API key is present and non-empty |
| Ai.KeepAllowed | backend/app/services/ai.py:113 | the filter keeps only `a-z`, `0-9` and `-`, and never lengthens |
| Ai.KeepAllowedConcat | backend/app/services/ai.py:113 | filtering works piece by piece, keeping order |
| Ai.SanitizeAlias | backend/app/services/ai.py:112-113 | the alias holds only `a-z`, `0-9` and `-` and has at most 20 characters |
| Ai.SanitizeFacts | backend/app/services/ai.py:113 | the alias is the first 20 allowed characters of the lower-cased suggestion, a valid alias is unchanged, and sanitising twice changes nothing |
| Ai.SanitizeExample | backend/app/services/ai.py:113 | "Test_Alias!@#$%" becomes "testalias" |
| Ai.DecimalRoundTrip | backend/app/services/ai.py:102 | the status rendered in the error message reads back as the same number |
| Ai.ResultOfReply | backend/app/services/ai.py:111-120 | at most 5 tags and 150 summary characters, each a prefix of the reply's, the sanitised alias and the toxicity flag, with no error |
| Ai.AnalyzeContent | backend/app/services/ai.py:40-137 | the exact error result for no key, a non-200 status, an unparsable body and a raised call; otherwise the result built from the reply |
| Ai.StripEmptyIffBlank | backend/app/services/ai.py:223 | `content.strip()` is empty iff every character is whitespace |
| Ai.AnalyzeUrl | backend/app/services/ai.py:197-233 | not available, then the fetch error, then "No content found at URL", in that order; otherwise the content analysis |
| Ai.AnalyzeUrlShape | backend/app/services/ai.py:197-233 | every result either carries an error with all fields empty, or keeps tags, summary and alias within bounds |
| UrlSchemas.AliasCheck | backend/app/schemas/url.py:8-14 | an alias is accepted iff it is absent, or has 4 to 20 characters all in `[a-zA-Z0-9_-]`; too short and too long are reported as such |
| UrlSchemas.ExpirationCheck | backend/app/schemas/url.py:15-17 | an expiration is accepted iff it is absent or in 1..365 |
| UrlSchemas.ValidateCreate | backend/app/schemas/url.py:6-21 | accepted iff `original_url` is given and the alias and expiration are valid; the AI flags default to false; otherwise the errors per field |
| UrlSchemas.CreateErrors | backend/app/schemas/url.py:6-21 | a field is reported exactly when its check fails |
| UrlSchemas.CreateDefaults | backend/app/schemas/url.py:18-21 | a body with only the URL gives no alias, no expiration and both AI flags false |
| UrlSchemas.AliasEdges | backend/app/schemas/url.py:10-12 | 4 and 20 characters pass, 3 and 21 fail, and one foreign character fails |
| UrlSchemas.ValidateUpdate | backend/app/schemas/url.py:63-74 | every field is optional, and the body is accepted iff the alias and expiration are valid |
| UrlSchemas.UpdateMatchesCreate | backend/app/schemas/url.py:63-74 | an update accepts and reports the alias and expiration exactly as a creation does, and accepts the empty body |
| UrlSchemas.ValidateBulkDelete | backend/app/schemas/url.py:77-80 | accepted iff 1 to 100 short codes are given; an empty list is too short |
| UrlSchemas.MakeBulkDeleteResponse | backend/app/schemas/url.py:83-89 | an absent field defaults to an empty list or a zero total |
| UrlSchemas.SanitizedAliasAdmissible | backend/app/schemas/url.py:8-14 | a sanitised AI alias of at least 4 characters is a valid custom alias |

## Left out

- `get_top_urls` (`services/analytics.py`) is left out. It is a server-side aggregation pipeline with no logic of its own to model.
- These sources are not part of this model:
  - `services/preview.py`, which covers screenshot generation, storage and the browser lock. Its answers are parameters of the screenshot route.
  - `services/qrcode.py`.
  - `api/auth.py` and `api/urls.py`. They only route requests, and their ownership check is the one modelled in `AnalyticsApi.AccessGuard`.
  - `core/logging.py`.
  - The `is_expired` of `models/url.py`.
- `app/services/url.py` is not part of this model. `get_short_url_by_code` is taken to be the lookup of the first URL with that short code.
- `app/services/click.py` is not part of this model. Click logging is only "happened or raised"; what it stores is not modelled.
- Date and time formatting are left out: `strftime` dates are day numbers and `isoformat` timestamps are the timestamps themselves.
- The CSV module's quoting and escaping are abstracted. A row is a sequence of cells.
- Comparing a naive with an aware `datetime` raises `TypeError` in Python. The model treats all stored and query instants as UTC instants and does not model that exception.
- The prompt text, the HTTP call and the JSON decoding of the AI client are parameters: the call is given as a status with a decoded reply, a decode failure, or an exception.
  - A decoded reply whose `suggested_alias` or `tags` has the wrong JSON type raises inside the handler; the model only represents absent keys.
  - `ContentFetcher` (HTML extraction) is a parameter: its content and error.
- Logging is left out. The model does not show that `create_password_reset_token` writes the reset token to the log at info level (`services/auth.py:55`). It also does not show the `logger.exception` call when click logging fails (`api/redirect.py:74`).
- Rate limiting, FastAPI dependency injection and the database's unique indexes are left out.
- Pydantic's lax coercions (a numeric string accepted as an `int`, and so on) are left out, as is the exact wording of its error messages. Only the field and the violated constraint are reported.
- `Ai.Lower`: `str.lower()` is modelled for ASCII letters only. Python also lower-cases other letters, some of them into allowed ASCII letters (KELVIN SIGN becomes `k`). For such input, the sanitised alias of the model can differ from the real one: `"İab"` gives `"iab"` in Python, because `İ` lower-cases to `i` followed by a combining dot, but `"ab"` in the model.
- `Ai.IsSpace`: `str.isspace()` is modelled by the fixed list of code points Python treats as whitespace. Code points added by later Unicode versions are not tracked.
- `UrlSchemas.AliasCheck`: only the first violated constraint of a field is reported, in the order minimum length, maximum length, pattern. The pattern match is whole-string: a trailing newline does not match `$`.
- `Analytics.SeriesCountsEveryClick`: the series end is `date_to` itself, not widened to the end of its day. The sum of the series equals `total_clicks` only when `date_from`'s time of day is not later than `date_to`'s. `Analytics.SeriesEnds` states what happens otherwise: the last day of the range is missing from the series.
- The "Statistics not found" 404 of `get_url_statistics` and the second 404 of `export_analytics_csv` cannot occur once the URL has been found. The handlers' contracts cover this.
