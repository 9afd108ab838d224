/** The public routes of `app/api/redirect.py`: the expiry predicate, the
    redirect itself, the preview page and the screenshot route, which stores
    the id of a freshly generated screenshot on the URL document. */
module Redirect {
  import opened Wrappers
  import opened Timeline
  import opened Records
  import opened Http

  type Bytes = seq<bv8>

  const DeactivatedError := HttpError(410, "URL has been deactivated")
  const ExpiredError := HttpError(410, "URL has expired")
  const UnavailableError := HttpError(503, "Screenshot service unavailable")

  /** `is_expired`: no expiration never expires; a naive expiration is read as
      UTC; otherwise the link is expired exactly when now is strictly after
      the expiration instant. */
  function IsExpired(expiration: Option<DateTime>, now: int): (expired: bool)
    ensures expiration.None? ==> !expired
    ensures expiration.Some? && expiration.value.offset.None? ==> (expired <==> now > expiration.value.wall)
    ensures expiration.Some? && expiration.value.offset.Some? ==> (expired <==> now > Instant(expiration.value))
  {
    match expiration
    case None => false
    case Some(e) =>
      var aware := if e.offset.None? then AsUtc(e) else e;
      now > Instant(aware)
  }

  /** Expiry is final: a link expired at one moment stays expired later. */
  lemma ExpiryIsFinal(expiration: Option<DateTime>, now: int, later: int)
    requires now <= later && IsExpired(expiration, now)
    ensures IsExpired(expiration, later)
  {
  }

  /** At the very instant of its expiration a link is still valid, and one
      microsecond later it is not. */
  lemma ExpiryBoundary(e: DateTime)
    ensures var at := if e.offset.None? then e.wall else Instant(e);
      !IsExpired(Some(e), at) && IsExpired(Some(e), at + 1)
  {
  }

  /** The guards of the redirect, in order: 404 for an unknown code, 410
      "deactivated" for an inactive URL, 410 "expired" for an expired one;
      otherwise the URL. */
  function RedirectGuard(urls: seq<ShortUrl>, code: string, now: int): (r: Result<ShortUrl, HttpError>)
    ensures FindByCode(urls, code).None? ==> r == Err(NotFoundError)
    ensures FindByCode(urls, code).Some? ==>
      var u := FindByCode(urls, code).value;
      r == if !u.isActive then Err(DeactivatedError)
           else if IsExpired(u.expiration, now) then Err(ExpiredError)
           else Ok(u)
  {
    match FindByCode(urls, code)
    case None => Err(NotFoundError)
    case Some(u) =>
      if !u.isActive then Err(DeactivatedError)
      else if IsExpired(u.expiration, now) then Err(ExpiredError)
      else Ok(u)
  }

  /** A `RedirectResponse`. */
  datatype Redirection = Redirection(status: int, location: string)

  /** The outcome of `redirect_to_url`: the response, and whether a click was
      handed to the click logger. */
  datatype RedirectOutcome = RedirectOutcome(response: Result<Redirection, HttpError>, clickLogged: bool)

  /** `redirect_to_url`. `loggingRaises` is whether the click logger raises;
      the exception is logged and swallowed. */
  function RedirectToUrl(urls: seq<ShortUrl>, code: string, now: int, loggingRaises: bool): (r: RedirectOutcome)
    ensures r.clickLogged <==> RedirectGuard(urls, code, now).Ok?
    ensures RedirectGuard(urls, code, now).Err? ==> r.response == Err(RedirectGuard(urls, code, now).error)
    ensures RedirectGuard(urls, code, now).Ok? ==>
      r.response == Ok(Redirection(302, FindByCode(urls, code).value.originalUrl))
  {
    match RedirectGuard(urls, code, now)
    case Err(e) => RedirectOutcome(Err(e), false)
    case Ok(u) => RedirectOutcome(Ok(Redirection(302, u.originalUrl)), true)
  }

  /** Every redirect that gets past the guards goes to an active, unexpired
      URL's original address with 302, and a failing click logger changes
      nothing about the response. */
  lemma RedirectFacts(urls: seq<ShortUrl>, code: string, now: int)
    ensures RedirectToUrl(urls, code, now, true) == RedirectToUrl(urls, code, now, false)
    ensures var r := RedirectToUrl(urls, code, now, false).response;
      r.Ok? ==> exists u :: u in urls && u.shortCode == code && u.isActive && !IsExpired(u.expiration, now)
                            && r.value == Redirection(302, u.originalUrl)
    ensures var r := RedirectToUrl(urls, code, now, false).response;
      r.Err? ==> r.error.status == 404 || r.error.status == 410
  {
    var r := RedirectToUrl(urls, code, now, false).response;
    if r.Ok? {
      var u := FindByCode(urls, code).value;
      assert u in urls && u.shortCode == code && u.isActive && !IsExpired(u.expiration, now);
    }
  }

  /** The guards of the preview and screenshot routes: 404 for an unknown or
      inactive URL, then 410 for an expired one; otherwise the URL. */
  function PreviewGuard(urls: seq<ShortUrl>, code: string, now: int): (r: Result<ShortUrl, HttpError>)
    ensures r.Ok? <==> FindByCode(urls, code).Some? && FindByCode(urls, code).value.isActive
                       && !IsExpired(FindByCode(urls, code).value.expiration, now)
    ensures r.Ok? ==> r.value == FindByCode(urls, code).value
    ensures r.Err? ==> r.error == (if FindByCode(urls, code).None? || !FindByCode(urls, code).value.isActive
                                   then NotFoundError else ExpiredError)
  {
    match FindByCode(urls, code)
    case None => Err(NotFoundError)
    case Some(u) =>
      if !u.isActive then Err(NotFoundError)
      else if IsExpired(u.expiration, now) then Err(ExpiredError)
      else Ok(u)
  }

  /** The preview routes pass exactly the URLs the redirect passes; they only
      report an inactive URL as 404 where the redirect says 410. */
  lemma PreviewAgreesWithRedirect(urls: seq<ShortUrl>, code: string, now: int)
    ensures PreviewGuard(urls, code, now) == RedirectGuard(urls, code, now)
            || (RedirectGuard(urls, code, now) == Err(DeactivatedError) && PreviewGuard(urls, code, now) == Err(NotFoundError))
  {
  }

  /** The body of `get_url_preview_page`. */
  datatype PreviewData = PreviewData(
    originalUrl: string,
    title: Option<string>,
    description: Option<string>,
    image: Option<string>,
    tags: seq<string>,
    summary: Option<string>)

  function PreviewPage(urls: seq<ShortUrl>, code: string, now: int): (r: Result<PreviewData, HttpError>)
    ensures r.Err? <==> PreviewGuard(urls, code, now).Err?
    ensures r.Err? ==> r.error == PreviewGuard(urls, code, now).error
    ensures r.Ok? ==>
      var u := FindByCode(urls, code).value;
      r.value == PreviewData(u.originalUrl, u.previewTitle, u.previewDescription, u.previewImage, u.tags, u.summary)
  {
    match PreviewGuard(urls, code, now)
    case Err(e) => Err(e)
    case Ok(u) => Ok(PreviewData(u.originalUrl, u.previewTitle, u.previewDescription, u.previewImage, u.tags, u.summary))
  }

  /** A PNG `Response` with its caching and disposition headers. */
  datatype ImageResponse = ImageResponse(content: Bytes, mediaType: string, cacheControl: string, disposition: string)

  function PngResponse(code: string, data: Bytes): (r: ImageResponse)
    ensures r.content == data && r.mediaType == "image/png"
  {
    ImageResponse(data, "image/png", "public, max-age=86400", "inline; filename=preview_" + code + ".png")
  }

  /** What `get_screenshot` gives for the URL's stored screenshot id, when the
      URL has a non-empty id and the data found under it is non-empty. */
  function CachedShot(u: ShortUrl, stored: map<string, Bytes>): (r: Option<Bytes>)
    ensures r.Some? <==> Truthy(u.previewScreenshotId) && u.previewScreenshotId.value in stored
                         && stored[u.previewScreenshotId.value] != []
    ensures r.Some? ==> r.value == stored[u.previewScreenshotId.value]
  {
    if Truthy(u.previewScreenshotId) && u.previewScreenshotId.value in stored
       && stored[u.previewScreenshotId.value] != []
    then Some(stored[u.previewScreenshotId.value])
    else None
  }

  /** The short-URL collection, whose documents `save()` replaces. */
  class UrlCollection {
    var urls: seq<ShortUrl>

    constructor(initial: seq<ShortUrl>)
      ensures urls == initial
    {
      urls := initial;
    }

    /** `get_url_screenshot`. `stored` is the screenshot store, `generated`
        what `generate_screenshot` gives for the original URL and `fileId`
        what `store_screenshot` gives. A screenshot found in the store is
        served as is; otherwise one is generated (503 when that fails), and
        the URL's screenshot id is replaced only when storing gave an id. */
    method GetUrlScreenshot(code: string, now: int, stored: map<string, Bytes>,
                            generated: Option<Bytes>, fileId: Option<string>) returns (r: Result<ImageResponse, HttpError>)
      modifies this
      ensures PreviewGuard(old(urls), code, now).Err? ==>
        r == Err(PreviewGuard(old(urls), code, now).error) && urls == old(urls)
      ensures PreviewGuard(old(urls), code, now).Ok? && CachedShot(FindByCode(old(urls), code).value, stored).Some? ==>
        r == Ok(PngResponse(code, CachedShot(FindByCode(old(urls), code).value, stored).value)) && urls == old(urls)
      ensures PreviewGuard(old(urls), code, now).Ok? && CachedShot(FindByCode(old(urls), code).value, stored).None?
              && generated.None? ==>
        r == Err(UnavailableError) && urls == old(urls)
      ensures PreviewGuard(old(urls), code, now).Ok? && CachedShot(FindByCode(old(urls), code).value, stored).None?
              && generated.Some? ==>
        var i := FindIndexByCode(old(urls), code).value;
        && r == Ok(PngResponse(code, generated.value))
        && urls == if Truthy(fileId) then old(urls)[i := old(urls)[i].(previewScreenshotId := fileId)] else old(urls)
    {
      var guard := PreviewGuard(urls, code, now);
      if guard.Err? {
        return Err(guard.error);
      }
      var u := guard.value;
      if Truthy(u.previewScreenshotId) {
        var id := u.previewScreenshotId.value;
        if id in stored && stored[id] != [] {
          return Ok(PngResponse(code, stored[id]));
        }
      }
      if generated.None? {
        return Err(UnavailableError);
      }
      if Truthy(fileId) {
        var i := FindIndexByCode(urls, code).value;
        urls := urls[i := u.(previewScreenshotId := fileId)];
      }
      r := Ok(PngResponse(code, generated.value));
    }
  }

  /** Once a generated screenshot has been stored under the new id, the next
      request for the same code is served from the store; no other document
      and no other field changes. */
  lemma StoredShotIsReused(urls: seq<ShortUrl>, code: string, now: int, stored: map<string, Bytes>, data: Bytes, id: string)
    requires PreviewGuard(urls, code, now).Ok? && data != [] && id != ""
    ensures var i := FindIndexByCode(urls, code).value;
      var after := urls[i := urls[i].(previewScreenshotId := Some(id))];
      && PreviewGuard(after, code, now).Ok?
      && CachedShot(FindByCode(after, code).value, stored[id := data]) == Some(data)
      && |after| == |urls|
      && (forall j :: 0 <= j < |urls| && j != i ==> after[j] == urls[j])
      && after[i] == urls[i].(previewScreenshotId := Some(id))
  {
    var i := FindIndexByCode(urls, code).value;
    var after := urls[i := urls[i].(previewScreenshotId := Some(id))];
    assert FindIndexByCode(after, code) == Some(i) by {
      FindIndexUnchanged(urls, code, i, after);
    }
  }

  /** Replacing the document a lookup found by one with the same code leaves
      the lookup pointing at the same position. */
  lemma {:induction false} FindIndexUnchanged(urls: seq<ShortUrl>, code: string, i: nat, after: seq<ShortUrl>)
    requires FindIndexByCode(urls, code) == Some(i)
    requires |after| == |urls| && after[i].shortCode == code
    requires forall j :: 0 <= j < |urls| && j != i ==> after[j] == urls[j]
    ensures FindIndexByCode(after, code) == Some(i)
  {
    if i > 0 {
      FindIndexUnchanged(urls[1..], code, i - 1, after[1..]);
    }
  }
}
