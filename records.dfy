/** The stored documents the core reads: short URLs and click logs, and the
    lookup of a short URL by its code (`ShortURL.find_one({"short_code": …})`,
    which `get_short_url_by_code` also performs). A collection is the sequence
    of its documents in storage order. */
module Records {
  import opened Wrappers
  import opened Timeline

  /** A `ShortURL` document (the fields the core reads or writes). */
  datatype ShortUrl = ShortUrl(
    id: string,
    shortCode: string,
    originalUrl: string,
    clicks: int,                     // the durable click counter
    owner: Option<string>,           // id of the owning user, when the reference carries one
    isActive: bool,
    expiration: Option<DateTime>,
    previewTitle: Option<string>,
    previewDescription: Option<string>,
    previewImage: Option<string>,
    tags: seq<string>,
    summary: Option<string>,
    previewScreenshotId: Option<string>)

  /** A `ClickLog` document. `timestamp` is a UTC instant. */
  datatype Click = Click(
    shortUrlId: string,
    timestamp: int,
    referrer: Option<string>,
    browser: Option<string>,
    os: Option<string>,
    deviceType: Option<string>,
    country: Option<string>,
    city: Option<string>)

  /** Position of the first document with short code `code`. */
  function FindIndexByCode(urls: seq<ShortUrl>, code: string): (r: Option<nat>)
    ensures r.None? <==> forall i :: 0 <= i < |urls| ==> urls[i].shortCode != code
    ensures r.Some? ==> (r.value < |urls| && urls[r.value].shortCode == code
                         && forall i :: 0 <= i < r.value ==> urls[i].shortCode != code)
  {
    if urls == [] then None
    else if urls[0].shortCode == code then Some(0)
    else
      match FindIndexByCode(urls[1..], code)
      case None => None
      case Some(i) => Some(i + 1)
  }

  /** The first short URL with code `code`, as `find_one` returns it, or
      `None` when there is none. */
  function FindByCode(urls: seq<ShortUrl>, code: string): (r: Option<ShortUrl>)
    ensures r.None? <==> forall u :: u in urls ==> u.shortCode != code
    ensures r.Some? ==> r.value in urls && r.value.shortCode == code
    ensures FindIndexByCode(urls, code).Some? ==> r == Some(urls[FindIndexByCode(urls, code).value])
  {
    match FindIndexByCode(urls, code)
    case None => None
    case Some(i) => Some(urls[i])
  }
}
