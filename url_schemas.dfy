/** The request and response bodies of the URL endpoints
    (`app/schemas/url.py`) as validators: a body arrives with each field
    given or absent, and validation either yields the typed value, with
    defaults filled in, or the list of field errors (HTTP 422). */
module UrlSchemas {
  import opened Wrappers
  import Ai

  const MinAlias: nat := 4
  const MaxAlias: nat := 20
  const MinExpirationDays: int := 1
  const MaxExpirationDays: int := 365
  const MinBulkCodes: nat := 1
  const MaxBulkCodes: nat := 100

  /** The constraint a field broke. */
  datatype Violation = Missing | TooShort | TooLong | PatternMismatch | TooSmall | TooLarge

  /** One entry of the validation error list: the field and what it broke. */
  datatype FieldError = FieldError(field: string, violation: Violation)

  /** The characters of the alias pattern `^[a-zA-Z0-9_-]+$`. */
  predicate AliasPatternChar(c: char) {
    'a' <= c <= 'z' || 'A' <= c <= 'Z' || '0' <= c <= '9' || c == '_' || c == '-'
  }

  /** A custom alias the schema accepts: absent, or 4 to 20 characters all
      drawn from the pattern's class. */
  predicate ValidAlias(alias: Option<string>) {
    alias.None? ||
    (MinAlias <= |alias.value| <= MaxAlias && forall i :: 0 <= i < |alias.value| ==> AliasPatternChar(alias.value[i]))
  }

  /** An expiration the schema accepts: absent, or 1 to 365 days. */
  predicate ValidExpiration(days: Option<int>) {
    days.None? || MinExpirationDays <= days.value <= MaxExpirationDays
  }

  /** Whether some character of `s` falls outside the alias pattern. */
  function HasForeignChar(s: string): (b: bool)
    ensures b <==> exists i :: 0 <= i < |s| && !AliasPatternChar(s[i])
  {
    if s == [] then false
    else !AliasPatternChar(s[0]) || HasForeignChar(s[1..])
  }

  /** The alias check: the length bounds first, then the pattern. */
  function AliasCheck(alias: Option<string>): (r: Option<Violation>)
    ensures r.None? <==> ValidAlias(alias)
    ensures r == Some(TooShort) <==> alias.Some? && |alias.value| < MinAlias
    ensures r == Some(TooLong) <==> alias.Some? && |alias.value| > MaxAlias
    ensures r.Some? ==> r.value in {TooShort, TooLong, PatternMismatch}
  {
    match alias
    case None => None
    case Some(a) =>
      if |a| < MinAlias then Some(TooShort)
      else if |a| > MaxAlias then Some(TooLong)
      else if HasForeignChar(a) then Some(PatternMismatch)
      else None
  }

  /** The expiration check: `ge=1`, then `le=365`. */
  function ExpirationCheck(days: Option<int>): (r: Option<Violation>)
    ensures r.None? <==> ValidExpiration(days)
    ensures r == Some(TooSmall) <==> days.Some? && days.value < MinExpirationDays
    ensures r == Some(TooLarge) <==> days.Some? && days.value > MaxExpirationDays
  {
    match days
    case None => None
    case Some(d) =>
      if d < MinExpirationDays then Some(TooSmall)
      else if d > MaxExpirationDays then Some(TooLarge)
      else None
  }

  /** The error list entry of a field, if its check failed. */
  function Report(field: string, check: Option<Violation>): (r: seq<FieldError>)
    ensures |r| <= 1
    ensures r == [] <==> check.None?
    ensures r != [] ==> r[0] == FieldError(field, check.value)
  {
    if check.None? then [] else [FieldError(field, check.value)]
  }

  /** A `URLCreate` body as received: every field given or absent. */
  datatype CreateBody = CreateBody(
    originalUrl: Option<string>,
    customAlias: Option<string>,
    expirationDays: Option<int>,
    skipAiAnalysis: Option<bool>,
    useAiSuggestedAlias: Option<bool>)

  /** A validated `URLCreate`. */
  datatype UrlCreate = UrlCreate(
    originalUrl: string,
    customAlias: Option<string>,
    expirationDays: Option<int>,
    skipAiAnalysis: bool,
    useAiSuggestedAlias: bool)

  /** The errors of a `URLCreate` body, field by field in declaration order:
      `original_url` is required, the alias and expiration are checked when
      given. */
  function CreateErrors(body: CreateBody): (r: seq<FieldError>)
    ensures r == [] <==> body.originalUrl.Some? && ValidAlias(body.customAlias) && ValidExpiration(body.expirationDays)
    ensures FieldError("original_url", Missing) in r <==> body.originalUrl.None?
    ensures forall v :: FieldError("custom_alias", v) in r <==> AliasCheck(body.customAlias) == Some(v)
    ensures forall v :: FieldError("expiration_days", v) in r <==> ExpirationCheck(body.expirationDays) == Some(v)
  {
    Report("original_url", if body.originalUrl.None? then Some(Missing) else None)
      + Report("custom_alias", AliasCheck(body.customAlias))
      + Report("expiration_days", ExpirationCheck(body.expirationDays))
  }

  /** `URLCreate` validation: the value, with both AI flags defaulting to
      false, when no field is in error; otherwise the errors. */
  function ValidateCreate(body: CreateBody): (r: Result<UrlCreate, seq<FieldError>>)
    ensures r.Ok? <==> body.originalUrl.Some? && ValidAlias(body.customAlias) && ValidExpiration(body.expirationDays)
    ensures r.Ok? ==>
      && r.value.originalUrl == body.originalUrl.value
      && r.value.customAlias == body.customAlias
      && r.value.expirationDays == body.expirationDays
      && r.value.skipAiAnalysis == body.skipAiAnalysis.GetOr(false)
      && r.value.useAiSuggestedAlias == body.useAiSuggestedAlias.GetOr(false)
    ensures r.Err? ==> r.error == CreateErrors(body) && r.error != []
  {
    var errors := CreateErrors(body);
    if errors != [] then Err(errors)
    else Ok(UrlCreate(body.originalUrl.value, body.customAlias, body.expirationDays,
                      body.skipAiAnalysis.GetOr(false), body.useAiSuggestedAlias.GetOr(false)))
  }

  /** A body carrying only the URL is accepted with no alias, no expiration
      and both AI flags off. */
  lemma CreateDefaults(url: string)
    ensures ValidateCreate(CreateBody(Some(url), None, None, None, None)) == Ok(UrlCreate(url, None, None, false, false))
  {
  }

  /** The alias bounds at their edges: 4 and 20 characters are accepted, 3 and
      21 are not, and one character outside the class is refused whatever the
      length. */
  lemma AliasEdges(s: string, c: char)
    requires forall i :: 0 <= i < |s| ==> AliasPatternChar(s[i])
    requires !AliasPatternChar(c)
    ensures |s| == 4 || |s| == 20 ==> ValidAlias(Some(s))
    ensures |s| == 3 || |s| == 21 ==> !ValidAlias(Some(s))
    ensures !ValidAlias(Some(s + [c]))
  {
    assert (s + [c])[|s|] == c;
  }

  /** A `URLUpdate` body: every field optional. */
  datatype UpdateBody = UpdateBody(
    originalUrl: Option<string>,
    customAlias: Option<string>,
    expirationDays: Option<int>)

  /** The errors of a `URLUpdate` body: nothing is required, and the alias and
      expiration carry the same checks as on creation. */
  function UpdateErrors(body: UpdateBody): (r: seq<FieldError>)
    ensures r == [] <==> ValidAlias(body.customAlias) && ValidExpiration(body.expirationDays)
    ensures forall v :: FieldError("original_url", v) !in r
    ensures forall v :: FieldError("custom_alias", v) in r <==> AliasCheck(body.customAlias) == Some(v)
    ensures forall v :: FieldError("expiration_days", v) in r <==> ExpirationCheck(body.expirationDays) == Some(v)
  {
    Report("custom_alias", AliasCheck(body.customAlias))
      + Report("expiration_days", ExpirationCheck(body.expirationDays))
  }

  /** `URLUpdate` validation. */
  function ValidateUpdate(body: UpdateBody): (r: Result<UpdateBody, seq<FieldError>>)
    ensures r.Ok? <==> ValidAlias(body.customAlias) && ValidExpiration(body.expirationDays)
    ensures r.Ok? ==> r.value == body
    ensures r.Err? ==> r.error == UpdateErrors(body) && r.error != []
  {
    var errors := UpdateErrors(body);
    if errors != [] then Err(errors) else Ok(body)
  }

  /** An update accepts exactly the alias and expiration values a creation
      accepts, reports them the same way, and accepts the empty body. */
  lemma UpdateMatchesCreate(url: Option<string>, alias: Option<string>, days: Option<int>, skip: Option<bool>, useSuggested: Option<bool>)
    ensures ValidateUpdate(UpdateBody(url, alias, days)).Ok?
        <==> ValidateCreate(CreateBody(Some(""), alias, days, skip, useSuggested)).Ok?
    ensures UpdateErrors(UpdateBody(url, alias, days)) == CreateErrors(CreateBody(Some(""), alias, days, skip, useSuggested))
    ensures ValidateUpdate(UpdateBody(None, None, None)) == Ok(UpdateBody(None, None, None))
  {
  }

  /** `BulkDeleteRequest` validation: `short_codes` is required and holds 1 to
      100 codes. */
  function ValidateBulkDelete(shortCodes: Option<seq<string>>): (r: Result<seq<string>, FieldError>)
    ensures r.Ok? <==> shortCodes.Some? && MinBulkCodes <= |shortCodes.value| <= MaxBulkCodes
    ensures r.Ok? ==> r.value == shortCodes.value
    ensures r.Err? ==> r.error.field == "short_codes"
    ensures r == Err(FieldError("short_codes", TooShort)) <==> shortCodes == Some([])
  {
    match shortCodes
    case None => Err(FieldError("short_codes", Missing))
    case Some(codes) =>
      if |codes| < MinBulkCodes then Err(FieldError("short_codes", TooShort))
      else if |codes| > MaxBulkCodes then Err(FieldError("short_codes", TooLong))
      else Ok(codes)
  }

  /** A `BulkDeleteResponse`. */
  datatype BulkDeleteResponse = BulkDeleteResponse(
    deleted: seq<string>, failed: seq<string>, totalDeleted: int, totalFailed: int)

  /** A `BulkDeleteResponse` built from the fields given: each absent one takes
      its default (empty lists, zero totals). */
  function MakeBulkDeleteResponse(deleted: Option<seq<string>>, failed: Option<seq<string>>,
                                  totalDeleted: Option<int>, totalFailed: Option<int>): (r: BulkDeleteResponse)
    ensures deleted.Some? ==> r.deleted == deleted.value
    ensures deleted.None? ==> r.deleted == []
    ensures failed.Some? ==> r.failed == failed.value
    ensures failed.None? ==> r.failed == []
    ensures totalDeleted.Some? ==> r.totalDeleted == totalDeleted.value
    ensures totalDeleted.None? ==> r.totalDeleted == 0
    ensures totalFailed.Some? ==> r.totalFailed == totalFailed.value
    ensures totalFailed.None? ==> r.totalFailed == 0
  {
    BulkDeleteResponse(deleted.GetOr([]), failed.GetOr([]), totalDeleted.GetOr(0), totalFailed.GetOr(0))
  }

  /** Every alias the AI sanitiser keeps is admissible as a custom alias once
      it has at least four characters: its class and its length bound both
      lie within the schema's. */
  lemma SanitizedAliasAdmissible(suggestion: string)
    requires |Ai.SanitizeAlias(suggestion)| >= MinAlias
    ensures ValidAlias(Some(Ai.SanitizeAlias(suggestion)))
  {
    var alias := Ai.SanitizeAlias(suggestion);
    forall i | 0 <= i < |alias|
      ensures AliasPatternChar(alias[i])
    {
      assert Ai.AliasChar(alias[i]);
    }
  }
}
