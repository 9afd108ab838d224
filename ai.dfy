/** The AI analysis service (`app/services/ai.py`): the early-return error
    results, the construction of a successful result from the model's reply
    (tags and summary truncated, alias sanitised), and the guard chain in
    front of it. The HTTP exchange, the JSON decoding and the page fetch are
    inputs: each is given as the outcome it produced. */
module Ai {
  import opened Wrappers

  const MaxTags: nat := 5
  const MaxSummary: nat := 150
  const MaxAlias: nat := 20

  /** `AIAnalysisResult`. */
  datatype AnalysisResult = AnalysisResult(
    tags: seq<string>,
    summary: string,
    suggestedAlias: string,
    isToxic: bool,
    error: Option<string>)

  /** The result every error path returns: empty fields, not toxic, `message`. */
  function ErrorResult(message: string): (r: AnalysisResult)
    ensures r.tags == [] && r.summary == "" && r.suggestedAlias == "" && !r.isToxic
    ensures r.error == Some(message)
  {
    AnalysisResult([], "", "", false, Some(message))
  }

  /** `AnthropicClient.is_configured`: the API key is set and non-empty. */
  function IsConfigured(apiKey: Option<string>): (b: bool)
    ensures b <==> apiKey.Some? && |apiKey.value| > 0
  {
    Truthy(apiKey)
  }

  /** `AIAnalysisService.is_available`: the client is configured. */
  function IsAvailable(apiKey: Option<string>): (b: bool)
    ensures b <==> apiKey.Some? && |apiKey.value| > 0
  {
    IsConfigured(apiKey)
  }

  // ---------------------------------------------------------------------
  // Alias sanitisation
  // ---------------------------------------------------------------------

  /** The characters `[a-z0-9-]` a sanitised alias may hold. */
  predicate AliasChar(c: char) {
    ('a' <= c <= 'z') || ('0' <= c <= '9') || c == '-'
  }

  /** Lower-casing of one character, for ASCII letters. */
  function LowerChar(c: char): (d: char)
    ensures 'A' <= c <= 'Z' ==> 'a' <= d <= 'z'
    ensures !('A' <= c <= 'Z') ==> d == c
  {
    if 'A' <= c <= 'Z' then (c as int + 32) as char else c
  }

  /** `s.lower()`, for ASCII letters. */
  function Lower(s: string): (r: string)
    ensures |r| == |s|
    ensures forall i :: 0 <= i < |s| ==> r[i] == LowerChar(s[i])
  {
    seq(|s|, i requires 0 <= i < |s| => LowerChar(s[i]))
  }

  /** `re.sub(r"[^a-z0-9-]", "", s)`: the allowed characters of `s`, in order. */
  function KeepAllowed(s: string): (r: string)
    ensures |r| <= |s|
    ensures forall i :: 0 <= i < |r| ==> AliasChar(r[i])
  {
    if s == [] then []
    else (if AliasChar(s[0]) then [s[0]] else []) + KeepAllowed(s[1..])
  }

  lemma {:induction false} KeepAllowedConcat(a: string, b: string)
    ensures KeepAllowed(a + b) == KeepAllowed(a) + KeepAllowed(b)
  {
    if a == [] {
      assert a + b == b;
    } else {
      assert (a + b)[0] == a[0];
      assert (a + b)[1..] == a[1..] + b;
      KeepAllowedConcat(a[1..], b);
    }
  }

  /** A string made only of allowed characters is kept whole. */
  lemma {:induction false} KeepAllowedFixed(s: string)
    requires forall i :: 0 <= i < |s| ==> AliasChar(s[i])
    ensures KeepAllowed(s) == s
  {
    if s != [] {
      KeepAllowedFixed(s[1..]);
    }
  }

  /** The alias clean-up applied to the model's suggestion. */
  function SanitizeAlias(suggestion: string): (alias: string)
    ensures |alias| <= MaxAlias
    ensures forall i :: 0 <= i < |alias| ==> AliasChar(alias[i])
  {
    var kept := KeepAllowed(Lower(suggestion));
    kept[..Min(MaxAlias, |kept|)]
  }

  /** The alias is the first at most 20 allowed characters of the lower-cased
      suggestion, in order; a suggestion that already is a valid alias is
      returned unchanged; and sanitising twice changes nothing. */
  lemma SanitizeFacts(suggestion: string)
    ensures var kept := KeepAllowed(Lower(suggestion));
      SanitizeAlias(suggestion) == kept[..Min(MaxAlias, |kept|)]
    ensures (|suggestion| <= MaxAlias && forall i :: 0 <= i < |suggestion| ==> AliasChar(suggestion[i]))
            ==> SanitizeAlias(suggestion) == suggestion
    ensures SanitizeAlias(SanitizeAlias(suggestion)) == SanitizeAlias(suggestion)
  {
    if |suggestion| <= MaxAlias && forall i :: 0 <= i < |suggestion| ==> AliasChar(suggestion[i]) {
      LowerFixed(suggestion);
      KeepAllowedFixed(suggestion);
    }
    var a := SanitizeAlias(suggestion);
    LowerFixed(a);
    KeepAllowedFixed(a);
  }

  /** Lower-casing leaves allowed characters alone. */
  lemma LowerFixed(s: string)
    requires forall i :: 0 <= i < |s| ==> AliasChar(s[i])
    ensures Lower(s) == s
  {
  }

  /** A string with no allowed character is dropped entirely. */
  lemma {:induction false} KeepAllowedNone(s: string)
    requires forall i :: 0 <= i < |s| ==> !AliasChar(s[i])
    ensures KeepAllowed(s) == []
  {
    if s != [] {
      KeepAllowedNone(s[1..]);
    }
  }

  lemma {:induction false} KeepAllowedFour(t: string, u: string, a: string, p: string)
    requires KeepAllowed(t) == t && KeepAllowed(u) == [] && KeepAllowed(a) == a && KeepAllowed(p) == []
    ensures KeepAllowed(t + u + a + p) == t + a
  {
    KeepAllowedConcat(t, u);
    assert t + [] == t;
    assert KeepAllowed(t + u) == t;
    KeepAllowedConcat(t + u, a);
    assert KeepAllowed(t + u + a) == t + a;
    KeepAllowedConcat(t + u + a, p);
    assert t + a + [] == t + a;
  }

  /** Lower-casing "Test_Alias!@#$%". */
  lemma LoweredExample(suggestion: string)
    requires suggestion == "Test_Alias!@#$%"
    ensures Lower(suggestion) == "test_alias!@#$%"
  {
    assert LowerChar('T') == 't' && LowerChar('A') == 'a';
  }

  /** Filtering "test_alias!@#$%" keeps "testalias". */
  lemma KeptExample(lowered: string)
    requires lowered == "test_alias!@#$%"
    ensures KeepAllowed(lowered) == "testalias"
  {
    var t, u, a, p := lowered[..4], lowered[4..5], lowered[5..10], lowered[10..];
    assert lowered == t + u + a + p;
    KeepAllowedFixed(t);
    KeepAllowedFixed(a);
    KeepAllowedNone(u);
    KeepAllowedNone(p);
    KeepAllowedFour(t, u, a, p);
    assert t + a == "testalias";
  }

  /** "Test_Alias!@#$%" becomes "testalias". */
  lemma SanitizeExample(suggestion: string)
    requires suggestion == "Test_Alias!@#$%"
    ensures SanitizeAlias(suggestion) == "testalias"
  {
    LoweredExample(suggestion);
    KeptExample(Lower(suggestion));
  }

  // ---------------------------------------------------------------------
  // Decimal rendering of the HTTP status
  // ---------------------------------------------------------------------

  function DigitChar(d: nat): (c: char)
    requires d < 10
    ensures '0' <= c <= '9'
  {
    ('0' as int + d) as char
  }

  /** The decimal text of a natural number, as `str()` prints it. */
  function DecimalNat(n: nat): (s: string)
    ensures |s| >= 1 && forall i :: 0 <= i < |s| ==> '0' <= s[i] <= '9'
    ensures s[0] == '0' ==> n == 0
  {
    if n < 10 then [DigitChar(n)] else DecimalNat(n / 10) + [DigitChar(n % 10)]
  }

  /** The decimal text of an integer. */
  function DecimalString(n: int): string {
    if n < 0 then "-" + DecimalNat(-n) else DecimalNat(n)
  }

  /** Reading decimal digits back. */
  function ParseNat(s: string): nat
    requires forall i :: 0 <= i < |s| ==> '0' <= s[i] <= '9'
  {
    if s == [] then 0 else ParseNat(s[..|s| - 1]) * 10 + (s[|s| - 1] as int - '0' as int)
  }

  /** The rendering loses nothing: reading it back gives the number. */
  lemma {:induction false} DecimalRoundTrip(n: nat)
    ensures ParseNat(DecimalNat(n)) == n
  {
    if n >= 10 {
      DecimalRoundTrip(n / 10);
      var s := DecimalNat(n);
      assert s[..|s| - 1] == DecimalNat(n / 10);
    }
  }

  // ---------------------------------------------------------------------
  // analyze_content
  // ---------------------------------------------------------------------

  /** The fields of the model's JSON reply; a missing key is `None`. */
  datatype Reply = Reply(tags: Option<seq<string>>, summary: Option<string>,
                         suggestedAlias: Option<string>, isToxic: Option<bool>)

  /** How the call to the messages API went: an HTTP answer whose body, when
      the status is 200, decoded to a reply or failed to decode with a
      message; or an exception with its message. */
  datatype ApiCall =
    | Responded(status: int, text: string, body: Result<Reply, string>)
    | Raised(message: string)

  /** The successful result built from a reply: at most five tags, at most 150
      summary characters, the sanitised alias, no error. */
  function ResultOfReply(reply: Reply): (r: AnalysisResult)
    ensures r.error.None?
    ensures |r.tags| <= MaxTags && |r.summary| <= MaxSummary && |r.suggestedAlias| <= MaxAlias
    ensures r.tags == (var ts := reply.tags.GetOr([]); ts[..Min(MaxTags, |ts|)])
    ensures r.summary == (var s := reply.summary.GetOr(""); s[..Min(MaxSummary, |s|)])
    ensures r.suggestedAlias == SanitizeAlias(reply.suggestedAlias.GetOr(""))
    ensures r.isToxic == reply.isToxic.GetOr(false)
  {
    var tags := reply.tags.GetOr([]);
    var summary := reply.summary.GetOr("");
    AnalysisResult(tags[..Min(MaxTags, |tags|)], summary[..Min(MaxSummary, |summary|)],
                   SanitizeAlias(reply.suggestedAlias.GetOr("")), reply.isToxic.GetOr(false), None)
  }

  /** `AnthropicClient.analyze_content`. */
  function AnalyzeContent(apiKey: Option<string>, call: ApiCall): (r: AnalysisResult)
    ensures !IsConfigured(apiKey) ==> r == ErrorResult("ANTHROPIC_API_KEY not configured")
    ensures IsConfigured(apiKey) && call.Raised? ==> r == ErrorResult("AI analysis failed: " + call.message)
    ensures IsConfigured(apiKey) && call.Responded? && call.status != 200 ==>
              r == ErrorResult("API error: " + DecimalString(call.status) + " - " + call.text)
    ensures IsConfigured(apiKey) && call.Responded? && call.status == 200 && call.body.Err? ==>
              r == ErrorResult("Failed to parse AI response: " + call.body.error)
    ensures IsConfigured(apiKey) && call.Responded? && call.status == 200 && call.body.Ok? ==>
              r == ResultOfReply(call.body.value)
  {
    if !IsConfigured(apiKey) then ErrorResult("ANTHROPIC_API_KEY not configured")
    else
      match call
      case Raised(m) => ErrorResult("AI analysis failed: " + m)
      case Responded(status, text, body) =>
        if status != 200 then ErrorResult("API error: " + DecimalString(status) + " - " + text)
        else
          match body
          case Err(m) => ErrorResult("Failed to parse AI response: " + m)
          case Ok(reply) => ResultOfReply(reply)
  }

  // ---------------------------------------------------------------------
  // analyze_url
  // ---------------------------------------------------------------------

  /** The characters `str.isspace()` accepts. */
  predicate IsSpace(c: char) {
    var n := c as int;
    || (0x09 <= n <= 0x0D) || (0x1C <= n <= 0x20) || n == 0x85 || n == 0xA0 || n == 0x1680
    || (0x2000 <= n <= 0x200A) || n == 0x2028 || n == 0x2029 || n == 0x202F || n == 0x205F || n == 0x3000
  }

  function StripLeft(s: string): (r: string)
    ensures |r| <= |s| && r == s[|s| - |r|..]
    ensures r == [] || !IsSpace(r[0])
    ensures forall i :: 0 <= i < |s| - |r| ==> IsSpace(s[i])
  {
    if s != [] && IsSpace(s[0]) then StripLeft(s[1..]) else s
  }

  function StripRight(s: string): (r: string)
    ensures |r| <= |s| && r == s[..|r|]
    ensures r == [] || !IsSpace(r[|r| - 1])
    ensures forall i :: |r| <= i < |s| ==> IsSpace(s[i])
  {
    if s != [] && IsSpace(s[|s| - 1]) then StripRight(s[..|s| - 1]) else s
  }

  /** `s.strip()`. */
  function Strip(s: string): string {
    StripRight(StripLeft(s))
  }

  /** `not s.strip()` holds exactly for strings made only of whitespace. */
  lemma StripEmptyIffBlank(s: string)
    ensures Strip(s) == "" <==> forall i :: 0 <= i < |s| ==> IsSpace(s[i])
  {
    var l := StripLeft(s);
    if Strip(s) == "" {
      assert l == [];
    } else {
      var r := Strip(s);
      assert !IsSpace(r[0]);
      assert r[0] == s[|s| - |l|];
    }
  }

  /** `AIAnalysisService.analyze_url`. `content` and `fetchError` are what the
      page fetch gave; `call` is how the model call went. */
  function AnalyzeUrl(apiKey: Option<string>, content: string, fetchError: Option<string>, call: ApiCall): (r: AnalysisResult)
    ensures !IsAvailable(apiKey) ==> r == ErrorResult("AI analysis not available - API key not configured")
    ensures IsAvailable(apiKey) && Truthy(fetchError) ==> r == ErrorResult(fetchError.value)
    ensures IsAvailable(apiKey) && !Truthy(fetchError) && Strip(content) == "" ==>
              r == ErrorResult("No content found at URL")
    ensures IsAvailable(apiKey) && !Truthy(fetchError) && Strip(content) != "" ==>
              r == AnalyzeContent(apiKey, call)
  {
    if !IsAvailable(apiKey) then ErrorResult("AI analysis not available - API key not configured")
    else if Truthy(fetchError) then ErrorResult(fetchError.value)
    else if Strip(content) == "" then ErrorResult("No content found at URL")
    else AnalyzeContent(apiKey, call)
  }

  /** Every result either carries an error and nothing else, or carries no
      error and fields within their bounds. */
  lemma AnalyzeUrlShape(apiKey: Option<string>, content: string, fetchError: Option<string>, call: ApiCall)
    ensures var r := AnalyzeUrl(apiKey, content, fetchError, call);
      && (r.error.Some? ==> r.tags == [] && r.summary == "" && r.suggestedAlias == "" && !r.isToxic)
      && |r.tags| <= MaxTags && |r.summary| <= MaxSummary && |r.suggestedAlias| <= MaxAlias
      && forall i :: 0 <= i < |r.suggestedAlias| ==> AliasChar(r.suggestedAlias[i])
  {
    if IsAvailable(apiKey) && !Truthy(fetchError) && Strip(content) != "" {
      AnalyzeContentShape(apiKey, call);
    }
  }

  /** The same shape for the model call alone. */
  lemma AnalyzeContentShape(apiKey: Option<string>, call: ApiCall)
    ensures var r := AnalyzeContent(apiKey, call);
      && (r.error.Some? ==> r.tags == [] && r.summary == "" && r.suggestedAlias == "" && !r.isToxic)
      && |r.tags| <= MaxTags && |r.summary| <= MaxSummary && |r.suggestedAlias| <= MaxAlias
      && forall i :: 0 <= i < |r.suggestedAlias| ==> AliasChar(r.suggestedAlias[i])
  {
    if IsConfigured(apiKey) && call.Responded? && call.status == 200 && call.body.Ok? {
      var r := ResultOfReply(call.body.value);
      assert r.error.None?;
    }
  }
}
