/** The transport prober: `check_http_redirect` shapes the outcome of one
    plaintext GET (redirects followed) into its result record and the HTML
    body kept for the integrity analysis. */
module Transport {
  import opened Wrappers
  import opened Text

  /** What `requests.get(url, allow_redirects=True, timeout=...)` does: a
      response (final URL, the URLs of the redirect responses in order, the
      `content-type` header if present, the decoded body), a
      `RequestException`, or any other exception, which the prober does not catch. */
  datatype HttpOutcome =
    | Fetched(url: string, history: seq<string>, contentType: Option<string>, text: string)
    | RequestError(message: string)
    | OtherError(message: string)

  /** The HTTP client, as a function of the URL and the timeout. */
  type Fetch = (string, nat) -> HttpOutcome

  const RequestTimeout: nat := 10

  /** The body captured for the integrity analysis is cut to this many characters. */
  const MaxHtmlChars: nat := 500000

  datatype TransportResult = TransportResult(
    httpAccessible: bool,
    redirectsToHttps: bool,
    finalUrl: Option<string>,
    error: Option<string>,
    redirectChain: seq<string>)

  function HttpUrl(domain: string): string
  {
    "http://" + domain
  }

  /** The declared content type is HTML (an absent header reads as `""`). */
  predicate IsHtml(contentType: Option<string>)
  {
    contentType.Some? && StartsWith(contentType.value, "text/html")
  }

  /** The shape every transport result has: an unreachable site has no final
      URL, no chain and no redirect; a chain ends at the final URL. */
  predicate WellShapedTransport(t: TransportResult)
  {
    && (!t.httpAccessible ==> t.finalUrl == None && t.redirectChain == [] && !t.redirectsToHttps)
    && (t.httpAccessible ==> t.finalUrl.Some? && t.error == None)
    && (t.redirectChain != [] ==> t.finalUrl == Some(t.redirectChain[|t.redirectChain| - 1]))
    && (t.redirectsToHttps ==> t.finalUrl.Some? && StartsWith(t.finalUrl.value, "https://"))
  }

  /** How a response is recorded: the redirect test is a prefix test on the
      final URL, and the chain is the history followed by the final URL
      (empty without history). */
  predicate ShapedFromResponse(resp: HttpOutcome, t: TransportResult)
    requires resp.Fetched?
  {
    && (t.redirectsToHttps <==> StartsWith(resp.url, "https://"))
    && (resp.history == [] ==> t.redirectChain == [])
    && (resp.history != [] ==>
          |t.redirectChain| == |resp.history| + 1 && t.redirectChain[..|resp.history|] == resp.history)
  }

  /** The body kept for the integrity analysis: an HTML body cut to the cap,
      and nothing for any other outcome. */
  function CapturedHtml(resp: HttpOutcome): (html: string)
    ensures |html| <= MaxHtmlChars
    ensures !(resp.Fetched? && IsHtml(resp.contentType)) ==> html == ""
    ensures resp.Fetched? && IsHtml(resp.contentType) ==>
      StartsWith(resp.text, html) && |html| == if |resp.text| <= MaxHtmlChars then |resp.text| else MaxHtmlChars
  {
    if resp.Fetched? && IsHtml(resp.contentType) then
      (if |resp.text| <= MaxHtmlChars then resp.text else resp.text[..MaxHtmlChars])
    else ""
  }

  /** What `check_http_redirect` does with one outcome of the client: an
      exception other than a request error escapes; otherwise the record is
      well shaped, reachable iff there was a response, carries the request
      error's message or the response's final URL and chain, and comes with
      the captured body. */
  predicate ReportsTransport(resp: HttpOutcome, r: Result<(TransportResult, string), string>)
  {
    && (resp.OtherError? <==> r.Failure?)
    && (r.Failure? ==> r.error == resp.message)
    && (r.Success? ==> WellShapedTransport(r.value.0) && r.value.1 == CapturedHtml(resp))
    && (r.Success? ==> (r.value.0.httpAccessible <==> resp.Fetched?))
    && (resp.RequestError? ==> r.Success? && r.value.0.error == Some(resp.message))
    && (resp.Fetched? ==>
          r.Success? && r.value.0.finalUrl == Some(resp.url) && ShapedFromResponse(resp, r.value.0))
  }

  /** `check_http_redirect(domain)`: `Failure` when an exception other than a
      request error escapes; otherwise the result record and the captured HTML. */
  method CheckHttpRedirect(fetch: Fetch, domain: string) returns (r: Result<(TransportResult, string), string>)
    ensures ReportsTransport(fetch(HttpUrl(domain), RequestTimeout), r)
  {
    var response := fetch(HttpUrl(domain), RequestTimeout);
    if response.OtherError? {
      return Failure(response.message);
    }
    var result := TransportResult(false, false, None, None, []);
    var html := "";
    match response {
      case Fetched(url, history, contentType, text) =>
        result := result.(httpAccessible := true);
        result := result.(finalUrl := Some(url));
        result := result.(redirectsToHttps := StartsWith(url, "https://"));
        if history != [] {
          result := result.(redirectChain := history);
          result := result.(redirectChain := result.redirectChain + [url]);
        }
        if IsHtml(contentType) {
          html := if |text| <= MaxHtmlChars then text else text[..MaxHtmlChars];
        }
      case RequestError(message) =>
        result := result.(error := Some(message));
    }
    r := Success((result, html));
  }
}
