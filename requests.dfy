/**
 * The request options and the response check of trackspace.ts: the defaults
 * `apiCall` merges the caller's options into, the option builder `api`, the
 * check that turns a redirect to the login or PIN page into a `LogonError`,
 * and the fixed option objects of the login steps.
 */
module Requests {
  import opened Wrappers
  import opened JsStrings
  import opened Http
  import opened Dispatch

  /** The parts of the configuration the client reads. */
  datatype Config = Config(
    endpoint: string,
    loginPath: string,
    pinPathEnd: string,
    storeCookies: bool,
    loadCookies: bool)

  /** A `TrackSpaceAPICall`: the URL and, optionally, options that override the defaults. */
  datatype ApiCallParams = ApiCallParams(url: string, options: Option<Init>)

  /** An error `apiCall` can reject with. */
  datatype ApiError =
    | LogonError(message: string)  // the session is not logged in
    | TransportError               // `fetch` rejected
    | UndefinedResponse            // `fetch` resolved with no response, so reading its status throws

  /** How the promise `apiCall` returns settles. */
  datatype ApiResult = Returned(response: Response) | Threw(error: ApiError)

  const UserAgent: string := "Mozilla/5.0 (Macintosh; Intel Mac OS X 10.15; rv:103.0) Gecko/20100101 Firefox/103.0"
  const PageAccept: string := "text/html,application/xhtml+xml,application/xml;q=0.9,image/avif,image/webp,*/*;q=0.8"
  const ApiAccept: string := "application/json,text/html,application/xhtml+xml,application/xml;q=0.9,image/avif,image/webp,*/*;q=0.8"
  const JsonAccept: string := "application/json, text/javascript, */*; q=0.01"
  const FormContentType: string := "application/x-www-form-urlencoded"
  const FormContentTypeUtf8: string := "application/x-www-form-urlencoded; charset=UTF-8"
  const JsonContentType: string := "application/json"

  /** The text `LogonError` puts in front of its message (trackspace.ts:84-90). */
  function LogonErrorMessage(detail: string): string {
    "LogonError received for " + detail
  }

  // ---------------------------------------------------------------------------
  // apiCall: the defaults and how the caller's options override them

  /** The headers `apiCall` sends unless the caller overrides them (trackspace.ts:450-457). */
  function DefaultHeaders(config: Config, cookies: string): map<string, string> {
    map[
      "Accept" := ApiAccept,
      "Cookie" := cookies,
      "User-Agent" := UserAgent,
      "Origin" := config.endpoint,
      "Referer" := config.endpoint + config.loginPath,
      "DNT" := "1"]
  }

  /** `defaultOptions` (trackspace.ts:448-459). */
  function DefaultOptions(config: Config, cookies: string): Init {
    map[
      "method" := Text("GET"),
      "headers" := Headers(DefaultHeaders(config, cookies)),
      "redirect" := Text("manual")]
  }

  /**
   * The options `apiCall` hands to `fetch` (trackspace.ts:461-478): with
   * caller options, the defaults spread with them and then with the header
   * objects spread together; without, the defaults as they are.
   */
  function ApiInit(config: Config, cookies: string, options: Option<Init>): Init {
    var defaults := DefaultOptions(config, cookies);
    if options.Some? then
      var headersCombined := DefaultHeaders(config, cookies) + HeadersOf(options);
      Spread(Spread(defaults, options.value), map["headers" := Headers(headersCombined)])
    else
      defaults
  }

  /**
   * Caller headers override the default headers name by name, and every
   * other caller option overrides the default of the same name; in
   * particular the method is GET, redirects are manual and the Cookie header
   * is the session's cookies unless the caller says otherwise.
   */
  lemma ApiInitMerge(config: Config, cookies: string, options: Option<Init>)
    ensures var init, defaults := ApiInit(config, cookies, options), DefaultOptions(config, cookies);
            && init["headers"] == Headers(DefaultHeaders(config, cookies) + HeadersOf(options))
            && (forall f :: f != "headers" ==>
                  (f in init <==> f in defaults || (options.Some? && f in options.value)))
            && (forall f :: f != "headers" && f in init ==>
                  init[f] == if options.Some? && f in options.value then options.value[f] else defaults[f])
    ensures var init, caller := ApiInit(config, cookies, options), HeadersOf(options);
            && (options.None? || "method" !in options.value ==> init["method"] == Text("GET"))
            && (options.None? || "redirect" !in options.value ==> init["redirect"] == Text("manual"))
            && init["headers"].fields["Cookie"] == if "Cookie" in caller then caller["Cookie"] else cookies
  {
    if options.None? {
      assert DefaultHeaders(config, cookies) + HeadersOf(options) == DefaultHeaders(config, cookies);
    }
  }

  /**
   * What becomes of the response of `apiCall` (trackspace.ts:480-496): a 302
   * whose location, without its query, ends in the login path or the PIN
   * path rejects with a `LogonError`; any other response is returned as it
   * is.
   */
  function Settle(config: Config, url: string, response: Response): ApiResult {
    if response.status == 302 && Header(response, "location").Some? then
      var location := Header(response, "location").value;
      var path := BeforeFirst(location, '?');
      if EndsWith(path, config.loginPath) || EndsWith(path, config.pinPathEnd) then
        Threw(LogonError(LogonErrorMessage(location + " <-302- " + url)))
      else
        Returned(response)
    else
      Returned(response)
  }

  /** `apiCall` as a whole: how `fetch` settled, then the check of the response. */
  function ApiOutcome(config: Config, url: string, sent: FetchResult): ApiResult {
    match sent
    case Rejected => Threw(TransportError)
    case Resolved(None) => Threw(UndefinedResponse)
    case Resolved(Some(response)) => Settle(config, url, response)
  }

  /** The session has expired exactly when a 302 points at the login or PIN page. */
  predicate Expired(config: Config, response: Response) {
    && response.status == 302
    && Header(response, "location").Some?
    && var path := BeforeFirst(Header(response, "location").value, '?');
       EndsWith(path, config.loginPath) || EndsWith(path, config.pinPathEnd)
  }

  /**
   * `apiCall` rejects with a `LogonError`, naming the location and the URL,
   * exactly for an expired session; every other response comes back
   * unchanged, whatever its status.
   */
  lemma ExpiryDetection(config: Config, url: string, response: Response)
    ensures var result := Settle(config, url, response);
            && (result.Threw? <==> Expired(config, response))
            && (result.Threw? ==> result.error == LogonError(
                  "LogonError received for " + Header(response, "location").value + " <-302- " + url))
            && (!Expired(config, response) ==> result == Returned(response))
  {
  }

  // ---------------------------------------------------------------------------
  // api: the option builder

  /** The options `api(path, options)` understands; a field the caller leaves out is None or false. */
  datatype ApiOptions = ApiOptions(
    getJson: bool,
    noXSRF: bool,
    postFormData: Option<seq<(string, string)>>,
    postJsonData: Option<string>,        // the text `JSON.stringify` makes of it
    verb: Option<string>,                // `options.method`
    getParamData: Option<seq<(string, string)>>,
    options: Option<Init>)

  /** `{...r, ...{headers: {...r.headers, ...{name: value}}}}` */
  function AddHeader(r: Init, name: string, value: string): (s: Init)
    ensures s.Keys == r.Keys + {"headers"}
    ensures s["headers"] == Headers(HeadersOf(Some(r))[name := value])
    ensures forall f :: f in r && f != "headers" ==> s[f] == r[f]
  {
    Spread(r, map["headers" := Headers(HeadersOf(Some(r))[name := value])])
  }

  /** `{...r, ...{headers: {...r.headers, 'Content-Type': contentType}, method: 'POST', body}}` */
  function WithBody(r: Init, contentType: string, body: Value): (s: Init)
    ensures s.Keys == r.Keys + {"headers", "method", "body"}
    ensures s["headers"] == Headers(HeadersOf(Some(r))["Content-Type" := contentType])
    ensures s["method"] == Text("POST") && s["body"] == body
  {
    Spread(AddHeader(r, "Content-Type", contentType), map["method" := Text("POST"), "body" := body])
  }

  /** The headers `api` asks for (trackspace.ts:757-763). */
  function HeaderOptions(o: ApiOptions): Init {
    var r0: Init := map[];
    var r1 := if o.getJson then AddHeader(r0, "Accept", JsonAccept) else r0;
    if o.noXSRF then AddHeader(r1, "X-Atlassian-Token", "no-check") else r1
  }

  /** Then the form body and then the JSON body, each making the request a POST (trackspace.ts:766-784). */
  function BodyOptions(o: ApiOptions): Init {
    var r2 := HeaderOptions(o);
    var r3 := if o.postFormData.Some? then WithBody(r2, FormContentTypeUtf8, Form(o.postFormData.value)) else r2;
    if o.postJsonData.Some? then WithBody(r3, JsonContentType, Text(o.postJsonData.value)) else r3
  }

  /** The request options `api` builds, before the caller's own `options` are spread over them (trackspace.ts:755-788). */
  function ApiRequestOptions(o: ApiOptions): Init {
    var r4 := BodyOptions(o);
    if o.verb.Some? && o.verb.value != "" then Spread(r4, map["method" := Text(o.verb.value)]) else r4
  }

  /**
   * `api(path, options)` as written (trackspace.ts:754-807), with `encode`
   * standing for what `formEncode` renders into a query string. The query
   * appended for `getParamData` is made from `postFormData`, and from no
   * pairs at all when that is absent.
   */
  function Api(config: Config, path: string, o: ApiOptions, encode: seq<(string, string)> -> string): ApiCallParams {
    var appendUrl := if o.getParamData.Some? then
                       "?" + encode(if o.postFormData.Some? then o.postFormData.value else [])
                     else "";
    var r := ApiRequestOptions(o);
    ApiCallParams(config.endpoint + path + appendUrl, Some(if o.options.Some? then Spread(r, o.options.value) else r))
  }

  /** `api` with the query made from `getParamData`, as its name says it should be. */
  function ApiWithQuery(config: Config, path: string, o: ApiOptions, encode: seq<(string, string)> -> string): ApiCallParams {
    var appendUrl := if o.getParamData.Some? then "?" + encode(o.getParamData.value) else "";
    var r := ApiRequestOptions(o);
    ApiCallParams(config.endpoint + path + appendUrl, Some(if o.options.Some? then Spread(r, o.options.value) else r))
  }

  /**
   * As written, the URL `api` builds does not depend on the pairs given as
   * `getParamData`: two calls that differ only there get the same URL.
   */
  lemma ApiIgnoresGetParamData(config: Config, path: string, o: ApiOptions, p: seq<(string, string)>, q: seq<(string, string)>,
                               encode: seq<(string, string)> -> string)
    ensures Api(config, path, o.(getParamData := Some(p)), encode).url
         == Api(config, path, o.(getParamData := Some(q)), encode).url
  {
  }

  /**
   * With the query made from `getParamData`, the URL is the endpoint, the
   * path and `?` followed by those pairs encoded; without it, no query.
   */
  lemma ApiWithQueryUrl(config: Config, path: string, o: ApiOptions, encode: seq<(string, string)> -> string)
    ensures var url := ApiWithQuery(config, path, o, encode).url;
            && (o.getParamData.Some? ==> url == config.endpoint + path + "?" + encode(o.getParamData.value))
            && (o.getParamData.None? ==> url == config.endpoint + path)
            && ApiWithQuery(config, path, o, encode).options == Api(config, path, o, encode).options
  {
  }

  /** The JSON Accept header and the XSRF opt-out are there exactly when asked for, and nothing else is. */
  lemma HeaderOptionsFacts(o: ApiOptions)
    ensures var r := HeaderOptions(o);
            var h := HeadersOf(Some(r));
            && ("Accept" in h <==> o.getJson)
            && (o.getJson ==> h["Accept"] == JsonAccept)
            && ("X-Atlassian-Token" in h <==> o.noXSRF)
            && (o.noXSRF ==> h["X-Atlassian-Token"] == "no-check")
            && "Content-Type" !in h
            && r.Keys <= {"headers"}
  {
  }

  /** A form or a JSON body adds a content type to the headers `api` asked for, and changes none of them. */
  lemma BodyOptionsHeaders(o: ApiOptions)
    ensures var h, h2 := HeadersOf(Some(BodyOptions(o))), HeadersOf(Some(HeaderOptions(o)));
            && (forall n :: n != "Content-Type" ==> (n in h <==> n in h2))
            && (forall n :: n != "Content-Type" && n in h ==> h[n] == h2[n])
            && ("Content-Type" in h <==> o.postFormData.Some? || o.postJsonData.Some?)
  {
    HeaderOptionsFacts(o);
    var h2 := HeadersOf(Some(HeaderOptions(o)));
    var r3 := if o.postFormData.Some? then WithBody(HeaderOptions(o), FormContentTypeUtf8, Form(o.postFormData.value))
              else HeaderOptions(o);
    var h3 := if o.postFormData.Some? then h2["Content-Type" := FormContentTypeUtf8] else h2;
    assert HeadersOf(Some(r3)) == h3;
    if o.postJsonData.Some? {
      assert HeadersOf(Some(BodyOptions(o))) == h3["Content-Type" := JsonContentType];
    }
  }

  /**
   * A form or a JSON body makes the request a POST with that body and its
   * content type, JSON winning when both are given.
   */
  lemma BodyOptionsFacts(o: ApiOptions)
    ensures var r := BodyOptions(o);
            var h := HeadersOf(Some(r));
            && ("body" in r <==> o.postFormData.Some? || o.postJsonData.Some?)
            && ("method" in r <==> o.postFormData.Some? || o.postJsonData.Some?)
            && ("method" in r ==> r["method"] == Text("POST"))
            && (o.postJsonData.Some? ==> h["Content-Type"] == JsonContentType && r["body"] == Text(o.postJsonData.value))
            && (o.postJsonData.None? && o.postFormData.Some? ==>
                  h["Content-Type"] == FormContentTypeUtf8 && r["body"] == Form(o.postFormData.value))
            && r.Keys <= {"headers", "method", "body"}
  {
    HeaderOptionsFacts(o);
  }

  /** A non-empty `method` option overrides the method; otherwise the method is POST with a body and unset without. */
  lemma ApiRequestOptionsFacts(o: ApiOptions)
    ensures var r, r4 := ApiRequestOptions(o), BodyOptions(o);
            && (o.verb.Some? && o.verb.value != "" ==> r == r4["method" := Text(o.verb.value)])
            && (!(o.verb.Some? && o.verb.value != "") ==> r == r4)
            && r.Keys <= {"headers", "method", "body"}
  {
    BodyOptionsFacts(o);
  }

  // ---------------------------------------------------------------------------
  // The option objects of the login steps (trackspace.ts:195-403)

  /** Step 1: GET the login page. */
  function LoginPageInit(config: Config): Init {
    map[
      "method" := Text("GET"),
      "headers" := Headers(map["User-Agent" := UserAgent, "Origin" := config.endpoint])]
  }

  /** The headers of steps 2 to 5 around the given cookies, with a form content type when posting. */
  function SessionHeaders(config: Config, cookies: string, posting: bool): map<string, string> {
    var h := map[
      "Accept" := PageAccept,
      "Cookie" := cookies,
      "User-Agent" := UserAgent,
      "Origin" := config.endpoint,
      "Referer" := config.endpoint + config.loginPath,
      "DNT" := "1"];
    if posting then h["Content-Type" := FormContentType] else h
  }

  /** Step 2: POST the credentials to the login page, redirects manual. */
  function CredentialsInit(config: Config, cookies: string, username: string, password: string): Init {
    map[
      "method" := Text("POST"),
      "headers" := Headers(SessionHeaders(config, cookies, true)),
      "body" := Form([("os_username", username), ("os_password", password), ("os_destination", ""),
                      ("user_role", ""), ("atl_token", ""), ("login", "Log In")]),
      "redirect" := Text("manual")]
  }

  /** Steps 3 and 5: GET the root, redirects manual. */
  function RootInit(config: Config, cookies: string): Init {
    map[
      "method" := Text("GET"),
      "headers" := Headers(SessionHeaders(config, cookies, false)),
      "redirect" := Text("manual")]
  }

  /** Step 4: POST the PIN, redirects manual. */
  function PinInit(config: Config, cookies: string, pin: string): Init {
    map[
      "method" := Text("POST"),
      "headers" := Headers(SessionHeaders(config, cookies, true)),
      "body" := Form([("2fpin", pin), ("atl_token", "$atl_token"), ("twofalogin", "pinlogin")]),
      "redirect" := Text("manual")]
  }

  /** `${x}` for the value of `headers.get(...)`: the text, or "null" when the header is missing. */
  function Interpolate(h: Option<string>): string {
    if h.Some? then h.value else "null"
  }

  /**
   * Where the PIN is posted (trackspace.ts:322-326): the location of the
   * 302, prefixed with the endpoint unless it starts with "https://".
   */
  function PinUrl(config: Config, location: Option<string>): (url: string)
    ensures EndsWith(url, Interpolate(location))
    ensures StartsWith(Interpolate(location), "https://") ==> url == Interpolate(location)
    ensures !StartsWith(Interpolate(location), "https://") ==>
              StartsWith(url, config.endpoint) && |url| == |config.endpoint| + |Interpolate(location)|
  {
    if location.Some? && StartsWith(location.value, "https://") then location.value
    else config.endpoint + Interpolate(location)
  }
}
