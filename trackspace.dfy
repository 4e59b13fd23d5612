/**
 * The session object of trackspace.ts: the cookies it carries, the file it
 * keeps them in, the wrapper `apiCall` around `fetch`, the credential test
 * and the login conversation of up to five requests. Every `fetch` is
 * given by how it settled, every prompt by its answer, and the cookie file
 * by its contents.
 */
module TrackSpace {
  import opened Wrappers
  import opened JsStrings
  import opened JsMaps
  import opened Cookies
  import opened CookieUpdate
  import opened Http
  import opened Dispatch
  import opened Requests

  const ConsentName: string := "cookieconsent_status"
  const ConsentCookie: string := "cookieconsent_status=dismiss"

  // ---------------------------------------------------------------------------
  // The cookie handling of each login step

  /**
   * `let cookies = response.headers.get('set-cookie'); if (cookies) {...}`:
   * when the joined Set-Cookie header is present and not empty, the jar
   * `updateCookies` builds from that header and the raw values replaces the
   * one the client held; otherwise the jar stays.
   */
  function Received(jar: Jar, response: Response): (next: Jar)
    requires jar.Valid()
    ensures next.Valid()
  {
    var h := SetCookieHeader(response);
    if h.Some? && h.value != "" then MergedJar(h.value, response.setCookies) else jar
  }

  /** The jar after the first step: what the login page sets, with the consent cookie on top (trackspace.ts:212-225). */
  function Step1Jar(response: Response): (jar: Jar)
    ensures jar.Valid()
  {
    Received(Empty(), response).Set(ConsentName, ConsentCookie)
  }

  /** A settled `fetch` the client can read: it resolved with a response. */
  predicate Arrived(f: FetchResult) {
    f.Resolved? && f.response.Some?
  }

  /** `response.headers.get('x-seraph-loginreason')?.endsWith("OK")` */
  predicate ReasonOk(response: Response) {
    Header(response, "x-seraph-loginreason").Some? && EndsWith(Header(response, "x-seraph-loginreason").value, "OK")
  }

  /** Step 1: GET the login page. */
  function LoginPageRequest(config: Config): Request {
    Request(config.endpoint + config.loginPath, LoginPageInit(config))
  }

  /** Step 2: POST the credentials to the login page with the given cookies. */
  function CredentialsRequest(config: Config, cookies: string, username: string, password: string): Request {
    Request(config.endpoint + config.loginPath, CredentialsInit(config, cookies, username, password))
  }

  /** Steps 3 and 5: GET the root with the given cookies. */
  function RootRequest(config: Config, cookies: string): Request {
    Request(config.endpoint + "/", RootInit(config, cookies))
  }

  /** Step 4: POST the PIN to where the 302 points, with the given cookies. */
  function PinRequest(config: Config, location: Option<string>, cookies: string, pin: string): Request {
    Request(PinUrl(config, location), PinInit(config, cookies, pin))
  }


  /** How `login()` settles: with true or false, or rejected because a `fetch` did or gave no response. */
  datatype LoginOutcome = Finished(ok: bool) | Failed

  /**
   * What one run of `login()` does besides settling: the requests it hands
   * to `fetch`, in order, and the jar it leaves in `this.cookieMap` (None
   * when it never assigns one).
   */
  datatype LoginRun = LoginRun(requests: seq<Request>, session: Option<Jar>)

  /**
   * Steps 4 and 5 (trackspace.ts:319-427): post the PIN with the cookies of
   * step 2, then, if it is answered, GET the root with the cookies after it.
   */
  function SecondFactor(config: Config, jar2: Jar, location: Option<string>, pin: string, f4: FetchResult): (run: LoginRun)
    requires jar2.Valid()
    ensures run.session.Some? ==> run.session.value.Valid()
  {
    var q4 := PinRequest(config, location, Rendered(jar2), pin);
    if !Arrived(f4) then LoginRun([q4], None)
    else
      var jar4 := Received(jar2, f4.response.value);
      LoginRun([q4, RootRequest(config, Rendered(jar4))], Some(jar4))
  }

  /** Step 3 onwards (trackspace.ts:296-435): GET the root; only a 302 asks for the PIN. */
  function AfterCredentials(config: Config, jar2: Jar, pin: string, f3: FetchResult, f4: FetchResult): (run: LoginRun)
    requires jar2.Valid()
    ensures run.session.Some? ==> run.session.value.Valid()
  {
    var q3 := RootRequest(config, Rendered(jar2));
    if Arrived(f3) && f3.response.value.status == 302 then
      var rest := SecondFactor(config, jar2, Header(f3.response.value, "location"), pin, f4);
      rest.(requests := [q3] + rest.requests)
    else LoginRun([q3], None)
  }

  /**
   * After the credentials (trackspace.ts:289-435), with the session
   * holding the jar of step 2: the login goes on only when the login
   * reason of the response ends in "OK".
   */
  function Checked(config: Config, jar2: Jar, r2: Response, pin: string, f3: FetchResult, f4: FetchResult): (run: LoginRun)
    requires jar2.Valid()
    ensures run.session.Some? && run.session.value.Valid()
  {
    if !ReasonOk(r2) then LoginRun([], Some(jar2))
    else
      var rest := AfterCredentials(config, jar2, pin, f3, f4);
      rest.(session := if rest.session.Some? then rest.session else Some(jar2))
  }

  /**
   * Step 2 onwards (trackspace.ts:235-435): POST the credentials with the
   * cookies of step 1; the session takes the jar that results.
   */
  function Credentials(config: Config, jar1: Jar, username: string, password: string, pin: string,
                       f2: FetchResult, f3: FetchResult, f4: FetchResult): (run: LoginRun)
    requires jar1.Valid()
    ensures run.session.Some? ==> run.session.value.Valid()
  {
    var q2 := CredentialsRequest(config, Rendered(jar1), username, password);
    if !Arrived(f2) then LoginRun([q2], None)
    else
      var rest := Checked(config, Received(jar1, f2.response.value), f2.response.value, pin, f3, f4);
      rest.(requests := [q2] + rest.requests)
  }

  /**
   * `login()` (trackspace.ts:189-437) given the username, password and PIN
   * the prompts answer and the way the first four `fetch` calls settle
   * (only as many are made as the conversation gets to; the fifth decides
   * only how the login settles).
   */
  function LoginSpec(config: Config, username: string, password: string, pin: string,
                     f1: FetchResult, f2: FetchResult, f3: FetchResult, f4: FetchResult): (run: LoginRun)
    ensures run.session.Some? ==> run.session.value.Valid()
  {
    var q1 := LoginPageRequest(config);
    if !Arrived(f1) then LoginRun([q1], None)
    else
      var rest := Credentials(config, Step1Jar(f1.response.value), username, password, pin, f2, f3, f4);
      rest.(requests := [q1] + rest.requests)
  }

  /**
   * The cookie handling of one step: the jar `Received` gives and the
   * `Cookie` header rendered from it.
   */
  method ReceiveCookies(jar: Jar, response: Response) returns (next: Jar, header: string)
    requires jar.Valid()
    ensures next == Received(jar, response) && next.Valid()
    ensures header == Rendered(next)
  {
    var h := SetCookieHeader(response);
    next := jar;
    if h.Some? && h.value != "" {
      var _, updated := UpdateCookies(h.value, response.setCookies);
      next := updated;
    }
    header := SerializeJar(next);
    RenderedIsSerialize(next);
  }

  /** The cookie handling of step 1: what the login page sets, then the consent cookie. */
  method FirstCookies(response: Response) returns (jar: Jar)
    ensures jar == Step1Jar(response) && jar.Valid()
  {
    var header;
    jar, header := ReceiveCookies(Empty(), response);
    jar := jar.Set(ConsentName, ConsentCookie);
  }

  // ---------------------------------------------------------------------------
  // What a login promises

  /** The PIN is answered and so is the root after it. */
  predicate PinAnswered(f4: FetchResult, f5: FetchResult) {
    Arrived(f4) && Arrived(f5)
  }

  /** After the credentials, the root answers 200 at once or after the PIN. */
  predicate AcceptedAfter(f3: FetchResult, f4: FetchResult, f5: FetchResult) {
    && Arrived(f3)
    && var status := f3.response.value.status;
       || status == 200
       || (status == 302 && PinAnswered(f4, f5) && f5.response.value.status == 200)
  }

  /** After the credentials, the root answers, at once or after the PIN. */
  predicate RootAnswers(f3: FetchResult, f4: FetchResult, f5: FetchResult) {
    && Arrived(f3)
    && var status := f3.response.value.status;
       || status == 200
       || (status == 302 && PinAnswered(f4, f5))
  }

  /** After the credentials, a `fetch` the conversation gets to gives no response. */
  predicate LostAfter(f3: FetchResult, f4: FetchResult, f5: FetchResult) {
    || !Arrived(f3)
    || (f3.response.value.status == 302 && !PinAnswered(f4, f5))
  }

  /** The answer to the credentials carries a login reason ending in "OK". */
  predicate CredentialsAccepted(f2: FetchResult) {
    Arrived(f2) && ReasonOk(f2.response.value)
  }

  /** The credentials are accepted after the login page answered. */
  predicate CredentialsOk(f1: FetchResult, f2: FetchResult) {
    Arrived(f1) && CredentialsAccepted(f2)
  }

  /** The conversation `login()` answers with true. */
  predicate Accepted(f1: FetchResult, f2: FetchResult, f3: FetchResult, f4: FetchResult, f5: FetchResult) {
    CredentialsOk(f1, f2) && AcceptedAfter(f3, f4, f5)
  }

  /** The conversations in which `login()` stores the cookies (when configured to). */
  predicate ReachesRoot(f1: FetchResult, f2: FetchResult, f3: FetchResult, f4: FetchResult, f5: FetchResult) {
    CredentialsOk(f1, f2) && RootAnswers(f3, f4, f5)
  }

  /** The conversations in which `login()` rejects. */
  predicate Lost(f1: FetchResult, f2: FetchResult, f3: FetchResult, f4: FetchResult, f5: FetchResult) {
    !Arrived(f1) || !Arrived(f2) || (ReasonOk(f2.response.value) && LostAfter(f3, f4, f5))
  }

  /** Steps 4 and 5: the PIN, and if it is answered the root, with the cookies after the PIN. */
  lemma SecondFactorRequests(config: Config, jar2: Jar, location: Option<string>, pin: string, f4: FetchResult)
    requires jar2.Valid()
    ensures var rs := SecondFactor(config, jar2, location, pin, f4).requests;
            && 1 <= |rs| <= 2
            && rs[0] == PinRequest(config, location, Rendered(jar2), pin)
            && (|rs| == 2 <==> Arrived(f4))
            && (|rs| == 2 ==> rs[1] == RootRequest(config, Rendered(Received(jar2, f4.response.value))))
  {
  }

  /** Steps 3 to 5 send the root, then on a redirect what steps 4 and 5 send. */
  lemma AfterCredentialsRequests(config: Config, jar2: Jar, pin: string, f3: FetchResult, f4: FetchResult)
    requires jar2.Valid()
    ensures var rs := AfterCredentials(config, jar2, pin, f3, f4).requests;
            && rs != []
            && rs[0] == RootRequest(config, Rendered(jar2))
            && (|rs| >= 2 <==> Arrived(f3) && f3.response.value.status == 302)
            && (|rs| >= 2 ==> rs[1..] == SecondFactor(config, jar2, Header(f3.response.value, "location"), pin, f4).requests)
  {
  }

  /** Steps 2 to 5 send the credentials with the cookies of step 1, then what steps 3 to 5 send. */
  lemma CredentialsRequests(config: Config, jar1: Jar, username: string, password: string, pin: string,
                            f2: FetchResult, f3: FetchResult, f4: FetchResult)
    requires jar1.Valid()
    ensures var rs := Credentials(config, jar1, username, password, pin, f2, f3, f4).requests;
            && rs != []
            && rs[0] == CredentialsRequest(config, Rendered(jar1), username, password)
            && (|rs| >= 2 <==> CredentialsAccepted(f2))
            && (|rs| >= 2 ==> rs[1..] == AfterCredentials(config, Received(jar1, f2.response.value), pin, f3, f4).requests)
  {
    if Arrived(f2) {
      var jar2 := Received(jar1, f2.response.value);
      var checked := Checked(config, jar2, f2.response.value, pin, f3, f4);
      if ReasonOk(f2.response.value) {
        AfterCredentialsRequests(config, jar2, pin, f3, f4);
      }
    }
  }

  /**
   * The requests of a login in order: the login page, the credentials with
   * the cookies of step 1, then, once the credentials are accepted, the
   * root with the cookies of step 2, and only when the root redirects, the
   * PIN to the redirect's location and, once it is answered, the root again
   * with the cookies after the PIN.
   */
  lemma LoginRequests(config: Config, username: string, password: string, pin: string,
                      f1: FetchResult, f2: FetchResult, f3: FetchResult, f4: FetchResult)
    ensures var rs := LoginSpec(config, username, password, pin, f1, f2, f3, f4).requests;
            && 1 <= |rs| <= 5
            && rs[0] == LoginPageRequest(config)
            && (|rs| >= 2 <==> Arrived(f1))
            && (|rs| >= 2 ==> rs[1] == CredentialsRequest(config, Rendered(Step1Jar(f1.response.value)), username, password))
            && (|rs| >= 3 <==> CredentialsOk(f1, f2))
            && (|rs| >= 3 ==>
                  var jar2 := Received(Step1Jar(f1.response.value), f2.response.value);
                  && rs[2] == RootRequest(config, Rendered(jar2))
                  && (|rs| >= 4 <==> Arrived(f3) && f3.response.value.status == 302)
                  && (|rs| >= 4 ==> rs[3] == PinRequest(config, Header(f3.response.value, "location"), Rendered(jar2), pin))
                  && (|rs| == 5 <==> |rs| >= 4 && Arrived(f4))
                  && (|rs| == 5 ==> rs[4] == RootRequest(config, Rendered(Received(jar2, f4.response.value)))))
  {
    if Arrived(f1) {
      var jar1 := Step1Jar(f1.response.value);
      CredentialsRequests(config, jar1, username, password, pin, f2, f3, f4);
      if CredentialsAccepted(f2) {
        var jar2 := Received(jar1, f2.response.value);
        AfterCredentialsRequests(config, jar2, pin, f3, f4);
        if Arrived(f3) && f3.response.value.status == 302 {
          SecondFactorRequests(config, jar2, Header(f3.response.value, "location"), pin, f4);
        }
      }
    }
  }

  /**
   * When the login reason does not end in "OK", `login()` gives up after
   * two requests, keeping in the session the jar of step 2.
   */
  lemma LoginRefused(config: Config, username: string, password: string, pin: string,
                     f1: FetchResult, f2: FetchResult, f3: FetchResult, f4: FetchResult)
    requires Arrived(f1) && Arrived(f2) && !ReasonOk(f2.response.value)
    ensures var run := LoginSpec(config, username, password, pin, f1, f2, f3, f4);
            && |run.requests| == 2
            && run.session == Some(Received(Step1Jar(f1.response.value), f2.response.value))
  {
  }

  /**
   * The session `login()` leaves: the jar of step 2 unless the PIN was
   * answered, then the jar after the PIN; none when step 2 never answered.
   */
  lemma LoginSession(config: Config, username: string, password: string, pin: string,
                     f1: FetchResult, f2: FetchResult, f3: FetchResult, f4: FetchResult)
    ensures var run := LoginSpec(config, username, password, pin, f1, f2, f3, f4);
            && (run.session.Some? <==> Arrived(f1) && Arrived(f2))
            && (run.session.Some? ==>
                  var jar2 := Received(Step1Jar(f1.response.value), f2.response.value);
                  run.session.value ==
                    if ReasonOk(f2.response.value) && Arrived(f3) && f3.response.value.status == 302 && Arrived(f4)
                    then Received(jar2, f4.response.value) else jar2)
  {
  }

  /**
   * A step's Set-Cookie values replace the jar rather than merge into it:
   * with a non-empty header, the new jar is the one `updateCookies` builds
   * from that header alone, whatever the client held before; without one
   * (or with only an empty value), the jar stays.
   */
  lemma ReceivedReplaces(jar: Jar, other: Jar, response: Response)
    requires jar.Valid() && other.Valid()
    ensures var h := SetCookieHeader(response);
            && (h.Some? && h.value != "" ==>
                  Received(jar, response) == MergedJar(h.value, response.setCookies) == Received(other, response))
            && (h.None? || h.value == "" ==> Received(jar, response) == jar)
            && (response.setCookies == [""] ==> Received(jar, response) == jar)
  {
  }

  /**
   * The cookie header of step 2 includes the consent cookie: the jar of
   * step 1 holds it under its name, and it is one of the values the header
   * is rendered from; every other name keeps what the login page set.
   */
  lemma ConsentDismissed(response: Response)
    ensures var jar := Step1Jar(response);
            && jar.Get(ConsentName) == Some(ConsentCookie)
            && ConsentCookie in jar.Values()
            && forall k :: k != ConsentName ==> jar.Get(k) == Received(Empty(), response).Get(k)
  {
    var jar := Step1Jar(response);
    assert ConsentName in jar.order;
    var i :| 0 <= i < |jar.order| && jar.order[i] == ConsentName;
    assert jar.Values()[i] == ConsentCookie;
  }

  class TrackSpaceApi {
    const config: Config
    var cookies: string
    var cookieMap: Jar
    /** The contents of the file at `cookiePath`; None when there is none to read. */
    var cookieFile: Option<string>

    ghost predicate Valid()
      reads this
    {
      cookieMap.Valid()
    }

    /** `new TrackSpaceAPI(config, ...)`: no cookies, then those of the file when `loadCookies` is set (trackspace.ts:105-114). */
    constructor(config: Config, file: Option<string>)
      ensures Valid()
      ensures this.config == config && cookieFile == file
      ensures config.loadCookies && file.Some? ==> cookies == file.value && cookieMap == ParseHeader(file.value)
      ensures !(config.loadCookies && file.Some?) ==> cookies == "" && cookieMap == Empty()
    {
      this.config := config;
      cookies := "";
      cookieMap := Empty();
      cookieFile := file;
      new;
      if config.loadCookies {
        ReadCookies();
      }
    }

    /**
     * `readCookies()` (trackspace.ts:119-135): the file's text becomes the
     * cookies and its "; "-separated pieces, each under its name, the map;
     * a file that cannot be read changes nothing.
     */
    method ReadCookies()
      requires Valid()
      modifies this
      ensures Valid()
      ensures cookieFile == old(cookieFile)
      ensures cookieFile.None? ==> cookies == old(cookies) && cookieMap == old(cookieMap)
      ensures cookieFile.Some? ==> cookies == cookieFile.value && cookieMap == ParseHeader(cookieFile.value)
    {
      if cookieFile.Some? {
        var data := cookieFile.value;
        cookies := data;
        cookieMap := ParseCookieHeader(data);
      }
    }

    /** `storeCookies()` (trackspace.ts:140-146): the file now holds the cookies. */
    method StoreCookies()
      modifies this
      ensures cookieFile == Some(cookies)
      ensures cookies == old(cookies) && cookieMap == old(cookieMap)
    {
      cookieFile := Some(cookies);
    }

    /**
     * `apiCall(params)` (trackspace.ts:445-499): the request handed to
     * `fetch`, with the session's cookies in the defaults, and how the call
     * settles given how `fetch` settled.
     */
    method ApiCall(params: ApiCallParams, sent: FetchResult) returns (request: Request, result: ApiResult)
      ensures request == Request(params.url, ApiInit(config, cookies, params.options))
      ensures result == ApiOutcome(config, params.url, sent)
    {
      var init := DefaultOptions(config, cookies);
      if params.options.Some? {
        var headersCombined := DefaultHeaders(config, cookies) + HeadersOf(params.options);
        init := Spread(Spread(init, params.options.value), map["headers" := Headers(headersCombined)]);
      }
      request := Request(params.url, init);
      match sent {
        case Rejected => result := Threw(TransportError);
        case Resolved(None) => result := Threw(UndefinedResponse);
        case Resolved(Some(response)) =>
          result := Returned(response);
          if response.status == 302 {
            var url := Header(response, "location");
            if url.Some? {
              BeforeFirstIsFirstPiece(url.value, '?');
              var path := Split(url.value, "?")[0];
              if EndsWith(path, config.loginPath) || EndsWith(path, config.pinPathEnd) {
                result := Threw(LogonError(LogonErrorMessage(url.value + " <-302- " + params.url)));
              }
            }
          }
      }
    }

    /**
     * `testCredentials()` (trackspace.ts:165-181): a plain GET of the root
     * with the session's cookies; true exactly when the call does not throw,
     * that is when a response arrives and it is not a redirect to the login
     * or PIN page.
     */
    method TestCredentials(sent: FetchResult) returns (request: Request, ok: bool)
      ensures request == Request(config.endpoint + "/", DefaultOptions(config, cookies))
      ensures ok <==> Arrived(sent) && !Expired(config, sent.response.value)
    {
      var result;
      request, result := ApiCall(ApiCallParams(config.endpoint + "/", None), sent);
      ok := !result.Threw?;
      if Arrived(sent) {
        ExpiryDetection(config, config.endpoint + "/", sent.response.value);
      }
    }

    /**
     * `login()` (trackspace.ts:189-437), run against the prompts' answers
     * and the settled `fetch` calls: it settles with true exactly for an
     * accepted conversation and rejects exactly when a `fetch` it makes
     * gives no response; it sends what `LoginSpec` lists and leaves its jar
     * (and the header rendered from it) in the session; and it stores the
     * cookies exactly when configured to and the root answered, at once or
     * after the PIN (also when the PIN is refused).
     */
    method Login(username: string, password: string, pin: string,
                 f1: FetchResult, f2: FetchResult, f3: FetchResult, f4: FetchResult, f5: FetchResult)
      returns (outcome: LoginOutcome, requests: seq<Request>)
      requires Valid()
      modifies this
      ensures Valid()
      ensures outcome == Finished(true) <==> Accepted(f1, f2, f3, f4, f5)
      ensures outcome == Failed <==> Lost(f1, f2, f3, f4, f5)
      ensures var run := LoginSpec(config, username, password, pin, f1, f2, f3, f4);
              && requests == run.requests
              && (run.session.Some? ==> cookieMap == run.session.value && cookies == Rendered(run.session.value))
              && (run.session.None? ==> cookieMap == old(cookieMap) && cookies == old(cookies))
      ensures cookieFile == if config.storeCookies && ReachesRoot(f1, f2, f3, f4, f5) then Some(cookies) else old(cookieFile)
    {
      var q1 := LoginPageRequest(config);
      requests := [q1];
      if !Arrived(f1) {
        return Failed, requests;
      }
      var jar := FirstCookies(f1.response.value);
      var rest;
      outcome, rest := LoginCredentials(jar, username, password, pin, f2, f3, f4, f5);
      requests := requests + rest;
      ghost var run := Credentials(config, jar, username, password, pin, f2, f3, f4);
      assert LoginSpec(config, username, password, pin, f1, f2, f3, f4) == run.(requests := [q1] + run.requests);
    }

    /** `this.cookieMap = cookieMap; this.cookies = cookies` after the cookie handling of a step. */
    method TakeCookies(jar: Jar, response: Response)
      requires jar.Valid()
      modifies this
      ensures Valid()
      ensures cookieMap == Received(jar, response) && cookies == Rendered(cookieMap)
      ensures cookieFile == old(cookieFile)
    {
      cookieMap, cookies := ReceiveCookies(jar, response);
    }

    /** Steps 2 to 5 of `login()`, given the jar of step 1. */
    method LoginCredentials(jar1: Jar, username: string, password: string, pin: string,
                            f2: FetchResult, f3: FetchResult, f4: FetchResult, f5: FetchResult)
      returns (outcome: LoginOutcome, requests: seq<Request>)
      requires Valid() && jar1.Valid()
      modifies this
      ensures Valid()
      ensures outcome == Finished(true) <==> CredentialsAccepted(f2) && AcceptedAfter(f3, f4, f5)
      ensures outcome == Failed <==> !Arrived(f2) || (ReasonOk(f2.response.value) && LostAfter(f3, f4, f5))
      ensures var run := Credentials(config, jar1, username, password, pin, f2, f3, f4);
              && requests == run.requests
              && (run.session.Some? ==> cookieMap == run.session.value && cookies == Rendered(run.session.value))
              && (run.session.None? ==> cookieMap == old(cookieMap) && cookies == old(cookies))
      ensures cookieFile == if config.storeCookies && CredentialsAccepted(f2) && RootAnswers(f3, f4, f5) then Some(cookies) else old(cookieFile)
    {
      var header := SerializeJar(jar1);
      RenderedIsSerialize(jar1);
      var q2 := CredentialsRequest(config, header, username, password);
      requests := [q2];
      if !Arrived(f2) {
        return Failed, requests;
      }
      var r2 := f2.response.value;
      TakeCookies(jar1, r2);
      var rest;
      outcome, rest := LoginChecked(cookieMap, r2, pin, f3, f4, f5);
      requests := requests + rest;
    }

    /** The check of the login reason of step 2 and what follows it, with the session holding the jar of step 2. */
    method LoginChecked(jar2: Jar, r2: Response, pin: string, f3: FetchResult, f4: FetchResult, f5: FetchResult)
      returns (outcome: LoginOutcome, requests: seq<Request>)
      requires jar2.Valid() && cookieMap == jar2 && cookies == Rendered(jar2)
      modifies this
      ensures Valid()
      ensures outcome == Finished(true) <==> ReasonOk(r2) && AcceptedAfter(f3, f4, f5)
      ensures outcome == Failed <==> ReasonOk(r2) && LostAfter(f3, f4, f5)
      ensures var run := Checked(config, jar2, r2, pin, f3, f4);
              && requests == run.requests
              && cookieMap == run.session.value && cookies == Rendered(run.session.value)
      ensures cookieFile == if config.storeCookies && ReasonOk(r2) && RootAnswers(f3, f4, f5) then Some(cookies) else old(cookieFile)
    {
      if !ReasonOk(r2) {
        return Finished(false), [];
      }
      outcome, requests := LoginAfterCredentials(jar2, pin, f3, f4, f5);
    }

    /** Steps 3 to 5 of `login()`, with the session holding the jar of step 2. */
    method LoginAfterCredentials(jar2: Jar, pin: string, f3: FetchResult, f4: FetchResult, f5: FetchResult)
      returns (outcome: LoginOutcome, requests: seq<Request>)
      requires jar2.Valid() && cookieMap == jar2 && cookies == Rendered(jar2)
      modifies this
      ensures Valid()
      ensures outcome == Finished(true) <==> AcceptedAfter(f3, f4, f5)
      ensures outcome == Failed <==> LostAfter(f3, f4, f5)
      ensures var run := AfterCredentials(config, jar2, pin, f3, f4);
              && requests == run.requests
              && (run.session.Some? ==> cookieMap == run.session.value && cookies == Rendered(run.session.value))
              && (run.session.None? ==> cookieMap == jar2 && cookies == old(cookies))
      ensures cookieFile == if config.storeCookies && RootAnswers(f3, f4, f5) then Some(cookies) else old(cookieFile)
    {
      var q3 := RootRequest(config, cookies);
      requests := [q3];
      if !Arrived(f3) {
        return Failed, requests;
      }
      var r3 := f3.response.value;
      if r3.status == 302 {
        var rest;
        outcome, rest := LoginSecondFactor(jar2, Header(r3, "location"), pin, f4, f5);
        requests := requests + rest;
      } else if r3.status == 200 {
        if config.storeCookies {
          StoreCookies();
        }
        outcome := Finished(true);
      } else {
        outcome := Finished(false);
      }
    }

    /** Steps 4 and 5 of `login()`: post the PIN to the location of the 302, then GET the root again. */
    method LoginSecondFactor(jar2: Jar, location: Option<string>, pin: string, f4: FetchResult, f5: FetchResult)
      returns (outcome: LoginOutcome, requests: seq<Request>)
      requires jar2.Valid() && cookieMap == jar2 && cookies == Rendered(jar2)
      modifies this
      ensures Valid()
      ensures outcome == Finished(true) <==> PinAnswered(f4, f5) && f5.response.value.status == 200
      ensures outcome == Failed <==> !PinAnswered(f4, f5)
      ensures var run := SecondFactor(config, jar2, location, pin, f4);
              && requests == run.requests
              && (run.session.Some? ==> cookieMap == run.session.value && cookies == Rendered(run.session.value))
              && (run.session.None? ==> cookieMap == jar2 && cookies == old(cookies))
      ensures cookieFile == if config.storeCookies && PinAnswered(f4, f5) then Some(cookies) else old(cookieFile)
    {
      var q4 := PinRequest(config, location, cookies, pin);
      requests := [q4];
      if !Arrived(f4) {
        return Failed, requests;
      }
      TakeCookies(jar2, f4.response.value);
      var rest;
      outcome, rest := LoginFinalRoot(cookieMap, f5);
      requests := requests + rest;
    }

    /** Step 5 of `login()`, with the session holding the jar after the PIN: a 200 means logged in, and the cookies are stored either way. */
    method LoginFinalRoot(jar4: Jar, f5: FetchResult) returns (outcome: LoginOutcome, requests: seq<Request>)
      requires jar4.Valid() && cookieMap == jar4 && cookies == Rendered(jar4)
      modifies this
      ensures Valid()
      ensures outcome == Finished(true) <==> Arrived(f5) && f5.response.value.status == 200
      ensures outcome == Failed <==> !Arrived(f5)
      ensures requests == [RootRequest(config, Rendered(jar4))]
      ensures cookieMap == jar4 && cookies == old(cookies)
      ensures cookieFile == if config.storeCookies && Arrived(f5) then Some(cookies) else old(cookieFile)
    {
      requests := [RootRequest(config, cookies)];
      if !Arrived(f5) {
        return Failed, requests;
      }
      if config.storeCookies {
        StoreCookies();
      }
      outcome := Finished(f5.response.value.status == 200);
    }
  }
}
