/**
 * The shapes node-fetch exchanges with the client, reduced to what the
 * client looks at: request options as an object of named fields, and a
 * response as its status, its headers and its raw Set-Cookie values.
 */
module Http {
  import opened Wrappers
  import opened JsStrings

  /** The value of one field of a request-options object. */
  datatype Value =
    | Text(text: string)                    // `method`, `redirect`, a JSON body
    | Headers(fields: map<string, string>)  // the `headers` object
    | Form(payload: seq<(string, string)>)  // `formEncode(payload)`, an URLSearchParams body
    | ProxyAgent(proxyUrl: string)          // `new HttpsProxyAgent(proxyUrl)`

  /** A request-options object: field name to value; a missing field is `undefined`. */
  type Init = map<string, Value>

  /** `{...a, ...b}`: every field of `b`, and the fields of `a` that `b` does not have. */
  function Spread(a: Init, b: Init): (r: Init)
    ensures r.Keys == a.Keys + b.Keys
    ensures forall f :: f in r ==> r[f] == if f in b then b[f] else a[f]
  {
    a + b
  }

  /** `init?.headers` spread into an object: the header fields, or none. */
  function HeadersOf(init: Option<Init>): map<string, string> {
    if init.Some? && "headers" in init.value && init.value["headers"].Headers? then
      init.value["headers"].fields
    else
      map[]
  }

  /** A request as handed to `fetch`. */
  datatype Request = Request(url: string, init: Init)

  /**
   * A response: its status, its headers other than Set-Cookie (by lower-case
   * name) and the Set-Cookie values as `headers.raw()['set-cookie']` lists them.
   */
  datatype Response = Response(status: int, headers: map<string, string>, setCookies: seq<string>)

  /** `headers.get(name)` for a header other than Set-Cookie. */
  function Header(r: Response, name: string): Option<string> {
    if name in r.headers then Some(r.headers[name]) else None
  }

  /** `headers.get('set-cookie')`: all Set-Cookie values joined by ", ", or null when there are none. */
  function SetCookieHeader(r: Response): (h: Option<string>)
    ensures h.None? <==> r.setCookies == []
  {
    if r.setCookies == [] then None else Some(Join(r.setCookies, ", "))
  }
}
