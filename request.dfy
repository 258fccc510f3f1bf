/** The request the state machine runs against (`context/request.rs`). */
module Requests {
  import opened Wrappers
  import opened Strings
  import opened Headers

  /**
   * Request headers: each name with its values. The sequence order stands
   * for the iteration order of the source's hash map; the first entry whose
   * name matches wins, as `keys().find(..)` does.
   */
  type HeaderMap = seq<(string, seq<HeaderValue>)>

  datatype Request = Request(
    requestPath: string,
    basePath: string,
    httpMethod: string,
    headers: HeaderMap,
    body: Option<seq<bv8>>,
    query: map<string, seq<string>>)

  /** `Request::default`: a GET of `/` with nothing else. */
  function DefaultRequest(): (r: Request)
    ensures r.requestPath == "/" && r.basePath == "/" && r.httpMethod == "GET"
    ensures r.headers == [] && r.body == None && r.query == map[]
    ensures IsGet(r) && IsGetOrHead(r) && !IsPutOrPost(r)
  {
    Request("/", "/", "GET", [], None, map[])
  }

  /** The values of the first header whose name equals `name` up to case. */
  function FindEntry(headers: HeaderMap, name: string): (r: Option<seq<HeaderValue>>)
    ensures r.None? <==> forall i :: 0 <= i < |headers| ==> !EqualsIgnoreCase(headers[i].0, name)
    ensures r.Some? ==>
              exists i :: 0 <= i < |headers| && EqualsIgnoreCase(headers[i].0, name)
                          && r.value == headers[i].1
                          && forall j :: 0 <= j < i ==> !EqualsIgnoreCase(headers[j].0, name)
  {
    if headers == [] then None
    else if EqualsIgnoreCase(headers[0].0, name) then Some(headers[0].1)
    else
      var r := FindEntry(headers[1..], name);
      assert forall j :: 1 <= j < |headers| ==> headers[j] == headers[1..][j - 1];
      r
  }

  /** `has_header`: some header name equals `name` up to case, whatever its values. */
  predicate HasHeader(r: Request, name: string) {
    FindEntry(r.headers, name).Some?
  }

  /** `find_header`: the values of the header, or none when it is missing. */
  function FindHeader(r: Request, name: string): seq<HeaderValue> {
    match FindEntry(r.headers, name)
    case Some(values) => values
    case None => []
  }

  /** `has_header_value`: the header is present and one of its values is exactly `value`. */
  predicate HasHeaderValue(r: Request, name: string, value: string) {
    match FindEntry(r.headers, name)
    case Some(values) => exists i :: 0 <= i < |values| && values[i].value == value
    case None => false
  }

  /** The first value of the Content-Type header, `application/json` when there is none. */
  function ContentType(r: Request): string {
    match FindEntry(r.headers, "CONTENT-TYPE")
    case Some(values) => if values != [] then values[0].value else "application/json"
    case None => "application/json"
  }

  predicate IsPutOrPost(r: Request) { Upper(r.httpMethod) in ["PUT", "POST"] }
  predicate IsGetOrHead(r: Request) { Upper(r.httpMethod) in ["GET", "HEAD"] }
  predicate IsGet(r: Request) { Upper(r.httpMethod) == "GET" }
  predicate IsOptions(r: Request) { Upper(r.httpMethod) == "OPTIONS" }
  predicate IsPut(r: Request) { Upper(r.httpMethod) == "PUT" }
  predicate IsPost(r: Request) { Upper(r.httpMethod) == "POST" }
  predicate IsDelete(r: Request) { Upper(r.httpMethod) == "DELETE" }

  predicate HasAcceptHeader(r: Request) { HasHeader(r, "ACCEPT") }
  function Accept(r: Request): seq<HeaderValue> { FindHeader(r, "ACCEPT") }
  predicate HasAcceptLanguageHeader(r: Request) { HasHeader(r, "ACCEPT-LANGUAGE") }
  function AcceptLanguage(r: Request): seq<HeaderValue> { FindHeader(r, "ACCEPT-LANGUAGE") }
  predicate HasAcceptCharsetHeader(r: Request) { HasHeader(r, "ACCEPT-CHARSET") }
  function AcceptCharset(r: Request): seq<HeaderValue> { FindHeader(r, "ACCEPT-CHARSET") }
  predicate HasAcceptEncodingHeader(r: Request) { HasHeader(r, "ACCEPT-ENCODING") }
  function AcceptEncoding(r: Request): seq<HeaderValue> { FindHeader(r, "ACCEPT-ENCODING") }

  /**
   * Header lookups ignore the case of the name; a header listed with no
   * values is present but holds no value; `has_header_value` implies
   * `has_header`, and its value is among `find_header`'s.
   */
  lemma {:induction false} HeaderLookups(r: Request, name: string, value: string)
    ensures HasHeader(r, name) == HasHeader(r, Upper(name))
    ensures FindHeader(r, name) == FindHeader(r, Upper(name))
    ensures HasHeaderValue(r, name, value) <==>
      HasHeader(r, name) && exists i :: 0 <= i < |FindHeader(r, name)| && FindHeader(r, name)[i].value == value
    ensures !HasHeader(r, name) ==> FindHeader(r, name) == []
  {
    FoldIdempotent(name);
    assert forall h: string :: EqualsIgnoreCase(h, name) == EqualsIgnoreCase(h, Upper(name));
    FindEntrySameName(r.headers, name, Upper(name));
  }

  lemma FoldIdempotent(s: string)
    ensures Upper(Upper(s)) == Upper(s)
  {
  }

  lemma {:induction false} FindEntrySameName(headers: HeaderMap, a: string, b: string)
    requires Upper(a) == Upper(b)
    ensures FindEntry(headers, a) == FindEntry(headers, b)
  {
    if headers != [] {
      FindEntrySameName(headers[1..], a, b);
    }
  }

  /** A header listed with no values: present, yet `has_header_value` fails for every value. */
  lemma EmptyHeaderHasNoValue(name: string, value: string)
    ensures var r := DefaultRequest().(headers := [(name, [])]);
      HasHeader(r, name) && !HasHeaderValue(r, name, value) && FindHeader(r, name) == []
  {
  }
}
