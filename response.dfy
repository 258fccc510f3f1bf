/**
 * The response the engine builds (`context/response.rs`): a status, headers
 * keyed by name in a sorted map, and an optional body. `ResponseState` is
 * its value, which callbacks and the specification functions work on;
 * `Response` is the object the engine updates in place.
 */
module Responses {
  import opened Wrappers
  import opened Strings
  import opened Headers
  import opened Enums

  type HeaderTable = map<string, seq<HeaderValue>>

  datatype ResponseState = ResponseState(status: u16, headers: HeaderTable, body: Option<seq<bv8>>)

  /** `Response::default`: 200 OK, no headers, no body. */
  function DefaultResponse(): (r: ResponseState)
    ensures r.status == 200 && r.body.None?
    ensures forall name :: !HasHeader(r, name)
    ensures !HasBody(r)
  {
    ResponseState(200, map[], None)
  }

  /** Some header name equals `name` once both are upper-cased. */
  predicate HasHeader(r: ResponseState, name: string) {
    exists k :: k in r.headers && Upper(k) == Upper(name)
  }

  /** A body is present and not empty. */
  predicate HasBody(r: ResponseState) {
    r.body.Some? && r.body.value != []
  }

  /** `add_header`: the list under exactly this name is replaced. */
  function WithHeader(r: ResponseState, name: string, values: seq<HeaderValue>): ResponseState {
    r.(headers := r.headers[name := values])
  }

  /** Every entry of `hs` as plain values, as `add_headers` inserts them. */
  function BasicTable(hs: map<string, seq<string>>): (t: HeaderTable)
    ensures t.Keys == hs.Keys
    ensures forall k :: k in hs ==> t[k] == BasicValues(hs[k])
  {
    map k | k in hs :: BasicValues(hs[k])
  }

  /** `add_headers`: every entry inserted, overwriting what was there under the same name. */
  function WithHeaders(r: ResponseState, hs: map<string, seq<string>>): ResponseState {
    r.(headers := r.headers + BasicTable(hs))
  }

  /** `cors_headers`: the three standard CORS headers. */
  function CorsHeaders(allowedMethods: seq<string>): map<string, seq<string>> {
    map[
      "Access-Control-Allow-Origin" := ["*"],
      "Access-Control-Allow-Methods" := allowedMethods,
      "Access-Control-Allow-Headers" := ["Content-Type"]
    ]
  }

  /**
   * After `add_header` the header is found under its own name in any case,
   * holds exactly the new values, and no other header changes.
   */
  lemma WithHeaderFacts(r: ResponseState, name: string, values: seq<HeaderValue>, other: string)
    ensures var r' := WithHeader(r, name, values);
      HasHeader(r', Lower(name)) && HasHeader(r', Upper(name))
      && r'.headers[name] == values
      && r'.status == r.status && r'.body == r.body
      && (other != name ==> (other in r'.headers <==> other in r.headers))
      && (other != name && other in r.headers ==> r'.headers[other] == r.headers[other])
  {
    var r' := WithHeader(r, name, values);
    UpperLower(name);
    UpperIdempotent(name);
    assert name in r'.headers;
  }

  lemma UpperLower(s: string)
    ensures Upper(Lower(s)) == Upper(s)
  {
  }

  lemma UpperIdempotent(s: string)
    ensures Upper(Upper(s)) == Upper(s)
  {
  }

  /**
   * `add_cors_headers` adds exactly the three CORS headers, the methods in
   * the order given, and leaves every other header as it was.
   */
  lemma CorsHeadersAdded(r: ResponseState, allowedMethods: seq<string>)
    ensures var r' := WithHeaders(r, CorsHeaders(allowedMethods));
      r'.headers.Keys == r.headers.Keys + {"Access-Control-Allow-Origin", "Access-Control-Allow-Methods", "Access-Control-Allow-Headers"}
      && r'.headers["Access-Control-Allow-Origin"] == [Basic("*")]
      && r'.headers["Access-Control-Allow-Methods"] == BasicValues(allowedMethods)
      && r'.headers["Access-Control-Allow-Headers"] == [Basic("Content-Type")]
      && r'.status == r.status && r'.body == r.body
      && (forall k :: k in r.headers && k !in CorsHeaders(allowedMethods) ==> r'.headers[k] == r.headers[k])
  {
    assert BasicValues(["*"]) == [Basic("*")];
    assert BasicValues(["Content-Type"]) == [Basic("Content-Type")];
  }

  /** The allowed origin is then found whatever case the name is asked in. */
  lemma CorsOriginFound(r: ResponseState, allowedMethods: seq<string>)
    ensures HasHeader(WithHeaders(r, CorsHeaders(allowedMethods)), "access-control-allow-origin")
  {
    var r' := WithHeaders(r, CorsHeaders(allowedMethods));
    assert Upper("Access-Control-Allow-Origin") == Upper("access-control-allow-origin");
    assert "Access-Control-Allow-Origin" in r'.headers;
  }

  /** The response object; `Value()` is its current state. */
  class Response {
    var status: u16
    var headers: HeaderTable
    var body: Option<seq<bv8>>

    function Value(): ResponseState
      reads this
    {
      ResponseState(status, headers, body)
    }

    constructor ()
      ensures Value() == DefaultResponse()
    {
      status := 200;
      headers := map[];
      body := None;
    }

    /** Overwrites the whole state, as a callback's returned state is written back. */
    method Set(r: ResponseState)
      modifies this
      ensures Value() == r
    {
      status := r.status;
      headers := r.headers;
      body := r.body;
    }

    method SetStatus(code: u16)
      modifies this
      ensures Value() == old(Value()).(status := code)
    {
      status := code;
    }

    method AddHeader(name: string, values: seq<HeaderValue>)
      modifies this
      ensures Value() == WithHeader(old(Value()), name, values)
    {
      headers := headers[name := values];
    }

    /** Inserts the entries one name at a time; the map's order does not matter since names differ. */
    method AddHeaders(hs: map<string, seq<string>>)
      modifies this
      ensures Value() == WithHeaders(old(Value()), hs)
    {
      var remaining := hs.Keys;
      while remaining != {}
        invariant remaining <= hs.Keys
        invariant status == old(status) && body == old(body)
        invariant headers == old(headers) + map k | k in hs.Keys - remaining :: BasicValues(hs[k])
        decreases remaining
      {
        var k :| k in remaining;
        AddHeader(k, BasicValues(hs[k]));
        remaining := remaining - {k};
      }
      assert hs.Keys - remaining == hs.Keys;
    }

    method AddCorsHeaders(allowedMethods: seq<string>)
      modifies this
      ensures Value() == WithHeaders(old(Value()), CorsHeaders(allowedMethods))
    {
      AddHeaders(CorsHeaders(allowedMethods));
    }
  }
}
