/**
 * `finalise_response` (`lib.rs`): after the traversal the engine fills in a
 * Content-Type from the negotiated media type and charset, a Vary header
 * naming the negotiated request headers, the validators of a GET or HEAD,
 * the rendered body of a plain 200 GET, and finally runs the resource's
 * finalising hook. Each step is a function on the context's state, and a
 * method applies it to the `Context` in place.
 */
module Finalisation {
  import opened Wrappers
  import opened Strings
  import opened Lists
  import opened Headers
  import opened Requests
  import opened Responses
  import opened Contexts
  import opened Resources
  import opened Decisions
  import opened Engine

  const DefaultMediaType: string := "application/json"
  const DefaultCharset: string := "ISO-8859-1"

  /** The Content-Type written when none is set: the selected media type with the selected charset. */
  function ContentTypeValue(c: ContextState): (h: HeaderValue)
    ensures h.value == (if c.selectedMediaType.Some? then c.selectedMediaType.value else DefaultMediaType)
    ensures h.params == map["charset" := if c.selectedCharset.Some? then c.selectedCharset.value else DefaultCharset]
    ensures !h.quote
  {
    var mediaType := match c.selectedMediaType case Some(m) => m case None => DefaultMediaType;
    var charset := match c.selectedCharset case Some(cs) => cs case None => DefaultCharset;
    HeaderValue(mediaType, map["charset" := charset], false)
  }

  /**
   * Afterwards the response always has a Content-Type; one already set, in
   * any case, is kept, and otherwise only that header is added.
   */
  function WithContentType(c: ContextState): (c2: ContextState)
    ensures Responses.HasHeader(c2.response, "Content-Type")
    ensures Responses.HasHeader(c.response, "Content-Type") ==> c2 == c
    ensures !Responses.HasHeader(c.response, "Content-Type") ==>
      c2 == AddHeader(c, "Content-Type", [ContentTypeValue(c)])
  {
    if Responses.HasHeader(c.response, "Content-Type") then c
    else
      var c2 := AddHeader(c, "Content-Type", [ContentTypeValue(c)]);
      assert "Content-Type" in c2.response.headers;
      c2
  }

  /**
   * The headers a response varies on: the declared variances, parsed, then
   * each negotiated header with a real choice. The names the engine writes
   * itself carry no parameters or quotes and read as plain values.
   */
  function VaryValues(c: ContextState, r: Resource, env: Env): (v: seq<HeaderValue>)
  {
    (if Responses.HasHeader(c.response, "Vary") then [] else Map(r.data.variances, env.parseHeaderValue))
    + (if |r.data.languagesProvided| > 1 then [Basic("Accept-Language")] else [])
    + (if |r.data.charsetsProvided| > 1 then [Basic("Accept-Charset")] else [])
    + (if |r.data.encodingsProvided| > 1 then [Basic("Accept-Encoding")] else [])
    + (if |r.data.produces| > 1 then [Basic("Accept")] else [])
  }

  /**
   * The Vary header is written only when there are at least two values,
   * each once at its first occurrence; a single value is dropped. Nothing
   * else changes.
   */
  function WithVary(c: ContextState, r: Resource, env: Env): (c2: ContextState)
    ensures |VaryValues(c, r, env)| <= 1 ==> c2 == c
    ensures |VaryValues(c, r, env)| > 1 ==>
      "Vary" in c2.response.headers && c2 == AddHeader(c, "Vary", c2.response.headers["Vary"])
      && c2.response.headers["Vary"] == FirstOccurrences(VaryValues(c, r, env))
      && Distinct(c2.response.headers["Vary"])
      && (forall i :: 0 <= i < |VaryValues(c, r, env)| ==> VaryValues(c, r, env)[i] in c2.response.headers["Vary"])
      && (forall i :: 0 <= i < |c2.response.headers["Vary"]| ==> c2.response.headers["Vary"][i] in VaryValues(c, r, env))
  {
    var vary := VaryValues(c, r, env);
    UniqueIsFirstOccurrences(vary);
    if |vary| > 1 then AddHeader(c, "Vary", Unique(vary)) else c
  }

  /**
   * Two declared variances, and no negotiated list offering a choice, give a
   * Vary header with the two in the order declared.
   */
  lemma VariancesInOrder(c: ContextState, r: Resource, env: Env, a: string, b: string)
    requires !Responses.HasHeader(c.response, "Vary") && r.data.variances == [a, b]
    requires env.parseHeaderValue(a) != env.parseHeaderValue(b)
    requires |r.data.languagesProvided| <= 1 && |r.data.charsetsProvided| <= 1
    requires |r.data.encodingsProvided| <= 1 && |r.data.produces| <= 1
    ensures WithVary(c, r, env).response.headers["Vary"] == [env.parseHeaderValue(a), env.parseHeaderValue(b)]
  {
    var v := [env.parseHeaderValue(a), env.parseHeaderValue(b)];
    assert Map(r.data.variances, env.parseHeaderValue) == v;
    assert VaryValues(c, r, env) == v;
    assert v[..1] == [v[0]] && [v[0]][..0] == [];
    assert FirstOccurrences([v[0]]) == [v[0]];
    assert FirstOccurrences(v) == v;
  }

  /**
   * For GET and HEAD, the ETag, Expires and Last-Modified headers from the
   * callbacks that answer one, quoted; other methods ask nothing.
   */
  function WithValidators(c: ContextState, r: Resource, env: Env): (c2: ContextState)
    ensures !IsGetOrHead(c.request) ==> c2 == c
  {
    if IsGetOrHead(c.request) then
      var (etag, c1) := r.generateEtag(c, r.data);
      var c2 := if etag.Some? then AddHeader(c1, "ETag", [Quote(Basic(etag.value))]) else c1;
      var (expires, c3) := r.expires(c2, r.data);
      var c4 := if expires.Some? then AddHeader(c3, "Expires", [Quote(Basic(env.formatDate(expires.value)))]) else c3;
      var (lastModified, c5) := r.lastModified(c4, r.data);
      if lastModified.Some? then AddHeader(c5, "Last-Modified", [Quote(Basic(env.formatDate(lastModified.value)))]) else c5
    else c
  }

  /**
   * With callbacks that only answer, the validators are exactly the answers
   * given, and the status, body and request are untouched.
   */
  lemma ValidatorsFromAnswers(c: ContextState, r: Resource, env: Env,
                              etag: Option<string>, expires: Option<int>, lastModified: Option<int>)
    requires IsGetOrHead(c.request)
    requires forall c', d :: r.generateEtag(c', d) == (etag, c')
    requires forall c', d :: r.expires(c', d) == (expires, c')
    requires forall c', d :: r.lastModified(c', d) == (lastModified, c')
    ensures var c2 := WithValidators(c, r, env);
      c2.request == c.request && c2.response.status == c.response.status && c2.response.body == c.response.body
      && (etag.Some? ==> c2.response.headers["ETag"] == [Quote(Basic(etag.value))])
      && (expires.Some? ==> c2.response.headers["Expires"] == [Quote(Basic(env.formatDate(expires.value)))])
      && (lastModified.Some? ==> c2.response.headers["Last-Modified"] == [Quote(Basic(env.formatDate(lastModified.value)))])
      && (etag.None? && expires.None? && lastModified.None? ==> c2 == c)
  {
    var (e, c1) := r.generateEtag(c, r.data);
    var c2 := if e.Some? then AddHeader(c1, "ETag", [Quote(Basic(e.value))]) else c1;
    var (x, c3) := r.expires(c2, r.data);
    var c4 := if x.Some? then AddHeader(c3, "Expires", [Quote(Basic(env.formatDate(x.value)))]) else c3;
    var (l, c5) := r.lastModified(c4, r.data);
    assert e == etag && c1 == c && x == expires && c3 == c2 && l == lastModified && c5 == c4;
  }

  /**
   * A GET answered 200 with no body yet gets the rendered body, as UTF-8;
   * any other response is left alone and nothing is rendered.
   */
  function WithBody(c: ContextState, r: Resource): (c2: ContextState)
    ensures !(c.response.body.None? && c.response.status == 200 && IsGet(c.request)) ==> c2 == c
    ensures c.response.body.None? && c.response.status == 200 && IsGet(c.request) ==>
      var (body, c1) := r.renderResponse(c, r.data);
      c2 == (if body.Some? then c1.(response := c1.response.(body := Some(Utf8(body.value)))) else c1)
  {
    if c.response.body.None? && c.response.status == 200 && IsGet(c.request) then
      var (body, c1) := r.renderResponse(c, r.data);
      if body.Some? then c1.(response := c1.response.(body := Some(Utf8(body.value)))) else c1
    else c
  }

  /** The resource's finalising hook, when it has one, has the last word. */
  function WithHook(c: ContextState, r: Resource): (c2: ContextState)
    ensures r.finaliseResponse.None? ==> c2 == c
    ensures r.finaliseResponse.Some? ==> c2 == r.finaliseResponse.value(c, r.data).1
  {
    match r.finaliseResponse
    case Some(hook) => hook(c, r.data).1
    case None => c
  }

  /** `finalise_response`: the five steps in order. */
  function Finalise(c: ContextState, r: Resource, env: Env): ContextState {
    WithHook(WithBody(WithValidators(WithVary(WithContentType(c), r, env), r, env), r), r)
  }

  /**
   * A resource with the default lists, callbacks answering no validator and
   * no body, and no hook (as `Resource::default` has): finalising only
   * supplies the Content-Type, since every list has at most one entry.
   */
  lemma FinaliseDefault(c: ContextState, r: Resource, env: Env)
    requires r.data == DefaultData() && r.finaliseResponse.None?
    requires forall c', d :: r.generateEtag(c', d) == (None, c')
    requires forall c', d :: r.expires(c', d) == (None, c')
    requires forall c', d :: r.lastModified(c', d) == (None, c')
    requires forall c', d :: r.renderResponse(c', d) == (None, c')
    ensures Finalise(c, r, env) == WithContentType(c)
  {
    var c1 := WithContentType(c);
    assert |VaryValues(c1, r, env)| == 0;
    if IsGetOrHead(c1.request) {
      ValidatorsFromAnswers(c1, r, env, None, None, None);
    }
  }

  /** When nothing is selected the Content-Type is JSON in Latin-1. */
  lemma DefaultContentType(c: ContextState)
    requires c.selectedMediaType.None? && c.selectedCharset.None?
    requires !Responses.HasHeader(c.response, "Content-Type")
    ensures WithContentType(c).response.headers["Content-Type"]
      == [HeaderValue("application/json", map["charset" := "ISO-8859-1"], false)]
  {
  }

  method ApplyContentType(ctx: Context)
    modifies ctx.response
    ensures ctx.Value() == WithContentType(old(ctx.Value()))
  {
    if !Responses.HasHeader(ctx.response.Value(), "Content-Type") {
      ctx.response.AddHeader("Content-Type", [ContentTypeValue(ctx.Value())]);
    }
  }

  method ApplyVary(ctx: Context, r: Resource, env: Env)
    modifies ctx.response
    ensures ctx.Value() == WithVary(old(ctx.Value()), r, env)
  {
    var vary := if Responses.HasHeader(ctx.response.Value(), "Vary") then [] else Map(r.data.variances, env.parseHeaderValue);
    vary := vary + (if |r.data.languagesProvided| > 1 then [Basic("Accept-Language")] else []);
    vary := vary + (if |r.data.charsetsProvided| > 1 then [Basic("Accept-Charset")] else []);
    vary := vary + (if |r.data.encodingsProvided| > 1 then [Basic("Accept-Encoding")] else []);
    vary := vary + (if |r.data.produces| > 1 then [Basic("Accept")] else []);
    assert vary == VaryValues(old(ctx.Value()), r, env);
    if |vary| > 1 {
      ctx.response.AddHeader("Vary", Unique(vary));
    }
  }

  method ApplyValidators(ctx: Context, r: Resource, env: Env)
    modifies ctx, ctx.response
    ensures ctx.Value() == WithValidators(old(ctx.Value()), r, env)
  {
    if IsGetOrHead(ctx.request) {
      var etag := Ask(ctx, r.generateEtag, r.data);
      if etag.Some? {
        ctx.response.AddHeader("ETag", [Quote(Basic(etag.value))]);
      }
      var expires := Ask(ctx, r.expires, r.data);
      if expires.Some? {
        ctx.response.AddHeader("Expires", [Quote(Basic(env.formatDate(expires.value)))]);
      }
      var lastModified := Ask(ctx, r.lastModified, r.data);
      if lastModified.Some? {
        ctx.response.AddHeader("Last-Modified", [Quote(Basic(env.formatDate(lastModified.value)))]);
      }
    }
  }

  method ApplyBody(ctx: Context, r: Resource)
    modifies ctx, ctx.response
    ensures ctx.Value() == WithBody(old(ctx.Value()), r)
  {
    if ctx.response.body.None? && ctx.response.status == 200 && IsGet(ctx.request) {
      var body := Ask(ctx, r.renderResponse, r.data);
      if body.Some? {
        ctx.response.body := Some(Utf8(body.value));
      }
    }
  }

  method ApplyHook(ctx: Context, r: Resource)
    modifies ctx, ctx.response
    ensures ctx.Value() == WithHook(old(ctx.Value()), r)
  {
    if r.finaliseResponse.Some? {
      var _ := Ask(ctx, r.finaliseResponse.value, r.data);
    }
  }

  /** `finalise_response` on the context in place. */
  method FinaliseResponse(ctx: Context, r: Resource, env: Env)
    modifies ctx, ctx.response
    ensures ctx.Value() == Finalise(old(ctx.Value()), r, env)
  {
    ApplyContentType(ctx);
    ApplyVary(ctx, r, env);
    ApplyValidators(ctx, r, env);
    ApplyBody(ctx, r);
    ApplyHook(ctx, r);
  }
}
