/**
 * What the traversal does on the paths of the webmachine v3 flowchart:
 * the order of the service gates, the outcomes of the conditional-request
 * headers (RFC 2616, sections 14.24 to 14.28, as the engine implements
 * them) and of the write path. Each lemma follows the traversal through a
 * few nodes; a callback is `Quiet` when it only answers and leaves the
 * context alone.
 */
module Flowchart {
  import opened Wrappers
  import opened Strings
  import opened Headers
  import opened Requests
  import opened Responses
  import opened Contexts
  import opened Resources
  import opened Enums
  import opened Paths
  import opened Decisions
  import opened Engine

  ghost predicate Quiet<T>(cb: Callback<T>) {
    forall c, d :: cb(c, d).1 == c
  }

  /** The traversal from `Start` goes straight to B13. */
  lemma AtStart(c: ContextState, r: Resource, env: Env)
    ensures RunFrom(Start, c, r, env) == RunFrom(B13Available, c, r, env)
  {
  }

  lemma AtB13(c: ContextState, r: Resource, env: Env)
    requires Quiet(r.available)
    ensures RunFrom(B13Available, c, r, env)
      == if r.available(c, r.data).0 then RunFrom(B12KnownMethod, c, r, env) else (End(503), c)
  {
    DecideGates(B13Available, c, r, env);
    assert DecideGate(B13Available, c, r, env) == DecideServiceChecks(B13Available, c, r, env);
  }

  lemma AtB12(c: ContextState, r: Resource, env: Env)
    ensures RunFrom(B12KnownMethod, c, r, env)
      == if ContainsIgnoreCase(r.data.knownMethods, c.request.httpMethod) then RunFrom(B11UriTooLong, c, r, env)
         else (End(501), c)
  {
    DecideGates(B12KnownMethod, c, r, env);
    assert DecideGate(B12KnownMethod, c, r, env) == DecideServiceChecks(B12KnownMethod, c, r, env);
  }

  lemma AtB11(c: ContextState, r: Resource, env: Env)
    requires Quiet(r.uriTooLong)
    ensures RunFrom(B11UriTooLong, c, r, env)
      == if r.uriTooLong(c, r.data).0 then (End(414), c) else RunFrom(B10MethodAllowed, c, r, env)
  {
    DecideGates(B11UriTooLong, c, r, env);
    assert DecideGate(B11UriTooLong, c, r, env) == DecideServiceChecks(B11UriTooLong, c, r, env);
  }

  /** A method that is not allowed ends at 405 with an Allow header listing the allowed methods. */
  lemma AtB10(c: ContextState, r: Resource, env: Env)
    ensures RunFrom(B10MethodAllowed, c, r, env)
      == if ContainsIgnoreCase(r.data.allowedMethods, c.request.httpMethod) then RunFrom(B9MalformedRequest, c, r, env)
         else (End(405), AddHeader(c, "Allow", BasicValues(r.data.allowedMethods)))
  {
    var allowed := ContainsIgnoreCase(r.data.allowedMethods, c.request.httpMethod);
    DecideGates(B10MethodAllowed, c, r, env);
    assert DecideGate(B10MethodAllowed, c, r, env) == DecideServiceChecks(B10MethodAllowed, c, r, env);
    assert Step(B10MethodAllowed, c, r, env)
      == (if allowed then B9MalformedRequest else End(405),
          if allowed then c else AddHeader(c, "Allow", BasicValues(r.data.allowedMethods)));
  }

  lemma AtB9(c: ContextState, r: Resource, env: Env)
    requires Quiet(r.malformedRequest)
    ensures RunFrom(B9MalformedRequest, c, r, env)
      == if r.malformedRequest(c, r.data).0 then (End(400), c) else RunFrom(B8Authorized, c, r, env)
  {
    DecideGates(B9MalformedRequest, c, r, env);
    assert DecideGate(B9MalformedRequest, c, r, env) == DecideRequestChecks(B9MalformedRequest, c, r, env);
  }

  /** An unauthorised request ends at 401 with the realm as the WWW-Authenticate header. */
  lemma AtB8(c: ContextState, r: Resource, env: Env)
    requires Quiet(r.notAuthorized)
    ensures RunFrom(B8Authorized, c, r, env)
      == match r.notAuthorized(c, r.data).0
         case Some(realm) => (End(401), AddHeader(c, "WWW-Authenticate", [env.parseHeaderValue(realm)]))
         case None => RunFrom(B7Forbidden, c, r, env)
  {
    DecideGates(B8Authorized, c, r, env);
    assert DecideGate(B8Authorized, c, r, env) == DecideRequestChecks(B8Authorized, c, r, env);
  }

  lemma AtB7(c: ContextState, r: Resource, env: Env)
    requires Quiet(r.forbidden)
    ensures RunFrom(B7Forbidden, c, r, env)
      == if r.forbidden(c, r.data).0 then (End(403), c) else RunFrom(B6UnsupportedContentHeader, c, r, env)
  {
    DecideGates(B7Forbidden, c, r, env);
    assert DecideGate(B7Forbidden, c, r, env) == DecideRequestChecks(B7Forbidden, c, r, env);
  }

  lemma AtB6(c: ContextState, r: Resource, env: Env)
    requires Quiet(r.unsupportedContentHeaders)
    ensures RunFrom(B6UnsupportedContentHeader, c, r, env)
      == if r.unsupportedContentHeaders(c, r.data).0 then (End(501), c) else RunFrom(B5UnknownContentType, c, r, env)
  {
    DecideGates(B6UnsupportedContentHeader, c, r, env);
    assert DecideGate(B6UnsupportedContentHeader, c, r, env) == DecideRequestChecks(B6UnsupportedContentHeader, c, r, env);
  }

  /** 415 only for a PUT or POST whose content type is not acceptable. */
  lemma AtB5(c: ContextState, r: Resource, env: Env)
    ensures RunFrom(B5UnknownContentType, c, r, env)
      == if IsPutOrPost(c.request) && !ContainsIgnoreCase(r.data.acceptableContentTypes, ContentType(c.request))
         then (End(415), c) else RunFrom(B4RequestEntityTooLarge, c, r, env)
  {
    DecideGates(B5UnknownContentType, c, r, env);
    assert DecideGate(B5UnknownContentType, c, r, env) == DecideEntityChecks(B5UnknownContentType, c, r, env);
  }

  /** 413 only for a PUT or POST; for other methods the entity length is not asked. */
  lemma AtB4(c: ContextState, r: Resource, env: Env)
    ensures !IsPutOrPost(c.request) ==> RunFrom(B4RequestEntityTooLarge, c, r, env) == RunFrom(B3Options, c, r, env)
    ensures IsPutOrPost(c.request) ==>
      var (valid, c1) := r.validEntityLength(c, r.data);
      RunFrom(B4RequestEntityTooLarge, c, r, env) == if valid then RunFrom(B3Options, c1, r, env) else (End(413), c1)
  {
    DecideGates(B4RequestEntityTooLarge, c, r, env);
    assert DecideGate(B4RequestEntityTooLarge, c, r, env) == DecideEntityChecks(B4RequestEntityTooLarge, c, r, env);
  }

  lemma AtB3(c: ContextState, r: Resource, env: Env)
    ensures RunFrom(B3Options, c, r, env)
      == if IsOptions(c.request) then (A3Options, c) else RunFrom(C3AcceptExists, c, r, env)
  {
    DecideGates(B3Options, c, r, env);
    assert DecideGate(B3Options, c, r, env) == DecideEntityChecks(B3Options, c, r, env);
    if IsOptions(c.request) {
      assert Step(B3Options, c, r, env) == (A3Options, c);
    } else {
      assert Step(B3Options, c, r, env) == (C3AcceptExists, c);
    }
  }

  /**
   * Where the service gates end, checked in the flowchart's order with the
   * first failure winning: 503, 501 (unknown method), 414, 405, 400, 401,
   * 403, 501 (content headers), 415 and 413 for a PUT or POST, then OPTIONS.
   * None when the request passes every gate.
   */
  function GateOutcome(c: ContextState, r: Resource): Option<Decision> {
    var req := c.request;
    var data := r.data;
    if !r.available(c, data).0 then Some(End(503))
    else if !ContainsIgnoreCase(data.knownMethods, req.httpMethod) then Some(End(501))
    else if r.uriTooLong(c, data).0 then Some(End(414))
    else if !ContainsIgnoreCase(data.allowedMethods, req.httpMethod) then Some(End(405))
    else if r.malformedRequest(c, data).0 then Some(End(400))
    else if r.notAuthorized(c, data).0.Some? then Some(End(401))
    else if r.forbidden(c, data).0 then Some(End(403))
    else if r.unsupportedContentHeaders(c, data).0 then Some(End(501))
    else if IsPutOrPost(req) && !ContainsIgnoreCase(data.acceptableContentTypes, ContentType(req)) then Some(End(415))
    else if IsPutOrPost(req) && !r.validEntityLength(c, data).0 then Some(End(413))
    else if IsOptions(req) then Some(A3Options)
    else None
  }

  /**
   * With callbacks that only answer, the traversal stops where the gates
   * say, and a request passing every gate reaches C3 with its context
   * untouched.
   */
  lemma GatesInOrder(c: ContextState, r: Resource, env: Env)
    requires Quiet(r.available) && Quiet(r.uriTooLong) && Quiet(r.malformedRequest) && Quiet(r.notAuthorized)
    requires Quiet(r.forbidden) && Quiet(r.unsupportedContentHeaders) && Quiet(r.validEntityLength)
    ensures GateOutcome(c, r).Some? ==> RunFrom(Start, c, r, env).0 == GateOutcome(c, r).value
    ensures GateOutcome(c, r).None? ==> RunFrom(Start, c, r, env) == RunFrom(C3AcceptExists, c, r, env)
    ensures GateOutcome(c, r) == Some(A3Options) ==> RunFrom(Start, c, r, env) == (A3Options, c)
  {
    AtStart(c, r, env);
    AtB13(c, r, env);
    if !r.available(c, r.data).0 { return; }
    AtB12(c, r, env);
    if !ContainsIgnoreCase(r.data.knownMethods, c.request.httpMethod) { return; }
    AtB11(c, r, env);
    if r.uriTooLong(c, r.data).0 { return; }
    AtB10(c, r, env);
    if !ContainsIgnoreCase(r.data.allowedMethods, c.request.httpMethod) { return; }
    AtB9(c, r, env);
    if r.malformedRequest(c, r.data).0 { return; }
    AtB8(c, r, env);
    if r.notAuthorized(c, r.data).0.Some? { return; }
    AtB7(c, r, env);
    if r.forbidden(c, r.data).0 { return; }
    AtB6(c, r, env);
    if r.unsupportedContentHeaders(c, r.data).0 { return; }
    AtB5(c, r, env);
    if IsPutOrPost(c.request) && !ContainsIgnoreCase(r.data.acceptableContentTypes, ContentType(c.request)) { return; }
    AtB4(c, r, env);
    if IsPutOrPost(c.request) && !r.validEntityLength(c, r.data).0 { return; }
    AtB3(c, r, env);
  }

  /**
   * An OPTIONS request that passes the gates ends at 204 with the headers the
   * `options` callback answers added to the context it leaves.
   */
  lemma OptionsOutcome(c: ContextState, r: Resource, env: Env)
    requires Quiet(r.available) && Quiet(r.uriTooLong) && Quiet(r.malformedRequest) && Quiet(r.notAuthorized)
    requires Quiet(r.forbidden) && Quiet(r.unsupportedContentHeaders) && Quiet(r.validEntityLength)
    requires GateOutcome(c, r) == Some(A3Options)
    ensures var (headers, c1) := r.options(c.(response := c.response.(status := 204)), r.data);
      StateMachine(c, r, env)
        == if headers.Some? then c1.(response := WithHeaders(c1.response, headers.value)) else c1
  {
    GatesInOrder(c, r, env);
  }

  /**
   * A resource answering the gates and OPTIONS as the default resource does
   * (its lists, every gate passed, the CORS headers for OPTIONS) ends an
   * OPTIONS request at 204 with the three CORS headers, the allowed methods
   * being OPTIONS, GET and HEAD.
   */
  lemma DefaultOptions(c: ContextState, r: Resource, env: Env)
    requires c.request.httpMethod == "OPTIONS" && r.data == DefaultData()
    requires forall c', d :: r.available(c', d) == (true, c') && r.validEntityLength(c', d) == (true, c')
    requires forall c', d ::
      r.uriTooLong(c', d) == (false, c') && r.malformedRequest(c', d) == (false, c')
      && r.forbidden(c', d) == (false, c') && r.unsupportedContentHeaders(c', d) == (false, c')
    requires forall c', d :: r.notAuthorized(c', d) == (None, c')
    requires forall c', d :: r.options(c', d) == (Some(CorsHeaders(d.allowedMethods)), c')
    ensures StateMachine(c, r, env).response
      == WithHeaders(c.response.(status := 204), CorsHeaders(["OPTIONS", "GET", "HEAD"]))
  {
    assert Upper("OPTIONS") == "OPTIONS";
    assert EqualsIgnoreCase(r.data.knownMethods[0], "OPTIONS");
    assert EqualsIgnoreCase(r.data.allowedMethods[0], "OPTIONS");
    assert Upper("PUT") != "OPTIONS" && Upper("POST") != "OPTIONS";
    assert GateOutcome(c, r) == Some(A3Options);
    OptionsOutcome(c, r, env);
  }

  // ---------------------------------------------------------------- conditional requests
  // What one node does: the node it moves to and the context it leaves.

  lemma StepG7(c: ContextState, r: Resource, env: Env)
    ensures var (found, c1) := r.resourceExists(c, r.data);
      Step(G7ResourceExists, c, r, env) == (if found then G8IfMatchExists else H7IfMatchStarExists, c1)
  {
    DecidePreconditions(G7ResourceExists, c, r, env);
    assert DecidePrecondition(G7ResourceExists, c, r, env) == DecideIfMatch(G7ResourceExists, c, r, env);
  }

  lemma StepG8(c: ContextState, r: Resource, env: Env)
    ensures Step(G8IfMatchExists, c, r, env)
      == (if Requests.HasHeader(c.request, "If-Match") then G9IfMatchStarExists else H10IfUnmodifiedSinceExists, c)
  {
    DecidePreconditions(G8IfMatchExists, c, r, env);
    assert DecidePrecondition(G8IfMatchExists, c, r, env) == DecideIfMatch(G8IfMatchExists, c, r, env);
  }

  lemma StepG9(c: ContextState, r: Resource, env: Env)
    ensures Step(G9IfMatchStarExists, c, r, env)
      == (if HasHeaderValue(c.request, "If-Match", "*") then H10IfUnmodifiedSinceExists else G11EtagInIfMatch, c)
  {
    DecidePreconditions(G9IfMatchStarExists, c, r, env);
    assert DecidePrecondition(G9IfMatchStarExists, c, r, env) == DecideIfMatch(G9IfMatchStarExists, c, r, env);
  }

  /** If-Match without `*`: 412 unless the resource's entity tag is listed. */
  lemma StepG11(c: ContextState, r: Resource, env: Env)
    ensures var (found, c1) := EtagInHeader(c, r, "If-Match");
      Step(G11EtagInIfMatch, c, r, env) == (if found then H10IfUnmodifiedSinceExists else End(412), c1)
  {
    DecidePreconditions(G11EtagInIfMatch, c, r, env);
    assert DecidePrecondition(G11EtagInIfMatch, c, r, env) == DecideIfMatch(G11EtagInIfMatch, c, r, env);
  }

  /** `If-Match: *` on a resource that does not exist is 412. */
  lemma StepH7(c: ContextState, r: Resource, env: Env)
    ensures Step(H7IfMatchStarExists, c, r, env)
      == (if HasHeaderValue(c.request, "If-Match", "*") then End(412) else I7Put, c)
  {
    DecidePreconditions(H7IfMatchStarExists, c, r, env);
    assert DecidePrecondition(H7IfMatchStarExists, c, r, env) == DecideIfMatch(H7IfMatchStarExists, c, r, env);
  }

  lemma StepH10(c: ContextState, r: Resource, env: Env)
    ensures Step(H10IfUnmodifiedSinceExists, c, r, env)
      == (if Requests.HasHeader(c.request, "If-Unmodified-Since") then H11IfUnmodifiedSinceValid else I12IfNoneMatchExists, c)
  {
    DecidePreconditions(H10IfUnmodifiedSinceExists, c, r, env);
    assert DecidePrecondition(H10IfUnmodifiedSinceExists, c, r, env) == DecideIfUnmodifiedSince(H10IfUnmodifiedSinceExists, c, r, env);
  }

  /** H11 records the date it parsed; a date that does not parse leaves the record as it was. */
  lemma StepH11(c: ContextState, r: Resource, env: Env)
    ensures var (valid, date) := ValidateHeaderDate(c.request, "If-Unmodified-Since", c.ifUnmodifiedSince, env);
      Step(H11IfUnmodifiedSinceValid, c, r, env)
        == (if valid then H12LastModifiedGreaterThanUMS else I12IfNoneMatchExists, c.(ifUnmodifiedSince := date))
  {
    DecidePreconditions(H11IfUnmodifiedSinceValid, c, r, env);
    assert DecidePrecondition(H11IfUnmodifiedSinceValid, c, r, env) == DecideIfUnmodifiedSince(H11IfUnmodifiedSinceValid, c, r, env);
  }

  lemma StepH12(c: ContextState, r: Resource, env: Env)
    ensures var (after, c1) := ModifiedAfter(c.ifUnmodifiedSince, c, r);
      Step(H12LastModifiedGreaterThanUMS, c, r, env) == (if after.True? then End(412) else I12IfNoneMatchExists, c1)
  {
    DecidePreconditions(H12LastModifiedGreaterThanUMS, c, r, env);
    assert DecidePrecondition(H12LastModifiedGreaterThanUMS, c, r, env) == DecideIfUnmodifiedSince(H12LastModifiedGreaterThanUMS, c, r, env);
  }

  lemma StepI12(c: ContextState, r: Resource, env: Env)
    ensures Step(I12IfNoneMatchExists, c, r, env)
      == (if Requests.HasHeader(c.request, "If-None-Match") then I13IfNoneMatchStarExists else L13IfModifiedSinceExists, c)
  {
    DecidePreconditions(I12IfNoneMatchExists, c, r, env);
    assert DecidePrecondition(I12IfNoneMatchExists, c, r, env) == DecideIfNoneMatch(I12IfNoneMatchExists, c, r, env);
  }

  lemma StepI13(c: ContextState, r: Resource, env: Env)
    ensures Step(I13IfNoneMatchStarExists, c, r, env)
      == (if HasHeaderValue(c.request, "If-None-Match", "*") then J18GetHead else K13ETagInIfNoneMatch, c)
  {
    DecidePreconditions(I13IfNoneMatchStarExists, c, r, env);
    assert DecidePrecondition(I13IfNoneMatchStarExists, c, r, env) == DecideIfNoneMatch(I13IfNoneMatchStarExists, c, r, env);
  }

  lemma StepJ18(c: ContextState, r: Resource, env: Env)
    ensures Step(J18GetHead, c, r, env) == (if IsGetOrHead(c.request) then End(304) else End(412), c)
  {
    DecidePreconditions(J18GetHead, c, r, env);
    assert DecidePrecondition(J18GetHead, c, r, env) == DecideIfNoneMatch(J18GetHead, c, r, env);
  }

  lemma StepK13(c: ContextState, r: Resource, env: Env)
    ensures var (found, c1) := EtagInHeader(c, r, "If-None-Match");
      Step(K13ETagInIfNoneMatch, c, r, env) == (if found then J18GetHead else L13IfModifiedSinceExists, c1)
  {
    DecidePreconditions(K13ETagInIfNoneMatch, c, r, env);
    assert DecidePrecondition(K13ETagInIfNoneMatch, c, r, env) == DecideIfNoneMatch(K13ETagInIfNoneMatch, c, r, env);
  }

  lemma StepL13(c: ContextState, r: Resource, env: Env)
    ensures Step(L13IfModifiedSinceExists, c, r, env)
      == (if Requests.HasHeader(c.request, "If-Modified-Since") then L14IfModifiedSinceValid else M16Delete, c)
  {
    DecidePreconditions(L13IfModifiedSinceExists, c, r, env);
    assert DecidePrecondition(L13IfModifiedSinceExists, c, r, env) == DecideIfModifiedSince(L13IfModifiedSinceExists, c, r, env);
  }

  lemma StepL14(c: ContextState, r: Resource, env: Env)
    ensures var (valid, date) := ValidateHeaderDate(c.request, "If-Modified-Since", c.ifModifiedSince, env);
      Step(L14IfModifiedSinceValid, c, r, env)
        == (if valid then L15IfModifiedSinceGreaterThanNow else M16Delete, c.(ifModifiedSince := date))
  {
    DecidePreconditions(L14IfModifiedSinceValid, c, r, env);
    assert DecidePrecondition(L14IfModifiedSinceValid, c, r, env) == DecideIfModifiedSince(L14IfModifiedSinceValid, c, r, env);
  }

  lemma StepL15(c: ContextState, r: Resource, env: Env)
    requires c.ifModifiedSince.Some?
    ensures Step(L15IfModifiedSinceGreaterThanNow, c, r, env)
      == (if c.ifModifiedSince.value > env.now then M16Delete else L17IfLastModifiedGreaterThanMS, c)
  {
    DecidePreconditions(L15IfModifiedSinceGreaterThanNow, c, r, env);
    assert DecidePrecondition(L15IfModifiedSinceGreaterThanNow, c, r, env) == DecideIfModifiedSince(L15IfModifiedSinceGreaterThanNow, c, r, env);
  }

  lemma StepL17(c: ContextState, r: Resource, env: Env)
    ensures var (after, c1) := ModifiedAfter(c.ifModifiedSince, c, r);
      Step(L17IfLastModifiedGreaterThanMS, c, r, env) == (if after.True? then M16Delete else End(304), c1)
  {
    DecidePreconditions(L17IfLastModifiedGreaterThanMS, c, r, env);
    assert DecidePrecondition(L17IfLastModifiedGreaterThanMS, c, r, env) == DecideIfModifiedSince(L17IfLastModifiedGreaterThanMS, c, r, env);
  }

  // ---------------------------------------------------------------- a resource that does not exist

  /** A PUT to a missing resource marks it new. */
  lemma StepI7(c: ContextState, r: Resource, env: Env)
    ensures Step(I7Put, c, r, env)
      == if IsPut(c.request) then (I4HasMovedPermanently, c.(newResource := true)) else (K7ResourcePreviouslyExisted, c)
  {
    DecideMissings(I7Put, c, r, env);
    assert DecideMissing(I7Put, c, r) == DecideMissingResource(I7Put, c, r);
  }

  lemma StepI4(c: ContextState, r: Resource, env: Env)
    ensures var (moved, c1) := Moved(r.movedPermanently, c, r);
      Step(I4HasMovedPermanently, c, r, env) == (if moved.True? then End(301) else P3Conflict, c1)
  {
    DecideMissings(I4HasMovedPermanently, c, r, env);
    assert DecideMissing(I4HasMovedPermanently, c, r) == DecideMoved(I4HasMovedPermanently, c, r);
  }

  lemma StepK7(c: ContextState, r: Resource, env: Env)
    ensures var (existed, c1) := r.previouslyExisted(c, r.data);
      Step(K7ResourcePreviouslyExisted, c, r, env) == (if existed then K5HasMovedPermanently else L7Post, c1)
  {
    DecideMissings(K7ResourcePreviouslyExisted, c, r, env);
    assert DecideMissing(K7ResourcePreviouslyExisted, c, r) == DecideMissingResource(K7ResourcePreviouslyExisted, c, r);
  }

  lemma StepK5(c: ContextState, r: Resource, env: Env)
    ensures var (moved, c1) := Moved(r.movedPermanently, c, r);
      Step(K5HasMovedPermanently, c, r, env) == (if moved.True? then End(301) else L5HasMovedTemporarily, c1)
  {
    DecideMissings(K5HasMovedPermanently, c, r, env);
    assert DecideMissing(K5HasMovedPermanently, c, r) == DecideMoved(K5HasMovedPermanently, c, r);
  }

  lemma StepL5(c: ContextState, r: Resource, env: Env)
    ensures var (moved, c1) := Moved(r.movedTemporarily, c, r);
      Step(L5HasMovedTemporarily, c, r, env) == (if moved.True? then End(307) else M5Post, c1)
  {
    DecideMissings(L5HasMovedTemporarily, c, r, env);
    assert DecideMissing(L5HasMovedTemporarily, c, r) == DecideMoved(L5HasMovedTemporarily, c, r);
  }

  lemma StepL7(c: ContextState, r: Resource, env: Env)
    ensures Step(L7Post, c, r, env) == (if IsPost(c.request) then M7PostToMissingResource else End(404), c)
  {
    DecideMissings(L7Post, c, r, env);
    assert DecideMissing(L7Post, c, r) == DecideMissingResource(L7Post, c, r);
  }

  lemma StepM5(c: ContextState, r: Resource, env: Env)
    ensures Step(M5Post, c, r, env) == (if IsPost(c.request) then N5PostToMissingResource else End(410), c)
  {
    DecideMissings(M5Post, c, r, env);
    assert DecideMissing(M5Post, c, r) == DecideMissingResource(M5Post, c, r);
  }

  lemma StepM7(c: ContextState, r: Resource, env: Env)
    ensures var (allowed, c1) := MissingPost(c, r);
      Step(M7PostToMissingResource, c, r, env) == (if allowed.True? then N11Redirect else End(404), c1)
  {
    DecideMissings(M7PostToMissingResource, c, r, env);
    assert DecideMissing(M7PostToMissingResource, c, r) == DecidePostToMissing(M7PostToMissingResource, c, r);
  }

  lemma StepN5(c: ContextState, r: Resource, env: Env)
    ensures var (allowed, c1) := MissingPost(c, r);
      Step(N5PostToMissingResource, c, r, env) == (if allowed.True? then N11Redirect else End(410), c1)
  {
    DecideMissings(N5PostToMissingResource, c, r, env);
    assert DecideMissing(N5PostToMissingResource, c, r) == DecidePostToMissing(N5PostToMissingResource, c, r);
  }

  lemma StepP3(c: ContextState, r: Resource, env: Env)
    ensures var (conflict, c1) := r.isConflict(c, r.data);
      Step(P3Conflict, c, r, env) == (if conflict then End(409) else P11NewResource, c1)
  {
    DecideMissings(P3Conflict, c, r, env);
    assert DecideMissing(P3Conflict, c, r) == DecidePostToMissing(P3Conflict, c, r);
  }

  // ---------------------------------------------------------------- the methods that change the resource

  lemma StepM16(c: ContextState, r: Resource, env: Env)
    ensures Step(M16Delete, c, r, env) == (if IsDelete(c.request) then M20DeleteEnacted else N16Post, c)
  {
    DecideWrites(M16Delete, c, r, env);
    assert DecideWrite(M16Delete, c, r) == DecideDelete(M16Delete, c, r);
  }

  /** A DELETE not yet enacted is 202; an error status from `delete_resource` ends the traversal there. */
  lemma StepM20(c: ContextState, r: Resource, env: Env)
    ensures var (deleted, c1) := r.deleteResource(c, r.data);
      Step(M20DeleteEnacted, c, r, env)
        == match deleted
           case Ok(done) => (if done then O20ResponseHasBody else End(202), c1)
           case Err(code) => (End(code), c1)
  {
    DecideWrites(M20DeleteEnacted, c, r, env);
    assert DecideWrite(M20DeleteEnacted, c, r) == DecideDelete(M20DeleteEnacted, c, r);
  }

  lemma StepN16(c: ContextState, r: Resource, env: Env)
    ensures Step(N16Post, c, r, env) == (if IsPost(c.request) then N11Redirect else O16Put, c)
  {
    DecideWrites(N16Post, c, r, env);
    assert DecideWrite(N16Post, c, r) == DecidePost(N16Post, c, r);
  }

  /**
   * N11: a POST that creates asks `create_path`, one that does not asks
   * `process_post`; either error status ends the traversal, and a redirect
   * is 303.
   */
  lemma StepN11(c: ContextState, r: Resource, env: Env)
    ensures var (create, c1) := r.postIsCreate(c, r.data);
      if create then
        var (created, c2) := CreatePath(c1, r);
        Step(N11Redirect, c, r, env)
          == match created
             case True => (End(303), c2)
             case False => (P11NewResource, c2)
             case StatusCode(code) => (End(code), c2)
      else
        var (processed, c2) := r.processPost(c1, r.data);
        Step(N11Redirect, c, r, env)
          == match processed
             case Ok(_) => (if c2.redirect then End(303) else P11NewResource, c2)
             case Err(code) => (End(code), c2)
  {
    DecideWrites(N11Redirect, c, r, env);
    assert DecideWrite(N11Redirect, c, r) == DecidePost(N11Redirect, c, r);
  }

  lemma StepO16(c: ContextState, r: Resource, env: Env)
    ensures Step(O16Put, c, r, env) == (if IsPut(c.request) then O14Conflict else O18MultipleRepresentations, c)
  {
    DecideWrites(O16Put, c, r, env);
    assert DecideWrite(O16Put, c, r) == DecidePut(O16Put, c, r);
  }

  lemma StepO14(c: ContextState, r: Resource, env: Env)
    ensures var (conflict, c1) := r.isConflict(c, r.data);
      Step(O14Conflict, c, r, env) == (if conflict then End(409) else P11NewResource, c1)
  {
    DecideWrites(O14Conflict, c, r, env);
    assert DecideWrite(O14Conflict, c, r) == DecidePut(O14Conflict, c, r);
  }

  /** P11 on a PUT: the PUT is processed first, its error status ending the traversal; a new resource is 201. */
  lemma StepP11Put(c: ContextState, r: Resource, env: Env)
    requires IsPut(c.request)
    ensures var (put, c1) := r.processPut(c, r.data);
      Step(P11NewResource, c, r, env)
        == match put
           case Ok(_) => (if c1.newResource then End(201) else O20ResponseHasBody, c1)
           case Err(code) => (End(code), c1)
  {
    DecideWrites(P11NewResource, c, r, env);
    assert DecideWrite(P11NewResource, c, r) == DecidePut(P11NewResource, c, r);
  }

  /** P11 on any other method: a new resource is 201. */
  lemma StepP11Other(c: ContextState, r: Resource, env: Env)
    requires !IsPut(c.request)
    ensures Step(P11NewResource, c, r, env) == (if c.newResource then End(201) else O20ResponseHasBody, c)
  {
    DecideWrites(P11NewResource, c, r, env);
    assert DecidePut(P11NewResource, c, r) == (Wrap(c.newResource), c);
    assert DecideWrite(P11NewResource, c, r) == (Wrap(c.newResource), c);
  }

  lemma StepO20(c: ContextState, r: Resource, env: Env)
    ensures Step(O20ResponseHasBody, c, r, env) == (if HasBody(c.response) then O18MultipleRepresentations else End(204), c)
  {
    DecideWrites(O20ResponseHasBody, c, r, env);
    assert DecideWrite(O20ResponseHasBody, c, r) == DecideRepresentation(O20ResponseHasBody, c, r);
  }

  lemma StepO18(c: ContextState, r: Resource, env: Env)
    ensures var (multiple, c1) := r.multipleChoices(c, r.data);
      Step(O18MultipleRepresentations, c, r, env) == (if multiple then End(300) else End(200), c1)
  {
    DecideWrites(O18MultipleRepresentations, c, r, env);
    assert DecideWrite(O18MultipleRepresentations, c, r) == DecideRepresentation(O18MultipleRepresentations, c, r);
  }

  // ---------------------------------------------------------------- outcomes of the conditional requests

  /** `If-Match: *` on a resource that does not exist is 412, whatever else the request says. */
  lemma IfMatchStarOnMissingResource(c: ContextState, r: Resource, env: Env)
    requires !r.resourceExists(c, r.data).0
    requires HasHeaderValue(r.resourceExists(c, r.data).1.request, "If-Match", "*")
    ensures RunFrom(G7ResourceExists, c, r, env) == (End(412), r.resourceExists(c, r.data).1)
  {
    StepG7(c, r, env);
    StepH7(r.resourceExists(c, r.data).1, r, env);
  }

  /**
   * If-Match without `*` on a resource that exists: 412 when the resource
   * gives no entity tag or one the header does not list; otherwise the
   * traversal goes on to If-Unmodified-Since.
   */
  lemma IfMatchEntityTag(c: ContextState, r: Resource, env: Env)
    requires r.resourceExists(c, r.data).0
    requires Requests.HasHeader(r.resourceExists(c, r.data).1.request, "If-Match")
    requires !HasHeaderValue(r.resourceExists(c, r.data).1.request, "If-Match", "*")
    ensures var (found, c2) := EtagInHeader(r.resourceExists(c, r.data).1, r, "If-Match");
      RunFrom(G7ResourceExists, c, r, env)
        == if found then RunFrom(H10IfUnmodifiedSinceExists, c2, r, env) else (End(412), c2)
  {
    var c1 := r.resourceExists(c, r.data).1;
    StepG7(c, r, env);
    StepG8(c1, r, env);
    assert RunFrom(G7ResourceExists, c, r, env) == RunFrom(G9IfMatchStarExists, c1, r, env);
    StepG9(c1, r, env);
    assert RunFrom(G9IfMatchStarExists, c1, r, env) == RunFrom(G11EtagInIfMatch, c1, r, env);
    EntityTagMatched(c1, r, env);
  }

  /** G11: the resource's entity tag among those listed in If-Match. */
  lemma EntityTagMatched(c: ContextState, r: Resource, env: Env)
    ensures var (found, c1) := EtagInHeader(c, r, "If-Match");
      RunFrom(G11EtagInIfMatch, c, r, env)
        == if found then RunFrom(H10IfUnmodifiedSinceExists, c1, r, env) else (End(412), c1)
  {
    StepG11(c, r, env);
  }

  /** If-None-Match holding `*` is 304 for GET and HEAD and 412 for any other method. */
  lemma IfNoneMatchStar(c: ContextState, r: Resource, env: Env)
    requires HasHeaderValue(c.request, "If-None-Match", "*")
    ensures RunFrom(I12IfNoneMatchExists, c, r, env) == (End(if IsGetOrHead(c.request) then 304 else 412), c)
  {
    HeaderLookups(c.request, "If-None-Match", "*");
    StepI12(c, r, env);
    assert RunFrom(I12IfNoneMatchExists, c, r, env) == RunFrom(I13IfNoneMatchStarExists, c, r, env);
    StepI13(c, r, env);
    assert RunFrom(I13IfNoneMatchStarExists, c, r, env) == RunFrom(J18GetHead, c, r, env);
    StepJ18(c, r, env);
  }

  /**
   * If-None-Match without `*`: a list holding the resource's entity tag is
   * 304 for GET and HEAD and 412 for any other method; otherwise
   * If-Modified-Since is next.
   */
  lemma IfNoneMatchListed(c: ContextState, r: Resource, env: Env)
    requires Requests.HasHeader(c.request, "If-None-Match")
    requires !HasHeaderValue(c.request, "If-None-Match", "*")
    ensures var (found, c1) := EtagInHeader(c, r, "If-None-Match");
      RunFrom(I12IfNoneMatchExists, c, r, env)
        == if found then (End(if IsGetOrHead(c1.request) then 304 else 412), c1)
           else RunFrom(L13IfModifiedSinceExists, c1, r, env)
  {
    StepI12(c, r, env);
    assert RunFrom(I12IfNoneMatchExists, c, r, env) == RunFrom(I13IfNoneMatchStarExists, c, r, env);
    StepI13(c, r, env);
    assert RunFrom(I13IfNoneMatchStarExists, c, r, env) == RunFrom(K13ETagInIfNoneMatch, c, r, env);
    EntityTagNotNoneMatched(c, r, env);
  }

  /** K13: the resource's entity tag among those listed in If-None-Match. */
  lemma EntityTagNotNoneMatched(c: ContextState, r: Resource, env: Env)
    ensures var (found, c1) := EtagInHeader(c, r, "If-None-Match");
      RunFrom(K13ETagInIfNoneMatch, c, r, env)
        == if found then (End(if IsGetOrHead(c1.request) then 304 else 412), c1)
           else RunFrom(L13IfModifiedSinceExists, c1, r, env)
  {
    var (found, c1) := EtagInHeader(c, r, "If-None-Match");
    StepK13(c, r, env);
    if found {
      assert RunFrom(K13ETagInIfNoneMatch, c, r, env) == RunFrom(J18GetHead, c1, r, env);
      StepJ18(c1, r, env);
    } else {
      assert RunFrom(K13ETagInIfNoneMatch, c, r, env) == RunFrom(L13IfModifiedSinceExists, c1, r, env);
    }
  }

  /** A date header that is missing its value or does not parse is skipped, and the recorded date stays. */
  lemma UnparsableDatesSkipped(c: ContextState, r: Resource, env: Env)
    ensures var values := FindHeader(c.request, "If-Unmodified-Since");
      values == [] || env.parseDate(values[0].value).None? ==>
        RunFrom(H11IfUnmodifiedSinceValid, c, r, env) == RunFrom(I12IfNoneMatchExists, c, r, env)
    ensures var values := FindHeader(c.request, "If-Modified-Since");
      values == [] || env.parseDate(values[0].value).None? ==>
        RunFrom(L14IfModifiedSinceValid, c, r, env) == RunFrom(M16Delete, c, r, env)
  {
    StepH11(c, r, env);
    StepL14(c, r, env);
  }

  /** A valid If-Unmodified-Since: 412 when the resource was modified after it, else If-None-Match is next. */
  lemma IfUnmodifiedSinceOutcome(c: ContextState, r: Resource, env: Env, since: int)
    requires FindHeader(c.request, "If-Unmodified-Since") != []
    requires env.parseDate(FindHeader(c.request, "If-Unmodified-Since")[0].value) == Some(since)
    ensures var (modified, c2) := r.lastModified(c.(ifUnmodifiedSince := Some(since)), r.data);
      RunFrom(H10IfUnmodifiedSinceExists, c, r, env)
        == if modified.Some? && modified.value > since then (End(412), c2)
           else RunFrom(I12IfNoneMatchExists, c2, r, env)
  {
    var c1 := c.(ifUnmodifiedSince := Some(since));
    StepH10(c, r, env);
    StepH11(c, r, env);
    StepH12(c1, r, env);
  }

  /** A valid If-Modified-Since date is recorded and compared with `now` at L15. */
  lemma IfModifiedSinceValidated(c: ContextState, r: Resource, env: Env, since: int)
    requires FindHeader(c.request, "If-Modified-Since") != []
    requires env.parseDate(FindHeader(c.request, "If-Modified-Since")[0].value) == Some(since)
    ensures RunFrom(L13IfModifiedSinceExists, c, r, env)
      == RunFrom(L15IfModifiedSinceGreaterThanNow, c.(ifModifiedSince := Some(since)), r, env)
  {
    StepL13(c, r, env);
    StepL14(c, r, env);
    assert RunFrom(L13IfModifiedSinceExists, c, r, env) == RunFrom(L14IfModifiedSinceValid, c, r, env);
  }

  /** A valid If-Modified-Since after `now` is ignored: the date is recorded and DELETE is next. */
  lemma IfModifiedSinceFuture(c: ContextState, r: Resource, env: Env, since: int)
    requires FindHeader(c.request, "If-Modified-Since") != []
    requires env.parseDate(FindHeader(c.request, "If-Modified-Since")[0].value) == Some(since)
    requires since > env.now
    ensures RunFrom(L13IfModifiedSinceExists, c, r, env) == RunFrom(M16Delete, c.(ifModifiedSince := Some(since)), r, env)
  {
    IfModifiedSinceValidated(c, r, env, since);
    StepL15(c.(ifModifiedSince := Some(since)), r, env);
  }

  /**
   * A valid If-Modified-Since not after `now` is 304 unless the resource
   * was modified after it, and 304 too when the resource gives no
   * modification date.
   */
  lemma IfModifiedSinceOutcome(c: ContextState, r: Resource, env: Env, since: int)
    requires FindHeader(c.request, "If-Modified-Since") != []
    requires env.parseDate(FindHeader(c.request, "If-Modified-Since")[0].value) == Some(since)
    requires since <= env.now
    ensures var (modified, c2) := r.lastModified(c.(ifModifiedSince := Some(since)), r.data);
      RunFrom(L13IfModifiedSinceExists, c, r, env)
        == if modified.Some? && modified.value > since then RunFrom(M16Delete, c2, r, env) else (End(304), c2)
  {
    var c1 := c.(ifModifiedSince := Some(since));
    IfModifiedSinceValidated(c, r, env, since);
    StepL15(c1, r, env);
    StepL17(c1, r, env);
    assert RunFrom(L15IfModifiedSinceGreaterThanNow, c1, r, env) == RunFrom(L17IfLastModifiedGreaterThanMS, c1, r, env);
  }

  // ---------------------------------------------------------------- outcomes of the write path

  /** A missing resource that never existed is 404 for any method but PUT and POST. */
  lemma MissingResourceNotFound(c: ContextState, r: Resource, env: Env)
    requires !IsPut(c.request)
    ensures var (existed, c1) := r.previouslyExisted(c, r.data);
      !existed ==>
        RunFrom(I7Put, c, r, env)
          == if IsPost(c1.request) then RunFrom(M7PostToMissingResource, c1, r, env) else (End(404), c1)
  {
    var c1 := r.previouslyExisted(c, r.data).1;
    StepI7(c, r, env);
    StepK7(c, r, env);
    StepL7(c1, r, env);
  }

  /** DELETE: 202 when not yet enacted, the callback's status on an error, the body check otherwise. */
  lemma DeleteOutcome(c: ContextState, r: Resource, env: Env)
    ensures var (deleted, c1) := r.deleteResource(c, r.data);
      RunFrom(M20DeleteEnacted, c, r, env)
        == match deleted
           case Ok(done) => if done then RunFrom(O20ResponseHasBody, c1, r, env) else (End(202), c1)
           case Err(code) => (End(code), c1)
  {
    StepM20(c, r, env);
  }

  /**
   * POST that creates: `create_path` names the new resource, the request
   * path becomes it and Location is it under the base path; 303 when the
   * context asks for a redirect. An error status from `create_path` ends
   * the traversal there.
   */
  lemma PostCreateOutcome(c: ContextState, r: Resource, env: Env)
    requires r.postIsCreate(c, r.data).0
    ensures var c1 := r.postIsCreate(c, r.data).1;
      var (created, c2) := r.createPath(c1, r.data);
      match created
      case Ok(path) =>
        var c3 := CreatePath(c1, r).1;
        c3.request.requestPath == path
        && "Location" in c3.response.headers
        && c3.response.headers["Location"] == [Basic(JoinPaths(SanitisePath(c2.request.basePath), SanitisePath(path)))]
        && RunFrom(N11Redirect, c, r, env)
          == if c2.redirect then (End(303), c3) else RunFrom(P11NewResource, c3, r, env)
      case Err(code) => RunFrom(N11Redirect, c, r, env) == (End(code), c2)
  {
    StepN11(c, r, env);
  }

  /** POST that does not create: `process_post` runs; its error status ends the traversal, a redirect is 303. */
  lemma PostProcessOutcome(c: ContextState, r: Resource, env: Env)
    requires !r.postIsCreate(c, r.data).0
    ensures var (processed, c2) := r.processPost(r.postIsCreate(c, r.data).1, r.data);
      RunFrom(N11Redirect, c, r, env)
        == match processed
           case Ok(_) => if c2.redirect then (End(303), c2) else RunFrom(P11NewResource, c2, r, env)
           case Err(code) => (End(code), c2)
  {
    StepN11(c, r, env);
  }

  /**
   * PUT on a resource that exists: a conflict is 409 before `process_put`
   * is asked; then the callback's error status ends the traversal, and a
   * new resource is 201.
   */
  lemma PutOutcome(c: ContextState, r: Resource, env: Env)
    requires IsPut(c.request)
    ensures var (conflict, c1) := r.isConflict(c, r.data);
      conflict ==> RunFrom(O16Put, c, r, env) == (End(409), c1)
    ensures var (conflict, c1) := r.isConflict(c, r.data);
      !conflict && IsPut(c1.request) ==>
        var (put, c2) := r.processPut(c1, r.data);
        RunFrom(O16Put, c, r, env)
          == match put
             case Ok(_) => if c2.newResource then (End(201), c2) else RunFrom(O20ResponseHasBody, c2, r, env)
             case Err(code) => (End(code), c2)
  {
    var c1 := r.isConflict(c, r.data).1;
    StepO16(c, r, env);
    assert RunFrom(O16Put, c, r, env) == RunFrom(O14Conflict, c, r, env);
    StepO14(c, r, env);
    if IsPut(c1.request) && !r.isConflict(c, r.data).0 {
      assert RunFrom(O14Conflict, c, r, env) == RunFrom(P11NewResource, c1, r, env);
      StepP11Put(c1, r, env);
    }
  }

  /** The final choice: no body is 204; with a body, 300 for multiple representations and 200 otherwise. */
  lemma RepresentationOutcome(c: ContextState, r: Resource, env: Env)
    ensures !HasBody(c.response) ==> RunFrom(O20ResponseHasBody, c, r, env) == (End(204), c)
    ensures var (multiple, c1) := r.multipleChoices(c, r.data);
      HasBody(c.response) ==>
        RunFrom(O20ResponseHasBody, c, r, env) == (End(if multiple then 300 else 200), c1)
  {
    StepO20(c, r, env);
    StepO18(c, r, env);
  }
}
