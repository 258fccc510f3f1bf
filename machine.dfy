/**
 * The engine (`execute_decision` and `execute_state_machine` in `lib.rs`):
 * the traversal of the decision graph from `Start`, first as functions on
 * the context's state (`Step`, `RunFrom`, `StateMachine`), then as the
 * methods that update a `Context` in place and are proved to agree with
 * them.
 */
module Engine {
  import opened Wrappers
  import opened Strings
  import opened Headers
  import opened Requests
  import opened Responses
  import opened Contexts
  import opened Resources
  import opened Enums
  import opened ContentNegotiation
  import opened Paths
  import opened Decisions

  /** The node an edge leads to, given the answer of the node it leaves. */
  function Follow(t: Transition, answer: DecisionResult): (next: Decision)
    ensures t.To? ==> next == t.next
    ensures t.Branch? && answer.True? ==> next == t.onTrue
    ensures t.Branch? && answer.False? ==> next == t.onFalse
    ensures t.Branch? && answer.StatusCode? ==> next == End(answer.code)
  {
    match t
    case To(n) => n
    case Branch(onTrue, onFalse) =>
      match answer
      case True => onTrue
      case False => onFalse
      case StatusCode(code) => End(code)
  }

  /** Every edge out of a non-terminal node, whatever the answer, goes down in rank. */
  lemma FollowDescends(d: Decision, answer: DecisionResult)
    requires !d.IsTerminal()
    ensures TransitionMap(d).Some?
    ensures Rank(Follow(TransitionMap(d).value, answer)) < Rank(d)
  {
    TransitionsDescend(d);
    RankZeroIsTerminal(d);
  }

  /** L15 is only reached from L14 on a true answer, which recorded the date L15 compares. */
  lemma FollowKeepsCanDecide(d: Decision, answer: DecisionResult, c: ContextState)
    requires !d.IsTerminal()
    requires d == L14IfModifiedSinceValid && answer.True? ==> c.ifModifiedSince.Some?
    ensures CanDecide(Follow(TransitionMap(d).value, answer), c)
  {
    TransitionsDescend(d);
  }

  /**
   * One transition from a non-terminal node: an unconditional edge is
   * followed without asking; a branch asks the node's question and follows
   * the answer, a status code ending the traversal at `End(code)`. Every
   * non-terminal node has an entry in the map, so the source's fallback to
   * `End(500)` for a missing entry is never taken.
   */
  function Step(d: Decision, c: ContextState, r: Resource, env: Env): (next: (Decision, ContextState))
    requires CanDecide(d, c)
    requires !d.IsTerminal()
    ensures Rank(next.0) < Rank(d)
    ensures CanDecide(next.0, next.1)
  {
    var t := TransitionMap(d).value;
    var (answer, c1) := if t.To? then (True, c) else Decide(d, c, r, env);
    FollowDescends(d, answer);
    FollowKeepsCanDecide(d, answer, c1);
    (Follow(t, answer), c1)
  }

  /** The traversal from `d` until a terminal node, and the context it leaves. */
  function RunFrom(d: Decision, c: ContextState, r: Resource, env: Env): (final: (Decision, ContextState))
    requires CanDecide(d, c)
    ensures final.0.IsTerminal()
    decreases Rank(d)
  {
    if d.IsTerminal() then (d, c)
    else
      var (next, c1) := Step(d, c, r, env);
      RunFrom(next, c1, r, env)
  }

  /** How many transitions the traversal from `d` takes. */
  function Transitions(d: Decision, c: ContextState, r: Resource, env: Env): nat
    requires CanDecide(d, c)
    decreases Rank(d)
  {
    if d.IsTerminal() then 0
    else
      var (next, c1) := Step(d, c, r, env);
      1 + Transitions(next, c1, r, env)
  }

  /**
   * No traversal is longer than the longest path of the graph, so the
   * engine's limit of `MaxStateMachineTransitions` is never reached.
   */
  lemma {:induction false} TransitionsBounded(d: Decision, c: ContextState, r: Resource, env: Env)
    requires CanDecide(d, c)
    ensures Transitions(d, c, r, env) <= Rank(d)
    decreases Rank(d)
  {
    if !d.IsTerminal() {
      var (next, c1) := Step(d, c, r, env);
      TransitionsBounded(next, c1, r, env);
    }
  }

  /** From `Start`, whatever the request and the resource answer, the traversal ends within the limit. */
  lemma NeverExceedsLimit(c: ContextState, r: Resource, env: Env)
    ensures Transitions(Start, c, r, env) < MaxStateMachineTransitions
  {
    TransitionsBounded(Start, c, r, env);
  }

  /**
   * What the final node does to the context: `End(code)` sets the status;
   * `A3Options` sets 204 and adds the headers the `options` callback answers.
   */
  function Conclude(d: Decision, c: ContextState, r: Resource): (c2: ContextState)
    ensures d.End? ==> c2 == c.(response := c.response.(status := d.code))
    ensures d == A3Options && r.options(c.(response := c.response.(status := 204)), r.data).0.None? ==>
      c2 == r.options(c.(response := c.response.(status := 204)), r.data).1
    ensures d == A3Options && r.options(c.(response := c.response.(status := 204)), r.data).0.Some? ==>
      var (headers, c1) := r.options(c.(response := c.response.(status := 204)), r.data);
      c2 == c1.(response := WithHeaders(c1.response, headers.value))
    ensures !d.End? && d != A3Options ==> c2 == c
  {
    if d.End? then c.(response := c.response.(status := d.code))
    else if d == A3Options then
      var (headers, c1) := r.options(c.(response := c.response.(status := 204)), r.data);
      (match headers
       case Some(hs) => c1.(response := WithHeaders(c1.response, hs))
       case None => c1)
    else c
  }

  /** `execute_state_machine`: the traversal from `Start` and its conclusion. */
  function StateMachine(c: ContextState, r: Resource, env: Env): ContextState {
    var (final, c1) := RunFrom(Start, c, r, env);
    Conclude(final, c1, r)
  }

  /** Runs a callback on the context in place and answers what it answered. */
  method Ask<T>(ctx: Context, cb: Callback<T>, data: ResourceData) returns (v: T)
    modifies ctx, ctx.response
    ensures (v, ctx.Value()) == cb(old(ctx.Value()), data)
  {
    var (answer, s) := cb(ctx.Value(), data);
    ctx.Restore(s);
    v := answer;
  }

  /** Availability, known method, URI length and allowed method (B13 to B10). */
  method ExecuteServiceChecks(d: Decision, ctx: Context, r: Resource, env: Env) returns (result: DecisionResult)
    modifies ctx, ctx.response
    ensures (result, ctx.Value()) == DecideServiceChecks(d, old(ctx.Value()), r, env)
  {
    if d == B13Available {
      var v := Ask(ctx, r.available, r.data);
      result := Wrap(v);
    } else if d == B12KnownMethod {
      result := Wrap(ContainsIgnoreCase(r.data.knownMethods, ctx.request.httpMethod));
    } else if d == B11UriTooLong {
      var v := Ask(ctx, r.uriTooLong, r.data);
      result := Wrap(v);
    } else if d == B10MethodAllowed {
      if ContainsIgnoreCase(r.data.allowedMethods, ctx.request.httpMethod) {
        result := True;
      } else {
        ctx.response.AddHeader("Allow", BasicValues(r.data.allowedMethods));
        result := False;
      }
    } else {
      result := False;
    }
  }

  /** Malformed request, authorisation, permission and content headers (B9 to B6). */
  method ExecuteRequestChecks(d: Decision, ctx: Context, r: Resource, env: Env) returns (result: DecisionResult)
    modifies ctx, ctx.response
    ensures (result, ctx.Value()) == DecideRequestChecks(d, old(ctx.Value()), r, env)
  {
    if d == B9MalformedRequest {
      var v := Ask(ctx, r.malformedRequest, r.data);
      result := Wrap(v);
    } else if d == B8Authorized {
      var realm := Ask(ctx, r.notAuthorized, r.data);
      match realm {
      case Some(text) =>
        ctx.response.AddHeader("WWW-Authenticate", [env.parseHeaderValue(text)]);
        result := False;
      case None =>
        result := True;
      }
    } else if d == B7Forbidden {
      var v := Ask(ctx, r.forbidden, r.data);
      result := Wrap(v);
    } else if d == B6UnsupportedContentHeader {
      var v := Ask(ctx, r.unsupportedContentHeaders, r.data);
      result := Wrap(v);
    } else {
      result := False;
    }
  }

  /** Content type, entity length and OPTIONS (B5 to B3). */
  method ExecuteEntityChecks(d: Decision, ctx: Context, r: Resource, env: Env) returns (result: DecisionResult)
    modifies ctx, ctx.response
    ensures (result, ctx.Value()) == DecideEntityChecks(d, old(ctx.Value()), r, env)
  {
    if d == B5UnknownContentType {
      result := Wrap(IsPutOrPost(ctx.request)
        && !ContainsIgnoreCase(r.data.acceptableContentTypes, ContentType(ctx.request)));
    } else if d == B4RequestEntityTooLarge {
      if IsPutOrPost(ctx.request) {
        var valid := Ask(ctx, r.validEntityLength, r.data);
        result := Wrap(!valid);
      } else {
        result := Wrap(false);
      }
    } else if d == B3Options {
      result := Wrap(IsOptions(ctx.request));
    } else {
      result := False;
    }
  }

  /** The service-level gates, in place. */
  method ExecuteGate(d: Decision, ctx: Context, r: Resource, env: Env) returns (result: DecisionResult)
    modifies ctx, ctx.response
    ensures (result, ctx.Value()) == DecideGate(d, old(ctx.Value()), r, env)
  {
    if d == B13Available || d == B12KnownMethod || d == B11UriTooLong || d == B10MethodAllowed {
      result := ExecuteServiceChecks(d, ctx, r, env);
    } else if d == B9MalformedRequest || d == B8Authorized || d == B7Forbidden || d == B6UnsupportedContentHeader {
      result := ExecuteRequestChecks(d, ctx, r, env);
    } else if d == B5UnknownContentType || d == B4RequestEntityTooLarge || d == B3Options {
      result := ExecuteEntityChecks(d, ctx, r, env);
    } else {
      result := False;
    }
  }

  /** Media type and language negotiation (C3 to D5). */
  method ExecuteMediaTypeAndLanguage(d: Decision, ctx: Context, r: Resource, env: Env) returns (result: DecisionResult)
    modifies ctx, ctx.response
    ensures (result, ctx.Value()) == DecideMediaTypeAndLanguage(d, old(ctx.Value()), r, env)
  {
    if d == C3AcceptExists {
      result := Wrap(HasAcceptHeader(ctx.request));
    } else if d == C4AcceptableMediaTypeAvailable {
      match MatchingContentType(r.data.produces, ctx.request) {
      case Some(mediaType) =>
        ctx.selectedMediaType := Some(mediaType);
        result := True;
      case None =>
        result := False;
      }
    } else if d == D4AcceptLanguageExists {
      result := Wrap(HasAcceptLanguageHeader(ctx.request));
    } else if d == D5AcceptableLanguageAvailable {
      match MatchingLanguage(r.data.languagesProvided, ctx.request) {
      case Some(language) =>
        if language != "*" {
          ctx.selectedLanguage := Some(language);
          ctx.response.AddHeader("Content-Language", [env.parseHeaderValue(language)]);
        }
        result := True;
      case None =>
        result := False;
      }
    } else {
      result := False;
    }
  }

  /** Charset and encoding negotiation (E5 to F7). */
  method ExecuteCharsetAndEncoding(d: Decision, ctx: Context, r: Resource, env: Env) returns (result: DecisionResult)
    modifies ctx, ctx.response
    ensures (result, ctx.Value()) == DecideCharsetAndEncoding(d, old(ctx.Value()), r, env)
  {
    if d == E5AcceptCharsetExists {
      result := Wrap(HasAcceptCharsetHeader(ctx.request));
    } else if d == E6AcceptableCharsetAvailable {
      match MatchingCharset(r.data.charsetsProvided, ctx.request) {
      case Some(charset) =>
        if charset != "*" {
          ctx.selectedCharset := Some(charset);
        }
        result := True;
      case None =>
        result := False;
      }
    } else if d == F6AcceptEncodingExists {
      result := Wrap(HasAcceptEncodingHeader(ctx.request));
    } else if d == F7AcceptableEncodingAvailable {
      match MatchingEncoding(r.data.encodingsProvided, ctx.request) {
      case Some(encoding) =>
        ctx.selectedEncoding := Some(encoding);
        if encoding != "identity" {
          ctx.response.AddHeader("Content-Encoding", [env.parseHeaderValue(encoding)]);
        }
        result := True;
      case None =>
        result := False;
      }
    } else {
      result := False;
    }
  }

  /** Content negotiation, in place. */
  method ExecuteNegotiation(d: Decision, ctx: Context, r: Resource, env: Env) returns (result: DecisionResult)
    modifies ctx, ctx.response
    ensures (result, ctx.Value()) == DecideNegotiation(d, old(ctx.Value()), r, env)
  {
    if d == C3AcceptExists || d == C4AcceptableMediaTypeAvailable || d == D4AcceptLanguageExists || d == D5AcceptableLanguageAvailable {
      result := ExecuteMediaTypeAndLanguage(d, ctx, r, env);
    } else if d == E5AcceptCharsetExists || d == E6AcceptableCharsetAvailable || d == F6AcceptEncodingExists || d == F7AcceptableEncodingAvailable {
      result := ExecuteCharsetAndEncoding(d, ctx, r, env);
    } else {
      result := False;
    }
  }

  /** `resource_etag_matches_header_values`, in place. */
  method EtagMatchesHeader(ctx: Context, r: Resource, header: string) returns (found: bool)
    modifies ctx, ctx.response
    ensures (found, ctx.Value()) == EtagInHeader(old(ctx.Value()), r, header)
  {
    var values := FindHeader(ctx.request, header);
    var etag := Ask(ctx, r.generateEtag, r.data);
    match etag
    case Some(e) =>
      found := false;
      var i := 0;
      while i < |values|
        invariant 0 <= i <= |values|
        invariant found <==> exists k :: 0 <= k < i && EtagMatches(values[k], e)
      {
        if EtagMatches(values[i], e) {
          found := true;
        }
        i := i + 1;
      }
    case None =>
      found := false;
  }

  /** `validate_header_date` writing into the recorded date. */
  method ValidateDate(ctx: Context, header: string, modifiedSince: bool, env: Env) returns (valid: bool)
    modifies ctx
    ensures var (v, date) := ValidateHeaderDate(old(ctx.request), header,
      if modifiedSince then old(ctx.ifModifiedSince) else old(ctx.ifUnmodifiedSince), env);
      valid == v
      && (if modifiedSince then ctx.Value() == old(ctx.Value()).(ifModifiedSince := date)
          else ctx.Value() == old(ctx.Value()).(ifUnmodifiedSince := date))
  {
    var values := FindHeader(ctx.request, header);
    valid := false;
    if values != [] {
      match env.parseDate(values[0].value) {
      case Some(t) =>
        if modifiedSince {
          ctx.ifModifiedSince := Some(t);
        } else {
          ctx.ifUnmodifiedSince := Some(t);
        }
        valid := true;
      case None =>
      }
    }
  }

  /** H12 and L17: the resource's last-modified date against a recorded date. */
  method CompareLastModified(ctx: Context, r: Resource, since: Option<int>)
    returns (result: DecisionResult)
    modifies ctx, ctx.response
    ensures (result, ctx.Value()) == ModifiedAfter(since, old(ctx.Value()), r)
  {
    match since
    case Some(date) =>
      var modified := Ask(ctx, r.lastModified, r.data);
      match modified {
      case Some(t) =>
        result := Wrap(t > date);
      case None =>
        result := False;
      }
    case None =>
      result := False;
  }

  /** Existence and If-Match (G7 to H7). */
  method ExecuteIfMatch(d: Decision, ctx: Context, r: Resource, env: Env) returns (result: DecisionResult)
    modifies ctx, ctx.response
    ensures (result, ctx.Value()) == DecideIfMatch(d, old(ctx.Value()), r, env)
  {
    if d == G7ResourceExists {
      var v := Ask(ctx, r.resourceExists, r.data);
      result := Wrap(v);
    } else if d == G8IfMatchExists {
      result := Wrap(Requests.HasHeader(ctx.request, "If-Match"));
    } else if d == G9IfMatchStarExists {
      result := Wrap(HasHeaderValue(ctx.request, "If-Match", "*"));
    } else if d == H7IfMatchStarExists {
      result := Wrap(HasHeaderValue(ctx.request, "If-Match", "*"));
    } else if d == G11EtagInIfMatch {
      var found := EtagMatchesHeader(ctx, r, "If-Match");
      result := Wrap(found);
    } else {
      result := False;
    }
  }

  /** If-Unmodified-Since (H10 to H12). */
  method ExecuteIfUnmodifiedSince(d: Decision, ctx: Context, r: Resource, env: Env) returns (result: DecisionResult)
    modifies ctx, ctx.response
    ensures (result, ctx.Value()) == DecideIfUnmodifiedSince(d, old(ctx.Value()), r, env)
  {
    if d == H10IfUnmodifiedSinceExists {
      result := Wrap(Requests.HasHeader(ctx.request, "If-Unmodified-Since"));
    } else if d == H11IfUnmodifiedSinceValid {
      var valid := ValidateDate(ctx, "If-Unmodified-Since", false, env);
      result := Wrap(valid);
    } else if d == H12LastModifiedGreaterThanUMS {
      result := CompareLastModified(ctx, r, ctx.ifUnmodifiedSince);
    } else {
      result := False;
    }
  }

  /** If-None-Match (I12 to K13). */
  method ExecuteIfNoneMatch(d: Decision, ctx: Context, r: Resource, env: Env) returns (result: DecisionResult)
    modifies ctx, ctx.response
    ensures (result, ctx.Value()) == DecideIfNoneMatch(d, old(ctx.Value()), r, env)
  {
    if d == I12IfNoneMatchExists {
      result := Wrap(Requests.HasHeader(ctx.request, "If-None-Match"));
    } else if d == I13IfNoneMatchStarExists {
      result := Wrap(HasHeaderValue(ctx.request, "If-None-Match", "*"));
    } else if d == J18GetHead {
      result := Wrap(IsGetOrHead(ctx.request));
    } else if d == K13ETagInIfNoneMatch {
      var found := EtagMatchesHeader(ctx, r, "If-None-Match");
      result := Wrap(found);
    } else {
      result := False;
    }
  }

  /** If-Modified-Since (L13 to L17). */
  method ExecuteIfModifiedSince(d: Decision, ctx: Context, r: Resource, env: Env) returns (result: DecisionResult)
    requires CanDecide(d, ctx.Value())
    modifies ctx, ctx.response
    ensures (result, ctx.Value()) == DecideIfModifiedSince(d, old(ctx.Value()), r, env)
  {
    if d == L13IfModifiedSinceExists {
      result := Wrap(Requests.HasHeader(ctx.request, "If-Modified-Since"));
    } else if d == L14IfModifiedSinceValid {
      var valid := ValidateDate(ctx, "If-Modified-Since", true, env);
      result := Wrap(valid);
    } else if d == L15IfModifiedSinceGreaterThanNow {
      result := Wrap(ctx.ifModifiedSince.value > env.now);
    } else if d == L17IfLastModifiedGreaterThanMS {
      result := CompareLastModified(ctx, r, ctx.ifModifiedSince);
    } else {
      result := False;
    }
  }

  /** The conditional-request headers, in place. */
  method ExecuteMatchConditions(d: Decision, ctx: Context, r: Resource, env: Env) returns (result: DecisionResult)
    modifies ctx, ctx.response
    ensures (result, ctx.Value()) == DecideMatchConditions(d, old(ctx.Value()), r, env)
  {
    if d == G7ResourceExists || d == G8IfMatchExists || d == G9IfMatchStarExists || d == H7IfMatchStarExists || d == G11EtagInIfMatch {
      result := ExecuteIfMatch(d, ctx, r, env);
    } else if d == H10IfUnmodifiedSinceExists || d == H11IfUnmodifiedSinceValid || d == H12LastModifiedGreaterThanUMS {
      result := ExecuteIfUnmodifiedSince(d, ctx, r, env);
    } else {
      result := False;
    }
  }

  method ExecuteNoneMatchConditions(d: Decision, ctx: Context, r: Resource, env: Env) returns (result: DecisionResult)
    requires CanDecide(d, ctx.Value())
    modifies ctx, ctx.response
    ensures (result, ctx.Value()) == DecideNoneMatchConditions(d, old(ctx.Value()), r, env)
  {
    if d == I12IfNoneMatchExists || d == I13IfNoneMatchStarExists || d == J18GetHead || d == K13ETagInIfNoneMatch {
      result := ExecuteIfNoneMatch(d, ctx, r, env);
    } else if d == L13IfModifiedSinceExists || d == L14IfModifiedSinceValid || d == L15IfModifiedSinceGreaterThanNow || d == L17IfLastModifiedGreaterThanMS {
      result := ExecuteIfModifiedSince(d, ctx, r, env);
    } else {
      result := False;
    }
  }

  method ExecutePrecondition(d: Decision, ctx: Context, r: Resource, env: Env) returns (result: DecisionResult)
    requires CanDecide(d, ctx.Value())
    modifies ctx, ctx.response
    ensures (result, ctx.Value()) == DecidePrecondition(d, old(ctx.Value()), r, env)
  {
    if d == G7ResourceExists || d == G8IfMatchExists || d == G9IfMatchStarExists || d == H7IfMatchStarExists ||
        d == G11EtagInIfMatch || d == H10IfUnmodifiedSinceExists || d == H11IfUnmodifiedSinceValid ||
        d == H12LastModifiedGreaterThanUMS {
      result := ExecuteMatchConditions(d, ctx, r, env);
    } else {
      result := ExecuteNoneMatchConditions(d, ctx, r, env);
    }
  }

  /** I4, K5 and L5: a Location header when the resource has moved. */
  method AskMoved(ctx: Context, cb: Callback<Option<string>>, r: Resource)
    returns (result: DecisionResult)
    modifies ctx, ctx.response
    ensures (result, ctx.Value()) == Moved(cb, old(ctx.Value()), r)
  {
    var location := Ask(ctx, cb, r.data);
    match location
    case Some(l) =>
      ctx.response.AddHeader("Location", [Basic(l)]);
      result := True;
    case None =>
      result := False;
  }

  /** M7 and N5. */
  method AskMissingPost(ctx: Context, r: Resource) returns (result: DecisionResult)
    modifies ctx, ctx.response
    ensures (result, ctx.Value()) == MissingPost(old(ctx.Value()), r)
  {
    var allowed := Ask(ctx, r.allowMissingPost, r.data);
    if allowed {
      ctx.newResource := true;
      result := True;
    } else {
      result := False;
    }
  }

  /** PUT, previous existence and POST to a missing resource (I7 to M5). */
  method ExecuteMissingResource(d: Decision, ctx: Context, r: Resource) returns (result: DecisionResult)
    modifies ctx, ctx.response
    ensures (result, ctx.Value()) == DecideMissingResource(d, old(ctx.Value()), r)
  {
    if d == I7Put {
      if IsPut(ctx.request) {
        ctx.newResource := true;
        result := True;
      } else {
        result := False;
      }
    } else if d == K7ResourcePreviouslyExisted {
      var v := Ask(ctx, r.previouslyExisted, r.data);
      result := Wrap(v);
    } else if d == L7Post {
      result := Wrap(IsPost(ctx.request));
    } else if d == M5Post {
      result := Wrap(IsPost(ctx.request));
    } else {
      result := False;
    }
  }

  /** Permanent and temporary moves (I4, K5, L5). */
  method ExecuteMoved(d: Decision, ctx: Context, r: Resource) returns (result: DecisionResult)
    modifies ctx, ctx.response
    ensures (result, ctx.Value()) == DecideMoved(d, old(ctx.Value()), r)
  {
    if d == I4HasMovedPermanently {
      result := AskMoved(ctx, r.movedPermanently, r);
    } else if d == K5HasMovedPermanently {
      result := AskMoved(ctx, r.movedPermanently, r);
    } else if d == L5HasMovedTemporarily {
      result := AskMoved(ctx, r.movedTemporarily, r);
    } else {
      result := False;
    }
  }

  /** POST to a missing resource and conflicts (M7, N5, P3). */
  method ExecutePostToMissing(d: Decision, ctx: Context, r: Resource) returns (result: DecisionResult)
    modifies ctx, ctx.response
    ensures (result, ctx.Value()) == DecidePostToMissing(d, old(ctx.Value()), r)
  {
    if d == M7PostToMissingResource {
      result := AskMissingPost(ctx, r);
    } else if d == N5PostToMissingResource {
      result := AskMissingPost(ctx, r);
    } else if d == P3Conflict {
      var v := Ask(ctx, r.isConflict, r.data);
      result := Wrap(v);
    } else {
      result := False;
    }
  }

  /** A missing resource, in place. */
  method ExecuteMissing(d: Decision, ctx: Context, r: Resource) returns (result: DecisionResult)
    modifies ctx, ctx.response
    ensures (result, ctx.Value()) == DecideMissing(d, old(ctx.Value()), r)
  {
    if d == I7Put || d == K7ResourcePreviouslyExisted || d == L7Post || d == M5Post {
      result := ExecuteMissingResource(d, ctx, r);
    } else if d == I4HasMovedPermanently || d == K5HasMovedPermanently || d == L5HasMovedTemporarily {
      result := ExecuteMoved(d, ctx, r);
    } else if d == M7PostToMissingResource || d == N5PostToMissingResource || d == P3Conflict {
      result := ExecutePostToMissing(d, ctx, r);
    } else {
      result := False;
    }
  }

  /** N11 when the POST creates: the new path becomes the request path and the Location. */
  method CreateAtPath(ctx: Context, r: Resource) returns (result: DecisionResult)
    modifies ctx, ctx.response
    ensures (result, ctx.Value()) == CreatePath(old(ctx.Value()), r)
  {
    var created := Ask(ctx, r.createPath, r.data);
    match created
    case Ok(path) =>
      var location := JoinPaths(SanitisePath(ctx.request.basePath), SanitisePath(path));
      ctx.request := ctx.request.(requestPath := path);
      ctx.response.AddHeader("Location", [Basic(location)]);
      result := Wrap(ctx.redirect);
    case Err(status) =>
      result := StatusCode(status);
  }

  /** DELETE (M16, M20). */
  method ExecuteDelete(d: Decision, ctx: Context, r: Resource) returns (result: DecisionResult)
    modifies ctx, ctx.response
    ensures (result, ctx.Value()) == DecideDelete(d, old(ctx.Value()), r)
  {
    if d == M16Delete {
      result := Wrap(IsDelete(ctx.request));
    } else if d == M20DeleteEnacted {
      var deleted := Ask(ctx, r.deleteResource, r.data);
      match deleted {
      case Ok(done) =>
        result := Wrap(done);
      case Err(status) =>
        result := StatusCode(status);
      }
    } else {
      result := False;
    }
  }

  /** POST (N16, N11). */
  method ExecutePost(d: Decision, ctx: Context, r: Resource) returns (result: DecisionResult)
    modifies ctx, ctx.response
    ensures (result, ctx.Value()) == DecidePost(d, old(ctx.Value()), r)
  {
    if d == N16Post {
      result := Wrap(IsPost(ctx.request));
    } else if d == N11Redirect {
      var create := Ask(ctx, r.postIsCreate, r.data);
      if create {
        result := CreateAtPath(ctx, r);
      } else {
        var processed := Ask(ctx, r.processPost, r.data);
        match processed {
        case Ok(_) =>
          result := Wrap(ctx.redirect);
        case Err(status) =>
          result := StatusCode(status);
        }
      }
    } else {
      result := False;
    }
  }

  /** PUT and conflicts (O16, O14, P11). */
  method ExecutePut(d: Decision, ctx: Context, r: Resource) returns (result: DecisionResult)
    modifies ctx, ctx.response
    ensures (result, ctx.Value()) == DecidePut(d, old(ctx.Value()), r)
  {
    if d == O16Put {
      result := Wrap(IsPut(ctx.request));
    } else if d == O14Conflict {
      var v := Ask(ctx, r.isConflict, r.data);
      result := Wrap(v);
    } else if d == P11NewResource {
      if IsPut(ctx.request) {
        var put := Ask(ctx, r.processPut, r.data);
        match put {
        case Ok(_) =>
          result := Wrap(ctx.newResource);
        case Err(status) =>
          result := StatusCode(status);
        }
      } else {
        result := Wrap(ctx.newResource);
      }
    } else {
      result := False;
    }
  }

  /** Body and multiple representations (O20, O18). */
  method ExecuteRepresentation(d: Decision, ctx: Context, r: Resource) returns (result: DecisionResult)
    modifies ctx, ctx.response
    ensures (result, ctx.Value()) == DecideRepresentation(d, old(ctx.Value()), r)
  {
    if d == O20ResponseHasBody {
      result := Wrap(HasBody(ctx.response.Value()));
    } else if d == O18MultipleRepresentations {
      var v := Ask(ctx, r.multipleChoices, r.data);
      result := Wrap(v);
    } else {
      result := False;
    }
  }

  /** The methods that change the resource, in place. */
  method ExecuteWrite(d: Decision, ctx: Context, r: Resource) returns (result: DecisionResult)
    modifies ctx, ctx.response
    ensures (result, ctx.Value()) == DecideWrite(d, old(ctx.Value()), r)
  {
    if d == M16Delete || d == M20DeleteEnacted {
      result := ExecuteDelete(d, ctx, r);
    } else if d == N16Post || d == N11Redirect {
      result := ExecutePost(d, ctx, r);
    } else if d == O16Put || d == O14Conflict || d == P11NewResource {
      result := ExecutePut(d, ctx, r);
    } else if d == O20ResponseHasBody || d == O18MultipleRepresentations {
      result := ExecuteRepresentation(d, ctx, r);
    } else {
      result := False;
    }
  }

  /** `execute_decision`, in place. */
  method ExecuteDecision(d: Decision, ctx: Context, r: Resource, env: Env) returns (result: DecisionResult)
    requires CanDecide(d, ctx.Value())
    modifies ctx, ctx.response
    ensures (result, ctx.Value()) == Decide(d, old(ctx.Value()), r, env)
  {
    match PhaseOf(d)
    case Gates => result := ExecuteGate(d, ctx, r, env);
    case Negotiation => result := ExecuteNegotiation(d, ctx, r, env);
    case Preconditions => result := ExecutePrecondition(d, ctx, r, env);
    case Missing => result := ExecuteMissing(d, ctx, r);
    case _ => result := ExecuteWrite(d, ctx, r);
  }

  /**
   * `execute_state_machine`: walks the graph from `Start`, counting the
   * transitions against the limit, then concludes at the final node. It
   * leaves the context as `StateMachine` says, and the limit is never hit.
   */
  method ExecuteStateMachine(ctx: Context, r: Resource, env: Env)
    modifies ctx, ctx.response
    ensures ctx.Value() == StateMachine(old(ctx.Value()), r, env)
  {
    var state := Start;
    var loopCount := 0;
    while !state.IsTerminal()
      invariant CanDecide(state, ctx.Value())
      invariant loopCount + Rank(state) <= Rank(Start)
      invariant RunFrom(state, ctx.Value(), r, env) == RunFrom(Start, old(ctx.Value()), r, env)
      decreases Rank(state)
    {
      RankZeroIsTerminal(state);
      loopCount := loopCount + 1;
      if loopCount >= MaxStateMachineTransitions {
        assert false;
      }
      ghost var before := ctx.Value();
      FollowDescends(state, True);
      var t := TransitionMap(state).value;
      var answer := True;
      if t.Branch? {
        answer := ExecuteDecision(state, ctx, r, env);
      }
      assert (Follow(t, answer), ctx.Value()) == Step(state, before, r, env);
      state := Follow(t, answer);
    }
    if state.End? {
      ctx.response.SetStatus(state.code);
    } else if state == A3Options {
      ctx.response.SetStatus(204);
      var headers := Ask(ctx, r.options, r.data);
      if headers.Some? {
        ctx.response.AddHeaders(headers.value);
      }
    }
  }
}
