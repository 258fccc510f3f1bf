/**
 * The decision graph (`lib.rs`): its edges (`TRANSITION_MAP`), the height
 * of each node above the terminal nodes, and what each node decides
 * (`execute_decision`), stated as functions of the context's state. Each
 * node reads the request or the resource's lists, or asks one callback,
 * and may record what it learned in the context.
 */
module Decisions {
  import opened Wrappers
  import opened Strings
  import opened Headers
  import opened Requests
  import opened Responses
  import opened Contexts
  import opened Resources
  import opened Enums
  import opened ContentNegotiation
  import opened Paths

  /**
   * What the engine needs from outside: the current time, the RFC 2822 date
   * parser and formatter, and the header-value parser, all on seconds.
   */
  datatype Env = Env(
    now: int,
    parseDate: string -> Option<int>,
    formatDate: int -> string,
    parseHeaderValue: string -> HeaderValue)

  /** The length of the longest path from `d` to a terminal node. */
  function Rank(d: Decision): nat {
    match d
    case End(_) => 0
    case A3Options => 0
    case O18MultipleRepresentations => 1
    case J18GetHead => 1
    case O20ResponseHasBody => 2
    case P11NewResource => 3
    case M20DeleteEnacted => 3
    case O14Conflict => 4
    case P3Conflict => 4
    case N11Redirect => 4
    case O16Put => 5
    case M7PostToMissingResource => 5
    case N5PostToMissingResource => 5
    case I4HasMovedPermanently => 5
    case N16Post => 6
    case L7Post => 6
    case M5Post => 6
    case M16Delete => 7
    case L5HasMovedTemporarily => 7
    case L17IfLastModifiedGreaterThanMS => 8
    case K5HasMovedPermanently => 8
    case L15IfModifiedSinceGreaterThanNow => 9
    case K7ResourcePreviouslyExisted => 9
    case L14IfModifiedSinceValid => 10
    case I7Put => 10
    case L13IfModifiedSinceExists => 11
    case H7IfMatchStarExists => 11
    case K13ETagInIfNoneMatch => 12
    case I13IfNoneMatchStarExists => 13
    case I12IfNoneMatchExists => 14
    case H12LastModifiedGreaterThanUMS => 15
    case H11IfUnmodifiedSinceValid => 16
    case H10IfUnmodifiedSinceExists => 17
    case G11EtagInIfMatch => 18
    case G9IfMatchStarExists => 19
    case G8IfMatchExists => 20
    case G7ResourceExists => 21
    case F7AcceptableEncodingAvailable => 22
    case F6AcceptEncodingExists => 23
    case E6AcceptableCharsetAvailable => 24
    case E5AcceptCharsetExists => 25
    case D5AcceptableLanguageAvailable => 26
    case D4AcceptLanguageExists => 27
    case C4AcceptableMediaTypeAvailable => 28
    case C3AcceptExists => 29
    case B3Options => 30
    case B4RequestEntityTooLarge => 31
    case B5UnknownContentType => 32
    case B6UnsupportedContentHeader => 33
    case B7Forbidden => 34
    case B8Authorized => 35
    case B9MalformedRequest => 36
    case B10MethodAllowed => 37
    case B11UriTooLong => 38
    case B12KnownMethod => 39
    case B13Available => 40
    case Start => 41
  }

  /** `TRANSITION_MAP`: an entry for exactly the non-terminal nodes. */
  function TransitionMap(d: Decision): (t: Option<Transition>)
    ensures t.None? <==> d.IsTerminal()
  {
    match d
    case Start => Some(To(B13Available))
    case B3Options => Some(Branch(A3Options, C3AcceptExists))
    case B4RequestEntityTooLarge => Some(Branch(End(413), B3Options))
    case B5UnknownContentType => Some(Branch(End(415), B4RequestEntityTooLarge))
    case B6UnsupportedContentHeader => Some(Branch(End(501), B5UnknownContentType))
    case B7Forbidden => Some(Branch(End(403), B6UnsupportedContentHeader))
    case B8Authorized => Some(Branch(B7Forbidden, End(401)))
    case B9MalformedRequest => Some(Branch(End(400), B8Authorized))
    case B10MethodAllowed => Some(Branch(B9MalformedRequest, End(405)))
    case B11UriTooLong => Some(Branch(End(414), B10MethodAllowed))
    case B12KnownMethod => Some(Branch(B11UriTooLong, End(501)))
    case B13Available => Some(Branch(B12KnownMethod, End(503)))
    case C3AcceptExists => Some(Branch(C4AcceptableMediaTypeAvailable, D4AcceptLanguageExists))
    case C4AcceptableMediaTypeAvailable => Some(Branch(D4AcceptLanguageExists, End(406)))
    case D4AcceptLanguageExists => Some(Branch(D5AcceptableLanguageAvailable, E5AcceptCharsetExists))
    case D5AcceptableLanguageAvailable => Some(Branch(E5AcceptCharsetExists, End(406)))
    case E5AcceptCharsetExists => Some(Branch(E6AcceptableCharsetAvailable, F6AcceptEncodingExists))
    case E6AcceptableCharsetAvailable => Some(Branch(F6AcceptEncodingExists, End(406)))
    case F6AcceptEncodingExists => Some(Branch(F7AcceptableEncodingAvailable, G7ResourceExists))
    case F7AcceptableEncodingAvailable => Some(Branch(G7ResourceExists, End(406)))
    case G7ResourceExists => Some(Branch(G8IfMatchExists, H7IfMatchStarExists))
    case G8IfMatchExists => Some(Branch(G9IfMatchStarExists, H10IfUnmodifiedSinceExists))
    case G9IfMatchStarExists => Some(Branch(H10IfUnmodifiedSinceExists, G11EtagInIfMatch))
    case G11EtagInIfMatch => Some(Branch(H10IfUnmodifiedSinceExists, End(412)))
    case H7IfMatchStarExists => Some(Branch(End(412), I7Put))
    case H10IfUnmodifiedSinceExists => Some(Branch(H11IfUnmodifiedSinceValid, I12IfNoneMatchExists))
    case H11IfUnmodifiedSinceValid => Some(Branch(H12LastModifiedGreaterThanUMS, I12IfNoneMatchExists))
    case H12LastModifiedGreaterThanUMS => Some(Branch(End(412), I12IfNoneMatchExists))
    case I4HasMovedPermanently => Some(Branch(End(301), P3Conflict))
    case I7Put => Some(Branch(I4HasMovedPermanently, K7ResourcePreviouslyExisted))
    case I12IfNoneMatchExists => Some(Branch(I13IfNoneMatchStarExists, L13IfModifiedSinceExists))
    case I13IfNoneMatchStarExists => Some(Branch(J18GetHead, K13ETagInIfNoneMatch))
    case J18GetHead => Some(Branch(End(304), End(412)))
    case K13ETagInIfNoneMatch => Some(Branch(J18GetHead, L13IfModifiedSinceExists))
    case K5HasMovedPermanently => Some(Branch(End(301), L5HasMovedTemporarily))
    case K7ResourcePreviouslyExisted => Some(Branch(K5HasMovedPermanently, L7Post))
    case L5HasMovedTemporarily => Some(Branch(End(307), M5Post))
    case L7Post => Some(Branch(M7PostToMissingResource, End(404)))
    case L13IfModifiedSinceExists => Some(Branch(L14IfModifiedSinceValid, M16Delete))
    case L14IfModifiedSinceValid => Some(Branch(L15IfModifiedSinceGreaterThanNow, M16Delete))
    case L15IfModifiedSinceGreaterThanNow => Some(Branch(M16Delete, L17IfLastModifiedGreaterThanMS))
    case L17IfLastModifiedGreaterThanMS => Some(Branch(M16Delete, End(304)))
    case M5Post => Some(Branch(N5PostToMissingResource, End(410)))
    case M7PostToMissingResource => Some(Branch(N11Redirect, End(404)))
    case M16Delete => Some(Branch(M20DeleteEnacted, N16Post))
    case M20DeleteEnacted => Some(Branch(O20ResponseHasBody, End(202)))
    case N5PostToMissingResource => Some(Branch(N11Redirect, End(410)))
    case N11Redirect => Some(Branch(End(303), P11NewResource))
    case N16Post => Some(Branch(N11Redirect, O16Put))
    case O14Conflict => Some(Branch(End(409), P11NewResource))
    case O16Put => Some(Branch(O14Conflict, O18MultipleRepresentations))
    case P3Conflict => Some(Branch(End(409), P11NewResource))
    case P11NewResource => Some(Branch(End(201), O20ResponseHasBody))
    case O18MultipleRepresentations => Some(Branch(End(300), End(200)))
    case O20ResponseHasBody => Some(Branch(O18MultipleRepresentations, End(204)))
    case End(_) => None
    case A3Options => None
  }

  /** Rank 0 marks exactly the terminal nodes. */
  lemma RankZeroIsTerminal(d: Decision)
    ensures Rank(d) == 0 <==> d.IsTerminal()
  {
  }

  /**
   * The edges out of `d` go down in rank, and the only edge into L15 is
   * L14's true edge (L15 reads the date L14 parsed).
   */
  predicate Descends(d: Decision)
  {
    match TransitionMap(d)
    case Some(To(next)) => Rank(next) < Rank(d) && next != L15IfModifiedSinceGreaterThanNow
    case Some(Branch(t, f)) =>
      Rank(t) < Rank(d) && Rank(f) < Rank(d) && f != L15IfModifiedSinceGreaterThanNow
      && (t == L15IfModifiedSinceGreaterThanNow ==> d == L14IfModifiedSinceValid)
    case None => true
  }

  /** The edges out of Start and the B column. */
  lemma ColumnBDescends(d: Decision)
    requires d == Start || d == B3Options || d == B4RequestEntityTooLarge || d == B5UnknownContentType ||
      d == B6UnsupportedContentHeader || d == B7Forbidden || d == B8Authorized || d == B9MalformedRequest ||
      d == B10MethodAllowed || d == B11UriTooLong || d == B12KnownMethod || d == B13Available
    ensures Descends(d)
  {
  }

  /** The edges out of columns C and D. */
  lemma ColumnCDDescends(d: Decision)
    requires d == C3AcceptExists || d == C4AcceptableMediaTypeAvailable || d == D4AcceptLanguageExists ||
      d == D5AcceptableLanguageAvailable
    ensures Descends(d)
  {
  }

  /** The edges out of columns E and F. */
  lemma ColumnEFDescends(d: Decision)
    requires d == E5AcceptCharsetExists || d == E6AcceptableCharsetAvailable || d == F6AcceptEncodingExists ||
      d == F7AcceptableEncodingAvailable
    ensures Descends(d)
  {
  }

  /** The edges out of column G. */
  lemma ColumnGDescends(d: Decision)
    requires d == G7ResourceExists || d == G8IfMatchExists || d == G9IfMatchStarExists ||
      d == G11EtagInIfMatch
    ensures Descends(d)
  {
  }

  /** The edges out of column H. */
  lemma ColumnHDescends(d: Decision)
    requires d == H7IfMatchStarExists || d == H10IfUnmodifiedSinceExists || d == H11IfUnmodifiedSinceValid ||
      d == H12LastModifiedGreaterThanUMS
    ensures Descends(d)
  {
  }

  /** The edges out of column I. */
  lemma ColumnIDescends(d: Decision)
    requires d == I4HasMovedPermanently || d == I7Put || d == I12IfNoneMatchExists ||
      d == I13IfNoneMatchStarExists
    ensures Descends(d)
  {
  }

  /** The edges out of columns J and K. */
  lemma ColumnJKDescends(d: Decision)
    requires d == J18GetHead || d == K13ETagInIfNoneMatch || d == K5HasMovedPermanently ||
      d == K7ResourcePreviouslyExisted
    ensures Descends(d)
  {
  }

  /** The edges out of L5, L7 and L13. */
  lemma NodesL5To13Descend(d: Decision)
    requires d == L5HasMovedTemporarily || d == L7Post || d == L13IfModifiedSinceExists
    ensures Descends(d)
  {
  }

  /** The edges out of L14, into L15 or M16. */
  lemma NodeL14Descends(d: Decision)
    requires d == L14IfModifiedSinceValid
    ensures Descends(d)
  {
  }

  /** The edges out of L15 and L17. */
  lemma NodesL15To17Descend(d: Decision)
    requires d == L15IfModifiedSinceGreaterThanNow || d == L17IfLastModifiedGreaterThanMS
    ensures Descends(d)
  {
  }

  /** The edges out of M5 and M7. */
  lemma NodesM5To7Descend(d: Decision)
    requires d == M5Post || d == M7PostToMissingResource
    ensures Descends(d)
  {
  }

  /** The edges out of M16 and M20. */
  lemma NodesM16To20Descend(d: Decision)
    requires d == M16Delete || d == M20DeleteEnacted
    ensures Descends(d)
  {
  }

  /** The edges out of column N. */
  lemma ColumnNDescends(d: Decision)
    requires d == N5PostToMissingResource || d == N11Redirect || d == N16Post
    ensures Descends(d)
  {
  }

  /** The edges out of column O. */
  lemma ColumnODescends(d: Decision)
    requires d == O14Conflict || d == O16Put || d == O18MultipleRepresentations || d == O20ResponseHasBody
    ensures Descends(d)
  {
  }

  /** The edges out of column P. */
  lemma ColumnPDescends(d: Decision)
    requires d == P3Conflict || d == P11NewResource
    ensures Descends(d)
  {
  }

  /** The map has no cycle: every edge leads to a node of smaller rank; only L14 leads to L15. */
  lemma TransitionsDescend(d: Decision)
    ensures Descends(d)
  {
    match d
    case Start => ColumnBDescends(d);
    case B3Options => ColumnBDescends(d);
    case B4RequestEntityTooLarge => ColumnBDescends(d);
    case B5UnknownContentType => ColumnBDescends(d);
    case B6UnsupportedContentHeader => ColumnBDescends(d);
    case B7Forbidden => ColumnBDescends(d);
    case B8Authorized => ColumnBDescends(d);
    case B9MalformedRequest => ColumnBDescends(d);
    case B10MethodAllowed => ColumnBDescends(d);
    case B11UriTooLong => ColumnBDescends(d);
    case B12KnownMethod => ColumnBDescends(d);
    case B13Available => ColumnBDescends(d);
    case C3AcceptExists => ColumnCDDescends(d);
    case C4AcceptableMediaTypeAvailable => ColumnCDDescends(d);
    case D4AcceptLanguageExists => ColumnCDDescends(d);
    case D5AcceptableLanguageAvailable => ColumnCDDescends(d);
    case E5AcceptCharsetExists => ColumnEFDescends(d);
    case E6AcceptableCharsetAvailable => ColumnEFDescends(d);
    case F6AcceptEncodingExists => ColumnEFDescends(d);
    case F7AcceptableEncodingAvailable => ColumnEFDescends(d);
    case G7ResourceExists => ColumnGDescends(d);
    case G8IfMatchExists => ColumnGDescends(d);
    case G9IfMatchStarExists => ColumnGDescends(d);
    case G11EtagInIfMatch => ColumnGDescends(d);
    case H7IfMatchStarExists => ColumnHDescends(d);
    case H10IfUnmodifiedSinceExists => ColumnHDescends(d);
    case H11IfUnmodifiedSinceValid => ColumnHDescends(d);
    case H12LastModifiedGreaterThanUMS => ColumnHDescends(d);
    case I4HasMovedPermanently => ColumnIDescends(d);
    case I7Put => ColumnIDescends(d);
    case I12IfNoneMatchExists => ColumnIDescends(d);
    case I13IfNoneMatchStarExists => ColumnIDescends(d);
    case J18GetHead => ColumnJKDescends(d);
    case K13ETagInIfNoneMatch => ColumnJKDescends(d);
    case K5HasMovedPermanently => ColumnJKDescends(d);
    case K7ResourcePreviouslyExisted => ColumnJKDescends(d);
    case L5HasMovedTemporarily => NodesL5To13Descend(d);
    case L7Post => NodesL5To13Descend(d);
    case L13IfModifiedSinceExists => NodesL5To13Descend(d);
    case L14IfModifiedSinceValid => NodeL14Descends(d);
    case L15IfModifiedSinceGreaterThanNow => NodesL15To17Descend(d);
    case L17IfLastModifiedGreaterThanMS => NodesL15To17Descend(d);
    case M5Post => NodesM5To7Descend(d);
    case M7PostToMissingResource => NodesM5To7Descend(d);
    case M16Delete => NodesM16To20Descend(d);
    case M20DeleteEnacted => NodesM16To20Descend(d);
    case N5PostToMissingResource => ColumnNDescends(d);
    case N11Redirect => ColumnNDescends(d);
    case N16Post => ColumnNDescends(d);
    case O14Conflict => ColumnODescends(d);
    case O16Put => ColumnODescends(d);
    case O18MultipleRepresentations => ColumnODescends(d);
    case O20ResponseHasBody => ColumnODescends(d);
    case P3Conflict => ColumnPDescends(d);
    case P11NewResource => ColumnPDescends(d);
    case _ =>
  }

  /** Only `Start` is an unconditional edge; every other node asks a question. */
  lemma OnlyStartIsUnconditional(d: Decision)
    ensures (TransitionMap(d).Some? && TransitionMap(d).value.To?) <==> d == Start
  {
  }

  /** The one node whose question needs a fact an earlier node established: L15 reads the parsed date. */
  predicate CanDecide(d: Decision, c: ContextState) {
    d == L15IfModifiedSinceGreaterThanNow ==> c.ifModifiedSince.Some?
  }

  function AddHeader(c: ContextState, name: string, values: seq<HeaderValue>): ContextState {
    c.(response := WithHeader(c.response, name, values))
  }

  /** An entity-tag value matches `etag`: a weak tag by its opaque part, any other value as written. */
  predicate EtagMatches(h: HeaderValue, etag: string) {
    if StartsWith(h.value, "W/") then WeakEtag(h) == etag else h.value == etag
  }

  /**
   * `resource_etag_matches_header_values`: the header's values are read, then
   * `generate_etag` is asked; without a tag nothing matches.
   */
  function EtagInHeader(c: ContextState, r: Resource, header: string): (result: (bool, ContextState))
    ensures result.1 == r.generateEtag(c, r.data).1
    ensures result.0 <==> (r.generateEtag(c, r.data).0.Some? &&
      exists i :: 0 <= i < |FindHeader(c.request, header)|
        && EtagMatches(FindHeader(c.request, header)[i], r.generateEtag(c, r.data).0.value))
  {
    var values := FindHeader(c.request, header);
    var (etag, c1) := r.generateEtag(c, r.data);
    match etag
    case Some(e) => (exists i :: 0 <= i < |values| && EtagMatches(values[i], e), c1)
    case None => (false, c1)
  }

  /**
   * `validate_header_date`: true, with the parsed date recorded, when the
   * header's first value parses; otherwise false and the record unchanged.
   */
  function ValidateHeaderDate(request: Request, header: string, recorded: Option<int>, env: Env): (result: (bool, Option<int>))
    ensures result.0 <==> FindHeader(request, header) != [] && env.parseDate(FindHeader(request, header)[0].value).Some?
    ensures result.0 ==> result.1 == env.parseDate(FindHeader(request, header)[0].value)
    ensures !result.0 ==> result.1 == recorded
  {
    var values := FindHeader(request, header);
    if values == [] then (false, recorded)
    else
      match env.parseDate(values[0].value)
      case Some(t) => (true, Some(t))
      case None => (false, recorded)
  }

  /** A callback's boolean answer as a decision, and the context it leaves. */
  function AskWrapped(cb: Callback<bool>, c: ContextState, r: Resource): (result: (DecisionResult, ContextState))
    ensures result.0.True? <==> cb(c, r.data).0
    ensures !result.0.StatusCode? && result.1 == cb(c, r.data).1
  {
    var (v, c1) := cb(c, r.data);
    (Wrap(v), c1)
  }

  // The service-level gates, B13 to B3.
  /** Availability, known method, URI length and allowed method (B13 to B10). */
  function DecideServiceChecks(d: Decision, c: ContextState, r: Resource, env: Env): (result: (DecisionResult, ContextState))
    ensures !result.0.StatusCode?
  {
    if d == B13Available then AskWrapped(r.available, c, r)
    else if d == B12KnownMethod then (Wrap(ContainsIgnoreCase(r.data.knownMethods, c.request.httpMethod)), c)
    else if d == B11UriTooLong then AskWrapped(r.uriTooLong, c, r)
    else if d == B10MethodAllowed then
      if ContainsIgnoreCase(r.data.allowedMethods, c.request.httpMethod) then
        (True, c)
      else
        (False, AddHeader(c, "Allow", BasicValues(r.data.allowedMethods)))
    else (False, c)
  }

  /** Malformed request, authorisation, permission and content headers (B9 to B6). */
  function DecideRequestChecks(d: Decision, c: ContextState, r: Resource, env: Env): (result: (DecisionResult, ContextState))
    ensures !result.0.StatusCode?
  {
    if d == B9MalformedRequest then AskWrapped(r.malformedRequest, c, r)
    else if d == B8Authorized then
      var (realm, c1) := r.notAuthorized(c, r.data);
      (match realm
       case Some(text) => (False, AddHeader(c1, "WWW-Authenticate", [env.parseHeaderValue(text)]))
       case None => (True, c1))
    else if d == B7Forbidden then AskWrapped(r.forbidden, c, r)
    else if d == B6UnsupportedContentHeader then AskWrapped(r.unsupportedContentHeaders, c, r)
    else (False, c)
  }

  /** Content type, entity length and OPTIONS (B5 to B3). */
  function DecideEntityChecks(d: Decision, c: ContextState, r: Resource, env: Env): (result: (DecisionResult, ContextState))
    ensures !result.0.StatusCode?
  {
    if d == B5UnknownContentType then
      (Wrap(IsPutOrPost(c.request) && !ContainsIgnoreCase(r.data.acceptableContentTypes, ContentType(c.request))), c)
    else if d == B4RequestEntityTooLarge then
      if IsPutOrPost(c.request) then
        var (valid, c1) := r.validEntityLength(c, r.data);
        (Wrap(!valid), c1)
      else (Wrap(false), c)
    else if d == B3Options then (Wrap(IsOptions(c.request)), c)
    else (False, c)
  }

  function DecideGate(d: Decision, c: ContextState, r: Resource, env: Env): (result: (DecisionResult, ContextState))
    ensures !result.0.StatusCode?
  {
    if d == B13Available || d == B12KnownMethod || d == B11UriTooLong || d == B10MethodAllowed then
      DecideServiceChecks(d, c, r, env)
    else if d == B9MalformedRequest || d == B8Authorized || d == B7Forbidden || d == B6UnsupportedContentHeader then
      DecideRequestChecks(d, c, r, env)
    else if d == B5UnknownContentType || d == B4RequestEntityTooLarge || d == B3Options then
      DecideEntityChecks(d, c, r, env)
    else (False, c)
  }

  // Content negotiation, C3 to F7: each header present is negotiated and the choice recorded.
  /** Media type and language negotiation (C3 to D5). */
  function DecideMediaTypeAndLanguage(d: Decision, c: ContextState, r: Resource, env: Env): (result: (DecisionResult, ContextState))
    ensures !result.0.StatusCode?
  {
    if d == C3AcceptExists then (Wrap(HasAcceptHeader(c.request)), c)
    else if d == C4AcceptableMediaTypeAvailable then
      (match MatchingContentType(r.data.produces, c.request)
       case Some(mediaType) => (True, c.(selectedMediaType := Some(mediaType)))
       case None => (False, c))
    else if d == D4AcceptLanguageExists then (Wrap(HasAcceptLanguageHeader(c.request)), c)
    else if d == D5AcceptableLanguageAvailable then
      (match MatchingLanguage(r.data.languagesProvided, c.request)
       case Some(language) =>
         (True,
          if language != "*" then
            AddHeader(c.(selectedLanguage := Some(language)), "Content-Language", [env.parseHeaderValue(language)])
          else c)
       case None => (False, c))
    else (False, c)
  }

  /** Charset and encoding negotiation (E5 to F7). */
  function DecideCharsetAndEncoding(d: Decision, c: ContextState, r: Resource, env: Env): (result: (DecisionResult, ContextState))
    ensures !result.0.StatusCode?
  {
    if d == E5AcceptCharsetExists then (Wrap(HasAcceptCharsetHeader(c.request)), c)
    else if d == E6AcceptableCharsetAvailable then
      (match MatchingCharset(r.data.charsetsProvided, c.request)
       case Some(charset) =>
         (True,
          if charset != "*" then c.(selectedCharset := Some(charset)) else c)
       case None => (False, c))
    else if d == F6AcceptEncodingExists then (Wrap(HasAcceptEncodingHeader(c.request)), c)
    else if d == F7AcceptableEncodingAvailable then
      (match MatchingEncoding(r.data.encodingsProvided, c.request)
       case Some(encoding) =>
         var c1 := c.(selectedEncoding := Some(encoding));
         (True,
          if encoding != "identity" then AddHeader(c1, "Content-Encoding", [env.parseHeaderValue(encoding)]) else c1)
       case None => (False, c))
    else (False, c)
  }

  function DecideNegotiation(d: Decision, c: ContextState, r: Resource, env: Env): (result: (DecisionResult, ContextState))
    ensures !result.0.StatusCode?
  {
    if d == C3AcceptExists || d == C4AcceptableMediaTypeAvailable || d == D4AcceptLanguageExists ||
        d == D5AcceptableLanguageAvailable then
      DecideMediaTypeAndLanguage(d, c, r, env)
    else if d == E5AcceptCharsetExists || d == E6AcceptableCharsetAvailable || d == F6AcceptEncodingExists ||
        d == F7AcceptableEncodingAvailable then
      DecideCharsetAndEncoding(d, c, r, env)
    else (False, c)
  }

  /** `last_modified` compared with a parsed conditional date; false without either. */
  function ModifiedAfter(since: Option<int>, c: ContextState, r: Resource)
    : (result: (DecisionResult, ContextState))
    ensures result.0.True? <==> (since.Some? && r.lastModified(c, r.data).0.Some?
      && r.lastModified(c, r.data).0.value > since.value)
    ensures !result.0.StatusCode?
    ensures result.1 == if since.Some? then r.lastModified(c, r.data).1 else c
  {
    match since
    case Some(date) =>
      var (modified, c1) := r.lastModified(c, r.data);
      (match modified
       case Some(t) => (Wrap(t > date), c1)
       case None => (False, c1))
    case None => (False, c)
  }

  // The conditional-request headers on an existing resource, G7 to L17 (RFC 2616, sections 14.24 to 14.28).
  /** Existence and If-Match (G7 to H7). */
  function DecideIfMatch(d: Decision, c: ContextState, r: Resource, env: Env): (result: (DecisionResult, ContextState))
    ensures !result.0.StatusCode?
  {
    if d == G7ResourceExists then AskWrapped(r.resourceExists, c, r)
    else if d == G8IfMatchExists then (Wrap(Requests.HasHeader(c.request, "If-Match")), c)
    else if d == G9IfMatchStarExists then (Wrap(HasHeaderValue(c.request, "If-Match", "*")), c)
    else if d == H7IfMatchStarExists then (Wrap(HasHeaderValue(c.request, "If-Match", "*")), c)
    else if d == G11EtagInIfMatch then
      var (found, c1) := EtagInHeader(c, r, "If-Match");
      (Wrap(found), c1)
    else (False, c)
  }

  /** If-Unmodified-Since (H10 to H12). */
  function DecideIfUnmodifiedSince(d: Decision, c: ContextState, r: Resource, env: Env): (result: (DecisionResult, ContextState))
    ensures !result.0.StatusCode?
  {
    if d == H10IfUnmodifiedSinceExists then (Wrap(Requests.HasHeader(c.request, "If-Unmodified-Since")), c)
    else if d == H11IfUnmodifiedSinceValid then
      var (valid, date) := ValidateHeaderDate(c.request, "If-Unmodified-Since", c.ifUnmodifiedSince, env);
      (Wrap(valid), c.(ifUnmodifiedSince := date))
    else if d == H12LastModifiedGreaterThanUMS then
      ModifiedAfter(c.ifUnmodifiedSince, c, r)
    else (False, c)
  }

  /** If-None-Match (I12 to K13). */
  function DecideIfNoneMatch(d: Decision, c: ContextState, r: Resource, env: Env): (result: (DecisionResult, ContextState))
    ensures !result.0.StatusCode?
  {
    if d == I12IfNoneMatchExists then (Wrap(Requests.HasHeader(c.request, "If-None-Match")), c)
    else if d == I13IfNoneMatchStarExists then (Wrap(HasHeaderValue(c.request, "If-None-Match", "*")), c)
    else if d == J18GetHead then (Wrap(IsGetOrHead(c.request)), c)
    else if d == K13ETagInIfNoneMatch then
      var (found, c1) := EtagInHeader(c, r, "If-None-Match");
      (Wrap(found), c1)
    else (False, c)
  }

  /** If-Modified-Since (L13 to L17). */
  function DecideIfModifiedSince(d: Decision, c: ContextState, r: Resource, env: Env): (result: (DecisionResult, ContextState))
    requires CanDecide(d, c)
    ensures !result.0.StatusCode?
    ensures d == L14IfModifiedSinceValid && result.0.True? ==> result.1.ifModifiedSince.Some?
  {
    if d == L13IfModifiedSinceExists then (Wrap(Requests.HasHeader(c.request, "If-Modified-Since")), c)
    else if d == L14IfModifiedSinceValid then
      var (valid, date) := ValidateHeaderDate(c.request, "If-Modified-Since", c.ifModifiedSince, env);
      (Wrap(valid), c.(ifModifiedSince := date))
    else if d == L15IfModifiedSinceGreaterThanNow then
      (Wrap(c.ifModifiedSince.value > env.now), c)
    else if d == L17IfLastModifiedGreaterThanMS then
      ModifiedAfter(c.ifModifiedSince, c, r)
    else (False, c)
  }

  /** If-Match and If-Unmodified-Since (columns G and H). */
  function DecideMatchConditions(d: Decision, c: ContextState, r: Resource, env: Env): (result: (DecisionResult, ContextState))
    ensures !result.0.StatusCode?
  {
    if d == G7ResourceExists || d == G8IfMatchExists || d == G9IfMatchStarExists || d == H7IfMatchStarExists ||
        d == G11EtagInIfMatch then
      DecideIfMatch(d, c, r, env)
    else if d == H10IfUnmodifiedSinceExists || d == H11IfUnmodifiedSinceValid ||
        d == H12LastModifiedGreaterThanUMS then
      DecideIfUnmodifiedSince(d, c, r, env)
    else (False, c)
  }

  /** If-None-Match and If-Modified-Since (columns I to L). */
  function DecideNoneMatchConditions(d: Decision, c: ContextState, r: Resource, env: Env): (result: (DecisionResult, ContextState))
    requires CanDecide(d, c)
    ensures !result.0.StatusCode?
    ensures d == L14IfModifiedSinceValid && result.0.True? ==> result.1.ifModifiedSince.Some?
  {
    if d == I12IfNoneMatchExists || d == I13IfNoneMatchStarExists || d == J18GetHead ||
        d == K13ETagInIfNoneMatch then
      DecideIfNoneMatch(d, c, r, env)
    else if d == L13IfModifiedSinceExists || d == L14IfModifiedSinceValid ||
        d == L15IfModifiedSinceGreaterThanNow || d == L17IfLastModifiedGreaterThanMS then
      DecideIfModifiedSince(d, c, r, env)
    else (False, c)
  }

  /** The conditional-request nodes, columns G to L. */
  function DecidePrecondition(d: Decision, c: ContextState, r: Resource, env: Env): (result: (DecisionResult, ContextState))
    requires CanDecide(d, c)
    ensures !result.0.StatusCode?
    ensures d == L14IfModifiedSinceValid && result.0.True? ==> result.1.ifModifiedSince.Some?
  {
    if d == G7ResourceExists || d == G8IfMatchExists || d == G9IfMatchStarExists || d == H7IfMatchStarExists ||
        d == G11EtagInIfMatch || d == H10IfUnmodifiedSinceExists || d == H11IfUnmodifiedSinceValid ||
        d == H12LastModifiedGreaterThanUMS then
      DecideMatchConditions(d, c, r, env)
    else
      DecideNoneMatchConditions(d, c, r, env)
  }

  /** A `moved_*` answer: true with a Location header when the resource names a new place. */
  function Moved(cb: Callback<Option<string>>, c: ContextState, r: Resource)
    : (result: (DecisionResult, ContextState))
    ensures result.0.True? <==> cb(c, r.data).0.Some?
    ensures !result.0.StatusCode?
  {
    var (location, c1) := cb(c, r.data);
    match location
    case Some(l) => (True, AddHeader(c1, "Location", [Basic(l)]))
    case None => (False, c1)
  }

  /** `allow_missing_post`: when it allows the POST, the resource counts as new. */
  function MissingPost(c: ContextState, r: Resource): (result: (DecisionResult, ContextState))
    ensures result.0.True? <==> r.allowMissingPost(c, r.data).0
    ensures !result.0.StatusCode?
    ensures result.1.newResource == (r.allowMissingPost(c, r.data).0 || r.allowMissingPost(c, r.data).1.newResource)
  {
    var (allowed, c1) := r.allowMissingPost(c, r.data);
    if allowed then (True, c1.(newResource := true))
    else (False, c1)
  }

  // A resource that does not exist (I7 to N5), and the redirects and conflicts on the way.
  /** PUT, previous existence and POST to a missing resource (I7 to M5). */
  function DecideMissingResource(d: Decision, c: ContextState, r: Resource): (result: (DecisionResult, ContextState))
    ensures !result.0.StatusCode?
  {
    if d == I7Put then
      if IsPut(c.request) then (True, c.(newResource := true))
      else (False, c)
    else if d == K7ResourcePreviouslyExisted then AskWrapped(r.previouslyExisted, c, r)
    else if d == L7Post then (Wrap(IsPost(c.request)), c)
    else if d == M5Post then (Wrap(IsPost(c.request)), c)
    else (False, c)
  }

  /** Permanent and temporary moves (I4, K5, L5). */
  function DecideMoved(d: Decision, c: ContextState, r: Resource): (result: (DecisionResult, ContextState))
    ensures !result.0.StatusCode?
  {
    if d == I4HasMovedPermanently then
      Moved(r.movedPermanently, c, r)
    else if d == K5HasMovedPermanently then
      Moved(r.movedPermanently, c, r)
    else if d == L5HasMovedTemporarily then
      Moved(r.movedTemporarily, c, r)
    else (False, c)
  }

  /** POST to a missing resource and conflicts (M7, N5, P3). */
  function DecidePostToMissing(d: Decision, c: ContextState, r: Resource): (result: (DecisionResult, ContextState))
    ensures !result.0.StatusCode?
  {
    if d == M7PostToMissingResource then MissingPost(c, r)
    else if d == N5PostToMissingResource then MissingPost(c, r)
    else if d == P3Conflict then AskWrapped(r.isConflict, c, r)
    else (False, c)
  }

  function DecideMissing(d: Decision, c: ContextState, r: Resource): (result: (DecisionResult, ContextState))
    ensures !result.0.StatusCode?
  {
    if d == I7Put || d == K7ResourcePreviouslyExisted || d == L7Post || d == M5Post then
      DecideMissingResource(d, c, r)
    else if d == I4HasMovedPermanently || d == K5HasMovedPermanently || d == L5HasMovedTemporarily then
      DecideMoved(d, c, r)
    else if d == M7PostToMissingResource || d == N5PostToMissingResource || d == P3Conflict then
      DecidePostToMissing(d, c, r)
    else (False, c)
  }

  /**
   * N11 for a POST that creates: `create_path` names the new resource, which
   * becomes the request path and, under the base path, the Location header.
   */
  function CreatePath(c: ContextState, r: Resource): (result: (DecisionResult, ContextState))
    ensures result.0.StatusCode? <==> r.createPath(c, r.data).0.Err?
    ensures r.createPath(c, r.data).0.Ok? ==>
      var (path, c1) := (r.createPath(c, r.data).0.value, r.createPath(c, r.data).1);
      result.1.request.requestPath == path
      && "Location" in result.1.response.headers
      && result.1.response.headers["Location"] == [Basic(JoinPaths(SanitisePath(c1.request.basePath), SanitisePath(path)))]
      && result.1.redirect == c1.redirect
      && (result.0.True? <==> c1.redirect)
    ensures r.createPath(c, r.data).0.Err? ==> result.1 == r.createPath(c, r.data).1
  {
    var (created, c1) := r.createPath(c, r.data);
    match created
    case Ok(path) =>
      var location := JoinPaths(SanitisePath(c1.request.basePath), SanitisePath(path));
      var c2 := AddHeader(c1.(request := c1.request.(requestPath := path)), "Location", [Basic(location)]);
      (Wrap(c2.redirect), c2)
    case Err(status) => (StatusCode(status), c1)
  }

  // The methods that change the resource, M16 to P11, and the choice of a final 2xx or 300.
  /** DELETE (M16, M20). */
  function DecideDelete(d: Decision, c: ContextState, r: Resource): (result: (DecisionResult, ContextState))
    ensures result.0.StatusCode? ==> d == M20DeleteEnacted
  {
    if d == M16Delete then (Wrap(IsDelete(c.request)), c)
    else if d == M20DeleteEnacted then
      var (deleted, c1) := r.deleteResource(c, r.data);
      (match deleted
       case Ok(done) => (Wrap(done), c1)
       case Err(status) => (StatusCode(status), c1))
    else (False, c)
  }

  /** POST (N16, N11). */
  function DecidePost(d: Decision, c: ContextState, r: Resource): (result: (DecisionResult, ContextState))
    ensures result.0.StatusCode? ==> d == N11Redirect
  {
    if d == N16Post then (Wrap(IsPost(c.request)), c)
    else if d == N11Redirect then
      var (create, c1) := r.postIsCreate(c, r.data);
      if create then CreatePath(c1, r)
      else
        var (processed, c2) := r.processPost(c1, r.data);
        (match processed
         case Ok(_) => (Wrap(c2.redirect), c2)
         case Err(status) => (StatusCode(status), c2))
    else (False, c)
  }

  /** PUT and conflicts (O16, O14, P11). */
  function DecidePut(d: Decision, c: ContextState, r: Resource): (result: (DecisionResult, ContextState))
    ensures result.0.StatusCode? ==> d == P11NewResource
  {
    if d == O16Put then (Wrap(IsPut(c.request)), c)
    else if d == O14Conflict then AskWrapped(r.isConflict, c, r)
    else if d == P11NewResource then
      if IsPut(c.request) then
        var (put, c1) := r.processPut(c, r.data);
        (match put
         case Ok(_) => (Wrap(c1.newResource), c1)
         case Err(status) => (StatusCode(status), c1))
      else (Wrap(c.newResource), c)
    else (False, c)
  }

  /** Body and multiple representations (O20, O18). */
  function DecideRepresentation(d: Decision, c: ContextState, r: Resource): (result: (DecisionResult, ContextState))
    ensures !result.0.StatusCode?
  {
    if d == O20ResponseHasBody then (Wrap(HasBody(c.response)), c)
    else if d == O18MultipleRepresentations then AskWrapped(r.multipleChoices, c, r)
    else (False, c)
  }

  function DecideWrite(d: Decision, c: ContextState, r: Resource): (result: (DecisionResult, ContextState))
    ensures result.0.StatusCode? ==> d in {M20DeleteEnacted, N11Redirect, P11NewResource}
  {
    if d == M16Delete || d == M20DeleteEnacted then
      DecideDelete(d, c, r)
    else if d == N16Post || d == N11Redirect then
      DecidePost(d, c, r)
    else if d == O16Put || d == O14Conflict || d == P11NewResource then
      DecidePut(d, c, r)
    else if d == O20ResponseHasBody || d == O18MultipleRepresentations then
      DecideRepresentation(d, c, r)
    else (False, c)
  }

  /** The part of the flowchart a node belongs to; `Start` and the terminal nodes ask nothing. */
  datatype Phase = Gates | Negotiation | Preconditions | Missing | Writes | Unasked

  function PhaseOf(d: Decision): Phase {
    match d
    case B3Options => Gates
    case B4RequestEntityTooLarge => Gates
    case B5UnknownContentType => Gates
    case B6UnsupportedContentHeader => Gates
    case B7Forbidden => Gates
    case B8Authorized => Gates
    case B9MalformedRequest => Gates
    case B10MethodAllowed => Gates
    case B11UriTooLong => Gates
    case B12KnownMethod => Gates
    case B13Available => Gates
    case C3AcceptExists => Negotiation
    case C4AcceptableMediaTypeAvailable => Negotiation
    case D4AcceptLanguageExists => Negotiation
    case D5AcceptableLanguageAvailable => Negotiation
    case E5AcceptCharsetExists => Negotiation
    case E6AcceptableCharsetAvailable => Negotiation
    case F6AcceptEncodingExists => Negotiation
    case F7AcceptableEncodingAvailable => Negotiation
    case G7ResourceExists => Preconditions
    case G8IfMatchExists => Preconditions
    case G9IfMatchStarExists => Preconditions
    case G11EtagInIfMatch => Preconditions
    case H7IfMatchStarExists => Preconditions
    case H10IfUnmodifiedSinceExists => Preconditions
    case H11IfUnmodifiedSinceValid => Preconditions
    case H12LastModifiedGreaterThanUMS => Preconditions
    case I12IfNoneMatchExists => Preconditions
    case I13IfNoneMatchStarExists => Preconditions
    case J18GetHead => Preconditions
    case K13ETagInIfNoneMatch => Preconditions
    case L13IfModifiedSinceExists => Preconditions
    case L14IfModifiedSinceValid => Preconditions
    case L15IfModifiedSinceGreaterThanNow => Preconditions
    case L17IfLastModifiedGreaterThanMS => Preconditions
    case I7Put => Missing
    case I4HasMovedPermanently => Missing
    case K5HasMovedPermanently => Missing
    case K7ResourcePreviouslyExisted => Missing
    case L5HasMovedTemporarily => Missing
    case L7Post => Missing
    case M5Post => Missing
    case M7PostToMissingResource => Missing
    case N5PostToMissingResource => Missing
    case P3Conflict => Missing
    case M16Delete => Writes
    case M20DeleteEnacted => Writes
    case N16Post => Writes
    case N11Redirect => Writes
    case O16Put => Writes
    case O14Conflict => Writes
    case P11NewResource => Writes
    case O20ResponseHasBody => Writes
    case O18MultipleRepresentations => Writes
    case Start => Unasked
    case End(_) => Unasked
    case A3Options => Unasked
  }

  /**
   * `execute_decision`: a node's answer and the context it leaves. Only the
   * DELETE, POST and PUT callbacks can end the traversal with a status of
   * their own; L14 answering true has recorded the date L15 reads.
   */
  function Decide(d: Decision, c: ContextState, r: Resource, env: Env): (result: (DecisionResult, ContextState))
    requires CanDecide(d, c)
    ensures result.0.StatusCode? ==> d in {M20DeleteEnacted, N11Redirect, P11NewResource}
    ensures d == L14IfModifiedSinceValid && result.0.True? ==> result.1.ifModifiedSince.Some?
  {
    match PhaseOf(d)
    case Gates => DecideGate(d, c, r, env)
    case Negotiation => DecideNegotiation(d, c, r, env)
    case Preconditions => DecidePrecondition(d, c, r, env)
    case Missing => DecideMissing(d, c, r)
    case Writes => DecideWrite(d, c, r)
    case Unasked => DecideWrite(d, c, r)
  }

  // Each node is answered by its phase's function.

  lemma DecideGates(d: Decision, c: ContextState, r: Resource, env: Env)
    requires PhaseOf(d) == Gates
    ensures Decide(d, c, r, env) == DecideGate(d, c, r, env)
  {
  }

  lemma DecideNegotiations(d: Decision, c: ContextState, r: Resource, env: Env)
    requires PhaseOf(d) == Negotiation
    ensures Decide(d, c, r, env) == DecideNegotiation(d, c, r, env)
  {
  }

  lemma DecidePreconditions(d: Decision, c: ContextState, r: Resource, env: Env)
    requires PhaseOf(d) == Preconditions && CanDecide(d, c)
    ensures Decide(d, c, r, env) == DecidePrecondition(d, c, r, env)
  {
  }

  lemma DecideMissings(d: Decision, c: ContextState, r: Resource, env: Env)
    requires PhaseOf(d) == Missing
    ensures Decide(d, c, r, env) == DecideMissing(d, c, r)
  {
  }

  lemma DecideWrites(d: Decision, c: ContextState, r: Resource, env: Env)
    requires PhaseOf(d) == Writes
    ensures Decide(d, c, r, env) == DecideWrite(d, c, r)
  {
  }
}
