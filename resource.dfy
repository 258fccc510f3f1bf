/**
 * The resource record (`resource.rs`): the lists a resource declares and
 * the callbacks the engine consults. A callback receives the context and
 * may change it before answering, so it is modelled as a function from the
 * context's state to its answer and the state it leaves; it sees the
 * resource's declared lists (not the other callbacks).
 */
module Resources {
  import opened Wrappers
  import opened Enums
  import opened Responses
  import opened Contexts

  /** The non-callback part of a resource. */
  datatype ResourceData = ResourceData(
    knownMethods: seq<string>,
    allowedMethods: seq<string>,
    acceptableContentTypes: seq<string>,
    produces: seq<string>,
    languagesProvided: seq<string>,
    charsetsProvided: seq<string>,
    encodingsProvided: seq<string>,
    variances: seq<string>)

  type Callback<T> = (ContextState, ResourceData) -> (T, ContextState)

  /** Dates (last modified, expiry) are seconds on one time line. */
  datatype Resource = Resource(
    data: ResourceData,
    finaliseResponse: Option<Callback<()>>,
    renderResponse: Callback<Option<string>>,
    available: Callback<bool>,
    uriTooLong: Callback<bool>,
    malformedRequest: Callback<bool>,
    notAuthorized: Callback<Option<string>>,
    forbidden: Callback<bool>,
    unsupportedContentHeaders: Callback<bool>,
    validEntityLength: Callback<bool>,
    finishRequest: Callback<()>,
    options: Callback<Option<map<string, seq<string>>>>,
    resourceExists: Callback<bool>,
    previouslyExisted: Callback<bool>,
    movedPermanently: Callback<Option<string>>,
    movedTemporarily: Callback<Option<string>>,
    isConflict: Callback<bool>,
    allowMissingPost: Callback<bool>,
    generateEtag: Callback<Option<string>>,
    lastModified: Callback<Option<int>>,
    deleteResource: Callback<Result<bool, u16>>,
    postIsCreate: Callback<bool>,
    processPost: Callback<Result<bool, u16>>,
    createPath: Callback<Result<string, u16>>,
    processPut: Callback<Result<bool, u16>>,
    multipleChoices: Callback<bool>,
    expires: Callback<Option<int>>)

  /** A callback that answers `v` and leaves the context alone. */
  function Always<T>(v: T): Callback<T> {
    (c: ContextState, d: ResourceData) => (v, c)
  }

  function DefaultData(): ResourceData {
    ResourceData(
      ["OPTIONS", "GET", "POST", "PUT", "DELETE", "HEAD", "TRACE", "CONNECT", "PATCH"],
      ["OPTIONS", "GET", "HEAD"],
      ["application/json"],
      ["application/json"],
      [], [], ["identity"], [])
  }

  /**
   * `Resource::default`: the standard lists; a resource that is available,
   * exists and accepts any entity length, and answers no or nothing to every
   * other question; DELETE and PUT succeed, POST is processed without
   * creating, `create_path` answers the current request path, OPTIONS
   * answers the CORS headers and `finish_request` adds them.
   */
  function DefaultResource(): (r: Resource)
    ensures r.data.knownMethods == ["OPTIONS", "GET", "POST", "PUT", "DELETE", "HEAD", "TRACE", "CONNECT", "PATCH"]
    ensures r.data.allowedMethods == ["OPTIONS", "GET", "HEAD"]
    ensures r.data.acceptableContentTypes == ["application/json"] && r.data.produces == ["application/json"]
    ensures r.data.languagesProvided == [] && r.data.charsetsProvided == []
    ensures r.data.encodingsProvided == ["identity"] && r.data.variances == []
    ensures r.finaliseResponse.None?
    ensures forall c, d :: r.available(c, d) == (true, c) && r.resourceExists(c, d) == (true, c)
    ensures forall c, d :: r.validEntityLength(c, d) == (true, c)
    ensures forall c, d ::
      r.uriTooLong(c, d) == (false, c) && r.malformedRequest(c, d) == (false, c)
      && r.forbidden(c, d) == (false, c) && r.unsupportedContentHeaders(c, d) == (false, c)
      && r.previouslyExisted(c, d) == (false, c) && r.isConflict(c, d) == (false, c)
      && r.allowMissingPost(c, d) == (false, c) && r.postIsCreate(c, d) == (false, c)
      && r.multipleChoices(c, d) == (false, c)
    ensures forall c, d ::
      r.notAuthorized(c, d) == (None, c) && r.movedPermanently(c, d) == (None, c)
      && r.movedTemporarily(c, d) == (None, c) && r.generateEtag(c, d) == (None, c)
      && r.lastModified(c, d) == (None, c) && r.expires(c, d) == (None, c)
      && r.renderResponse(c, d) == (None, c)
    ensures forall c, d ::
      r.deleteResource(c, d) == (Ok(true), c) && r.processPost(c, d) == (Ok(false), c)
      && r.processPut(c, d) == (Ok(true), c)
    ensures forall c, d :: r.createPath(c, d) == (Ok(c.request.requestPath), c)
    ensures forall c, d :: r.options(c, d) == (Some(CorsHeaders(d.allowedMethods)), c)
    ensures forall c, d ::
      r.finishRequest(c, d) == ((), c.(response := WithHeaders(c.response, CorsHeaders(d.allowedMethods))))
  {
    Resource(
      DefaultData(),
      None,
      Always(None),
      Always(true),
      Always(false),
      Always(false),
      Always(None),
      Always(false),
      Always(false),
      Always(true),
      (c: ContextState, d: ResourceData) => ((), c.(response := WithHeaders(c.response, CorsHeaders(d.allowedMethods)))),
      (c: ContextState, d: ResourceData) => (Some(CorsHeaders(d.allowedMethods)), c),
      Always(true),
      Always(false),
      Always(None),
      Always(None),
      Always(false),
      Always(false),
      Always(None),
      Always(None),
      Always(Ok(true)),
      Always(false),
      Always(Ok(false)),
      (c: ContextState, d: ResourceData) => (Ok(c.request.requestPath), c),
      Always(Ok(true)),
      Always(false),
      Always(None))
  }
}
