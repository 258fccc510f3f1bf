/**
 * The state threaded through a traversal (`context/mod.rs`): the request,
 * the response under construction, what negotiation selected, the parsed
 * conditional dates, and flags the callbacks may set. `ContextState` is its
 * value; `Context` is the object the engine updates in place.
 */
module Contexts {
  import opened Wrappers
  import opened Requests
  import opened Responses

  datatype ContextState = ContextState(
    request: Request,
    response: ResponseState,
    selectedMediaType: Option<string>,
    selectedLanguage: Option<string>,
    selectedCharset: Option<string>,
    selectedEncoding: Option<string>,
    ifUnmodifiedSince: Option<int>,
    ifModifiedSince: Option<int>,
    redirect: bool,
    newResource: bool,
    metadata: map<string, string>)

  /** `Context::default`: the default request and response, nothing selected or parsed, flags off. */
  function DefaultContext(): (c: ContextState)
    ensures c.request == DefaultRequest() && c.response == DefaultResponse()
    ensures c.selectedMediaType.None? && c.selectedLanguage.None?
    ensures c.selectedCharset.None? && c.selectedEncoding.None?
    ensures c.ifUnmodifiedSince.None? && c.ifModifiedSince.None?
    ensures !c.redirect && !c.newResource && c.metadata == map[]
  {
    ContextState(DefaultRequest(), DefaultResponse(), None, None, None, None, None, None, false, false, map[])
  }

  /** The context object; its response is an object of its own, never replaced. */
  class Context {
    var request: Request
    const response: Response
    var selectedMediaType: Option<string>
    var selectedLanguage: Option<string>
    var selectedCharset: Option<string>
    var selectedEncoding: Option<string>
    var ifUnmodifiedSince: Option<int>
    var ifModifiedSince: Option<int>
    var redirect: bool
    var newResource: bool
    var metadata: map<string, string>

    function Value(): ContextState
      reads this, response
    {
      ContextState(request, response.Value(), selectedMediaType, selectedLanguage, selectedCharset,
        selectedEncoding, ifUnmodifiedSince, ifModifiedSince, redirect, newResource, metadata)
    }

    /** A context for `request` with every other part at its default, as a dispatcher builds it. */
    constructor (request: Request)
      ensures Value() == DefaultContext().(request := request)
      ensures fresh(response)
    {
      this.request := request;
      response := new Response();
      selectedMediaType := None;
      selectedLanguage := None;
      selectedCharset := None;
      selectedEncoding := None;
      ifUnmodifiedSince := None;
      ifModifiedSince := None;
      redirect := false;
      newResource := false;
      metadata := map[];
    }

    /** Writes a state back, as after a callback that was given the context mutably. */
    method Restore(s: ContextState)
      modifies this, response
      ensures Value() == s
    {
      request := s.request;
      response.Set(s.response);
      selectedMediaType := s.selectedMediaType;
      selectedLanguage := s.selectedLanguage;
      selectedCharset := s.selectedCharset;
      selectedEncoding := s.selectedEncoding;
      ifUnmodifiedSince := s.ifUnmodifiedSince;
      ifModifiedSince := s.ifModifiedSince;
      redirect := s.redirect;
      newResource := s.newResource;
      metadata := s.metadata;
    }
  }
}
