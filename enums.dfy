/**
 * The nodes of the webmachine v3 decision graph, the shape of its edges and
 * the answer a node gives (`enums.rs`).
 */
module Enums {
  /** The engine gives up after this many transitions. */
  const MaxStateMachineTransitions: nat := 100

  /** An HTTP status code as the source stores it. */
  newtype u16 = x: int | 0 <= x < 0x1_0000

  datatype Decision =
    | Start
    | End(code: u16)
    | A3Options
    | B3Options
    | B4RequestEntityTooLarge
    | B5UnknownContentType
    | B6UnsupportedContentHeader
    | B7Forbidden
    | B8Authorized
    | B9MalformedRequest
    | B10MethodAllowed
    | B11UriTooLong
    | B12KnownMethod
    | B13Available
    | C3AcceptExists
    | C4AcceptableMediaTypeAvailable
    | D4AcceptLanguageExists
    | D5AcceptableLanguageAvailable
    | E5AcceptCharsetExists
    | E6AcceptableCharsetAvailable
    | F6AcceptEncodingExists
    | F7AcceptableEncodingAvailable
    | G7ResourceExists
    | G8IfMatchExists
    | G9IfMatchStarExists
    | G11EtagInIfMatch
    | H7IfMatchStarExists
    | H10IfUnmodifiedSinceExists
    | H11IfUnmodifiedSinceValid
    | H12LastModifiedGreaterThanUMS
    | I4HasMovedPermanently
    | I12IfNoneMatchExists
    | I13IfNoneMatchStarExists
    | I7Put
    | J18GetHead
    | K5HasMovedPermanently
    | K7ResourcePreviouslyExisted
    | K13ETagInIfNoneMatch
    | L5HasMovedTemporarily
    | L7Post
    | L13IfModifiedSinceExists
    | L14IfModifiedSinceValid
    | L15IfModifiedSinceGreaterThanNow
    | L17IfLastModifiedGreaterThanMS
    | M5Post
    | M7PostToMissingResource
    | M16Delete
    | M20DeleteEnacted
    | N5PostToMissingResource
    | N11Redirect
    | N16Post
    | O14Conflict
    | O16Put
    | O18MultipleRepresentations
    | O20ResponseHasBody
    | P3Conflict
    | P11NewResource
  {
    /** A terminal node ends the traversal: an explicit status, or the OPTIONS answer. */
    predicate IsTerminal() {
      End? || A3Options?
    }
  }

  /** An edge of the graph: unconditional, or on the node's true/false answer. */
  datatype Transition = To(next: Decision) | Branch(onTrue: Decision, onFalse: Decision)

  /**
   * What a node answers: yes, no, or a status that ends the traversal. The
   * reason text the source attaches to yes and no is only ever logged.
   */
  datatype DecisionResult = True | False | StatusCode(code: u16)

  /** `DecisionResult::wrap`: the boolean as an answer, never a status. */
  function Wrap(result: bool): (r: DecisionResult)
    ensures r.True? <==> result
    ensures r.False? <==> !result
    ensures !r.StatusCode?
  {
    if result then True else False
  }
}
