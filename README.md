# webmachine, in Dafny

A model of the core of `ux-webmachine`, a Rust port of Erlang's webmachine.
An HTTP request is answered by walking the webmachine decision graph.
The graph has nodes B13 to O18. Each node asks the resource one question, such
as "is the service available?" or "does the entity tag match If-Match?". The
answer picks the next node, until a node ends the walk with a status code.
The pieces modelled are:

- the request, response and context records, and the resource with its
  callbacks and lists (`request.dfy`, `response.dfy`, `context.dfy`,
  `resource.dfy`, `enums.dfy`);
- content negotiation over Accept, Accept-Language, Accept-Charset and
  Accept-Encoding, with q-values (`weights.dfy`, `mediatype.dfy`,
  `medialanguage.dfy`, `charset.dfy`, `encoding.dfy`, `negotiation.dfy`);
- the transition map, the answer of each node, the state machine loop and
  the finalisation of the response (`decisions.dfy`, `machine.dfy`,
  `finalise.dfy`);
- what the walk does at each node and along each conditional-request path
  (`flowchart.dfy`);
- path handling, header parsing and the query string (`paths.dfy`,
  `query.dfy`);
- the dispatcher that picks the longest matching route (`dispatcher.dfy`);
- the typed cache (`cache.dfy`).

The state the source changes in place is modelled with classes:

- `Responses.Response` has the status, headers and body fields that
  `add_header` and friends update.
- `Contexts.Context` holds the request, the response and the values the
  negotiation and conditional nodes record.
- `Caches.HashCache` holds the cache's map.

Every method on these classes is proved against a function on the class's
value: `ResponseState`, `ContextState` or the map. The methods are the state
machine loop, each node's step, finalisation and dispatch. Those functions
(`Decide`, `RunFrom`, `StateMachine`, `Finalise`, `Dispatch`) carry the
properties.

A callback is a function from the context's state and the resource's data
to an answer and a new context state. The context state is how the Rust
closure, given `&mut Context`, may change the context.

Some outside parts are given to the engine as parameters (`Env`):

- the clock (`now`);
- RFC 2822 date parsing and formatting;
- `HeaderValue::parse_string`.

The cache's hash function is a parameter of its constructor.

The walk follows the flowchart of webmachine's HTTP 1.1 diagram. Its
conditional requests follow sections 14.24 to 14.28 of RFC 2616.
Negotiation follows sections 14.1 to 14.4 of RFC 2616, as the code reads
them.

## Model

| member | source | states |
|---|---|---|
| Requests.DefaultRequest | src/context/request.rs:24-33 | the default request is a GET of `/` with base path `/`, no headers, no body and no query |
| Requests.FindEntry | src/context/request.rs:138-147 | the values of the first header whose name equals the asked name ignoring case; none exactly when no header name matches |
| Requests.HeaderLookups | src/context/request.rs:129-168 | `has_header` and `find_header` ignore the case of the name; `has_header_value` holds exactly when the header is present and one of its values is the asked value; an absent header has no values |
| Requests.EmptyHeaderHasNoValue | src/context/request.rs:187-195 | a header listed with no values is present, yet `has_header_value` fails for every value |
| Responses.DefaultResponse | src/context/response.rs:19-25 | the default response is 200 with no header and no body |
| Responses.WithHeaderFacts | src/context/response.rs:28-38 | after `add_header` the header is found in any case and holds exactly the new values; status, body and every other header are unchanged |
| Responses.BasicTable | src/context/response.rs:41-46 | `add_headers` inserts every entry under its own name, each value as a plain header value |
| Responses.CorsHeadersAdded | src/context/response.rs:49-63 | `add_cors_headers` adds exactly the three CORS headers, the allowed methods in the order given, and leaves every other header, the status and the body as they were |
| Responses.CorsOriginFound | src/context/response.rs:49-54 | after `add_cors_headers` the allowed-origin header is found when asked for in lower case |
| Responses.Response.constructor | src/context/response.rs:19-25 | a new response object holds the default response |
| Responses.Response.SetStatus | src/lib.rs:752-753 | only the status changes |
| Responses.Response.AddHeader | src/context/response.rs:36-38 | the response afterwards is the old one with the header's list replaced |
| Responses.Response.AddHeaders | src/context/response.rs:41-46 | the response afterwards is the old one with every entry of the table inserted |
| Responses.Response.AddCorsHeaders | src/context/response.rs:49-54 | the response afterwards is the old one with the three CORS headers inserted |
| Contexts.DefaultContext | src/context/mod.rs:42-56 | the default context has the default request and response, nothing selected or parsed, the flags off and no metadata |
| Contexts.Context.constructor | src/dispatcher.rs:23-30 | a context built for a request holds that request and the default everything else, with a fresh response object |
| Resources.DefaultResource | src/resource.rs:155-205 | the default lists and the default answer of every callback: available, exists, valid length; no to every other question; DELETE and PUT succeed; POST processed without creating; OPTIONS answers the CORS headers; no finalising hook |
| Enums.Wrap | src/enums.rs:87-93 | a boolean wraps into True or False, never into a status code |
| Weights.UnsignedWeight | src/content_negotiation/mediatype.rs:51-57 | digits alone give that many thousands; text without a point that is not all digits does not parse |
| Weights.DottedWeight | src/content_negotiation/mediatype.rs:51-57 | the usual q-value `whole.frac` (also `.5` and `1.`) weighs the whole part in thousands plus a fraction of up to three digits scaled to thousandths, so `0.5` weighs 500 |
| Weights.LongFractionTruncated | src/content_negotiation/mediatype.rs:51-57 | fraction digits past the third do not change the weight |
| Weights.ParseWeight | src/content_negotiation/mediatype.rs:51-57 | a q-value parses as its value in thousandths with an optional sign; a weight is negative only for text beginning with `-`; unparsable text weighs 1000 |
| Weights.ParseWeightExamples | src/content_negotiation/mediatype.rs:51-57 | `0.d` weighs d tenths (100 d thousandths); `1`, `0`, `1.0` and `-1` weigh 1000, 0, 1000 and -1000; `high` weighs 1000 |
| MediaTypes.ParseString | src/content_negotiation/mediatype.rs:29-49 | weight 1 always; empty text or text starting with `/` gives `*/*`; text without `/` gives `text/*`; otherwise the main type is the text before the first `/` and the subtype the rest, `*` when the rest is empty |
| MediaTypes.WithWeight | src/content_negotiation/mediatype.rs:51-57 | the type is kept and the weight is the parsed q-value |
| MediaTypes.MatchesStar | src/content_negotiation/mediatype.rs:71-81 | the match is a wild card exactly when the acceptable main type is `*`; a subtype wild card exactly when the main types agree and the acceptable subtype is `*`; full exactly when both parts agree without wild cards |
| MediaTypes.ParseToString | src/content_negotiation/mediatype.rs:29-86 | printing then parsing a media type gives it back at weight 1 |
| MediaTypes.ToStringParse | src/content_negotiation/mediatype.rs:29-86 | parsing then printing gives back any text `type/subtype` |
| MediaLanguages.ParseString | src/content_negotiation/medialanguage.rs:16-35 | weight 1 always; empty text or text starting with `-` gives main `*` with no subtag; text without `-` is the main part alone; otherwise the main part is the text before the first `-` and the subtag the rest, empty for a trailing `-` |
| MediaLanguages.WithWeight | src/content_negotiation/medialanguage.rs:38-44 | the language is kept and the weight is the parsed q-value |
| MediaLanguages.ParseToString | src/content_negotiation/medialanguage.rs:16-63 | printing then parsing a language gives it back at weight 1 |
| MediaLanguages.MatchesSelf | src/content_negotiation/medialanguage.rs:47-54 | every language meets itself |
| MediaLanguages.PrefixMatches | src/content_negotiation/medialanguage.rs:47-54 | `en` is met by an acceptable `en-gb`, `e` is not (the prefix must end at `-`), and `en` does not meet `dn` |
| Charsets.ParseString | src/content_negotiation/charset.rs:12-17 | the name as given at weight 1 |
| Charsets.WithWeight | src/content_negotiation/charset.rs:20-25 | the name is kept and the weight is the parsed q-value |
| Charsets.StarMatchesOnlyStar | src/content_negotiation/charset.rs:28-30 | a provided `*` is met only by an acceptable `*`: the wild card counts only on the acceptable side |
| Charsets.MatchesIgnoresCase | src/content_negotiation/charset.rs:28-30 | matching is symmetric for names other than `*`, ignores weights, and ignores case |
| Encodings.ParseString | src/content_negotiation/encoding.rs:12-17 | the name as given at weight 1 |
| Encodings.WithWeight | src/content_negotiation/encoding.rs:20-25 | the name is kept and the weight is the parsed q-value |
| Encodings.MatchesIgnoresCase | src/content_negotiation/encoding.rs:28-30 | matching is symmetric for names other than `*`, ignores weights, and ignores case |
| ContentNegotiation.SortMediaTypesOrder | src/content_negotiation/mod.rs:25-43 | the sort is a permutation of the entries; heavier entries come first, then a full type before a subtype wild card before `*/*`; entries with equal keys keep the header's order |
| ContentNegotiation.ChooseIsPreferred | src/content_negotiation/mod.rs:47-74 | pairing every produced type with every acceptable entry, sorting the pairs by match kind and taking the first match chooses the first produced type reaching the best match kind any produced type reaches; none when nothing matches |
| ContentNegotiation.PreferredPermutation | src/content_negotiation/mod.rs:47-74 | the preferred choice depends only on which acceptable entries there are, not on their order |
| ContentNegotiation.MatchingContentTypePrefers | src/content_negotiation/mod.rs:47-74 | with an Accept header, `matching_content_type` chooses the preferred type over the header's entries as given: the weight sort does not change which type wins |
| ContentNegotiation.SortMediaLanguagesOrder | src/content_negotiation/mod.rs:77-89 | the entries weighted above 0 are kept, each as often as in the header (the multisets agree), heaviest first, and entries of equal weight keep the header's order; nothing else is in the result |
| ContentNegotiation.MatchingLanguageNone | src/content_negotiation/mod.rs:93-120 | with a non-empty Accept-Language and provided languages, nothing is chosen exactly when no provided language meets any acceptable entry |
| ContentNegotiation.MatchingLanguageChoice | src/content_negotiation/mod.rs:93-120 | the chosen language is a provided one meeting an acceptable entry of positive weight; no earlier entry is met by any provided language; no earlier provided language meets that entry |
| ContentNegotiation.SortMediaCharsetsOrder | src/content_negotiation/mod.rs:126-145 | every header entry weighted above 0 is kept, with ISO-8859-1 at weight 1 appended unless the header names it or `*`; each as often as it occurs (the multisets agree), heaviest first, entries of equal weight in header order, and every weight positive |
| ContentNegotiation.MatchingCharsetNone | src/content_negotiation/mod.rs:149-176 | with a non-empty Accept-Charset and provided charsets, nothing is chosen exactly when no provided charset meets any acceptable entry |
| ContentNegotiation.MatchingCharsetChoice | src/content_negotiation/mod.rs:149-176 | the chosen charset is a provided one meeting an acceptable entry of positive weight; no earlier entry is met; no earlier provided charset meets that entry |
| ContentNegotiation.DefaultCharsetAcceptable | src/content_negotiation/mod.rs:126-176 | when the header leaves ISO-8859-1 and `*` unnamed, a resource providing ISO-8859-1 in any case always finds a charset |
| ContentNegotiation.SortEncodingsOrder | src/content_negotiation/mod.rs:182-201 | every header entry weighted above 0 is kept, with `identity` at weight 1 appended unless the header names it or `*`; each as often as it occurs (the multisets agree), heaviest first, entries of equal weight in header order, and every weight positive |
| ContentNegotiation.MatchingEncodingNone | src/content_negotiation/mod.rs:205-237 | with an Accept-Encoding header and provided encodings, nothing is chosen exactly when no provided encoding meets any acceptable entry |
| ContentNegotiation.MatchingEncodingChoice | src/content_negotiation/mod.rs:205-237 | the chosen encoding is a provided one meeting an acceptable entry of positive weight; no earlier entry is met; no earlier provided encoding meets that entry |
| ContentNegotiation.IdentityAcceptableUnlessNamed | src/content_negotiation/mod.rs:182-237 | with no provided encodings, `identity` is chosen whenever the header leaves it and `*` unnamed |
| Paths.SanitisePath | src/lib.rs:186-191 | every segment is non-empty and free of `/` |
| Paths.JoinPaths | src/lib.rs:193-207 | the result starts with `/`, and is exactly `/` when every segment is empty |
| Paths.JoinPathsSegments | src/lib.rs:193-207 | segments joined under the root are `/` followed by the segments separated by `/` |
| Paths.SanitiseRooted | src/lib.rs:186-191 | `sanitise_path` reads back the segments of a rooted path |
| Paths.SanitiseJoin | src/lib.rs:186-207 | `sanitise_path` of `join_paths(base, path)` is `base + path` for segment lists |
| Paths.SanitiseRoot | src/tests.rs:45-51 | `/` and `//` hold no segment |
| Paths.SanitiseSimple | src/tests.rs:45-51 | `/a/b/c` has segments a, b, c |
| Paths.SanitiseRepeated | src/tests.rs:45-51 | repeated and trailing slashes add no segment |
| Paths.UpdatePathsForResource | src/lib.rs:766-779 | the base path becomes the route's path and nothing else but the request path changes; a request path no longer than the base path becomes `/`; otherwise the new path is what follows the base path when that starts with `/`, and that text with a `/` put in front when it does not |
| Paths.UpdatePathsExamples | src/tests.rs:75-114 | the four cases of the source's tests: `/` on `/`, `/subpath` on `/`, `/path` on `/path`, `/path/path2` on `/path` |
| Paths.ParseHeaderValues | src/lib.rs:781-790 | empty text gives no value; otherwise one value per comma-separated piece |
| Paths.ParseJoinedValues | src/lib.rs:781-790 | values free of commas and surrounding white space, joined with commas, are read back one by one |
| Query.DecodeQuery | src/lib.rs:804-845 | the one-pass loop computes the decoding: `+` is a space, `%` and two characters an escape, a short `%` tail is kept |
| Query.DecodedEncoded | src/lib.rs:804-845 | decoding inverts percent-encoding: every text survives the round trip |
| Query.DecodedPlain | src/lib.rs:804-845 | text without `%` or `+` is its own decoding |
| Query.DecodedShort | src/lib.rs:804-845 | a `%` with fewer than two characters after it is kept as written |
| Query.DecodedSpaces | src/tests.rs:1286-1292 | `a%20b%20c` decodes to `a b c` |
| Query.ParseQueryValues | src/lib.rs:847-875 | each decoded name lists the decoded values of the pieces naming it in the order given; names no piece gives are absent; an empty query gives no names |
| Query.ParseEncodedQuery | src/lib.rs:847-875 | any non-empty list of name/value pairs written as an encoded query reads back with each name carrying exactly its values in order |
| Dispatching.MatchPaths | src/dispatcher.rs:32-39 | the matching keys are exactly the routes whose segments begin the request path's segments |
| Dispatching.MatchPathsAscending | src/dispatcher.rs:32-39 | the matching keys come in the route table's ascending order |
| Dispatching.RootMatchesAll | src/dispatcher.rs:32-39 | the root route matches every request |
| Dispatching.RootRequest | src/dispatcher.rs:32-39 | the request for `/` is matched exactly by the routes with no segments |
| Dispatching.WholeSegments | src/tests.rs:18-42 | `/path1` does not match `/path12`, while `/` does |
| Dispatching.SelectRouteLongest | src/dispatcher.rs:49-54 | a route is selected exactly when one matches; it is a longest matching key and the first of that length |
| Dispatching.LookupResource | src/dispatcher.rs:41-43 | a resource is found exactly when the key is in the table |
| Dispatching.NoRouteNotFound | src/dispatcher.rs:47-66 | without a matching route the answer is 404 and nothing else changes |
| Dispatching.RouteDispatched | src/dispatcher.rs:47-66 | with a matching route, the selected key is in the table and matches; the request is re-based on it, run through the state machine and finalised |
| Dispatching.UnmatchedRoot | src/tests.rs:54-62 | a table holding only `/some/path` answers 404 to a request for `/` |
| Dispatching.RunResource | src/dispatcher.rs:57-58 | the context afterwards is the finalised result of the state machine |
| Dispatching.DispatchToResource | src/dispatcher.rs:47-66 | the context afterwards is what `Dispatch` gives for the old context |
| Caches.Unbox | src/cache.rs:85-96 | a stored value is read back exactly when its type is the key's target type |
| Caches.HashCache.constructor | src/cache.rs:60-64 | a new cache is empty |
| Caches.HashCache.Get | src/cache.rs:85-96 | a value is found exactly when the key's slot holds one of the key's target type, and it is that value |
| Caches.HashCache.Save | src/cache.rs:74-83 | the key's slot holds the value, every other slot is unchanged, and `get` then finds it |
| Caches.HashCache.Remove | src/cache.rs:98-110 | answers what `get` answered before, empties the key's slot, and leaves every other slot |
| Caches.HashCache.Clear | src/cache.rs:112-114 | nothing is found afterwards |
| Caches.DummyCache.Get | src/cache.rs:141-147 | never finds anything |
| Caches.DummyCache.Remove | src/cache.rs:149-155 | never finds anything |
| Decisions.TransitionMap | src/lib.rs:209-266 | the map has an entry for exactly the non-terminal nodes |
| Decisions.RankZeroIsTerminal | src/enums.rs:65-71 | rank 0 marks exactly the terminal nodes (an explicit status, or the OPTIONS answer) |
| Decisions.TransitionsDescend | src/lib.rs:209-266 | every edge of the map leads to a node of smaller rank: the graph has no cycle |
| Decisions.OnlyStartIsUnconditional | src/lib.rs:209-266 | only `Start` has an unconditional edge; every other node asks its question |
| Decisions.EtagInHeader | src/lib.rs:269-290 | true exactly when the resource gives an entity tag and some value of the header matches it, a weak tag by its opaque part; the context is what `generate_etag` left |
| Decisions.ValidateHeaderDate | src/lib.rs:292-315 | true exactly when the header's first value parses as a date, which is then recorded; otherwise the record stays |
| Decisions.ModifiedAfter | src/lib.rs:504-518 | true exactly when there is a recorded date and the resource's last-modified date is after it; the resource is asked only when there is a date |
| Decisions.Moved | src/lib.rs:597-608 | true exactly when the `moved_*` callback names a new place |
| Decisions.MissingPost | src/lib.rs:609-619 | true exactly when `allow_missing_post` allows it, and then the resource is marked new |
| Decisions.CreatePath | src/lib.rs:630-653 | an error status from `create_path` is the answer; otherwise the new path becomes the request path and the Location header is it under the base path, and the answer is the redirect flag |
| Decisions.Decide | src/lib.rs:317-685 | only M20, N11 and P11 can answer a status code, and L14 answering true has recorded the date L15 reads |
| Engine.Follow | src/lib.rs:700-737 | an unconditional edge is followed without asking; a branch follows the true or false side, and a status code leads to `End(code)` |
| Engine.Step | src/lib.rs:691-737 | each step from a non-terminal node leads to a node of smaller rank that can still be answered |
| Engine.RunFrom | src/lib.rs:691-749 | the walk always ends at a terminal node |
| Engine.TransitionsBounded | src/lib.rs:691-698 | a walk takes no more transitions than the rank of the node it starts at |
| Engine.NeverExceedsLimit | src/lib.rs:691-698 | from `Start` the walk ends within `MAX_STATE_MACHINE_TRANSITIONS`, so the panic is never reached |
| Engine.Conclude | src/lib.rs:752-763 | `End(code)` sets the status; the OPTIONS answer sets 204 and adds the headers `options` answers; nothing else changes |
| Engine.ExecuteServiceChecks | src/lib.rs:323-363 | B13 to B10 in place leave the context and answer as `Decide` says |
| Engine.ExecuteRequestChecks | src/lib.rs:364-394 | B9 to B6 in place leave the context and answer as `Decide` says |
| Engine.ExecuteEntityChecks | src/lib.rs:395-411 | B5 to B3 in place leave the context and answer as `Decide` says |
| Engine.ExecuteGate | src/lib.rs:323-411 | the B column in place leaves the context and answers as `Decide` says |
| Engine.ExecuteMediaTypeAndLanguage | src/lib.rs:412-442 | C3 to D5 in place record the chosen media type and language as `Decide` says |
| Engine.ExecuteCharsetAndEncoding | src/lib.rs:443-476 | E5 to F7 in place record the chosen charset and encoding as `Decide` says |
| Engine.ExecuteNegotiation | src/lib.rs:412-476 | columns C to F in place leave the context and answer as `Decide` says |
| Engine.EtagMatchesHeader | src/lib.rs:269-290 | the in-place entity-tag check answers and leaves the context as `EtagInHeader` says |
| Engine.ValidateDate | src/lib.rs:292-315 | the in-place date check answers and records as `ValidateHeaderDate` says |
| Engine.CompareLastModified | src/lib.rs:504-518 | the in-place comparison answers and leaves the context as `ModifiedAfter` says |
| Engine.ExecuteIfMatch | src/lib.rs:477-491 | G7 to H7 in place leave the context and answer as `Decide` says |
| Engine.ExecuteIfUnmodifiedSince | src/lib.rs:492-518 | H10 to H12 in place leave the context and answer as `Decide` says |
| Engine.ExecuteIfNoneMatch | src/lib.rs:527-548 | I12 to K13 in place leave the context and answer as `Decide` says |
| Engine.ExecuteIfModifiedSince | src/lib.rs:564-596 | L13 to L17 in place leave the context and answer as `Decide` says |
| Engine.ExecuteMatchConditions | src/lib.rs:477-518 | columns G and H in place leave the context and answer as `Decide` says |
| Engine.ExecuteNoneMatchConditions | src/lib.rs:527-596 | columns I to L in place leave the context and answer as `Decide` says |
| Engine.ExecutePrecondition | src/lib.rs:477-596 | the conditional-request nodes in place leave the context and answer as `Decide` says |
| Engine.AskMoved | src/lib.rs:597-608 | the in-place move check answers and sets Location as `Moved` says |
| Engine.AskMissingPost | src/lib.rs:609-619 | the in-place check answers and marks the resource new as `MissingPost` says |
| Engine.ExecuteMissingResource | src/lib.rs:519-563 | I7, K7, L7 and M5 in place leave the context and answer as `Decide` says |
| Engine.ExecuteMoved | src/lib.rs:549-608 | I4, K5 and L5 in place leave the context and answer as `Decide` says |
| Engine.ExecutePostToMissing | src/lib.rs:609-660 | M7, N5 and P3 in place leave the context and answer as `Decide` says |
| Engine.ExecuteMissing | src/lib.rs:519-660 | the missing-resource nodes in place leave the context and answer as `Decide` says |
| Engine.CreateAtPath | src/lib.rs:630-653 | the in-place creation answers and re-paths the request as `CreatePath` says |
| Engine.ExecuteDelete | src/lib.rs:620-629 | M16 and M20 in place leave the context and answer as `Decide` says |
| Engine.ExecutePost | src/lib.rs:630-653 | N16 and N11 in place leave the context and answer as `Decide` says |
| Engine.ExecutePut | src/lib.rs:654-672 | O16, O14 and P11 in place leave the context and answer as `Decide` says |
| Engine.ExecuteRepresentation | src/lib.rs:673-682 | O20 and O18 in place leave the context and answer as `Decide` says |
| Engine.ExecuteWrite | src/lib.rs:620-682 | the nodes that change the resource, in place, leave the context and answer as `Decide` says |
| Engine.ExecuteDecision | src/lib.rs:317-685 | `execute_decision` in place leaves the context and answers as `Decide` says |
| Engine.ExecuteStateMachine | src/lib.rs:687-764 | the loop leaves the context as the walk from `Start` and its conclusion say, and never reaches the transition limit |
| Finalisation.ContentTypeValue | src/lib.rs:878-893 | the Content-Type written is the selected media type, else `application/json`, with the selected charset, else ISO-8859-1, unquoted |
| Finalisation.WithContentType | src/lib.rs:878-893 | afterwards a Content-Type is always present; one already set in any case is kept, and otherwise only that header is added |
| Finalisation.DefaultContentType | src/lib.rs:878-893 | with nothing selected the Content-Type is `application/json` with charset ISO-8859-1 |
| Finalisation.WithVary | src/lib.rs:895-922 | Vary is written only when there are at least two values, and then holds exactly their first occurrences in order; otherwise nothing changes |
| Finalisation.VariancesInOrder | src/lib.rs:895-922 | two distinct declared variances give a Vary header holding the two in the declared order |
| Lists.UniqueIsFirstOccurrences | src/lib.rs:921 | `unique` keeps exactly the first occurrence of each element, in order, as an independent end-first definition says |
| Finalisation.WithValidators | src/lib.rs:924-954 | only GET and HEAD ask for validators; any other method changes nothing |
| Finalisation.ValidatorsFromAnswers | src/lib.rs:924-954 | with callbacks that only answer, the validators are exactly their answers, quoted, and the status, body and request are untouched |
| Finalisation.WithBody | src/lib.rs:956-963 | only a GET answered 200 with no body yet gets the rendered body, as UTF-8; anything else is left alone and nothing is rendered |
| Finalisation.WithHook | src/lib.rs:965-971 | the resource's finalising hook, when it has one, has the last word |
| Finalisation.FinaliseDefault | src/lib.rs:877-974 | for a resource with the default lists, no validators, no body and no hook, finalising only supplies the Content-Type |
| Finalisation.ApplyContentType | src/lib.rs:878-893 | the response afterwards is as `WithContentType` says |
| Finalisation.ApplyVary | src/lib.rs:895-922 | the response afterwards is as `WithVary` says |
| Finalisation.ApplyValidators | src/lib.rs:924-954 | the context afterwards is as `WithValidators` says |
| Finalisation.ApplyBody | src/lib.rs:956-963 | the context afterwards is as `WithBody` says |
| Finalisation.ApplyHook | src/lib.rs:965-971 | the context afterwards is as `WithHook` says |
| Finalisation.FinaliseResponse | src/lib.rs:877-974 | the context afterwards is as the five steps in order say |
| Flowchart.AtStart | src/lib.rs:211 | the walk from `Start` goes straight to B13 |
| Flowchart.AtB13 | src/lib.rs:360-363 | an unavailable service is 503, otherwise B12 |
| Flowchart.AtB12 | src/lib.rs:352-359 | a method not among the known ones (ignoring case) is 501, otherwise B11 |
| Flowchart.AtB11 | src/lib.rs:348-351 | a URI too long is 414, otherwise B10 |
| Flowchart.AtB10 | src/lib.rs:323-347 | a method not allowed is 405 with an Allow header listing the allowed methods, otherwise B9 |
| Flowchart.AtB9 | src/lib.rs:364-370 | a malformed request is 400, otherwise B8 |
| Flowchart.AtB8 | src/lib.rs:371-383 | an unauthorised request is 401 with the realm as WWW-Authenticate, otherwise B7 |
| Flowchart.AtB7 | src/lib.rs:384-387 | a forbidden request is 403, otherwise B6 |
| Flowchart.AtB6 | src/lib.rs:388-394 | unsupported content headers are 501, otherwise B5 |
| Flowchart.AtB5 | src/lib.rs:395-403 | 415 only for a PUT or POST whose content type is not acceptable, otherwise B4 |
| Flowchart.AtB4 | src/lib.rs:404-410 | 413 only for a PUT or POST of invalid length; other methods are not asked |
| Flowchart.AtB3 | src/lib.rs:411 | OPTIONS ends at the OPTIONS answer, anything else goes on to C3 |
| Flowchart.GatesInOrder | src/lib.rs:323-411 | with callbacks that only answer, the walk stops at the first failing gate in the flowchart's order; an OPTIONS request passing the gates reaches the OPTIONS answer, and any other request passing every gate reaches C3, in both cases with its context untouched |
| Flowchart.OptionsOutcome | src/lib.rs:752-760 | an OPTIONS request passing the gates ends at 204, with the headers `options` answers added to the context it leaves |
| Flowchart.DefaultOptions | src/resource.rs:174-180 | a resource answering as the default one does ends an OPTIONS request at 204 with the three CORS headers, the allowed methods being OPTIONS, GET and HEAD |
| Flowchart.StepG7 | src/lib.rs:477-480 | an existing resource goes to G8, a missing one to H7 |
| Flowchart.StepG8 | src/lib.rs:481-483 | If-Match present goes to G9, otherwise H10 |
| Flowchart.StepG9 | src/lib.rs:484-487 | If-Match holding `*` goes to H10, otherwise G11 |
| Flowchart.StepG11 | src/lib.rs:488-491 | If-Match without the resource's entity tag is 412, otherwise H10 |
| Flowchart.StepH7 | src/lib.rs:484-487 | `If-Match: *` on a missing resource is 412, otherwise I7 |
| Flowchart.StepH10 | src/lib.rs:492-495 | If-Unmodified-Since present goes to H11, otherwise I12 |
| Flowchart.StepH11 | src/lib.rs:496-503 | a valid date is recorded and goes to H12; an invalid one leaves the record and goes to I12 |
| Flowchart.StepH12 | src/lib.rs:504-518 | modified after the date is 412, otherwise I12 |
| Flowchart.StepI12 | src/lib.rs:527-530 | If-None-Match present goes to I13, otherwise L13 |
| Flowchart.StepI13 | src/lib.rs:531-534 | If-None-Match holding `*` goes to J18, otherwise K13 |
| Flowchart.StepJ18 | src/lib.rs:535-537 | GET and HEAD are 304, any other method 412 |
| Flowchart.StepK13 | src/lib.rs:545-548 | the resource's entity tag listed goes to J18, otherwise L13 |
| Flowchart.StepL13 | src/lib.rs:564-567 | If-Modified-Since present goes to L14, otherwise M16 |
| Flowchart.StepL14 | src/lib.rs:568-575 | a valid date is recorded and goes to L15; an invalid one goes to M16 |
| Flowchart.StepL15 | src/lib.rs:576-583 | a date after now goes to M16, otherwise L17 |
| Flowchart.StepL17 | src/lib.rs:584-596 | modified after the date goes to M16, otherwise 304 |
| Flowchart.StepI7 | src/lib.rs:519-526 | a PUT to a missing resource marks it new and goes to I4, otherwise K7 |
| Flowchart.StepI4 | src/lib.rs:597-608 | moved permanently is 301, otherwise P3 |
| Flowchart.StepK7 | src/lib.rs:538-544 | a resource that existed before goes to K5, otherwise L7 |
| Flowchart.StepK5 | src/lib.rs:597-608 | moved permanently is 301, otherwise L5 |
| Flowchart.StepL5 | src/lib.rs:549-560 | moved temporarily is 307, otherwise M5 |
| Flowchart.StepL7 | src/lib.rs:561-563 | a POST goes to M7, anything else is 404 |
| Flowchart.StepM5 | src/lib.rs:561-563 | a POST goes to N5, anything else is 410 |
| Flowchart.StepM7 | src/lib.rs:609-619 | an allowed POST to a missing resource goes to N11, otherwise 404 |
| Flowchart.StepN5 | src/lib.rs:609-619 | an allowed POST to a missing resource goes to N11, otherwise 410 |
| Flowchart.StepP3 | src/lib.rs:654-660 | a conflict is 409, otherwise P11 |
| Flowchart.StepM16 | src/lib.rs:620-622 | a DELETE goes to M20, otherwise N16 |
| Flowchart.StepM20 | src/lib.rs:623-629 | a DELETE not yet enacted is 202, an error status ends the walk there, otherwise O20 |
| Flowchart.StepN16 | src/lib.rs:561-563 | a POST goes to N11, otherwise O16 |
| Flowchart.StepN11 | src/lib.rs:630-653 | a creating POST asks `create_path`, another asks `process_post`; an error status ends the walk, a redirect is 303, otherwise P11 |
| Flowchart.StepO16 | src/lib.rs:672 | a PUT goes to O14, otherwise O18 |
| Flowchart.StepO14 | src/lib.rs:654-660 | a conflict is 409, otherwise P11 |
| Flowchart.StepP11Put | src/lib.rs:661-671 | a PUT is processed first, its error status ending the walk; a new resource is 201, otherwise O20 |
| Flowchart.StepP11Other | src/lib.rs:661-671 | for any other method a new resource is 201, otherwise O20 |
| Flowchart.StepO20 | src/lib.rs:680-682 | a response without a body is 204, otherwise O18 |
| Flowchart.StepO18 | src/lib.rs:673-679 | multiple representations are 300, otherwise 200 |
| Flowchart.IfMatchStarOnMissingResource | src/lib.rs:477-487 | `If-Match: *` on a resource that does not exist is 412 |
| Flowchart.IfMatchEntityTag | src/lib.rs:477-491 | If-Match without `*` on an existing resource is 412 unless it lists the resource's entity tag, else the walk goes on to If-Unmodified-Since |
| Flowchart.EntityTagMatched | src/lib.rs:488-491 | from G11, a listed entity tag goes on to If-Unmodified-Since, otherwise 412 |
| Flowchart.IfNoneMatchStar | src/lib.rs:527-537 | If-None-Match holding `*` is 304 for GET and HEAD and 412 for any other method |
| Flowchart.IfNoneMatchListed | src/lib.rs:527-548 | If-None-Match listing the resource's entity tag is 304 for GET and HEAD and 412 otherwise; if the tag is not listed, If-Modified-Since is next |
| Flowchart.EntityTagNotNoneMatched | src/lib.rs:545-548 | from K13, a listed entity tag is 304 or 412 by method, otherwise If-Modified-Since is next |
| Flowchart.UnparsableDatesSkipped | src/lib.rs:292-315 | a date header without a value or with one that does not parse is skipped |
| Flowchart.IfUnmodifiedSinceOutcome | src/lib.rs:492-518 | a valid If-Unmodified-Since is 412 when the resource was modified after it, otherwise If-None-Match is next |
| Flowchart.IfModifiedSinceValidated | src/lib.rs:564-583 | a valid If-Modified-Since is recorded and compared with now |
| Flowchart.IfModifiedSinceFuture | src/lib.rs:564-583 | a valid If-Modified-Since after now is ignored and DELETE is next |
| Flowchart.IfModifiedSinceOutcome | src/lib.rs:564-596 | a valid If-Modified-Since not after now is 304 unless the resource was modified after it, and 304 when the resource gives no date |
| Flowchart.MissingResourceNotFound | src/lib.rs:519-563 | a missing resource that never existed is 404 for any method but PUT and POST |
| Flowchart.DeleteOutcome | src/lib.rs:623-629 | DELETE is 202 when not yet enacted, the callback's status on an error, and the body check otherwise |
| Flowchart.PostCreateOutcome | src/lib.rs:630-653 | a creating POST re-paths the request and sets Location under the base path; 303 on a redirect, the callback's status on an error |
| Flowchart.PostProcessOutcome | src/lib.rs:630-653 | a POST that does not create is processed; an error status ends the walk, a redirect is 303 |
| Flowchart.PutOutcome | src/lib.rs:654-672 | a PUT to an existing resource is 409 on a conflict before `process_put` is asked; then an error status ends the walk and a new resource is 201 |
| Flowchart.RepresentationOutcome | src/lib.rs:673-682 | no body is 204; with a body, 300 for multiple representations and 200 otherwise |

## Left out

- Decisions.Decide: its own contract states only which nodes can answer a status code and that L14 records its date. What each node answers and records is stated by the `Flowchart.Step*` lemmas, which unfold `Decide` node by node. The per-phase functions it dispatches to (`DecideGate`, `DecideNegotiation`, `DecidePrecondition`, `DecideMissing`, `DecideWrite` and their parts) likewise promise only that no status code is answered.
- Engine.RunFrom: its contract states only that the walk ends at a terminal node. Where a walk ends from each node is stated by the `Flowchart` lemmas.
- Weights.ParseWeight: q-values are integer thousandths, not `f32`. Digits past the third decimal are dropped. Exponent, `inf` and `NaN` text, which Rust's float parser accepts, are treated as unparsable (weight 1000).
- Decisions.EtagInHeader: `HeaderValue::weak_etag` belongs to the headers module, which is not part of this model. It is read as the text after `W/` with its quotes removed. The panic of its `.unwrap()`, when that parser answers none, is not modelled.
- Case folding (`Strings.Upper`, `Strings.Lower`) is ASCII-only, where the source folds with Unicode's `to_uppercase` and `to_lowercase`. The two agree on ASCII text, which covers the standard header and method names. They differ on some names a resource may list: Rust upper-cases `ſ` to `S`, so `known_methods = ["poſt"]` lets a POST through B12, while the model answers 501.
- Flowchart.GatesInOrder: the gate order (and `OptionsOutcome`, `AtB13`, `AtB11`, `AtB9`, `AtB8`, `AtB7`, `AtB6`) is proved only for gate callbacks that leave the context alone. For other callbacks, each node's effect is still given by `Decide` and `Step`.
- `h!` on a fixed token the engine writes itself (`ISO-8859-1`, `identity`, the `Accept*` names in Vary) is read as the plain value, since such a token has no parameters or quotes. Header text that comes from a request or a resource goes through the `HeaderValue::parse_string` parameter.
- Paths.UpdatePathsForResource: lengths are counted in characters, where Rust counts UTF-8 bytes. The two agree on ASCII paths.
- Dispatching.SelectRouteLongest: the sort compares character counts, where Rust compares byte lengths.
- Request headers and query maps: the `HashMap`s are sequences and Dafny maps. Where the source depends on a hash map's iteration order, the model fixes one order: the first header whose name matches ignoring case wins.
- Callbacks run synchronously, as their closure bodies do; the `async` machinery, the `Mutex` around each callback and the `callback` wrapper helper are not modelled. The finalising hook's closure body is applied; the future it returns is dropped unawaited.
- `finish_request` is a field of the resource, but the engine never calls it, so the model never applies it.
- Logging, the reason text of `DecisionResult::True`/`False`, and the `decisions` trace vector are only logged, so they are left out.
- The clock, RFC 2822 date parsing and formatting (chrono) and `HeaderValue::parse_string` are parameters (`Env`); dates are whole seconds.
- The hyper side of the dispatcher is I/O and is left out: `dispatch`, `generate_http_response`, `request_from_http_request`, `headers_from_http_request` and the `Service` implementation.
- The cache's hash function is a constructor parameter rather than `DefaultHasher`, and values are boxed with a type tag standing for `Any` and `downcast`.
- The `TRANSITION_MAP` missing-entry branch (500) is proved unreachable. So is the panic at `MAX_STATE_MACHINE_TRANSITIONS`. The `u8` loop counter therefore never wraps.
- The `unwrap` of the recorded date at L15 cannot fail. `Decide` requires the date to be present at L15, and the walk keeps that true, since L15 is reached only after L14 recorded the date.
- The negotiation nodes C3 to F7 have no walk-level lemmas of their own. The choices they record are stated by the `ContentNegotiation` lemmas.
- Weighting in `matching_content_type`: the weights of acceptable media types take no part in which produced type wins, because the pairs are re-sorted by match kind only. `MatchingContentTypePrefers` states this as the code's behaviour.
