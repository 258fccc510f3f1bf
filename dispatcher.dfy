/**
 * Route selection (`dispatcher.rs`): the routes are kept in ascending key
 * order, a route matches when its path segments begin the request path's
 * segments, the longest matching key wins, and the request is then run
 * through the state machine and finalised; with no route the answer is 404.
 */
module Dispatching {
  import opened Wrappers
  import opened Strings
  import opened Lists
  import opened Requests
  import opened Responses
  import opened Contexts
  import opened Resources
  import opened Decisions
  import opened Engine
  import opened Finalisation
  import opened Paths

  /** The route table; a sorted map, so its keys are strictly ascending. */
  datatype Dispatcher = Dispatcher(routes: seq<(string, Resource)>)

  /** The order of the map's keys: lexicographic on characters. */
  predicate StrLess(a: string, b: string)
    decreases |a|
  {
    if a == [] then b != []
    else if b == [] then false
    else if a[0] != b[0] then a[0] < b[0]
    else StrLess(a[1..], b[1..])
  }

  lemma {:induction false} StrLessIrreflexive(a: string)
    ensures !StrLess(a, a)
    decreases |a|
  {
    if a != [] {
      StrLessIrreflexive(a[1..]);
    }
  }

  predicate Ascending(keys: seq<string>) {
    forall i, j :: 0 <= i < j < |keys| ==> StrLess(keys[i], keys[j])
  }

  function Keys(routes: seq<(string, Resource)>): (keys: seq<string>)
    ensures |keys| == |routes| && forall i :: 0 <= i < |routes| ==> keys[i] == routes[i].0
  {
    Map(routes, (route: (string, Resource)) => route.0)
  }

  predicate Valid(d: Dispatcher) {
    Ascending(Keys(d.routes))
  }

  /** Ascending keys are all different. */
  lemma AscendingDistinct(keys: seq<string>)
    requires Ascending(keys)
    ensures Distinct(keys)
  {
    forall i, j | 0 <= i < j < |keys|
      ensures keys[i] != keys[j]
    {
      StrLessIrreflexive(keys[i]);
    }
  }

  predicate IsPrefix(p: seq<string>, s: seq<string>) {
    |p| <= |s| && s[..|p|] == p
  }

  /** A route matches when its segments are the first segments of the request path. */
  predicate RouteMatches(key: string, request: Request) {
    IsPrefix(SanitisePath(key), SanitisePath(request.requestPath))
  }

  /** `match_paths`: the keys of the routes that match, in the table's order. */
  function MatchPaths(d: Dispatcher, request: Request): (keys: seq<string>)
    ensures forall i :: 0 <= i < |keys| ==> keys[i] in Keys(d.routes) && RouteMatches(keys[i], request)
    ensures forall i :: 0 <= i < |d.routes| && RouteMatches(d.routes[i].0, request) ==> d.routes[i].0 in keys
  {
    Filter(Keys(d.routes), (key: string) => RouteMatches(key, request))
  }

  /** Filtering keeps ascending keys ascending. */
  lemma {:induction false} FilterAscending(keys: seq<string>, p: string -> bool)
    requires Ascending(keys)
    ensures Ascending(Filter(keys, p))
  {
    if keys != [] {
      var rest := Filter(keys[1..], p);
      FilterAscending(keys[1..], p);
      forall j | 0 <= j < |rest|
        ensures StrLess(keys[0], rest[j])
      {
        var k :| 0 <= k < |keys[1..]| && keys[1..][k] == rest[j];
        assert keys[k + 1] == rest[j];
      }
    }
  }

  /** `match_paths` lists the matching keys in ascending order. */
  lemma MatchPathsAscending(d: Dispatcher, request: Request)
    requires Valid(d)
    ensures Ascending(MatchPaths(d, request))
  {
    FilterAscending(Keys(d.routes), (key: string) => RouteMatches(key, request));
  }

  /** The root route has no segments, so it matches every request. */
  lemma RootMatchesAll(request: Request)
    ensures RouteMatches("/", request)
  {
    SanitiseRoot();
  }

  /** A path of one segment has exactly that segment. */
  lemma SanitiseSingle(x: string)
    requires IsSegment(x)
    ensures SanitisePath("/" + x) == [x]
  {
    var parts := ["", x];
    assert Join(parts, "/") == "/" + x;
    forall p | p in parts ensures '/' !in p {}
    SplitJoin(parts, '/');
    FilterCons("", [x], NonEmpty);
    FilterCons(x, [], NonEmpty);
  }

  /**
   * Matching compares whole segments: `/path1` does not match `/path12`
   * although one text begins the other.
   */
  lemma WholeSegments(request: Request)
    requires request.requestPath == "/path12"
    ensures !RouteMatches("/path1", request)
    ensures RouteMatches("/", request)
  {
    SanitiseSingle("path1");
    SanitiseSingle("path12");
    RootMatchesAll(request);
  }

  /** The request for `/` is matched only by routes without segments, such as `/`. */
  lemma RootRequest(key: string, request: Request)
    requires request.requestPath == "/"
    ensures RouteMatches(key, request) <==> SanitisePath(key) == []
  {
    SanitiseRoot();
  }

  /** The matching keys longest first, ties kept in table order (a stable sort). */
  function LongestFirst(paths: seq<string>): seq<string> {
    SortBy(paths, (p: string) => -|p|)
  }

  /** The first of the matching keys ordered longest first. */
  function SelectRoute(paths: seq<string>): Option<string> {
    var ordered := LongestFirst(paths);
    if ordered == [] then None else Some(ordered[0])
  }

  /**
   * A route is selected exactly when one matches; it is a longest matching
   * key, and no key before it is as long.
   */
  lemma SelectRouteLongest(paths: seq<string>)
    ensures SelectRoute(paths).None? <==> paths == []
    ensures SelectRoute(paths).Some? ==>
      exists i :: 0 <= i < |paths| && paths[i] == SelectRoute(paths).value
        && (forall j :: 0 <= j < |paths| ==> |paths[j]| <= |paths[i]|)
        && (forall j :: 0 <= j < i ==> |paths[j]| < |paths[i]|)
  {
    var key := (p: string) => -|p|;
    SortByFacts(paths, key);
    if paths != [] {
      SortByHead(paths, key);
      var i := FirstMinIndex(paths, key);
      assert paths[i] == SelectRoute(paths).value;
    }
  }

  /** `lookup_resource`: the resource stored under exactly this key. */
  function LookupResource(d: Dispatcher, path: string): (r: Option<Resource>)
    ensures r.Some? <==> path in Keys(d.routes)
  {
    match FindFirst(d.routes, (route: (string, Resource)) => route.0 == path)
    case Some(route) => Some(route.1)
    case None => None
  }

  /** `dispatch_to_resource`, as a function of the context's state. */
  function Dispatch(d: Dispatcher, c: ContextState, env: Env): ContextState {
    match SelectRoute(MatchPaths(d, c.request))
    case None => c.(response := c.response.(status := 404))
    case Some(path) =>
      var c1 := c.(request := UpdatePathsForResource(c.request, path));
      match LookupResource(d, path)
      case Some(resource) => Finalise(StateMachine(c1, resource, env), resource, env)
      case None => c1.(response := c1.response.(status := 404))
  }

  /** Without a matching route the answer is 404 and nothing else changes: no callback runs. */
  lemma NoRouteNotFound(d: Dispatcher, c: ContextState, env: Env)
    requires MatchPaths(d, c.request) == []
    ensures Dispatch(d, c, env) == c.(response := c.response.(status := 404))
  {
    SelectRouteLongest([]);
  }

  /**
   * With a matching route, the selected key is a route of the table: the
   * request is re-based on it, run through the state machine, and finalised.
   */
  lemma RouteDispatched(d: Dispatcher, c: ContextState, env: Env)
    requires MatchPaths(d, c.request) != []
    ensures SelectRoute(MatchPaths(d, c.request)).Some?
    ensures var path := SelectRoute(MatchPaths(d, c.request)).value;
      RouteMatches(path, c.request)
      && LookupResource(d, path).Some?
      && var resource := LookupResource(d, path).value;
         var c1 := c.(request := UpdatePathsForResource(c.request, path));
         Dispatch(d, c, env) == Finalise(StateMachine(c1, resource, env), resource, env)
  {
    var paths := MatchPaths(d, c.request);
    SelectRouteLongest(paths);
    var i :| 0 <= i < |paths| && paths[i] == SelectRoute(paths).value;
  }

  lemma SomePathSegments()
    ensures "some" in SanitisePath("/some/path")
  {
    var parts := ["", "some", "path"];
    assert Join(parts, "/") == "/some/path";
    forall p | p in parts ensures '/' !in p {}
    SplitJoin(parts, '/');
    FilterCons("", ["some", "path"], NonEmpty);
  }

  /** A table whose only route is `/some/path` answers 404 for the request of `/`. */
  lemma UnmatchedRoot(resource: Resource, c: ContextState, env: Env)
    requires c.request.requestPath == "/"
    ensures Dispatch(Dispatcher([("/some/path", resource)]), c, env) == c.(response := c.response.(status := 404))
  {
    var d := Dispatcher([("/some/path", resource)]);
    SomePathSegments();
    RootRequest("/some/path", c.request);
    assert MatchPaths(d, c.request) == [];
    NoRouteNotFound(d, c, env);
  }

  /** Runs the state machine for the selected resource, then finalises its response. */
  method RunResource(ctx: Context, resource: Resource, env: Env)
    modifies ctx, ctx.response
    ensures ctx.Value() == Finalise(StateMachine(old(ctx.Value()), resource, env), resource, env)
  {
    ExecuteStateMachine(ctx, resource, env);
    FinaliseResponse(ctx, resource, env);
  }

  /** `dispatch_to_resource` on the context in place. */
  method DispatchToResource(d: Dispatcher, ctx: Context, env: Env)
    modifies ctx, ctx.response
    ensures ctx.Value() == Dispatch(d, old(ctx.Value()), env)
  {
    ghost var c0 := ctx.Value();
    var matching := MatchPaths(d, ctx.request);
    var ordered := LongestFirst(matching);
    if ordered == [] {
      assert Dispatch(d, c0, env) == c0.(response := c0.response.(status := 404));
      ctx.response.SetStatus(404);
    } else {
      var path := ordered[0];
      ghost var c1 := c0.(request := UpdatePathsForResource(c0.request, path));
      ctx.request := UpdatePathsForResource(ctx.request, path);
      assert ctx.Value() == c1;
      var resource := LookupResource(d, path);
      if resource.Some? {
        assert Dispatch(d, c0, env) == Finalise(StateMachine(c1, resource.value, env), resource.value, env);
        RunResource(ctx, resource.value, env);
      } else {
        assert Dispatch(d, c0, env) == c1.(response := c1.response.(status := 404));
        ctx.response.SetStatus(404);
      }
    }
  }
}
