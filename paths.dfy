/**
 * Path helpers of the engine (`lib.rs`): splitting a path into segments,
 * joining segments back into a path, re-basing a request on the route that
 * matched it, and splitting a header's text into values.
 */
module Paths {
  import opened Strings
  import opened Lists
  import opened Headers
  import opened Requests

  predicate NonEmpty(s: string) { s != [] }

  /** A path segment: not empty and free of `/`. */
  predicate IsSegment(s: string) { s != [] && '/' !in s }

  /** `sanitise_path`: the non-empty pieces between slashes, in order. */
  function SanitisePath(path: string): (segments: seq<string>)
    ensures forall i :: 0 <= i < |segments| ==> IsSegment(segments[i])
  {
    Filter(Split(path, '/'), NonEmpty)
  }

  /** `join_paths`: the non-empty segments of both lists joined by `/`, rooted at `/`. */
  function JoinPaths(base: seq<string>, path: seq<string>): (r: string)
    ensures |r| > 0 && r[0] == '/'
    ensures (forall i :: 0 <= i < |base| ==> base[i] == "") && (forall i :: 0 <= i < |path| ==> path[i] == "")
      ==> r == "/"
  {
    var filtered := Filter(base + path, NonEmpty);
    if filtered == [] then "/"
    else
      var joined := Join(filtered, "/");
      if StartsWith(joined, "/") then joined else "/" + joined
  }

  lemma JoinHead(parts: seq<string>, sep: string)
    requires |parts| > 0 && |parts[0]| > 0
    ensures |Join(parts, sep)| > 0 && Join(parts, sep)[0] == parts[0][0]
  {
  }

  /** Splitting after a leading separator yields an empty first piece. */
  lemma SplitLeading(x: string, sep: char)
    ensures Split([sep] + x, sep) == [""] + Split(x, sep)
  {
    var s := [sep] + x;
    IndexOfFirst(s, sep, 0);
    assert s[1..] == x;
  }

  /** Segments joined under the root: `/` then the segments separated by `/`. */
  lemma JoinPathsSegments(parts: seq<string>)
    requires parts != [] && forall i :: 0 <= i < |parts| ==> IsSegment(parts[i])
    ensures JoinPaths(parts, []) == "/" + Join(parts, "/")
  {
    FilterKeepsAll(parts, NonEmpty);
    assert parts + [] == parts;
    JoinHead(parts, "/");
    assert parts[0][0] in parts[0];
  }

  /** `sanitise_path` reads the segments back from a rooted path. */
  lemma SanitiseRooted(parts: seq<string>)
    requires parts != [] && forall i :: 0 <= i < |parts| ==> IsSegment(parts[i])
    ensures SanitisePath("/" + Join(parts, "/")) == parts
  {
    forall p | p in parts ensures '/' !in p {
      var i :| 0 <= i < |parts| && parts[i] == p;
    }
    SplitJoin(parts, '/');
    SplitLeading(Join(parts, "/"), '/');
    assert ['/'] + Join(parts, "/") == "/" + Join(parts, "/");
    FilterCons("", parts, NonEmpty);
    FilterKeepsAll(parts, NonEmpty);
  }

  /**
   * Joining segments and splitting the result again gives back the
   * segments: `sanitise_path` inverts `join_paths` on segment lists.
   */
  lemma SanitiseJoin(base: seq<string>, path: seq<string>)
    requires forall i :: 0 <= i < |base| ==> IsSegment(base[i])
    requires forall i :: 0 <= i < |path| ==> IsSegment(path[i])
    ensures SanitisePath(JoinPaths(base, path)) == base + path
  {
    var parts := base + path;
    assert JoinPaths(base, path) == JoinPaths(parts, []) by {
      assert parts + [] == base + path;
    }
    if parts == [] {
      FilterKeepsAll(parts, NonEmpty);
      SanitiseRoot();
    } else {
      JoinPathsSegments(parts);
      SanitiseRooted(parts);
    }
  }

  /** `/` and `//` hold no segment. */
  lemma SanitiseRoot()
    ensures SanitisePath("/") == [] && SanitisePath("//") == []
  {
    SplitLeading("", '/');
    SplitLeading("/", '/');
    assert Split("", '/') == [""];
    assert Filter(["", "", ""], NonEmpty) == [];
  }

  lemma SanitiseSimple()
    ensures SanitisePath("/a/b/c") == ["a", "b", "c"]
  {
    var parts := ["a", "b", "c"];
    assert Join(parts, "/") == "a/b/c" by {
      assert parts[1..] == ["b", "c"];
      assert Join(["b", "c"], "/") == "b/c";
    }
    SanitiseRooted(parts);
  }

  lemma JoinRepeated()
    ensures Join(["", "a", "", "b", "c", ""], "/") == "/a//b/c/"
  {
    var parts := ["", "a", "", "b", "c", ""];
    assert parts[1..][1..] == parts[2..];
    assert parts[2..][1..] == parts[3..];
    assert parts[3..][1..] == parts[4..];
    assert parts[4..][1..] == parts[5..];
    assert Join(parts[4..], "/") == "c/";
    assert Join(parts[3..], "/") == "b/c/";
    assert Join(parts[2..], "/") == "/b/c/";
    assert Join(parts[1..], "/") == "a//b/c/";
  }

  lemma FilterRepeated()
    ensures Filter(["", "a", "", "b", "c", ""], NonEmpty) == ["a", "b", "c"]
  {
    FilterDropsEmpty("a", "b", "c");
  }

  /** Empty segments between and around non-empty ones are dropped. */
  lemma FilterDropsEmpty(a: string, b: string, c: string)
    requires a != [] && b != [] && c != []
    ensures Filter([[], a, [], b, c, []], NonEmpty) == [a, b, c]
  {
    var h: seq<string> := [[], a];
    var t: seq<string> := [[], b, c, []];
    FilterDropsEmptyTail(b, c);
    FilterCons(a, [], NonEmpty);
    FilterCons([], [a], NonEmpty);
    assert Filter(h, NonEmpty) == [a];
    FilterAppend(h, t, NonEmpty);
    assert h + t == [[], a, [], b, c, []];
  }

  lemma FilterDropsEmptyTail(b: string, c: string)
    requires b != [] && c != []
    ensures Filter([[], b, c, []], NonEmpty) == [b, c]
  {
    var t: seq<string> := [[]];
    FilterCons([], [], NonEmpty);
    FilterCons(c, t, NonEmpty);
    FilterCons(b, [c] + t, NonEmpty);
    FilterCons([], [b] + ([c] + t), NonEmpty);
    assert [[]] + ([b] + ([c] + t)) == [[], b, c, []];
  }

  /** Repeated and trailing slashes add no segment. */
  lemma SanitiseRepeated()
    ensures SanitisePath("/a//b/c/") == ["a", "b", "c"]
  {
    JoinRepeated();
    SplitJoin(["", "a", "", "b", "c", ""], '/');
    FilterRepeated();
  }

  /**
   * `update_paths_for_resource`: the base path becomes the route's path and
   * the request path keeps what follows it, rooted at `/`; `/` when nothing
   * follows.
   */
  function UpdatePathsForResource(request: Request, basePath: string): (r: Request)
    ensures r.basePath == basePath
    ensures r == request.(requestPath := r.requestPath, basePath := basePath)
    ensures |r.requestPath| > 0 && r.requestPath[0] == '/'
    ensures |request.requestPath| <= |basePath| ==> r.requestPath == "/"
    ensures StartsWith(request.requestPath, basePath) && |request.requestPath| > |basePath| ==>
      request.requestPath == basePath + r.requestPath
      || (request.requestPath[|basePath|] != '/' && request.requestPath == basePath + r.requestPath[1..])
  {
    if |request.requestPath| > |basePath| then
      var subpath := request.requestPath[|basePath|..];
      var path := if StartsWith(subpath, "/") then subpath else "/" + subpath;
      assert StartsWith(request.requestPath, basePath) ==> request.requestPath == basePath + subpath;
      request.(basePath := basePath, requestPath := path)
    else request.(basePath := basePath, requestPath := "/")
  }

  /** The cases of `update_paths_for_resource` the source's tests name. */
  lemma UpdatePathsExamples(r: Request)
    ensures UpdatePathsForResource(r.(requestPath := "/"), "/").requestPath == "/"
    ensures UpdatePathsForResource(r.(requestPath := "/subpath"), "/").requestPath == "/subpath"
    ensures UpdatePathsForResource(r.(requestPath := "/path"), "/path").requestPath == "/"
    ensures UpdatePathsForResource(r.(requestPath := "/path/path2"), "/path").requestPath == "/path2"
  {
    assert "/subpath"[1..] == "subpath";
    assert "/path/path2"[5..] == "/path2";
  }

  /** `parse_header_values`: the comma-separated pieces, trimmed and parsed; none for empty text. */
  function ParseHeaderValues(value: string, parse: string -> HeaderValue): (r: seq<HeaderValue>)
    ensures value == "" ==> r == []
    ensures value != "" ==> |r| == |Split(value, ',')|
  {
    if value == "" then []
    else Map(Split(value, ','), (s: string) => parse(Trim(s)))
  }

  /**
   * Values free of commas and of surrounding white space, joined with
   * commas, are read back one by one.
   */
  lemma ParseJoinedValues(values: seq<string>, parse: string -> HeaderValue)
    requires |values| > 0
    requires forall i :: 0 <= i < |values| ==> values[i] != "" && ',' !in values[i] && Trim(values[i]) == values[i]
    ensures ParseHeaderValues(Join(values, ","), parse) == Map(values, parse)
  {
    forall v | v in values ensures ',' !in v {
      var i :| 0 <= i < |values| && values[i] == v;
    }
    SplitJoin(values, ',');
    JoinHead(values, ",");
  }
}
