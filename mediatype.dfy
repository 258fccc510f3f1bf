/** Media types (`type/subtype`) from the Accept header and the resource's `produces` list. */
module MediaTypes {
  import opened Strings
  import Weights

  /**
   * How well a produced type meets an acceptable one, best first. The source
   * calls the last case `MediaTypeMatch::None`.
   */
  datatype MediaTypeMatch = Full | SubStar | Star | NoMatch

  /** The derived `Ord` of the enum: declaration order. */
  function MatchRank(m: MediaTypeMatch): int {
    match m
    case Full => 0
    case SubStar => 1
    case Star => 2
    case NoMatch => 3
  }

  datatype MediaType = MediaType(main: string, sub: string, weight: int)

  // Splits at the first `/`. An empty main type stands for `*/*`; a missing
  // or empty subtype for `*`. The weight is 1.
  function ParseString(s: string): (m: MediaType)
    ensures m.weight == 1000 && m.main != "" && m.sub != "" && '/' !in m.main
    ensures s == "" || s[0] == '/' ==> m == MediaType("*", "*", 1000)
    ensures s != "" && '/' !in s ==> m == MediaType(s, "*", 1000)
    ensures s != "" && s[0] != '/' && '/' in s ==>
      s == m.main + "/" + m.sub || (s == m.main + "/" && m.sub == "*")
  {
    var types := SplitOnce(s, '/');
    if types[0] == "" then MediaType("*", "*", 1000)
    else MediaType(types[0], if |types| == 1 || types[1] == "" then "*" else types[1], 1000)
  }

  /** Sets the weight from a `q` parameter. */
  function WithWeight(m: MediaType, weight: string): (r: MediaType)
    ensures r.main == m.main && r.sub == m.sub && r.weight == Weights.ParseWeight(weight)
  {
    m.(weight := Weights.ParseWeight(weight))
  }

  // The sort key pair: the weight, then 0 for `t/s`, 1 for `t/*`, 2 for `*/*`.
  function Weight(m: MediaType): (int, int) {
    if m.main == "*" && m.sub == "*" then (m.weight, 2)
    else if m.sub == "*" then (m.weight, 1)
    else (m.weight, 0)
  }

  /** Matches a produced type (`self`) against an acceptable one (`other`). */
  function Matches(self: MediaType, other: MediaType): MediaTypeMatch {
    if other.main == "*" then Star
    else if self.main == other.main && other.sub == "*" then SubStar
    else if self.main == other.main && self.sub == other.sub then Full
    else NoMatch
  }

  function ToString(m: MediaType): string {
    m.main + "/" + m.sub
  }

  // A wild-card main type accepts everything, as `*/*` does in section 14.1 of RFC 2616.
  lemma MatchesStar(self: MediaType, other: MediaType)
    ensures Matches(self, other) == Star <==> other.main == "*"
    ensures Matches(self, other) == SubStar <==> other.main != "*" && other.sub == "*" && self.main == other.main
    ensures Matches(self, other) == Full <==>
      other.main != "*" && other.sub != "*" && self.main == other.main && self.sub == other.sub
  {
  }

  /** Printing then parsing a media type gives it back at weight 1. */
  lemma {:induction false} ParseToString(m: MediaType)
    requires m.main != "" && '/' !in m.main && m.sub != ""
    ensures ParseString(ToString(m)) == m.(weight := 1000)
  {
    var s := ToString(m);
    assert s[|m.main|] == '/';
    IndexOfFirst(s, '/', |m.main|);
    assert s[..|m.main|] == m.main && s[|m.main| + 1..] == m.sub;
  }

  /** Parsing then printing gives back any text of the form `type/subtype`. */
  lemma {:induction false} ToStringParse(main: string, sub: string)
    requires main != "" && '/' !in main && sub != ""
    ensures ToString(ParseString(main + "/" + sub)) == main + "/" + sub
  {
    ParseToString(MediaType(main, sub, 1000));
  }
}
