/** Content codings from the Accept-Encoding header and `encodings_provided`. */
module Encodings {
  import opened Strings
  import Weights

  datatype Encoding = Encoding(encoding: string, weight: int)

  /** The name as given, at weight 1. */
  function ParseString(s: string): (e: Encoding)
    ensures e.encoding == s && e.weight == 1000
  {
    Encoding(s, 1000)
  }

  function WithWeight(e: Encoding, weight: string): (r: Encoding)
    ensures r.encoding == e.encoding && r.weight == Weights.ParseWeight(weight)
  {
    e.(weight := Weights.ParseWeight(weight))
  }

  /** Names compare without regard to case; `*` accepts every coding. */
  predicate Matches(self: Encoding, other: Encoding) {
    other.encoding == "*" || Lower(self.encoding) == Lower(other.encoding)
  }

  function ToString(e: Encoding): string {
    e.encoding
  }

  /** Matching ignores case in both directions and ignores weights. */
  lemma MatchesIgnoresCase(a: string, b: string, wa: int, wb: int)
    requires b != "*" && a != "*"
    ensures Matches(Encoding(a, wa), Encoding(b, wb)) <==> Matches(Encoding(b, wb), Encoding(a, wa))
    ensures Matches(Encoding(a, wa), Encoding(Lower(a), wb))
  {
    assert Lower(Lower(a)) == Lower(a);
  }
}
