/** Character sets from the Accept-Charset header and `charsets_provided`. */
module Charsets {
  import opened Strings
  import Weights

  datatype Charset = Charset(charset: string, weight: int)

  /** The name as given, at weight 1. */
  function ParseString(s: string): (c: Charset)
    ensures c.charset == s && c.weight == 1000
  {
    Charset(s, 1000)
  }

  function WithWeight(c: Charset, weight: string): (r: Charset)
    ensures r.charset == c.charset && r.weight == Weights.ParseWeight(weight)
  {
    c.(weight := Weights.ParseWeight(weight))
  }

  /** Names compare without regard to case; `*` accepts every charset. */
  predicate Matches(self: Charset, other: Charset) {
    other.charset == "*" || Upper(self.charset) == Upper(other.charset)
  }

  function ToString(c: Charset): string {
    c.charset
  }

  /**
   * `*` on the provided side is only met by `*`: the wild card is read as a
   * wild card on the acceptable side alone.
   */
  lemma StarMatchesOnlyStar(other: Charset, w: int)
    ensures Matches(Charset("*", w), other) <==> other.charset == "*"
  {
    assert Upper("*") == "*";
    if Upper(other.charset) == "*" {
      assert |other.charset| == 1 && Upper(other.charset)[0] == UpperChar(other.charset[0]);
      assert other.charset == [other.charset[0]];
    }
  }

  /** Matching ignores case in both directions and ignores weights. */
  lemma MatchesIgnoresCase(a: string, b: string, wa: int, wb: int)
    requires b != "*" && a != "*"
    ensures Matches(Charset(a, wa), Charset(b, wb)) <==> Matches(Charset(b, wb), Charset(a, wa))
    ensures Matches(Charset(a, wa), Charset(Upper(a), wb))
  {
    assert Upper(Upper(a)) == Upper(a);
  }
}
