/** Language tags (`main-sub`) from the Accept-Language header and `languages_provided`. */
module MediaLanguages {
  import opened Strings
  import Weights

  datatype MediaLanguage = MediaLanguage(main: string, sub: string, weight: int)

  /**
   * Splits at the first `-`. An empty main part stands for `*`; a missing
   * or empty subtag is empty. The weight is 1.
   */
  function ParseString(s: string): (l: MediaLanguage)
    ensures l.weight == 1000 && l.main != "" && '-' !in l.main
    ensures s == "" || s[0] == '-' ==> l == MediaLanguage("*", "", 1000)
    ensures s != "" && '-' !in s ==> l == MediaLanguage(s, "", 1000)
    ensures s != "" && s[0] != '-' && '-' in s ==>
      (s == l.main + "-" + l.sub && l.sub != "") || (s == l.main + "-" && l.sub == "")
  {
    var types := SplitOnce(s, '-');
    if types[0] == "" then MediaLanguage("*", "", 1000)
    else MediaLanguage(types[0], if |types| == 1 || types[1] == "" then "" else types[1], 1000)
  }

  function WithWeight(l: MediaLanguage, weight: string): (r: MediaLanguage)
    ensures r.main == l.main && r.sub == l.sub && r.weight == Weights.ParseWeight(weight)
  {
    l.(weight := Weights.ParseWeight(weight))
  }

  /**
   * A provided language (`self`) meets an acceptable one (`other`) when the
   * acceptable one is `*`, when both parts agree, or when the acceptable tag
   * extends the provided one after a `-`.
   */
  predicate Matches(self: MediaLanguage, other: MediaLanguage) {
    other.main == "*" || (self.main == other.main && self.sub == other.sub)
    || StartsWith(ToString(other), ToString(self) + "-")
  }

  function ToString(l: MediaLanguage): string {
    if l.sub == "" then l.main else l.main + "-" + l.sub
  }

  /** Printing then parsing a language gives it back at weight 1. */
  lemma {:induction false} ParseToString(l: MediaLanguage)
    requires l.main != "" && '-' !in l.main
    ensures ParseString(ToString(l)) == l.(weight := 1000)
  {
    var s := ToString(l);
    if l.sub != "" {
      assert s[|l.main|] == '-';
      IndexOfFirst(s, '-', |l.main|);
      assert s[..|l.main|] == l.main && s[|l.main| + 1..] == l.sub;
    }
  }

  /** Every language meets itself. */
  lemma MatchesSelf(l: MediaLanguage)
    ensures Matches(l, l)
  {
  }

  /**
   * `en` is met by an acceptable `en-gb`, but `e` is not: the prefix must end
   * at a `-`.
   */
  lemma PrefixMatches()
    ensures Matches(ParseString("en"), ParseString("en-gb"))
    ensures !Matches(ParseString("e"), ParseString("en-gb"))
    ensures !Matches(ParseString("en"), ParseString("dn"))
  {
    ParseToString(MediaLanguage("en", "gb", 1000));
    ParseToString(MediaLanguage("en", "", 1000));
    ParseToString(MediaLanguage("e", "", 1000));
    ParseToString(MediaLanguage("dn", "", 1000));
    assert "en-gb"[..2] == "en";
  }
}
