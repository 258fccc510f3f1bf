/**
 * Content negotiation (`content_negotiation/mod.rs`): ordering the entries of
 * the Accept-* headers and choosing the media type, language, charset and
 * encoding the response will use, after sections 14.1 to 14.4 of RFC 2616.
 * Each `Matching*` function takes the resource's list it reads and the
 * request.
 */
module ContentNegotiation {
  import opened Wrappers
  import opened Strings
  import opened Lists
  import opened Headers
  import opened Requests
  import MediaTypes
  import MediaLanguages
  import Charsets
  import Encodings

  // ---------------------------------------------------------------- media types

  /** `sort_media_types`' order as one key: heavier first, then the more specific type. */
  function MediaTypeKey(h: HeaderValue): int {
    var w := MediaTypes.Weight(AsMediaType(h));
    -3 * w.0 + w.1
  }

  function SortMediaTypes(hs: seq<HeaderValue>): seq<HeaderValue> {
    SortBy(hs, MediaTypeKey)
  }

  /**
   * `sort_media_types` keeps every entry (even those weighted 0), puts heavier
   * entries first, among equal weights a full type before a subtype wild card before
   * the full wild card, and otherwise keeps the header's order.
   */
  lemma SortMediaTypesOrder(hs: seq<HeaderValue>)
    ensures multiset(SortMediaTypes(hs)) == multiset(hs)
    ensures var out := SortMediaTypes(hs);
      forall i, j :: 0 <= i < j < |out| ==>
        var wi, wj := MediaTypes.Weight(AsMediaType(out[i])), MediaTypes.Weight(AsMediaType(out[j]));
        wi.0 > wj.0 || (wi.0 == wj.0 && wi.1 <= wj.1)
    ensures forall k :: KeyFilter(SortMediaTypes(hs), MediaTypeKey, k) == KeyFilter(hs, MediaTypeKey, k)
  {
    SortByFacts(hs, MediaTypeKey);
  }

  type Candidate = (MediaTypes.MediaType, MediaTypes.MediaType, MediaTypes.MediaTypeMatch)

  /** A produced type parsed, an acceptable entry read as a media type, and how well they match. */
  function ToCandidate(pair: (string, HeaderValue)): Candidate {
    var produced := MediaTypes.ParseString(pair.0);
    var acceptable := AsMediaType(pair.1);
    (produced, acceptable, MediaTypes.Matches(produced, acceptable))
  }

  function CandidateRank(c: Candidate): int {
    MediaTypes.MatchRank(c.2)
  }

  predicate IsMatch(c: Candidate) {
    c.2 != MediaTypes.NoMatch
  }

  /**
   * `matching_content_type`: with an Accept header, every produced type is
   * matched against every acceptable entry, the pairs are stably sorted by
   * match kind, and the best non-failing pair names the produced type;
   * without one, the first produced type as written.
   */
  function MatchingContentType(produces: seq<string>, request: Request): Option<string> {
    if HasAcceptHeader(request) then ChooseContentType(produces, SortMediaTypes(Accept(request)))
    else if produces == [] then None
    else Some(produces[0])
  }

  /** The pairing step of `matching_content_type`, over acceptable entries already sorted. */
  function ChooseContentType(produces: seq<string>, acceptable: seq<HeaderValue>): Option<string> {
    var candidates := Map(Product(produces, acceptable), ToCandidate);
    var found := Filter(SortBy(candidates, CandidateRank), IsMatch);
    if found == [] then None else Some(MediaTypes.ToString(found[0].0))
  }

  function PairRank(produced: string, acceptable: HeaderValue): int {
    CandidateRank(ToCandidate((produced, acceptable)))
  }

  function Min(a: int, b: int): int {
    if a <= b then a else b
  }

  /** The best match kind `produced` reaches against any acceptable entry; 3 (no match) when none. */
  function BestRank(produced: string, accs: seq<HeaderValue>): (r: int)
    ensures 0 <= r <= 3
    ensures forall i :: 0 <= i < |accs| ==> r <= PairRank(produced, accs[i])
    ensures r < 3 ==> exists i :: 0 <= i < |accs| && r == PairRank(produced, accs[i])
  {
    if accs == [] then 3
    else
      var r := Min(PairRank(produced, accs[0]), BestRank(produced, accs[1..]));
      assert forall i :: 1 <= i < |accs| ==> accs[i] == accs[1..][i - 1];
      r
  }

  /** The best match kind any produced type reaches. */
  function BestOverall(produces: seq<string>, accs: seq<HeaderValue>): (r: int)
    ensures 0 <= r <= 3
    ensures forall i :: 0 <= i < |produces| ==> r <= BestRank(produces[i], accs)
  {
    if produces == [] then 3
    else
      var r := Min(BestRank(produces[0], accs), BestOverall(produces[1..], accs));
      assert forall i :: 1 <= i < |produces| ==> produces[i] == produces[1..][i - 1];
      r
  }

  /** A best kind below "no match" is reached by some produced type. */
  lemma {:induction false} BestOverallReached(produces: seq<string>, accs: seq<HeaderValue>)
    ensures BestOverall(produces, accs) < 3 ==>
      exists i :: 0 <= i < |produces| && BestOverall(produces, accs) == BestRank(produces[i], accs)
  {
    if produces != [] && BestOverall(produces, accs) < 3 {
      if BestRank(produces[0], accs) != BestOverall(produces, accs) {
        BestOverallReached(produces[1..], accs);
        var j :| 0 <= j < |produces| - 1 && BestOverall(produces, accs) == BestRank(produces[1..][j], accs);
        assert produces[1..][j] == produces[j + 1];
      }
    }
  }

  /** The first produced type reaching match kind `m`, normalised as `type/subtype`. */
  function FirstReaching(produces: seq<string>, accs: seq<HeaderValue>, m: int): Option<string> {
    if produces == [] then None
    else if BestRank(produces[0], accs) == m then Some(MediaTypes.ToString(MediaTypes.ParseString(produces[0])))
    else FirstReaching(produces[1..], accs, m)
  }

  /**
   * The choice the code makes, stated directly: the first produced type that
   * reaches the best match kind found over all acceptable entries, or none
   * when nothing matches. The weights of the acceptable entries take no part.
   */
  function PreferredContentType(produces: seq<string>, accs: seq<HeaderValue>): Option<string> {
    var m := BestOverall(produces, accs);
    if m == 3 then None else FirstReaching(produces, accs, m)
  }

  lemma BestRankPermutation(produced: string, a: seq<HeaderValue>, b: seq<HeaderValue>)
    requires multiset(a) == multiset(b)
    ensures BestRank(produced, a) == BestRank(produced, b)
  {
    var ra, rb := BestRank(produced, a), BestRank(produced, b);
    if ra < 3 {
      var i :| 0 <= i < |a| && ra == PairRank(produced, a[i]);
      assert a[i] in multiset(b);
      var j :| 0 <= j < |b| && b[j] == a[i];
    }
    if rb < 3 {
      var j :| 0 <= j < |b| && rb == PairRank(produced, b[j]);
      assert b[j] in multiset(a);
      var i :| 0 <= i < |a| && a[i] == b[j];
    }
  }

  lemma {:induction false} PreferredPermutation(produces: seq<string>, a: seq<HeaderValue>, b: seq<HeaderValue>)
    requires multiset(a) == multiset(b)
    ensures BestOverall(produces, a) == BestOverall(produces, b)
    ensures forall m :: FirstReaching(produces, a, m) == FirstReaching(produces, b, m)
  {
    if produces != [] {
      BestRankPermutation(produces[0], a, b);
      PreferredPermutation(produces[1..], a, b);
    }
  }

  lemma {:induction false} MapAppend<A, B>(a: seq<A>, b: seq<A>, f: A -> B)
    ensures Map(a + b, f) == Map(a, f) + Map(b, f)
  {
  }

  lemma {:induction false} ProductEmpty<A, B>(xs: seq<A>, ys: seq<B>)
    requires xs == [] || ys == []
    ensures Product(xs, ys) == []
  {
    if xs != [] {
      ProductEmpty(xs[1..], ys);
    }
  }

  /** The first least-ranked candidate of one produced type carries that type's best rank. */
  lemma {:induction false} RowHead(produced: string, accs: seq<HeaderValue>)
    requires accs != []
    ensures var row := Map(Row(produced, accs), ToCandidate);
      |row| > 0
      && CandidateRank(row[FirstMinIndex(row, CandidateRank)]) == BestRank(produced, accs)
      && row[FirstMinIndex(row, CandidateRank)].0 == MediaTypes.ParseString(produced)
  {
    var row := Map(Row(produced, accs), ToCandidate);
    var k := FirstMinIndex(row, CandidateRank);
    assert forall j :: 0 <= j < |accs| ==> row[j] == ToCandidate((produced, accs[j]));
    var r := BestRank(produced, accs);
    if r < 3 {
      var i :| 0 <= i < |accs| && r == PairRank(produced, accs[i]);
      assert CandidateRank(row[k]) <= CandidateRank(row[i]);
    }
  }

  /** The first least-ranked candidate overall is what `PreferredContentType` describes. */
  lemma {:induction false} CandidatesHead(produces: seq<string>, accs: seq<HeaderValue>)
    requires produces != [] && accs != []
    ensures var cs := Map(Product(produces, accs), ToCandidate);
      |cs| > 0
      && CandidateRank(cs[FirstMinIndex(cs, CandidateRank)]) == BestOverall(produces, accs)
      && (BestOverall(produces, accs) < 3 ==>
            Some(MediaTypes.ToString(cs[FirstMinIndex(cs, CandidateRank)].0))
            == FirstReaching(produces, accs, BestOverall(produces, accs)))
  {
    var row := Map(Row(produces[0], accs), ToCandidate);
    var rest := Map(Product(produces[1..], accs), ToCandidate);
    MapAppend(Row(produces[0], accs), Product(produces[1..], accs), ToCandidate);
    RowHead(produces[0], accs);
    var cs := Map(Product(produces, accs), ToCandidate);
    assert cs == row + rest;
    var m := BestOverall(produces, accs);
    if |produces| == 1 {
      ProductEmpty(produces[1..], accs);
      assert cs == row;
    } else {
      CandidatesHead(produces[1..], accs);
      FirstMinAppend(row, rest, CandidateRank);
      var b0 := BestRank(produces[0], accs);
      if b0 > BestOverall(produces[1..], accs) {
        assert m == BestOverall(produces[1..], accs);
        assert FirstReaching(produces, accs, m) == FirstReaching(produces[1..], accs, m);
      }
    }
  }

  /** Pairing every produced type with every entry picks the preferred type, whatever the entries' order. */
  lemma ChooseIsPreferred(produces: seq<string>, accs: seq<HeaderValue>)
    ensures ChooseContentType(produces, accs) == PreferredContentType(produces, accs)
  {
    var cs := Map(Product(produces, accs), ToCandidate);
    var sorted := SortBy(cs, CandidateRank);
    var found := Filter(sorted, IsMatch);
    if produces == [] || accs == [] {
      ProductEmpty(produces, accs);
      if produces != [] {
        assert BestRank(produces[0], accs) == 3;
        BestOverallReached(produces, accs);
      }
    } else {
      CandidatesHead(produces, accs);
      SortByHead(cs, CandidateRank);
      var m := BestOverall(produces, accs);
      if m == 3 {
        NoMatchLeft(cs);
      } else {
        assert sorted == [sorted[0]] + sorted[1..];
        assert found[0] == sorted[0];
      }
    }
  }

  /** When the least rank is "no match", nothing survives the filter. */
  lemma NoMatchLeft(cs: seq<Candidate>)
    requires |cs| > 0 && CandidateRank(cs[FirstMinIndex(cs, CandidateRank)]) == 3
    ensures Filter(SortBy(cs, CandidateRank), IsMatch) == []
  {
    forall k | 0 <= k < |cs| ensures !IsMatch(cs[k]) {
      assert CandidateRank(cs[FirstMinIndex(cs, CandidateRank)]) <= CandidateRank(cs[k]);
    }
    SortByNone(cs, CandidateRank, IsMatch);
    FilterNone(SortBy(cs, CandidateRank), IsMatch);
  }

  /**
   * `matching_content_type` with an Accept header chooses exactly the
   * preferred type over the header's entries in their original order: the
   * weight sort does not change which type wins.
   */
  lemma MatchingContentTypePrefers(produces: seq<string>, request: Request)
    requires HasAcceptHeader(request)
    ensures MatchingContentType(produces, request) == PreferredContentType(produces, Accept(request))
  {
    var accs := Accept(request);
    SortByFacts(accs, MediaTypeKey);
    PreferredPermutation(produces, SortMediaTypes(accs), accs);
    ChooseIsPreferred(produces, SortMediaTypes(accs));
  }

  // ---------------------------------------------------------------- languages

  predicate PositiveLanguage(l: MediaLanguages.MediaLanguage) { l.weight > 0 }

  function LanguageKey(l: MediaLanguages.MediaLanguage): int { -l.weight }

  /** `sort_media_languages`: the entries weighted above 0, heaviest first, otherwise in header order. */
  function SortMediaLanguages(hs: seq<HeaderValue>): seq<MediaLanguages.MediaLanguage> {
    SortBy(Filter(Map(hs, AsMediaLanguage), PositiveLanguage), LanguageKey)
  }

  /**
   * The entries weighted above 0 are kept, each as often as in the header,
   * heaviest first, and entries of equal weight stay in header order.
   */
  lemma SortMediaLanguagesOrder(hs: seq<HeaderValue>)
    ensures var out := SortMediaLanguages(hs);
      (forall i, j :: 0 <= i < j < |out| ==> out[i].weight >= out[j].weight)
      && (forall i :: 0 <= i < |out| ==> out[i].weight > 0 && out[i] in Map(hs, AsMediaLanguage))
      && (forall i :: 0 <= i < |hs| && AsMediaLanguage(hs[i]).weight > 0 ==> AsMediaLanguage(hs[i]) in out)
    ensures var kept := Filter(Map(hs, AsMediaLanguage), PositiveLanguage);
      multiset(SortMediaLanguages(hs)) == multiset(kept)
      && forall k :: KeyFilter(SortMediaLanguages(hs), LanguageKey, k) == KeyFilter(kept, LanguageKey, k)
  {
    var parsed := Map(hs, AsMediaLanguage);
    var kept := Filter(parsed, PositiveLanguage);
    SortByFacts(kept, LanguageKey);
    var out := SortMediaLanguages(hs);
    forall i | 0 <= i < |out| ensures out[i].weight > 0 && out[i] in parsed {
      assert out[i] in multiset(kept);
    }
    forall i | 0 <= i < |hs| && AsMediaLanguage(hs[i]).weight > 0 ensures AsMediaLanguage(hs[i]) in out {
      assert parsed[i] in kept;
      assert parsed[i] in multiset(out);
    }
  }

  predicate LanguagePairMatches(pair: (MediaLanguages.MediaLanguage, string)) {
    MediaLanguages.Matches(MediaLanguages.ParseString(pair.1), pair.0)
  }

  /**
   * `matching_language`: with a non-empty Accept-Language header, the top
   * acceptable language when the resource lists none, else the first
   * provided language matching the heaviest acceptable entry that any
   * provided language matches; without one, `*` or the first provided.
   */
  function MatchingLanguage(provided: seq<string>, request: Request): Option<string> {
    if HasAcceptLanguageHeader(request) && AcceptLanguage(request) != [] then
      var acceptable := SortMediaLanguages(AcceptLanguage(request));
      if provided == [] then
        if acceptable == [] then None else Some(MediaLanguages.ToString(acceptable[0]))
      else
        match FindFirst(Product(acceptable, provided), LanguagePairMatches)
        case Some(pair) => Some(MediaLanguages.ToString(MediaLanguages.ParseString(pair.1)))
        case None => None
    else if provided == [] then Some("*")
    else Some(provided[0])
  }

  /** With a header and a provided list, no language is chosen exactly when no pair matches. */
  lemma MatchingLanguageNone(provided: seq<string>, request: Request)
    requires HasAcceptLanguageHeader(request) && AcceptLanguage(request) != [] && provided != []
    ensures var acceptable := SortMediaLanguages(AcceptLanguage(request));
      MatchingLanguage(provided, request).None? <==>
        forall i, j :: 0 <= i < |acceptable| && 0 <= j < |provided| ==>
          !MediaLanguages.Matches(MediaLanguages.ParseString(provided[j]), acceptable[i])
  {
    FindFirstInProductNone(SortMediaLanguages(AcceptLanguage(request)), provided, LanguagePairMatches);
  }

  /**
   * The chosen language is a provided one that meets an acceptable entry of
   * positive weight; no heavier-ranked acceptable entry is met by any provided
   * language, and no earlier provided language meets the same entry.
   */
  lemma MatchingLanguageChoice(provided: seq<string>, request: Request) returns (i: nat, j: nat)
    requires HasAcceptLanguageHeader(request) && AcceptLanguage(request) != [] && provided != []
    requires MatchingLanguage(provided, request).Some?
    ensures var acceptable := SortMediaLanguages(AcceptLanguage(request));
      i < |acceptable| && j < |provided|
      && MatchingLanguage(provided, request) == Some(MediaLanguages.ToString(MediaLanguages.ParseString(provided[j])))
      && MediaLanguages.Matches(MediaLanguages.ParseString(provided[j]), acceptable[i])
      && acceptable[i].weight > 0
      && (forall i', j' :: 0 <= i' < i && 0 <= j' < |provided| ==>
            !MediaLanguages.Matches(MediaLanguages.ParseString(provided[j']), acceptable[i']))
      && (forall j' :: 0 <= j' < j ==>
            !MediaLanguages.Matches(MediaLanguages.ParseString(provided[j']), acceptable[i]))
  {
    var acceptable := SortMediaLanguages(AcceptLanguage(request));
    i, j := FindFirstInProduct(acceptable, provided, LanguagePairMatches);
    SortMediaLanguagesOrder(AcceptLanguage(request));
  }

  // ---------------------------------------------------------------- charsets

  /** The header already names the default charset or the wild card. */
  predicate NamesDefaultCharset(hs: seq<HeaderValue>) {
    exists i :: 0 <= i < |hs| && (hs[i].value == "*" || Upper(hs[i].value) == "ISO-8859-1")
  }

  predicate PositiveCharset(c: Charsets.Charset) { c.weight > 0 }

  function CharsetKey(c: Charsets.Charset): int { -c.weight }

  /**
   * `sort_media_charsets`: ISO-8859-1 joins at weight 1 unless the header
   * names it or `*` (section 14.2 of RFC 2616); then the entries weighted
   * above 0, heaviest first, otherwise in header order.
   */
  function SortMediaCharsets(hs: seq<HeaderValue>): seq<Charsets.Charset> {
    SortBy(Filter(Map(WithDefaultCharset(hs), AsCharset), PositiveCharset), CharsetKey)
  }

  /** The header's entries, with ISO-8859-1 appended unless the header names it or `*`. */
  function WithDefaultCharset(hs: seq<HeaderValue>): seq<HeaderValue> {
    if NamesDefaultCharset(hs) then hs else hs + [Basic("ISO-8859-1")]
  }

  /**
   * Every header entry weighted above 0 is kept, and ISO-8859-1 at weight 1
   * when the header leaves it unnamed; each as often as it occurs, heaviest
   * first, and entries of equal weight in header order.
   */
  lemma SortMediaCharsetsOrder(hs: seq<HeaderValue>)
    ensures var out := SortMediaCharsets(hs);
      (forall i, j :: 0 <= i < j < |out| ==> out[i].weight >= out[j].weight)
      && (forall i :: 0 <= i < |out| ==> out[i].weight > 0)
      && (forall i :: 0 <= i < |hs| && AsCharset(hs[i]).weight > 0 ==> AsCharset(hs[i]) in out)
      && (!NamesDefaultCharset(hs) ==> Charsets.Charset("ISO-8859-1", 1000) in out)
    ensures var kept := Filter(Map(WithDefaultCharset(hs), AsCharset), PositiveCharset);
      multiset(SortMediaCharsets(hs)) == multiset(kept)
      && forall k :: KeyFilter(SortMediaCharsets(hs), CharsetKey, k) == KeyFilter(kept, CharsetKey, k)
  {
    var all := WithDefaultCharset(hs);
    var parsed := Map(all, AsCharset);
    var kept := Filter(parsed, PositiveCharset);
    SortByFacts(kept, CharsetKey);
    var out := SortMediaCharsets(hs);
    forall i | 0 <= i < |out| ensures out[i].weight > 0 {
      assert out[i] in multiset(kept);
    }
    forall i | 0 <= i < |hs| && AsCharset(hs[i]).weight > 0 ensures AsCharset(hs[i]) in out {
      assert parsed[i] == AsCharset(hs[i]);
      assert parsed[i] in kept;
      assert parsed[i] in multiset(out);
    }
    if !NamesDefaultCharset(hs) {
      assert parsed[|hs|] == Charsets.Charset("ISO-8859-1", 1000);
      assert parsed[|hs|] in kept;
      assert parsed[|hs|] in multiset(out);
    }
  }

  predicate CharsetPairMatches(pair: (Charsets.Charset, string)) {
    Charsets.Matches(Charsets.ParseString(pair.1), pair.0)
  }

  /** `matching_charset`: as for languages, defaulting to ISO-8859-1. */
  function MatchingCharset(provided: seq<string>, request: Request): Option<string> {
    if HasAcceptCharsetHeader(request) && AcceptCharset(request) != [] then
      var acceptable := SortMediaCharsets(AcceptCharset(request));
      if provided == [] then
        if acceptable == [] then None else Some(Charsets.ToString(acceptable[0]))
      else
        match FindFirst(Product(acceptable, provided), CharsetPairMatches)
        case Some(pair) => Some(Charsets.ToString(Charsets.ParseString(pair.1)))
        case None => None
    else if provided == [] then Some("ISO-8859-1")
    else Some(provided[0])
  }

  lemma MatchingCharsetNone(provided: seq<string>, request: Request)
    requires HasAcceptCharsetHeader(request) && AcceptCharset(request) != [] && provided != []
    ensures var acceptable := SortMediaCharsets(AcceptCharset(request));
      MatchingCharset(provided, request).None? <==>
        forall i, j :: 0 <= i < |acceptable| && 0 <= j < |provided| ==>
          !Charsets.Matches(Charsets.ParseString(provided[j]), acceptable[i])
  {
    FindFirstInProductNone(SortMediaCharsets(AcceptCharset(request)), provided, CharsetPairMatches);
  }

  lemma MatchingCharsetChoice(provided: seq<string>, request: Request) returns (i: nat, j: nat)
    requires HasAcceptCharsetHeader(request) && AcceptCharset(request) != [] && provided != []
    requires MatchingCharset(provided, request).Some?
    ensures var acceptable := SortMediaCharsets(AcceptCharset(request));
      i < |acceptable| && j < |provided|
      && MatchingCharset(provided, request) == Some(provided[j])
      && Charsets.Matches(Charsets.ParseString(provided[j]), acceptable[i])
      && acceptable[i].weight > 0
      && (forall i', j' :: 0 <= i' < i && 0 <= j' < |provided| ==>
            !Charsets.Matches(Charsets.ParseString(provided[j']), acceptable[i']))
      && (forall j' :: 0 <= j' < j ==> !Charsets.Matches(Charsets.ParseString(provided[j']), acceptable[i]))
  {
    var acceptable := SortMediaCharsets(AcceptCharset(request));
    i, j := FindFirstInProduct(acceptable, provided, CharsetPairMatches);
    SortMediaCharsetsOrder(AcceptCharset(request));
  }

  /**
   * ISO-8859-1 stays acceptable unless the header names it or `*`: a
   * resource offering it (in any case) always finds a charset.
   */
  lemma DefaultCharsetAcceptable(provided: seq<string>, request: Request, j: nat)
    requires HasAcceptCharsetHeader(request) && AcceptCharset(request) != []
    requires !NamesDefaultCharset(AcceptCharset(request))
    requires j < |provided| && Upper(provided[j]) == "ISO-8859-1"
    ensures MatchingCharset(provided, request).Some?
  {
    var acceptable := SortMediaCharsets(AcceptCharset(request));
    SortMediaCharsetsOrder(AcceptCharset(request));
    var i :| 0 <= i < |acceptable| && acceptable[i] == Charsets.Charset("ISO-8859-1", 1000);
    assert Upper("ISO-8859-1") == "ISO-8859-1";
    assert CharsetPairMatches((acceptable[i], provided[j]));
    FindFirstInProductNone(acceptable, provided, CharsetPairMatches);
  }

  // ---------------------------------------------------------------- encodings

  /** The header already names the identity coding or the wild card. */
  predicate NamesIdentity(hs: seq<HeaderValue>) {
    exists i :: 0 <= i < |hs| && (hs[i].value == "*" || Lower(hs[i].value) == "identity")
  }

  predicate PositiveEncoding(e: Encodings.Encoding) { e.weight > 0 }

  function EncodingKey(e: Encodings.Encoding): int { -e.weight }

  /**
   * `sort_encodings`: `identity` joins at weight 1 unless the header names it
   * or `*` (section 14.3 of RFC 2616); then the entries weighted above 0,
   * heaviest first, otherwise in header order.
   */
  function SortEncodings(hs: seq<HeaderValue>): seq<Encodings.Encoding> {
    SortBy(Filter(Map(WithIdentity(hs), AsEncoding), PositiveEncoding), EncodingKey)
  }

  /** The header's entries, with `identity` appended unless the header names it or `*`. */
  function WithIdentity(hs: seq<HeaderValue>): seq<HeaderValue> {
    if NamesIdentity(hs) then hs else hs + [Basic("identity")]
  }

  /**
   * Every header entry weighted above 0 is kept, and `identity` at weight 1
   * when the header leaves it unnamed; each as often as it occurs, heaviest
   * first, and entries of equal weight in header order.
   */
  lemma SortEncodingsOrder(hs: seq<HeaderValue>)
    ensures var out := SortEncodings(hs);
      (forall i, j :: 0 <= i < j < |out| ==> out[i].weight >= out[j].weight)
      && (forall i :: 0 <= i < |out| ==> out[i].weight > 0)
      && (forall i :: 0 <= i < |hs| && AsEncoding(hs[i]).weight > 0 ==> AsEncoding(hs[i]) in out)
      && (!NamesIdentity(hs) ==> Encodings.Encoding("identity", 1000) in out)
    ensures var kept := Filter(Map(WithIdentity(hs), AsEncoding), PositiveEncoding);
      multiset(SortEncodings(hs)) == multiset(kept)
      && forall k :: KeyFilter(SortEncodings(hs), EncodingKey, k) == KeyFilter(kept, EncodingKey, k)
  {
    var all := WithIdentity(hs);
    var parsed := Map(all, AsEncoding);
    var kept := Filter(parsed, PositiveEncoding);
    SortByFacts(kept, EncodingKey);
    var out := SortEncodings(hs);
    forall i | 0 <= i < |out| ensures out[i].weight > 0 {
      assert out[i] in multiset(kept);
    }
    forall i | 0 <= i < |hs| && AsEncoding(hs[i]).weight > 0 ensures AsEncoding(hs[i]) in out {
      assert parsed[i] == AsEncoding(hs[i]);
      assert parsed[i] in kept;
      assert parsed[i] in multiset(out);
    }
    if !NamesIdentity(hs) {
      assert parsed[|hs|] == Encodings.Encoding("identity", 1000);
      assert parsed[|hs|] in kept;
      assert parsed[|hs|] in multiset(out);
    }
  }

  predicate EncodingPairMatches(pair: (Encodings.Encoding, string)) {
    Encodings.Matches(Encodings.ParseString(pair.1), pair.0)
  }

  /**
   * `matching_encoding`: with an Accept-Encoding header (even an empty one)
   * and no provided encodings, `identity` exactly when the sorted list holds
   * `identity` at weight 1; with provided encodings, as for languages;
   * without a header, `identity` or the first provided.
   */
  function MatchingEncoding(provided: seq<string>, request: Request): Option<string> {
    var identity := Encodings.ParseString("identity");
    if HasAcceptEncodingHeader(request) then
      var acceptable := SortEncodings(AcceptEncoding(request));
      if provided == [] then
        if identity in acceptable then Some("identity") else None
      else
        match FindFirst(Product(acceptable, provided), EncodingPairMatches)
        case Some(pair) => Some(Encodings.ToString(Encodings.ParseString(pair.1)))
        case None => None
    else if provided == [] then Some("identity")
    else Some(provided[0])
  }

  lemma MatchingEncodingNone(provided: seq<string>, request: Request)
    requires HasAcceptEncodingHeader(request) && provided != []
    ensures var acceptable := SortEncodings(AcceptEncoding(request));
      MatchingEncoding(provided, request).None? <==>
        forall i, j :: 0 <= i < |acceptable| && 0 <= j < |provided| ==>
          !Encodings.Matches(Encodings.ParseString(provided[j]), acceptable[i])
  {
    FindFirstInProductNone(SortEncodings(AcceptEncoding(request)), provided, EncodingPairMatches);
  }

  lemma MatchingEncodingChoice(provided: seq<string>, request: Request) returns (i: nat, j: nat)
    requires HasAcceptEncodingHeader(request) && provided != []
    requires MatchingEncoding(provided, request).Some?
    ensures var acceptable := SortEncodings(AcceptEncoding(request));
      i < |acceptable| && j < |provided|
      && MatchingEncoding(provided, request) == Some(provided[j])
      && Encodings.Matches(Encodings.ParseString(provided[j]), acceptable[i])
      && acceptable[i].weight > 0
      && (forall i', j' :: 0 <= i' < i && 0 <= j' < |provided| ==>
            !Encodings.Matches(Encodings.ParseString(provided[j']), acceptable[i']))
      && (forall j' :: 0 <= j' < j ==> !Encodings.Matches(Encodings.ParseString(provided[j']), acceptable[i]))
  {
    var acceptable := SortEncodings(AcceptEncoding(request));
    i, j := FindFirstInProduct(acceptable, provided, EncodingPairMatches);
    SortEncodingsOrder(AcceptEncoding(request));
  }

  /**
   * With no provided encodings, `identity` is chosen whenever the header
   * leaves it unnamed (so it joins at weight 1), the rule of section 14.3 of
   * RFC 2616 that identity is acceptable unless refused.
   */
  lemma IdentityAcceptableUnlessNamed(request: Request)
    requires HasAcceptEncodingHeader(request) && !NamesIdentity(AcceptEncoding(request))
    ensures MatchingEncoding([], request) == Some("identity")
  {
    SortEncodingsOrder(AcceptEncoding(request));
  }
}
