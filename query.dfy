/**
 * Query strings (`lib.rs`): percent-decoding of one component, after
 * section 2.1 of RFC 3986 with `+` read as a space, and splitting a query
 * into names with the list of values given for each.
 */
module Query {
  import opened Strings
  import opened Lists

  predicate IsHexDigit(c: char) {
    ('0' <= c <= '9') || ('a' <= c <= 'f') || ('A' <= c <= 'F')
  }

  function HexValue(c: char): (v: nat)
    requires IsHexDigit(c)
    ensures v < 16
  {
    if '0' <= c <= '9' then c as int - '0' as int
    else if 'a' <= c <= 'f' then c as int - 'a' as int + 10
    else c as int - 'A' as int + 10
  }

  /** The upper-case hexadecimal digit of `v`. */
  function HexDigit(v: nat): (c: char)
    requires v < 16
    ensures IsHexDigit(c) && HexValue(c) == v
  {
    if v < 10 then ('0' as int + v) as char else ('A' as int + v - 10) as char
  }

  /** What a `%` and the two characters after it decode to. */
  function Escape(v1: char, v2: char): string {
    if IsHexDigit(v1) && IsHexDigit(v2) then [(HexValue(v1) * 16 + HexValue(v2)) as char] else ['%', v1, v2]
  }

  /**
   * What `decode_query` produces: `+` becomes a space; `%` and two
   * hexadecimal digits become the character with that code (a byte read as
   * Latin-1); any other `%` sequence, including one cut short by the end,
   * is kept as written.
   */
  function Decoded(q: string): string
    decreases |q|
  {
    if q == [] then []
    else if q[0] == '%' then
      if |q| >= 3 then Escape(q[1], q[2]) + Decoded(q[3..]) else q
    else if q[0] == '+' then [' '] + Decoded(q[1..])
    else [q[0]] + Decoded(q[1..])
  }

  lemma DecodedEscape(q: string)
    requires |q| >= 3 && q[0] == '%'
    ensures Decoded(q) == Escape(q[1], q[2]) + Decoded(q[3..])
  {
  }

  lemma DecodedShort(q: string)
    requires 1 <= |q| < 3 && q[0] == '%'
    ensures Decoded(q) == q
  {
  }

  lemma DecodedSingle(q: string)
    requires |q| >= 1 && q[0] != '%'
    ensures Decoded(q) == (if q[0] == '+' then " " else [q[0]]) + Decoded(q[1..])
  {
  }

  /** The characters the pass consumes at `i`, and what it appends for them. */
  lemma DecodedAt(query: string, i: nat, piece: string, width: nat)
    requires i < |query|
    requires query[i] == '%' && i + 2 < |query| ==> piece == Escape(query[i + 1], query[i + 2]) && width == 3
    requires query[i] == '%' && i + 2 >= |query| ==> piece == query[i..] && width == |query| - i
    requires query[i] != '%' ==> piece == (if query[i] == '+' then " " else [query[i]]) && width == 1
    ensures 0 < width && i + width <= |query|
    ensures Decoded(query[i..]) == piece + Decoded(query[i + width..])
  {
    if query[i] == '%' && i + 2 < |query| {
      DecodedEscape(query[i..]);
    } else if query[i] == '%' {
      DecodedShort(query[i..]);
    } else {
      DecodedSingle(query[i..]);
    }
    assert query[i..][width..] == query[i + width..];
  }

  /** `decode_query`: one pass over the characters, appending to the result. */
  method DecodeQuery(query: string) returns (result: string)
    ensures result == Decoded(query)
  {
    result := "";
    var i := 0;
    while i < |query|
      invariant 0 <= i <= |query|
      invariant result + Decoded(query[i..]) == Decoded(query)
    {
      var c := query[i];
      var piece, width;
      if c == '%' && i + 2 < |query| {
        piece, width := Escape(query[i + 1], query[i + 2]), 3;
      } else if c == '%' {
        piece, width := query[i..], |query| - i;
      } else {
        piece, width := if c == '+' then " " else [c], 1;
      }
      DecodedAt(query, i, piece, width);
      assert (result + piece) + Decoded(query[i + width..]) == result + (piece + Decoded(query[i + width..]));
      result := result + piece;
      i := i + width;
    }
  }

  /** The characters a query component cannot carry literally. */
  predicate IsReserved(c: char) {
    c == '%' || c == '+' || c == '&' || c == '='
  }

  function EncodedChar(c: char): (e: string)
    ensures '&' !in e && '=' !in e
  {
    if IsReserved(c) then ['%', HexDigit(c as int / 16), HexDigit(c as int % 16)]
    else if c == ' ' then ['+']
    else [c]
  }

  /** A percent-encoding that `decode_query` reverses. */
  function Encoded(s: string): (e: string)
    ensures '&' !in e && '=' !in e
  {
    if s == [] then [] else EncodedChar(s[0]) + Encoded(s[1..])
  }

  lemma DecodedEncodedChar(c: char, rest: string)
    ensures Decoded(EncodedChar(c) + rest) == [c] + Decoded(rest)
  {
    var q := EncodedChar(c) + rest;
    if IsReserved(c) {
      assert q[3..] == rest;
      assert (HexValue(q[1]) * 16 + HexValue(q[2])) == c as int;
    } else {
      assert q[1..] == rest;
    }
  }

  /** `decode_query` inverts the encoding: every text survives the round trip. */
  lemma {:induction false} DecodedEncoded(s: string)
    ensures Decoded(Encoded(s)) == s
  {
    if s != [] {
      DecodedEncodedChar(s[0], Encoded(s[1..]));
      DecodedEncoded(s[1..]);
      assert s == [s[0]] + s[1..];
    }
  }

  /** Text with no `%` or `+` is its own decoding. */
  lemma {:induction false} DecodedPlain(s: string)
    requires '%' !in s && '+' !in s
    ensures Decoded(s) == s
  {
    if s != [] {
      assert s[1..] == s[1..] && forall k :: 0 <= k < |s| - 1 ==> s[1..][k] == s[k + 1];
      DecodedPlain(s[1..]);
      assert s == [s[0]] + s[1..];
    }
  }

  /** The example of the source's tests. */
  lemma DecodedSpaces()
    ensures Decoded("a%20b%20c") == "a b c"
  {
    assert Escape('2', '0') == " " by {
      assert HexValue('2') * 16 + HexValue('0') == 32;
    }
    DecodedSingle("c");
    DecodedEscape("%20c");
    assert "%20c"[3..] == "c";
    DecodedSingle("b%20c");
    assert "b%20c"[1..] == "%20c";
    DecodedEscape("%20b%20c");
    assert "%20b%20c"[3..] == "b%20c";
    DecodedSingle("a%20b%20c");
    assert "a%20b%20c"[1..] == "%20b%20c";
  }

  // ---------------------------------------------------------------- parse_query

  /** One `&`-piece: nothing when empty, else the name and, after the first `=`, the value. */
  function Segment(kv: string): (nv: seq<string>)
    ensures |nv| <= 2
    ensures kv == [] <==> nv == []
  {
    if kv == [] then []
    else if '=' in kv then SplitOnce(kv, '=')
    else [kv]
  }

  function NameOf(nv: seq<string>): string
    requires nv != []
  {
    Decoded(nv[0])
  }

  function ValueOf(nv: seq<string>): string
    requires nv != []
  {
    if |nv| > 1 then Decoded(nv[1]) else ""
  }

  /** One step of the fold: append the decoded value under the decoded name. */
  function AddSegment(m: map<string, seq<string>>, nv: seq<string>): map<string, seq<string>> {
    if nv == [] then m
    else
      var name := NameOf(nv);
      m[name := (if name in m then m[name] else []) + [ValueOf(nv)]]
  }

  function Fold(m: map<string, seq<string>>, segments: seq<seq<string>>): map<string, seq<string>>
    decreases |segments|
  {
    if segments == [] then m else Fold(AddSegment(m, segments[0]), segments[1..])
  }

  function Segments(query: string): seq<seq<string>> {
    Map(Split(query, '&'), Segment)
  }

  /** `parse_query`. */
  function ParseQuery(query: string): map<string, seq<string>> {
    if query == [] then map[] else Fold(map[], Segments(query))
  }

  /** The reference: the values the segments give for `name`, in order. */
  function ValuesFor(segments: seq<seq<string>>, name: string): seq<string> {
    if segments == [] then []
    else
      (if segments[0] != [] && NameOf(segments[0]) == name then [ValueOf(segments[0])] else [])
      + ValuesFor(segments[1..], name)
  }

  lemma {:induction false} FoldValues(m: map<string, seq<string>>, segments: seq<seq<string>>, name: string)
    ensures name in Fold(m, segments) <==> name in m || ValuesFor(segments, name) != []
    ensures name in Fold(m, segments) ==>
      Fold(m, segments)[name] == (if name in m then m[name] else []) + ValuesFor(segments, name)
    decreases |segments|
  {
    if segments != [] {
      FoldValues(AddSegment(m, segments[0]), segments[1..], name);
    }
  }

  /**
   * `parse_query` lists, under each decoded name, the decoded values of the
   * pieces naming it in the order given; names no piece gives are absent,
   * and an empty query gives no names.
   */
  lemma ParseQueryValues(query: string, name: string)
    ensures query == [] ==> ParseQuery(query) == map[]
    ensures query != [] ==>
      (name in ParseQuery(query) <==> ValuesFor(Segments(query), name) != [])
      && (name in ParseQuery(query) ==> ParseQuery(query)[name] == ValuesFor(Segments(query), name))
  {
    if query != [] {
      FoldValues(map[], Segments(query), name);
    }
  }

  // ---------------------------------------------------------------- round trip

  function EncodedPair(p: (string, string)): string {
    Encoded(p.0) + "=" + Encoded(p.1)
  }

  /** A query naming each pair, components encoded, pieces joined by `&`. */
  function EncodedQuery(pairs: seq<(string, string)>): string {
    Join(Map(pairs, EncodedPair), "&")
  }

  /** The values the pairs give for `name`, in order. */
  function PairValues(pairs: seq<(string, string)>, name: string): seq<string> {
    if pairs == [] then []
    else (if pairs[0].0 == name then [pairs[0].1] else []) + PairValues(pairs[1..], name)
  }

  lemma SegmentOfPair(p: (string, string))
    ensures Segment(EncodedPair(p)) == [Encoded(p.0), Encoded(p.1)]
  {
    var kv := EncodedPair(p);
    var k := |Encoded(p.0)|;
    assert kv[k] == '=' && kv[..k] == Encoded(p.0) && kv[k + 1..] == Encoded(p.1);
    IndexOfFirst(kv, '=', k);
  }

  lemma {:induction false} ValuesForPairs(pairs: seq<(string, string)>, name: string)
    ensures ValuesFor(Map(Map(pairs, EncodedPair), Segment), name) == PairValues(pairs, name)
  {
    if pairs != [] {
      var segs := Map(Map(pairs, EncodedPair), Segment);
      SegmentOfPair(pairs[0]);
      DecodedEncoded(pairs[0].0);
      DecodedEncoded(pairs[0].1);
      assert segs[1..] == Map(Map(pairs[1..], EncodedPair), Segment);
      ValuesForPairs(pairs[1..], name);
    }
  }

  /**
   * `parse_query` reads back any list of name/value pairs written as an
   * encoded query: each name carries exactly its values, in order.
   */
  lemma ParseEncodedQuery(pairs: seq<(string, string)>, name: string)
    requires pairs != []
    ensures var m := ParseQuery(EncodedQuery(pairs));
      (name in m <==> PairValues(pairs, name) != [])
      && (name in m ==> m[name] == PairValues(pairs, name))
  {
    var pieces := Map(pairs, EncodedPair);
    forall piece | piece in pieces ensures '&' !in piece {
      var i :| 0 <= i < |pieces| && pieces[i] == piece;
    }
    SplitJoin(pieces, '&');
    var q := EncodedQuery(pairs);
    assert q != [] by {
      assert |pieces[0]| > 0;
      if |pieces| > 1 {
        assert q == pieces[0] + "&" + Join(pieces[1..], "&");
      }
    }
    ParseQueryValues(q, name);
    ValuesForPairs(pairs, name);
  }
}
