/**
 * Header values as the core uses them: a value, its `;`-parameters and a
 * flag saying whether it is written quoted. Parsing header text into this
 * shape belongs to the headers module, which is not part of this model;
 * where the core calls that parser, the engine takes it as a parameter.
 */
module Headers {
  import opened Strings
  import MediaTypes
  import MediaLanguages
  import Charsets
  import Encodings

  datatype HeaderValue = HeaderValue(value: string, params: map<string, string>, quote: bool)

  /** `HeaderValue::basic`: the text as the value, no parameters, unquoted. */
  function Basic(s: string): HeaderValue {
    HeaderValue(s, map[], false)
  }

  /** `HeaderValue::quote`. */
  function Quote(h: HeaderValue): HeaderValue {
    h.(quote := true)
  }

  function BasicValues(values: seq<string>): (hs: seq<HeaderValue>)
    ensures |hs| == |values| && forall i :: 0 <= i < |values| ==> hs[i] == Basic(values[i])
  {
    seq(|values|, i requires 0 <= i < |values| => Basic(values[i]))
  }

  /** The value read as a media type, weighted by its `q` parameter when it has one. */
  function AsMediaType(h: HeaderValue): MediaTypes.MediaType {
    var m := MediaTypes.ParseString(h.value);
    if "q" in h.params then MediaTypes.WithWeight(m, h.params["q"]) else m
  }

  function AsMediaLanguage(h: HeaderValue): MediaLanguages.MediaLanguage {
    var l := MediaLanguages.ParseString(h.value);
    if "q" in h.params then MediaLanguages.WithWeight(l, h.params["q"]) else l
  }

  function AsCharset(h: HeaderValue): Charsets.Charset {
    var c := Charsets.ParseString(h.value);
    if "q" in h.params then Charsets.WithWeight(c, h.params["q"]) else c
  }

  function AsEncoding(h: HeaderValue): Encodings.Encoding {
    var e := Encodings.ParseString(h.value);
    if "q" in h.params then Encodings.WithWeight(e, h.params["q"]) else e
  }

  /** The text of an entity tag with one pair of surrounding double quotes removed. */
  function Unquote(s: string): string {
    if |s| >= 2 && s[0] == '"' && s[|s| - 1] == '"' then s[1..|s| - 1] else s
  }

  /**
   * The opaque tag of a weak entity tag `W/"..."`, a fixed reading of
   * `HeaderValue::weak_etag`: the text after `W/`, its quotes removed. That
   * parser is not part of this model, so a weak tag it would refuse (the
   * engine then panics) is read here like any other.
   */
  function WeakEtag(h: HeaderValue): string
    requires StartsWith(h.value, "W/")
  {
    Unquote(h.value[2..])
  }
}
