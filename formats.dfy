/** The formats a manifest yields, and how the extractor stamps each of them. */
module Formats {
  import opened Wrappers
  import opened Text
  import opened Language

  /**
   * One format dictionary returned by HLS manifest extraction. Only the keys the
   * extractor reads or writes are kept: `height` may be missing, `language` and
   * `http_headers` may not have been set yet.
   */
  datatype Format = Format(
    url: string,
    height: Option<nat>,
    formatId: string,
    language: Option<string>,
    httpHeaders: Option<map<string, string>>)

  /** `f'{height}'`: a missing height prints as `None`. */
  function HeightText(height: Option<nat>): string
  {
    match height
    case None => "None"
    case Some(n) => NatToString(n)
  }

  /** `f'{server_type}_{height}p'`. */
  function FormatId(v: Variant, height: Option<nat>): string
  {
    Name(v) + "_" + HeightText(height) + "p"
  }

  /** The format id names its variant and its height exactly: no two (variant, height) pairs share one. */
  lemma FormatIdInjective(v1: Variant, h1: Option<nat>, v2: Variant, h2: Option<nat>)
    requires FormatId(v1, h1) == FormatId(v2, h2)
    ensures v1 == v2 && h1 == h2
  {
    var s1, s2 := FormatId(v1, h1), FormatId(v2, h2);
    assert s1[..3] == Name(v1) && s2[..3] == Name(v2);
    assert HeightText(h1) == s1[4..|s1| - 1];
    assert HeightText(h2) == s2[4..|s2| - 1];
    if h1.Some? && h2.Some? {
      NatToStringInjective(h1.value, h2.value);
    } else {
      assert IsDigit(HeightText(h1)[0]) == h1.Some?;
      assert IsDigit(HeightText(h2)[0]) == h2.Some?;
    }
  }

  /** The rewrite applied to one format dictionary: id, language and request headers. */
  function Stamp(f: Format, v: Variant, headers: map<string, string>): Format
  {
    f.(formatId := FormatId(v, f.height), language := Some(AudioLanguage(v)), httpHeaders := Some(headers))
  }

  /** A whole format list, stamped element by element. */
  function Stamped(fs: seq<Format>, v: Variant, headers: map<string, string>): seq<Format>
  {
    seq(|fs|, i requires 0 <= i < |fs| => Stamp(fs[i], v, headers))
  }

  /**
   * A stamped format carries its variant's id, language and the given headers, and
   * keeps its url and height; stamping again changes nothing.
   */
  lemma StampedMeaning(fs: seq<Format>, v: Variant, headers: map<string, string>, i: nat)
    requires i < |fs|
    ensures |Stamped(fs, v, headers)| == |fs|
    ensures var g := Stamped(fs, v, headers)[i];
      && g.url == fs[i].url && g.height == fs[i].height
      && g.formatId == FormatId(v, fs[i].height)
      && g.language == Some(AudioLanguage(v))
      && g.httpHeaders == Some(headers)
    ensures Stamped(Stamped(fs, v, headers), v, headers) == Stamped(fs, v, headers)
  {
  }

  /** The loop over `formats` that rewrites each dictionary in place. */
  method StampFormats(formats: array<Format>, v: Variant, headers: map<string, string>)
    modifies formats
    ensures formats[..] == Stamped(old(formats[..]), v, headers)
  {
    for i := 0 to formats.Length
      invariant forall j :: 0 <= j < i ==> formats[j] == Stamp(old(formats[j]), v, headers)
      invariant forall j :: i <= j < formats.Length ==> formats[j] == old(formats[j])
    {
      formats[i] := Stamp(formats[i], v, headers);
    }
  }
}
