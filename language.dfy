/** The audio variant a user asks for, and the two tables the extractor keeps about languages. */
module Language {
  import opened Wrappers
  import opened Text

  /** The audio/subtitle class of a stream: original audio with subtitles, dubbed audio, or raw. */
  datatype Variant = Sub | Dub | Raw

  /** The lower-case name the variant has on the site and in the configuration. */
  function Name(v: Variant): string
  {
    match v
    case Sub => "sub"
    case Dub => "dub"
    case Raw => "raw"
  }

  /** The variant a configuration value names, if it names one. */
  function ParseVariant(s: string): (r: Option<Variant>)
    ensures r.Some? <==> s in {"sub", "dub", "raw"}
    ensures r.Some? ==> Name(r.value) == s
  {
    if s == "sub" then Some(Sub)
    else if s == "dub" then Some(Dub)
    else if s == "raw" then Some(Raw)
    else None
  }

  /** Every variant is read back from its own name. */
  lemma ParseName(v: Variant)
    ensures ParseVariant(Name(v)) == Some(v)
  {
  }

  /**
   * The variant chosen by the `language` extractor argument: the last value given,
   * lower-cased, when it is one of the three names; `sub` otherwise.
   */
  function SelectedLanguage(args: seq<string>): (v: Variant)
    ensures |args| > 0 && Lower(args[|args| - 1]) in {"sub", "dub", "raw"} ==> Name(v) == Lower(args[|args| - 1])
    ensures |args| == 0 || Lower(args[|args| - 1]) !in {"sub", "dub", "raw"} ==> v == Sub
  {
    if |args| > 0 then
      match ParseVariant(Lower(args[|args| - 1]))
      case Some(choice) => choice
      case None => Sub
    else
      Sub
  }

  /** Only the last value is consulted: what comes before it never matters. */
  lemma SelectedLanguageIgnoresEarlier(xs: seq<string>, ys: seq<string>, last: string)
    ensures SelectedLanguage(xs + [last]) == SelectedLanguage(ys + [last])
  {
    assert (xs + [last])[|xs|] == last;
    assert (ys + [last])[|ys|] == last;
  }

  /** The choice is case-insensitive: a value and its lower-cased form select the same variant. */
  lemma SelectedLanguageCaseInsensitive(xs: seq<string>, last: string)
    ensures SelectedLanguage(xs + [Lower(last)]) == SelectedLanguage(xs + [last])
  {
    SelectedLanguageIgnoresEarlier(xs, [], Lower(last));
    SelectedLanguageIgnoresEarlier(xs, [], last);
    LowerIdempotent(last);
  }

  /** The `language` table: the audio language of each variant. */
  function AudioLanguage(v: Variant): string
  {
    match v
    case Sub => "ja"
    case Dub => "en"
    case Raw => "ja"
  }

  /** The `language_codes` table: caption labels to language codes. */
  const LanguageCodes: map<string, string> := map[
    "Arabic" := "ar",
    "English Dubbed" := "en-IN",
    "English Subbed" := "en",
    "French - Francais(France)" := "fr",
    "German - Deutsch" := "de",
    "Italian - Italiano" := "it",
    "Portuguese - Portugues(Brasil)" := "pt",
    "Russian" := "ru",
    "Spanish - Espanol" := "es",
    "Spanish - Espanol(Espana)" := "es"
  ]
}
