/** Caption tracks of the winning source, normalised to language codes and grouped by code. */
module Subtitles {
  import opened Wrappers
  import opened Text
  import opened Language

  /** One entry of the descriptor's `tracks` list; each key may be missing. */
  datatype Track = Track(kind: Option<string>, trackLabel: Option<string>, file: Option<string>)

  /** One subtitle entry handed to the downloader: `{'name': label, 'url': file}`. */
  datatype Subtitle = Subtitle(name: string, url: string)

  /** A subtitle together with the language code it is filed under. */
  datatype Emission = Emission(code: string, subtitle: Subtitle)

  /**
   * The label a track is shown and looked up under: a missing label is empty, and the
   * plain label "English" gets the variant appended ("English Subbed", "English Dubbed",
   * "English Rawbed").
   */
  function DisplayLabel(t: Track, v: Variant): string
  {
    var shown := if t.trackLabel.Some? then t.trackLabel.value else "";
    if shown == "English" then shown + " " + Capitalize(Name(v)) + "bed" else shown
  }

  /** `language_codes.get(label, label)`: an unmapped label is its own code. */
  function CodeOf(shown: string): string
  {
    if shown in LanguageCodes then LanguageCodes[shown] else shown
  }

  /** A track is emitted when it is a caption track with a non-empty file url. */
  predicate Emits(t: Track)
  {
    t.kind == Some("captions") && t.file.Some? && t.file.value != ""
  }

  function EmissionOf(t: Track, v: Variant): Emission
    requires Emits(t)
  {
    var shown := DisplayLabel(t, v);
    Emission(CodeOf(shown), Subtitle(shown, t.file.value))
  }

  /** The emissions of a track list, in track order. */
  function Emitted(tracks: seq<Track>, v: Variant): seq<Emission>
  {
    if tracks == [] then []
    else
      var last := tracks[|tracks| - 1];
      Emitted(tracks[..|tracks| - 1], v) + (if Emits(last) then [EmissionOf(last, v)] else [])
  }

  /** The subtitles filed under one code, in emission order. */
  function Group(es: seq<Emission>, code: string): seq<Subtitle>
  {
    if es == [] then []
    else
      var last := es[|es| - 1];
      Group(es[..|es| - 1], code) + (if last.code == code then [last.subtitle] else [])
  }

  function Codes(es: seq<Emission>): set<string>
  {
    set i | 0 <= i < |es| :: es[i].code
  }

  /** One key per emitted code, holding that code's subtitles in order. */
  function GroupMap(es: seq<Emission>): map<string, seq<Subtitle>>
  {
    map code | code in Codes(es) :: Group(es, code)
  }

  /** The reference grouping of a track list. */
  function Grouped(tracks: seq<Track>, v: Variant): map<string, seq<Subtitle>>
  {
    GroupMap(Emitted(tracks, v))
  }

  /** The English label is disambiguated by variant before the lookup. */
  lemma EnglishByVariant(t: Track)
    requires t.trackLabel == Some("English")
    ensures DisplayLabel(t, Sub) == "English Subbed" && CodeOf(DisplayLabel(t, Sub)) == "en"
    ensures DisplayLabel(t, Dub) == "English Dubbed" && CodeOf(DisplayLabel(t, Dub)) == "en-IN"
    ensures DisplayLabel(t, Raw) == "English Rawbed" && CodeOf(DisplayLabel(t, Raw)) == "English Rawbed"
  {
    assert Capitalize("sub") == "Sub";
    assert Capitalize("dub") == "Dub";
    assert Capitalize("raw") == "Raw";
  }

  /** Any other label that is not in the table passes through as its own code, for every variant. */
  lemma UnmappedLabelPassesThrough(t: Track, v: Variant, shown: string)
    requires t.trackLabel == Some(shown) && shown != "English" && shown !in LanguageCodes
    ensures CodeOf(DisplayLabel(t, v)) == shown && DisplayLabel(t, v) == shown
  {
  }

  /** Emission distributes over concatenation: tracks keep their relative order. */
  lemma {:induction false} EmittedAppend(a: seq<Track>, b: seq<Track>, v: Variant)
    ensures Emitted(a + b, v) == Emitted(a, v) + Emitted(b, v)
    decreases |b|
  {
    if b == [] {
      assert a + b == a;
    } else {
      var last := b[|b| - 1];
      assert (a + b)[..|a + b| - 1] == a + b[..|b| - 1];
      EmittedAppend(a, b[..|b| - 1], v);
    }
  }

  /** An emission comes from exactly the caption tracks that have a file. */
  lemma {:induction false} EmittedMembers(tracks: seq<Track>, v: Variant, e: Emission)
    ensures e in Emitted(tracks, v) <==> exists i :: 0 <= i < |tracks| && Emits(tracks[i]) && EmissionOf(tracks[i], v) == e
    decreases |tracks|
  {
    if tracks != [] {
      var init := tracks[..|tracks| - 1];
      EmittedMembers(init, v, e);
      if e in Emitted(tracks, v) && e !in Emitted(init, v) {
        assert Emits(tracks[|tracks| - 1]) && EmissionOf(tracks[|tracks| - 1], v) == e;
      }
      if exists i :: 0 <= i < |tracks| && Emits(tracks[i]) && EmissionOf(tracks[i], v) == e {
        var i :| 0 <= i < |tracks| && Emits(tracks[i]) && EmissionOf(tracks[i], v) == e;
        if i < |init| {
          assert init[i] == tracks[i];
        }
      }
    }
  }

  /** Grouping distributes over concatenation: within a code, earlier entries stay first. */
  lemma {:induction false} GroupAppend(a: seq<Emission>, b: seq<Emission>, code: string)
    ensures Group(a + b, code) == Group(a, code) + Group(b, code)
    decreases |b|
  {
    if b == [] {
      assert a + b == a;
    } else {
      assert (a + b)[..|a + b| - 1] == a + b[..|b| - 1];
      GroupAppend(a, b[..|b| - 1], code);
    }
  }

  /** A code's group holds exactly the subtitles emitted under that code. */
  lemma {:induction false} GroupMembers(es: seq<Emission>, code: string, s: Subtitle)
    ensures s in Group(es, code) <==> Emission(code, s) in es
    decreases |es|
  {
    if es != [] {
      var init := es[..|es| - 1];
      GroupMembers(init, code, s);
      assert es == init + [es[|es| - 1]];
    }
  }

  lemma {:induction false} GroupEmptyOutsideCodes(es: seq<Emission>, code: string)
    requires code !in Codes(es)
    ensures Group(es, code) == []
    decreases |es|
  {
    if es != [] {
      var init := es[..|es| - 1];
      assert Codes(init) <= Codes(es) by {
        forall c | c in Codes(init) ensures c in Codes(es) {
          var i :| 0 <= i < |init| && init[i].code == c;
          assert es[i] == init[i];
        }
      }
      GroupEmptyOutsideCodes(init, code);
    }
  }

  lemma CodesSnoc(es: seq<Emission>, e: Emission)
    ensures Codes(es + [e]) == Codes(es) + {e.code}
  {
    var es' := es + [e];
    forall c | c in Codes(es') ensures c in Codes(es) + {e.code} {
      var i :| 0 <= i < |es'| && es'[i].code == c;
      if i < |es| { assert es[i] == es'[i]; }
    }
    forall c | c in Codes(es) ensures c in Codes(es') {
      var i :| 0 <= i < |es| && es[i].code == c;
      assert es'[i] == es[i];
    }
    assert es'[|es|] == e;
  }

  /** One more emission appends its subtitle to its own code's list and touches no other. */
  lemma GroupMapSnoc(es: seq<Emission>, e: Emission)
    ensures var before := GroupMap(es);
      GroupMap(es + [e]) == before[e.code := (if e.code in before then before[e.code] else []) + [e.subtitle]]
  {
    var es' := es + [e];
    assert es'[..|es'| - 1] == es && es'[|es'| - 1] == e;
    CodesSnoc(es, e);
    if e.code !in Codes(es) {
      GroupEmptyOutsideCodes(es, e.code);
    }
    var before := GroupMap(es);
    var after := before[e.code := (if e.code in before then before[e.code] else []) + [e.subtitle]];
    assert GroupMap(es').Keys == after.Keys;
    forall c | c in after ensures GroupMap(es')[c] == after[c] {
      if c != e.code {
        assert Group(es', c) == Group(es, c) + [];
      }
    }
  }

  /** One more track either leaves the grouping alone or appends to one code's list. */
  lemma GroupedSnoc(tracks: seq<Track>, t: Track, v: Variant)
    ensures !Emits(t) ==> Grouped(tracks + [t], v) == Grouped(tracks, v)
    ensures Emits(t) ==>
      var e := EmissionOf(t, v);
      var before := Grouped(tracks, v);
      Grouped(tracks + [t], v) == before[e.code := (if e.code in before then before[e.code] else []) + [e.subtitle]]
  {
    var ts := tracks + [t];
    assert ts[..|ts| - 1] == tracks && ts[|ts| - 1] == t;
    if Emits(t) {
      assert Emitted(ts, v) == Emitted(tracks, v) + [EmissionOf(t, v)];
      GroupMapSnoc(Emitted(tracks, v), EmissionOf(t, v));
    } else {
      assert Emitted(ts, v) == Emitted(tracks, v) + [];
      assert Emitted(ts, v) == Emitted(tracks, v);
    }
  }

  /** The `subtitles.setdefault(code, []).append(...)` loop over the descriptor's tracks. */
  method GroupSubtitles(tracks: seq<Track>, v: Variant) returns (subtitles: map<string, seq<Subtitle>>)
    ensures subtitles == Grouped(tracks, v)
  {
    subtitles := map[];
    for i := 0 to |tracks|
      invariant subtitles == Grouped(tracks[..i], v)
    {
      var track := tracks[i];
      assert tracks[..i + 1] == tracks[..i] + [track];
      GroupedSnoc(tracks[..i], track, v);
      if track.kind != Some("captions") {
        continue;
      }
      var shown := DisplayLabel(track, v);
      var code := CodeOf(shown);
      if track.file.Some? && track.file.value != "" {
        var list := if code in subtitles then subtitles[code] else [];
        subtitles := subtitles[code := list + [Subtitle(shown, track.file.value)]];
      }
    }
    assert tracks[..|tracks|] == tracks;
  }
}
