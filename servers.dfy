/**
 * The server-candidate resolver: for one episode and one variant, try the mirror labels
 * HD-1, HD-2, HD-3 in that order and keep the first that yields a playable format list.
 */
module Servers {
  import opened Wrappers
  import opened Text
  import opened Language
  import opened Formats
  import opened Subtitles

  /**
   * One `<div data-type=...>` block of the servers payload. `text` is the block's full
   * markup; `linkTexts` holds every text that stands, up to surrounding whitespace,
   * between a `>` and a `</a>` in it; `dataIds` holds its `data-id` attribute values in
   * document order.
   */
  datatype Block = Block(text: string, linkTexts: set<string>, dataIds: seq<string>)

  /** The `file` key of a media-file entry: missing, JSON null, or a string. */
  datatype FileField = Missing | Null | Url(url: string)

  datatype MediaFile = MediaFile(file: FileField)

  /** What the decryption collaborator returns for an embed url (missing lists are empty). */
  datatype Descriptor = Descriptor(sources: seq<MediaFile>, sourcesBackup: seq<MediaFile>, tracks: seq<Track>)

  /** The sources lookup for a candidate id: it raised, or it answered with a possibly missing `link`. */
  datatype SourcesReply = LookupRaised | Reply(link: Option<string>)

  /**
   * The collaborators the resolver calls, as functions of what they are called with:
   * the sources endpoint (by candidate id), the decryption routine (by embed url; `None`
   * when it raises) and HLS manifest extraction (by manifest url; `None` when it raises).
   */
  datatype Collaborators = Collaborators(
    sources: string -> SourcesReply,
    decrypt: string -> Option<Descriptor>,
    manifest: string -> Option<seq<Format>>)

  /** An accepted candidate: its server id, its stamped formats and the descriptor they came from. */
  datatype Winner = Winner(serverId: string, formats: seq<Format>, descriptor: Descriptor)

  /** What probing one label comes to. Every outcome except `Works` moves on to the next label. */
  datatype Probe = Absent | NoLink | Raised | NoManifests | NoFormats | Works(winner: Winner)

  /** The mirror labels, in priority order. */
  const Labels: seq<string> := ["HD-1", "HD-2", "HD-3"]

  /** The headers every manifest is fetched with and every format is stamped with. */
  const Referer: map<string, string> := map["Referer" := "https://megacloud.blog/"]

  /** `f'data-type="{server_type}"'`. */
  function TypeMarker(v: Variant): string
  {
    "data-type=\"" + Name(v) + "\""
  }

  predicate Tagged(b: Block, v: Variant)
  {
    Contains(b.text, TypeMarker(v))
  }

  /** The blocks that carry the variant's `data-type` literally, in document order. */
  function FilterVariant(bs: seq<Block>, v: Variant): seq<Block>
  {
    if bs == [] then [] else (if Tagged(bs[0], v) then [bs[0]] else []) + FilterVariant(bs[1..], v)
  }

  /** A block survives the filter exactly when it carries the variant's marker. */
  lemma {:induction false} FilterVariantMembers(bs: seq<Block>, v: Variant, b: Block)
    ensures b in FilterVariant(bs, v) <==> b in bs && Tagged(b, v)
    decreases |bs|
  {
    if bs != [] {
      FilterVariantMembers(bs[1..], v, b);
      assert bs == [bs[0]] + bs[1..];
    }
  }

  /** Filtering distributes over concatenation, so document order is kept. */
  lemma {:induction false} FilterVariantAppend(a: seq<Block>, b: seq<Block>, v: Variant)
    ensures FilterVariant(a + b, v) == FilterVariant(a, v) + FilterVariant(b, v)
    decreases |a|
  {
    if a != [] {
      assert (a + b)[1..] == a[1..] + b;
      FilterVariantAppend(a[1..], b, v);
    } else {
      assert a + b == b;
    }
  }

  /** `re.search(r'data-id="([^"]+)"', block)`: the first non-empty `data-id` value. */
  function FirstNonEmpty(ids: seq<string>): (r: Option<string>)
    ensures r.Some? ==> r.value != "" && r.value in ids
    ensures r.None? <==> forall i :: 0 <= i < |ids| ==> ids[i] == ""
    ensures r.Some? ==> exists k :: 0 <= k < |ids| && ids[k] == r.value && forall j :: 0 <= j < k ==> ids[j] == ""
  {
    if ids == [] then None
    else if ids[0] != "" then Some(ids[0])
    else
      assert forall k :: 0 <= k < |ids| - 1 ==> ids[1..][k] == ids[k + 1];
      FirstNonEmpty(ids[1..])
  }

  /** The id a block offers for a label: its first data-id, if it advertises the label. */
  function Offer(b: Block, tag: string): Option<string>
  {
    if tag in b.linkTexts then FirstNonEmpty(b.dataIds) else None
  }

  /** The candidate id for a label: the offer of the first block that makes one. */
  function FirstCandidate(bs: seq<Block>, tag: string): (r: Option<string>)
    ensures r.Some? ==> r.value != ""
  {
    if bs == [] then None
    else if Offer(bs[0], tag).Some? then Offer(bs[0], tag)
    else FirstCandidate(bs[1..], tag)
  }

  /** The candidate is the offer of the first offering block, and there is none when no block offers. */
  lemma {:induction false} FirstCandidateIsFirst(bs: seq<Block>, tag: string, id: string)
    ensures FirstCandidate(bs, tag) == Some(id) <==>
      exists k :: 0 <= k < |bs| && Offer(bs[k], tag) == Some(id) && forall j :: 0 <= j < k ==> Offer(bs[j], tag).None?
    ensures FirstCandidate(bs, tag).None? <==> forall k :: 0 <= k < |bs| ==> Offer(bs[k], tag).None?
    decreases |bs|
  {
    if bs != [] {
      var rest := bs[1..];
      FirstCandidateIsFirst(rest, tag, id);
      if Offer(bs[0], tag).None? {
        if FirstCandidate(bs, tag) == Some(id) {
          var k :| 0 <= k < |rest| && Offer(rest[k], tag) == Some(id) && forall j :: 0 <= j < k ==> Offer(rest[j], tag).None?;
          assert bs[k + 1] == rest[k];
          assert forall j :: 0 <= j < k + 1 ==> Offer(bs[j], tag).None? by {
            forall j | 0 <= j < k + 1 ensures Offer(bs[j], tag).None? {
              if j > 0 { assert bs[j] == rest[j - 1]; }
            }
          }
        }
        if exists k :: 0 <= k < |bs| && Offer(bs[k], tag) == Some(id) && forall j :: 0 <= j < k ==> Offer(bs[j], tag).None? {
          var k :| 0 <= k < |bs| && Offer(bs[k], tag) == Some(id) && forall j :: 0 <= j < k ==> Offer(bs[j], tag).None?;
          assert k > 0 && rest[k - 1] == bs[k];
          assert forall j :: 0 <= j < k - 1 ==> Offer(rest[j], tag).None? by {
            forall j | 0 <= j < k - 1 ensures Offer(rest[j], tag).None? {
              assert rest[j] == bs[j + 1];
            }
          }
        }
        if forall k :: 0 <= k < |rest| ==> Offer(rest[k], tag).None? {
          forall k | 0 <= k < |bs| ensures Offer(bs[k], tag).None? {
            if k > 0 { assert bs[k] == rest[k - 1]; }
          }
        }
        if forall k :: 0 <= k < |bs| ==> Offer(bs[k], tag).None? {
          forall k | 0 <= k < |rest| ensures Offer(rest[k], tag).None? {
            assert rest[k] == bs[k + 1];
          }
        }
      }
    }
  }

  /** The inner loop over the filtered blocks that stops at the first block offering an id. */
  method FindCandidate(bs: seq<Block>, tag: string) returns (candidate: Option<string>)
    ensures candidate == FirstCandidate(bs, tag)
  {
    candidate := None;
    for i := 0 to |bs|
      invariant candidate.None?
      invariant FirstCandidate(bs, tag) == FirstCandidate(bs[i..], tag)
    {
      assert bs[i..][0] == bs[i] && bs[i..][1..] == bs[i + 1..];
      var block := bs[i];
      if tag in block.linkTexts {
        var m := FirstNonEmpty(block.dataIds);
        if m.Some? {
          candidate := m;
          break;
        }
      }
    }
  }

  /**
   * The `.m3u8` list comprehension: the `file` values ending in `.m3u8`, in order. A
   * JSON-null `file` makes `.endswith` raise, so the whole list is `None`.
   */
  function ManifestList(files: seq<MediaFile>): Option<seq<string>>
  {
    if files == [] then Some([])
    else
      match files[0].file
      case Null => None
      case Missing => ManifestList(files[1..])
      case Url(u) =>
        match ManifestList(files[1..])
        case None => None
        case Some(rest) => Some((if EndsWith(u, ".m3u8") then [u] else []) + rest)
  }

  /** Primary entries, then backup entries. */
  function Manifests(d: Descriptor): Option<seq<string>>
  {
    ManifestList(d.sources + d.sourcesBackup)
  }

  /** The list of a concatenation is the concatenation of the lists: primary entries come first. */
  lemma {:induction false} ManifestListAppend(a: seq<MediaFile>, b: seq<MediaFile>)
    ensures ManifestList(a + b) ==
      if ManifestList(a).Some? && ManifestList(b).Some? then Some(ManifestList(a).value + ManifestList(b).value) else None
    decreases |a|
  {
    if a == [] {
      assert a + b == b;
      if ManifestList(b).Some? {
        assert [] + ManifestList(b).value == ManifestList(b).value;
      }
    } else {
      assert (a + b)[0] == a[0] && (a + b)[1..] == a[1..] + b;
      ManifestListAppend(a[1..], b);
      if a[0].file.Url? && ManifestList(a[1..]).Some? && ManifestList(b).Some? {
        var u := a[0].file.url;
        var head: seq<string> := if EndsWith(u, ".m3u8") then [u] else [];
        assert head + (ManifestList(a[1..]).value + ManifestList(b).value)
            == (head + ManifestList(a[1..]).value) + ManifestList(b).value;
      }
    }
  }

  /** The list is missing exactly when some entry has a null `file`. */
  lemma {:induction false} ManifestListRaises(files: seq<MediaFile>)
    ensures ManifestList(files).None? <==> exists i :: 0 <= i < |files| && files[i].file == Null
    decreases |files|
  {
    if files != [] {
      var rest := files[1..];
      ManifestListRaises(rest);
      if exists i :: 0 <= i < |rest| && rest[i].file == Null {
        var i :| 0 <= i < |rest| && rest[i].file == Null;
        assert files[i + 1] == rest[i];
      }
      if exists i :: 0 <= i < |files| && files[i].file == Null {
        var i :| 0 <= i < |files| && files[i].file == Null;
        if i > 0 { assert rest[i - 1] == files[i]; }
      }
    }
  }

  /** It holds exactly the entries' urls that end in `.m3u8`. */
  lemma {:induction false} ManifestListMembers(files: seq<MediaFile>, u: string)
    requires ManifestList(files).Some?
    ensures u in ManifestList(files).value <==>
      EndsWith(u, ".m3u8") && exists i :: 0 <= i < |files| && files[i].file == Url(u)
    decreases |files|
  {
    if files != [] {
      var rest := files[1..];
      ManifestListMembers(rest, u);
      if exists i :: 0 <= i < |rest| && rest[i].file == Url(u) {
        var i :| 0 <= i < |rest| && rest[i].file == Url(u);
        assert files[i + 1] == rest[i];
      }
      if exists i :: 0 <= i < |files| && files[i].file == Url(u) {
        var i :| 0 <= i < |files| && files[i].file == Url(u);
        if i > 0 { assert rest[i - 1] == files[i]; }
      }
    }
  }

  /** A backup-only manifest is still collected, after whatever the primary list contributes. */
  lemma BackupManifestCollected(d: Descriptor, k: nat)
    requires ManifestList(d.sources) == Some([])
    requires ManifestList(d.sourcesBackup).Some?
    requires k < |d.sourcesBackup| && d.sourcesBackup[k].file.Url? && EndsWith(d.sourcesBackup[k].file.url, ".m3u8")
    ensures Manifests(d) == ManifestList(d.sourcesBackup)
    ensures d.sourcesBackup[k].file.url in Manifests(d).value
  {
    ManifestListAppend(d.sources, d.sourcesBackup);
    assert [] + ManifestList(d.sourcesBackup).value == ManifestList(d.sourcesBackup).value;
    ManifestListMembers(d.sourcesBackup, d.sourcesBackup[k].file.url);
  }

  /** A manifest url is accepted when its extraction returns a non-empty format list. */
  predicate Accepts(extract: string -> Option<seq<Format>>, u: string)
  {
    extract(u).Some? && extract(u).value != []
  }

  /** Every format carries the variant's id scheme, the variant's language and the Referer headers. */
  predicate StampedFor(fs: seq<Format>, v: Variant)
  {
    forall i :: 0 <= i < |fs| ==>
      && fs[i].formatId == FormatId(v, fs[i].height)
      && fs[i].language == Some(AudioLanguage(v))
      && fs[i].httpHeaders == Some(Referer)
  }

  /** The stamped formats of the first accepted manifest url. */
  function FirstFormats(urls: seq<string>, v: Variant, extract: string -> Option<seq<Format>>): (r: Option<seq<Format>>)
    ensures r.Some? ==> |r.value| > 0
    ensures r.Some? ==> StampedFor(r.value, v)
  {
    if urls == [] then None
    else if Accepts(extract, urls[0]) then Some(Stamped(extract(urls[0]).value, v, Referer))
    else FirstFormats(urls[1..], v, extract)
  }

  /** The formats come from the first accepted url; there are none when no url is accepted. */
  lemma {:induction false} FirstFormatsIsFirst(urls: seq<string>, v: Variant, extract: string -> Option<seq<Format>>, fs: seq<Format>)
    ensures FirstFormats(urls, v, extract) == Some(fs) <==>
      exists k :: 0 <= k < |urls| && Accepts(extract, urls[k]) && fs == Stamped(extract(urls[k]).value, v, Referer)
        && forall j :: 0 <= j < k ==> !Accepts(extract, urls[j])
    ensures FirstFormats(urls, v, extract).None? <==> forall k :: 0 <= k < |urls| ==> !Accepts(extract, urls[k])
    decreases |urls|
  {
    if urls != [] {
      var rest := urls[1..];
      FirstFormatsIsFirst(rest, v, extract, fs);
      if !Accepts(extract, urls[0]) {
        if FirstFormats(urls, v, extract) == Some(fs) {
          var k :| 0 <= k < |rest| && Accepts(extract, rest[k]) && fs == Stamped(extract(rest[k]).value, v, Referer)
            && forall j :: 0 <= j < k ==> !Accepts(extract, rest[j]);
          assert urls[k + 1] == rest[k];
          forall j | 0 <= j < k + 1 ensures !Accepts(extract, urls[j]) {
            if j > 0 { assert urls[j] == rest[j - 1]; }
          }
        }
        if exists k :: 0 <= k < |urls| && Accepts(extract, urls[k]) && fs == Stamped(extract(urls[k]).value, v, Referer)
            && forall j :: 0 <= j < k ==> !Accepts(extract, urls[j]) {
          var k :| 0 <= k < |urls| && Accepts(extract, urls[k]) && fs == Stamped(extract(urls[k]).value, v, Referer)
            && forall j :: 0 <= j < k ==> !Accepts(extract, urls[j]);
          assert k > 0 && rest[k - 1] == urls[k];
          forall j | 0 <= j < k - 1 ensures !Accepts(extract, rest[j]) {
            assert rest[j] == urls[j + 1];
          }
        }
        if forall k :: 0 <= k < |rest| ==> !Accepts(extract, rest[k]) {
          forall k | 0 <= k < |urls| ensures !Accepts(extract, urls[k]) {
            if k > 0 { assert urls[k] == rest[k - 1]; }
          }
        }
        if forall k :: 0 <= k < |urls| ==> !Accepts(extract, urls[k]) {
          forall k | 0 <= k < |rest| ensures !Accepts(extract, rest[k]) {
            assert rest[k] == urls[k + 1];
          }
        }
      }
    }
  }

  /** `_extract_custom_m3u8_formats`: extract one manifest, then stamp every format in place. */
  method ExtractCustomM3u8(url: string, v: Variant, headers: map<string, string>, extract: string -> Option<seq<Format>>)
    returns (formats: Option<seq<Format>>)
    ensures extract(url).None? ==> formats.None?
    ensures extract(url).Some? ==> formats == Some(Stamped(extract(url).value, v, headers))
  {
    var found := extract(url);
    if found.None? {
      return None;
    }
    var fs := found.value;
    var a := new Format[|fs|](i requires 0 <= i < |fs| => fs[i]);
    assert a[..] == fs;
    StampFormats(a, v, headers);
    formats := Some(a[..]);
  }

  /**
   * The loop over the manifest urls of one candidate: break at the first that
   * extracts to a non-empty list, skip the others silently. `tried` records the urls
   * that were attempted.
   */
  method TryManifests(urls: seq<string>, v: Variant, extract: string -> Option<seq<Format>>)
    returns (formats: Option<seq<Format>>, ghost tried: seq<string>)
    ensures formats == FirstFormats(urls, v, extract)
    ensures |tried| <= |urls| && tried == urls[..|tried|]
    ensures formats.Some? ==> |tried| > 0 && Accepts(extract, tried[|tried| - 1])
    ensures formats.Some? ==> forall j :: 0 <= j < |tried| - 1 ==> !Accepts(extract, tried[j])
    ensures formats.None? ==> tried == urls
  {
    formats := None;
    tried := [];
    for i := 0 to |urls|
      invariant formats.None?
      invariant tried == urls[..i]
      invariant forall j :: 0 <= j < i ==> !Accepts(extract, urls[j])
      invariant FirstFormats(urls, v, extract) == FirstFormats(urls[i..], v, extract)
    {
      assert urls[i..][0] == urls[i] && urls[i..][1..] == urls[i + 1..];
      assert urls[..i + 1] == urls[..i] + [urls[i]];
      var url := urls[i];
      tried := tried + [url];
      var extracted := ExtractCustomM3u8(url, v, Referer, extract);
      if extracted.Some? && extracted.value != [] {
        formats := extracted;
        break;
      }
    }
  }

  /** Probing one candidate id: sources lookup, embed link, decryption, manifest list, formats. */
  function ProbeCandidate(id: string, v: Variant, env: Collaborators): (p: Probe)
    ensures p.Works? ==> p.winner.serverId == id && |p.winner.formats| > 0
    ensures p.Works? ==> StampedFor(p.winner.formats, v)
    ensures p.Works? ==>
      && env.sources(id).Reply? && env.sources(id).link.Some?
      && env.decrypt(env.sources(id).link.value) == Some(p.winner.descriptor)
      && Manifests(p.winner.descriptor).Some?
      && FirstFormats(Manifests(p.winner.descriptor).value, v, env.manifest) == Some(p.winner.formats)
  {
    match env.sources(id)
    case LookupRaised => Raised
    case Reply(link) =>
      if link.None? || link.value == "" then NoLink
      else
        match env.decrypt(link.value)
        case None => Raised
        case Some(d) =>
          match Manifests(d)
          case None => Raised
          case Some(urls) =>
            if urls == [] then NoManifests
            else
              match FirstFormats(urls, v, env.manifest)
              case None => NoFormats
              case Some(fs) => Works(Winner(id, fs, d))
  }

  /** A candidate works exactly when its link is non-empty, decrypts, and one of its manifests extracts formats. */
  lemma ProbeCandidateWorks(id: string, v: Variant, env: Collaborators)
    ensures ProbeCandidate(id, v, env).Works? <==>
      && env.sources(id).Reply? && env.sources(id).link.Some? && env.sources(id).link.value != ""
      && env.decrypt(env.sources(id).link.value).Some?
      && Manifests(env.decrypt(env.sources(id).link.value).value).Some?
      && FirstFormats(Manifests(env.decrypt(env.sources(id).link.value).value).value, v, env.manifest).Some?
  {
  }

  /** Probing one label: no advertising block means the label is absent. */
  function ProbeLabel(bs: seq<Block>, v: Variant, tag: string, env: Collaborators): Probe
  {
    match FirstCandidate(bs, tag)
    case None => Absent
    case Some(id) => ProbeCandidate(id, v, env)
  }

  /** The winner of the first label, in the given order, whose probe works. */
  function FirstWorking(labels: seq<string>, bs: seq<Block>, v: Variant, env: Collaborators): (r: Option<Winner>)
    ensures r.Some? ==> |r.value.formats| > 0 && r.value.serverId != "" && StampedFor(r.value.formats, v)
  {
    if labels == [] then None
    else
      match ProbeLabel(bs, v, labels[0], env)
      case Works(w) => Some(w)
      case _ => FirstWorking(labels[1..], bs, v, env)
  }

  /** The resolver's answer for a servers payload and a variant. */
  function Resolve(items: seq<Block>, v: Variant, env: Collaborators): Option<Winner>
  {
    FirstWorking(Labels, FilterVariant(items, v), v, env)
  }

  /** The winner is that of the first working label; there is none exactly when no label works. */
  lemma {:induction false} FirstWorkingIsFirst(labels: seq<string>, bs: seq<Block>, v: Variant, env: Collaborators, w: Winner)
    ensures FirstWorking(labels, bs, v, env) == Some(w) <==>
      exists k :: 0 <= k < |labels| && ProbeLabel(bs, v, labels[k], env) == Works(w)
        && forall j :: 0 <= j < k ==> !ProbeLabel(bs, v, labels[j], env).Works?
    ensures FirstWorking(labels, bs, v, env).None? <==> forall k :: 0 <= k < |labels| ==> !ProbeLabel(bs, v, labels[k], env).Works?
    decreases |labels|
  {
    if labels != [] {
      var rest := labels[1..];
      FirstWorkingIsFirst(rest, bs, v, env, w);
      if !ProbeLabel(bs, v, labels[0], env).Works? {
        if FirstWorking(labels, bs, v, env) == Some(w) {
          var k :| 0 <= k < |rest| && ProbeLabel(bs, v, rest[k], env) == Works(w)
            && forall j :: 0 <= j < k ==> !ProbeLabel(bs, v, rest[j], env).Works?;
          assert labels[k + 1] == rest[k];
          forall j | 0 <= j < k + 1 ensures !ProbeLabel(bs, v, labels[j], env).Works? {
            if j > 0 { assert labels[j] == rest[j - 1]; }
          }
        }
        if exists k :: 0 <= k < |labels| && ProbeLabel(bs, v, labels[k], env) == Works(w)
            && forall j :: 0 <= j < k ==> !ProbeLabel(bs, v, labels[j], env).Works? {
          var k :| 0 <= k < |labels| && ProbeLabel(bs, v, labels[k], env) == Works(w)
            && forall j :: 0 <= j < k ==> !ProbeLabel(bs, v, labels[j], env).Works?;
          assert k > 0 && rest[k - 1] == labels[k];
          forall j | 0 <= j < k - 1 ensures !ProbeLabel(bs, v, rest[j], env).Works? {
            assert rest[j] == labels[j + 1];
          }
        }
        if forall k :: 0 <= k < |rest| ==> !ProbeLabel(bs, v, rest[k], env).Works? {
          forall k | 0 <= k < |labels| ensures !ProbeLabel(bs, v, labels[k], env).Works? {
            if k > 0 { assert labels[k] == rest[k - 1]; }
          }
        }
        if forall k :: 0 <= k < |labels| ==> !ProbeLabel(bs, v, labels[k], env).Works? {
          forall k | 0 <= k < |rest| ensures !ProbeLabel(bs, v, rest[k], env).Works? {
            assert rest[k] == labels[k + 1];
          }
        }
      }
    }
  }

  /** Tie-break: a failing HD-1 and a working HD-2 select HD-2, whatever HD-3 would do. */
  lemma SecondLabelWins(items: seq<Block>, v: Variant, env: Collaborators, w: Winner)
    requires !ProbeLabel(FilterVariant(items, v), v, "HD-1", env).Works?
    requires ProbeLabel(FilterVariant(items, v), v, "HD-2", env) == Works(w)
    ensures Resolve(items, v, env) == Some(w)
  {
    var bs := FilterVariant(items, v);
    assert Labels[0] == "HD-1" && Labels[1..][0] == "HD-2";
    assert FirstWorking(Labels[1..], bs, v, env) == Some(w);
  }

  /**
   * The label loop of `_extract_episode`: for HD-1, HD-2, HD-3, look up the candidate,
   * probe it step by step, and stop at the first that works. `probed` records the labels
   * that were examined.
   */
  method ResolveServer(items: seq<Block>, v: Variant, env: Collaborators)
    returns (winner: Option<Winner>, ghost probed: seq<string>)
    ensures winner == Resolve(items, v, env)
    ensures |probed| <= |Labels| && probed == Labels[..|probed|]
    ensures winner.Some? ==> |probed| > 0 && ProbeLabel(FilterVariant(items, v), v, probed[|probed| - 1], env) == Works(winner.value)
    ensures winner.Some? ==> forall j :: 0 <= j < |probed| - 1 ==> !ProbeLabel(FilterVariant(items, v), v, probed[j], env).Works?
    ensures winner.None? ==> probed == Labels
  {
    var filtered := FilterVariant(items, v);
    winner := None;
    probed := [];
    for n := 0 to |Labels|
      invariant winner.None?
      invariant probed == Labels[..n]
      invariant forall j :: 0 <= j < n ==> !ProbeLabel(filtered, v, Labels[j], env).Works?
      invariant FirstWorking(Labels, filtered, v, env) == FirstWorking(Labels[n..], filtered, v, env)
    {
      var tag := Labels[n];
      assert Labels[n..][0] == tag && Labels[n..][1..] == Labels[n + 1..];
      assert Labels[..n + 1] == Labels[..n] + [tag];
      probed := probed + [tag];
      var candidate := FindCandidate(filtered, tag);
      if candidate.None? {
        continue;
      }
      var id := candidate.value;
      var reply := env.sources(id);
      if reply.LookupRaised? {
        continue;
      }
      var link := reply.link;
      if link.None? || link.value == "" {
        continue;
      }
      var data := env.decrypt(link.value);
      if data.None? {
        continue;
      }
      var m3u8List := Manifests(data.value);
      if m3u8List.None? || m3u8List.value == [] {
        continue;
      }
      var hdFormats;
      ghost var tried;
      hdFormats, tried := TryManifests(m3u8List.value, v, env.manifest);
      if hdFormats.None? {
        continue;
      }
      winner := Some(Winner(id, hdFormats.value, data.value));
      break;
    }
  }
}
