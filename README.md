# HiAnime extractor core, modelled in Dafny

This project models the deterministic core of the yt-dlp HiAnime extractor plugin
(`yt_dlp_plugins/extractor/hianime.py`). For one episode and one audio variant
(`sub`, `dub` or `raw`), the extractor resolves a working stream. It tries the mirror
labels HD-1, HD-2 and HD-3 in that order and keeps the first whose probe works. A probe
is: sources lookup, embed link, decryption, the `.m3u8` list, and the first manifest that
yields formats. It then stamps those formats, normalises and groups the caption tracks,
and builds or consults a session-wide episode index.

Every collaborator the extractor calls over the network is passed in as data:
- the episode-list, servers and title pages, as the blocks and values they yield;
- the sources endpoint, the decryption routine and HLS manifest extraction, as the total
  functions of the `Servers.Collaborators` record.

Exceptions become values. A probe that raises is `Servers.Probe.Raised`, a manifest
extraction that raises is `None`, and the two user-facing errors are
`Extractor.ExtractError`.

Modules, leaf first:
- `Wrappers`: `Option` and `Result`.
- `Text`: ASCII case mapping, `capitalize`, `endswith`, substring test, decimal printing.
- `Language`: the variant, `_get_selected_language`, and the `language` and `language_codes` tables.
- `Formats`: format dictionaries, the format id, and in-place stamping over an `array`.
- `Subtitles`: caption filtering, the English disambiguation, the label lookup, and the `setdefault(...).append` grouping loop.
- `Servers`: the variant filter, the candidate search loop, the `.m3u8` list, the manifest loop, the label loop, and their specification functions.
- `Extractor`: class `HiAnime`, which holds the title cache and the episode index. It also has the playlist builder loop and the episode orchestration.

Details the model keeps from the code:
- A `file` key that is JSON `null` makes `s.get("file", "").endswith(...)` raise inside the
  label's `try`. The whole label is then skipped (`ManifestListRaises`).
- The data-id search skips empty `data-id=""` values, because its pattern needs one character or more (`Servers.FirstNonEmpty`).
- Under the `raw` variant, the label "English" becomes "English Rawbed". That label is not in the table, so it passes through as its own code (`Subtitles.EnglishByVariant`).
- An episode block without `data-id` is indexed under the key `None`. A later block with the same id overwrites the earlier record (`Extractor.BuildIndexLast`).
- The title cache refetches whenever the cached title is not truthy. `_extract_episode` can therefore fetch it twice.

## Model

| member | source | states |
|---|---|---|
| `Language.ParseVariant` | yt_dlp_plugins/extractor/hianime.py:296 | a value names a variant exactly when it is `sub`, `dub` or `raw`, and then it is that variant's name |
| `Language.ParseName` | yt_dlp_plugins/extractor/hianime.py:296-297 | each variant is read back from its own name |
| `Language.SelectedLanguage` | yt_dlp_plugins/extractor/hianime.py:291-299 | the last argument, lower-cased, when it is one of the three names; `sub` when there is no argument or the last one is unrecognised |
| `Language.SelectedLanguageIgnoresEarlier` | yt_dlp_plugins/extractor/hianime.py:294-297 | arguments before the last never change the choice |
| `Language.SelectedLanguageCaseInsensitive` | yt_dlp_plugins/extractor/hianime.py:295-296 | a value and its lower-cased form select the same variant |
| `Language.AudioLanguage` | yt_dlp_plugins/extractor/hianime.py:65-69 | definition: `sub` and `raw` have Japanese audio (`ja`), `dub` English (`en`) |
| `Language.LanguageCodes` | yt_dlp_plugins/extractor/hianime.py:70-81 | definition: the ten caption labels the table maps, each with its language code |
| `Text.NatToStringInjective` | yt_dlp_plugins/extractor/hianime.py:285 | the printed height determines the height |
| `Formats.FormatIdInjective` | yt_dlp_plugins/extractor/hianime.py:284-285 | `<variant>_<height>p` determines both the variant and the height (a missing height prints as `None`) |
| `Formats.FormatId` | yt_dlp_plugins/extractor/hianime.py:285 | definition: the variant name, `_`, the height in decimal (`None` when missing) and `p` |
| `Formats.StampedMeaning` | yt_dlp_plugins/extractor/hianime.py:284-287 | a stamped format has the variant's format id, the table language (sub→ja, dub→en, raw→ja) and the given headers; url, height, count and order are kept; stamping twice equals stamping once |
| `Formats.StampFormats` | yt_dlp_plugins/extractor/hianime.py:283-287 | rewriting the array in place leaves exactly the stamped list |
| `Servers.ExtractCustomM3u8` | yt_dlp_plugins/extractor/hianime.py:278-288 | a raising extraction gives nothing; otherwise the extracted formats come back stamped, same count and order |
| `Servers.FilterVariantMembers` | yt_dlp_plugins/extractor/hianime.py:163-166 | a block is kept exactly when its text contains `data-type="<variant>"` |
| `Servers.FilterVariantAppend` | yt_dlp_plugins/extractor/hianime.py:163-166 | filtering keeps document order |
| `Servers.FilterVariant` | yt_dlp_plugins/extractor/hianime.py:163-166 | definition: the server blocks whose text contains `data-type="<variant>"`, in document order |
| `Servers.FirstNonEmpty` | yt_dlp_plugins/extractor/hianime.py:180-181 | the data-id found is the block's first non-empty value (every value before it is empty), and there is none only when every value is empty |
| `Servers.Offer` | yt_dlp_plugins/extractor/hianime.py:179-180 | definition: a block offers an id for a label only when it has an anchor with that text, and the id is its first non-empty data-id |
| `Servers.FirstCandidate` | yt_dlp_plugins/extractor/hianime.py:176-184 | a candidate id is never empty |
| `Servers.FirstCandidateIsFirst` | yt_dlp_plugins/extractor/hianime.py:176-182 | the candidate is the first data-id of the first block, in document order, that advertises the label and has a data-id; there is none exactly when no block does |
| `Servers.FindCandidate` | yt_dlp_plugins/extractor/hianime.py:176-182 | the loop with `break` returns that candidate |
| `Servers.ManifestListAppend` | yt_dlp_plugins/extractor/hianime.py:202-205 | the list over `sources` then `sourcesBackup` is the primary list followed by the backup list |
| `Servers.ManifestListRaises` | yt_dlp_plugins/extractor/hianime.py:202-205 | building the list raises exactly when some entry's `file` is null |
| `Servers.ManifestListMembers` | yt_dlp_plugins/extractor/hianime.py:202-205 | the list holds exactly the entries' `file` strings that end in `.m3u8` |
| `Servers.BackupManifestCollected` | yt_dlp_plugins/extractor/hianime.py:202-205 | with an empty primary contribution, a backup-only `.m3u8` is still collected |
| `Servers.FirstFormats` | yt_dlp_plugins/extractor/hianime.py:211-227 | accepted formats are never empty and are all stamped for the variant with the Referer headers |
| `Servers.FirstFormatsIsFirst` | yt_dlp_plugins/extractor/hianime.py:211-227 | the formats are those of the first url whose extraction is non-empty, and earlier urls all failed or were empty; there are none exactly when no url succeeds |
| `Servers.TryManifests` | yt_dlp_plugins/extractor/hianime.py:210-227 | the manifest loop returns those formats; the urls tried are a prefix ending at the accepted one, every url before it was refused, and no url after it is tried; with no result every url was tried |
| `Servers.ProbeCandidate` | yt_dlp_plugins/extractor/hianime.py:187-235 | a working probe carries the candidate's own id and a non-empty, stamped format list; its sources lookup gave a link, the link decrypted to the winner's descriptor, and the formats are the first accepted result over that descriptor's manifests |
| `Servers.ProbeCandidateWorks` | yt_dlp_plugins/extractor/hianime.py:187-235 | a candidate works exactly when its sources lookup gives a non-empty link, the link decrypts, its manifest list is collected, and some manifest extracts a non-empty format list |
| `Servers.FirstWorking` | yt_dlp_plugins/extractor/hianime.py:173-235 | a winner has a non-empty server id and non-empty stamped formats |
| `Servers.FirstWorkingIsFirst` | yt_dlp_plugins/extractor/hianime.py:173-235 | the winner is that of the first label in order whose probe works, and all earlier labels did not work; there is none exactly when no label works |
| `Servers.SecondLabelWins` | yt_dlp_plugins/extractor/hianime.py:173-232 | a failing HD-1 and a working HD-2 select HD-2, whatever HD-3 would do |
| `Servers.ResolveServer` | yt_dlp_plugins/extractor/hianime.py:156-235 | the label loop returns the first working label's winner; the labels examined are a prefix of HD-1, HD-2, HD-3 ending at the winner, every label before it failed, or all three when none works |
| `Subtitles.EnglishByVariant` | yt_dlp_plugins/extractor/hianime.py:254-257 | "English" becomes "English Subbed" (en), "English Dubbed" (en-IN) or "English Rawbed" (passes through) by variant |
| `Subtitles.UnmappedLabelPassesThrough` | yt_dlp_plugins/extractor/hianime.py:251-257 | any other unmapped label is shown and filed under itself, for every variant |
| `Subtitles.CodeOf` | yt_dlp_plugins/extractor/hianime.py:257 | definition: a label in the code table gets its code; any other label is its own code |
| `Subtitles.EmittedAppend` | yt_dlp_plugins/extractor/hianime.py:247-263 | emitted subtitles keep track order |
| `Subtitles.EmittedMembers` | yt_dlp_plugins/extractor/hianime.py:247-263 | a subtitle is emitted exactly for a caption-kind track with a non-empty file url |
| `Subtitles.GroupAppend` | yt_dlp_plugins/extractor/hianime.py:259-263 | within one code, earlier entries stay before later ones |
| `Subtitles.GroupMembers` | yt_dlp_plugins/extractor/hianime.py:259-263 | a code's group holds exactly the subtitles emitted under that code |
| `Subtitles.GroupMapSnoc` | yt_dlp_plugins/extractor/hianime.py:260 | one more emission appends to its own code's list (creating it if new) and touches no other key |
| `Subtitles.GroupedSnoc` | yt_dlp_plugins/extractor/hianime.py:247-263 | one more track either leaves the grouping alone or appends one entry to its code's list |
| `Subtitles.GroupSubtitles` | yt_dlp_plugins/extractor/hianime.py:247-263 | the setdefault/append loop builds exactly the reference grouping: one key per emitted code, holding that code's subtitles in track order |
| `Formats.Stamp` | yt_dlp_plugins/extractor/hianime.py:284-287 | one format's rewrite: `format_id`, `language` and `http_headers` set, other keys kept |
| `Servers.ManifestList` | yt_dlp_plugins/extractor/hianime.py:202-205 | the `.m3u8` comprehension over a file list, `None` when it raises |
| `Servers.Manifests` | yt_dlp_plugins/extractor/hianime.py:203 | definition: the manifest list over the primary entries followed by the backup entries |
| `Servers.ProbeLabel` | yt_dlp_plugins/extractor/hianime.py:176-235 | a label without a candidate is absent; otherwise its candidate's probe |
| `Servers.Resolve` | yt_dlp_plugins/extractor/hianime.py:163-235 | the first working label over the variant-filtered blocks |
| `Subtitles.DisplayLabel` | yt_dlp_plugins/extractor/hianime.py:251-255 | a missing label is empty; "English" gets the capitalised variant and "bed" appended |
| `Subtitles.Emitted` | yt_dlp_plugins/extractor/hianime.py:247-263 | the subtitles of the caption tracks with a file url, in track order, each with its code |
| `Extractor.BuildIndex` | yt_dlp_plugins/extractor/hianime.py:110-126 | `episode_list[ep_id] = {...}` for each block in turn |
| `Extractor.RecordOf` | yt_dlp_plugins/extractor/hianime.py:122-126 | definition: an index record keeps the block's title and number, and its url is the base url joined to the href when there is one |
| `Extractor.EntryOf` | yt_dlp_plugins/extractor/hianime.py:128-133 | definition: a playlist entry has the joined url, the data-id and the title of its block |
| `Extractor.SeriesTitle` | yt_dlp_plugins/extractor/hianime.py:302-310 | definition: a truthy cached title answers; otherwise the fetched one does |
| `Extractor.MessageNamesIds` | yt_dlp_plugins/extractor/hianime.py:237-241 | both error messages name the episode id, and the no-servers message names the upper-cased variant |
| `Extractor.Message` | yt_dlp_plugins/extractor/hianime.py:239 | definition: the no-servers text names the upper-cased variant and the episode id; the not-found text (raised at hianime.py:149) names the episode id |
| `Extractor.BuildIndexKeys` | yt_dlp_plugins/extractor/hianime.py:110-126 | the index gains exactly one key per `data-id` seen, with a missing id as the key `None` |
| `Extractor.BuildIndexLast` | yt_dlp_plugins/extractor/hianime.py:122-126 | a key holds the record of the last block carrying it |
| `Extractor.BuildIndexUntouched` | yt_dlp_plugins/extractor/hianime.py:122-126 | an id that no block carries keeps its earlier value or absence |
| `Extractor.NotFoundMeansAbsent` | yt_dlp_plugins/extractor/hianime.py:143-149 | after the rebuild, an episode is missing exactly when neither the old index nor any block has its id |
| `Extractor.EpisodeOutcome` | yt_dlp_plugins/extractor/hianime.py:237-274 | no working label gives the expected no-servers error for the variant and episode; otherwise the result has the resolved winner's formats, which are non-empty and stamped, and its captions grouped by code; both ids are the episode id, the title and episode name are the index title, the episode number is the index number, the series is the title and the series id is the playlist id |
| `Extractor.HiAnime.constructor` | yt_dlp_plugins/extractor/hianime.py:61-64 | a fresh instance has no cached title and an empty index |
| `Extractor.HiAnime.GetAnimeTitle` | yt_dlp_plugins/extractor/hianime.py:301-310 | a truthy cached title is returned without fetching; otherwise the fetched title is cached and returned, and one fetch is counted |
| `Extractor.HiAnime.ExtractPlaylist` | yt_dlp_plugins/extractor/hianime.py:101-135 | the index becomes the old one updated by every block in turn; one entry per block, in encounter order |
| `Extractor.HiAnime.ExtractEpisode` | yt_dlp_plugins/extractor/hianime.py:139-274 | the index is rebuilt only when the episode is missing; a still-missing episode gives the not-found error; otherwise the result is the resolution outcome for the selected variant; the title page is fetched once when no truthy title is cached, and a second time when the rebuild runs and the first fetch gave no truthy title |

## Left out

- Network access: `_download_json`, `_download_webpage` and the three ajax endpoints. Their results are parameters, and their network errors are not modelled except where the source catches them (the sources lookup inside a probe).
- The `Megacloud` decryption collaborator is not part of this model. It is the `decrypt` function of `Servers.Collaborators`; `None` stands for any exception, its constructor's included.
- HLS parsing (`_extract_m3u8_formats`) is the `manifest` function of `Servers.Collaborators`. `None` stands for a raised error. Its `ext`, `entry_protocol` and `note` arguments are not modelled.
- The regex tag matcher `_get_elements_by_tag_and_attrib` is not modelled, because lazy-quantifier and backtracking semantics are out of scope. Its matches are given as `Servers.Block` and `Extractor.EpisodeBlock` values. The anchor-text search and the attribute searches are given as fields of those values.
- `_real_extract` is not modelled, because it is only URL matching (`_VALID_URL`) and dispatch. `base_url` is fixed when a `HiAnime` object is constructed.
- `clean_html`, `get_element_by_class` and `int(...)` on `data-number` are not modelled. Their results (a cleaned title, a title element, a parsed number) are given as optional values.
- `url_result`, `playlist_result` and `_configuration_arg` are not modelled, because they are yt-dlp internals. Entries are plain records, and the configuration values are a sequence of strings.
- Progress notes, `sys.path` setup and `_TESTS` are not modelled, because they do not affect the result.
- Dictionary insertion order of `subtitles` and `episode_list` is not modelled, because both are Dafny maps. The order of the playlist entries and of each subtitle group is modelled.
- All formats sharing one headers dictionary (aliasing) is not modelled. Formats are values.
- The title lookup is one parameter for both calls inside `_extract_episode`. A page that changes between the two calls is not modelled.
- Text.Lower: maps only ASCII letters; Python's `str.lower` also maps other characters, which could only matter for a configuration value that reaches `sub`, `dub` or `raw` through a non-ASCII case mapping.
- Extractor.HiAnime.ExtractPlaylist: does not model the `ValueError` that `int(...)` raises on a non-integer `data-number`. That error aborts `_extract_playlist`, and `_extract_episode` too when it rebuilds the index. `EpisodeBlock.number` holds only a parsed number or its absence.
- Extractor.HiAnime.ExtractEpisode: does not model the error raised when the winner's `tracks` value is JSON null or holds an entry that is not an object. That loop runs outside any `try`, so such a descriptor makes `_extract_episode` raise after a winner was chosen. `Servers.Descriptor.tracks` is always a list of `Subtitles.Track`, so `Extractor.EpisodeOutcome` returns `Success` there.
- Servers.Descriptor: does not model a JSON null or non-list `sources` or `sourcesBackup`, or a non-string `file` (hianime.py:203-204). In the source these raise inside the `try` and the candidate is skipped; the model's only equivalent is `decrypt` returning `None`.
- Servers.Collaborators: the three collaborators are plain functions, so a repeated candidate id or manifest url gets the same answer each time. The source fetches again and could get a different answer.
