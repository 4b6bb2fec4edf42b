/**
 * The extractor object: its session caches (series title, episode index), the playlist
 * builder and the episode orchestration that ties the resolver and the subtitle
 * normaliser together.
 */
module Extractor {
  import opened Wrappers
  import opened Text
  import opened Language
  import opened Formats
  import opened Subtitles
  import opened Servers

  /**
   * One matched `<a class="ep-item">` block, as its four attribute searches see it: the
   * (already cleaned) title, the parsed `data-number`, `data-id` and `href`, each possibly
   * missing.
   */
  datatype EpisodeBlock = EpisodeBlock(title: Option<string>, number: Option<int>, dataId: Option<string>, href: Option<string>)

  /** The value stored in the episode index. */
  datatype EpisodeData = EpisodeData(title: Option<string>, number: Option<int>, url: Option<string>)

  /** A playlist entry: a url reference with its video id and title. */
  datatype Entry = Entry(url: Option<string>, id: Option<string>, title: Option<string>)

  datatype Playlist = Playlist(entries: seq<Entry>, id: string, title: Option<string>)

  /** The info dictionary `_extract_episode` returns. */
  datatype EpisodeResult = EpisodeResult(
    id: string,
    title: Option<string>,
    formats: seq<Format>,
    subtitles: map<string, seq<Subtitle>>,
    series: Option<string>,
    seriesId: string,
    episode: Option<string>,
    episodeNumber: Option<int>,
    episodeId: string)

  /** The two errors `_extract_episode` raises. */
  datatype ExtractError = EpisodeNotFound(episodeId: string) | NoServers(variant: Variant, episodeId: string)

  function Message(e: ExtractError): string
  {
    match e
    case EpisodeNotFound(id) => "Episode data for episode_id " + id + " not found"
    case NoServers(v, id) => "[HiAnime] No " + Upper(Name(v)) + " servers could be reached for episode " + id
  }

  /** Only the no-servers error is flagged as an expected condition rather than a defect. */
  predicate Expected(e: ExtractError)
  {
    e.NoServers?
  }

  /** Every error message names the episode id, and the no-servers message names the variant too. */
  lemma MessageNamesIds(e: ExtractError)
    ensures Contains(Message(e), e.episodeId)
    ensures e.NoServers? ==> Contains(Message(e), Upper(Name(e.variant)))
  {
    match e
    case EpisodeNotFound(id) =>
      ContainsPiece("Episode data for episode_id ", id, " not found");
    case NoServers(v, id) =>
      var u := Upper(Name(v));
      ContainsPiece("[HiAnime] No " + u + " servers could be reached for episode ", id, "");
      assert Message(e) == "[HiAnime] No " + u + " servers could be reached for episode " + id + "";
      ContainsPiece("[HiAnime] No ", u, " servers could be reached for episode " + id);
      assert Message(e) == "[HiAnime] No " + u + (" servers could be reached for episode " + id);
  }

  /** Python truthiness of an optional string. */
  predicate Truthy(s: Option<string>)
  {
    s.Some? && s.value != ""
  }

  /** The title the cache answers with: the cached one if it is truthy, else the fetched one. */
  function SeriesTitle(cached: Option<string>, fetched: Option<string>): Option<string>
  {
    if Truthy(cached) then cached else fetched
  }

  function EpisodeUrl(baseUrl: string, href: Option<string>): Option<string>
  {
    match href
    case None => None
    case Some(h) => Some(baseUrl + h)
  }

  function RecordOf(b: EpisodeBlock, baseUrl: string): EpisodeData
  {
    EpisodeData(b.title, b.number, EpisodeUrl(baseUrl, b.href))
  }

  function EntryOf(b: EpisodeBlock, baseUrl: string): Entry
  {
    Entry(EpisodeUrl(baseUrl, b.href), b.dataId, b.title)
  }

  /** `episode_list[ep_id] = {...}` for each block in turn, starting from `m`. */
  function BuildIndex(m: map<Option<string>, EpisodeData>, bs: seq<EpisodeBlock>, baseUrl: string): map<Option<string>, EpisodeData>
  {
    if bs == [] then m
    else
      var last := bs[|bs| - 1];
      BuildIndex(m, bs[..|bs| - 1], baseUrl)[last.dataId := RecordOf(last, baseUrl)]
  }

  /** The index gains exactly one key per distinct `data-id` (a missing one is the key `None`). */
  lemma {:induction false} BuildIndexKeys(m: map<Option<string>, EpisodeData>, bs: seq<EpisodeBlock>, baseUrl: string)
    ensures BuildIndex(m, bs, baseUrl).Keys == m.Keys + set i | 0 <= i < |bs| :: bs[i].dataId
    decreases |bs|
  {
    if bs != [] {
      var init := bs[..|bs| - 1];
      BuildIndexKeys(m, init, baseUrl);
      var s := set i | 0 <= i < |bs| :: bs[i].dataId;
      var s' := set i | 0 <= i < |init| :: init[i].dataId;
      assert s == s' + {bs[|bs| - 1].dataId} by {
        forall k | k in s ensures k in s' + {bs[|bs| - 1].dataId} {
          var i :| 0 <= i < |bs| && bs[i].dataId == k;
          if i < |init| { assert init[i] == bs[i]; }
        }
        forall k | k in s' ensures k in s {
          var i :| 0 <= i < |init| && init[i].dataId == k;
          assert bs[i] == init[i];
        }
      }
    }
  }

  /** A key holds the record of the last block carrying it: later duplicates overwrite earlier ones. */
  lemma {:induction false} BuildIndexLast(m: map<Option<string>, EpisodeData>, bs: seq<EpisodeBlock>, baseUrl: string, i: nat)
    requires i < |bs|
    requires forall j :: i < j < |bs| ==> bs[j].dataId != bs[i].dataId
    ensures bs[i].dataId in BuildIndex(m, bs, baseUrl)
    ensures BuildIndex(m, bs, baseUrl)[bs[i].dataId] == RecordOf(bs[i], baseUrl)
    decreases |bs|
  {
    var init := bs[..|bs| - 1];
    if i < |bs| - 1 {
      forall j | i < j < |init| ensures init[j].dataId != init[i].dataId {
        assert init[j] == bs[j] && init[i] == bs[i];
      }
      BuildIndexLast(m, init, baseUrl, i);
      assert init[i] == bs[i];
    }
  }

  /** An id no block carries keeps whatever the index had before. */
  lemma {:induction false} BuildIndexUntouched(m: map<Option<string>, EpisodeData>, bs: seq<EpisodeBlock>, baseUrl: string, k: Option<string>)
    requires forall j :: 0 <= j < |bs| ==> bs[j].dataId != k
    ensures k in BuildIndex(m, bs, baseUrl) <==> k in m
    ensures k in m ==> BuildIndex(m, bs, baseUrl)[k] == m[k]
    decreases |bs|
  {
    if bs != [] {
      var init := bs[..|bs| - 1];
      forall j | 0 <= j < |init| ensures init[j].dataId != k {
        assert init[j] == bs[j];
      }
      BuildIndexUntouched(m, init, baseUrl, k);
    }
  }

  /**
   * The rest of `_extract_episode` once the episode is known: the no-servers error, or the
   * winner's formats (exactly those) and its grouped subtitles.
   */
  function EpisodeOutcome(
    episodeId: string, playlistId: string, data: EpisodeData, series: Option<string>,
    v: Variant, servers: seq<Block>, env: Collaborators): (r: Result<EpisodeResult, ExtractError>)
    ensures r.Failure? <==> Resolve(servers, v, env).None?
    ensures r.Failure? ==> r.error == NoServers(v, episodeId) && Expected(r.error)
    ensures r.Success? ==> |r.value.formats| > 0
    ensures r.Success? ==> StampedFor(r.value.formats, v)
    ensures r.Success? ==>
      && Resolve(servers, v, env).Some?
      && r.value.formats == Resolve(servers, v, env).value.formats
      && r.value.subtitles == Grouped(Resolve(servers, v, env).value.descriptor.tracks, v)
    ensures r.Success? ==>
      && r.value.id == episodeId && r.value.episodeId == episodeId
      && r.value.title == data.title && r.value.episode == data.title
      && r.value.episodeNumber == data.number
      && r.value.series == series && r.value.seriesId == playlistId
  {
    match Resolve(servers, v, env)
    case None => Failure(NoServers(v, episodeId))
    case Some(w) =>
      Success(EpisodeResult(
        episodeId, data.title, w.formats, Grouped(w.descriptor.tracks, v), series,
        playlistId, data.title, data.number, episodeId))
  }

  /** The extractor instance and the session state it keeps between calls. */
  class HiAnime {
    /** The scheme and host of the url being extracted. */
    const baseUrl: string
    /** The series title, once fetched. */
    var animeTitle: Option<string>
    /** The episode index, keyed by `data-id`. */
    var episodeList: map<Option<string>, EpisodeData>
    /** How many times the title page has been fetched. */
    ghost var titleFetches: nat

    constructor (baseUrl: string)
      ensures this.baseUrl == baseUrl
      ensures animeTitle == None && episodeList == map[] && titleFetches == 0
    {
      this.baseUrl := baseUrl;
      animeTitle := None;
      episodeList := map[];
      titleFetches := 0;
    }

    /**
     * `_get_anime_title`: answer from the cache when it holds a truthy title, otherwise
     * fetch (`fetched` is what the title-element lookup finds on the page) and cache it.
     */
    method GetAnimeTitle(fetched: Option<string>) returns (title: Option<string>)
      modifies this`animeTitle, this`titleFetches
      ensures title == SeriesTitle(old(animeTitle), fetched) && animeTitle == title
      ensures titleFetches == if Truthy(old(animeTitle)) then old(titleFetches) else old(titleFetches) + 1
    {
      if Truthy(animeTitle) {
        return animeTitle;
      }
      titleFetches := titleFetches + 1;
      animeTitle := fetched;
      title := animeTitle;
    }

    /**
     * `_extract_playlist`: record every matched episode block in the index and append
     * one entry per block, in encounter order.
     */
    method ExtractPlaylist(playlistId: string, fetched: Option<string>, episodes: seq<EpisodeBlock>)
      returns (playlist: Playlist)
      modifies this`animeTitle, this`titleFetches, this`episodeList
      ensures animeTitle == SeriesTitle(old(animeTitle), fetched)
      ensures titleFetches == if Truthy(old(animeTitle)) then old(titleFetches) else old(titleFetches) + 1
      ensures episodeList == BuildIndex(old(episodeList), episodes, baseUrl)
      ensures playlist.id == playlistId && playlist.title == animeTitle
      ensures |playlist.entries| == |episodes|
      ensures forall i :: 0 <= i < |episodes| ==> playlist.entries[i] == EntryOf(episodes[i], baseUrl)
    {
      var title := GetAnimeTitle(fetched);
      var entries: seq<Entry> := [];
      ghost var fetches := titleFetches;
      for i := 0 to |episodes|
        invariant animeTitle == title && titleFetches == fetches
        invariant episodeList == BuildIndex(old(episodeList), episodes[..i], baseUrl)
        invariant |entries| == i
        invariant forall j :: 0 <= j < i ==> entries[j] == EntryOf(episodes[j], baseUrl)
      {
        var episode := episodes[i];
        assert episodes[..i + 1][..i] == episodes[..i] && episodes[..i + 1][i] == episode;
        episodeList := episodeList[episode.dataId := EpisodeData(episode.title, episode.number, EpisodeUrl(baseUrl, episode.href))];
        entries := entries + [Entry(EpisodeUrl(baseUrl, episode.href), episode.dataId, episode.title)];
      }
      assert episodes[..|episodes|] == episodes;
      playlist := Playlist(entries, playlistId, title);
    }

    /**
     * `_extract_episode`: fetch the series title, choose the variant, rebuild the index
     * when the episode is not in it, fail when it is still missing, and otherwise resolve
     * a server and group the winner's subtitles.
     */
    method ExtractEpisode(
      playlistId: string, episodeId: string, args: seq<string>, fetched: Option<string>,
      episodes: seq<EpisodeBlock>, servers: seq<Block>, env: Collaborators)
      returns (r: Result<EpisodeResult, ExtractError>)
      modifies this`animeTitle, this`titleFetches, this`episodeList
      ensures animeTitle == SeriesTitle(old(animeTitle), fetched)
      ensures titleFetches == old(titleFetches)
        + (if Truthy(old(animeTitle)) then 0 else 1)
        + (if Some(episodeId) in old(episodeList) || Truthy(SeriesTitle(old(animeTitle), fetched)) then 0 else 1)
      ensures episodeList ==
        if Some(episodeId) in old(episodeList) then old(episodeList)
        else BuildIndex(old(episodeList), episodes, baseUrl)
      ensures Some(episodeId) !in episodeList ==> r == Failure(EpisodeNotFound(episodeId))
      ensures Some(episodeId) in episodeList ==>
        r == EpisodeOutcome(episodeId, playlistId, episodeList[Some(episodeId)], animeTitle, SelectedLanguage(args), servers, env)
    {
      var series := GetAnimeTitle(fetched);
      var language := SelectedLanguage(args);
      if Some(episodeId) !in episodeList {
        var _ := ExtractPlaylist(playlistId, fetched, episodes);
        assert animeTitle == series;
      }
      if Some(episodeId) !in episodeList {
        return Failure(EpisodeNotFound(episodeId));
      }
      var data := episodeList[Some(episodeId)];
      var winner;
      ghost var probed;
      winner, probed := ResolveServer(servers, language, env);
      if winner.None? {
        return Failure(NoServers(language, episodeId));
      }
      var formats: seq<Format> := [];
      formats := formats + winner.value.formats;
      assert formats == winner.value.formats;
      var subtitles := GroupSubtitles(winner.value.descriptor.tracks, language);
      r := Success(EpisodeResult(
        episodeId, data.title, formats, subtitles, series,
        playlistId, data.title, data.number, episodeId));
    }
  }

  /** After the rebuild, an episode is missing exactly when neither the old index nor any block has its id. */
  lemma NotFoundMeansAbsent(m: map<Option<string>, EpisodeData>, episodes: seq<EpisodeBlock>, baseUrl: string, id: string)
    ensures Some(id) !in BuildIndex(m, episodes, baseUrl) <==>
      Some(id) !in m && forall i :: 0 <= i < |episodes| ==> episodes[i].dataId != Some(id)
  {
    BuildIndexKeys(m, episodes, baseUrl);
  }
}
