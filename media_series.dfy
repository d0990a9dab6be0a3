/** The series screen: the wrapper that chooses between loading, error, the legacy series page
    and the content; the pure selections of the content (selected item, episode in progress,
    whether episodes are fetched); and the state the content keeps: its query parameters, which
    the handlers and effects rewrite, and the season filter, which starts undefined. */
module MediaSeries {
  import opened Wrappers

  // ---------------------------------------------------------------------------------------------
  // The wrapper (lines 276-301)

  /** The arguments of `deprecatedSeriesURL`. */
  datatype LegacyTarget = LegacyTarget(seriesId: string, play: bool, playlistId: Option<string>)

  datatype Route = LoadingScreen | ErrorScreen | LegacyRedirect(target: LegacyTarget) | ContentScreen

  /** `useQueryParam('play') === '1'` */
  predicate PlayRequested(play: Option<string>) {
    play == Some("1")
  }

  /** `getSeriesPlaylistIdFromCustomParams(media) || ''` */
  function LegacySeriesPlaylistId(customParam: Option<string>): (id: string)
    ensures customParam.Some? ==> id == customParam.value
    ensures customParam.None? ==> id == ""
  {
    customParam.GetOr("")
  }

  /** What the wrapper renders: loading first, then the error page, then the redirect to the
      legacy series page when the series API has no series, and the content otherwise. */
  function RouteMediaSeries(
    isSeriesLoading: bool, isMediaLoading: bool, isPlaylistError: bool, hasPlaylist: bool, hasSeries: bool,
    customParam: Option<string>, playParam: Option<string>, feedParam: Option<string>): (r: Route)
    ensures r == LoadingScreen <==> isSeriesLoading || isMediaLoading
    ensures r == ErrorScreen <==> !isSeriesLoading && !isMediaLoading && (isPlaylistError || !hasPlaylist)
    ensures r.LegacyRedirect? <==> !isSeriesLoading && !isMediaLoading && !isPlaylistError && hasPlaylist && !hasSeries
    ensures r == ContentScreen <==> !isSeriesLoading && !isMediaLoading && !isPlaylistError && hasPlaylist && hasSeries
    ensures r.LegacyRedirect? ==> (r.target.seriesId == LegacySeriesPlaylistId(customParam) &&
      (r.target.play <==> playParam == Some("1")) && r.target.playlistId == feedParam)
  {
    if isSeriesLoading || isMediaLoading then LoadingScreen
    else if isPlaylistError || !hasPlaylist then ErrorScreen
    else if !hasSeries then LegacyRedirect(LegacyTarget(LegacySeriesPlaylistId(customParam), PlayRequested(playParam), feedParam))
    else ContentScreen
  }

  /** Once neither the series nor the media is loading, the query parameters and the custom
      parameter affect only the redirect's target, never which screen is chosen. */
  lemma RouteIgnoresParameters(
    isPlaylistError: bool, hasPlaylist: bool, hasSeries: bool,
    c1: Option<string>, p1: Option<string>, f1: Option<string>,
    c2: Option<string>, p2: Option<string>, f2: Option<string>)
    ensures RouteMediaSeries(false, false, isPlaylistError, hasPlaylist, hasSeries, c1, p1, f1).LegacyRedirect? ==
      RouteMediaSeries(false, false, isPlaylistError, hasPlaylist, hasSeries, c2, p2, f2).LegacyRedirect?
    ensures !RouteMediaSeries(false, false, isPlaylistError, hasPlaylist, hasSeries, c1, p1, f1).LegacyRedirect? ==>
      RouteMediaSeries(false, false, isPlaylistError, hasPlaylist, hasSeries, c1, p1, f1) ==
      RouteMediaSeries(false, false, isPlaylistError, hasPlaylist, hasSeries, c2, p2, f2)
  {
  }

  // ---------------------------------------------------------------------------------------------
  // Pure selections of the content

  /** A playlist item, reduced to what the screen decides on. */
  datatype Item = Item(mediaid: string, title: string)

  /** `episode || seriesMedia` (line 60): the episode when one is loaded, the series otherwise. */
  function SelectedItem(episode: Option<Item>, seriesMedia: Item): (r: Item)
    ensures episode.Some? ==> r == episode.value
    ensures episode.None? ==> r == seriesMedia
  {
    episode.GetOr(seriesMedia)
  }

  /** A watch-history entry: the media it is about, the series that media belongs to (if any)
      and the watched fraction. */
  datatype WatchHistoryItem = WatchHistoryItem(mediaid: string, seriesId: Option<string>, progress: real)

  /** An entry of this series watched partly, strictly between the two progress bounds. */
  predicate InProgress(h: WatchHistoryItem, seriesId: string, min: real, max: real) {
    h.seriesId == Some(seriesId) && min < h.progress < max
  }

  /** `episodeInProgress` (lines 87-89): the first entry of the watch history in progress. */
  function EpisodeInProgress(history: seq<WatchHistoryItem>, seriesId: string, min: real, max: real): (r: Option<WatchHistoryItem>)
    ensures r.None? <==> forall i | 0 <= i < |history| :: !InProgress(history[i], seriesId, min, max)
    ensures r.Some? ==> exists i | 0 <= i < |history| ::
      history[i] == r.value && InProgress(r.value, seriesId, min, max) &&
      forall j | 0 <= j < i :: !InProgress(history[j], seriesId, min, max)
  {
    if |history| == 0 then None
    else if InProgress(history[0], seriesId, min, max) then Some(history[0])
    else
      var r := EpisodeInProgress(history[1..], seriesId, min, max);
      assert forall i | 1 <= i < |history| :: history[i] == history[1..][i - 1];
      r
  }

  /** Entries of other series, and entries not watched far enough or almost finished, placed
      before the history never change the episode in progress. */
  lemma {:induction false} EpisodeInProgressSkipsOthers(
    others: seq<WatchHistoryItem>, history: seq<WatchHistoryItem>, seriesId: string, min: real, max: real)
    requires forall i | 0 <= i < |others| :: !InProgress(others[i], seriesId, min, max)
    ensures EpisodeInProgress(others + history, seriesId, min, max) == EpisodeInProgress(history, seriesId, min, max)
  {
    if |others| > 0 {
      assert (others + history)[1..] == others[1..] + history;
      EpisodeInProgressSkipsOthers(others[1..], history, seriesId, min, max);
    } else {
      assert others + history == history;
    }
  }

  /** The `enabled` option of `useEpisodes` (line 77): episodes are fetched only once the season
      filter is defined, and only for an existing series. */
  predicate EpisodesEnabled(seasonFilter: Option<string>, hasSeries: bool) {
    seasonFilter.Some? && hasSeries
  }

  // ---------------------------------------------------------------------------------------------
  // Query parameters

  type Params = map<string, string>

  /** `searchParams.get('r') || ''` */
  function FeedIdOrEmpty(params: Params): (r: string)
    ensures "r" in params ==> r == params["r"]
    ensures "r" !in params ==> r == ""
  {
    if "r" in params then params["r"] else ""
  }

  /** `!!searchParams.get('e')`: an episode is selected. */
  predicate HasEpisodeParam(params: Params) {
    "e" in params && params["e"] != ""
  }

  /** The parameters a call of `setSearchParams({ ...searchParams, e, r, play })` writes. Spreading
      a `URLSearchParams` copies none of its entries, so only the listed keys are written; a key
      whose value is `undefined` (`None`) is absent. */
  function Written(e: Option<string>, r: Option<string>, play: Option<string>): (m: Params)
    ensures forall k :: k in m ==> k == "e" || k == "r" || k == "play"
    ensures ("e" in m <==> e.Some?) && (e.Some? ==> m["e"] == e.value)
    ensures ("r" in m <==> r.Some?) && (r.Some? ==> m["r"] == r.value)
    ensures ("play" in m <==> play.Some?) && (play.Some? ==> m["play"] == play.value)
  {
    var m1 := if e.Some? then map["e" := e.value] else map[];
    var m2 := if r.Some? then m1["r" := r.value] else m1;
    if play.Some? then m2["play" := play.value] else m2
  }

  /** A call of `setSearchParams`: the parameters written and whether the history entry is replaced. */
  datatype ParamsWrite = ParamsWrite(params: Params, replace: bool)

  /** The parameters from which a handler starts never reach the parameters it writes. */
  lemma WrittenDropsOtherParams(e: Option<string>, r: Option<string>, play: Option<string>, key: string)
    requires key != "e" && key != "r" && key != "play"
    ensures key !in Written(e, r, play)
  {
  }

  // ---------------------------------------------------------------------------------------------
  // The content's state

  class SeriesView {
    /** The series' media id. */
    const seriesId: string
    var searchParams: Params
    var seasonFilter: Option<string>
    /** The calls of `setSearchParams` so far, oldest first. */
    var writes: seq<ParamsWrite>

    /** The content as first rendered: the season filter is not yet initialised. */
    constructor (seriesId: string, searchParams: Params)
      ensures this.seriesId == seriesId && this.searchParams == searchParams
      ensures seasonFilter == None && writes == []
      ensures !EpisodesEnabled(seasonFilter, true)
    {
      this.seriesId := seriesId;
      this.searchParams := searchParams;
      seasonFilter := None;
      writes := [];
    }

    /** `play` (line 48): the player is asked to play. */
    function Playing(): bool
      reads this
    {
      PlayRequested(if "play" in searchParams then Some(searchParams["play"]) else None)
    }

    method SetSearchParams(params: Params, replace: bool)
      modifies this
      ensures searchParams == params && writes == old(writes) + [ParamsWrite(params, replace)]
      ensures seasonFilter == old(seasonFilter)
    {
      searchParams := params;
      writes := writes + [ParamsWrite(params, replace)];
    }

    /** `goBack` (lines 98-100), the cinema's close handler: selects the loaded episode (or
        none), keeps the feed, and drops `play`, so the player stops. */
    method GoBack(episode: Option<Item>)
      modifies this
      ensures searchParams == Written(if episode.Some? then Some(episode.value.mediaid) else None,
                                      Some(FeedIdOrEmpty(old(searchParams))), None)
      ensures writes == old(writes) + [ParamsWrite(searchParams, false)]
      ensures !Playing() && seasonFilter == old(seasonFilter)
    {
      var e := if episode.Some? then Some(episode.value.mediaid) else None;
      SetSearchParams(Written(e, Some(FeedIdOrEmpty(searchParams)), None), false);
    }

    /** `onCardClick` (lines 102-107): selects the clicked episode and nothing else, so the feed
        and `play` are dropped. */
    method CardClick(toEpisode: Item)
      modifies this
      ensures searchParams == Written(Some(toEpisode.mediaid), None, None)
      ensures writes == old(writes) + [ParamsWrite(searchParams, false)]
      ensures !Playing() && "r" !in searchParams && seasonFilter == old(seasonFilter)
    {
      SetSearchParams(Written(Some(toEpisode.mediaid), None, None), false);
    }

    /** `handleComplete` (lines 109-111): moves to the next item, or stays on the episode when
        there is none; plays on exactly when there is a next item; keeps the feed. */
    method Complete(nextItem: Option<Item>, episode: Option<Item>)
      modifies this
      ensures var e := if nextItem.Some? then Some(nextItem.value.mediaid)
                       else if episode.Some? then Some(episode.value.mediaid) else None;
        searchParams == Written(e, Some(FeedIdOrEmpty(old(searchParams))), Some(if nextItem.Some? then "1" else "0"))
      ensures writes == old(writes) + [ParamsWrite(searchParams, false)]
      ensures Playing() <==> nextItem.Some?
      ensures seasonFilter == old(seasonFilter)
    {
      var e := if nextItem.Some? then Some(nextItem.value.mediaid)
               else if episode.Some? then Some(episode.value.mediaid) else None;
      SetSearchParams(Written(e, Some(FeedIdOrEmpty(searchParams)), Some(if nextItem.Some? then "1" else "0")), false);
    }

    /** The effect of lines 118-122: with an episode of this series in progress and no episode
        selected, selects it, keeping the feed and replacing the history entry. */
    method AutoSelectEpisodeInProgress(history: seq<WatchHistoryItem>, min: real, max: real)
      modifies this
      ensures var p := EpisodeInProgress(history, seriesId, min, max);
        if p.Some? && !HasEpisodeParam(old(searchParams)) then
          searchParams == Written(Some(p.value.mediaid), Some(FeedIdOrEmpty(old(searchParams))), None) &&
          writes == old(writes) + [ParamsWrite(searchParams, true)]
        else
          searchParams == old(searchParams) && writes == old(writes)
      ensures seasonFilter == old(seasonFilter)
    {
      var inProgress := EpisodeInProgress(history, seriesId, min, max);
      if inProgress.Some? && !HasEpisodeParam(searchParams) {
        SetSearchParams(Written(Some(inProgress.value.mediaid), Some(FeedIdOrEmpty(searchParams)), None), true);
      }
    }

    /** The start-watching button (line 166): plays the loaded episode, or the first episode of
        the season, replacing the history entry. With neither, reading `.mediaid` throws before
        anything is written. */
    method StartWatching(episode: Option<Item>, firstEpisode: Option<Item>)
      modifies this
      ensures episode.Some? || firstEpisode.Some? ==>
        var item := if episode.Some? then episode.value else firstEpisode.value;
        searchParams == Written(Some(item.mediaid), Some(FeedIdOrEmpty(old(searchParams))), Some("1")) &&
        writes == old(writes) + [ParamsWrite(searchParams, true)] && Playing()
      ensures episode.None? && firstEpisode.None? ==> searchParams == old(searchParams) && writes == old(writes)
      ensures seasonFilter == old(seasonFilter)
    {
      if episode.Some? || firstEpisode.Some? {
        var item := if episode.Some? then episode.value else firstEpisode.value;
        SetSearchParams(Written(Some(item.mediaid), Some(FeedIdOrEmpty(searchParams)), Some("1")), true);
      }
    }

    /** The season-filter effect (lines 124-139): nothing while anything is loading; without a
        selected episode, the first filter or `''`; with one, the episode's season, but only while
        the filter is still undefined. */
    method SyncSeasonFilter(
      isSeriesDataLoading: bool, isEpisodeLoading: bool, isEpisodeMetadataLoading: bool,
      filters: seq<string>, metadataSeason: Option<string>)
      modifies this
      ensures isSeriesDataLoading || isEpisodeLoading || isEpisodeMetadataLoading ==> seasonFilter == old(seasonFilter)
      ensures !isSeriesDataLoading && !isEpisodeLoading && !isEpisodeMetadataLoading && !HasEpisodeParam(searchParams) ==>
        seasonFilter == Some(if |filters| > 0 then filters[0] else "")
      ensures !isSeriesDataLoading && !isEpisodeLoading && !isEpisodeMetadataLoading && HasEpisodeParam(searchParams) ==>
        seasonFilter == if old(seasonFilter).None? && metadataSeason.Some? then metadataSeason else old(seasonFilter)
      ensures old(seasonFilter).Some? ==> seasonFilter.Some?
      ensures !isSeriesDataLoading && !isEpisodeLoading && !isEpisodeMetadataLoading && !HasEpisodeParam(searchParams) ==>
        EpisodesEnabled(seasonFilter, true)
      ensures searchParams == old(searchParams) && writes == old(writes)
    {
      if isSeriesDataLoading || isEpisodeLoading || isEpisodeMetadataLoading {
        return;
      }
      if !HasEpisodeParam(searchParams) {
        seasonFilter := Some(if |filters| > 0 && filters[0] != "" then filters[0] else "");
        return;
      }
      if seasonFilter.None? && metadataSeason.Some? {
        seasonFilter := metadataSeason;
      }
    }

    /** The layout's `setFilter` (line 232): the viewer picks a season. */
    method SetSeasonFilter(filter: string)
      modifies this
      ensures seasonFilter == Some(filter)
      ensures searchParams == old(searchParams) && writes == old(writes)
    {
      seasonFilter := Some(filter);
    }
  }

  /** Once the season filter is defined, running the effect again with an episode selected
      keeps it, whatever the metadata says. */
  method SeasonFilterSettlesWithEpisode(view: SeriesView, filters: seq<string>, season1: Option<string>, season2: Option<string>)
    requires HasEpisodeParam(view.searchParams)
    modifies view
    ensures view.seasonFilter.Some? || (old(view.seasonFilter).None? && season1.None? && season2.None?)
    ensures old(view.seasonFilter).Some? ==> view.seasonFilter == old(view.seasonFilter)
  {
    view.SyncSeasonFilter(false, false, false, filters, season1);
    view.SyncSeasonFilter(false, false, false, filters, season2);
  }
}
